/**
 * The stand-alone sign-up page: a chain of early-return checks (Lakehead
 * address, then case-insensitive nickname uniqueness), the authentication
 * service's sign-up, and the insert of the new profile.
 */
module SignUpPage {
  import opened Wrappers
  import opened Strings
  import opened Profiles
  import FormRules

  const LakeheadSuffix := FormRules.LakeheadSuffix

  /** What the authentication service's `signUp` answers (an oracle of the model). */
  datatype SignUpReply = SignUpError(message: string) | SignedUp(userId: Option<string>)

  /** The external calls the handler makes, in the order it makes them. */
  datatype Call =
    | QueryNickname(lowerNickname: string)
    | SignUpCall(email: string, password: string, displayName: string)
    | InsertProfile(row: Profile)

  /** Where the handler stops; the alert it shows is named after the outcome. */
  datatype Outcome =
    | NotLakehead
    | NicknameInUse
    | AuthFailed(message: string)
    | NoUser
    | ProfileFailed
    | Registered

  /**
   * `existingUser` is non-null: the nickname query succeeded and exactly one
   * row holds the lower-cased nickname.
   */
  predicate NicknameFound(rows: seq<Profile>, nickname: string, queryFails: bool) {
    !queryFails && CountLowerNickname(rows, ToLower(nickname)) == 1
  }

  /**
   * The decision the handler reaches on a table `rows`, given whether the
   * nickname query fails and the service's answers.
   */
  function Decide(rows: seq<Profile>, email: string, nickname: string, queryFails: bool,
                  reply: SignUpReply, insertFails: bool): (o: Outcome)
    ensures o == NotLakehead <==> !EndsWith(email, LakeheadSuffix)
    ensures o == NicknameInUse <==> EndsWith(email, LakeheadSuffix) && NicknameFound(rows, nickname, queryFails)
    ensures o.AuthFailed? <==>
      EndsWith(email, LakeheadSuffix) && !NicknameFound(rows, nickname, queryFails) && reply.SignUpError?
    ensures o.AuthFailed? ==> o.message == reply.message
    ensures o == NoUser <==>
      EndsWith(email, LakeheadSuffix) && !NicknameFound(rows, nickname, queryFails) && reply == SignedUp(None)
    ensures o == Registered <==>
      EndsWith(email, LakeheadSuffix) && !NicknameFound(rows, nickname, queryFails) &&
      reply.SignedUp? && reply.userId.Some? && !insertFails
  {
    if !EndsWith(email, LakeheadSuffix) then NotLakehead
    else if NicknameFound(rows, nickname, queryFails) then NicknameInUse
    else match reply
      case SignUpError(message) => AuthFailed(message)
      case SignedUp(None) => NoUser
      case SignedUp(Some(_)) => if insertFails then ProfileFailed else Registered
  }

  /** Every call the handler can make, in order; a run makes a prefix of these. */
  function AllCalls(email: string, nickname: string, password: string, userId: string): seq<Call> {
    [QueryNickname(ToLower(nickname)), SignUpCall(email, password, nickname),
     InsertProfile(NewProfile(userId, nickname, email))]
  }

  /** The id the insert would use, when the reply carries one. */
  function ReplyUserId(reply: SignUpReply): string {
    if reply.SignedUp? && reply.userId.Some? then reply.userId.value else ""
  }

  /** How many of the calls a run with outcome `o` makes. */
  function CallsMade(o: Outcome): (n: nat)
    ensures n <= 3
    ensures n == 0 <==> o == NotLakehead
    ensures n == 1 <==> o == NicknameInUse
    ensures n == 2 <==> o.AuthFailed? || o == NoUser
    ensures n == 3 <==> o == Registered || o == ProfileFailed
  {
    match o
    case NotLakehead => 0
    case NicknameInUse => 1
    case AuthFailed(_) => 2
    case NoUser => 2
    case ProfileFailed => 3
    case Registered => 3
  }

  class Page {
    var email: string
    var nickname: string
    var password: string
    var loading: bool

    constructor ()
      ensures email == nickname == password == "" && !loading
    {
      email := "";
      nickname := "";
      password := "";
      loading := false;
    }

    /** The e-mail input's `onChange`: stores what was typed. */
    method EditEmail(value: string)
      modifies this`email
      ensures email == value
    {
      email := value;
    }

    /** The nickname input's `onChange`: stores what was typed. */
    method EditNickname(value: string)
      modifies this`nickname
      ensures nickname == value
    {
      nickname := value;
    }

    /** The password input's `onChange`: stores what was typed. */
    method EditPassword(value: string)
      modifies this`password
      ensures password == value
    {
      password := value;
    }

    /**
     * `handleSignUp`. `queryFails` is whether the nickname query answers
     * with an error, `reply` what `signUp` would answer and `insertFails`
     * whether the insert would be refused; `calls` lists the external calls
     * actually made. Unique nicknames stay unique unless the query failed.
     */
    method HandleSignUp(db: ProfileTable, queryFails: bool, reply: SignUpReply, insertFails: bool)
      returns (outcome: Outcome, calls: seq<Call>)
      modifies this`loading, db
      ensures old(db.Valid()) && !queryFails ==> db.Valid()
      ensures !loading
      ensures outcome == Decide(old(db.rows), email, nickname, queryFails, reply, insertFails)
      ensures calls == AllCalls(email, nickname, password, ReplyUserId(reply))[..CallsMade(outcome)]
      ensures outcome == Registered ==> db.rows == old(db.rows) + [NewProfile(reply.userId.value, nickname, email)]
      ensures outcome != Registered ==> db.rows == old(db.rows)
    {
      loading := true;
      calls := [];
      if !EndsWith(email, LakeheadSuffix) {
        loading := false;
        return NotLakehead, calls;
      }
      var key := ToLower(nickname);
      calls := calls + [QueryNickname(key)];
      if !queryFails && db.FindsSingleRow(key) {
        loading := false;
        return NicknameInUse, calls;
      }
      calls := calls + [SignUpCall(email, password, nickname)];
      match reply {
        case SignUpError(message) =>
          outcome := AuthFailed(message);
        case SignedUp(None) =>
          outcome := NoUser;
        case SignedUp(Some(userId)) =>
          var row := NewProfile(userId, nickname, email);
          calls := calls + [InsertProfile(row)];
          if insertFails {
            outcome := ProfileFailed;
          } else {
            if db.Valid() && !queryFails {
              UniqueCountAtMostOne(db.rows, key);
              CountPositiveIff(db.rows, key);
              AppendKeepsUnique(db.rows, row);
            }
            db.Insert(row);
            outcome := Registered;
          }
      }
      loading := false;
    }
  }

  /** The table after a run of the handler. */
  function RowsAfter(rows: seq<Profile>, email: string, nickname: string, queryFails: bool,
                     reply: SignUpReply, insertFails: bool): seq<Profile> {
    if Decide(rows, email, nickname, queryFails, reply, insertFails) == Registered
    then rows + [NewProfile(reply.userId.value, nickname, email)]
    else rows
  }

  /**
   * On a table with unique nicknames, once a nickname is registered through
   * a query that answered, every nickname with the same lower-case form is
   * refused while the query keeps answering, whatever the service would say.
   */
  lemma RegisteredNicknameBlocksCaseVariants(
    rows: seq<Profile>, email: string, nickname: string, reply: SignUpReply,
    email2: string, nickname2: string, reply2: SignUpReply, insertFails2: bool)
    requires UniqueLowerNicknames(rows)
    requires Decide(rows, email, nickname, false, reply, false) == Registered
    requires ToLower(nickname2) == ToLower(nickname)
    requires EndsWith(email2, LakeheadSuffix)
    ensures Decide(RowsAfter(rows, email, nickname, false, reply, false), email2, nickname2, false, reply2, insertFails2)
         == NicknameInUse
  {
    var key := ToLower(nickname);
    UniqueCountAtMostOne(rows, key);
    CountAppend(rows, NewProfile(reply.userId.value, nickname, email), key);
  }

  /** "Alice" registered, then "alice" is taken. */
  lemma AliceThenAlice(rows: seq<Profile>, email: string, reply: SignUpReply, email2: string, reply2: SignUpReply)
    requires UniqueLowerNicknames(rows)
    requires Decide(rows, email, "Alice", false, reply, false) == Registered
    requires EndsWith(email2, LakeheadSuffix)
    ensures Decide(RowsAfter(rows, email, "Alice", false, reply, false), email2, "alice", false, reply2, false) == NicknameInUse
  {
    assert ToLower("alice") == ToLower("Alice");
    RegisteredNicknameBlocksCaseVariants(rows, email, "Alice", reply, email2, "alice", reply2, false);
  }

  /**
   * The check fails open: when the nickname query answers with an error, a
   * taken nickname is registered again, and the table then holds it twice.
   */
  lemma FailedQueryRegistersTakenNickname(rows: seq<Profile>, email: string, nickname: string, userId: string)
    requires EndsWith(email, LakeheadSuffix)
    requires CountLowerNickname(rows, ToLower(nickname)) == 1
    ensures Decide(rows, email, nickname, true, SignedUp(Some(userId)), false) == Registered
    ensures CountLowerNickname(RowsAfter(rows, email, nickname, true, SignedUp(Some(userId)), false), ToLower(nickname)) == 2
  {
    CountAppend(rows, NewProfile(userId, nickname, email), ToLower(nickname));
  }

  /** A nickname held by two rows is no longer seen by the check, even when the query answers. */
  lemma DuplicatedNicknameGoesUnseen(rows: seq<Profile>, email: string, nickname: string,
                                     reply: SignUpReply, insertFails: bool)
    requires CountLowerNickname(rows, ToLower(nickname)) >= 2
    ensures Decide(rows, email, nickname, false, reply, insertFails) != NicknameInUse
  {
  }
}
