/**
 * The client-side input rules of the login/signup page: the e-mail pattern
 * `^[^\s@]+@[^\s@]+\.[^\s@]+$` and domain rules, the nickname length and
 * character rules, and the password minimum, each as the error message the
 * page shows ('' when there is none).
 */
module FormRules {
  import opened Wrappers
  import opened Strings

  const InvalidEmailFormat := "⚠ Invalid email format"
  const LakeheadEmailRequired := "⚠ Lakehead University email required"
  const InvalidEmailDomain := "⚠ Invalid email domain"
  const NicknameLengthError := "⚠ Nickname must be 2-10 characters"
  const NicknameCharsError := "⚠ Unauthorized characters detected"
  const NicknameTakenError := "⚠ Nickname already in use"
  const PasswordTooShort := "⚠ Password too short (min 6)"
  const PasswordsDoNotMatch := "⚠ Passwords do not match"

  const LakeheadSuffix := "@lakeheadu.ca"
  const GmailSuffix := "@gmail.com"
  const MinPasswordLength := 6
  const MinNicknameLength := 2
  const MaxNicknameLength := 10

  // ---------------------------------------------------------------- e-mail

  /** The character class `[^\s@]`. */
  predicate EmailChar(c: char) {
    !IsSpace(c) && c != '@'
  }

  predicate AllEmailChars(s: string) {
    forall i :: 0 <= i < |s| ==> EmailChar(s[i])
  }

  /**
   * What the regular expression accepts, read off its shape: a non-empty
   * local part, '@', a non-empty label, '.', a non-empty rest, none of the
   * three parts holding whitespace or '@'.
   */
  ghost predicate MatchesEmailPattern(s: string) {
    exists at: nat, dot: nat ::
      0 < at && at + 1 < dot && dot + 1 < |s| && s[at] == '@' && s[dot] == '.' &&
      AllEmailChars(s[..at]) && AllEmailChars(s[at + 1..dot]) && AllEmailChars(s[dot + 1..])
  }

  predicate NoWhitespace(s: string) {
    forall i :: 0 <= i < |s| ==> !IsSpace(s[i])
  }

  /**
   * The regular expression's test, computed: no whitespace, a first '@'
   * that is not the first character and has no '@' after it, and a '.' after
   * it that is neither the first nor the last character of the domain.
   */
  predicate IsEmailFormat(s: string) {
    NoWhitespace(s) &&
    match IndexOfFrom(s, "@", 0)
    case None => false
    case Some(at) =>
      0 < at && at + 3 < |s| + 1 && !Contains(s[at + 1..], "@") && Contains(s[at + 2..|s| - 1], ".")
  }

  lemma OccursAtChar(s: string, c: char, i: nat)
    ensures OccursAt(s, [c], i) <==> i < |s| && s[i] == c
  {
    if i < |s| && s[i] == c {
      assert s[i..i + 1] == [c];
    }
  }

  lemma ContainsChar(s: string, c: char)
    ensures Contains(s, [c]) <==> exists i :: 0 <= i < |s| && s[i] == c
  {
    ContainsIff(s, [c]);
    if exists i :: 0 <= i < |s| && s[i] == c {
      var i :| 0 <= i < |s| && s[i] == c;
      OccursAtChar(s, c, i);
    }
    if Contains(s, [c]) {
      var i: nat :| OccursAt(s, [c], i);
      OccursAtChar(s, c, i);
    }
  }

  /** Every character of a string lies in one of three pieces around two split points. */
  lemma PiecesCover(s: string, at: nat, dot: nat, i: nat)
    requires 0 < at < dot < |s| && i < |s| && i != at && i != dot
    requires AllEmailChars(s[..at]) && AllEmailChars(s[at + 1..dot]) && AllEmailChars(s[dot + 1..])
    ensures EmailChar(s[i])
  {
    if i < at {
      assert s[..at][i] == s[i];
    } else if i < dot {
      assert s[at + 1..dot][i - at - 1] == s[i];
    } else {
      assert s[dot + 1..][i - dot - 1] == s[i];
    }
  }

  /** No character of `s[from..]` is '@' exactly when the slice does not contain "@". */
  lemma NoAtAfter(s: string, from: nat)
    requires from <= |s|
    ensures !Contains(s[from..], "@") <==> forall i :: from <= i < |s| ==> s[i] != '@'
  {
    ContainsChar(s[from..], '@');
    if exists i :: from <= i < |s| && s[i] == '@' {
      var i :| from <= i < |s| && s[i] == '@';
      assert s[from..][i - from] == s[i];
    }
  }

  lemma EmailFormatToPattern(s: string)
    requires IsEmailFormat(s)
    ensures MatchesEmailPattern(s)
  {
    var at := IndexOfFrom(s, "@", 0).value;
    OccursAtChar(s, '@', at);
    NoAtAfter(s, at + 1);
    var domain := s[at + 2..|s| - 1];
    ContainsChar(domain, '.');
    var j :| 0 <= j < |domain| && domain[j] == '.';
    var dot := at + 2 + j;
    assert s[dot] == domain[j];
    forall i | 0 <= i < at ensures EmailChar(s[i]) {
      OccursAtChar(s, '@', i);
    }
    assert AllEmailChars(s[..at]);
    var middle := s[at + 1..dot];
    forall i | 0 <= i < |middle| ensures EmailChar(middle[i]) {
      assert middle[i] == s[at + 1 + i];
    }
    var rest := s[dot + 1..];
    forall i | 0 <= i < |rest| ensures EmailChar(rest[i]) {
      assert rest[i] == s[dot + 1 + i];
    }
  }

  /** Under the pattern, the string has no whitespace and its only '@' is the one at `at`. */
  lemma PatternCharacters(s: string, at: nat, dot: nat)
    requires 0 < at && at + 1 < dot && dot + 1 < |s| && s[at] == '@' && s[dot] == '.'
    requires AllEmailChars(s[..at]) && AllEmailChars(s[at + 1..dot]) && AllEmailChars(s[dot + 1..])
    ensures NoWhitespace(s)
    ensures forall i :: 0 <= i < |s| && s[i] == '@' ==> i == at
  {
    forall i | 0 <= i < |s| ensures !IsSpace(s[i]) && (s[i] == '@' ==> i == at) {
      if i != at && i != dot {
        PiecesCover(s, at, dot, i);
      }
    }
  }

  lemma PatternToEmailFormat(s: string)
    requires MatchesEmailPattern(s)
    ensures IsEmailFormat(s)
  {
    var at: nat, dot: nat :|
      0 < at && at + 1 < dot && dot + 1 < |s| && s[at] == '@' && s[dot] == '.' &&
      AllEmailChars(s[..at]) && AllEmailChars(s[at + 1..dot]) && AllEmailChars(s[dot + 1..]);
    PatternCharacters(s, at, dot);
    FirstAtIs(s, at);
    NoAtAfter(s, at + 1);
    var domain := s[at + 2..|s| - 1];
    assert domain[dot - at - 2] == '.';
    ContainsChar(domain, '.');
  }

  /** A string whose only '@' is at `at` finds it there. */
  lemma FirstAtIs(s: string, at: nat)
    requires at < |s| && s[at] == '@'
    requires forall i :: 0 <= i < |s| && s[i] == '@' ==> i == at
    ensures IndexOfFrom(s, "@", 0) == Some(at)
  {
    var found := IndexOfFrom(s, "@", 0);
    OccursAtChar(s, '@', at);
    OccursAtChar(s, '@', found.value);
  }

  /** The computed test and the pattern accept exactly the same strings. */
  lemma EmailFormatMatchesPattern(s: string)
    ensures IsEmailFormat(s) <==> MatchesEmailPattern(s)
  {
    if IsEmailFormat(s) {
      EmailFormatToPattern(s);
    }
    if MatchesEmailPattern(s) {
      PatternToEmailFormat(s);
    }
  }

  /** The domain rule: sign-up takes only Lakehead addresses, login also Gmail ones. */
  predicate DomainAllowed(email: string, isSignUp: bool) {
    if isSignUp then EndsWith(email, LakeheadSuffix)
    else EndsWith(email, LakeheadSuffix) || EndsWith(email, GmailSuffix)
  }

  /** `validateEmail`: the message it leaves in the e-mail error field. */
  function EmailError(value: string, isSignUp: bool): (message: string)
    ensures message == "" <==> value == "" || (MatchesEmailPattern(value) && DomainAllowed(value, isSignUp))
    ensures value != "" && !MatchesEmailPattern(value) ==> message == InvalidEmailFormat
    ensures value != "" && MatchesEmailPattern(value) && !DomainAllowed(value, isSignUp) ==>
      message == (if isSignUp then LakeheadEmailRequired else InvalidEmailDomain)
    ensures message in {"", InvalidEmailFormat, LakeheadEmailRequired, InvalidEmailDomain}
  {
    EmailFormatMatchesPattern(value);
    if value == "" then ""
    else if !IsEmailFormat(value) then InvalidEmailFormat
    else if isSignUp then
      (if !EndsWith(value, LakeheadSuffix) then LakeheadEmailRequired else "")
    else if !EndsWith(value, LakeheadSuffix) && !EndsWith(value, GmailSuffix) then InvalidEmailDomain
    else ""
  }

  // -------------------------------------------------------------- nickname

  /** The character class `[a-zA-Z0-9_]`. */
  predicate NicknameChar(c: char) {
    ('a' <= c <= 'z') || ('A' <= c <= 'Z') || ('0' <= c <= '9') || c == '_'
  }

  /** `/^[a-zA-Z0-9_]+$/.test(value)`. */
  predicate MatchesNicknamePattern(value: string) {
    |value| >= 1 && forall i :: 0 <= i < |value| ==> NicknameChar(value[i])
  }

  /** What the page accepts as a nickname before asking the server; `length` counts UTF-16 code units. */
  predicate NicknameLocallyValid(value: string) {
    MinNicknameLength <= Utf16Length(value) <= MaxNicknameLength &&
    forall i :: 0 <= i < |value| ==> NicknameChar(value[i])
  }

  predicate IsLocalNicknameError(message: string) {
    message == NicknameLengthError || message == NicknameCharsError
  }

  /** The functional update `prev => IsLocalNicknameError(prev) ? '' : prev`. */
  function ClearLocalNicknameError(prev: string): (next: string)
    ensures !IsLocalNicknameError(next)
    ensures !IsLocalNicknameError(prev) ==> next == prev
  {
    if IsLocalNicknameError(prev) then "" else prev
  }

  /** The result `validateNicknameLocal` returns. */
  function NicknameLocalOk(value: string): (ok: bool)
    ensures ok <==> NicknameLocallyValid(value)
  {
    if value == "" then false
    else if Utf16Length(value) < MinNicknameLength || Utf16Length(value) > MaxNicknameLength then false
    else MatchesNicknamePattern(value)
  }

  /** The nickname error field after `validateNicknameLocal(value)`, from its previous content. */
  function NicknameErrorAfterLocal(prev: string, value: string): (next: string)
    ensures value == "" || NicknameLocallyValid(value) ==> next == ClearLocalNicknameError(prev)
    ensures value != "" && (Utf16Length(value) < MinNicknameLength || Utf16Length(value) > MaxNicknameLength) ==>
      next == NicknameLengthError
    ensures MinNicknameLength <= Utf16Length(value) <= MaxNicknameLength && !NicknameLocallyValid(value) ==>
      next == NicknameCharsError
  {
    if value == "" then ClearLocalNicknameError(prev)
    else if Utf16Length(value) < MinNicknameLength || Utf16Length(value) > MaxNicknameLength then NicknameLengthError
    else if !MatchesNicknamePattern(value) then NicknameCharsError
    else ClearLocalNicknameError(prev)
  }

  /** The nickname error field after the server's duplicate answer. */
  function NicknameErrorAfterRemote(prev: string, taken: bool): (next: string)
    ensures taken ==> next == NicknameTakenError
    ensures !taken && prev != NicknameTakenError ==> next == prev
    ensures !taken ==> next != NicknameTakenError
  {
    if taken then NicknameTakenError
    else if prev == NicknameTakenError then "" else prev
  }

  /**
   * The debounced duplicate check: whether it is scheduled, and the
   * `lower_nickname` it asks for. It runs only in sign-up mode and only for a
   * nickname the local rules accept.
   */
  function DuplicateCheckQuery(isSignUp: bool, nickname: string): (query: Option<string>)
    ensures query.Some? <==> isSignUp && NicknameLocallyValid(nickname)
    ensures query.Some? ==> query.value == ToLower(nickname)
  {
    if !isSignUp || nickname == "" then None
    else
      var lengthOk := Utf16Length(nickname) >= MinNicknameLength && Utf16Length(nickname) <= MaxNicknameLength;
      var charsOk := MatchesNicknamePattern(nickname);
      if !lengthOk || !charsOk then None
      else Some(ToLower(nickname))
  }

  /** The local rules leave "already in use" in place; only the server's answer removes it. */
  lemma TakenMessageSurvivesLocalCheck(value: string)
    requires value == "" || NicknameLocallyValid(value)
    ensures NicknameErrorAfterLocal(NicknameTakenError, value) == NicknameTakenError
  {
  }

  /** The server's answer leaves the local messages in place. */
  lemma LocalMessagesSurviveRemoteCheck(prev: string)
    requires IsLocalNicknameError(prev)
    ensures NicknameErrorAfterRemote(prev, false) == prev
  {
  }

  // -------------------------------------------------------------- password

  /** `validatePassword`: the message it leaves in the password error field. */
  function PasswordError(value: string): (message: string)
    ensures message == "" <==> value == "" || Utf16Length(value) >= MinPasswordLength
    ensures message != "" ==> message == PasswordTooShort
  {
    if value == "" then ""
    else if Utf16Length(value) < MinPasswordLength then PasswordTooShort
    else ""
  }

  /**
   * Both length rules count UTF-16 code units: three emoji make a password of
   * length 6, and one emoji is a nickname of length 2 that fails only the
   * character rule.
   */
  lemma AstralCharactersCountTwice()
    ensures PasswordError("\U{1F600}\U{1F600}\U{1F600}") == ""
    ensures PasswordError("abcde") == PasswordTooShort
    ensures NicknameErrorAfterLocal("", "\U{1F600}") == NicknameCharsError
    ensures NicknameErrorAfterLocal("", "a") == NicknameLengthError
  {
    assert Utf16Length("\U{1F600}\U{1F600}\U{1F600}") == 6;
    assert Utf16Length("\U{1F600}") == 2;
    assert !NicknameChar("\U{1F600}"[0]);
  }
}
