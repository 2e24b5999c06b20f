/**
 * The station's access-code action: a signed-in user who enters the
 * physics code gets `is_physics_unlocked` set on their profile.
 */
module StationActions {
  import opened Wrappers
  import opened Profiles

  const DefaultAccessCode := "1234"
  const NotAuthenticated := "Not authenticated"
  const InvalidAccessCode := "Invalid access code"
  const UpdateFailed := "Failed to update profile"

  /** The signed-in user `getUser` reports. */
  datatype User = User(id: string, email: string)

  datatype StationResult = Success | Failure(error: string)

  /** `process.env.PHYSICS_PASSWORD || '1234'`. */
  function ExpectedCode(physicsPassword: Option<string>): (code: string)
    ensures code != ""
    ensures physicsPassword.Some? && physicsPassword.value != "" ==> code == physicsPassword.value
    ensures physicsPassword.None? || physicsPassword.value == "" ==> code == DefaultAccessCode
  {
    if physicsPassword.Some? && physicsPassword.value != "" then physicsPassword.value else DefaultAccessCode
  }

  /**
   * The answer of `verifyAccessCode`: the sign-in guard first, then the
   * code, then the update's own outcome (`updateFails`).
   */
  function Verdict(user: Option<User>, userError: bool, code: string, physicsPassword: Option<string>,
                   updateFails: bool): (r: StationResult)
    ensures userError || user.None? ==> r == Failure(NotAuthenticated)
    ensures r == Success <==> !userError && user.Some? && code == ExpectedCode(physicsPassword) && !updateFails
    ensures r == Failure(InvalidAccessCode) <==> !userError && user.Some? && code != ExpectedCode(physicsPassword)
    ensures r == Failure(UpdateFailed) <==>
      !userError && user.Some? && code == ExpectedCode(physicsPassword) && updateFails
  {
    if userError || user.None? then Failure(NotAuthenticated)
    else if code != ExpectedCode(physicsPassword) then Failure(InvalidAccessCode)
    else if updateFails then Failure(UpdateFailed)
    else Success
  }

  /** The empty code never unlocks. */
  lemma EmptyCodeNeverMatches(user: Option<User>, userError: bool, physicsPassword: Option<string>, updateFails: bool)
    ensures Verdict(user, userError, "", physicsPassword, updateFails) != Success
  {
    assert ExpectedCode(physicsPassword) != "";
  }

  /** `verifyAccessCode(code)` against the profiles table. */
  method VerifyAccessCode(db: ProfileTable, user: Option<User>, userError: bool, code: string,
                          physicsPassword: Option<string>, updateFails: bool) returns (r: StationResult)
    modifies db
    ensures old(db.Valid()) ==> db.Valid()
    ensures r == Verdict(user, userError, code, physicsPassword, updateFails)
    ensures r == Success ==> db.rows == Unlocked(old(db.rows), user.value.id)
    ensures r != Success ==> db.rows == old(db.rows)
  {
    if userError || user.None? {
      return Failure(NotAuthenticated);
    }
    var correctCode := ExpectedCode(physicsPassword);
    if code != correctCode {
      return Failure(InvalidAccessCode);
    }
    if updateFails {
      return Failure(UpdateFailed);
    }
    db.SetPhysicsUnlocked(user.value.id);
    return Success;
  }

  /** The table after one call. */
  function RowsAfter(rows: seq<Profile>, user: Option<User>, userError: bool, code: string,
                     physicsPassword: Option<string>, updateFails: bool): seq<Profile> {
    if Verdict(user, userError, code, physicsPassword, updateFails) == Success
    then Unlocked(rows, user.value.id) else rows
  }

  /**
   * A call only ever raises flags, and only on the caller's rows; every
   * other field of every row is kept.
   */
  lemma OnlyCallerUnlocked(rows: seq<Profile>, user: Option<User>, userError: bool, code: string,
                           physicsPassword: Option<string>, updateFails: bool, i: nat)
    requires i < |rows|
    ensures |RowsAfter(rows, user, userError, code, physicsPassword, updateFails)| == |rows|
    ensures var row := RowsAfter(rows, user, userError, code, physicsPassword, updateFails)[i];
      row.(isPhysicsUnlocked := rows[i].isPhysicsUnlocked) == rows[i] &&
      (rows[i].isPhysicsUnlocked ==> row.isPhysicsUnlocked) &&
      (row != rows[i] ==> user.Some? && rows[i].id == user.value.id)
  {
  }

  /** A second correct call finds the flag set, succeeds again and changes nothing more. */
  lemma RepeatIsIdempotent(rows: seq<Profile>, user: User, code: string, physicsPassword: Option<string>)
    requires code == ExpectedCode(physicsPassword)
    ensures var once := RowsAfter(rows, Some(user), false, code, physicsPassword, false);
      Verdict(Some(user), false, code, physicsPassword, false) == Success &&
      RowsAfter(once, Some(user), false, code, physicsPassword, false) == once &&
      forall i :: 0 <= i < |once| && once[i].id == user.id ==> once[i].isPhysicsUnlocked
  {
    UnlockedIdempotent(rows, user.id);
  }
}
