/**
 * The `profiles` table as the pages and server actions see it: rows with an
 * id, the nickname as typed, its lower-cased copy used for case-insensitive
 * uniqueness, the e-mail, and the physics-unlock flag.
 */
module Profiles {
  import opened Strings

  datatype Profile = Profile(
    id: string,
    nickname: string,
    lowerNickname: string,
    email: string,
    isPhysicsUnlocked: bool)

  /** A row as the sign-up flows insert it; the unlock flag starts false. */
  function NewProfile(id: string, nickname: string, email: string): (p: Profile)
    ensures p.id == id && p.nickname == nickname && p.email == email
    ensures p.lowerNickname == ToLower(nickname) && !p.isPhysicsUnlocked
  {
    Profile(id, nickname, ToLower(nickname), email, false)
  }

  /** `.eq('lower_nickname', key)` finds a row. */
  predicate HasLowerNickname(rows: seq<Profile>, key: string) {
    exists i :: 0 <= i < |rows| && rows[i].lowerNickname == key
  }

  /** How many rows have lower-cased nickname `key`. */
  function CountLowerNickname(rows: seq<Profile>, key: string): nat {
    if rows == [] then 0
    else CountLowerNickname(rows[..|rows| - 1], key) + (if rows[|rows| - 1].lowerNickname == key then 1 else 0)
  }

  lemma {:induction false} CountPositiveIff(rows: seq<Profile>, key: string)
    ensures CountLowerNickname(rows, key) > 0 <==> HasLowerNickname(rows, key)
  {
    if rows != [] {
      var init := rows[..|rows| - 1];
      CountPositiveIff(init, key);
      if HasLowerNickname(init, key) {
        var i :| 0 <= i < |init| && init[i].lowerNickname == key;
        assert rows[i] == init[i];
      }
      if HasLowerNickname(rows, key) && rows[|rows| - 1].lowerNickname != key {
        var i :| 0 <= i < |rows| && rows[i].lowerNickname == key;
        assert init[i] == rows[i];
      }
    }
  }

  /** Appending a row counts it once more exactly when it has the key. */
  lemma CountAppend(rows: seq<Profile>, p: Profile, key: string)
    ensures CountLowerNickname(rows + [p], key) == CountLowerNickname(rows, key) + (if p.lowerNickname == key then 1 else 0)
  {
    assert (rows + [p])[..|rows|] == rows;
  }

  /** No two rows share a lower-cased nickname. */
  predicate UniqueLowerNicknames(rows: seq<Profile>) {
    forall i, j :: 0 <= i < j < |rows| ==> rows[i].lowerNickname != rows[j].lowerNickname
  }

  /** `.update({ is_physics_unlocked: true }).eq('id', id)`: every row with that id gets the flag. */
  function Unlocked(rows: seq<Profile>, id: string): (r: seq<Profile>)
    ensures |r| == |rows|
    ensures forall i :: 0 <= i < |rows| && rows[i].id == id ==> r[i] == rows[i].(isPhysicsUnlocked := true)
    ensures forall i :: 0 <= i < |rows| && rows[i].id != id ==> r[i] == rows[i]
  {
    if rows == [] then []
    else
      var head := if rows[0].id == id then rows[0].(isPhysicsUnlocked := true) else rows[0];
      [head] + Unlocked(rows[1..], id)
  }

  /** The update never clears a flag. */
  lemma UnlockedNeverResets(rows: seq<Profile>, id: string, i: nat)
    requires i < |rows| && rows[i].isPhysicsUnlocked
    ensures Unlocked(rows, id)[i].isPhysicsUnlocked
  {
  }

  /** Running the update twice is the same as once. */
  lemma UnlockedIdempotent(rows: seq<Profile>, id: string)
    ensures Unlocked(Unlocked(rows, id), id) == Unlocked(rows, id)
  {
    var once := Unlocked(rows, id);
    var twice := Unlocked(once, id);
    assert forall i :: 0 <= i < |rows| ==> twice[i] == once[i];
  }

  /** The update changes no nickname, so it keeps nicknames unique. */
  lemma UnlockedKeepsNicknames(rows: seq<Profile>, id: string)
    requires UniqueLowerNicknames(rows)
    ensures UniqueLowerNicknames(Unlocked(rows, id))
    ensures forall key :: HasLowerNickname(Unlocked(rows, id), key) <==> HasLowerNickname(rows, key)
  {
    var r := Unlocked(rows, id);
    assert forall i :: 0 <= i < |rows| ==> r[i].lowerNickname == rows[i].lowerNickname;
  }

  /** With unique nicknames a key is held by at most one row. */
  lemma {:induction false} UniqueCountAtMostOne(rows: seq<Profile>, key: string)
    requires UniqueLowerNicknames(rows)
    ensures CountLowerNickname(rows, key) <= 1
  {
    if rows != [] {
      var init := rows[..|rows| - 1];
      assert UniqueLowerNicknames(init) by {
        forall i, j | 0 <= i < j < |init| ensures init[i].lowerNickname != init[j].lowerNickname {
          assert init[i] == rows[i] && init[j] == rows[j];
        }
      }
      UniqueCountAtMostOne(init, key);
      if rows[|rows| - 1].lowerNickname == key {
        assert !HasLowerNickname(init, key) by {
          forall i | 0 <= i < |init| ensures init[i].lowerNickname != key {
            assert init[i] == rows[i];
          }
        }
        CountPositiveIff(init, key);
      }
    }
  }

  /** A row appended with a lower nickname not yet present keeps nicknames unique. */
  lemma AppendKeepsUnique(rows: seq<Profile>, p: Profile)
    requires UniqueLowerNicknames(rows) && !HasLowerNickname(rows, p.lowerNickname)
    ensures UniqueLowerNicknames(rows + [p])
  {
  }

  /** The table itself, changed in place by inserts and updates. */
  class ProfileTable {
    var rows: seq<Profile>

    predicate Valid()
      reads this
    {
      UniqueLowerNicknames(rows)
    }

    constructor ()
      ensures Valid() && rows == []
    {
      rows := [];
    }

    /**
     * `.select('lower_nickname').eq('lower_nickname', key).maybeSingle()`
     * returns a row: exactly one row matches (with several it answers with an
     * error and no row).
     */
    predicate FindsSingleRow(key: string)
      reads this
    {
      CountLowerNickname(rows, key) == 1
    }

    method Insert(p: Profile)
      modifies this
      ensures rows == old(rows) + [p]
    {
      rows := rows + [p];
    }

    method SetPhysicsUnlocked(id: string)
      modifies this
      ensures rows == Unlocked(old(rows), id)
      ensures old(Valid()) ==> Valid()
    {
      if Valid() {
        UnlockedKeepsNicknames(rows, id);
      }
      rows := Unlocked(rows, id);
    }
  }
}
