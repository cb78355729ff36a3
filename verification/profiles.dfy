/** The library of aircraft profiles behind the profile manager: each profile
    is a registration with the aircraft's empty weight and empty arm. A save
    validates the form and either overwrites the edited slot or appends; a
    confirmed delete removes one slot. Persistence and redrawing are not
    modelled. */
module Profiles {
  import opened Basics
  import opened Text

  datatype Profile = Profile(registration: string, emptyWeight: real, emptyArm: real)

  // ---------------------------------------------------------------------------
  // Registration normalisation: `value.trim().toUpperCase()`

  /** The registration as saved: no white space at either end, no lower-case
      ASCII letter, and exactly as long as the trimmed entry. */
  function NormalizeRegistration(s: string): (r: string)
    ensures NoSurroundingSpace(r) && NoLowerCase(r)
    ensures |r| == |Trim(s)| <= |s|
    ensures forall k :: 0 <= k < |r| ==> r[k] == UpperChar(Trim(s)[k])
  {
    ToUpper(Trim(s))
  }

  /** Saving a registration that was already saved leaves it as it is. */
  lemma NormalizeIdempotent(s: string)
    ensures NormalizeRegistration(NormalizeRegistration(s)) == NormalizeRegistration(s)
  {
    var n := NormalizeRegistration(s);
    TrimmedIsFixed(n);
    assert ToUpper(n) == n by {
      forall k | 0 <= k < |n|
        ensures UpperChar(n[k]) == n[k]
      {
      }
    }
  }

  // ---------------------------------------------------------------------------
  // Save and delete

  datatype SaveOutcome = Rejected | Saved(library: seq<Profile>)

  /** The save logic behind the button, given the normalised registration:
      `weight` and `arm` are the parsed entries (`None` for NaN) and `index`
      the parsed edit index (`None` for NaN, -1 for a new profile). The form
      is rejected when the registration is empty or a number did not parse;
      otherwise a non-negative index overwrites that slot and anything else
      appends. */
  function SaveEntry(lib: seq<Profile>, reg: string, weight: Option<real>, arm: Option<real>, index: Option<int>)
    : (r: SaveOutcome)
    requires index.Some? && index.value >= 0 ==> index.value < |lib|
    ensures r.Rejected? <==> |reg| == 0 || weight.None? || arm.None?
    ensures r.Saved? && index.Some? && index.value >= 0 ==>
      && |r.library| == |lib|
      && r.library[index.value] == Profile(reg, weight.value, arm.value)
      && forall k :: 0 <= k < |lib| && k != index.value ==> r.library[k] == lib[k]
    ensures r.Saved? && !(index.Some? && index.value >= 0) ==>
      && |r.library| == |lib| + 1
      && r.library[..|lib|] == lib
      && r.library[|lib|] == Profile(reg, weight.value, arm.value)
  {
    if |reg| == 0 || weight.None? || arm.None? then Rejected
    else
      var entry := Profile(reg, weight.value, arm.value);
      if index.Some? && index.value >= 0 then Saved(lib[index.value := entry])
      else Saved(lib + [entry])
  }

  /** The save button as the user sees it: the typed registration is trimmed
      and upper-cased first, so it is refused exactly when it is blank, and the
      profile stored carries the normalised registration. */
  function SaveProfile(lib: seq<Profile>, typed: string, weight: Option<real>, arm: Option<real>, index: Option<int>)
    : (r: SaveOutcome)
    requires index.Some? && index.value >= 0 ==> index.value < |lib|
    ensures r.Rejected? <==> |Trim(typed)| == 0 || weight.None? || arm.None?
    ensures r.Saved? ==> r == SaveEntry(lib, NormalizeRegistration(typed), weight, arm, index)
  {
    SaveEntry(lib, NormalizeRegistration(typed), weight, arm, index)
  }

  /** The confirmed delete: `splice(deleteIndex, 1)` behind the `deleteIndex >= 0`
      guard, which removes nothing when the index is past the end. */
  function DeleteProfile(lib: seq<Profile>, deleteIndex: int): (r: seq<Profile>)
    ensures 0 <= deleteIndex < |lib| ==>
      && |r| == |lib| - 1
      && r[..deleteIndex] == lib[..deleteIndex]
      && r[deleteIndex..] == lib[deleteIndex + 1..]
      && multiset(r) + multiset{lib[deleteIndex]} == multiset(lib)
    ensures !(0 <= deleteIndex < |lib|) ==> r == lib
  {
    if 0 <= deleteIndex < |lib| then
      assert lib == lib[..deleteIndex] + [lib[deleteIndex]] + lib[deleteIndex + 1..];
      lib[..deleteIndex] + lib[deleteIndex + 1..]
    else lib
  }

  /** Deleting the profile just added restores the library. */
  lemma DeleteUndoesAdd(lib: seq<Profile>, reg: string, weight: real, arm: real)
    requires |reg| > 0
    ensures var r := SaveEntry(lib, reg, Some(weight), Some(arm), Some(-1));
      r.Saved? && DeleteProfile(r.library, |lib|) == lib
  {
  }

  /** Editing a slot twice keeps only the second edit. */
  lemma SecondEditWins(lib: seq<Profile>, i: nat, reg1: string, reg2: string, w1: real, w2: real, a1: real, a2: real)
    requires i < |lib| && |reg1| > 0 && |reg2| > 0
    ensures var r1 := SaveEntry(lib, reg1, Some(w1), Some(a1), Some(i));
      r1.Saved? &&
      SaveEntry(r1.library, reg2, Some(w2), Some(a2), Some(i)) == SaveEntry(lib, reg2, Some(w2), Some(a2), Some(i))
  {
    assert lib[i := Profile(reg1, w1, a1)][i := Profile(reg2, w2, a2)] == lib[i := Profile(reg2, w2, a2)];
  }

  /** A registration of blanks is refused and the library is not touched. */
  lemma BlankRegistrationRejected(lib: seq<Profile>)
    ensures SaveProfile(lib, "  \t ", Some(1100.0), Some(33.0), None) == Rejected
  {
    assert Trim("  \t ") == [];
  }
}
