/**
 * The mode buttons of an expanded study row. With `groupEnabledModesFirst`
 * set, the loaded modes are sorted by a comparator that answers
 * `(isValidB ? 1 : 0) - (isValidA ? 1 : 0)`; the engine's sort is stable, so
 * the result is the modes valid for the study, in their loaded order,
 * followed by the others, in their loaded order.
 */
module WorkListModes {
  import opened JsStrings
  import opened JsArrays

  /** `s.replaceAll(from, to)` for one-character strings. */
  function ReplaceAllChar(s: string, from: char, to: char): (r: string)
    ensures |r| == |s|
    ensures forall i :: 0 <= i < |s| ==> r[i] == (if s[i] == from then to else s[i])
  {
    seq(|s|, i requires 0 <= i < |s| => if s[i] == from then to else s[i])
  }

  /**
   * The `modalities` argument handed to `isValidMode`: the study's
   * modalities joined with commas, every `/` turned into a backslash.
   */
  function ModalitiesArgument(modalities: seq<string>): (r: string)
    ensures |r| == |Join(modalities, ',')|
    ensures '/' !in r
  {
    ReplaceAllChar(Join(modalities, ','), '/', '\\')
  }

  /** The comparator's answer for two modes with the given validity. */
  function ModeComparison(isValidA: bool, isValidB: bool): int
  {
    (if isValidB then 1 else 0) - (if isValidA then 1 else 0)
  }

  /** No two modes are out of order for the comparator. */
  predicate ValidFirst<M>(s: seq<M>, valid: M -> bool)
  {
    forall i, j :: 0 <= i < j < |s| ==> ModeComparison(valid(s[i]), valid(s[j])) <= 0
  }

  function Not<M>(p: M -> bool): M -> bool
  {
    x => !p(x)
  }

  /** The stable result of the sort: valid modes, then the rest. */
  function ValidModesFirst<M>(modes: seq<M>, valid: M -> bool): seq<M>
  {
    Filter(modes, valid) + Filter(modes, Not(valid))
  }

  /** `isValidMode(…).valid` for every mode, against the study's modalities. */
  function ValidFor<M>(isValidMode: (M, string) -> bool, modalities: seq<string>): M -> bool
  {
    m => isValidMode(m, ModalitiesArgument(modalities))
  }

  /**
   * The modes shown for a study: sorted valid-first when the configuration
   * asks for it, in loaded order otherwise. Either way the same modes.
   */
  function ModesShown<M>(groupEnabledModesFirst: bool, loadedModes: seq<M>,
                         modalities: seq<string>, isValidMode: (M, string) -> bool): (r: seq<M>)
    ensures multiset(r) == multiset(loadedModes)
    ensures groupEnabledModesFirst ==> ValidFirst(r, ValidFor(isValidMode, modalities))
    ensures !groupEnabledModesFirst ==> r == loadedModes
  {
    if groupEnabledModesFirst then
      var valid := ValidFor(isValidMode, modalities);
      ValidModesFirstPermutation(loadedModes, valid);
      ValidModesFirstOrdered(loadedModes, valid);
      ValidModesFirst(loadedModes, valid)
    else loadedModes
  }

  /** The sort neither drops nor duplicates a mode. */
  lemma ValidModesFirstPermutation<M>(modes: seq<M>, valid: M -> bool)
    ensures multiset(ValidModesFirst(modes, valid)) == multiset(modes)
  {
    FilterPartition(modes, valid, Not(valid));
  }

  /** The first group holds only valid modes, the second only invalid ones. */
  lemma GroupsAreValidity<M>(modes: seq<M>, valid: M -> bool)
    ensures forall x :: x in Filter(modes, valid) ==> valid(x)
    ensures forall x :: x in Filter(modes, Not(valid)) ==> !valid(x)
  {
    FilterKeeps(modes, valid);
    FilterKeeps(modes, Not(valid));
    forall x | x in Filter(modes, Not(valid)) ensures !valid(x) {
      assert Not(valid)(x);
    }
  }

  /** The result is in the comparator's order: no invalid mode precedes a valid one. */
  lemma ValidModesFirstOrdered<M>(modes: seq<M>, valid: M -> bool)
    ensures ValidFirst(ValidModesFirst(modes, valid), valid)
  {
    var a, b := Filter(modes, valid), Filter(modes, Not(valid));
    var r := a + b;
    GroupsAreValidity(modes, valid);
    forall i, j | 0 <= i < j < |r| ensures ModeComparison(valid(r[i]), valid(r[j])) <= 0 {
      if i < |a| {
        assert r[i] == a[i] && r[i] in a;
      } else {
        assert r[j] == b[j - |a|] && r[j] in b;
      }
    }
  }

  /** Stability: within each group the loaded order is kept. */
  lemma ValidModesFirstStable<M>(modes: seq<M>, valid: M -> bool)
    ensures Filter(ValidModesFirst(modes, valid), valid) == Filter(modes, valid)
    ensures Filter(ValidModesFirst(modes, valid), Not(valid)) == Filter(modes, Not(valid))
  {
    var a, b := Filter(modes, valid), Filter(modes, Not(valid));
    FilterAppend(a, b, valid);
    FilterAppend(a, b, Not(valid));
    GroupsAreValidity(modes, valid);
    FilterAll(a, valid);
    FilterNone(a, Not(valid));
    FilterNone(b, valid);
    FilterAll(b, Not(valid));
  }

  /** A sequence already in the comparator's order is its valid group followed by the rest. */
  lemma {:induction false} ValidFirstIsGrouped<M>(s: seq<M>, valid: M -> bool)
    requires ValidFirst(s, valid)
    ensures s == Filter(s, valid) + Filter(s, Not(valid))
    decreases |s|
  {
    if s != [] {
      var t := s[1..];
      assert ValidFirst(t, valid) by {
        forall i, j | 0 <= i < j < |t| ensures ModeComparison(valid(t[i]), valid(t[j])) <= 0 {
          assert t[i] == s[i + 1] && t[j] == s[j + 1];
        }
      }
      if valid(s[0]) {
        ValidFirstIsGrouped(t, valid);
      } else {
        forall x | x in s ensures !valid(x) {
          var i :| 0 <= i < |s| && s[i] == x;
          if i > 0 { assert ModeComparison(valid(s[0]), valid(s[i])) <= 0; }
        }
        FilterNone(s, valid);
        FilterAll(s, Not(valid));
      }
    }
  }

  /**
   * Any arrangement in the comparator's order that keeps the loaded order
   * within each group is the one `ValidModesFirst` gives.
   */
  lemma ValidModesFirstUnique<M>(modes: seq<M>, valid: M -> bool, s: seq<M>)
    requires ValidFirst(s, valid)
    requires Filter(s, valid) == Filter(modes, valid)
    requires Filter(s, Not(valid)) == Filter(modes, Not(valid))
    ensures s == ValidModesFirst(modes, valid)
  {
    ValidFirstIsGrouped(s, valid);
  }
}
