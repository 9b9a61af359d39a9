/** Helpers that every gating set relies on: the minimum over a set of sequences
    (`Util::getMinimumSequence`) and the copy-on-write add and remove of
    `SequenceGroups::addSequences` / `SequenceGroups::removeSequence`.

    Neither include/disruptor/util/Util.h nor include/disruptor/SequenceGroups.h is part
    of this model; their effect is modelled as their callers in SequenceGroup.h and
    SingleProducerSequencer.h use it. A snapshot is a `seq<Sequence>` value: installing a
    new snapshot is assigning a new sequence, and readers can never see half of one. */
module SequenceGroups {
  import opened Sequences

  /** The minimum of `defaultMin` and every value; `defaultMin` when there are none. */
  function GetMinimumSequence(values: seq<int>, defaultMin: int): (m: int)
    ensures m <= defaultMin
    ensures forall i :: 0 <= i < |values| ==> m <= values[i]
    ensures m == defaultMin || exists i :: 0 <= i < |values| && m == values[i]
    decreases |values|
  {
    if values == [] then defaultMin
    else
      var rest := GetMinimumSequence(values[1..], defaultMin);
      assert rest != defaultMin ==> exists i :: 1 <= i < |values| && rest == values[i] by {
        if rest != defaultMin {
          var j :| 0 <= j < |values[1..]| && rest == values[1..][j];
          assert rest == values[j + 1];
        }
      }
      if values[0] < rest then values[0] else rest
  }

  /** A bound lies at or below the minimum exactly when it lies at or below the
      default and every value: "no gating sequence is behind `b`". */
  lemma {:induction false} MinimumIsGreatestLowerBound(values: seq<int>, defaultMin: int, b: int)
    ensures b <= GetMinimumSequence(values, defaultMin) <==>
            b <= defaultMin && forall i :: 0 <= i < |values| ==> b <= values[i]
  {
    var m := GetMinimumSequence(values, defaultMin);
    if b <= defaultMin && forall i :: 0 <= i < |values| ==> b <= values[i] {
      if m != defaultMin {
        var i :| 0 <= i < |values| && m == values[i];
        assert b <= values[i];
      }
    }
  }

  /** Appending one value lowers the minimum to that value at most. */
  lemma {:induction false} MinimumOfAppend(values: seq<int>, x: int, defaultMin: int)
    ensures GetMinimumSequence(values + [x], defaultMin) ==
            if x < GetMinimumSequence(values, defaultMin) then x else GetMinimumSequence(values, defaultMin)
  {
    var m := GetMinimumSequence(values, defaultMin);
    var lo := if x < m then x else m;
    var all := values + [x];
    forall i | 0 <= i < |all| ensures lo <= all[i] {
      if i < |values| {
        assert all[i] == values[i];
      }
    }
    MinimumIsGreatestLowerBound(all, defaultMin, lo);
    forall i | 0 <= i < |values| ensures GetMinimumSequence(all, defaultMin) <= values[i] {
      assert all[i] == values[i];
    }
    MinimumIsGreatestLowerBound(values, defaultMin, GetMinimumSequence(all, defaultMin));
    assert all[|values|] == x;
  }

  /** If every old value either survives or is replaced by `c`, and `c` is appended,
      the minimum never drops below the smaller of the old minimum and `c`; when
      nothing was replaced it is exactly that smaller one. */
  lemma {:induction false} MinimumAfterPriming(before: seq<int>, after: seq<int>, c: int, defaultMin: int)
    requires |after| == |before| + 1 && after[|before|] == c
    requires forall i :: 0 <= i < |before| ==> after[i] == before[i] || after[i] == c
    ensures GetMinimumSequence(after, defaultMin) <= c
    ensures var lo := if c < GetMinimumSequence(before, defaultMin) then c else GetMinimumSequence(before, defaultMin);
            lo <= GetMinimumSequence(after, defaultMin) &&
            (after == before + [c] ==> GetMinimumSequence(after, defaultMin) == lo)
  {
    var m := GetMinimumSequence(before, defaultMin);
    var lo := if c < m then c else m;
    forall i | 0 <= i < |after| ensures lo <= after[i] {
      if i < |before| && after[i] == before[i] {
        assert m <= before[i];
      }
    }
    MinimumIsGreatestLowerBound(after, defaultMin, lo);
    if after == before + [c] {
      MinimumOfAppend(before, c, defaultMin);
    }
  }

  /** The values of a snapshot, member by member. */
  function ValuesOf(ss: seq<Sequence>): (vs: seq<Int64>)
    reads ss
    ensures |vs| == |ss|
    ensures forall i :: 0 <= i < |ss| ==> vs[i] == ss[i].value
  {
    if ss == [] then [] else ValuesOf(ss[..|ss| - 1]) + [ss[|ss| - 1].value]
  }

  /** The values of a snapshot as they read once `c` has been set to `v` (`c` may or
      may not be a member). */
  function ValuesAfterStore(ss: seq<Sequence>, c: Sequence, v: Int64): (vs: seq<Int64>)
    reads ss
    ensures |vs| == |ss|
    ensures forall i :: 0 <= i < |ss| ==> vs[i] == if ss[i] == c then v else ss[i].value
  {
    if ss == [] then []
    else
      var last := ss[|ss| - 1];
      ValuesAfterStore(ss[..|ss| - 1], c, v) + [if last == c then v else last.value]
  }

  /** The snapshot without any occurrence of `s`, other members in their order. */
  function Without(ss: seq<Sequence>, s: Sequence): (r: seq<Sequence>)
    ensures s !in r
    ensures s !in ss ==> r == ss
  {
    if ss == [] then []
    else
      var init := ss[..|ss| - 1];
      var last := ss[|ss| - 1];
      assert ss == init + [last];
      Without(init, s) + (if last == s then [] else [last])
  }

  /** Removal keeps every other member with its multiplicity and drops every
      occurrence of `s`. */
  lemma {:induction false} WithoutKeepsOthers(ss: seq<Sequence>, s: Sequence)
    ensures multiset(Without(ss, s)) == multiset(ss)[s := 0]
  {
    if ss != [] {
      var init := ss[..|ss| - 1];
      var last := ss[|ss| - 1];
      assert ss == init + [last];
      WithoutKeepsOthers(init, s);
    }
  }

  /** Extending a prefix by one member extends its filtered copy by that member,
      unless it is the one being removed. */
  lemma WithoutStep(ss: seq<Sequence>, i: nat, s: Sequence)
    requires i < |ss|
    ensures Without(ss[..i + 1], s) == Without(ss[..i], s) + (if ss[i] == s then [] else [ss[i]])
    ensures s in ss[..i + 1] <==> s in ss[..i] || ss[i] == s
  {
    assert ss[..i + 1][..i] == ss[..i];
    assert ss[..i + 1] == ss[..i] + [ss[i]];
  }

  /** `SequenceGroups::addSequences`: prime every newcomer to the cursor value the
      holder reports, then install `current + toAdd`. */
  method AddSequences(current: seq<Sequence>, cursorValue: Int64, toAdd: seq<Sequence>)
    returns (updated: seq<Sequence>)
    modifies toAdd
    ensures updated == current + toAdd
    ensures forall t :: t in toAdd ==> t.value == cursorValue
  {
    for i := 0 to |toAdd|
      invariant forall j :: 0 <= j < i ==> toAdd[j].value == cursorValue
    {
      toAdd[i].Set(cursorValue);
    }
    updated := current + toAdd;
  }

  /** `SequenceGroups::removeSequence`: build the snapshot without `s` and report
      whether `s` was there at all. */
  method RemoveSequence(current: seq<Sequence>, s: Sequence)
    returns (updated: seq<Sequence>, removed: bool)
    ensures updated == Without(current, s)
    ensures removed <==> s in current
  {
    updated, removed := [], false;
    for i := 0 to |current|
      invariant updated == Without(current[..i], s)
      invariant removed <==> s in current[..i]
    {
      WithoutStep(current, i, s);
      if current[i] == s {
        removed := true;
      } else {
        updated := updated + [current[i]];
      }
    }
    assert current[..|current|] == current;
  }
}
