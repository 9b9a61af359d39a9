/** A dynamic set of sequences whose minimum is tracked
    (include/disruptor/SequenceGroup.h).

    The group keeps its members as an immutable snapshot that `Add` and `Remove`
    replace; reading the snapshot is reading the `sequences` field. In the source the
    group is itself a `Sequence` (so that it can gate a producer); the model keeps it a
    class of its own. */
module Groups {
  import opened Sequences
  import opened SequenceGroups

  class SequenceGroup {
    /** The current snapshot of members, in the order they were added. */
    var sequences: seq<Sequence>

    /** `SequenceGroup()`: no members. */
    constructor ()
      ensures sequences == []
      ensures Size() == 0
    {
      sequences := [];
    }

    /** `get()`: the value of the slowest member, or the largest `int64_t` when the
        group is empty. */
    function Get(): (m: Int64)
      reads this, sequences
      ensures forall i :: 0 <= i < |sequences| ==> m <= sequences[i].value
      ensures sequences == [] ==> m == MaxInt64
      ensures sequences != [] ==> exists i :: 0 <= i < |sequences| && m == sequences[i].value
    {
      var vs := ValuesOf(sequences);
      var m := GetMinimumSequence(vs, MaxInt64);
      assert sequences != [] && m == MaxInt64 ==> m == vs[0];
      m
    }

    /** `getCursor()`: the group reports its minimum as its cursor. */
    function GetCursor(): (m: Int64)
      reads this, sequences
      ensures m == Get()
    {
      Get()
    }

    /** `size()`: the number of entries in the snapshot. */
    function Size(): (n: nat)
      reads this
      ensures n == |sequences|
    {
      |sequences|
    }

    /** `set(value)`: writes `value` to every member and to nothing else. */
    method Set(value: Int64)
      modifies sequences
      ensures forall i :: 0 <= i < |sequences| ==> sequences[i].value == value
      ensures sequences != [] ==> Get() == value
    {
      for i := 0 to |sequences|
        invariant forall j :: 0 <= j < i ==> sequences[j].value == value
      {
        sequences[i].Set(value);
      }
    }

    /** `add(sequence)`: `sequence` becomes the newest member; the members already
        there stay, with their values. The newcomer is primed by
        `SequenceGroups::addSequences` with the group itself as cursor; the value it
        is primed to is not specified. */
    method Add(sequence: Sequence)
      modifies this, sequence
      ensures sequences == old(sequences) + [sequence]
      ensures Size() == old(Size()) + 1
      ensures forall t :: t in old(sequences) && t != sequence ==> t.value == old(t.value)
    {
      var cursor := GetCursor();
      sequences := AddSequences(sequences, cursor, [sequence]);
    }

    /** `addWhileRunning(cursored, sequence)`: like `add`, but the newcomer is primed
        to the cursor of a running producer, so it cannot pull the group's minimum
        below both the old minimum and that cursor. */
    method AddWhileRunning(cursor: Int64, sequence: Sequence)
      modifies this, sequence
      ensures sequences == old(sequences) + [sequence]
      ensures sequence.value == cursor
      ensures forall t :: t in old(sequences) && t != sequence ==> t.value == old(t.value)
      ensures Get() <= cursor
      ensures Get() >= if cursor < old(Get()) then cursor else old(Get())
      ensures sequence !in old(sequences) ==> Get() == if cursor < old(Get()) then cursor else old(Get())
    {
      ghost var before := ValuesOf(sequences);
      sequences := AddSequences(sequences, cursor, [sequence]);
      forall t | t in old(sequences) && t != sequence ensures t.value == old(t.value) {
        assert t !in [sequence];
      }
      ghost var after := ValuesOf(sequences);
      forall i | 0 <= i < |before|
        ensures after[i] == before[i] || after[i] == cursor
        ensures sequence !in old(sequences) ==> after[i] == before[i]
      {
        assert sequences[i] == old(sequences)[i];
      }
      assert after[|before|] == cursor;
      assert sequence !in old(sequences) ==> after == before + [cursor];
      MinimumAfterPriming(before, after, cursor, MaxInt64);
    }

    /** `remove(sequence)`: drops every occurrence of `sequence` and reports whether
        there was one; all other members remain, in their order. */
    method Remove(sequence: Sequence) returns (removed: bool)
      modifies this
      ensures removed <==> sequence in old(sequences)
      ensures sequences == Without(old(sequences), sequence)
      ensures sequence !in sequences
      ensures multiset(sequences) == multiset(old(sequences))[sequence := 0]
    {
      sequences, removed := RemoveSequence(sequences, sequence);
      WithoutKeepsOthers(old(sequences), sequence);
    }
  }

  /** The scenario of tests/disruptor/FixedSequenceGroupTest.cpp, on the minimum that
      every group computes: 34 and 47 give 34; raising the first to 35 gives 35;
      raising it past the second to 48 gives 47. */
  lemma MinimumScenario()
    ensures GetMinimumSequence([34, 47], MaxInt64) == 34
    ensures GetMinimumSequence([35, 47], MaxInt64) == 35
    ensures GetMinimumSequence([48, 47], MaxInt64) == 47
  {
    MinimumOfAppend([34], 47, MaxInt64);
    MinimumOfAppend([35], 47, MaxInt64);
    MinimumOfAppend([48], 47, MaxInt64);
  }
}
