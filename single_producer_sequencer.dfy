/** The single-producer claim/publish algorithm
    (include/disruptor/SingleProducerSequencer.h).

    Exactly one thread claims and publishes, so the model is sequential. The first half
    states the algorithm on plain values: the producer's three numbers (`nextValue_`,
    `cachedValue_`, the cursor) and the step each operation takes on them. The second
    half is the sequencer object, whose methods are proved to take exactly those steps.
    The lemmas in between say what the steps guarantee: consecutive claims, no claim
    more than a buffer ahead of the slowest consumer, the exact failure condition of
    the non-blocking claim, and the shape of the published window. */
module SingleProducer {
  import opened Errors
  import opened Sequences
  import opened SequenceGroups

  /** The C++ `int` that claim sizes are passed as. */
  type Int32 = x: int | -0x8000_0000 <= x <= 0x7fff_ffff

  /** A ring buffer size the sequencer accepts (validated when it is built). */
  type BufferSize = b: int | 1 <= b <= 0x7fff_ffff witness 1

  /** Message of the argument error thrown by `next(n)`. */
  const NextArgumentMessage: string := "n must be > 0 and < bufferSize"

  /** Message of the argument error returned by `tryNext(n)`. */
  const TryNextArgumentMessage: string := "n must be > 0"

  /** The producer's private numbers: the last claimed sequence, the last gating
      minimum it read, and the published cursor. */
  datatype ProducerState = ProducerState(nextValue: int, cachedValue: int, cursor: int)

  /** The sequence a claim of `n` would overwrite if some consumer were still there. */
  function WrapPoint(s: ProducerState, bufferSize: int, n: int): int
  {
    s.nextValue + n - bufferSize
  }

  /** The cached gating minimum cannot vouch for a claim of `n`: it is below the wrap
      point, or it is stale (above `nextValue`, as after `claim` moved back). */
  predicate CacheMiss(s: ProducerState, bufferSize: int, n: int)
  {
    WrapPoint(s, bufferSize, n) > s.cachedValue || s.cachedValue > s.nextValue
  }

  /** `hasAvailableCapacity(n, doStore)`. On a cache miss it optionally publishes the
      cursor at `nextValue`, then caches `freshMin`, the gating minimum it reads
      afterwards, and answers whether the wrap point is within it. */
  function CapacityStep(s: ProducerState, bufferSize: int, n: int, doStore: bool, freshMin: int)
    : (r: (bool, ProducerState))
    ensures r.1.nextValue == s.nextValue
    ensures r.0 ==> WrapPoint(s, bufferSize, n) <= r.1.cachedValue
    ensures !r.0 ==> r.1.cachedValue == freshMin < WrapPoint(s, bufferSize, n)
    ensures r.1.cursor == s.cursor || (doStore && r.1.cursor == s.nextValue)
    ensures r.1.cachedValue == s.cachedValue || r.1.cachedValue == freshMin
  {
    if !CacheMiss(s, bufferSize, n) then (true, s)
    else
      var refreshed := ProducerState(s.nextValue, freshMin, if doStore then s.nextValue else s.cursor);
      (WrapPoint(s, bufferSize, n) <= freshMin, refreshed)
  }

  /** `next(n)`. `freshMin` is the gating minimum that the spin ended on (read after the
      cursor was published at `nextValue`); it matters only on a cache miss. */
  function NextStep(s: ProducerState, bufferSize: int, n: int, freshMin: int): (r: (Result<int>, ProducerState))
    ensures r.0.Success? ==> r.0.value == r.1.nextValue
    ensures r.1.cursor == s.cursor || r.1.cursor == s.nextValue
    ensures r.1.cachedValue == s.cachedValue || r.1.cachedValue == freshMin
  {
    if n < 1 || n > bufferSize then (Failure(InvalidArgumentError(NextArgumentMessage)), s)
    else
      var claimed := s.nextValue + n;
      if CacheMiss(s, bufferSize, n) then (Success(claimed), ProducerState(claimed, freshMin, s.nextValue))
      else (Success(claimed), s.(nextValue := claimed))
  }

  /** The spin of `next(n)` is over once it reads a minimum at or above the wrap point;
      on a cache hit it does not spin at all. */
  predicate SpinEnded(s: ProducerState, bufferSize: int, n: int, freshMin: int)
  {
    !CacheMiss(s, bufferSize, n) || WrapPoint(s, bufferSize, n) <= freshMin
  }

  /** `tryNext(n)`: the capacity check with the cursor store, then the claim. */
  function TryNextStep(s: ProducerState, bufferSize: int, n: int, freshMin: int): (r: (Result<int>, ProducerState))
    ensures r.0.Success? ==> r.0.value == r.1.nextValue
    ensures r.0.Failure? ==> r.1.nextValue == s.nextValue
    ensures r.1.cursor == s.cursor || r.1.cursor == s.nextValue
    ensures r.1.cachedValue == s.cachedValue || r.1.cachedValue == freshMin
  {
    if n < 1 then (Failure(InvalidArgumentError(TryNextArgumentMessage)), s)
    else
      var (ok, checked) := CapacityStep(s, bufferSize, n, true, freshMin);
      if !ok then (Failure(InsufficientCapacityError()), checked)
      else (Success(checked.nextValue + n), checked.(nextValue := checked.nextValue + n))
  }

  /** `isAvailable(sequence)`: published (at or below the cursor) and not yet
      overwritten (within one buffer of it). */
  predicate InPublishedWindow(cursor: int, bufferSize: int, sequence: int)
  {
    cursor - bufferSize < sequence <= cursor
  }

  /** Safety of the producer's numbers with respect to the slowest consumer `slowest`
      (the smallest gating value): the cache never claims more progress than the
      consumers made, and the last claim is at most one buffer ahead of the cache. */
  predicate NoOverwrite(s: ProducerState, bufferSize: int, slowest: int)
  {
    s.cachedValue <= slowest && WrapPoint(s, bufferSize, 0) <= s.cachedValue
  }

  /** `next(n)` with a valid count hands out `nextValue + n` whatever the gating
      sequences say; an invalid count is refused without touching the state. */
  lemma NextStepOutcome(s: ProducerState, bufferSize: int, n: int, freshMin: int)
    ensures 1 <= n <= bufferSize ==>
              NextStep(s, bufferSize, n, freshMin).0 == Success(s.nextValue + n) &&
              NextStep(s, bufferSize, n, freshMin).1.nextValue == s.nextValue + n
    ensures !(1 <= n <= bufferSize) ==>
              NextStep(s, bufferSize, n, freshMin) == (Failure(InvalidArgumentError(NextArgumentMessage)), s)
  {
  }

  /** After a successful `next(n)`, the claimed sequence is at most one buffer ahead of
      the cached minimum, and the cache is at most the `nextValue` before the call,
      however stale the cache was before. */
  lemma NextStepBounds(s: ProducerState, bufferSize: int, n: int, freshMin: int)
    requires 1 <= n <= bufferSize
    requires freshMin <= s.nextValue
    requires SpinEnded(s, bufferSize, n, freshMin)
    ensures var (r, t) := NextStep(s, bufferSize, n, freshMin);
            r.Success? && r.value - bufferSize <= t.cachedValue <= s.nextValue < t.nextValue
  {
  }

  /** `next` keeps the no-overwrite invariant while the consumers only move forward
      (`slowest <= slowest'`): the minimum the spin ends on is the slowest consumer's
      value as it then is, capped at `nextValue`. So a claim never reaches a slot the
      slowest consumer has not vacated: `nextValue - bufferSize <= slowest'`. */
  lemma {:induction false} NextKeepsNoOverwrite(
    s: ProducerState, bufferSize: BufferSize, n: int, freshMin: int, slowest: int, slowest': int)
    requires NoOverwrite(s, bufferSize, slowest) && slowest <= slowest'
    requires freshMin == if slowest' < s.nextValue then slowest' else s.nextValue
    requires SpinEnded(s, bufferSize, n, freshMin)
    ensures NoOverwrite(NextStep(s, bufferSize, n, freshMin).1, bufferSize, slowest')
    ensures NextStep(s, bufferSize, n, freshMin).1.nextValue - bufferSize <= slowest'
  {
    var t := NextStep(s, bufferSize, n, freshMin).1;
    if 1 <= n <= bufferSize && !CacheMiss(s, bufferSize, n) {
      assert t.cachedValue == s.cachedValue && t.nextValue == s.nextValue + n;
      assert WrapPoint(t, bufferSize, 0) == WrapPoint(s, bufferSize, n);
    }
  }

  /** `tryNext` keeps the same invariant whatever it answers: a success is a claim
      within the cache, and a capacity failure only refreshes the cache with the
      slowest consumer's value (capped at `nextValue`), which the last claim is
      already within a buffer of. */
  lemma {:induction false} TryNextKeepsNoOverwrite(
    s: ProducerState, bufferSize: BufferSize, n: int, freshMin: int, slowest: int, slowest': int)
    requires NoOverwrite(s, bufferSize, slowest) && slowest <= slowest'
    requires freshMin == if slowest' < s.nextValue then slowest' else s.nextValue
    ensures NoOverwrite(TryNextStep(s, bufferSize, n, freshMin).1, bufferSize, slowest')
  {
    var u := TryNextStep(s, bufferSize, n, freshMin).1;
    if n >= 1 && !CacheMiss(s, bufferSize, n) {
      assert u.cachedValue == s.cachedValue;
      assert WrapPoint(u, bufferSize, 0) == WrapPoint(s, bufferSize, n);
    }
  }

  /** `tryNext(n)` fails for capacity exactly when the cache missed and the wrap point
      is above the minimum read afterwards; a failure leaves `nextValue` alone, and a
      success advances it by exactly `n`. */
  lemma TryNextStepOutcome(s: ProducerState, bufferSize: int, n: int, freshMin: int)
    requires n >= 1
    ensures var (r, t) := TryNextStep(s, bufferSize, n, freshMin);
            (r == Failure(InsufficientCapacityError()) <==>
               CacheMiss(s, bufferSize, n) && WrapPoint(s, bufferSize, n) > freshMin) &&
            (r.Failure? ==> t.nextValue == s.nextValue) &&
            (r.Success? ==> r.value == t.nextValue == s.nextValue + n)
  {
  }

  /** `tryNext(n)` can never hand out more than a buffer at once: with `n > bufferSize`
      the wrap point lies beyond `nextValue`, which bounds every minimum it reads. */
  lemma TryNextRefusesOversizedClaims(s: ProducerState, bufferSize: BufferSize, n: int, freshMin: int)
    requires n > bufferSize && freshMin <= s.nextValue
    ensures TryNextStep(s, bufferSize, n, freshMin).0 == Failure(InsufficientCapacityError())
  {
    assert CacheMiss(s, bufferSize, n);
    assert !CapacityStep(s, bufferSize, n, true, freshMin).0;
  }

  /** The results of `next()` called once per entry of `mins` (each entry the minimum
      that call's spin ended on). */
  function NextRun(s: ProducerState, bufferSize: BufferSize, mins: seq<int>): (r: seq<int>)
    ensures |r| == |mins|
    decreases |mins|
  {
    if mins == [] then []
    else
      var (r, t) := NextStep(s, bufferSize, 1, mins[0]);
      [r.value] + NextRun(t, bufferSize, mins[1..])
  }

  /** Successive `next()` calls hand out `nextValue + 1, nextValue + 2, ...`: no gap,
      no repeat, whatever the consumers do meanwhile. */
  lemma {:induction false} NextRunIsConsecutive(s: ProducerState, bufferSize: BufferSize, mins: seq<int>)
    ensures |NextRun(s, bufferSize, mins)| == |mins|
    ensures forall i :: 0 <= i < |mins| ==> NextRun(s, bufferSize, mins)[i] == s.nextValue + 1 + i
    decreases |mins|
  {
    if mins != [] {
      var t := NextStep(s, bufferSize, 1, mins[0]).1;
      NextRunIsConsecutive(t, bufferSize, mins[1..]);
    }
  }

  /** The published window is an interval: every sequence between two published ones
      is published, so a single producer's highest published sequence is simply the
      upper bound it is asked about. */
  lemma PublishedWindowIsContiguous(cursor: int, bufferSize: int, lo: int, hi: int, t: int)
    requires InPublishedWindow(cursor, bufferSize, lo) && hi <= cursor && lo <= t <= hi
    ensures InPublishedWindow(cursor, bufferSize, t)
  {
  }

  /** `k * b >= b` for a positive multiplier. */
  lemma {:induction false} ScaledStepIsAtLeastStep(k: int, b: int)
    requires k >= 1 && b >= 0
    ensures k * b >= b
    decreases k
  {
    if k > 1 {
      ScaledStepIsAtLeastStep(k - 1, b);
      assert k * b == (k - 1) * b + b;
    }
  }

  /** The only multiple of `b` strictly between `-b` and `b` is zero. */
  lemma MultipleBelowStepIsZero(k: int, b: int)
    requires b >= 1 && -b < k * b < b
    ensures k == 0
  {
    if k >= 1 {
      ScaledStepIsAtLeastStep(k, b);
    } else if k <= -1 {
      ScaledStepIsAtLeastStep(-k, b);
    }
  }

  /** Euclidean remainder of `q * b + r` for `0 <= r < b`. */
  lemma RemainderOfMultiplePlus(q: int, b: int, r: int)
    requires b >= 1 && 0 <= r < b
    ensures (q * b + r) % b == r
  {
    var x := q * b + r;
    var p := x / b;
    assert x == p * b + x % b;
    assert (q - p) * b == x % b - r;
    MultipleBelowStepIsZero(q - p, b);
  }

  /** No two published sequences share a ring slot (`sequence % bufferSize`), so every
      available sequence can still be read from its slot. */
  lemma PublishedSlotsAreDistinct(cursor: int, bufferSize: BufferSize, t1: int, t2: int)
    requires InPublishedWindow(cursor, bufferSize, t1) && InPublishedWindow(cursor, bufferSize, t2)
    requires t1 % bufferSize == t2 % bufferSize
    ensures t1 == t2
  {
    var q1, q2 := t1 / bufferSize, t2 / bufferSize;
    assert t1 == q1 * bufferSize + t1 % bufferSize;
    assert t2 == q2 * bufferSize + t2 % bufferSize;
    assert t1 - t2 == (q1 - q2) * bufferSize;
    MultipleBelowStepIsZero(q1 - q2, bufferSize);
  }

  /** Every ring slot holds exactly one published sequence: the window covers all
      `bufferSize` slots. */
  lemma EverySlotHasAPublishedSequence(cursor: int, bufferSize: BufferSize, slot: int)
    requires 0 <= slot < bufferSize
    ensures var t := cursor - (cursor - slot) % bufferSize;
            InPublishedWindow(cursor, bufferSize, t) && t % bufferSize == slot
  {
    var d := (cursor - slot) % bufferSize;
    var q := (cursor - slot) / bufferSize;
    assert cursor - slot == q * bufferSize + d;
    assert cursor - d == q * bufferSize + slot;
    RemainderOfMultiplePlus(q, bufferSize, slot);
  }

  /** The scenario of a 64-slot buffer whose only consumer has not moved: after 64
      claims, a non-blocking claim reports a capacity error instead of waiting. */
  lemma TryNextWithStalledConsumer()
    ensures TryNextStep(ProducerState(63, -1, 63), 64, 1, GetMinimumSequence([-1], 63)) ==
            (Failure(InsufficientCapacityError()), ProducerState(63, -1, 63))
  {
    MinimumOfAppend([], -1, 63);
    assert [] + [-1] == [-1];
  }

  /** `SingleProducerSequencer`: the producer's numbers, the cursor it publishes and
      the gating sequences of its consumers. */
  class SingleProducerSequencer {
    /** `bufferSize_` */
    const bufferSize: BufferSize
    /** `cursor_`: the highest published sequence. */
    const cursor: Sequence
    /** `gatingSequences_`: the consumers the producer must not overtake. */
    var gating: seq<Sequence>
    /** `nextValue_`: the highest claimed sequence. */
    var nextValue: Int64
    /** `cachedValue_`: the gating minimum as last read. */
    var cachedValue: Int64

    /** `SingleProducerSequencer(bufferSize, waitStrategy)`: nothing claimed, nothing
        published, no consumers. */
    constructor (bufferSize: BufferSize)
      ensures this.bufferSize == bufferSize && fresh(cursor)
      ensures gating == []
      ensures nextValue == InitialValue && cachedValue == InitialValue && cursor.value == InitialValue
    {
      this.bufferSize := bufferSize;
      cursor := new Sequence();
      gating := [];
      nextValue := InitialValue;
      cachedValue := InitialValue;
    }

    /** The producer's numbers as a value. */
    function State(): ProducerState
      reads this, cursor
    {
      ProducerState(nextValue, cachedValue, cursor.value)
    }

    /** `minimumSequence(defaultMin)`: the smallest gating value, but never above
        `defaultMin`; `defaultMin` when there are no consumers. */
    function MinimumSequence(defaultMin: Int64): (m: Int64)
      reads this`gating, gating
      ensures m <= defaultMin
    {
      GetMinimumSequence(ValuesOf(gating), defaultMin)
    }

    /** The minimum is the slowest consumer's value, capped at `defaultMin`: no gating
        value is below it, and it is `defaultMin` or one of them. */
    lemma MinimumSequenceIsSlowest(defaultMin: Int64)
      ensures forall i :: 0 <= i < |gating| ==> MinimumSequence(defaultMin) <= gating[i].value
      ensures MinimumSequence(defaultMin) == defaultMin ||
              exists i :: 0 <= i < |gating| && MinimumSequence(defaultMin) == gating[i].value
    {
      var vs := ValuesOf(gating);
      var m := GetMinimumSequence(vs, defaultMin);
      if m != defaultMin {
        var i :| 0 <= i < |vs| && m == vs[i];
        assert m == gating[i].value;
      }
    }

    /** The spin of `next(n)` needs no consumer progress: on a cache miss, the minimum
        read right after publishing the cursor at `nextValue` already admits the claim.
        (The model stands for the moment the spin ends.) */
    predicate NextWillNotSpin(n: int)
      reads this, cursor, gating
    {
      !(1 <= n <= bufferSize) || SpinEnded(State(), bufferSize, n, MinimumAfterCursorStore())
    }

    /** The gating minimum (capped at `nextValue`) as read once the cursor has been
        published at `nextValue`; the cursor may itself be a gating sequence. */
    function MinimumAfterCursorStore(): (m: Int64)
      reads this, cursor, gating
      ensures m <= nextValue
    {
      GetMinimumSequence(ValuesAfterStore(gating, cursor, nextValue), nextValue)
    }

    /** The claimed sequence fits in `int64_t` (signed overflow is undefined). */
    predicate ClaimFits(n: int)
      reads this
    {
      n < 1 || n > bufferSize || nextValue + n <= MaxInt64
    }

    /** `next(n)`: reserve the next `n` sequences and return the highest. On a cache
        miss the cursor is first published at `nextValue`, then the gating minimum is
        read and cached. A count outside `1..bufferSize` is an argument error (the
        source throws `std::invalid_argument`; `bufferSize` itself is accepted). */
    method Next(n: Int32) returns (r: Result<Int64>)
      requires ClaimFits(n)
      requires NextWillNotSpin(n)
      modifies this, cursor
      ensures gating == old(gating)
      ensures (r, State()) == NextStep(old(State()), bufferSize, n, old(MinimumAfterCursorStore()))
      ensures !(1 <= n <= bufferSize) ==>
                r == Failure(InvalidArgumentError(NextArgumentMessage)) && unchanged(this, cursor)
      ensures 1 <= n <= bufferSize ==> r == Success(old(nextValue) + n) && nextValue == old(nextValue) + n
      ensures r.Success? ==> r.value - bufferSize <= cachedValue <= old(nextValue)
      ensures r.Success? && cursor.value != old(cursor.value) ==> cursor.value == old(nextValue)
    {
      if n < 1 || n > bufferSize {
        return Failure(InvalidArgumentError(NextArgumentMessage));
      }
      var current := nextValue;
      var nextSequence := current + n;
      var wrapPoint := nextSequence - bufferSize;
      var cachedGatingSequence := cachedValue;
      ghost var before := State();
      if wrapPoint > cachedGatingSequence || cachedGatingSequence > current {
        cursor.SetVolatile(current);
        assert ValuesOf(gating) == old(ValuesAfterStore(gating, cursor, nextValue));
        // The spin re-reads the minimum until it admits the wrap point; by the
        // precondition the first read already does.
        var minSequence := MinimumSequence(current);
        cachedValue := minSequence;
        nextValue := nextSequence;
        assert State() == ProducerState(nextSequence, minSequence, current);
      } else {
        nextValue := nextSequence;
        assert State() == before.(nextValue := nextSequence);
      }
      r := Success(nextSequence);
    }

    /** `hasAvailableCapacity(requiredCapacity, doStore)`: on a cache miss, optionally
        publish the cursor at `nextValue`, then read and cache the gating minimum; the
        answer is whether the wrap point is within the cached minimum. */
    method HasAvailableCapacityWith(requiredCapacity: Int32, doStore: bool) returns (ok: bool)
      modifies this, cursor
      ensures gating == old(gating) && nextValue == old(nextValue)
      ensures (ok, State()) ==
              CapacityStep(old(State()), bufferSize, requiredCapacity, doStore, MinimumSequence(old(nextValue)))
      ensures ok ==> nextValue + requiredCapacity - bufferSize <= cachedValue <= nextValue
      ensures !ok ==> cachedValue == MinimumSequence(nextValue) < nextValue + requiredCapacity - bufferSize
      ensures !doStore ==> cursor.value == old(cursor.value)
    {
      var current := nextValue;
      var wrapPoint := (current + requiredCapacity) - bufferSize;
      var cachedGatingSequence := cachedValue;
      if wrapPoint > cachedGatingSequence || cachedGatingSequence > current {
        if doStore {
          cursor.SetVolatile(current);
        }
        var minSequence := MinimumSequence(current);
        cachedValue := minSequence;
        if wrapPoint > minSequence {
          return false;
        }
      }
      return true;
    }

    /** `hasAvailableCapacity(requiredCapacity)`: the check without the cursor store. */
    method HasAvailableCapacity(requiredCapacity: Int32) returns (ok: bool)
      modifies this, cursor
      ensures gating == old(gating) && nextValue == old(nextValue) && cursor.value == old(cursor.value)
      ensures (ok, State()) ==
              CapacityStep(old(State()), bufferSize, requiredCapacity, false, MinimumSequence(old(nextValue)))
    {
      ok := HasAvailableCapacityWith(requiredCapacity, false);
    }

    /** `tryNext(n)`: like `next(n)` but refuses instead of waiting. A count below 1 is
        an argument error; a count above `bufferSize` always ends in a capacity error. */
    method TryNext(n: Int32) returns (r: Result<Int64>)
      requires ClaimFits(n)
      modifies this, cursor
      ensures gating == old(gating)
      ensures (r, State()) == TryNextStep(old(State()), bufferSize, n, MinimumSequence(old(nextValue)))
      ensures n < 1 ==> r == Failure(InvalidArgumentError(TryNextArgumentMessage)) && unchanged(this, cursor)
      ensures n >= 1 ==>
                (r == Failure(InsufficientCapacityError()) <==>
                   old(CacheMiss(State(), bufferSize, n)) &&
                   old(nextValue) + n - bufferSize > MinimumSequence(old(nextValue)))
      ensures r.Failure? ==> nextValue == old(nextValue)
      ensures r.Success? ==> r.value == nextValue == old(nextValue) + n
      ensures r.Success? ==> r.value - bufferSize <= cachedValue <= old(nextValue)
      ensures n >= 1 ==> cachedValue <= nextValue
    {
      if n < 1 {
        return Failure(InvalidArgumentError(TryNextArgumentMessage));
      }
      ghost var before := State();
      var ok := HasAvailableCapacityWith(n, true);
      ghost var freshMin := MinimumSequence(before.nextValue);
      TryNextStepOutcome(before, bufferSize, n, freshMin);
      if !ok {
        return Failure(InsufficientCapacityError());
      }
      nextValue := nextValue + n;
      r := Success(nextValue);
      assert MinimumSequence(before.nextValue) == freshMin;
    }

    /** `remainingCapacity()`: free slots, `bufferSize - (produced - consumed)`, where
        `consumed` is the gating minimum capped at `nextValue`. */
    function RemainingCapacity(): (free: int)
      reads this, gating
      ensures free <= bufferSize
      ensures gating == [] ==> free == bufferSize
      ensures forall i :: 0 <= i < |gating| ==> free <= bufferSize - nextValue + gating[i].value
      ensures free == bufferSize || exists i :: 0 <= i < |gating| && free == bufferSize - nextValue + gating[i].value
      ensures free >= 0 <==> nextValue - bufferSize <= MinimumSequence(nextValue)
    {
      var current := nextValue;
      var consumed := MinimumSequence(current);
      MinimumSequenceIsSlowest(current);
      bufferSize - (current - consumed)
    }

    /** `claim(sequence)`: move `nextValue` to `sequence` (the cache is left as it is;
        if it is now stale, the next claim refreshes it). */
    method Claim(sequence: Int64)
      modifies this
      ensures nextValue == sequence
      ensures cachedValue == old(cachedValue) && gating == old(gating)
    {
      nextValue := sequence;
    }

    /** `publish(sequence)`: the cursor moves to `sequence`, which makes exactly the
        buffer's worth of sequences ending at `sequence` available. */
    method Publish(sequence: Int64)
      modifies cursor
      ensures cursor.value == sequence
      ensures forall t :: IsAvailable(t) <==> sequence - bufferSize < t <= sequence
    {
      cursor.Set(sequence);
    }

    /** `publish(lo, hi)`: the same as `publish(hi)`. */
    method PublishRange(lo: Int64, hi: Int64)
      modifies cursor
      ensures cursor.value == hi
      ensures forall t :: IsAvailable(t) <==> hi - bufferSize < t <= hi
    {
      Publish(hi);
    }

    /** `isAvailable(sequence)`: published and not yet wrapped past. */
    function IsAvailable(sequence: int): (b: bool)
      reads this, cursor
      ensures b <==> InPublishedWindow(cursor.value, bufferSize, sequence)
    {
      var currentSequence := cursor.value;
      sequence <= currentSequence && sequence > currentSequence - bufferSize
    }

    /** `getHighestPublishedSequence(lowerBound, availableSequence)`: a single producer
        publishes in claim order, so everything from an available `lowerBound` up to
        `availableSequence` is published and the bound is returned unchanged. */
    function GetHighestPublishedSequence(lowerBound: Int64, availableSequence: Int64): (r: Int64)
      reads this, cursor
      ensures r == availableSequence
      ensures IsAvailable(lowerBound) && availableSequence <= cursor.value ==>
                forall t :: lowerBound <= t <= r ==> IsAvailable(t)
    {
      availableSequence
    }

    /** `addGatingSequences(sequences, count)`: the newcomers are primed to the cursor,
        so they do not hold the producer back, and appended. */
    method AddGatingSequences(sequences: seq<Sequence>)
      modifies this, sequences
      ensures gating == old(gating) + sequences
      ensures forall t :: t in sequences ==> t.value == old(cursor.value)
      ensures cursor.value == old(cursor.value)
      ensures nextValue == old(nextValue) && cachedValue == old(cachedValue)
    {
      var current := cursor.Get();
      gating := AddSequences(gating, current, sequences);
    }

    /** `removeGatingSequence(sequence)`: drops every occurrence of `sequence` and
        reports whether there was one. */
    method RemoveGatingSequence(sequence: Sequence) returns (removed: bool)
      modifies this
      ensures removed <==> sequence in old(gating)
      ensures gating == Without(old(gating), sequence)
      ensures sequence !in gating
      ensures nextValue == old(nextValue) && cachedValue == old(cachedValue)
    {
      gating, removed := RemoveSequence(gating, sequence);
    }
  }
}
