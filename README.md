# Single-producer sequencer of disruptor-cpp, in Dafny

This project models the claim/publish core of the C++ Disruptor port:

- **`SingleProducerSequencer`** hands out sequence numbers to the one thread that produces into a ring buffer of `bufferSize` slots.
  - It never lets a claim get more than one buffer ahead of the slowest consumer, whose position is the minimum of the *gating sequences*.
  - It publishes progress through its *cursor* sequence.
  - It keeps two private numbers: `nextValue_`, the last claimed sequence, and `cachedValue_`, the gating minimum as it last read it.
- **`Sequence`** is the 64-bit counter that cursors and consumers use.
- **`SequenceGroup`** is a changing set of sequences that reports the minimum of its members.
- **`Error`** is the value that the non-throwing `tryNext` returns when it fails.

Exactly one thread may call the producer operations, so the model is sequential. It has two layers:

1. **Pure step functions.** `single_producer_sequencer.dfy` states each producer operation as a step function on a `ProducerState` value: `CapacityStep`, `NextStep` and `TryNextStep`. Lemmas about these steps give:
   - consecutive claims;
   - no overwrite of a slot the slowest consumer still needs;
   - the exact failure condition of `tryNext`;
   - the shape of the published window.
2. **Classes.** `Sequence`, `SequenceGroup` and `SingleProducerSequencer` are classes whose fields the methods update in place. Each sequencer method is proved to take exactly the corresponding step.

Other files:

- `sequence_groups.dfy` holds the helpers that every gating set relies on: the minimum of a list of values, and the copy-on-write add and remove of a snapshot.
- `errors.dfy` holds `Error` and the `std::expected` shape (`Result`).

The spin loop of `next(n)` waits for other threads and has no sequential meaning. The model instead stands for the moment the spin ends. `Next` requires `NextWillNotSpin(n)`: on a cache miss, the first gating minimum read after the cursor store already admits the claim. `Next` reports the minimum it cached through `MinimumAfterCursorStore`, which covers the case where the cursor is itself a gating sequence. The exception that `next(n)` throws on a bad count becomes a `Failure` result.

## Model

| member | source | states |
|---|---|---|
| Errors.InsufficientCapacityError | include/disruptor/Error.h:23-25 | code `InsufficientCapacity`, message `"InsufficientCapacityException"` |
| Errors.InvalidArgumentError | include/disruptor/Error.h:27-29 | code `InvalidArgument`, message exactly the one given |
| Errors.RuntimeFailure | include/disruptor/Error.h:31-33 | code `RuntimeError`, message exactly the one given |
| Errors.ErrorKeepsCodeAndMessage | include/disruptor/Error.h:16-20 | `Error(c, m)` stores exactly `c` and `m` |
| Errors.FactoryCodesDiffer | include/disruptor/Error.h:23-33 | the three factories give three different codes, whatever the messages |
| Sequences.Wrap64 | include/disruptor/Sequence.h:97-107 | the `int64_t` result of a wrapping add is congruent to the exact sum modulo 2^64 and equals it when the sum fits |
| Sequences.Wrap64IsUnique | include/disruptor/Sequence.h:97-107 | the wrapped value is the only `int64_t` congruent to the exact sum |
| Sequences.Wrap64AddsUp | include/disruptor/Sequence.h:101-103 | two wrapping adds in a row equal one wrapping add of the total |
| Sequences.Sequence.constructor | include/disruptor/Sequence.h:58-60 | a new sequence reads `INITIAL_VALUE` (-1) |
| Sequences.Sequence.WithValue | include/disruptor/Sequence.h:61 | `Sequence(v)` reads `v` |
| Sequences.Sequence.Get | include/disruptor/Sequence.h:68-72 | returns the stored value |
| Sequences.Sequence.Set | include/disruptor/Sequence.h:76-79 | the stored value becomes `v` |
| Sequences.Sequence.SetVolatile | include/disruptor/Sequence.h:85-89 | the stored value becomes `v`, the same as `set` |
| Sequences.Sequence.CompareAndSet | include/disruptor/Sequence.h:91-95 | success means the value was `expected` and is now `desired`; failure leaves it unchanged, and failure is allowed even when the value equals `expected` |
| Sequences.Sequence.IncrementAndGet | include/disruptor/Sequence.h:97-99 | stores `old + 1` (wrapping) and returns the new value |
| Sequences.Sequence.AddAndGet | include/disruptor/Sequence.h:101-103 | stores `old + k` (wrapping) and returns the new value |
| Sequences.Sequence.GetAndAdd | include/disruptor/Sequence.h:105-107 | stores `old + k` (wrapping) and returns the old value |
| SequenceGroups.GetMinimumSequence | include/disruptor/SequenceGroup.h:29 | the result is at most the default and every value, and is the default or one of the values |
| SequenceGroups.MinimumIsGreatestLowerBound | include/disruptor/SingleProducerSequencer.h:220-237 | a bound is at or below the minimum exactly when it is at or below the default and every value |
| SequenceGroups.MinimumOfAppend | include/disruptor/SequenceGroup.h:46-51 | adding one value makes the minimum the smaller of the old minimum and that value |
| SequenceGroups.MinimumAfterPriming | include/disruptor/SequenceGroup.h:62-66 | priming members to `c` and appending one at `c` leaves the minimum at most `c` and at least the smaller of `c` and the old minimum, and exactly that when nothing was replaced |
| SequenceGroups.ValuesAfterStore | include/disruptor/SingleProducerSequencer.h:103-106 | the members' values as read after one of them (possibly none) was set to `v` |
| SequenceGroups.Without | include/disruptor/SequenceGroup.h:53-55 | the removed sequence is absent; a snapshot without it is returned unchanged |
| SequenceGroups.WithoutKeepsOthers | include/disruptor/SequenceGroup.h:53-55 | removal keeps every other member with its multiplicity and drops every occurrence of the removed one |
| SequenceGroups.AddSequences | include/disruptor/SequenceGroup.h:62-66 | the new snapshot is the old one followed by the newcomers, each primed to the cursor value |
| SequenceGroups.RemoveSequence | include/disruptor/SequenceGroup.h:53-55 | the new snapshot is the old one without the sequence; the result says whether it was there |
| Groups.SequenceGroup.constructor | include/disruptor/SequenceGroup.h:21 | a new group has no members and size 0 |
| Groups.SequenceGroup.Get | include/disruptor/SequenceGroup.h:23-30 | the minimum member value (no member below it, a non-empty group has one at it); the largest `int64_t` when empty |
| Groups.SequenceGroup.GetCursor | include/disruptor/SequenceGroup.h:32-34 | equals `get()` |
| Groups.SequenceGroup.Size | include/disruptor/SequenceGroup.h:57-60 | the number of members |
| Groups.SequenceGroup.Set | include/disruptor/SequenceGroup.h:36-44 | every member holds the value and nothing else is written; a non-empty group's `get()` is then that value |
| Groups.SequenceGroup.Add | include/disruptor/SequenceGroup.h:46-51 | the sequence becomes the newest member, size grows by one, other members keep their values |
| Groups.SequenceGroup.AddWhileRunning | include/disruptor/SequenceGroup.h:62-66 | the newcomer is appended holding the cursor value; the group minimum is at most the cursor and never below the smaller of the cursor and the old minimum |
| Groups.SequenceGroup.Remove | include/disruptor/SequenceGroup.h:53-55 | returns whether the sequence was a member; afterwards it is not, and every other member remains with its multiplicity |
| Groups.MinimumScenario | tests/disruptor/FixedSequenceGroupTest.cpp:8-19 | the minimum of 34 and 47 is 34, of 35 and 47 is 35, of 48 and 47 is 47 |
| SingleProducer.CapacityStep | include/disruptor/SingleProducerSequencer.h:199-218 | `nextValue` never changes; a yes means the wrap point is within the cache; a no means the cache now holds the fresh minimum and it is below the wrap point; the cursor moves only with `doStore`, and then to `nextValue`; the cache is the old one or the fresh minimum |
| SingleProducer.NextStep | include/disruptor/SingleProducerSequencer.h:92-118 | a success returns the new `nextValue`; the cursor stays or becomes the old `nextValue`; the cache stays or becomes the minimum the spin ended on |
| SingleProducer.TryNextStep | include/disruptor/SingleProducerSequencer.h:125-136 | a success returns the new `nextValue`; a failure keeps `nextValue`; the cursor stays or becomes the old `nextValue`; the cache stays or becomes the fresh minimum |
| SingleProducer.NextRun | include/disruptor/SingleProducerSequencer.h:79-81 | one result per `next()` call |
| SingleProducer.NextStepOutcome | include/disruptor/SingleProducerSequencer.h:92-118 | a valid count claims `nextValue + n`; a count outside `1..bufferSize` is an argument error and leaves the state alone, `n == bufferSize` included as valid |
| SingleProducer.NextStepBounds | include/disruptor/SingleProducerSequencer.h:96-118 | after a successful claim `r`: `r - bufferSize <= cachedValue <= old nextValue < r` |
| SingleProducer.NextKeepsNoOverwrite | include/disruptor/SingleProducerSequencer.h:96-118 | when the spin ends on the slowest consumer's value (capped at `nextValue`) and consumers only move forward, `next` keeps the cache at or below the slowest consumer and the last claim at most one buffer ahead of the cache, so the claim is at most one buffer ahead of the slowest consumer |
| SingleProducer.TryNextKeepsNoOverwrite | include/disruptor/SingleProducerSequencer.h:125-136 | `tryNext` keeps the same invariant on every outcome: argument error, capacity failure that refreshes the cache, or success |
| SingleProducer.TryNextStepOutcome | include/disruptor/SingleProducerSequencer.h:125-136 | `tryNext` fails for capacity exactly when the cache missed and the wrap point is above the fresh minimum; failure keeps `nextValue`, success adds exactly `n` and returns it |
| SingleProducer.TryNextRefusesOversizedClaims | include/disruptor/SingleProducerSequencer.h:199-218 | a `tryNext` count above `bufferSize` always ends in a capacity error |
| SingleProducer.NextRunIsConsecutive | include/disruptor/SingleProducerSequencer.h:79-81 | successive `next()` calls hand out `nextValue + 1, nextValue + 2, ...`, with no gap and no repeat, whatever minima they read |
| SingleProducer.PublishedWindowIsContiguous | include/disruptor/SingleProducerSequencer.h:161-168 | every sequence between an available one and one at or below the cursor is available |
| SingleProducer.PublishedSlotsAreDistinct | include/disruptor/SingleProducerSequencer.h:161-164 | no two available sequences share a ring slot |
| SingleProducer.EverySlotHasAPublishedSequence | include/disruptor/SingleProducerSequencer.h:161-164 | every ring slot holds an available sequence |
| SingleProducer.TryNextWithStalledConsumer | include/disruptor/SingleProducerSequencer.h:125-136 | with 64 slots, 64 claims and a consumer still at -1, `tryNext()` returns a capacity error and changes nothing |
| SingleProducer.SingleProducerSequencer.constructor | include/disruptor/SingleProducerSequencer.h:58-73 | `nextValue_`, `cachedValue_` and the cursor start at -1, with no gating sequences |
| SingleProducer.SingleProducerSequencer.MinimumSequence | include/disruptor/SingleProducerSequencer.h:220-237 | the minimum is at most `defaultMin` |
| SingleProducer.SingleProducerSequencer.MinimumSequenceIsSlowest | include/disruptor/SingleProducerSequencer.h:220-237 | the minimum is at or below every gating value, and is `defaultMin` or one of them |
| SingleProducer.SingleProducerSequencer.MinimumAfterCursorStore | include/disruptor/SingleProducerSequencer.h:103-106 | the minimum read after the cursor store is at most `nextValue` |
| SingleProducer.SingleProducerSequencer.Next | include/disruptor/SingleProducerSequencer.h:83-119 | takes exactly `NextStep`: an invalid count fails and changes nothing; a valid one returns and stores `nextValue + n`; the cache ends in `[r - bufferSize, old nextValue]`; the cursor only moves, on a cache miss, to the old `nextValue` |
| SingleProducer.SingleProducerSequencer.HasAvailableCapacityWith | include/disruptor/SingleProducerSequencer.h:199-218 | takes exactly `CapacityStep`; a yes means the wrap point is within the cache and the cache is at most `nextValue`; a no means the freshly read minimum is below the wrap point; without `doStore` the cursor is untouched |
| SingleProducer.SingleProducerSequencer.HasAvailableCapacity | include/disruptor/SingleProducerSequencer.h:75-77 | the check without the cursor store; nothing but the cache changes |
| SingleProducer.SingleProducerSequencer.TryNext | include/disruptor/SingleProducerSequencer.h:125-136 | takes exactly `TryNextStep`: a count below 1 is an argument error that changes nothing; a capacity error exactly when the cache missed and the wrap point is above the fresh minimum; success adds exactly `n`; the cache stays at most `nextValue` |
| SingleProducer.SingleProducerSequencer.RemainingCapacity | include/disruptor/SingleProducerSequencer.h:138-143 | `bufferSize` with no consumers; otherwise at most `bufferSize - (nextValue - v)` for every gating value `v` and equal for the slowest; non-negative exactly when the last claim is within a buffer of the minimum |
| SingleProducer.SingleProducerSequencer.Claim | include/disruptor/SingleProducerSequencer.h:145-147 | `nextValue` becomes the sequence; the cache and gating set stay |
| SingleProducer.SingleProducerSequencer.Publish | include/disruptor/SingleProducerSequencer.h:149-154 | the cursor becomes `s`, and afterwards `isAvailable(t)` holds exactly for `s - bufferSize < t <= s` |
| SingleProducer.SingleProducerSequencer.PublishRange | include/disruptor/SingleProducerSequencer.h:156-159 | the same as publishing `hi` |
| SingleProducer.SingleProducerSequencer.IsAvailable | include/disruptor/SingleProducerSequencer.h:161-164 | true exactly when the sequence is within one buffer at or below the cursor |
| SingleProducer.SingleProducerSequencer.GetHighestPublishedSequence | include/disruptor/SingleProducerSequencer.h:166-168 | returns `availableSequence` unchanged, and everything from an available lower bound up to it is available |
| SingleProducer.SingleProducerSequencer.AddGatingSequences | include/disruptor/SingleProducerSequencer.h:178-181 | the newcomers are appended, each primed to the cursor value; the producer's numbers stay |
| SingleProducer.SingleProducerSequencer.RemoveGatingSequence | include/disruptor/SingleProducerSequencer.h:183-187 | returns whether the sequence was gating; afterwards it is not, and the rest remain in order |

## Left out

- Memory ordering is not modelled: fences, acquire/release, `std::atomic` orderings and the TSAN annotations. Only the sequential effect of each operation is modelled.
- Cache-line padding is not modelled. It has no semantics.
- The debug `sameThread` check and the `runtime_error` it throws are not modelled. There being a single producer thread is an assumption of the whole model.
- The diagnostic counters `sp_wrap_wait_entries` and `sp_wrap_wait_loops` are not modelled. They are benchmark instrumentation.
- The `gatingSequencesCache_` pointer is not modelled. `minimumSequence` reads the live gating set, so invalidating the cache in `addGatingSequences` and `removeGatingSequence` needs no state.
- Next: the spin of `next(n)` and `ThreadHints::onSpinWait` are not modelled. They wait for other threads. `Next` requires that the first minimum read after the cursor store already admits the claim (`NextWillNotSpin`).
- `signalAllWhenBlocking` on publish is not modelled. It belongs to a wait strategy that is not part of this model.
- `newBarrier` is not modelled. `ProcessingSequenceBarrier` is not part of this model.
- `next()` and `tryNext()` are not separate members. They are `next(1)` and `tryNext(1)`; `NextRunIsConsecutive` speaks about the former.
- `AbstractSequencer` is not part of this model.
  - The sequencer is built with an already validated `BufferSize` (1 to 2^31 - 1). The power-of-two requirement is not modelled.
  - `addGatingSequences` is modelled as priming the newcomers to the cursor and appending them.
- `include/disruptor/util/Util.h` and `include/disruptor/SequenceGroups.h` are not part of this model. Their effect is modelled as the callers use it.
- The lock-free retry of the snapshot swap is not modelled. A snapshot is a `seq` that is replaced in one step.
- Groups.SequenceGroup.Add: the contract does not state the value the newcomer is primed to. The group passes itself as the cursor source, and the priming code is in `SequenceGroups.h`.
- Groups.SequenceGroup.Set: null entries in the snapshot, which `set` skips, cannot occur in the model.
- `SequenceGroup` derives from `Sequence` in the source; here it is a class of its own. Nesting one group inside another is not modelled.
- `size()` returns a C++ `int`; here it returns a `nat`. Overflow at 2^31 members is not modelled.
- Sequences.Sequence.IncrementAndGet: the returned value is the wrapped sum. The source returns `fetch_add(1) + 1`, a plain `int64_t` addition that is undefined on overflow; only the stored value is defined to wrap.
- Sequences.Sequence.AddAndGet: the same holds for `fetch_add(increment) + increment`.
- Sequences.Sequence.CompareAndSet: the body performs the strong exchange. The contract is the weaker one that `compare_exchange_weak` promises.
- SingleProducer.SingleProducerSequencer.Next: 64-bit overflow of the sequencer's own arithmetic is not modelled. Wrap points are computed exactly, and `ClaimFits` requires a valid claim to stay within `int64_t`, since signed overflow is undefined in C++.
- SingleProducer.SingleProducerSequencer.TryNext: the same `ClaimFits` precondition applies as for `Next`.
- The message of the `next(n)` argument error reads "n must be > 0 and < bufferSize", yet the code accepts `n == bufferSize`. The model follows the code and keeps the message as it is.
- `ExceptionHandlers`, `LongEventFactory` and the benchmark programs are not modelled. They are outside the claim/publish core.
