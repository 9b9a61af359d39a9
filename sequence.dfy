/** The 64-bit progress counter (include/disruptor/Sequence.h).

    Sequentially a `Sequence` is a mutable integer cell; the acquire/release fences
    that distinguish `Set` from `SetVolatile` have no sequential effect and are not
    modelled. The atomic read-modify-write operations of `std::atomic<int64_t>` wrap
    around in two's complement, and so do the operations here. */
module Sequences {

  /** Number of distinct 64-bit values. */
  const Modulus64: int := 0x1_0000_0000_0000_0000
  const MinInt64: int := -0x8000_0000_0000_0000
  const MaxInt64: int := 0x7fff_ffff_ffff_ffff

  /** `int64_t` */
  type Int64 = x: int | -0x8000_0000_0000_0000 <= x <= 0x7fff_ffff_ffff_ffff

  /** `Sequence::INITIAL_VALUE`: nothing produced or consumed yet. */
  const InitialValue: Int64 := -1

  /** Two's complement reduction of an exact sum into `int64_t`, as the atomic
      `fetch_add` performs it. */
  function Wrap64(x: int): (r: Int64)
    ensures (r - x) % Modulus64 == 0
    ensures MinInt64 <= x <= MaxInt64 ==> r == x
  {
    var m := x % Modulus64;
    if m <= MaxInt64 then m else m - Modulus64
  }

  /** `Wrap64` is the only `int64_t` value congruent to its argument. */
  lemma Wrap64IsUnique(x: int, r: Int64)
    requires (r - x) % Modulus64 == 0
    ensures r == Wrap64(x)
  {
    var w := Wrap64(x);
    var k := (r - x) / Modulus64;
    var j := (w - x) / Modulus64;
    assert r - x == k * Modulus64;
    assert w - x == j * Modulus64;
    assert r - w == (k - j) * Modulus64;
  }

  /** Two wrapping additions in a row agree with one wrapping addition of the sum:
      `addAndGet(a); addAndGet(b)` leaves the same value as `addAndGet(a + b)`
      would without intermediate overflow. */
  lemma Wrap64AddsUp(x: int, b: int)
    ensures Wrap64(Wrap64(x) + b) == Wrap64(x + b)
  {
    var w := Wrap64(x);
    var r := Wrap64(w + b);
    var k := (r - (w + b)) / Modulus64;
    var j := (w - x) / Modulus64;
    assert r - (w + b) == k * Modulus64;
    assert w - x == j * Modulus64;
    assert r - (x + b) == (k + j) * Modulus64;
    Wrap64IsUnique(x + b, r);
  }

  /** `disruptor::Sequence`: one mutable `int64_t` cell. */
  class Sequence {
    var value: Int64

    /** `Sequence()`: starts at `INITIAL_VALUE`. */
    constructor ()
      ensures value == InitialValue
    {
      value := InitialValue;
    }

    /** `Sequence(initial)` */
    constructor WithValue(initial: Int64)
      ensures value == initial
    {
      value := initial;
    }

    /** `get()`: the last stored value. */
    method Get() returns (v: Int64)
      ensures v == value
    {
      v := value;
    }

    /** `set(v)`: a release store. */
    method Set(v: Int64)
      modifies this
      ensures value == v
    {
      value := v;
    }

    /** `setVolatile(v)`: a store followed by a full fence; sequentially the same as `Set`. */
    method SetVolatile(v: Int64)
      modifies this
      ensures value == v
    {
      value := v;
    }

    /** `compareAndSet(expected, desired)`: a weak compare-and-swap. Success means the
        value was `expected` and is now `desired`; failure leaves the value alone and,
        the exchange being weak, may happen even when the value equals `expected`. */
    method CompareAndSet(expected: Int64, desired: Int64) returns (swapped: bool)
      modifies this
      ensures swapped ==> old(value) == expected && value == desired
      ensures !swapped ==> value == old(value)
    {
      swapped := value == expected;
      if swapped {
        value := desired;
      }
    }

    /** `incrementAndGet()`: adds one and returns the new value. The stored value wraps
        as `fetch_add` does; the source computes the returned value by a separate plain
        addition, undefined on overflow, where the model returns the wrapped sum. */
    method IncrementAndGet() returns (r: Int64)
      modifies this
      ensures value == Wrap64(old(value) + 1)
      ensures r == value
    {
      value := Wrap64(value + 1);
      r := value;
    }

    /** `addAndGet(increment)`: adds and returns the new value. As for
        `IncrementAndGet`, the returned value is the wrapped sum also where the source's
        plain addition would overflow. */
    method AddAndGet(increment: Int64) returns (r: Int64)
      modifies this
      ensures value == Wrap64(old(value) + increment)
      ensures r == value
    {
      value := Wrap64(value + increment);
      r := value;
    }

    /** `getAndAdd(increment)`: adds and returns the value it replaced. */
    method GetAndAdd(increment: Int64) returns (r: Int64)
      modifies this
      ensures value == Wrap64(old(value) + increment)
      ensures r == old(value)
    {
      r := value;
      value := Wrap64(value + increment);
    }
  }
}
