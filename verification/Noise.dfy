/** The per-pixel noise of simulated frames: xorshift32 scaled into a signed interval. */
module Noise {
  import opened Common
  import opened Arithmetic

  newtype i32 = x: int | -0x8000_0000 <= x < 0x8000_0000

  // --- xorshift32 ------------------------------------------------------------

  function StepA(x: bv32): bv32 { x ^ (x << 13) }
  function StepB(x: bv32): bv32 { x ^ (x >> 17) }
  function StepC(x: bv32): bv32 { x ^ (x << 5) }

  function Xorshift(x: bv32): bv32 { StepC(StepB(StepA(x))) }

  function UndoA(y: bv32): bv32 { y ^ (y << 13) ^ (y << 26) }
  function UndoC(y: bv32): bv32 { y ^ (y << 5) ^ (y << 10) ^ (y << 15) ^ (y << 20) ^ (y << 25) ^ (y << 30) }

  /** The inverse of one draw; the right shift by 17 is its own inverse. */
  function Unshift(y: bv32): bv32 { UndoA(StepB(UndoC(y))) }

  lemma BitsA(x: bv32)
    ensures (x ^ (x << 13)) ^ ((x ^ (x << 13)) << 13) ^ ((x ^ (x << 13)) << 26) == x
    ensures (x ^ (x << 13) ^ (x << 26)) ^ ((x ^ (x << 13) ^ (x << 26)) << 13) == x
  {
  }

  lemma BitsB(x: bv32)
    ensures (x ^ (x >> 17)) ^ ((x ^ (x >> 17)) >> 17) == x
  {
  }

  lemma BitsC(x: bv32)
    ensures (x ^ (x << 5)) ^ ((x ^ (x << 5)) << 5) ^ ((x ^ (x << 5)) << 10) ^ ((x ^ (x << 5)) << 15)
              ^ ((x ^ (x << 5)) << 20) ^ ((x ^ (x << 5)) << 25) ^ ((x ^ (x << 5)) << 30) == x
  {
  }

  lemma BitsUndoC(x: bv32)
    ensures (x ^ (x << 5) ^ (x << 10) ^ (x << 15) ^ (x << 20) ^ (x << 25) ^ (x << 30))
              ^ ((x ^ (x << 5) ^ (x << 10) ^ (x << 15) ^ (x << 20) ^ (x << 25) ^ (x << 30)) << 5) == x
  {
  }

  // One step on an unfolded argument, so that only `Bits` lemmas look at bits.

  lemma ValueA(x: bv32)
    ensures UndoA(x ^ (x << 13)) == x && StepA(x ^ (x << 13) ^ (x << 26)) == x
  {
    BitsA(x);
  }

  lemma ValueB(x: bv32)
    ensures StepB(x ^ (x >> 17)) == x
  {
    BitsB(x);
  }

  lemma ValueC(x: bv32)
    ensures UndoC(x ^ (x << 5)) == x
  {
    BitsC(x);
  }

  lemma ValueUndoC(x: bv32)
    ensures StepC(x ^ (x << 5) ^ (x << 10) ^ (x << 15) ^ (x << 20) ^ (x << 25) ^ (x << 30)) == x
  {
    BitsUndoC(x);
  }

  lemma SameB(a: bv32, b: bv32)
    requires a == b
    ensures StepB(a) == StepB(b)
  {
  }

  lemma UndoesA(x: bv32)
    ensures UndoA(StepA(x)) == x && StepA(UndoA(x)) == x
  {
    ValueA(x);
  }

  lemma UndoesB(x: bv32)
    ensures StepB(StepB(x)) == x
  {
    ValueB(x);
    SameB(StepB(x), x ^ (x >> 17));
  }

  lemma UndoesC(x: bv32)
    ensures UndoC(StepC(x)) == x && StepC(UndoC(x)) == x
  {
    ValueC(x);
    ValueUndoC(x);
  }

  /** A draw permutes the 32-bit states. */
  lemma XorshiftInvertible(x: bv32)
    ensures Unshift(Xorshift(x)) == x
    ensures Xorshift(Unshift(x)) == x
  {
    UndoesA(x);
    UndoesB(StepA(x));
    UndoesC(StepB(StepA(x)));
    UndoesC(x);
    UndoesB(UndoC(x));
    UndoesA(StepB(UndoC(x)));
  }

  /** Zero is the only state that draws zero. */
  lemma XorshiftNonzero(x: bv32)
    ensures Xorshift(x) != 0 <==> x != 0
  {
    XorshiftInvertible(x);
    ZeroStaysZero();
  }

  lemma ZeroStaysZero()
    ensures Xorshift(0) == 0 && Unshift(0) == 0
  {
  }

  /** The first draws of the stream that starts at 1. */
  lemma KnownDraws()
    ensures Xorshift(1) == 270369 && Xorshift(270369) == 67634689 && Xorshift(67634689) == 2647435461
  {
  }

  // --- scaling ---------------------------------------------------------------

  /** The width of the interval of half-width `range`. */
  function Span(range: nat): nat {
    2 * range + 1
  }

  /** The high word of `draw * span`, moved to be centred on zero. */
  function Centred(draw: nat, range: nat): int {
    draw * Span(range) / U32_BOUND - range
  }

  predicate HalfWidth(range: nat) {
    range < 0x8000_0000
  }

  lemma ProductFits(draw: nat, range: nat)
    requires draw < U32_BOUND && HalfWidth(range)
    ensures draw * Span(range) < U64_BOUND
    ensures draw * Span(range) / U32_BOUND < Span(range)
  {
    var span := Span(range);
    MulLess(draw, U32_BOUND, span);
    assert U32_BOUND * span == span * U32_BOUND;
    DivBelow(draw * span, U32_BOUND, span);
  }

  lemma CentredInRange(draw: nat, range: nat)
    requires draw < U32_BOUND && HalfWidth(range)
    ensures 0 - range <= Centred(draw, range) <= range
    ensures -0x8000_0000 <= Centred(draw, range) < 0x8000_0000
  {
    ProductFits(draw, range);
  }

  /** Larger draws give no smaller samples, from one end of the interval to the other. */
  lemma CentredSpans(draw: nat, more: nat, range: nat)
    requires draw <= more && HalfWidth(range)
    ensures Centred(0, range) == 0 - range && Centred(U32_MAX, range) == range
    ensures Centred(draw, range) <= Centred(more, range)
  {
    var span := Span(range);
    assert U32_MAX * span == (span - 1) * U32_BOUND + (U32_BOUND - span);
    DivIs(U32_MAX * span, U32_BOUND, span - 1);
    MulMonotone(draw, more, span);
    DivMonotone(draw * span, more * span, U32_BOUND);
  }

  /** The draw that lands on `v`. */
  function DrawFor(v: int, range: nat): nat
    requires 0 - range <= v <= range
  {
    if v == 0 - range then 1 else ((v + range) * U32_BOUND + Span(range) - 1) / Span(range)
  }

  lemma DrawForLands(v: int, range: nat)
    requires HalfWidth(range) && 0 - range <= v <= range
    ensures 0 < DrawFor(v, range) < U32_BOUND
    ensures Centred(DrawFor(v, range), range) == v
  {
    var span, k := Span(range), v + range;
    if k == 0 {
      assert 1 * span / U32_BOUND == 0;
    } else {
      var u := DrawFor(v, range);
      CeilingBounds(k * U32_BOUND, span);
      assert k * U32_BOUND <= u * span < k * U32_BOUND + span;
      DivIs(u * span, U32_BOUND, k);
      assert u > 0;
      assert u * span < k * U32_BOUND + span <= (span - 1) * U32_BOUND + span;
      SmallerFactor(u, span);
    }
  }

  lemma SmallerFactor(u: nat, span: nat)
    requires 0 < span < U32_BOUND && u * span < (span - 1) * U32_BOUND + span
    ensures u < U32_BOUND
  {
    assert u >= U32_BOUND ==> u * span >= U32_BOUND * span;
  }

  class PixelNoise {
    var state: bv32
    const span: nat
    const range: nat

    ghost predicate Valid()
      reads this
    {
      state != 0 && HalfWidth(range) && span == Span(range)
    }

    /** A negative range is no noise at all. */
    constructor (seed: bv32, range: i32)
      ensures Valid()
      ensures this.range == (if range < 0 then 0 else range as nat)
      ensures state == seed | 1
    {
      this.state := seed | 1;
      this.range := if range < 0 then 0 else range as nat;
      this.span := 2 * (if range < 0 then 0 else range as nat) + 1;
      new;
      OddIsNonzero(seed);
    }

    method NextU32() returns (x: bv32)
      requires Valid()
      modifies this`state
      ensures Valid() && x == state == Xorshift(old(state)) && x != 0
    {
      XorshiftNonzero(state);
      x := state;
      x := StepA(x);
      x := StepB(x);
      x := StepC(x);
      state := x;
    }

    method NextSigned() returns (v: i32)
      requires Valid()
      modifies this`state
      ensures Valid() && state == Xorshift(old(state))
      ensures 0 - range <= v as int <= range
      ensures v as int == Centred(state as nat, range)
    {
      var draw := NextU32();
      v := Scale(draw as nat);
    }

    /** The 64-bit product and the 32-bit result never leave their types. */
    method Scale(draw: nat) returns (v: i32)
      requires HalfWidth(range) && span == Span(range) && draw < U32_BOUND
      ensures 0 - range <= v as int <= range
      ensures v as int == Centred(draw, range)
    {
      ProductFits(draw, range);
      CentredInRange(draw, range);
      var product := draw * span;
      assert product < U64_BOUND;
      var centred := product / U32_BOUND - range;
      assert centred == Centred(draw, range);
      v := centred as i32;
    }
  }

  lemma OddIsNonzero(seed: bv32)
    ensures seed | 1 != 0
  {
  }

  /** The state after `n` draws. */
  function After(state: bv32, n: nat): bv32 {
    if n == 0 then state else Xorshift(After(state, n - 1))
  }

  /** However many pixels are drawn, from any seed, the stream never dies at zero. */
  lemma {:induction false} StreamNeverDies(seed: bv32, n: nat)
    ensures After(seed | 1, n) != 0
  {
    OddIsNonzero(seed);
    if n > 0 {
      StreamNeverDies(seed, n - 1);
      XorshiftNonzero(After(seed | 1, n - 1));
    }
  }

  /** The interval is exact: every value in it is drawn from some nonzero state. */
  lemma EveryValueIsDrawn(v: int, range: nat) returns (state: bv32)
    requires HalfWidth(range) && 0 - range <= v <= range
    ensures state != 0 && Centred(Xorshift(state) as nat, range) == v
  {
    DrawForLands(v, range);
    var draw := BitsOf(DrawFor(v, range));
    state := Unshift(draw);
    XorshiftInvertible(draw);
    XorshiftNonzero(state);
  }

  // Numbers and words: a word for every number, one byte at a time.

  lemma Increment(b: bv8)
    requires b as nat < 255
    ensures (b + 1) as nat == b as nat + 1
  {
  }

  lemma {:induction false} ByteOf(n: nat) returns (b: bv8)
    requires n < 256
    ensures b as nat == n
  {
    if n == 0 {
      b := 0;
    } else {
      b := ByteOf(n - 1);
      Increment(b);
      b := b + 1;
    }
  }

  lemma JoinBytes(high: bv8, low: bv8)
    ensures (((high as bv16) << 8) | (low as bv16)) as nat == 256 * (high as nat) + low as nat
  {
  }

  lemma JoinHalves(high: bv16, low: bv16)
    ensures (((high as bv32) << 16) | (low as bv32)) as nat == 65536 * (high as nat) + low as nat
  {
  }

  lemma HalfOf(n: nat) returns (b: bv16)
    requires n < 65536
    ensures b as nat == n
  {
    var high := ByteOf(n / 256);
    var low := ByteOf(n % 256);
    JoinBytes(high, low);
    b := ((high as bv16) << 8) | (low as bv16);
  }

  lemma BitsOf(n: nat) returns (b: bv32)
    requires 0 < n < U32_BOUND
    ensures b as nat == n && b != 0
  {
    var high := HalfOf(n / 65536);
    var low := HalfOf(n % 65536);
    JoinHalves(high, low);
    b := ((high as bv32) << 16) | (low as bv32);
  }
}
