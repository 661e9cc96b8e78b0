/** The seeded generator of `createRng`: a Mulberry32-style recurrence on one
    32-bit counter. JavaScript keeps the counter as an unwrapped double, but every
    operation on it reduces modulo 2^32, so `bv32` is exact (until the double
    itself loses precision, after roughly 4.9 million draws).
    The counter is held as a number in [0, 2^32) and the mixing is done on
    its `bv32` image.
    A draw yields the 32-bit value `x`; `float()` is `x / 2^32`, and since
    `x * n < 2^53` for every size used, `Math.floor(float() * n)` is the integer
    `(x * n) div 2^32`. */
module Mulberry {
  import opened Maybe
  import opened Seed

  const Increment: nat := 0x6d2b79f5
  const TwoTo32: nat := 0x1_0000_0000

  /** The three stages of the output function, on 32 bits
      (`Math.imul` and the shifts all act on 32 bits). */
  function MixStage(x: bv32, stage: nat): bv32 {
    if stage == 0 then (x ^ (x >> 15)) * (x | 1)
    else if stage == 1 then x ^ (x + (x ^ (x >> 7)) * (x | 61))
    else x ^ (x >> 14)
  }

  /** Stages `stage` to 2 of the output function applied to `x`. */
  function MixFrom(x: bv32, stage: nat): bv32
    decreases 3 - stage
  {
    if stage >= 3 then x else MixFrom(MixStage(x, stage), stage + 1)
  }

  /** The xorshift-multiply output function applied to the advanced counter. */
  function Mix(t: Uint32): Uint32 {
    MixFrom(t as bv32, 0) as int
  }

  /** `t += 0x6d2b79f5`, reduced modulo 2^32. */
  function Step(t: Uint32): Uint32 {
    (t + 0x6d2b79f5) % 0x1_0000_0000
  }

  /** The value a draw yields from counter `t` (the counter then moves to `Step(t)`). */
  function Draw(t: Uint32): Uint32 {
    Deferred(t, 2)
  }

  /** `Mix(Step(t))`, reached only after `k` unfoldings: the verifier unfolds a
      recursive definition twice on its own, so code that only passes draws
      around never expands the 32-bit arithmetic. */
  function Deferred(t: Uint32, k: nat): Uint32 {
    if k == 0 then Mix(Step(t)) else Deferred(t, k - 1)
  }

  lemma {:induction false} DeferredIsMix(t: Uint32, k: nat)
    ensures Deferred(t, k) == Mix(Step(t))
  {
    if k > 0 {
      DeferredIsMix(t, k - 1);
    }
  }

  /** The counter after `k` draws. */
  function Advance(t: Uint32, k: nat): Uint32 {
    if k == 0 then t else Step(Advance(t, k - 1))
  }

  /** The wrapped counter after `k` draws is the reduction of JavaScript's
      unwrapped counter `t + k * 0x6d2b79f5`. */
  lemma {:induction false} AdvanceUnwrapped(t: Uint32, k: nat)
    ensures Advance(t, k) == (t + k * Increment) % TwoTo32
  {
    if k > 0 {
      AdvanceUnwrapped(t, k - 1);
      var u := t + (k - 1) * Increment;
      assert u == (u / TwoTo32) * TwoTo32 + u % TwoTo32;
      assert u + Increment == (u / TwoTo32) * TwoTo32 + (u % TwoTo32 + Increment);
      ModShift(u % TwoTo32 + Increment, u / TwoTo32);
    }
  }

  /** Adding a multiple of 2^32 does not change the residue. */
  lemma {:induction false} ModShift(r: int, q: int)
    ensures (q * TwoTo32 + r) % TwoTo32 == r % TwoTo32
  {
  }

  /** Drawing `a` times and then `b` times is drawing `a + b` times. */
  lemma {:induction false} AdvanceAdd(t: Uint32, a: nat, b: nat)
    ensures Advance(Advance(t, a), b) == Advance(t, a + b)
  {
    if b > 0 {
      AdvanceAdd(t, a, b - 1);
    }
  }

  /** The first `n` values drawn from counter `t`. */
  function Outputs(t: Uint32, n: nat): (xs: seq<Uint32>)
    ensures |xs| == n
  {
    if n == 0 then [] else Outputs(t, n - 1) + [Draw(Advance(t, n - 1))]
  }

  /** The output function at the first three counters of a generator seeded with 1. */
  lemma {:induction false} MixValues()
    ensures Mix(0x6d2b79f6) == 0xa087eaf3
    ensures Mix(0xda56f3eb) == 0x00b349c9
    ensures Mix(0x47826de0) == 0x8706c4eb
  {
    var b1: bv32, b2: bv32, b3: bv32 := 0x6d2b79f6, 0xda56f3eb, 0x47826de0;
    assert MixFrom(b1, 0) == 0xa087eaf3;
    assert MixFrom(b2, 0) == 0x00b349c9;
    assert MixFrom(b3, 0) == 0x8706c4eb;
  }

  /** The first three counters of a generator seeded with 1. */
  lemma {:induction false} StepValues()
    ensures Step(1) == 0x6d2b79f6
    ensures Step(0x6d2b79f6) == 0xda56f3eb
    ensures Step(0xda56f3eb) == 0x47826de0
  {
  }

  /** One more draw appends the value drawn at the advanced counter. */
  lemma {:induction false} OutputsSnoc(t: Uint32, n: nat)
    ensures Outputs(t, n + 1) == Outputs(t, n) + [Draw(Advance(t, n))]
    ensures Advance(t, n + 1) == Step(Advance(t, n))
  {
  }

  /** Golden values: the first three counters and draws of a generator seeded with 1. */
  lemma {:induction false} GoldenDraws()
    ensures Advance(1, 1) == 0x6d2b79f6 && Advance(1, 2) == 0xda56f3eb
    ensures Draw(1) == 0xa087eaf3
    ensures Draw(0x6d2b79f6) == 0x00b349c9
    ensures Draw(0xda56f3eb) == 0x8706c4eb
  {
    OutputsSnoc(1, 0);
    OutputsSnoc(1, 1);
    StepValues();
    MixValues();
  }

  /** `float()`: the drawn value scaled into [0, 1). */
  function Unit(x: Uint32): (f: real)
    ensures 0.0 <= f < 1.0
  {
    x as real / TwoTo32 as real
  }

  /** `Math.floor(float() * n)` computed on integers. */
  function Scaled(x: Uint32, n: nat): (i: nat)
    ensures n > 0 ==> i < n
  {
    assert x * n <= (TwoTo32 - 1) * n;
    x * n / TwoTo32
  }

  /** The integer form agrees with flooring the scaled float. */
  lemma {:induction false} ScaledIsFloor(x: Uint32, n: nat)
    ensures Scaled(x, n) == (Unit(x) * n as real).Floor
  {
    var q, m := x * n / TwoTo32, x * n % TwoTo32;
    assert x * n == q * TwoTo32 + m;
    assert Unit(x) * n as real == q as real + m as real / TwoTo32 as real;
  }

  /** `Math.ceil` on a real. */
  function Ceil(r: real): (c: int)
    ensures r <= c as real < r + 1.0
  {
    -((-r).Floor)
  }

  /** The index `pick` uses on an array of length `n`, from counter `t`. */
  function PickIndex(t: Uint32, n: nat): (i: nat)
    requires n > 0
    ensures i < n
  {
    Scaled(Draw(t), n)
  }

  /** `bool(p)`: the draw from counter `t` falls below `p`. */
  function BoolDraw(t: Uint32, p: real): bool {
    Unit(Draw(t)) < p
  }

  /** The generator object `createRng` returns; `t` is the closure's counter. */
  class Rng {
    var t: Uint32

    /** `createRng(seed)`: a zero seed is replaced by 1. */
    constructor (seed: Uint32)
      ensures t == if seed == 0 then 1 else seed
    {
      t := if seed == 0 then 1 else seed;
    }

    /** `next()`: advance the counter, then mix it. */
    method Next() returns (x: Uint32)
      modifies this
      ensures t == Step(old(t)) && x == Draw(old(t))
    {
      DeferredIsMix(t, 2);
      t := Step(t);
      x := Mix(t);
    }

    /** `float()`: one draw, scaled into [0, 1). */
    method Float() returns (f: real)
      modifies this
      ensures t == Step(old(t))
      ensures f == Unit(Draw(old(t))) && 0.0 <= f < 1.0
    {
      var x := Next();
      f := Unit(x);
    }

    /** `int(min, max)`: an integer in [ceil(min), floor(max)] from one draw;
        an empty range throws before drawing. */
    method Int(min: real, max: real) returns (r: Result<int>)
      modifies this
      ensures var lo, hi := Ceil(min), max.Floor;
              if hi < lo then r == Err("Invalid rng.int range") && t == old(t)
              else && r == Ok(lo + Scaled(Draw(old(t)), hi - lo + 1))
                   && lo <= r.value <= hi
                   && t == Step(old(t))
    {
      var lo, hi := Ceil(min), max.Floor;
      if hi < lo {
        return Err("Invalid rng.int range");
      }
      var x := Next();
      r := Ok(lo + Scaled(x, hi - lo + 1));
    }

    /** `pick(arr)`: an element chosen by one draw; an empty array throws
        before drawing. */
    method Pick<T>(arr: seq<T>) returns (r: Result<T>)
      modifies this
      ensures |arr| == 0 ==> r == Err("rng.pick on empty array") && t == old(t)
      ensures |arr| > 0 ==> r == Ok(arr[PickIndex(old(t), |arr|)]) && t == Step(old(t))
      ensures r.Ok? ==> r.value in arr
    {
      if |arr| == 0 {
        return Err("rng.pick on empty array");
      }
      var x := Next();
      r := Ok(arr[Scaled(x, |arr|)]);
    }

    /** `bool(p)`: one draw compared with `p`. */
    method Bool(p: real) returns (b: bool)
      modifies this
      ensures t == Step(old(t)) && b == BoolDraw(old(t), p)
    {
      var x := Next();
      b := Unit(x) < p;
    }
  }

  /** One draw from each of two separate generators that are in step. */
  method DrawBoth(a: Rng, b: Rng) returns (x: Uint32, y: Uint32)
    requires a != b && a.t == b.t
    modifies a, b
    ensures a.t == b.t == Step(old(a.t))
    ensures x == y == Draw(old(a.t))
  {
    x := a.Next();
    y := b.Next();
  }

  /** Two generators built from the same seed are separate objects and still
      produce the same values, draw for draw. */
  method SameSeedSameDraws(seed: Uint32, n: nat) returns (xs: seq<Uint32>, ys: seq<Uint32>)
    ensures xs == ys
    ensures xs == Outputs(if seed == 0 then 1 else seed, n)
  {
    var a := new Rng(seed);
    var b := new Rng(seed);
    ghost var t0 := a.t;
    xs, ys := [], [];
    while |xs| < n
      invariant a != b
      invariant |xs| <= n
      invariant a.t == b.t == Advance(t0, |xs|)
      invariant xs == ys == Outputs(t0, |xs|)
    {
      OutputsSnoc(t0, |xs|);
      var x, y := DrawBoth(a, b);
      xs, ys := xs + [x], ys + [y];
    }
  }
}
