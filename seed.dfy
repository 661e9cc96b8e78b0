/** Seed derivation: `fnv1a32` and `seedToUint32` of the identity synthesiser.
    A seed arrives as text from the command line; JavaScript's `Number(...)`
    coercion is not modelled and is passed in as `toNumber`, which yields
    `None` exactly when the coercion is not a finite number. */
module Seed {
  import opened Maybe

  const OffsetBasis: bv32 := 0x811c9dc5
  const Prime: bv32 := 0x01000193

  /** A UTF-16 code unit, as a number (what `charCodeAt` returns). */
  type CodeUnit = u: int | 0 <= u < 0x10000

  /** An unsigned 32-bit value, as a number (what `>>> 0` returns). */
  type Uint32 = n: int | 0 <= n < 0x1_0000_0000

  /** The UTF-16 code units of one character, as `charCodeAt` sees them:
      characters above U+FFFF become a surrogate pair. */
  function CodeUnits(c: char): (r: seq<CodeUnit>)
    ensures c as int < 0x10000 ==> r == [c as int]
    ensures c as int >= 0x10000 ==> |r| == 2 && 0xD800 <= r[0] < 0xDC00 && 0xDC00 <= r[1] < 0xE000
  {
    var v := c as int;
    if v < 0x10000 then [v]
    else [0xD800 + (v - 0x10000) / 0x400, 0xDC00 + (v - 0x10000) % 0x400]
  }

  /** The UTF-16 code units of a string, in order. */
  function Utf16(s: string): seq<CodeUnit> {
    if s == [] then [] else CodeUnits(s[0]) + Utf16(s[1..])
  }

  /** A string without astral characters has one code unit per character. */
  lemma {:induction false} Utf16OfBmp(s: string)
    requires forall i :: 0 <= i < |s| ==> s[i] as int < 0x10000
    ensures |Utf16(s)| == |s|
    ensures forall i :: 0 <= i < |s| ==> Utf16(s)[i] == s[i] as int
  {
    if s != [] {
      Utf16OfBmp(s[1..]);
    }
  }

  /** One FNV-1a round: xor in the unit, then multiply by the prime modulo 2^32
      (`Math.imul` keeps the low 32 bits). */
  function FnvStep(h: bv32, u: CodeUnit): bv32 {
    (h ^ (u as bv32)) * Prime
  }

  /** 32-bit FNV-1a over a sequence of code units, folded from the left. */
  function Fnv1a(units: seq<CodeUnit>): bv32 {
    if units == [] then OffsetBasis
    else FnvStep(Fnv1a(units[..|units| - 1]), units[|units| - 1])
  }

  /** One more unit is one more round. */
  lemma {:induction false} FnvSnoc(units: seq<CodeUnit>, u: CodeUnit)
    ensures Fnv1a(units + [u]) == FnvStep(Fnv1a(units), u)
  {
    assert (units + [u])[..|units|] == units;
  }

  /** The code units of "foobar". */
  lemma {:induction false} FoobarUnits()
    ensures Utf16("foobar") == [0x66, 0x6f, 0x6f, 0x62, 0x61, 0x72]
  {
    Utf16OfBmp("foobar");
  }

  /** The six rounds over "foobar", on constants. */
  lemma {:induction false} FoobarSteps()
    ensures FnvStep(0x811c9dc5, 0x66) == 0xe30c2799
    ensures FnvStep(0xe30c2799, 0x6f) == 0x6222e842
    ensures FnvStep(0x6222e842, 0x6f) == 0xa9f37ed7
    ensures FnvStep(0xa9f37ed7, 0x62) == 0x3f5076ef
    ensures FnvStep(0x3f5076ef, 0x61) == 0x39aaa18a
    ensures FnvStep(0x39aaa18a, 0x72) == 0xbf9cf968
  {
  }

  /** The rounds over "foobar", one unit at a time. */
  lemma {:induction false} FoobarRounds()
    ensures Fnv1a([0x66, 0x6f, 0x6f, 0x62, 0x61, 0x72]) == 0xbf9cf968
  {
    FoobarSteps();
    var u1: seq<CodeUnit> := [0x66];
    FnvSnoc([], 0x66);
    assert [] + [0x66] == u1;
    var u2 := u1 + [0x6f];
    FnvSnoc(u1, 0x6f);
    var u3 := u2 + [0x6f];
    FnvSnoc(u2, 0x6f);
    var u4 := u3 + [0x62];
    FnvSnoc(u3, 0x62);
    var u5 := u4 + [0x61];
    FnvSnoc(u4, 0x61);
    var u6 := u5 + [0x72];
    FnvSnoc(u5, 0x72);
    assert u6 == [0x66, 0x6f, 0x6f, 0x62, 0x61, 0x72];
  }

  /** The published FNV-1a test vectors for "", "a" and "foobar". */
  lemma {:induction false} Fnv1aVectors()
    ensures Fnv1a(Utf16("")) == 0x811c9dc5
    ensures Fnv1a(Utf16("a")) == 0xe40c292c
    ensures Fnv1a(Utf16("foobar")) == 0xbf9cf968
  {
    Utf16OfBmp("a");
    FnvSnoc([], 0x61);
    FoobarUnits();
    FoobarRounds();
  }

  /** `fnv1a32`: the loop over `charCodeAt` units, ending in `h >>> 0`. */
  method Fnv1a32(s: string) returns (h: bv32)
    ensures h == Fnv1a(Utf16(s))
  {
    var units := Utf16(s);
    h := OffsetBasis;
    var i := 0;
    while i < |units|
      invariant 0 <= i <= |units|
      invariant h == Fnv1a(units[..i])
    {
      assert units[..i + 1][..i] == units[..i];
      h := FnvStep(h, units[i]);
      i := i + 1;
    }
    assert units[..i] == units;
  }

  /** JavaScript's truncation of a finite number toward zero. */
  function Trunc(n: real): int {
    if n >= 0.0 then n.Floor else -((-n).Floor)
  }

  /** `n >>> 0` for a finite number: truncate, then reduce modulo 2^32. */
  function ToUint32(n: real): Uint32 {
    Trunc(n) % 0x1_0000_0000
  }

  /** `fnv1a32(s)` as a number. */
  function HashOf(s: string): Uint32 {
    Fnv1a(Utf16(s)) as int
  }

  /** `seedToUint32`: an absent seed yields the random draw `random`
      (`crypto.randomBytes`); a numeric seed is reduced modulo 2^32; any other
      text is hashed; a zero result of either becomes 1. */
  function SeedToUint32(seed: Option<string>, toNumber: string -> Option<real>, random: Uint32): (r: Uint32)
    ensures seed.Some? ==> r != 0
    ensures seed.None? ==> r == random
  {
    match seed
    case None => random
    case Some(s) =>
      match toNumber(s)
      case Some(n) => var u := ToUint32(n); if u == 0 then 1 else u
      case None => var h := HashOf(s); if h == 0 then 1 else h
  }

  /** A numeric seed is its truncation modulo 2^32, or 1 where that is 0. */
  lemma {:induction false} NumericSeed(s: string, toNumber: string -> Option<real>, random: Uint32, n: real)
    requires toNumber(s) == Some(n)
    ensures var m := Trunc(n) % 0x1_0000_0000;
            SeedToUint32(Some(s), toNumber, random) == if m == 0 then 1 else m
  {
  }

  /** `--seed -1` gives 4294967295, `--seed 4294967296` gives 1, and `--seed ""`
      (which `Number` reads as 0) gives 1 without being hashed. */
  lemma {:induction false} SeedExamples(toNumber: string -> Option<real>, random: Uint32)
    requires toNumber("-1") == Some(-1.0)
    requires toNumber("4294967296") == Some(4294967296.0)
    requires toNumber("") == Some(0.0)
    ensures SeedToUint32(Some("-1"), toNumber, random) == 0xFFFF_FFFF
    ensures SeedToUint32(Some("4294967296"), toNumber, random) == 1
    ensures SeedToUint32(Some(""), toNumber, random) == 1
  {
  }

  /** A non-numeric seed is its FNV-1a hash over UTF-16 units, or 1 where that is 0. */
  lemma {:induction false} TextSeed(s: string, toNumber: string -> Option<real>, random: Uint32)
    requires toNumber(s).None?
    ensures var h := HashOf(s);
            SeedToUint32(Some(s), toNumber, random) == if h == 0 then 1 else h
  {
  }
}
