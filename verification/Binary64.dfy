/** ave_u32_to_f64_bits: the binary64 bit pattern of an unsigned 32-bit integer, built without
    floating point (section 3.4 of IEEE 754-2019). */
module Binary64 {
  import opened Basics

  const FRACTION: nat := 0x10_0000_0000_0000          // 2^52
  const BIAS: nat := 1023

  function Pow2(n: nat): (p: nat)
    ensures p >= 1
  {
    if n == 0 then 1 else 2 * Pow2(n - 1)
  }

  /** 2^k for any k. */
  function Two(k: int): real {
    if k >= 0 then Pow2(k) as real else 1.0 / (Pow2(0 - k) as real)
  }

  /** What a finite, non-negative binary64 pattern stands for. */
  function Value(bits: U64): real
    requires bits < 0x7ff0_0000_0000_0000
  {
    var exp, frac := bits / FRACTION, bits % FRACTION;
    if exp == 0 then (frac as real) * Two(-1074) else ((FRACTION + frac) as real) * Two(exp - BIAS - 52)
  }

  /** v & (1 << e) */
  predicate BitSet(v: U32, e: nat) {
    v / Pow2(e) % 2 == 1
  }

  /** The pattern with v's leading bit at e. */
  function Pattern(v: U32, e: nat): nat
    requires e <= 52
  {
    FRACTION * (BIAS + e) + v * Pow2(52 - e) % FRACTION
  }

  /** e is the place of v's leading bit. */
  predicate Leads(v: U32, e: nat) {
    e < 32 && Pow2(e) <= v < Pow2(e + 1)
  }

  function LeadingBit(v: U32, n: nat): (e: nat)
    requires n <= 32 && 0 < v < Pow2(n)
    ensures Leads(v, e)
  {
    if v >= Pow2(n - 1) then n - 1 else LeadingBit(v, n - 1)
  }

  lemma {:induction false} Pow2Is32()
    ensures Pow2(32) == 0x1_0000_0000
  {
    assert Pow2(8) == 0x100;
    assert Pow2(16) == 0x1_0000;
    assert Pow2(24) == 0x100_0000;
  }

  lemma {:induction false} PowersMultiply(a: nat, b: nat)
    ensures Pow2(a) * Pow2(b) == Pow2(a + b)
  {
    if a > 0 {
      PowersMultiply(a - 1, b);
      assert Pow2(a) * Pow2(b) == 2 * (Pow2(a - 1) * Pow2(b));
    }
  }

  lemma {:induction false} Pow2Is52()
    ensures Pow2(52) == FRACTION
  {
    Pow2Is32();
    PowersMultiply(32, 20);
    assert Pow2(8) == 0x100;
    assert Pow2(16) == 0x1_0000;
    assert Pow2(20) == 0x10_0000;
  }

  lemma {:induction false} MulMono(a: nat, b: nat, p: nat)
    requires a <= b
    ensures a * p <= b * p
    ensures a < b && p > 0 ==> a * p < b * p
  {
  }

  /** Shifted so that its leading bit stands at 52, v has that bit and the fraction. */
  lemma {:induction false} Shifted(v: U32, e: nat)
    requires Leads(v, e)
    ensures FRACTION <= v * Pow2(52 - e) < 2 * FRACTION
    ensures v * Pow2(52 - e) % FRACTION == v * Pow2(52 - e) - FRACTION
  {
    Pow2Is52();
    PowersMultiply(e, 52 - e);
    PowersMultiply(e + 1, 52 - e);
    assert Pow2(53) == 2 * Pow2(52);
    MulMono(Pow2(e), v, Pow2(52 - e));
    MulMono(v, Pow2(e + 1), Pow2(52 - e));
  }

  lemma {:induction false} SplitPattern(hi: nat, lo: nat)
    requires lo < FRACTION
    ensures (FRACTION * hi + lo) / FRACTION == hi && (FRACTION * hi + lo) % FRACTION == lo
  {
  }

  lemma {:induction false} Cancels(v: nat, p: nat)
    requires p > 0
    ensures (v * p) as real * (1.0 / p as real) == v as real
  {
    assert (v * p) as real == (v as real) * (p as real);
  }

  /** A pattern by its two fields. */
  lemma {:induction false} ValueOf(e: nat, frac: nat)
    requires e < 32 && frac < FRACTION
    ensures
      var bits := FRACTION * (BIAS + e) + frac;
      bits < 0x7ff0_0000_0000_0000 && Value(bits) == ((FRACTION + frac) as real) * Two(e - 52)
  {
    SplitPattern(BIAS + e, frac);
  }

  lemma {:induction false} TwoDown(e: nat)
    requires e < 32
    ensures Two(e - 52) == 1.0 / (Pow2(52 - e) as real)
  {
  }

  lemma {:induction false} PatternFields(v: U32, e: nat, m: nat)
    requires Leads(v, e) && m == v * Pow2(52 - e)
    ensures FRACTION <= m < 2 * FRACTION && Pattern(v, e) == FRACTION * (BIAS + e) + (m - FRACTION)
  {
    Shifted(v, e);
  }

  /** The pattern of a v whose shifted value is m. */
  lemma {:induction false} PatternOf(v: U32, e: nat, m: nat, bits: nat)
    requires e < 32 && FRACTION <= m < 2 * FRACTION && bits == FRACTION * (BIAS + e) + (m - FRACTION)
    requires m == v * Pow2(52 - e)
    ensures bits < 0x7ff0_0000_0000_0000 && Value(bits) == v as real
  {
    ValueOf(e, m - FRACTION);
    TwoDown(e);
    ShiftedBack(v, Pow2(52 - e), m, Two(e - 52));
  }

  /** The pattern stands for exactly v. */
  lemma {:induction false} Exact(v: U32, e: nat)
    requires Leads(v, e)
    ensures Pattern(v, e) < 0x7ff0_0000_0000_0000 && Value(Pattern(v, e)) == v as real
  {
    PatternFields(v, e, v * Pow2(52 - e));
    PatternOf(v, e, v * Pow2(52 - e), Pattern(v, e));
  }

  /** Dividing by what it was multiplied with gives v back. */
  lemma {:induction false} ShiftedBack(v: nat, p: nat, m: nat, two: real)
    requires p > 0 && m == v * p && two == 1.0 / (p as real)
    ensures (m as real) * two == v as real
  {
    Cancels(v, p);
  }

  function Bits(v: U32): nat {
    if v == 0 then 0
    else
      Pow2Is32();
      Pattern(v, LeadingBit(v, 32))
  }

  lemma {:induction false} LeadIsUnique(v: U32, d: nat, e: nat)
    requires Leads(v, d) && Leads(v, e)
    ensures d == e
  {
    if d < e {
      PowGrows(d + 1, e);
    } else if e < d {
      PowGrows(e + 1, d);
    }
  }

  lemma {:induction false} PowGrows(a: nat, b: nat)
    requires a <= b
    ensures Pow2(a) <= Pow2(b)
  {
    if a < b {
      PowGrows(a, b - 1);
    }
  }

  /** For every u32 the bits stand for exactly that integer, and a larger integer has the larger
      pattern. */
  lemma {:induction false} BitsAreExact(v: U32)
    ensures Bits(v) < 0x7ff0_0000_0000_0000 && Value(Bits(v)) == v as real
  {
    if v > 0 {
      Pow2Is32();
      Exact(v, LeadingBit(v, 32));
    }
  }

  lemma {:induction false} BitsRise(u: U32, v: U32)
    requires u < v
    ensures Bits(u) < Bits(v)
  {
    Pow2Is32();
    var e := LeadingBit(v, 32);
    Shifted(v, e);
    if u > 0 {
      var d := LeadingBit(u, 32);
      Shifted(u, d);
      if d < e {
        MulMono(BIAS + d + 1, BIAS + e, FRACTION);
      } else {
        if e < d {
          PowGrows(e + 1, d);
        }
        assert d == e;
        MulMono(u, v, Pow2(52 - e));
      }
    }
  }

  /** The search for the leading bit, from 31 down. */
  method ToBits(v: U32) returns (bits: U64)
    ensures bits == Bits(v)
  {
    if v == 0 {
      return 0;
    }
    Pow2Is32();
    var e: int := 31;
    while !BitSet(v, e)
      invariant 0 <= e < 32 && v < Pow2(e + 1)
      decreases e
    {
      NotSet(v, e);
      e := e - 1;
    }
    IsSet(v, e);
    Shifted(v, e);
    LeadIsUnique(v, e, LeadingBit(v, 32));
    Exact(v, e);
    var mant := v * Pow2(52 - e) % FRACTION;
    return FRACTION * (BIAS + e) + mant;
  }

  lemma {:induction false} QuotientBelow(v: nat, p: nat)
    requires p > 0 && v < 2 * p
    ensures v / p == if v < p then 0 else 1
  {
  }

  lemma {:induction false} NotSet(v: U32, e: nat)
    requires v > 0 && v < Pow2(e + 1) && !BitSet(v, e)
    ensures e > 0 && v < Pow2(e)
  {
    QuotientBelow(v, Pow2(e));
  }

  lemma {:induction false} IsSet(v: U32, e: nat)
    requires v < Pow2(e + 1) && BitSet(v, e)
    ensures Pow2(e) <= v
  {
    QuotientBelow(v, Pow2(e));
  }
}
