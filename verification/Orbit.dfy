/** The values a machine integer takes when a constant step is added to it again and again. */
module Orbit {
  import opened GoValues

  predicate InRange(v: int, bits: nat, signed: bool) { Low(bits, signed) <= v < Low(bits, signed) + Pow2(bits) }

  /** The value after `k` steps from `x`. */
  function After(x: int, step: int, k: nat, bits: nat, signed: bool): (r: int)
    ensures InRange(r, bits, signed)
  {
    Wrap(x + k * step, bits, signed)
  }

  /** The greatest power of two, up to 2^bits, that divides the step: the distance between the values an orbit visits. */
  function Gap(step: int, bits: nat): (g: nat)
    ensures g >= 1
    decreases bits
  {
    if bits == 0 || step % 2 != 0 then 1 else 2 * Gap(step / 2, bits - 1)
  }

  // ----- wrapping

  /** Wrap picks the one representable number in a residue class. */
  lemma WrapUnique(v: int, x: int, c: int, bits: nat, signed: bool)
    requires InRange(v, bits, signed) && x == v + c * Pow2(bits)
    ensures Wrap(x, bits, signed) == v
  {
    hide Pow2, Low, Wrap;
    var d := WrapShift(x, bits, signed);
    Distribute(c, d, Pow2(bits));
    SameResidue(Wrap(x, bits, signed), v, c + d, Pow2(bits), Low(bits, signed));
  }

  lemma SameResidue(r: int, v: int, q: int, m: int, low: int)
    requires m > 0 && low <= r < low + m && low <= v < low + m
    requires r == v + q * m
    ensures r == v
  {
    if q != 0 { MagnitudeAtLeast(q, m); }
  }

  lemma WrapShift(x: int, bits: nat, signed: bool) returns (c: int)
    ensures Wrap(x, bits, signed) == x + c * Pow2(bits)
  {
    hide Pow2, Low, Wrap;
    c := MultipleOf(Wrap(x, bits, signed) - x, Pow2(bits));
  }

  lemma MultipleOf(d: int, m: int) returns (q: int)
    requires m > 0 && d % m == 0
    ensures d == q * m
  {
    q := d / m;
  }

  lemma Distribute(a: int, b: int, m: int)
    ensures (a + b) * m == a * m + b * m && (a - b) * m == a * m - b * m
  {
  }

  lemma AfterNext(x: int, step: int, k: nat, bits: nat, signed: bool)
    ensures Wrap(After(x, step, k, bits, signed) + step, bits, signed) == After(x, step, k + 1, bits, signed)
  {
    hide Wrap, Pow2, Low;
    var c := WrapShift(x + k * step, bits, signed);
    var d := WrapShift(x + (k + 1) * step, bits, signed);
    var r := After(x, step, k + 1, bits, signed);
    Distribute(k, 1, step);
    Distribute(c, d, Pow2(bits));
    WrapUnique(r, After(x, step, k, bits, signed) + step, c - d, bits, signed);
  }

  // ----- the orbit is a residue class

  lemma {:induction false} GapDivides(step: int, bits: nat) returns (a: int, b: int)
    ensures step == a * Gap(step, bits) && Pow2(bits) == b * Gap(step, bits)
    decreases bits
  {
    if bits == 0 || step % 2 != 0 {
      a, b := step, Pow2(bits);
    } else {
      a, b := GapDivides(step / 2, bits - 1);
      assert a * (2 * Gap(step / 2, bits - 1)) == 2 * (a * Gap(step / 2, bits - 1));
      assert b * (2 * Gap(step / 2, bits - 1)) == 2 * (b * Gap(step / 2, bits - 1));
    }
  }

  /** Some number of steps covers any distance that is a multiple of the gap. */
  lemma {:induction false} StepsCover(step: int, bits: nat, q: int) returns (k: nat, c: int)
    ensures k * step == q * Gap(step, bits) + c * Pow2(bits)
    decreases bits
  {
    if bits == 0 {
      k, c := 0, -q;
    } else if step % 2 == 0 {
      k, c := StepsCover(step / 2, bits - 1, q);
      var g, p := Gap(step / 2, bits - 1), Pow2(bits - 1);
      assert k * step == 2 * (k * (step / 2)) by { assert step == 2 * (step / 2); }
      assert q * (2 * g) == 2 * (q * g);
      assert c * (2 * p) == 2 * (c * p);
    } else {
      k, c := StepsCover(step, bits - 1, q);
      k, c := OddStep(step, Pow2(bits - 1), k, c, q);
    }
  }

  /** An odd step reaches one bit further. */
  lemma OddStep(step: int, p: nat, k: nat, c: int, q: int) returns (k': nat, c': int)
    requires step % 2 != 0 && k * step == q * 1 + c * p
    ensures k' * step == q * 1 + c' * (2 * p)
  {
    if c % 2 == 0 {
      k', c' := k, c / 2;
      assert c * p == c' * (2 * p) by { assert c == 2 * c'; }
    } else {
      k', c' := k + p, (c + step) / 2;
      Distribute(k, p, step);
      Distribute(c, step, p);
      assert (c + step) * p == c' * (2 * p) by { assert c + step == 2 * c'; }
    }
  }

  /** The orbit of `x` visits exactly the representable numbers that are a multiple of the gap away from it. */
  lemma OrbitExact(x: int, step: int, v: int, bits: nat, signed: bool)
    requires InRange(x, bits, signed) && InRange(v, bits, signed)
    ensures (exists k: nat :: After(x, step, k, bits, signed) == v) <==> (v - x) % Gap(step, bits) == 0
  {
    hide Wrap, Pow2, Low, Gap;
    if (v - x) % Gap(step, bits) == 0 {
      var q := MultipleOf(v - x, Gap(step, bits));
      var k, c := StepsCover(step, bits, q);
      WrapUnique(v, x + k * step, c, bits, signed);
      assert After(x, step, k, bits, signed) == v;
    }
    forall k: nat | After(x, step, k, bits, signed) == v ensures (v - x) % Gap(step, bits) == 0 {
      OrbitStays(x, step, k, bits, signed);
    }
  }

  lemma OrbitStays(x: int, step: int, k: nat, bits: nat, signed: bool)
    ensures (After(x, step, k, bits, signed) - x) % Gap(step, bits) == 0
  {
    hide Wrap, Pow2, Low, Gap;
    var g := Gap(step, bits);
    var c := WrapShift(x + k * step, bits, signed);
    var a, b := GapDivides(step, bits);
    Regroup(k, a, c, b, g);
    MultipleMod(k * a + c * b, g);
  }

  lemma Regroup(k: int, a: int, c: int, b: int, g: int)
    ensures k * (a * g) + c * (b * g) == (k * a + c * b) * g
  {
    assert k * (a * g) == (k * a) * g;
    assert c * (b * g) == (c * b) * g;
    Distribute(k * a, c * b, g);
  }

  /** The greatest and the least value an orbit visits. */
  function Highest(x: int, step: int, bits: nat, signed: bool): int {
    var max := Low(bits, signed) + Pow2(bits) - 1;
    max - (max - x) % Gap(step, bits)
  }

  function Lowest(x: int, step: int, bits: nat, signed: bool): int {
    Low(bits, signed) + (x - Low(bits, signed)) % Gap(step, bits)
  }

  lemma SameClass(d: int, g: int)
    requires g > 0
    ensures (d - d % g) % g == 0
  {
    assert d - d % g == (d / g) * g;
    MultipleMod(d / g, g);
  }

  /** A number at least `d % g` above a multiple of `g`... and congruent to `d` is no smaller than the remainder. */
  lemma RemainderIsLeast(d: int, e: int, g: int)
    requires g > 0 && e >= 0 && (d - e) % g == 0
    ensures d % g <= e
  {
    var q := (d - e) / g;
    assert d - e == g * q + (d - e) % g;
    assert e == g * (e / g) + e % g;
    assert d == (q + e / g) * g + e % g by { assert (q + e / g) * g == q * g + (e / g) * g; }
    QuotientUnique(d, g, q + e / g, e % g);
    if e / g < 0 { MagnitudeAtLeast(e / g, g); }
    assert g * (e / g) >= 0 by { if e / g > 0 { MagnitudeAtLeast(e / g, g); } }
  }

  lemma HighestVisited(x: int, step: int, bits: nat, signed: bool)
    requires InRange(x, bits, signed)
    ensures InRange(Highest(x, step, bits, signed), bits, signed)
    ensures exists k: nat :: After(x, step, k, bits, signed) == Highest(x, step, bits, signed)
    ensures forall k: nat :: After(x, step, k, bits, signed) <= Highest(x, step, bits, signed)
  {
    var g, max := Gap(step, bits), Low(bits, signed) + Pow2(bits) - 1;
    var h := Highest(x, step, bits, signed);
    RemainderIsLeast(max - x, max - x, g) by { MultipleMod(0, g); }
    SameClass(max - x, g);
    OrbitExact(x, step, h, bits, signed);
    forall k: nat ensures After(x, step, k, bits, signed) <= h {
      var v := After(x, step, k, bits, signed);
      OrbitExact(x, step, v, bits, signed);
      assert max - x - (max - v) == v - x;
      RemainderIsLeast(max - x, max - v, g);
    }
  }

  lemma LowestVisited(x: int, step: int, bits: nat, signed: bool)
    requires InRange(x, bits, signed)
    ensures InRange(Lowest(x, step, bits, signed), bits, signed)
    ensures exists k: nat :: After(x, step, k, bits, signed) == Lowest(x, step, bits, signed)
    ensures forall k: nat :: Lowest(x, step, bits, signed) <= After(x, step, k, bits, signed)
  {
    var g, low := Gap(step, bits), Low(bits, signed);
    var l := Lowest(x, step, bits, signed);
    RemainderIsLeast(x - low, x - low, g) by { MultipleMod(0, g); }
    SameClass(x - low, g);
    NegatedMod(x - l, g);
    OrbitExact(x, step, l, bits, signed);
    forall k: nat ensures l <= After(x, step, k, bits, signed) {
      var v := After(x, step, k, bits, signed);
      OrbitExact(x, step, v, bits, signed);
      NegatedMod(v - x, g);
      RemainderIsLeast(x - low, v - low, g);
    }
  }

  lemma NegatedMod(d: int, g: int)
    requires g > 0 && d % g == 0
    ensures (-d) % g == 0
  {
    assert d == g * (d / g);
    MultipleMod(-(d / g), g);
    assert -d == -(d / g) * g;
  }
}
