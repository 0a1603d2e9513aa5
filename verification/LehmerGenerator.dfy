/** The deterministic generator of scripts/fuzz-invariants.ts, over exact integers and
    rationals. */
module LehmerGenerator {
  const MODULUS := 2147483647
  const MULTIPLIER := 16807
  const INVERSE := 1407677000

  /** JavaScript's remainder, which takes the sign of the dividend. */
  function JsRemainder(x: int, m: int): (r: int)
    requires m > 0
    ensures -m < r < m
    ensures x >= 0 ==> r >= 0
    ensures x <= 0 ==> r <= 0
  {
    if x >= 0 then x % m else -(-x % m)
  }

  /** The state the constructor leaves. */
  function Seeded(seed: int): int {
    var s := JsRemainder(seed, MODULUS);
    if s <= 0 then s + 2147483646 else s
  }

  function Next(state: int): int
    requires 0 <= state < MODULUS
  {
    JsRemainder(state * MULTIPLIER, MODULUS)
  }

  /** The step in the other direction. */
  function Previous(state: int): int
    requires 0 <= state < MODULUS
  {
    state * INVERSE % MODULUS
  }

  function Draws(state: int, n: nat): (s: int)
    requires 0 <= state < MODULUS
    ensures 0 <= s < MODULUS
  {
    if n == 0 then state else Next(Draws(state, n - 1))
  }

  function Fraction(state: int): real {
    (state - 1) as real / 2147483646.0
  }

  /** nextInt for the state reached by its draw. */
  function Scaled(state: int, min: int, max: int): int {
    (Fraction(state) * (max - min + 1) as real).Floor + min
  }

  predicate InCycle(state: int) {
    1 <= state <= 2147483646
  }

  // ----- modular arithmetic

  lemma NoSmallMultiple(m: int, d: int)
    requires m > 0 && -m < m * d < m
    ensures d == 0
  {
  }

  lemma ModuloUnique(x: int, m: int, k: int, r: int)
    requires m > 0 && 0 <= r < m && x == m * k + r
    ensures x % m == r
  {
    assert m * (x / m - k) == r - x % m;
    NoSmallMultiple(m, x / m - k);
  }

  /** Multiplying by a pair of mutually inverse residues, reducing in between, is the identity. */
  lemma InversePair(s: int, a: int, b: int, m: int, k: int)
    requires m > 0 && 0 <= s < m && a * b == m * k + 1
    ensures (s * a % m) * b % m == s
  {
    var q := s * a / m;
    calc {
      (s * a % m) * b;
      (s * a - m * q) * b;
      s * (a * b) - m * (q * b);
      s * (m * k + 1) - m * (q * b);
      m * (s * k - q * b) + s;
    }
    ModuloUnique((s * a % m) * b, m, s * k - q * b, s);
  }

  /** The step permutes the residues; its inverse is the step by the inverse multiplier. */
  lemma StepIsBijective(state: int)
    requires 0 <= state < MODULUS
    ensures Previous(Next(state)) == state
    ensures Next(Previous(state)) == state
  {
    InversePair(state, MULTIPLIER, INVERSE, MODULUS, 11017);
    InversePair(state, INVERSE, MULTIPLIER, MODULUS, 11017);
  }

  // ----- every draw

  /** From a state in the cycle every draw stays in it, and the product it forms is exact in a
      double. */
  lemma {:induction false} DrawsStayInCycle(state: int, n: nat)
    requires InCycle(state)
    ensures InCycle(Draws(state, n))
    ensures Draws(state, n) * MULTIPLIER < 0x20_0000_0000_0000
    decreases n
  {
    if n > 0 {
      DrawsStayInCycle(state, n - 1);
      StepIsBijective(Draws(state, n - 1));
    }
  }

  lemma {:induction false} ZeroIsStuck(n: nat)
    ensures Draws(0, n) == 0
  {
    if n > 0 {
      ZeroIsStuck(n - 1);
    }
  }

  /** The one family of seeds the constructor does not bring into the cycle. */
  predicate BadSeed(seed: int) {
    seed < 0 && -seed % MODULUS == 2147483646
  }

  lemma SeededInCycleIff(seed: int)
    ensures InCycle(Seeded(seed)) <==> !BadSeed(seed)
    ensures BadSeed(seed) ==> Seeded(seed) == 0
  {
  }

  lemma FloorOfFraction(f: real, n: int)
    requires f < 1.0 && n > 0
    ensures 0 <= (f * n as real).Floor < n <==> 0.0 <= f
  {
    var x, limit := f * n as real, n as real;
    assert x.Floor as real <= x < x.Floor as real + 1.0;
    assert (1.0 - f) * limit > 0.0;
    assert x < limit;
    if f < 0.0 {
      assert -f * limit > 0.0;
      assert x < 0.0;
    } else {
      assert x >= 0.0;
    }
  }

  /** A seed of that family, and what it draws: nextInt(1, 10) returns 0 for ever. */
  lemma {:induction false} BadSeedDraws(n: nat)
    ensures BadSeed(-2147483646) && Seeded(-2147483646) == 0
    ensures Scaled(Draws(0, n), 1, 10) == 0
  {
    SeededInCycleIff(-2147483646);
    ZeroIsStuck(n);
  }

  /** Scaling lands in the requested range exactly from the states of the cycle. */
  lemma ScaledInRangeIff(state: int, min: int, max: int)
    requires 0 <= state < MODULUS && min <= max
    ensures min <= Scaled(state, min, max) <= max <==> InCycle(state)
  {
    FloorOfFraction(Fraction(state), max - min + 1);
  }

  lemma FloorIs(x: real, k: int)
    ensures x.Floor == k <==> k as real <= x < (k + 1) as real
  {
    assert x.Floor as real <= x < (x.Floor + 1) as real;
  }

  lemma ScaleByCycle(f: real, n: real, k: real)
    ensures k <= f * n <==> k * 2147483646.0 <= f * 2147483646.0 * n
  {
    assert f * 2147483646.0 * n == f * n * 2147483646.0;
  }

  /** nextInt splits the states of the cycle evenly: it returns k exactly when the drawn state
      falls into the k-th of max - min + 1 equal shares of [0, 2147483646). */
  lemma ScaledIsShare(state: int, min: int, max: int, k: int)
    requires 0 <= state < MODULUS && min <= max
    ensures Scaled(state, min, max) == k <==>
            (k - min) * 2147483646 <= (state - 1) * (max - min + 1) < (k - min + 1) * 2147483646
  {
    var n, j := max - min + 1, k - min;
    var f := Fraction(state);
    assert f * 2147483646.0 == (state - 1) as real;
    FloorIs(f * n as real, j);
    ScaleByCycle(f, n as real, j as real);
    ScaleByCycle(f, n as real, (j + 1) as real);
    assert f * 2147483646.0 * n as real == ((state - 1) * n) as real;
    assert j as real * 2147483646.0 == (j * 2147483646) as real;
    assert (j + 1) as real * 2147483646.0 == ((j + 1) * 2147483646) as real;
  }

  /** The constructor keeps a seed of the cycle, reduces any other non-negative seed modulo
      2147483647, with 0 becoming the last state, and counts a negative seed's remainder down
      from that state. */
  lemma SeededIsResidue(seed: int)
    ensures InCycle(seed) ==> Seeded(seed) == seed
    ensures seed >= 0 ==> Seeded(seed) == if seed % 2147483647 == 0 then 2147483646 else seed % 2147483647
    ensures seed < 0 ==> Seeded(seed) == 2147483646 - -seed % 2147483647
  {
  }

  /** nextInt(min, max) stays within [min, max] on every draw if and only if the seed is not of
      the bad family; no non-negative seed is. */
  lemma {:induction false} NextIntInRangeIff(seed: int, n: nat, min: int, max: int)
    requires min <= max
    ensures 0 <= Seeded(seed) < MODULUS
    ensures min <= Scaled(Draws(Seeded(seed), n), min, max) <= max <==> !BadSeed(seed)
    ensures seed >= 0 ==> !BadSeed(seed)
  {
    SeededInCycleIff(seed);
    ScaledInRangeIff(Draws(Seeded(seed), n), min, max);
    if BadSeed(seed) {
      ZeroIsStuck(n);
    } else {
      DrawsStayInCycle(Seeded(seed), n);
    }
  }

  class DeterministicPRNG {
    var seed: int

    ghost predicate Valid()
      reads this
    {
      0 <= seed < MODULUS
    }

    constructor (seed: int)
      ensures Valid() && this.seed == Seeded(seed)
    {
      var s := JsRemainder(seed, MODULUS);
      if s <= 0 {
        s := s + 2147483646;
      }
      this.seed := s;
    }

    method NextFraction() returns (r: real)
      requires Valid()
      modifies this
      ensures Valid() && seed == Next(old(seed)) && r == Fraction(seed)
      ensures r * 2147483646.0 == (seed - 1) as real && seed == old(seed) * 16807 % 2147483647
    {
      seed := JsRemainder(seed * MULTIPLIER, MODULUS);
      r := (seed - 1) as real / 2147483646.0;
    }

    method NextInt(min: int, max: int) returns (r: int)
      requires Valid() && min <= max
      modifies this
      ensures Valid() && seed == Next(old(seed)) && r == Scaled(seed, min, max)
      ensures min <= r <= max <==> InCycle(seed)
      ensures (r - min) * 2147483646 <= (seed - 1) * (max - min + 1) < (r - min + 1) * 2147483646
    {
      var f := NextFraction();
      r := (f * (max - min + 1) as real).Floor + min;
      ScaledInRangeIff(seed, min, max);
      ScaledIsShare(seed, min, max, r);
    }
  }
}
