/** The C conversion of an unsigned integer to a 32-bit `float`: 24 significant bits, rounded to nearest,
    ties to even. Unsigned 64-bit values are far below the largest float, so the exponent has no bound. */
module Binary32 {
  import opened Division

  const SIGNIFICANDS: nat := 0x100_0000

  function Pow2(e: nat): (p: nat)
    ensures p >= 1
  {
    if e == 0 then 1 else 2 * Pow2(e - 1)
  }

  /** How many low bits do not fit the significand. */
  function Exponent(n: nat): nat {
    if n < SIGNIFICANDS then 0 else 1 + Exponent(n / 2)
  }

  /** The distance of the floats around `n`. */
  function Grid(n: nat): (p: nat)
    ensures p >= 1
  {
    Pow2(Exponent(n))
  }

  function Significand(n: nat): nat {
    n / Grid(n)
  }

  function ToBinary32(n: nat): nat {
    var m, low := Significand(n), n % Grid(n);
    if 2 * low > Grid(n) || (2 * low == Grid(n) && m % 2 == 1) then (m + 1) * Grid(n) else m * Grid(n)
  }

  predicate Scaled(n: nat, m: nat, e: nat) {
    m < SIGNIFICANDS && n == m * Pow2(e)
  }

  /** A 32-bit float can hold `n`. */
  ghost predicate Representable(n: nat) {
    exists m: nat, e: nat :: Scaled(n, m, e)
  }

  /** What is left of `n` fills the significand, or nothing was cut off. */
  lemma {:induction false} QuotientFits(n: nat)
    ensures Significand(n) < SIGNIFICANDS
    ensures Exponent(n) > 0 ==> 2 * Significand(n) >= SIGNIFICANDS
  {
    if n >= SIGNIFICANDS {
      QuotientFits(n / 2);
      DivideInSteps(n, 2, Grid(n / 2));
    } else {
      assert Grid(n) == 1;
    }
  }

  lemma {:induction false} Pow2Monotone(a: nat, b: nat)
    requires a <= b
    ensures Pow2(a) <= Pow2(b)
    ensures exists k: nat :: Pow2(b) == k * Pow2(a)
  {
    if a == b {
      assert Pow2(b) == 1 * Pow2(a);
    } else {
      Pow2Monotone(a, b - 1);
      var k: nat :| Pow2(b - 1) == k * Pow2(a);
      assert Pow2(b) == 2 * (k * Pow2(a)) == (2 * k) * Pow2(a);
    }
  }

  /** A float on a grid no finer than that of `n` is a multiple of its step. */
  lemma CoarseFloatsAreMultiples(m: nat, e: nat, d: nat) returns (i: nat)
    requires e >= d
    ensures m * Pow2(e) == i * Pow2(d)
  {
    Pow2Monotone(d, e);
    var k: nat :| Pow2(e) == k * Pow2(d);
    i := m * k;
    assert m * (k * Pow2(d)) == (m * k) * Pow2(d);
  }

  /** A float on a finer grid lies below the binade of `n`. */
  lemma FineFloatsAreSmall(n: nat, m: nat, e: nat)
    requires m < SIGNIFICANDS && e < Exponent(n)
    ensures m * Pow2(e) <= Significand(n) * Grid(n)
  {
    QuotientFits(n);
    Pow2Monotone(e, Exponent(n) - 1);
    ProductsOrdered(m, 2 * Significand(n), Pow2(e), Pow2(Exponent(n) - 1));
    Regroup(2, Significand(n), Pow2(Exponent(n) - 1));
  }

  /** Nothing a float can hold lies strictly between the two candidates for `n`. */
  lemma NothingBetween(n: nat, b: nat)
    requires Representable(b)
    ensures b <= Significand(n) * Grid(n) || b >= (Significand(n) + 1) * Grid(n)
  {
    var m: nat, e: nat :| Scaled(b, m, e);
    if e >= Exponent(n) {
      var i := CoarseFloatsAreMultiples(m, e, Exponent(n));
      MultiplesApart(i, Significand(n), Grid(n));
    } else {
      FineFloatsAreSmall(n, m, e);
    }
  }

  lemma ResultIsRepresentable(n: nat)
    ensures Representable(ToBinary32(n))
  {
    QuotientFits(n);
    var e, m := Exponent(n), Significand(n);
    if ToBinary32(n) == m * Grid(n) {
      assert Scaled(ToBinary32(n), m, e);
    } else if m + 1 < SIGNIFICANDS {
      assert Scaled(ToBinary32(n), m + 1, e);
    } else {
      Regroup(2, SIGNIFICANDS / 2, Grid(n));
      assert Scaled(ToBinary32(n), SIGNIFICANDS / 2, e + 1);
    }
  }

  function Distance(a: int, b: int): nat {
    if a <= b then b - a else a - b
  }

  /** The number and its two candidates. */
  lemma Candidates(n: nat)
    ensures n == Significand(n) * Grid(n) + n % Grid(n) && n % Grid(n) < Grid(n)
    ensures (Significand(n) + 1) * Grid(n) == Significand(n) * Grid(n) + Grid(n)
  {
  }

  /** The result is a float, and no float is nearer. */
  lemma NoFloatIsNearer(n: nat)
    ensures Representable(ToBinary32(n))
    ensures forall b: nat :: Representable(b) ==> Distance(ToBinary32(n), n) <= Distance(b, n)
  {
    ResultIsRepresentable(n);
    Candidates(n);
    forall b: nat | Representable(b)
      ensures Distance(ToBinary32(n), n) <= Distance(b, n)
    {
      NothingBetween(n, b);
    }
  }

  /** Of two floats equally near, the one with the even significand. */
  lemma TiesGoToEven(n: nat, b: nat)
    requires Representable(b) && b != ToBinary32(n) && Distance(b, n) == Distance(ToBinary32(n), n)
    ensures ToBinary32(n) / Grid(n) % 2 == 0
  {
    Candidates(n);
    NothingBetween(n, b);
    var m := Significand(n);
    assert 2 * (n % Grid(n)) == Grid(n);
    var even := if m % 2 == 0 then m else m + 1;
    assert ToBinary32(n) == even * Grid(n) + 0;
    QuotientIs(ToBinary32(n), even, 0, Grid(n));
  }

  /** A number survives the conversion if and only if it is a multiple of a power of two with fewer than
      2^24 steps. */
  lemma SurvivesIff(n: nat)
    ensures ToBinary32(n) == n <==> Representable(n)
  {
    NoFloatIsNearer(n);
    if Representable(n) {
      assert Distance(ToBinary32(n), n) <= Distance(n, n);
    }
  }
}
