/** JSON numbers and the 64-bit floats that stand for them. */
module JsonNumbers {
  /** A number as written: its digits without the point, and the power of ten they are scaled by. */
  datatype Decimal = Decimal(negative: bool, digits: nat, exponent: int)

  /** A float keeps the sign of a zero. */
  datatype Float = Float(negative: bool, magnitude: real)

  /** `x` times two to the power of `k`. */
  function Scaled(x: real, k: int): real
    decreases if k < 0 then -k else k
  {
    if k == 0 then x else if k > 0 then 2.0 * Scaled(x, k - 1) else Scaled(x, k + 1) / 2.0
  }

  /** `x` times ten to the power of `k`. */
  function Shifted(x: real, k: int): (y: real)
    ensures x >= 0.0 ==> y >= 0.0
    decreases if k < 0 then -k else k
  {
    if k == 0 then x else if k > 0 then 10.0 * Shifted(x, k - 1) else Shifted(x, k + 1) / 10.0
  }

  function Magnitude(d: Decimal): (x: real)
    ensures x >= 0.0
  {
    Shifted(d.digits as real, d.exponent)
  }

  // ---------- floats ----------

  const EXACT := 0x20_0000_0000_0000  // two to the power of 53
  const LEAST := -1074
  const GREATEST := 971

  /** The magnitudes of floats: 53 bits times a power of two. */
  ghost predicate IsFloat(y: real) {
    exists n: nat, k: int :: IsScaled(y, n, k)
  }

  predicate IsScaled(y: real, n: nat, k: int) {
    n < 9007199254740992 && -1074 <= k <= 971 && y == Scaled(n as real, k)
  }

  /** The least power of two, from `k` on, in whose units 53 bits hold `x`. */
  function UnitFor(x: real, k: int): (u: int)
    requires LEAST <= k <= GREATEST
    ensures k <= u <= GREATEST
    decreases GREATEST - k
  {
    if x < Scaled(EXACT as real, k) || k == GREATEST then k else UnitFor(x, k + 1)
  }

  /** The nearest whole number, and of two equally near the even one. */
  function Nearest(z: real): (n: int)
    ensures -0.5 <= z - n as real <= 0.5
    ensures z - n as real == 0.5 || z - n as real == -0.5 ==> n % 2 == 0
  {
    var r := z - z.Floor as real;
    if r < 0.5 || (r == 0.5 && z.Floor % 2 == 0) then z.Floor else z.Floor + 1
  }

  function RoundedTo(x: real, u: int): real {
    Scaled(Nearest(Scaled(x, -u)) as real, u)
  }

  function Rounded(x: real): real {
    RoundedTo(x, UnitFor(x, LEAST))
  }

  function FloatOf(d: Decimal): Float {
    Float(d.negative, Rounded(Magnitude(d)))
  }

  /** Some float stands for the number; otherwise decoding fails. */
  predicate InRange(d: Decimal) {
    Rounded(Magnitude(d)) < Scaled(EXACT as real, GREATEST)
  }

  // ---------- scaling ----------

  lemma ScaledNext(x: real, k: int)
    ensures Scaled(x, k + 1) == 2.0 * Scaled(x, k)
  {
  }

  lemma {:induction false} ScaledTwice(x: real, k: int)
    ensures Scaled(2.0 * x, k) == Scaled(x, k + 1)
    decreases if k < 0 then -k else k
  {
    if k > 0 {
      ScaledTwice(x, k - 1);
    } else if k < 0 {
      ScaledTwice(x, k + 1);
      ScaledNext(x, k + 1);
    }
  }

  lemma {:induction false} ScaledSum(x: real, j: int, k: int)
    ensures Scaled(Scaled(x, j), k) == Scaled(x, j + k)
    decreases if k < 0 then -k else k
  {
    if k > 0 {
      ScaledSum(x, j, k - 1);
      ScaledNext(x, j + k - 1);
    } else if k < 0 {
      ScaledSum(x, j, k + 1);
      ScaledNext(x, j + k);
    }
  }

  lemma {:induction false} ScaledGap(x: real, y: real, k: int)
    ensures Scaled(x, k) - Scaled(y, k) == Scaled(x - y, k)
    decreases if k < 0 then -k else k
  {
    if k > 0 {
      ScaledGap(x, y, k - 1);
    } else if k < 0 {
      ScaledGap(x, y, k + 1);
    }
  }

  lemma {:induction false} ScaledKeepsOrder(x: real, y: real, k: int)
    requires x <= y
    ensures Scaled(x, k) <= Scaled(y, k)
    ensures x < y ==> Scaled(x, k) < Scaled(y, k)
    decreases if k < 0 then -k else k
  {
    if k > 0 {
      ScaledKeepsOrder(x, y, k - 1);
    } else if k < 0 {
      ScaledKeepsOrder(x, y, k + 1);
    }
  }

  lemma {:induction false} ScaledZero(k: int)
    ensures Scaled(0.0, k) == 0.0
    decreases if k < 0 then -k else k
  {
    if k > 0 {
      ScaledZero(k - 1);
    } else if k < 0 {
      ScaledZero(k + 1);
    }
  }

  lemma {:induction false} ScaledGrows(x: real, k: int, n: nat)
    requires x >= 0.0
    ensures 0.0 <= Scaled(x, k) <= Scaled(x, k + n)
  {
    if n == 0 {
      ScaledZero(k);
      ScaledKeepsOrder(0.0, x, k);
    } else {
      ScaledGrows(x, k, n - 1);
      ScaledNext(x, k + n - 1);
    }
  }

  lemma {:induction false} ScaledWhole(n: nat, k: nat) returns (i: nat)
    ensures Scaled(n as real, k) == i as real
  {
    if k == 0 {
      i := n;
    } else {
      var half := ScaledWhole(n, k - 1);
      i := 2 * half;
    }
  }

  // ---------- rounding ----------

  lemma {:induction false} UnitIsLeast(x: real, k: int)
    requires LEAST <= k <= GREATEST
    ensures var u := UnitFor(x, k);
      (u < GREATEST ==> x < Scaled(EXACT as real, u)) && (u > k ==> x >= Scaled(EXACT as real, u - 1))
    decreases GREATEST - k
  {
    if !(x < Scaled(EXACT as real, k) || k == GREATEST) {
      UnitIsLeast(x, k + 1);
    }
  }

  /** Any unit that fits exactly is the one. */
  lemma {:induction false} UnitIs(x: real, k: int, u: int)
    requires LEAST <= k <= u <= GREATEST && Scaled(EXACT as real, u - 1) <= x < Scaled(EXACT as real, u)
    ensures UnitFor(x, k) == u
    decreases u - k
  {
    if k < u {
      ScaledGrows(EXACT as real, k, u - 1 - k);
      UnitIs(x, k + 1, u);
    }
  }

  function Distance(x: real, y: real): real {
    if x < y then y - x else x - y
  }

  lemma ScaledDistance(x: real, y: real, k: int)
    ensures Distance(Scaled(x, k), Scaled(y, k)) == Scaled(Distance(x, y), k)
  {
    ScaledGap(x, y, k);
    ScaledGap(y, x, k);
    if x < y {
      ScaledKeepsOrder(x, y, k);
    } else {
      ScaledKeepsOrder(y, x, k);
    }
  }

  lemma NearestWhole(z: real, i: int)
    ensures Distance(z, Nearest(z) as real) <= Distance(z, i as real)
  {
    var n := Nearest(z);
    if i < n {
      assert i as real <= (n - 1) as real;
    } else if i > n {
      assert i as real >= (n + 1) as real;
    }
  }

  /** No multiple of the unit is nearer. */
  lemma NearestOfUnit(x: real, u: int, i: int)
    ensures Distance(x, RoundedTo(x, u)) <= Distance(x, Scaled(i as real, u))
  {
    var z := Scaled(x, -u);
    ScaledSum(x, -u, u);
    NearestWhole(z, i);
    ScaledDistance(z, Nearest(z) as real, u);
    ScaledDistance(z, i as real, u);
    ScaledKeepsOrder(Distance(z, Nearest(z) as real), Distance(z, i as real), u);
  }

  /** No float is nearer to a number than the one it is rounded to. */
  lemma RoundedIsNearest(x: real, y: real)
    requires x >= 0.0 && IsFloat(y)
    ensures Distance(x, Rounded(x)) <= Distance(x, y)
  {
    var u := UnitFor(x, LEAST);
    var n, k :| IsScaled(y, n, k);
    if k >= u {
      var i := ScaledWhole(n, k - u);
      ScaledSum(n as real, k - u, u);
      NearestOfUnit(x, u, i);
    } else {
      FinerIsBelow(x, n, k, u);
      NearestOfUnit(x, u, EXACT / 2);
    }
  }

  /** A float with a finer unit lies below a multiple of this unit that is still below the number. */
  lemma FinerIsBelow(x: real, n: nat, k: int, u: int)
    requires n < EXACT && LEAST <= k < u == UnitFor(x, LEAST)
    ensures Scaled(n as real, k) <= Scaled((EXACT / 2) as real, u) <= x
  {
    UnitIsLeast(x, LEAST);
    ScaledKeepsOrder(n as real, EXACT as real, k);
    ScaledGrows(EXACT as real, k, u - 1 - k);
    ScaledTwice((EXACT / 2) as real, u - 1);
  }

  /** Whatever is rounded within the range becomes a float. */
  lemma RoundedIsFloat(x: real)
    requires x >= 0.0 && Rounded(x) < Scaled(EXACT as real, GREATEST)
    ensures IsFloat(Rounded(x))
  {
    var u := UnitFor(x, LEAST);
    var n := Nearest(Scaled(x, -u));
    ScaledGrows(x, -u, 0);
    if n < EXACT {
      assert IsScaled(Rounded(x), n, u);
    } else if u < GREATEST {
      FitsUnit(x, u);
      ScaledTwice((EXACT / 2) as real, u);
      assert IsScaled(Rounded(x), EXACT / 2, u + 1);
    } else {
      ScaledKeepsOrder(EXACT as real, n as real, GREATEST);
      assert false;
    }
  }

  /** Below the greatest unit nothing leaves the range. */
  lemma FinerIsInRange(x: real, u: int)
    requires u == UnitFor(x, LEAST) < GREATEST
    ensures Rounded(x) < Scaled(EXACT as real, GREATEST) && x < Scaled(EXACT as real, 970)
  {
    FitsUnit(x, u);
    UnitIsLeast(x, LEAST);
    ScaledKeepsOrder(Nearest(Scaled(x, -u)) as real, EXACT as real, u);
    ScaledGrows(EXACT as real, u, 970 - u);
    ScaledNext(EXACT as real, 970);
    ScaledZero(970);
    ScaledKeepsOrder(0.0, EXACT as real, 970);
  }

  /** In it, half a unit decides, and the tie goes to the even number. */
  lemma GreatestUnitDecides(x: real)
    requires UnitFor(x, LEAST) == GREATEST
    ensures Rounded(x) < Scaled(EXACT as real, GREATEST) <==> x < Scaled(EXACT as real - 0.5, GREATEST)
  {
    var z, half := Scaled(x, -GREATEST), EXACT as real - 0.5;
    ScaledSum(x, -GREATEST, GREATEST);
    if z < half {
      ScaledKeepsOrder(z, half, GREATEST);
      assert Nearest(z) < EXACT;
      ScaledKeepsOrder(Nearest(z) as real, EXACT as real, GREATEST);
    } else {
      ScaledKeepsOrder(half, z, GREATEST);
      assert Nearest(z) >= EXACT;
      ScaledKeepsOrder(EXACT as real, Nearest(z) as real, GREATEST);
    }
  }

  /** What is out of range: from half a unit above the greatest float on. */
  lemma RangeIs(d: Decimal)
    ensures InRange(d) <==> Magnitude(d) < Scaled(18014398509481983.0, 970)
  {
    var x := Magnitude(d);
    var edge := 18014398509481983.0;
    ScaledTwice(EXACT as real - 0.5, 970);
    assert 2.0 * (EXACT as real - 0.5) == edge;
    if UnitFor(x, LEAST) < GREATEST {
      FinerIsInRange(x, UnitFor(x, LEAST));
      ScaledKeepsOrder(EXACT as real, edge, 970);
    } else {
      GreatestUnitDecides(x);
    }
  }

  lemma FitsUnit(x: real, u: int)
    requires u == UnitFor(x, LEAST) < GREATEST
    ensures Nearest(Scaled(x, -u)) <= EXACT
  {
    UnitIsLeast(x, LEAST);
    ScaledSum(EXACT as real, u, -u);
    ScaledKeepsOrder(x, Scaled(EXACT as real, u), -u);
  }

  /** Floats stand for themselves. */
  lemma FloatIsKept(y: real)
    requires y >= 0.0 && IsFloat(y)
    ensures Rounded(y) == y
  {
    RoundedIsNearest(y, y);
  }

  // ---------- which numbers share a float ----------

  /** Whole numbers below 53 bits, written as such. */
  predicate SmallNumber(d: Decimal) {
    d.exponent == 0 && d.digits < 9007199254740992
  }

  lemma SmallIsKept(d: Decimal)
    requires SmallNumber(d)
    ensures FloatOf(d) == Float(d.negative, d.digits as real) && InRange(d)
  {
    var x := d.digits as real;
    assert IsScaled(x, d.digits, 0);
    FloatIsKept(x);
    ScaledGrows(EXACT as real, 0, GREATEST);
  }

  /** They are kept exactly, so no two of them share a float. */
  lemma SmallNumbersAreExact(d: Decimal, e: Decimal)
    requires SmallNumber(d) && SmallNumber(e)
    ensures FloatOf(d) == FloatOf(e) <==> d == e
  {
    SmallIsKept(d);
    SmallIsKept(e);
  }

  lemma {:induction false} ShiftedTenfold(x: real, k: int)
    ensures Shifted(10.0 * x, k) == Shifted(x, k + 1)
    decreases if k < 0 then -k else k
  {
    if k > 0 {
      ShiftedTenfold(x, k - 1);
    } else if k < 0 {
      ShiftedTenfold(x, k + 1);
    }
  }

  /** The same number in another spelling, as 1 and 1.0 or 0.1 and 0.10. */
  lemma SpellingsMerge(d: Decimal)
    ensures FloatOf(Decimal(d.negative, 10 * d.digits, d.exponent - 1)) == FloatOf(d)
    ensures InRange(Decimal(d.negative, 10 * d.digits, d.exponent - 1)) <==> InRange(d)
  {
    assert (10 * d.digits) as real == 10.0 * d.digits as real;
    ShiftedTenfold(d.digits as real, d.exponent - 1);
  }

  /** Beyond 53 bits unequal whole numbers merge: two to the power of 53, and the next one. */
  lemma LargeNumbersMerge()
    ensures FloatOf(Decimal(false, EXACT + 1, 0)) == FloatOf(Decimal(false, EXACT, 0))
    ensures InRange(Decimal(false, EXACT + 1, 0)) && InRange(Decimal(false, EXACT, 0))
  {
    assert Scaled(EXACT as real, 1) == 2.0 * Scaled(EXACT as real, 0);
    UnitIs(EXACT as real, LEAST, 1);
    UnitIs((EXACT + 1) as real, LEAST, 1);
    assert Nearest((EXACT + 1) as real / 2.0) == EXACT / 2 == Nearest(EXACT as real / 2.0);
    assert Scaled((EXACT / 2) as real, 1) == EXACT as real;
    ScaledGrows(EXACT as real, 1, GREATEST - 1);
  }
}
