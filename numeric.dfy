/** Signed 64-bit integers (C++ `long long`) over Dafny's unbounded `int`,
    and C++ integer division, which truncates toward zero. */
module Numeric {

  const MinInt64: int := -0x8000_0000_0000_0000
  const MaxInt64: int := 0x7FFF_FFFF_FFFF_FFFF

  predicate InInt64(x: int) {
    MinInt64 <= x <= MaxInt64
  }

  /** The values a `long long` can hold. */
  type Int64 = x: int | MinInt64 <= x <= MaxInt64

  function Abs(x: int): (a: nat)
    ensures a == x || a == -x
  {
    if x < 0 then -x else x
  }

  /** The quotient of C++ `a / b`: the magnitude is rounded down and the sign
      is that of the exact quotient, so 7/2 = 3 and -7/2 = -3 (Dafny's own `/`
      is Euclidean and would give -4 for the latter). */
  function TruncDiv(a: int, b: int): (q: int)
    requires b != 0
    ensures Abs(q) * Abs(b) <= Abs(a) < (Abs(q) + 1) * Abs(b)
    ensures q == 0 || ((q < 0) <==> ((a < 0) != (b < 0)))
  {
    var m := Abs(a) / Abs(b);
    DivBounds(Abs(a), Abs(b));
    if (a < 0) == (b < 0) then m else -m
  }

  lemma DivBounds(n: nat, d: nat)
    requires d > 0
    ensures (n / d) * d <= n < (n / d + 1) * d
  {
    var m, k := n / d, n % d;
    assert n == m * d + k && 0 <= k < d;
    assert (m + 1) * d == m * d + d;
  }

  /** Truncating division never grows the magnitude of the dividend. */
  lemma TruncDivShrinks(a: int, b: int)
    requires b != 0
    ensures Abs(TruncDiv(a, b)) <= Abs(a)
  {
    var q := TruncDiv(a, b);
    assert Abs(q) * Abs(b) <= Abs(a);
    assert Abs(q) <= Abs(q) * Abs(b);
  }

  /** Dividing a product back by one factor gives the other factor. */
  lemma TruncDivProduct(l: int, r: int)
    ensures l != 0 ==> TruncDiv(l * r, l) == r
  {
    if l == 0 {
      return;
    }
    AbsProduct(l, r);
    DivExact(Abs(r), Abs(l));
    assert Abs(l * r) / Abs(l) == Abs(r);
    if r != 0 {
      SignOfProduct(l, r);
    }
  }

  lemma AbsProduct(l: int, r: int)
    ensures Abs(l * r) == Abs(l) * Abs(r)
  {
    if l < 0 && r < 0 { assert l * r == (-l) * (-r); }
    else if l < 0 { assert -(l * r) == (-l) * r; }
    else if r < 0 { assert -(l * r) == l * (-r); }
  }

  lemma DivExact(q: nat, d: nat)
    requires d > 0
    ensures (q * d) / d == q
  {
    var n := q * d;
    DivBounds(n, d);
  }

  lemma SignOfProduct(l: int, r: int)
    requires l != 0 && r != 0
    ensures (l * r < 0) <==> ((l < 0) != (r < 0))
  {
    AbsProduct(l, r);
    assert Abs(l) * Abs(r) > 0;
    if l < 0 && r < 0 { assert l * r == (-l) * (-r); }
    else if l < 0 { assert -(l * r) == (-l) * r; }
    else if r < 0 { assert -(l * r) == l * (-r); }
  }

  /** Every 64-bit quotient fits, except MinInt64 / -1. */
  lemma QuotientFits(l: int, r: int)
    requires r != 0 && InInt64(l) && InInt64(r)
    ensures InInt64(TruncDiv(l, r)) <==> !(l == MinInt64 && r == -1)
  {
    TruncDivShrinks(l, r);
    if l == MinInt64 && r == -1 {
      assert TruncDiv(l, r) == MaxInt64 + 1;
    } else {
      if r == -1 {
        assert TruncDiv(l, r) == -l;
      } else if r == 1 {
        assert TruncDiv(l, r) == l;
      } else {
        TruncDivHalves(l, r);
      }
    }
  }

  lemma TruncDivHalves(l: int, r: int)
    requires Abs(r) >= 2 && InInt64(l)
    ensures InInt64(TruncDiv(l, r))
  {
    var q := TruncDiv(l, r);
    MulAtLeastDouble(Abs(q), Abs(r));
  }

  lemma MulAtLeastDouble(a: nat, b: nat)
    requires b >= 2
    ensures a * 2 <= a * b
  {
    assert a * b == a * 2 + a * (b - 2);
  }
}
