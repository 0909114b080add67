/**
  What the operators compute on 32-bit integers, said by congruences and remainders.
 */
module Arithmetic {
  import opened Ir

  predicate Int32(n: int) {
    -0x8000_0000 <= n < 0x8000_0000
  }

  /** The 32-bit number that differs by a multiple of 2^32. */
  lemma WrapIsExact(n: int, r: int)
    ensures Wrap(n) == r <==> Int32(r) && (r - n) % 0x1_0000_0000 == 0
  {
    var m := n + 0x8000_0000;
    assert Wrap(n) - n == m % 0x1_0000_0000 - m;
    if Int32(r) && (r - n) % 0x1_0000_0000 == 0 {
      assert (r - Wrap(n)) % 0x1_0000_0000 == 0;
    }
  }

  /** Sums, differences and products are those of the integers, up to multiples of 2^32. */
  lemma SumsWrap(a: int, b: int)
    ensures forall op :: op in {Add, Sub, Mul} ==> Int32(Apply(op, a, b))
    ensures (Apply(Add, a, b) - (a + b)) % 0x1_0000_0000 == 0
    ensures (Apply(Sub, a, b) - (a - b)) % 0x1_0000_0000 == 0
    ensures (Apply(Mul, a, b) - a * b) % 0x1_0000_0000 == 0
  {
    WrapIsExact(a + b, Wrap(a + b));
    WrapIsExact(a - b, Wrap(a - b));
    WrapIsExact(a * b, Wrap(a * b));
  }

  /** A quotient and a remainder that is smaller than the divisor and has the sign of the
      dividend. */
  predicate Divides(a: int, b: int, q: int, r: int) {
    a == q * b + r && Magnitude(r) < Magnitude(b) && (r == 0 || (r < 0) == (a < 0))
  }

  lemma OnlyOneQuotient(a: int, b: int, q: int, r: int, q': int, r': int)
    requires Divides(a, b, q, r) && Divides(a, b, q', r')
    ensures q == q' && r == r'
  {
    if q != q' {
      var d := q - q';
      assert d * b == r' - r;
      assert Magnitude(d * b) >= Magnitude(b) by { Larger(d, b); }
    }
  }

  lemma Larger(d: int, b: int)
    requires d != 0
    ensures Magnitude(d * b) >= Magnitude(b)
  {
    var m, n := Magnitude(d), Magnitude(b);
    assert m * n >= n;
    assert Magnitude(d * b) == m * n;
  }

  lemma TruncatedDivides(a: int, b: int)
    requires b != 0
    ensures Divides(a, b, Truncated(a, b), a - Truncated(a, b) * b)
  {
    var x, y := Magnitude(a), Magnitude(b);
    var q := x / y;
    assert x == q * y + x % y;
    if (a < 0) == (b < 0) {
      assert q * b == if b < 0 then -(q * y) else q * y;
    } else {
      assert (-q) * b == if b < 0 then q * y else -(q * y);
    }
  }

  /** Division and remainder are the only ones of that kind; both are 0 for a zero divisor and
      for the quotient that is too large. */
  lemma DivisionIsExact(a: int, b: int, q: int, r: int)
    ensures b == 0 || (a == -0x8000_0000 && b == -1) ==> Apply(Div, a, b) == Apply(Rem, a, b) == 0
    ensures !(b == 0 || (a == -0x8000_0000 && b == -1)) ==>
              (Apply(Div, a, b) == q && Apply(Rem, a, b) == r <==> Divides(a, b, q, r))
  {
    if !(b == 0 || (a == -0x8000_0000 && b == -1)) {
      TruncatedDivides(a, b);
      if Divides(a, b, q, r) { OnlyOneQuotient(a, b, q, r, Truncated(a, b), a - Truncated(a, b) * b); }
    }
  }

  /** What is computed from 32-bit integers is one. */
  lemma ResultsFit(op: Op, a: int, b: int)
    requires Int32(a) && Int32(b)
    ensures Int32(Apply(op, a, b))
  {
    WrapIsExact(a + b, Wrap(a + b));
    WrapIsExact(a - b, Wrap(a - b));
    WrapIsExact(a * b, Wrap(a * b));
    if b != 0 && !(a == -0x8000_0000 && b == -1) {
      QuotientFits(a, b);
      TruncatedDivides(a, b);
    }
  }

  lemma QuotientIsSmaller(x: nat, y: nat)
    requires y > 0
    ensures 0 <= x / y <= x && (y == 1 ==> x / y == x) && (x > 0 && y > 1 ==> x / y < x)
  {
    var q := x / y;
    assert x == q * y + x % y;
    if q > 0 {
      assert q * y >= q;
      if y > 1 { assert q * y >= q * 2; }
    }
  }

  lemma QuotientFits(a: int, b: int)
    requires b != 0 && Int32(a) && Int32(b) && !(a == -0x8000_0000 && b == -1)
    ensures Int32(Truncated(a, b))
  {
    QuotientIsSmaller(Magnitude(a), Magnitude(b));
  }
}
