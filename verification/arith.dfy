/** Integer helpers with Swift's `Int` semantics. */
module Arith {

  function Abs(x: int): (r: nat)
    ensures r == x || r == -x
  {
    if x < 0 then -x else x
  }

  function Min(a: int, b: int): (r: int)
    ensures r <= a && r <= b && (r == a || r == b)
  {
    if a <= b then a else b
  }

  function Max(a: int, b: int): (r: int)
    ensures r >= a && r >= b && (r == a || r == b)
  {
    if a >= b then a else b
  }

  /** Swift's `/` on `Int`: the quotient rounded toward zero. Division by zero
      traps in Swift, hence the precondition. */
  function TruncDiv(a: int, b: int): (q: int)
    requires b != 0
    ensures Abs(q) == Abs(a) / Abs(b)
    ensures q < 0 ==> (a < 0) != (b < 0)
    ensures q > 0 ==> (a < 0) == (b < 0)
  {
    var m := Abs(a) / Abs(b);
    EuclidNat(Abs(a), Abs(b));
    assert m >= 0;
    if (a < 0) != (b < 0) then -m else m
  }

  lemma EuclidNat(x: nat, y: nat)
    requires y > 0
    ensures (x / y) * y <= x < (x / y) * y + y
  {
  }

  /** The truncated quotient times the divisor has the dividend's sign and
      the magnitude of the largest multiple of the divisor not exceeding it. */
  lemma TruncDivTimes(a: int, b: int)
    requires b != 0
    ensures TruncDiv(a, b) * b == (if a >= 0 then 1 else -1) * ((Abs(a) / Abs(b)) * Abs(b))
  {
    var m := Abs(a) / Abs(b);
    var q := TruncDiv(a, b);
    if a >= 0 && b > 0 {
      assert q == m;
    } else if a >= 0 {
      assert q == -m;
      assert q * b == m * (-b);
    } else if b > 0 {
      assert q == -m;
      assert q * b == -(m * b);
    } else {
      assert q == m;
      assert q * b == -(m * (-b));
    }
  }

  /** The truncated quotient times the divisor lies within one divisor of the
      dividend, on the dividend's side of zero. */
  lemma TruncDivBounds(a: int, b: int)
    requires b != 0
    ensures a >= 0 ==> 0 <= TruncDiv(a, b) * b <= a < TruncDiv(a, b) * b + Abs(b)
    ensures a < 0 ==> TruncDiv(a, b) * b - Abs(b) < a <= TruncDiv(a, b) * b <= 0
  {
    var p := (Abs(a) / Abs(b)) * Abs(b);
    EuclidNat(Abs(a), Abs(b));
    TruncDivTimes(a, b);
    if a >= 0 {
      assert TruncDiv(a, b) * b == p;
    } else {
      assert TruncDiv(a, b) * b == -p;
    }
  }

  /** Negating the dividend negates the truncated quotient. */
  lemma TruncDivNegate(a: int, b: int)
    requires b != 0
    ensures TruncDiv(-a, b) == -TruncDiv(a, b)
  {
  }

  /** On a natural dividend and a positive divisor, truncating and Euclidean
      division agree. */
  lemma TruncDivNatural(a: int, b: int)
    requires a >= 0 && b > 0
    ensures TruncDiv(a, b) == a / b
  {
  }

  lemma SmallMultipleIsZero(d: int, y: int)
    requires y > 0 && -y < d * y < y
    ensures d == 0
  {
  }

  lemma MulDivCancel(x: nat, y: nat)
    requires y > 0
    ensures (x * y) / y == x
  {
    var n := x * y;
    var q := n / y;
    assert n == q * y + n % y;
    assert (x - q) * y == n % y by { assert (x - q) * y == x * y - q * y; }
    SmallMultipleIsZero(x - q, y);
  }

  /** A multiple of the divisor divides back exactly. */
  lemma TruncDivOfMultiple(k: int, b: int)
    requires b != 0
    ensures TruncDiv(k * b, b) == k
  {
    assert Abs(k * b) == Abs(k) * Abs(b) by {
      if k < 0 && b < 0 { assert k * b == (-k) * (-b); }
      else if k < 0 { assert k * b == -((-k) * b); }
      else if b < 0 { assert k * b == -(k * (-b)); }
    }
    MulDivCancel(Abs(k), Abs(b));
    if k != 0 {
      assert (k * b < 0) == ((k < 0) != (b < 0)) by {
        if k > 0 && b > 0 { assert k * b > 0; }
        else if k < 0 && b < 0 { assert k * b == (-k) * (-b); }
        else if k < 0 { assert k * b == -((-k) * b); }
        else { assert k * b == -(k * (-b)); }
      }
    }
  }

  lemma MulAtLeast(a: nat, b: nat)
    requires b >= 1
    ensures a * b >= a
  {
  }

  /** A natural quotient is at most the dividend, and positive exactly when
      the divisor does not exceed the dividend. */
  lemma NatDivBounds(w: nat, d: nat)
    requires d > 0
    ensures 0 <= w / d <= w
    ensures w / d > 0 <==> d <= w
  {
    var q := w / d;
    EuclidNat(w, d);
    MulAtLeast(q, d);
    if q > 0 {
      MulAtLeast(d, q);
      assert d * q == q * d;
    }
  }

  /** A multiple of `b` leaves no remainder. */
  lemma ModOfMultiple(k: int, b: int)
    requires b != 0
    ensures (k * b) % b == 0
  {
    var q := (k * b) / b;
    var r := (k * b) % b;
    assert k * b == q * b + r;
    assert r == (k - q) * b;
    if b > 0 {
      SmallMultipleIsZero(k - q, b);
    } else {
      assert r == (q - k) * (-b);
      SmallMultipleIsZero(q - k, -b);
    }
  }
}
