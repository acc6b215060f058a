/** Greatest common divisors, as `gcd` in upstream.rs computes them, and the
    facts about them that the weighted schedule rests on. */
module Arithmetic {

  /** Euclid's algorithm on unsigned integers. */
  function Gcd(a: nat, b: nat): (g: nat)
    ensures a + b > 0 ==> 0 < g <= a + b
    decreases b
  {
    if b == 0 then a else Gcd(b, a % b)
  }

  /** `fold(0, gcd)` over a list of weights. */
  function GcdAll(ws: seq<nat>): nat {
    if ws == [] then 0 else Gcd(GcdAll(ws[..|ws| - 1]), ws[|ws| - 1])
  }

  function Times(d: nat, q: nat): nat {
    d * q
  }

  ghost predicate Divides(d: nat, a: nat) {
    exists q: nat :: Times(d, q) == a
  }

  lemma DividesCross(d: nat, q: nat, c: nat, a: nat)
    requires c * a == q * d
    ensures Divides(d, c * a)
  {
    assert Times(d, q) == c * a;
  }

  lemma DividesSum(d: nat, a: nat, b: nat)
    requires Divides(d, a) && Divides(d, b)
    ensures Divides(d, a + b)
  {
    var p: nat, q: nat :| Times(d, p) == a && Times(d, q) == b;
    assert Times(d, p + q) == a + b;
  }

  lemma DividesMultiple(d: nat, a: nat, k: nat)
    requires Divides(d, a)
    ensures Divides(d, k * a)
  {
    var p: nat :| Times(d, p) == a;
    assert Times(d, k * p) == k * a by {
      assert d * (k * p) == k * (d * p);
    }
  }

  lemma QuotientOrder(d: nat, q: nat, p: nat)
    requires d > 0 && d * q <= d * p
    ensures q <= p
  {
  }

  lemma DividesDifference(d: nat, a: nat, b: nat)
    requires b <= a && Divides(d, a) && Divides(d, b)
    ensures Divides(d, a - b)
  {
    var p: nat, q: nat :| Times(d, p) == a && Times(d, q) == b;
    if d == 0 {
      assert Times(d, 0) == a - b;
    } else {
      QuotientOrder(d, q, p);
      assert Times(d, p - q) == a - b;
    }
  }

  lemma MulAssoc(a: nat, b: nat, c: nat)
    ensures a * (b * c) == (a * b) * c
  {
  }

  lemma MulMonotone(k: nat, a: nat, b: nat)
    requires a <= b
    ensures k * a <= k * b
  {
  }

  lemma MulSucc(m: nat, n: nat)
    requires m > 0
    ensures m * n == (m - 1) * n + n
  {
  }

  /** `g * a == g * b` leaves `a == b` for a positive factor. */
  lemma CancelFactor(g: nat, a: nat, b: nat)
    requires g > 0 && g * a == g * b
    ensures a == b
  {
    assert (a - b) * g == 0;
    ZeroMultiple(a - b, g, 0);
  }

  /** A common divisor cancels out of a cross product. */
  lemma CancelCross(g: nat, c: nat, a: nat, d: nat, b: nat)
    requires g > 0 && c * (a * g) == d * (b * g)
    ensures c * a == d * b
  {
    MulAssoc(c, a, g);
    MulAssoc(d, b, g);
    CancelFactor(g, c * a, d * b);
  }

  /** Scaling dividend and divisor alike leaves an exact quotient alone. */
  lemma CancelQuotient(k: nat, g: nat, a: nat, b: nat, w: nat)
    requires k > 0 && g > 0 && a * (k * g) == k * w && b * g == w
    ensures a == b
  {
    assert k * (b * g) == b * (k * g);
    assert k * g > 0;
    CancelFactor(k * g, a, b);
  }

  lemma EqualRatios(a: nat, m: nat, b: nat, c: nat)
    requires a > 0 && (a * m) * b == c * a
    ensures m * b == c
  {
    MulAssoc(a, m, b);
    CancelFactor(a, m * b, c);
  }

  /** Common factors cancel on either side of a cross product. */
  lemma CrossReduce(a: nat, b: nat, c: nat, d: nat, g: nat, h: nat)
    requires g > 0 && h > 0 && (a * g) * (b * h) == (c * g) * (d * h)
    ensures a * b == c * d
  {
    assert (a * g) * (b * h) == (a * b) * (g * h);
    assert (c * g) * (d * h) == (c * d) * (g * h);
    assert g * h > 0;
    assert (g * h) * (a * b) == (g * h) * (c * d);
    CancelFactor(g * h, a * b, c * d);
  }

  lemma DivMod(a: nat, b: nat)
    requires b > 0
    ensures a == a / b * b + a % b
  {
  }

  lemma DividesItself(a: nat)
    ensures Divides(a, a) && Divides(a, 0)
  {
    assert Times(a, 1) == a && Times(a, 0) == 0;
  }

  /** What divides a divisor and the remainder divides the dividend. */
  lemma DividesDividend(g: nat, a: nat, b: nat)
    requires b > 0 && Divides(g, b) && Divides(g, a % b)
    ensures Divides(g, a)
  {
    hide Divides;
    DividesMultiple(g, b, a / b);
    DividesSum(g, a / b * b, a % b);
    DivMod(a, b);
  }

  lemma {:induction false} GcdDivides(a: nat, b: nat)
    ensures Divides(Gcd(a, b), a) && Divides(Gcd(a, b), b)
    decreases b
  {
    hide Divides;
    if b == 0 {
      DividesItself(a);
    } else {
      GcdDivides(b, a % b);
      DividesDividend(Gcd(a, b), a, b);
    }
  }

  lemma {:induction false} GcdAllDivides(ws: seq<nat>, i: nat)
    requires i < |ws|
    ensures Divides(GcdAll(ws), ws[i])
  {
    var n := |ws| - 1;
    GcdDivides(GcdAll(ws[..n]), ws[n]);
    if i < n {
      GcdAllDivides(ws[..n], i);
      DividesTransitive(GcdAll(ws), GcdAll(ws[..n]), ws[i]);
    }
  }

  lemma DividesTransitive(a: nat, b: nat, c: nat)
    requires Divides(a, b) && Divides(b, c)
    ensures Divides(a, c)
  {
    var p: nat :| Times(b, p) == c;
    DividesMultiple(a, b, p);
    assert p * b == c;
  }

  lemma DividesAtMost(a: nat, b: nat)
    requires Divides(a, b) && b > 0
    ensures a <= b
  {
    var q: nat :| Times(a, q) == b;
    if q > 0 {
      MulSucc(q, a);
    }
  }

  lemma {:induction false} GcdAllPositive(ws: seq<nat>)
    requires ws != [] && ws[|ws| - 1] > 0
    ensures GcdAll(ws) > 0
  {
  }

  /** Scaling both arguments scales the greatest common divisor. */
  lemma {:induction false} GcdScales(k: nat, a: nat, b: nat)
    requires k > 0
    ensures Gcd(k * a, k * b) == k * Gcd(a, b)
    decreases b
  {
    if b == 0 {
    } else {
      ModScales(k, a, b);
      assert k * b > 0;
      GcdScales(k, b, a % b);
    }
  }

  lemma ModScales(k: nat, a: nat, b: nat)
    requires k > 0 && b > 0
    ensures k * b > 0
    ensures (k * a) % (k * b) == k * (a % b)
  {
    assert k * b > 0;
    DivMod(a, b);
    var q, r := a / b, a % b;
    assert k * a == q * (k * b) + k * r by {
      assert k * a == k * (q * b + r) == k * (q * b) + k * r;
      assert k * (q * b) == q * (k * b);
    }
    assert 0 <= k * r < k * b by {
      assert r < b;
      assert k * r < k * b;
    }
    ModUnique(k * a, k * b, q, k * r);
  }

  lemma ModUnique(a: nat, b: nat, q: nat, r: nat)
    requires b > 0 && r < b && a == q * b + r
    ensures a % b == r && a / b == q
  {
    var q', r' := a / b, a % b;
    DivMod(a, b);
    assert (q - q') * b == r' - r;
    ZeroMultiple(q - q', b, r' - r);
  }

  lemma ZeroMultiple(d: int, b: int, e: int)
    requires b > 0 && d * b == e && -b < e < b
    ensures d == 0
  {
    MultipleBounds(d, b);
  }

  lemma MultipleBounds(d: int, b: int)
    requires b > 0
    ensures d >= 1 ==> d * b >= b
    ensures d <= -1 ==> d * b <= -b
  {
    if d >= 1 {
      assert (d - 1) * b >= 0;
    } else if d <= -1 {
      assert (-1 - d) * b >= 0;
    }
  }

  function Scaled(k: nat, ws: seq<nat>): (r: seq<nat>)
    ensures |r| == |ws| && forall i :: 0 <= i < |ws| ==> r[i] == k * ws[i]
  {
    seq(|ws|, i requires 0 <= i < |ws| => k * ws[i])
  }

  lemma {:induction false} GcdAllScales(k: nat, ws: seq<nat>)
    requires k > 0
    ensures GcdAll(Scaled(k, ws)) == k * GcdAll(ws)
  {
    if ws == [] {
    } else {
      var n := |ws| - 1;
      GcdAllScales(k, ws[..n]);
      assert Scaled(k, ws)[..n] == Scaled(k, ws[..n]);
      GcdScales(k, GcdAll(ws[..n]), ws[n]);
    }
  }

  /** What divides a multiple of every weight divides the same multiple of
      their greatest common divisor. */
  lemma {:induction false} DividesGcdMultiple(d: nat, c: nat, x: nat, y: nat)
    requires Divides(d, c * x) && Divides(d, c * y)
    ensures Divides(d, c * Gcd(x, y))
    decreases y
  {
    if y == 0 {
    } else {
      DivMod(x, y);
      var q := x / y;
      DividesMultiple(d, c * y, q);
      assert c * x == q * (c * y) + c * (x % y) by {
        assert c * x == c * (q * y + x % y) == c * (q * y) + c * (x % y);
        assert c * (q * y) == q * (c * y);
      }
      assert c * (x % y) >= 0;
      DividesDifference(d, c * x, q * (c * y));
      DividesGcdMultiple(d, c, y, x % y);
    }
  }

  lemma {:induction false} DividesGcdAllMultiple(d: nat, c: nat, ws: seq<nat>)
    requires forall i :: 0 <= i < |ws| ==> Divides(d, c * ws[i])
    ensures Divides(d, c * GcdAll(ws))
  {
    if ws == [] {
      assert Times(d, 0) == c * 0;
    } else {
      var n := |ws| - 1;
      DividesGcdAllMultiple(d, c, ws[..n]);
      DividesGcdMultiple(d, c, GcdAll(ws[..n]), ws[n]);
    }
  }
}
