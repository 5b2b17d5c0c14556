/** Integer division as C and GMP define it, greatest common divisors and exact rationals. */
module NumberTheory {

  function Abs(n: int): nat
  {
    if n < 0 then -n else n
  }

  // ----- Division -----

  /** Division towards zero. */
  function TruncDiv(a: int, b: int): int
    requires b != 0
  {
    if a >= 0 then (if b > 0 then a / b else -(a / -b)) else if b > 0 then -(-a / b) else -a / -b
  }

  function TruncMod(a: int, b: int): int
    requires b != 0
  {
    a - b * TruncDiv(a, b)
  }

  /** Division towards minus infinity. */
  function FloorDiv(a: int, b: int): int
    requires b != 0
  {
    if TruncMod(a, b) != 0 && (TruncMod(a, b) < 0) != (b < 0) then TruncDiv(a, b) - 1 else TruncDiv(a, b)
  }

  function FloorMod(a: int, b: int): int
    requires b != 0
  {
    a - b * FloorDiv(a, b)
  }

  lemma EuclidParts(a: nat, b: nat)
    requires b > 0
    ensures a == b * (a / b) + a % b && 0 <= a % b < b
  {
  }

  lemma Negate(a: int, b: int)
    ensures -a * b == a * -b == -(a * b) && -a * -b == a * b
  {
  }

  /** The truncated remainder in terms of that of the absolute values. */
  lemma TruncParts(a: int, b: int)
    requires b != 0
    ensures TruncMod(a, b) == if a >= 0 then Abs(a) % Abs(b) else -(Abs(a) % Abs(b))
  {
    var p, q := Abs(a), Abs(b);
    var d: int := p / q;
    EuclidParts(p, q);
    Negate(q, d);
    assert TruncDiv(a, b) == if (a >= 0) == (b > 0) then d else -d;
  }

  /** The truncated remainder is smaller than the divisor and has the sign of the dividend. */
  lemma TruncModMeans(a: int, b: int)
    requires b != 0
    ensures Abs(TruncMod(a, b)) < Abs(b)
    ensures TruncMod(a, b) == 0 || SameSign(TruncMod(a, b), a)
  {
    hide TruncMod;
    TruncParts(a, b);
    ModBounds(Abs(a), Abs(b));
  }

  lemma ModBounds(a: nat, b: nat)
    requires b > 0
    ensures 0 <= a % b < b && (a == 0 ==> a % b == 0)
  {
  }

  /** The floored remainder is smaller than the divisor and has its sign. */
  lemma FloorModMeans(a: int, b: int)
    requires b != 0
    ensures Abs(FloorMod(a, b)) < Abs(b)
    ensures FloorMod(a, b) == 0 || (FloorMod(a, b) > 0 <==> b > 0)
    ensures var t := TruncMod(a, b); FloorMod(a, b) == if t != 0 && (t < 0) != (b < 0) then t + b else t
  {
    TruncModMeans(a, b);
    var t := TruncDiv(a, b);
    assert b * (t - 1) == b * t - b;
  }

  // ----- Greatest common divisors -----

  ghost predicate Divides(d: int, n: int)
  {
    exists k: int :: n == d * k
  }

  function Gcd(a: nat, b: nat): (g: nat)
    ensures a + b > 0 ==> g > 0
    decreases b
  {
    if b == 0 then a else Gcd(b, a % b)
  }

  lemma {:induction false} GcdDivides(a: nat, b: nat)
    requires a + b > 0
    ensures Divides(Gcd(a, b), a) && Divides(Gcd(a, b), b)
    decreases b
  {
    var g := Gcd(a, b);
    if b == 0 {
      assert a == g * 1 && b == g * 0;
    } else {
      GcdDivides(b, a % b);
      var j: int :| b == g * j;
      var k: int :| a % b == g * k;
      EuclidParts(a, b);
      Distribute(g, j, k, a / b);
      assert a == g * (j * (a / b) + k);
    }
  }

  lemma Distribute(g: int, j: int, k: int, q: int)
    ensures (g * j) * q + g * k == g * (j * q + k)
  {
  }

  lemma MulBound(b: int, x: int)
    requires b > 0
    ensures x >= 1 ==> b * x >= b
    ensures x <= -1 ==> b * x <= -b
  {
    if x >= 1 { MulSign(b, x - 1); assert b * x == b * (x - 1) + b; }
    if x <= -1 { MulSign(b, -x - 1); assert b * x == -(b * (-x - 1)) - b; }
  }

  lemma MulSign(b: int, x: int)
    requires b >= 0 && x >= 0
    ensures b * x >= 0
  {
  }

  lemma UniqueRest(a: nat, b: nat, q: int, r: nat)
    requires b > 0 && a == b * q + r && r < b
    ensures a % b == r && a / b == q
  {
    EuclidParts(a, b);
    var p := a / b;
    assert b * (p - q) == b * p - b * q;
    MulBound(b, p - q);
  }

  lemma ScaleMod(k: nat, a: nat, b: nat)
    requires k > 0 && b > 0
    ensures k * b > 0 && (k * a) % (k * b) == k * (a % b)
  {
    EuclidParts(a, b);
    var q, r := a / b, a % b;
    MulSign(k, r);
    MulBound(k, b);
    MulBound(k, b - r);
    assert k * (b - r) == k * b - k * r;
    Scaled(k, a, b, q, r);
    UniqueRest(k * a, k * b, q, k * r);
  }

  lemma Scaled(k: int, a: int, b: int, q: int, r: int)
    requires a == b * q + r
    ensures k * a == (k * b) * q + k * r
  {
  }

  lemma {:induction false} GcdScale(k: nat, a: nat, b: nat)
    requires k > 0
    ensures Gcd(k * a, k * b) == k * Gcd(a, b)
    decreases b
  {
    if b == 0 {
      assert k * b == 0;
    } else {
      ScaleMod(k, a, b);
      GcdScale(k, b, a % b);
    }
  }

  /** Divided by their greatest common divisor, two numbers have none but 1. */
  lemma GcdReduces(a: nat, b: nat, g: nat)
    requires a + b > 0 && g == Gcd(a, b)
    ensures g > 0 && a == g * (a / g) && b == g * (b / g) && Gcd(a / g, b / g) == 1
  {
    hide Gcd;
    GcdDivides(a, b);
    Quotient(a, g);
    Quotient(b, g);
    GcdScale(g, a / g, b / g);
    OneFactor(g, Gcd(a / g, b / g));
  }

  lemma OneFactor(g: nat, h: int)
    requires g > 0 && g * h == g
    ensures h == 1
  {
    assert g * (h - 1) == g * h - g;
    MulBound(g, h - 1);
  }

  lemma Quotient(a: nat, g: nat)
    requires g > 0 && Divides(g, a)
    ensures a == g * (a / g)
  {
    var j: int :| a == g * j;
    UniqueRest(a, g, j, 0);
  }

  // ----- Rationals -----

  /** A fraction whose denominator is positive. */
  datatype Q = Q(num: int, den: int)

  predicate Proper(q: Q)
  {
    q.den > 0
  }

  /** The two fractions are the same number. */
  predicate Same(p: Q, q: Q)
  {
    p.num * q.den == q.num * p.den
  }

  predicate Lowest(q: Q)
  {
    q.den > 0 && Gcd(Abs(q.num), q.den) == 1
  }

  function Plus(p: Q, q: Q): Q { Q(p.num * q.den + q.num * p.den, p.den * q.den) }
  function Minus(p: Q, q: Q): Q { Q(p.num * q.den - q.num * p.den, p.den * q.den) }
  function Times(p: Q, q: Q): Q { Q(p.num * q.num, p.den * q.den) }

  /** p / q, with a positive denominator. */
  function Over(p: Q, q: Q): Q
    requires q.num != 0
  {
    if q.num > 0 then Q(p.num * q.den, p.den * q.num) else Q(-(p.num * q.den), p.den * -q.num)
  }

  /** mpq_canonicalize of a fraction with a positive denominator. */
  function Reduce(q: Q): (r: Q)
    requires q.den > 0
  {
    var g := Gcd(Abs(q.num), q.den);
    Q(if q.num < 0 then -(-q.num / g) else q.num / g, q.den / g)
  }

  lemma ReduceMeans(q: Q)
    requires q.den > 0
    ensures Lowest(Reduce(q)) && Same(Reduce(q), q)
    ensures Reduce(q).num == 0 <==> q.num == 0
  {
    hide Gcd;
    var a, b := Abs(q.num), q.den;
    var g := Gcd(a, b);
    GcdReduces(a, b, g);
    var m, d := a / g, b / g;
    PositiveFactor(g, d);
    Crossed(g, m, d);
    Negate(m, b);
    Negate(a, d);
    ZeroFactor(g, m);
  }

  lemma PositiveFactor(g: int, d: int)
    requires g > 0 && g * d > 0
    ensures d > 0
  {
    if d < 0 { MulBound(g, d); }
  }

  lemma ZeroFactor(g: int, m: int)
    requires g > 0
    ensures g * m == 0 <==> m == 0
  {
    if m != 0 { MulBound(g, m); }
  }

  lemma Crossed(g: int, m: int, d: int)
    ensures m * (g * d) == (g * m) * d
  {
  }

  // ----- Lowest terms are unique -----

  lemma {:induction false} CommonDivides(d: nat, a: nat, b: nat)
    requires d > 0 && Divides(d, a) && Divides(d, b)
    ensures Divides(d, Gcd(a, b))
    decreases b
  {
    if b > 0 {
      var j: int :| a == d * j;
      var k: int :| b == d * k;
      EuclidParts(a, b);
      var q := a / b;
      assert a % b == d * (j - k * q) by { Regroup(d, j, k, q); }
      CommonDivides(d, b, a % b);
    }
  }

  lemma Regroup(d: int, j: int, k: int, q: int)
    ensures d * j - (d * k) * q == d * (j - k * q)
  {
  }

  lemma DividesLess(d: nat, n: nat)
    requires d > 0 && n > 0 && Divides(d, n)
    ensures d <= n
  {
    var k: int :| n == d * k;
    if k <= 0 { MulBound(d, k); } else { MulBound(d, k); }
  }

  lemma Commute(a: int, b: int)
    ensures a * b == b * a
  {
  }

  lemma Witness(d: int, n: int, k: int)
    requires n == d * k
    ensures Divides(d, n)
  {
  }

  /** If n1/d1 == n2/d2 and the first is in lowest terms, d1 divides d2. */
  lemma DenominatorDivides(n1: nat, d1: nat, n2: nat, d2: nat)
    requires d1 > 0 && d2 > 0 && Gcd(n1, d1) == 1 && n1 * d2 == n2 * d1
    ensures d1 <= d2
  {
    hide Gcd, Divides;
    GcdScale(d2, n1, d1);
    var m, k := d2 * n1, d2 * d1;
    MulSign(d2, n1);
    MulSign(d2, d1);
    Commute(d1, n2);
    Commute(d1, d2);
    Commute(n1, d2);
    Witness(d1, m, n2);
    Witness(d1, k, d2);
    CommonDivides(d1, m, k);
    DividesLess(d1, d2);
  }

  /** A number has one fraction in lowest terms. */
  lemma LowestUnique(p: Q, q: Q)
    requires Lowest(p) && Lowest(q) && Same(p, q)
    ensures p == q
  {
    hide Gcd;
    AbsTimes(p.num, q.den);
    AbsTimes(q.num, p.den);
    DenominatorDivides(Abs(p.num), p.den, Abs(q.num), q.den);
    DenominatorDivides(Abs(q.num), q.den, Abs(p.num), p.den);
    assert (p.num - q.num) * p.den == 0;
    if p.num != q.num { MulBound(p.den, p.num - q.num); }
  }

  lemma AbsTimes(a: int, b: int)
    requires b > 0
    ensures Abs(a * b) == Abs(a) * b
  {
    if a >= 0 { MulSign(b, a); } else { MulSign(b, -a); assert a * b == -(-a * b); }
  }

  // ----- Comparing sizes -----

  /** |p| < |q| */
  predicate Smaller(p: Q, q: Q)
  {
    Abs(p.num) * q.den < Abs(q.num) * p.den
  }

  predicate SameSign(a: int, b: int)
  {
    (a > 0 <==> b > 0) && (a < 0 <==> b < 0)
  }

  lemma SameSigns(p: Q, q: Q)
    requires p.den > 0 && q.den > 0 && Same(p, q)
    ensures SameSign(p.num, q.num)
  {
    SignTimes(p.num, q.den);
    SignTimes(q.num, p.den);
  }

  lemma SignTimes(a: int, b: int)
    requires b > 0
    ensures SameSign(a * b, a)
  {
    MulBound(b, a);
  }

  lemma SmallerSame(p: Q, p': Q, q: Q)
    requires p.den > 0 && p'.den > 0 && q.den > 0 && Same(p, p') && Smaller(p', q)
    ensures Smaller(p, q)
  {
    AbsTimes(p.num, p'.den);
    AbsTimes(p'.num, p.den);
    var a, b, c, d, e, f := Abs(p.num), p.den, Abs(p'.num), p'.den, Abs(q.num), q.den;
    assert a * d == c * b;
    LessTimes(c * f, e * d, b);
    Shuffle(a, b, c, d, e, f);
    LessCancel(a * f, e * b, d);
  }

  lemma Shuffle(a: int, b: int, c: int, d: int, e: int, f: int)
    requires a * d == c * b
    ensures (c * f) * b == (a * f) * d && (e * d) * b == (e * b) * d
  {
    assert (c * f) * b == (c * b) * f;
    assert (a * f) * d == (a * d) * f;
  }

  lemma LessTimes(x: int, y: int, k: int)
    requires k > 0 && x < y
    ensures x * k < y * k
  {
    MulBound(k, y - x);
    assert (y - x) * k == y * k - x * k;
  }

  lemma LessCancel(x: int, y: int, k: int)
    requires k > 0 && x * k < y * k
    ensures x < y
  {
    if y < x { LessTimes(y, x, k); }
  }
}
