/** Exact arithmetic on tagged small integers, big integers and rationals. */
module NumberTower {
  import opened NumberTheory

  const FIX_MAX: int := 0x1fff_ffff_ffff_ffff
  const FIX_MIN: int := -0x2000_0000_0000_0000
  const WORD_MAX: int := 0x7fff_ffff_ffff_ffff
  const WORD_MIN: int := -0x8000_0000_0000_0000

  datatype Kind = Small | Bignum | Rational

  /** A number that is not a tagged word. */
  class Cell {
    var kind: Kind
    var z: int                // of a big integer
    var q: Q                  // of a rational

    constructor (kind: Kind, z: int, q: Q)
      ensures this.kind == kind && this.z == z && this.q == q
    {
      this.kind, this.z, this.q := kind, z, q;
    }
  }

  datatype Number = Fix(n: int) | Heap(cell: Cell)

  datatype Result = Ok(v: Number) | DivideByZero

  function Cells(v: Number): set<Cell>
  {
    if v.Heap? then {v.cell} else {}
  }

  function KindOf(v: Number): Kind
    reads Cells(v)
  {
    if v.Fix? then Small else v.cell.kind
  }

  function Rank(k: Kind): nat
  {
    match k case Small => 0 case Bignum => 1 case Rational => 2
  }

  /** The number as a fraction. */
  ghost function Exact(v: Number): Q
    reads Cells(v)
  {
    match v
    case Fix(n) => Q(n, 1)
    case Heap(c) => if c.kind.Rational? then c.q else Q(c.z, 1)
  }

  predicate InRange(n: int)
  {
    FIX_MIN <= n <= FIX_MAX
  }

  /** What arithmetic works on: tagged integers in range, and rationals in lowest terms. */
  ghost predicate Valid(v: Number)
    reads Cells(v)
  {
    match v
    case Fix(n) => InRange(n)
    case Heap(c) => !c.kind.Small? && (c.kind.Rational? ==> Lowest(c.q))
  }

  /** The smallest representation: a big integer only out of the tagged range, a rational only when it
      is not an integer. */
  ghost predicate Smallest(v: Number)
    reads Cells(v)
  {
    Valid(v) && match v
      case Fix(_) => true
      case Heap(c) => if c.kind.Bignum? then !InRange(c.z) else c.q.den != 1
  }

  lemma IntegerIsLowest(n: int)
    ensures Lowest(Q(n, 1))
  {
    assert Gcd(Abs(n), 1) == Gcd(1, Abs(n) % 1) == Gcd(1, 0) == 1;
  }

  // ----- Making and converting numbers -----

  /** rep_make_long_int */
  method MakeLongInt(n: int) returns (v: Number)
    ensures fresh(Cells(v)) && Smallest(v) && Exact(v) == Q(n, 1)
  {
    if InRange(n) { return Fix(n); }
    var c := new Cell(Bignum, n, Q(0, 1));
    return Heap(c);
  }

  /** promote_to */
  method PromoteTo(v: Number, kind: Kind) returns (out: Number)
    requires Valid(v)
    ensures Rank(KindOf(v)) >= Rank(kind) ==> out == v
    ensures Rank(KindOf(v)) < Rank(kind) ==> fresh(Cells(out)) && out.Heap? && KindOf(out) == kind
    ensures Valid(out) && Exact(out) == Exact(v)
  {
    if Rank(KindOf(v)) >= Rank(kind) { return v; }
    var n := if v.Fix? then v.n else v.cell.z;
    IntegerIsLowest(n);
    var c := new Cell(kind, n, Q(n, 1));
    return Heap(c);
  }

  /** copy_number */
  method CopyNumber(v: Number) returns (out: Number)
    requires Valid(v)
    ensures if v.Fix? then out == v else out.Heap? && fresh(out.cell)
    ensures Valid(out) && Exact(out) == Exact(v) && KindOf(out) == KindOf(v)
  {
    if v.Fix? { return v; }
    var c := new Cell(v.cell.kind, v.cell.z, v.cell.q);
    return Heap(c);
  }

  /** promote_dup__: both operands in the larger of their kinds, and a number of that kind to hold the
      result.  When one operand had to be converted, the result cell is the converted operand itself. */
  method PromoteDup(x: Number, y: Number) returns (x': Number, y': Number, out: Number)
    requires Valid(x) && Valid(y)
    ensures Valid(x') && Valid(y') && Valid(out) && Exact(x') == Exact(x) && Exact(y') == Exact(y)
    ensures KindOf(x') == KindOf(y') == KindOf(out) ==
      if Rank(KindOf(x)) >= Rank(KindOf(y)) then KindOf(x) else KindOf(y)
    ensures KindOf(x) == KindOf(y) ==> x' == x && y' == y
    ensures Rank(KindOf(x)) > Rank(KindOf(y)) ==> x' == x && y' == out
    ensures Rank(KindOf(x)) < Rank(KindOf(y)) ==> x' == out && y' == y
    ensures out.Heap? ==> fresh(out.cell)
  {
    x', y' := x, y;
    if Rank(KindOf(x)) > Rank(KindOf(y)) {
      out := PromoteTo(y, KindOf(x));
      y' := out;
    } else if Rank(KindOf(x)) < Rank(KindOf(y)) {
      out := PromoteTo(x, KindOf(y));
      x' := out;
    } else {
      out := CopyNumber(x);
    }
  }

  /** maybe_demote */
  method MaybeDemote(v: Number) returns (out: Number)
    requires v.Heap? && Valid(v)
    ensures Smallest(out) && Same(Exact(out), Exact(v)) && (out == v || out.Fix? || fresh(out.cell))
    ensures v.cell.kind.Bignum? ==> Exact(out) == Exact(v)
  {
    out := v;
    if v.cell.kind.Rational? {
      if v.cell.q.den != 1 { return; }
      var c := new Cell(Bignum, v.cell.q.num, Q(0, 1));
      out := Heap(c);
    }
    if InRange(out.cell.z) { out := Fix(out.cell.z); }
  }

  // ----- Results as GMP computes them -----

  /** A rational result, in lowest terms. */
  method SetRational(c: Cell, q: Q)
    requires q.den > 0 && c.kind.Rational?
    modifies c`q
    ensures c.q == Reduce(q) && Lowest(c.q) && Same(c.q, q)
  {
    ReduceMeans(q);
    c.q := Reduce(q);
  }

  lemma SameTrans(p: Q, q: Q, r: Q)
    requires p.den > 0 && q.den > 0 && r.den > 0 && Same(p, q) && Same(q, r)
    ensures Same(p, r)
  {
    var a, b, c, d, e, f := p.num, p.den, q.num, q.den, r.num, r.den;
    assert (a * f) * d == (a * d) * f == (c * b) * f == (c * f) * b == (e * d) * b == (e * b) * d;
    Cancel(d, a * f, e * b);
  }

  lemma Cancel(d: int, x: int, y: int)
    requires d > 0 && x * d == y * d
    ensures x == y
  {
    assert (x - y) * d == 0;
    if x != y { MulBound(d, x - y); }
  }

  lemma ProductPositive(a: int, b: int)
    requires a > 0 && b > 0
    ensures a * b > 0
  {
    MulBound(a, b);
  }

  // ----- Addition -----

  /** rep_number_add__ */
  method AddSlow(x: Number, y: Number) returns (r: Number)
    requires Valid(x) && Valid(y)
    ensures Smallest(r) && Same(Exact(r), Plus(Exact(x), Exact(y))) && fresh(Cells(r))
  {
    hide Gcd, Reduce;
    var a, b, out := PromoteDup(x, y);
    match KindOf(out) {
      case Small =>
        r := MakeLongInt(a.n + b.n);
      case Bignum =>
        out.cell.z := a.cell.z + b.cell.z;
        r := MaybeDemote(out);
      case Rational =>
        var q := Plus(a.cell.q, b.cell.q);
        ProductPositive(a.cell.q.den, b.cell.q.den);
        SetRational(out.cell, q);
        r := MaybeDemote(out);
        LowestPositive(r);
        SameTrans(Exact(r), out.cell.q, q);
    }
  }

  lemma LowestPositive(v: Number)
    requires Valid(v)
    ensures Exact(v).den > 0
  {
  }

  /** Signed 64-bit addition, with the overflow flag of the builtin. */
  method Overflows(z: int) returns (over: bool)
    ensures over <==> !(WORD_MIN <= z <= WORD_MAX)
  {
    return z < WORD_MIN || z > WORD_MAX;
  }

  /** The tagged word of a small integer. */
  function Word(n: int): int
  {
    4 * n + 2
  }

  /** A word fits exactly when the integer it stands for is in range. */
  lemma WordFits(n: int)
    ensures WORD_MIN <= Word(n) <= WORD_MAX <==> InRange(n)
  {
  }

  /** rep_number_add: the sum of the tagged words is the tagged sum, and overflows exactly when the sum
      leaves the small integers. */
  method Add(x: Number, y: Number) returns (r: Number)
    requires Valid(x) && Valid(y)
    ensures Smallest(r) && Same(Exact(r), Plus(Exact(x), Exact(y))) && fresh(Cells(r))
    ensures x.Fix? && y.Fix? ==> (r.Fix? <==> InRange(x.n + y.n))
  {
    if x.Fix? && y.Fix? {
      var z := Word(x.n) + (Word(y.n) - 2);
      WordFits(x.n + y.n);
      var over := Overflows(z);
      if !over { return Fix((z - 2) / 4); }
    }
    r := AddSlow(x, y);
  }

  // ----- Subtraction -----

  /** rep_number_sub__ */
  method SubSlow(x: Number, y: Number) returns (r: Number)
    requires Valid(x) && Valid(y)
    ensures Smallest(r) && Same(Exact(r), Minus(Exact(x), Exact(y))) && fresh(Cells(r))
  {
    hide Gcd, Reduce;
    var a, b, out := PromoteDup(x, y);
    match KindOf(out) {
      case Small =>
        r := MakeLongInt(a.n - b.n);
      case Bignum =>
        out.cell.z := a.cell.z - b.cell.z;
        r := MaybeDemote(out);
      case Rational =>
        var q := Minus(a.cell.q, b.cell.q);
        ProductPositive(a.cell.q.den, b.cell.q.den);
        SetRational(out.cell, q);
        r := MaybeDemote(out);
        LowestPositive(r);
        SameTrans(Exact(r), out.cell.q, q);
    }
  }

  /** rep_number_sub */
  method Sub(x: Number, y: Number) returns (r: Number)
    requires Valid(x) && Valid(y)
    ensures Smallest(r) && Same(Exact(r), Minus(Exact(x), Exact(y))) && fresh(Cells(r))
    ensures x.Fix? && y.Fix? ==> (r.Fix? <==> InRange(x.n - y.n))
  {
    if x.Fix? && y.Fix? {
      var z := Word(x.n) - (Word(y.n) - 2);
      WordFits(x.n - y.n);
      var over := Overflows(z);
      if !over { return Fix((z - 2) / 4); }
    }
    r := SubSlow(x, y);
  }

  // ----- Multiplication -----

  /** rep_number_mul__ */
  method MulSlow(x: Number, y: Number) returns (r: Number)
    requires Valid(x) && Valid(y)
    ensures Smallest(r) && Same(Exact(r), Times(Exact(x), Exact(y))) && fresh(Cells(r))
  {
    hide Gcd, Reduce;
    var a, b, out := PromoteDup(x, y);
    match KindOf(out) {
      case Small =>
        var c := new Cell(Bignum, a.n * b.n, Q(0, 1));
        r := MaybeDemote(Heap(c));
      case Bignum =>
        out.cell.z := a.cell.z * b.cell.z;
        r := MaybeDemote(out);
      case Rational =>
        var q := Times(a.cell.q, b.cell.q);
        ProductPositive(a.cell.q.den, b.cell.q.den);
        SetRational(out.cell, q);
        r := MaybeDemote(out);
        LowestPositive(r);
        SameTrans(Exact(r), out.cell.q, q);
    }
  }

  /** rep_number_mul */
  method Mul(x: Number, y: Number) returns (r: Number)
    requires Valid(x) && Valid(y)
    ensures Smallest(r) && Same(Exact(r), Times(Exact(x), Exact(y))) && fresh(Cells(r))
    ensures x.Fix? && y.Fix? ==> (r.Fix? <==> InRange(x.n * y.n))
  {
    if x.Fix? && y.Fix? {
      var p := x.n * y.n;
      var z := (Word(x.n) - 2) * y.n;
      assert z == 4 * p;
      WordFits(p);
      var over := Overflows(z);
      if !over {
        over := Overflows(z + 2);
        if !over { return Fix(p); }
      }
    }
    r := MulSlow(x, y);
  }

  /** Equal numbers have equal smallest representations. */
  lemma SmallestUnique(v: Number, w: Number)
    requires Smallest(v) && Smallest(w) && Same(Exact(v), Exact(w))
    ensures KindOf(v) == KindOf(w) && Exact(v) == Exact(w)
  {
    hide Gcd;
    if KindOf(v).Rational? && KindOf(w).Rational? {
      LowestUnique(Exact(v), Exact(w));
    } else if KindOf(v).Rational? {
      IntegerIsLowest(Exact(w).num);
      LowestUnique(Exact(v), Exact(w));
    } else if KindOf(w).Rational? {
      IntegerIsLowest(Exact(v).num);
      LowestUnique(Exact(v), Exact(w));
    }
  }

  // ----- Division -----

  ghost predicate Zero(v: Number)
    reads Cells(v)
  {
    Exact(v).num == 0
  }

  method IsZero(v: Number) returns (zero: bool)
    requires Valid(v)
    ensures zero <==> Zero(v)
  {
    if v.Fix? { return v.n == 0; }
    return if v.cell.kind.Rational? then v.cell.q.num == 0 else v.cell.z == 0;
  }

  /** rep_MAKE_INT of any 62-bit or larger integer: the bits that do not fit are lost. */
  function MakeInt(n: int): (v: Number)
    ensures v.Fix? && InRange(v.n) && (InRange(n) ==> v.n == n)
  {
    Fix((n - FIX_MIN) % (FIX_MAX - FIX_MIN + 1) + FIX_MIN)
  }

  /** The one division whose quotient is a small integer out of range. */
  predicate Wraps(x: Number, y: Number)
  {
    x == Fix(FIX_MIN) && y == Fix(-1)
  }

  lemma QuotientInRange(a: int, b: int)
    requires InRange(a) && b != 0
    ensures InRange(TruncDiv(a, b)) <==> !(a == FIX_MIN && b == -1)
  {
    var p, q := Abs(a), Abs(b);
    EuclidParts(p, q);
    if q >= 2 { HalfAtMost(p, q); }
  }

  lemma HalfAtMost(p: nat, q: nat)
    requires q >= 2
    ensures 2 * (p / q) <= p
  {
    EuclidParts(p, q);
    MulSign(q - 2, p / q);
    assert (q - 2) * (p / q) == q * (p / q) - 2 * (p / q);
  }

  /** An exact quotient, as a fraction. */
  lemma ExactQuotient(a: int, b: int)
    requires b != 0 && TruncMod(a, b) == 0
    ensures Same(Q(TruncDiv(a, b), 1), Over(Q(a, 1), Q(b, 1)))
  {
    var d := TruncDiv(a, b);
    assert a == b * d;
    Negate(b, d);
  }

  /** rep_number_div: exact and as small as possible, but for the one quotient that wraps around. */
  method Div(x: Number, y: Number) returns (r: Result)
    requires Valid(x) && Valid(y)
    ensures r.DivideByZero? <==> Zero(y)
    ensures r.Ok? ==> Smallest(r.v) && fresh(Cells(r.v))
    ensures r.Ok? ==> (Same(Exact(r.v), Over(Exact(x), Exact(y))) <==> !Wraps(x, y))
  {
    hide Gcd, Reduce, TruncDiv, TruncMod, Over;
    var zero := IsZero(y);
    if zero { return DivideByZero; }
    var v;
    var a, b, out := PromoteDup(x, y);
    match KindOf(out) {
      case Small =>
        v := DivSmall(a.n, b.n);
      case Bignum =>
        v := DivBig(a.cell, b.cell, out);
      case Rational =>
        var q := Over(a.cell.q, b.cell.q);
        OverPositive(a.cell.q, b.cell.q);
        SetRational(out.cell, q);
        v := MaybeDemote(out);
        LowestPositive(v);
        SameTrans(Exact(v), out.cell.q, q);
    }
    return Ok(v);
  }

  lemma OverPositive(p: Q, q: Q)
    requires p.den > 0 && q.num != 0
    ensures Over(p, q).den > 0
  {
    if q.num > 0 { ProductPositive(p.den, q.num); } else { ProductPositive(p.den, -q.num); }
  }

  method DivSmall(a: int, b: int) returns (v: Number)
    requires InRange(a) && InRange(b) && b != 0
    ensures Smallest(v) && fresh(Cells(v))
    ensures Same(Exact(v), Over(Q(a, 1), Q(b, 1))) <==> !(a == FIX_MIN && b == -1)
  {
    hide Gcd, Reduce, TruncDiv, TruncMod, Over, Lowest;
    if a == FIX_MIN && b == -1 { WrappedQuotient(); }
    if TruncMod(a, b) == 0 {
      ExactQuotient(a, b);
      QuotientInRange(a, b);
      v := MakeInt(TruncDiv(a, b));
    } else {
      var uy := if b < 0 then -b else b;
      var c := new Cell(Rational, 0, Q(a, uy));
      SetRational(c, Q(a, uy));
      ghost var positive := c.q;
      if b < 0 {
        NegateLowest(c.q);
        c.q := Q(-c.q.num, c.q.den);
      }
      v := Heap(c);
      NotWhole(a, b, uy, positive);
      assert Same(c.q, Over(Q(a, 1), Q(b, 1))) by { QuotientSame(a, b, uy, positive); }
    }
  }

  lemma WrappedQuotient()
    ensures TruncMod(FIX_MIN, -1) == 0 && MakeInt(TruncDiv(FIX_MIN, -1)) == Fix(FIX_MIN)
    ensures !Same(Q(FIX_MIN, 1), Over(Q(FIX_MIN, 1), Q(-1, 1)))
  {
  }

  lemma NegateLowest(q: Q)
    requires Lowest(q)
    ensures Lowest(Q(-q.num, q.den))
  {
    hide Gcd;
  }

  /** A quotient with a remainder is not an integer. */
  lemma NotWhole(a: int, b: int, uy: int, q: Q)
    requires b != 0 && TruncMod(a, b) != 0 && uy == Abs(b) && Lowest(q) && Same(q, Q(a, uy))
    ensures q.den != 1
  {
    hide Gcd;
    if q.den == 1 {
      var k := q.num;
      assert a == uy * k;
      WholeQuotient(a, b, uy, k);
    }
  }

  lemma WholeQuotient(a: int, b: int, uy: int, k: int)
    requires b != 0 && uy == Abs(b) && a == uy * k
    ensures TruncMod(a, b) == 0
  {
    TruncModMeans(a, b);
    var d, t := TruncDiv(a, b), TruncMod(a, b);
    var e := if b > 0 then k - d else -k - d;
    Rest(a, b, uy, k, d, t, e);
    hide TruncDiv, TruncMod;
    if e != 0 { AtLeast(b, e); }
  }

  lemma Rest(a: int, b: int, uy: int, k: int, d: int, t: int, e: int)
    requires uy == Abs(b) && a == uy * k && t == a - b * d && e == if b > 0 then k - d else -k - d
    ensures t == b * e
  {
    Negate(b, k);
  }

  lemma AtLeast(b: int, e: int)
    requires b != 0 && e != 0
    ensures Abs(b * e) >= Abs(b)
  {
    MulBound(Abs(b), e);
    Negate(Abs(b), e);
  }

  lemma QuotientSame(a: int, b: int, uy: int, q: Q)
    requires b != 0 && uy == Abs(b) && q.den > 0 && Same(q, Q(a, uy))
    ensures Same(Q(if b < 0 then -q.num else q.num, q.den), Over(Q(a, 1), Q(b, 1)))
  {
    Negate(q.num, uy);
    Negate(a, q.den);
  }

  method DivBig(a: Cell, b: Cell, out: Number) returns (v: Number)
    requires a.kind.Bignum? && b.kind.Bignum? && b.z != 0 && out.Heap? && out.cell.kind.Bignum?
    modifies out.cell
    ensures Smallest(v) && (v.Heap? ==> v == out || fresh(v.cell))
    ensures Same(Exact(v), old(Over(Q(a.z, 1), Q(b.z, 1))))
  {
    hide Gcd, Reduce, TruncDiv, TruncMod, Over;
    var x, y := a.z, b.z;
    if TruncMod(x, y) == 0 {
      ExactQuotient(x, y);
      out.cell.z := TruncDiv(x, y);
      v := MaybeDemote(out);
    } else {
      var q := Over(Q(x, 1), Q(y, 1));
      OverPositive(Q(x, 1), Q(y, 1));
      var c := new Cell(Rational, 0, q);
      SetRational(c, q);
      v := Heap(c);
      NotWholeOver(x, y, c.q);
    }
  }

  lemma NotWholeOver(a: int, b: int, q: Q)
    requires b != 0 && TruncMod(a, b) != 0 && Lowest(q) && Same(q, Over(Q(a, 1), Q(b, 1)))
    ensures q.den != 1
  {
    hide Gcd;
    if q.den == 1 {
      var k := if b > 0 then q.num else -q.num;
      Negate(q.num, Abs(b));
      assert a == Abs(b) * k;
      WholeQuotient(a, b, Abs(b), k);
    }
  }
}
