/** Remainder and modulo on exact numbers of any kind. */
module NumberModulo {
  import opened NumberTheory
  import opened NumberTower

  // ----- What the two operations promise -----

  function Truncate(q: Q): int
    requires q.den > 0
  {
    TruncDiv(q.num, q.den)
  }

  function Floor(q: Q): int
    requires q.den > 0
  {
    FloorDiv(q.num, q.den)
  }

  /** X - Y * truncate(X / Y) */
  ghost function RemainderOf(x: Q, y: Q): Q
    requires x.den > 0 && y.den > 0 && y.num != 0
  {
    OverPositive(x, y);
    Minus(x, Times(y, Q(Truncate(Over(x, y)), 1)))
  }

  /** X - Y * floor(X / Y) */
  ghost function ModuloOf(x: Q, y: Q): Q
    requires x.den > 0 && y.den > 0 && y.num != 0
  {
    OverPositive(x, y);
    Minus(x, Times(y, Q(Floor(Over(x, y)), 1)))
  }

  /** The truncation and floor defined here are the integers next to the fraction. */
  lemma FloorMeans(q: Q)
    requires q.den > 0
    ensures Floor(q) * q.den <= q.num < (Floor(q) + 1) * q.den
    ensures Truncate(q) == if q.num >= 0 then Floor(q) else -Floor(Q(-q.num, q.den))
  {
    hide TruncDiv, TruncMod, FloorDiv;
    FloorParts(q.num, q.den);
    TruncOfSigns(q.num, q.den);
  }

  lemma FloorParts(a: int, b: int)
    requires b > 0
    ensures FloorDiv(a, b) * b <= a < (FloorDiv(a, b) + 1) * b
  {
    FloorModMeans(a, b);
    hide FloorDiv;
    Commute(FloorDiv(a, b), b);
    assert (FloorDiv(a, b) + 1) * b == FloorDiv(a, b) * b + b;
  }

  lemma TruncOfSigns(a: int, b: int)
    requires b > 0
    ensures TruncDiv(a, b) == if a >= 0 then FloorDiv(a, b) else -FloorDiv(-a, b)
  {
    TruncModMeans(a, b);
    TruncModMeans(-a, b);
    hide TruncMod;
  }

  lemma NegateBoth(a: int, b: int)
    requires b != 0
    ensures TruncDiv(-a, -b) == TruncDiv(a, b) && FloorDiv(-a, -b) == FloorDiv(a, b)
  {
    NegateTrunc(a, b);
    NegateRest(a, b);
    hide TruncDiv, TruncMod;
  }

  lemma NegateTrunc(a: int, b: int)
    requires b != 0
    ensures TruncDiv(-a, -b) == TruncDiv(a, b)
  {
  }

  lemma NegateRest(a: int, b: int)
    requires b != 0
    ensures TruncMod(-a, -b) == -TruncMod(a, b)
  {
    NegateTrunc(a, b);
    Negate(b, TruncDiv(a, b));
    hide TruncDiv;
  }

  /** What the code computes for two fractions: with a = d2 * n1 and b = d1 * n2, the fraction
      (a - t * b) / (d1 * d2). */
  function RestOver(x: Q, y: Q, t: int): Q
  {
    Q(y.den * x.num - t * (x.den * y.num), x.den * y.den)
  }

  lemma RestIsMinus(x: Q, y: Q, t: int)
    ensures RestOver(x, y, t) == Minus(x, Times(y, Q(t, 1)))
  {
    assert x.num * y.den == y.den * x.num;
    assert (y.num * t) * x.den == t * (x.den * y.num);
  }

  /** The quotient of the cross products is the truncation and the floor of X / Y. */
  lemma CrossQuotient(x: Q, y: Q)
    requires x.den > 0 && y.den > 0 && y.num != 0
    ensures x.den * y.num != 0 && Over(x, y).den > 0
    ensures TruncDiv(y.den * x.num, x.den * y.num) == Truncate(Over(x, y))
    ensures FloorDiv(y.den * x.num, x.den * y.num) == Floor(Over(x, y))
  {
    hide TruncDiv, TruncMod, FloorDiv;
    OverPositive(x, y);
    SignTimes(y.num, x.den);
    Commute(x.num, y.den);
    Negate(y.num, x.den);
    NegateBoth(y.den * x.num, x.den * y.num);
  }

  lemma CodeRemainder(x: Q, y: Q)
    requires x.den > 0 && y.den > 0 && y.num != 0
    ensures x.den * y.num != 0
    ensures RestOver(x, y, TruncDiv(y.den * x.num, x.den * y.num)) == RemainderOf(x, y)
  {
    hide TruncDiv, TruncMod, FloorDiv, RestOver;
    CrossQuotient(x, y);
    RestIsMinus(x, y, Truncate(Over(x, y)));
  }

  lemma CodeModulo(x: Q, y: Q)
    requires x.den > 0 && y.den > 0 && y.num != 0
    ensures x.den * y.num != 0
    ensures RestOver(x, y, FloorDiv(y.den * x.num, x.den * y.num)) == ModuloOf(x, y)
  {
    hide TruncDiv, TruncMod, FloorDiv, RestOver;
    CrossQuotient(x, y);
    RestIsMinus(x, y, Floor(Over(x, y)));
  }

  /** The remainder is smaller than the divisor and has the sign of the dividend. */
  lemma RemainderMeans(x: Q, y: Q)
    requires x.den > 0 && y.den > 0 && y.num != 0
    ensures RemainderOf(x, y).den > 0 && Smaller(RemainderOf(x, y), y)
    ensures RemainderOf(x, y).num == 0 || SameSign(RemainderOf(x, y).num, x.num)
  {
    hide TruncDiv, FloorDiv, RemainderOf, Smaller;
    CodeRemainder(x, y);
    ProductPositive(x.den, y.den);
    var a, b := y.den * x.num, x.den * y.num;
    TruncModMeans(a, b);
    SignTimes(x.num, y.den);
    SmallRest(x, y, RemainderOf(x, y).num);
  }

  lemma SmallRest(x: Q, y: Q, r: int)
    requires x.den > 0 && y.den > 0 && Abs(r) < Abs(x.den * y.num)
    ensures Smaller(Q(r, x.den * y.den), y)
  {
    AbsTimes(y.num, x.den);
    LessTimes(Abs(r), Abs(y.num) * x.den, y.den);
    assert Abs(y.num) * x.den * y.den == Abs(y.num) * (x.den * y.den);
  }

  /** The modulus is smaller than the divisor and has its sign. */
  lemma ModuloMeans(x: Q, y: Q)
    requires x.den > 0 && y.den > 0 && y.num != 0
    ensures ModuloOf(x, y).den > 0 && Smaller(ModuloOf(x, y), y)
    ensures ModuloOf(x, y).num == 0 || SameSign(ModuloOf(x, y).num, y.num)
  {
    hide TruncDiv, TruncMod, FloorDiv, ModuloOf, Smaller;
    CodeModulo(x, y);
    ProductPositive(x.den, y.den);
    var a, b := y.den * x.num, x.den * y.num;
    FloorModMeans(a, b);
    SignTimes(y.num, x.den);
    SmallRest(x, y, ModuloOf(x, y).num);
  }

  /** On integers the two are the remainders of the C operators. */
  lemma OnIntegers(a: int, b: int)
    requires b != 0
    ensures RemainderOf(Q(a, 1), Q(b, 1)) == Q(TruncMod(a, b), 1)
    ensures ModuloOf(Q(a, 1), Q(b, 1)) == Q(FloorMod(a, b), 1)
  {
    hide TruncDiv, FloorDiv;
    CodeRemainder(Q(a, 1), Q(b, 1));
    CodeModulo(Q(a, 1), Q(b, 1));
    Commute(TruncDiv(a, b), b);
    Commute(FloorDiv(a, b), b);
  }

  // ----- Remainder -----

  lemma RestInRange(a: int, b: int)
    requires b != 0 && InRange(b)
    ensures InRange(TruncMod(a, b)) && InRange(FloorMod(a, b))
  {
    TruncModMeans(a, b);
    FloorModMeans(a, b);
    hide TruncMod, FloorMod;
  }

  lemma SameSelf(q: Q)
    ensures Same(q, q)
  {
  }

  lemma RemainderResult(r: Q, x: Q, y: Q)
    requires r.den > 0 && x.den > 0 && y.den > 0 && y.num != 0 && Same(r, RemainderOf(x, y))
    ensures Smaller(r, y) && (r.num == 0 || SameSign(r.num, x.num))
  {
    hide RemainderOf, Smaller, Same;
    RemainderMeans(x, y);
    SmallerSame(r, RemainderOf(x, y), y);
    SameSigns(r, RemainderOf(x, y));
  }

  lemma ModuloResult(r: Q, x: Q, y: Q)
    requires r.den > 0 && x.den > 0 && y.den > 0 && y.num != 0 && Same(r, ModuloOf(x, y))
    ensures Smaller(r, y) && (r.num == 0 || SameSign(r.num, y.num))
  {
    hide ModuloOf, Smaller, Same;
    ModuloMeans(x, y);
    SmallerSame(r, ModuloOf(x, y), y);
    SameSigns(r, ModuloOf(x, y));
  }

  /** Fremainder */
  method Remainder(x: Number, y: Number) returns (r: Result)
    requires Valid(x) && Valid(y)
    ensures r.DivideByZero? <==> Zero(y)
    ensures r.Ok? ==> Smallest(r.v) && fresh(Cells(r.v))
    ensures r.Ok? ==> Exact(x).den > 0 && Exact(y).den > 0
    ensures r.Ok? ==> Same(Exact(r.v), RemainderOf(Exact(x), Exact(y)))
    ensures r.Ok? ==> Smaller(Exact(r.v), Exact(y)) && (Zero(r.v) || SameSign(Exact(r.v).num, Exact(x).num))
  {
    hide TruncDiv, TruncMod, FloorDiv, FloorMod, RemainderOf, ModuloOf, Gcd, Reduce, Same, Smaller;
    if x.Fix? && y.Fix? && y.n != 0 {
      OnIntegers(x.n, y.n);
      RestInRange(x.n, y.n);
      r := Ok(MakeInt(TruncMod(x.n, y.n)));
      SameSelf(Exact(r.v));
    } else {
      r := RemainderSlow(x, y);
    }
    if r.Ok? {
      LowestPositive(r.v);
      RemainderResult(Exact(r.v), Exact(x), Exact(y));
    }
  }

  /** Fremainder__ */
  method RemainderSlow(x: Number, y: Number) returns (r: Result)
    requires Valid(x) && Valid(y)
    ensures r.DivideByZero? <==> Zero(y)
    ensures r.Ok? ==> Smallest(r.v) && fresh(Cells(r.v))
    ensures r.Ok? ==> Exact(x).den > 0 && Exact(y).den > 0
    ensures r.Ok? ==> Same(Exact(r.v), RemainderOf(Exact(x), Exact(y)))
  {
    hide TruncDiv, TruncMod, FloorDiv, FloorMod, RemainderOf, ModuloOf, Gcd, Reduce;
    var zero := IsZero(y);
    if zero { return DivideByZero; }
    var v;
    var a, b, out := PromoteDup(x, y);
    match KindOf(out) {
      case Small =>
        OnIntegers(a.n, b.n);
        RestInRange(a.n, b.n);
        v := MakeInt(TruncMod(a.n, b.n));
      case Bignum =>
        OnIntegers(a.cell.z, b.cell.z);
        out.cell.z := TruncMod(a.cell.z, b.cell.z);
        v := MaybeDemote(out);
      case Rational =>
        ghost var p, q := a.cell.q, b.cell.q;
        v := RationalRest(a.cell, b.cell, out, true);
        CodeRemainder(p, q);
        RemainderMeans(p, q);
    }
    return Ok(v);
  }

  /** The rational case of both: the cross products are taken first, since the result may be one of the
      operands. */
  method RationalRest(a: Cell, b: Cell, out: Number, truncate: bool) returns (v: Number)
    requires Valid(Heap(a)) && Valid(Heap(b)) && out.Heap?
    requires a.kind.Rational? && b.kind.Rational? && out.cell.kind.Rational? && b.q.num != 0
    modifies out.cell
    ensures Smallest(v) && (v.Heap? ==> v == out || fresh(v.cell))
    ensures Same(Exact(v), old(CodeRest(a.q, b.q, truncate)))
  {
    hide TruncDiv, FloorDiv, Gcd, Reduce;
    CrossQuotient(a.q, b.q);
    var d1n2 := a.q.den * b.q.num;
    var d2n1 := b.q.den * a.q.num;
    var den := a.q.den * b.q.den;
    ProductPositive(a.q.den, b.q.den);
    var t := if truncate then TruncDiv(d2n1, d1n2) else FloorDiv(d2n1, d1n2);
    var q := Q(d2n1 - t * d1n2, den);
    SetRational(out.cell, q);
    v := MaybeDemote(out);
    LowestPositive(v);
    SameTrans(Exact(v), out.cell.q, q);
  }

  ghost function CodeRest(x: Q, y: Q, truncate: bool): Q
    requires x.den > 0 && y.den > 0 && y.num != 0
  {
    CrossQuotient(x, y);
    var a, b := y.den * x.num, x.den * y.num;
    RestOver(x, y, if truncate then TruncDiv(a, b) else FloorDiv(a, b))
  }

  // ----- Modulo -----

  /** modulo_int */
  function ModuloInt(a: int, b: int): (c: int)
    requires b != 0
    ensures c == FloorMod(a, b)
  {
    FloorModMeans(a, b);
    var c := TruncMod(a, b);
    if (if b < 0 then c > 0 else c < 0) then c + b else c
  }

  /** The big dividends whose modulo by a small divisor keeps the sign of the dividend.  The divisor is
      converted into the cell that then receives the remainder, so the test for a wrong sign compares the
      remainder with itself. */
  ghost predicate Unfixed(x: Number, y: Number)
    requires !Zero(y)
    reads Cells(x), Cells(y)
  {
    KindOf(x).Bignum? && y.Fix? && (x.cell.z < 0) != (y.n < 0) && TruncMod(x.cell.z, y.n) != 0
  }

  /** Fmod: the floored modulus of two numbers, except for those big dividends. */
  method Modulo(x: Number, y: Number) returns (r: Result)
    requires Valid(x) && Valid(y)
    ensures r.DivideByZero? <==> Zero(y)
    ensures r.Ok? ==> Smallest(r.v) && fresh(Cells(r.v))
    ensures r.Ok? ==> Exact(x).den > 0 && Exact(y).den > 0
    ensures r.Ok? ==> (Same(Exact(r.v), ModuloOf(Exact(x), Exact(y))) <==> !Unfixed(x, y))
    ensures r.Ok? && Unfixed(x, y) ==> Same(Exact(r.v), RemainderOf(Exact(x), Exact(y)))
    ensures r.Ok? && !Unfixed(x, y) ==>
      Smaller(Exact(r.v), Exact(y)) && (Zero(r.v) || SameSign(Exact(r.v).num, Exact(y).num))
  {
    hide TruncDiv, TruncMod, FloorDiv, FloorMod, RemainderOf, ModuloOf, Gcd, Reduce, Same, Smaller;
    if x.Fix? && y.Fix? && y.n != 0 {
      OnIntegers(x.n, y.n);
      RestInRange(x.n, y.n);
      r := Ok(MakeInt(ModuloInt(x.n, y.n)));
      SameSelf(Exact(r.v));
    } else {
      r := ModuloSlow(x, y);
    }
    if r.Ok? && !Unfixed(x, y) {
      LowestPositive(r.v);
      ModuloResult(Exact(r.v), Exact(x), Exact(y));
    }
  }

  /** Fmodulo__ */
  method ModuloSlow(x: Number, y: Number) returns (r: Result)
    requires Valid(x) && Valid(y)
    ensures r.DivideByZero? <==> Zero(y)
    ensures r.Ok? ==> Smallest(r.v) && fresh(Cells(r.v))
    ensures r.Ok? ==> Exact(x).den > 0 && Exact(y).den > 0
    ensures r.Ok? ==> (Same(Exact(r.v), ModuloOf(Exact(x), Exact(y))) <==> !Unfixed(x, y))
    ensures r.Ok? && Unfixed(x, y) ==> Same(Exact(r.v), RemainderOf(Exact(x), Exact(y)))
  {
    hide TruncDiv, TruncMod, FloorDiv, FloorMod, RemainderOf, ModuloOf, Gcd, Reduce;
    var zero := IsZero(y);
    if zero { return DivideByZero; }
    var v;
    var a, b, out := PromoteDup(x, y);
    match KindOf(out) {
      case Small =>
        OnIntegers(a.n, b.n);
        RestInRange(a.n, b.n);
        v := MakeInt(ModuloInt(a.n, b.n));
      case Bignum =>
        OnIntegers(a.cell.z, b.cell.z);
        ghost var m, n := a.cell.z, b.cell.z;
        v := BigRest(a.cell, b.cell, out);
        WrongSign(m, n);
      case Rational =>
        ghost var p, q := a.cell.q, b.cell.q;
        v := RationalRest(a.cell, b.cell, out, false);
        CodeModulo(p, q);
        ModuloMeans(p, q);
    }
    return Ok(v);
  }

  /** The big integer case, in place: when the result cell is the divisor, the sign is never fixed. */
  method BigRest(a: Cell, b: Cell, out: Number) returns (v: Number)
    requires a.kind.Bignum? && b.kind.Bignum? && b.z != 0 && out.Heap? && out.cell.kind.Bignum?
    modifies out.cell
    ensures Smallest(v) && (v.Heap? ==> v == out || fresh(v.cell))
    ensures Exact(v) == Q(old(if out.cell == b then TruncMod(a.z, b.z) else FloorMod(a.z, b.z)), 1)
  {
    hide TruncDiv, TruncMod, FloorDiv, FloorMod, Gcd;
    FloorModMeans(a.z, b.z);
    out.cell.z := TruncMod(a.z, b.z);
    var sign := out.cell.z;
    if (if b.z < 0 then sign > 0 else sign < 0) {
      out.cell.z := out.cell.z + b.z;
    }
    v := MaybeDemote(out);
  }

  /** The two remainders differ exactly when the signs of the operands do and the division leaves a rest. */
  lemma WrongSign(a: int, b: int)
    requires b != 0
    ensures TruncMod(a, b) == FloorMod(a, b) <==> !((a < 0) != (b < 0) && TruncMod(a, b) != 0)
  {
    hide FloorMod, TruncMod;
    FloorModMeans(a, b);
    TruncModMeans(a, b);
  }

  /** The number -2^64, modulo 3: the code answers -1, and the floored modulus is 2. */
  lemma UnfixedExample(x: Number)
    requires x.Heap? && x.cell.kind.Bignum? && x.cell.z == -0x1_0000_0000_0000_0000
    ensures Smallest(x) && Unfixed(x, Fix(3))
    ensures RemainderOf(Exact(x), Q(3, 1)) == Q(-1, 1) && ModuloOf(Exact(x), Q(3, 1)) == Q(2, 1)
  {
    OnIntegers(x.cell.z, 3);
  }
}
