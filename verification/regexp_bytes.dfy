/** The smallest patterns, byte by byte: what each sign, letter, escape and bracket expression matches. */
module RegexpBytes {
  import opened RegexpCode
  import opened RegexpSyntax
  import opened RegexpSemantics
  import opened RegexpWriter
  import opened RegexpLaws

  /** `^` matches at the beginning, `$` at the end, `.` any character, and nothing nothing. */
  lemma SignLaw(su: Subject, i: nat)
    requires i <= |su.text|
    ensures Finds(su, [], i) == [i]
    ensures Finds(su, ['^' as int], i) == if i == 0 && !su.notbol then [i] else []
    ensures Finds(su, ['$' as int], i) == if i == |su.text| then [i] else []
    ensures Finds(su, ['.' as int], i) == if i < |su.text| then [i + 1] else []
  {
    hide Finds;
    AtomFound(su, Bol, i);
    AtomFound(su, Eol, i);
    AtomFound(su, Any, i);
    BranchCanonical(PNil);
    BranchFound(su, PNil, i);
  }

  /** `n` characters that are read as `c` follow at `i`, and no more. */
  ghost predicate RowOf(su: Subject, c: Byte, i: nat, n: nat)
  {
    && i + n <= |su.text|
    && (forall j: nat :: i <= j < i + n ==> ReadAs(su, c, su.text[j]))
    && (i + n < |su.text| ==> !ReadAs(su, c, su.text[i + n]))
  }

  lemma LiteralRow(su: Subject, c: Byte, i: nat, n: nat)
    requires RowOf(su, c, i, n)
    ensures Row(su, Literal([c]), i, n)
  {
  }

  lemma LiteralIsPattern(t: seq<Byte>, q: Quant)
    requires t != [] && NoNul(t) && (Escaped(Literal(t)) || AllOrdinary(t)) && (|t| == 1 || q.One?)
    ensures Quantifies(Literal(t), q)
  {
    assert WfAtom(Literal(t)) && CanonAtom(Literal(t)) && AtomWidth(Literal(t)) && AtomNumbered(Literal(t), 1);
  }

  lemma OrdinaryIsPattern(c: Byte, q: Quant)
    requires Ordinary(c)
    ensures var a := Literal([c]); Simple(a) && ShowAtom(a) == [c] && Quantifies(a, q)
  {
    assert NoNul([c]) && AllOrdinary([c]) && !Escaped(Literal([c]));
    LiteralIsPattern([c], q);
  }

  /** An ordinary character `c`, by itself and repeated, where `n` of them are. */
  lemma ByteLaw(su: Subject, c: Byte, i: nat, n: nat)
    requires Ordinary(c) && RowOf(su, c, i, n)
    ensures Finds(su, [c], i) == if n > 0 then [i + 1] else []
    ensures Finds(su, [c, '?' as int], i) == if n > 0 then [i + 1, i] else [i]
    ensures Finds(su, [c, '*' as int], i) == Down(i, n)
    ensures Finds(su, [c, '+' as int], i) == if n > 0 then Down(i + 1, n - 1) else []
    ensures Finds(su, [c, '*' as int, '?' as int], i) == Up(i, n)
    ensures Finds(su, [c, '+' as int, '?' as int], i) == if n > 0 then Up(i + 1, n - 1) else []
  {
    hide Finds, Row, Quantifies, ShowAtom, Ordinary;
    var a := Literal([c]);
    OrdinaryIsPattern(c, One);
    OrdinaryIsPattern(c, Star);
    OrdinaryIsPattern(c, Opt);
    LiteralRow(su, c, i, n);
    assert i <= |su.text| by { assert i + n <= |su.text|; }
    CharacterLaw(su, a, i, n);
    OptionalLaw(su, a, i);
    var s, p, q := '*' as int, '+' as int, '?' as int;
    assert [c] + [s] == [c, s] && [c] + [p] == [c, p] && [c] + [q] == [c, q];
    assert [c] + [s] + [q] == [c, s, q] && [c] + [p] + [q] == [c, p, q];
    if n > 0 { assert [i + 1] + [i] == [i + 1, i]; } else { assert [] + [i] == [i]; }
  }

  /** In particular `c+` matches exactly where there is a c. */
  lemma PlusNeedsOne(su: Subject, c: Byte, i: nat, n: nat)
    requires Ordinary(c) && RowOf(su, c, i, n)
    ensures Finds(su, [c, '+' as int], i) != [] <==> i < |su.text| && ReadAs(su, c, su.text[i])
    ensures Finds(su, [c, '*' as int], i) != [] && Finds(su, [c, '?' as int], i) != []
  {
    hide Finds, ReadAs;
    ByteLaw(su, c, i, n);
  }

  /** A backslash makes an operator an ordinary character. */
  lemma EscapeLaw(su: Subject, c: Byte, i: nat)
    requires IsMeta(c) && i <= |su.text|
    ensures Finds(su, ['\\' as int, c], i) == if i < |su.text| && su.text[i] == c then [i + 1] else []
  {
    hide Finds;
    var a := Literal([c]);
    assert ShowAtom(a) == ['\\' as int, c];
    MetaIsNoLetter(c);
    LiteralIsPattern([c], One);
    AtomFound(su, a, i);
    SimpleEnds(su, a, i);
  }

  /** Ordinary characters in a row match the same characters in a row. */
  lemma TextLaw(su: Subject, t: seq<Byte>, i: nat)
    requires t != [] && AllOrdinary(t) && i <= |su.text|
    ensures NoNul(t)
    ensures Finds(su, t, i) ==
      if i + |t| <= |su.text| && forall j :: 0 <= j < |t| ==> ReadAs(su, t[j], su.text[i + j]) then [i + |t|] else []
  {
    hide Finds;
    var a := Literal(t);
    assert ShowAtom(a) == t by { assert Ordinary(t[0]); }
    assert NoNul(t) by { forall j | 0 <= j < |t| ensures t[j] != 0 { assert Ordinary(t[j]); } }
    LiteralIsPattern(t, One);
    AtomFound(su, a, i);
    forall j | 0 <= j < |t| && i + j < |su.text|
      ensures Same(su, t[j], su.text[i + j]) <==> ReadAs(su, t[j], su.text[i + j])
    {
    }
  }

  // ----- Kinds of characters -----

  lemma KindIsPattern(k: CharKind)
    ensures Quantifies(Kind(k, false), One) && Quantifies(Kind(k, false), Star) && Quantifies(Kind(k, true), Star)
  {
  }

  /** `\\w` matches a letter, a digit or an underscore, `\\s` a white space, and `\\d` a digit. */
  lemma KindLaw(su: Subject, i: nat)
    requires i < |su.text|
    ensures var x := su.text[i];
      && Finds(su, ['\\' as int, 'w' as int], i)
         == (if Letter(x) || 48 <= x <= 57 || x == 95 then [i + 1] else [])
      && Finds(su, ['\\' as int, 's' as int], i) == (if x in [9, 10, 11, 12, 13, 32] then [i + 1] else [])
      && Finds(su, ['\\' as int, 'd' as int], i) == (if 48 <= x <= 57 then [i + 1] else [])
  {
    hide Finds;
    OneKind(su, Word, i);
    OneKind(su, Space, i);
    OneKind(su, Digit, i);
  }

  lemma OneKind(su: Subject, k: CharKind, i: nat)
    requires i < |su.text|
    ensures Finds(su, ['\\' as int, KindLetter(k, false)], i)
      == if Accepts(su, Kind(k, false), su.text[i]) then [i + 1] else []
  {
    hide Finds, Accepts;
    var a := Kind(k, false);
    KindIsPattern(k);
    AtomFound(su, a, i);
    SimpleEnds(su, a, i);
  }

  /** `\\W*`, `\\S*` and `\\D*` take the characters up to the first that is of the kind. */
  lemma OtherKindLaw(su: Subject, k: CharKind, i: nat, n: nat)
    requires Row(su, Kind(k, true), i, n) && i <= |su.text|
    ensures var c := match k case Word => 'W' as int case Space => 'S' as int case Digit => 'D' as int;
      Finds(su, ['\\' as int, c, '*' as int], i) == Down(i, n)
  {
    hide Finds, Row;
    var a := Kind(k, true);
    KindIsPattern(k);
    CharacterLaw(su, a, i, n);
    assert ShowAtom(a) + ['*' as int] == ['\\' as int, KindLetter(k, true), '*' as int];
  }

  // ----- Bracket expressions -----

  /** `[m]` matches a character of m, and `[^m]` any other. */
  lemma ListLaw(su: Subject, m: seq<Byte>, i: nat)
    requires i < |su.text|
    ensures Listable(false, m) ==>
      NoNul(['[' as int] + m + [']' as int]) &&
      Finds(su, ['[' as int] + m + [']' as int], i) == if su.text[i] in m then [i + 1] else []
    ensures Listable(true, m) ==>
      NoNul(['[' as int, '^' as int] + m + [']' as int]) &&
      Finds(su, ['[' as int, '^' as int] + m + [']' as int], i) == if su.text[i] in m then [] else [i + 1]
  {
    hide Finds, NoNul;
    if Listable(false, m) { OneList(su, false, m, i); }
    if Listable(true, m) { OneList(su, true, m, i); }
  }

  lemma OneList(su: Subject, negated: bool, m: seq<Byte>, i: nat)
    requires i < |su.text| && Listable(negated, m)
    ensures var p := (if negated then ['[' as int, '^' as int] else ['[' as int]) + m + [']' as int];
      NoNul(p) && Finds(su, p, i) == if (su.text[i] in m) != negated then [i + 1] else []
  {
    hide Finds, NoNul, Listable;
    var a := Class(negated, m);
    assert WfAtom(a) && CanonAtom(a) by { ListIsNoNul(negated, m); }
    assert ShowAtom(a) == (if negated then ['[' as int, '^' as int] else ['[' as int]) + m + [']' as int];
    AtomFound(su, a, i);
    SimpleEnds(su, a, i);
  }

  lemma ListIsNoNul(negated: bool, m: seq<Byte>)
    requires Listable(negated, m)
    ensures NoNul(m)
  {
  }

  /** The members that `lo-hi` stands for, at `i`, before a closing bracket. */
  lemma RangeParse(s: seq<Byte>, i: nat, lo: Byte, hi: Byte)
    requires 0 < i && At(s, i, [lo, '-' as int, hi, ']' as int])
    requires lo != 0 && hi != 0 && lo != ']' as int && hi != ']' as int && lo != '-' as int && lo <= hi
    ensures ParseMembers(s, i) == Ok([lo] + ByteRange(lo + 1, hi), i + 3, 0)
    ensures Peek(s, i) == lo && Peek(s, i + 3) == ']' as int
  {
    hide At, ByteRange;
    var t := [lo, '-' as int, hi, ']' as int];
    AtByte(s, i, t, 0);
    AtByte(s, i, t, 1);
    AtByte(s, i, t, 2);
    AtByte(s, i, t, 3);
    var range := ByteRange(lo + 1, hi);
    assert ParseMembers(s, i + 3) == Ok([], i + 3, 0);
    assert range + [] == range;
    assert ParseMembers(s, i + 1) == Ok(range, i + 3, 0);
  }

  lemma {:induction false} RangeHas(lo: nat, hi: nat, x: Byte)
    requires hi < 256
    ensures x in ByteRange(lo, hi) <==> lo <= x <= hi
    decreases hi + 1 - lo
  {
    if lo <= hi { RangeHas(lo + 1, hi, x); }
  }

  /** A pattern that is one atom, from how the atom parses. */
  lemma AtomAlone(su: Subject, p: seq<Byte>, a: Atom, i: nat)
    requires NoNul(p) && p != [] && !EndsBranch(p[0]) && ParseAtom(p, 0, 1) == Ok(a, |p|, 1) && i <= |su.text|
    requires WfPiece(Piece(a, One))
    ensures Finds(su, p, i) == Ends(OutAtom(su, a, i))
  {
    hide NoNul, ParseAtom, ParsePiece, ParsePieces, ParseAlts, OutAtom, OutPiece, WfAtom;
    var ps := PCons(Piece(a, One), PNil);
    AloneParses(p, a);
    NoPieces(p, |p|, 1);
    PieceStep(p, 0, 1, Piece(a, One), PNil, |p|, 1, |p|, 1);
    LastAlt(p, 0, 1, ps, |p|, 1);
    assert WfPieces(PNil) && WfPieces(ps) && WfAlts(ANil) && WfAlts(ACons(ps, ANil));
    assert OutAlts(su, ACons(ps, ANil), i) == OutPieces(su, ps, i) + OutAlts(su, ANil, i) == OutPieces(su, ps, i);
    PiecesEnds(su, Piece(a, One), PNil, i);
    FromNil(su, Ends(OutPiece(su, Piece(a, One), i)));
    PieceEnds(su, Piece(a, One), i);
  }

  lemma AloneParses(p: seq<Byte>, a: Atom)
    requires NoNul(p) && p != [] && !EndsBranch(p[0]) && ParseAtom(p, 0, 1) == Ok(a, |p|, 1)
    requires WfPiece(Piece(a, One))
    ensures ParsePiece(p, 0, 1) == Ok(Piece(a, One), |p|, 1)
  {
    hide NoNul, ParseAtom, WfAtom;
  }

  /** `[lo-hi]` matches the characters from lo to hi, and `[^lo-hi]` the others. */
  lemma RangeLaw(su: Subject, lo: Byte, hi: Byte, negated: bool, i: nat)
    requires lo != 0 && lo != ']' as int && hi != ']' as int && lo != '-' as int && (negated || lo != '^' as int)
    requires lo <= hi && i < |su.text|
    ensures var p := (if negated then ['[' as int, '^' as int] else ['[' as int]) + [lo, '-' as int, hi, ']' as int];
      NoNul(p) && Finds(su, p, i) == if (lo <= su.text[i] <= hi) != negated then [i + 1] else []
  {
    hide Finds, ParseMembers, ByteRange, At;
    var head, t := if negated then ['[' as int, '^' as int] else ['[' as int], [lo, '-' as int, hi, ']' as int];
    var p, range := head + t, [lo] + ByteRange(lo + 1, hi);
    AtOffset(head, t, []);
    assert p + [] == p;
    RangeParse(p, |head|, lo, hi);
    var a := Class(negated, range);
    assert [] + range == range;
    assert ParseClass(p, 1, 1) == Ok(a, |p|, 1);
    AtomAlone(su, p, a, i);
    SimpleEnds(su, a, i);
    RangeHas(lo + 1, hi, su.text[i]);
  }
}
