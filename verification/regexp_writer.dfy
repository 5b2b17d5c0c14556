/** Writing regular expressions: every tree in canonical form is what its written form parses to. */
module RegexpWriter {
  import opened RegexpCode
  import opened RegexpSyntax

  // ----- Writing -----

  /** The letter after the backslash. */
  function KindLetter(k: CharKind, complement: bool): Byte
  {
    match k
    case Word => if complement then 'W' as int else 'w' as int
    case Space => if complement then 'S' as int else 's' as int
    case Digit => if complement then 'D' as int else 'd' as int
  }

  function ShowAtom(a: Atom): seq<Byte>
  {
    match a
    case Bol => ['^' as int]
    case Eol => ['$' as int]
    case Any => ['.' as int]
    case Class(negated, members) => ['[' as int] + (if negated then ['^' as int] else []) + members + [']' as int]
    case Kind(k, complement) => ['\\' as int, KindLetter(k, complement)]
    case Literal(text) => if Escaped(a) then ['\\' as int] + text else text
    case Group(_, body) => ['(' as int] + ShowAlts(body) + [')' as int]
  }

  /** A literal that would mean something else without a backslash. */
  predicate Escaped(a: Atom)
  {
    a.Literal? && |a.text| == 1 && IsMeta(a.text[0])
  }

  function ShowQuant(q: Quant): seq<Byte>
  {
    match q
    case One => []
    case Opt => ['?' as int]
    case Star => ['*' as int]
    case Plus => ['+' as int]
    case LazyStar => ['*' as int, '?' as int]
    case LazyPlus => ['+' as int, '?' as int]
  }

  function ShowPiece(p: Piece): seq<Byte>
  {
    ShowAtom(p.atom) + ShowQuant(p.quant)
  }

  function ShowPieces(ps: Pieces): seq<Byte>
  {
    match ps
    case PNil => []
    case PCons(p, rest) => ShowPiece(p) + ShowPieces(rest)
  }

  function ShowAlts(alts: Alts): seq<Byte>
  {
    match alts
    case ANil => []
    case ACons(b, rest) => if rest.ANil? then ShowPieces(b) else ShowPieces(b) + ['|' as int] + ShowAlts(rest)
  }

  // ----- Canonical trees -----

  /** A character that stands for itself. */
  predicate Ordinary(c: Byte)
  {
    c != 0 && !IsMeta(c)
  }

  ghost predicate AllOrdinary(t: seq<Byte>)
  {
    forall j :: 0 <= j < |t| ==> Ordinary(t[j])
  }

  /** Members that can be written one by one: a bracket comes first, a dash first or last, a caret not first. */
  ghost predicate Listable(negated: bool, members: seq<Byte>)
  {
    members != [] && NoNul(members) && (negated || members[0] != '^' as int) && Inner(members[1..])
  }

  ghost predicate Inner(members: seq<Byte>)
  {
    && (forall j :: 0 <= j < |members| ==> members[j] != ']' as int)
    && (forall j :: 0 <= j < |members| - 1 ==> members[j] != '-' as int)
  }

  ghost predicate CanonAtom(a: Atom)
  {
    match a
    case Class(negated, members) => Listable(negated, members)
    case Literal(text) => Escaped(a) || AllOrdinary(text)
    case Group(_, body) => CanonAlts(body)
    case _ => true
  }

  /** A run of ordinary characters. */
  predicate Plain(p: Piece)
  {
    p.atom.Literal? && p.quant.One? && !Escaped(p.atom)
  }

  /** Literals next to each other are one literal, except for escaped characters; a quantified literal is
      one character. */
  ghost predicate CanonPieces(ps: Pieces)
  {
    match ps
    case PNil => true
    case PCons(p, rest) =>
      CanonAtom(p.atom) && CanonPieces(rest) && (p.atom.Literal? && !p.quant.One? ==> |p.atom.text| == 1) &&
      !(Plain(p) && rest.PCons? && Plain(rest.head))
  }

  ghost predicate CanonAlts(alts: Alts)
  {
    match alts
    case ANil => true
    case ACons(b, rest) => CanonPieces(b) && CanonAlts(rest)
  }

  // ----- Reading at a position -----

  lemma AtByte(s: seq<Byte>, i: nat, t: seq<Byte>, k: nat)
    requires At(s, i, t) && k < |t|
    ensures i + k < |s| && s[i + k] == t[k] && Peek(s, i + k) == t[k]
  {
    assert s[i..i + |t|][k] == s[i + k];
  }

  // ----- Classes -----

  lemma {:induction false} MembersParse(s: seq<Byte>, i: nat, m: seq<Byte>)
    requires 0 < i && At(s, i, m + [']' as int]) && NoNul(m) && Inner(m)
    ensures ParseMembers(s, i) == Ok(m, i + |m|, 0)
    decreases |m|
  {
    AtByte(s, i, m + [']' as int], 0);
    if m != [] {
      AtByte(s, i, m + [']' as int], 1);
      assert m + [']' as int] == [m[0]] + (m[1..] + [']' as int]);
      AtConcat(s, i, [m[0]], m[1..] + [']' as int]);
      MembersParse(s, i + 1, m[1..]);
      assert [m[0]] + m[1..] == m;
    }
  }

  /** The members of a bracket expression, the first of which may be a bracket or a dash. */
  lemma ListParse(s: seq<Byte>, j: nat, m: seq<Byte>)
    requires 0 < j && At(s, j, m + [']' as int]) && m != [] && NoNul(m) && Inner(m[1..])
    ensures j + |m| < |s| && Peek(s, j + |m|) == ']' as int && s[j] == m[0]
    ensures if m[0] == ']' as int || m[0] == '-' as int then ParseMembers(s, j + 1) == Ok(m[1..], j + |m|, 0)
      else ParseMembers(s, j) == Ok(m, j + |m|, 0)
  {
    hide ParseMembers;
    var close := [']' as int];
    AtByte(s, j, m + close, 0);
    AtByte(s, j, m + close, |m|);
    if m[0] == ']' as int || m[0] == '-' as int {
      assert m + close == [m[0]] + (m[1..] + close);
      AtConcat(s, j, [m[0]], m[1..] + close);
      MembersParse(s, j + 1, m[1..]);
    } else {
      InnerAll(m);
      MembersParse(s, j, m);
    }
  }

  lemma InnerAll(m: seq<Byte>)
    requires m != [] && Inner(m[1..]) && m[0] != ']' as int && m[0] != '-' as int
    ensures Inner(m)
  {
    forall j | 0 <= j < |m| ensures m[j] != ']' as int && (j < |m| - 1 ==> m[j] != '-' as int) {
      if j > 0 { assert m[j] == m[1..][j - 1]; }
    }
  }

  lemma ClassParse(s: seq<Byte>, i: nat, a: Atom, np: nat)
    requires a.Class? && Listable(a.negated, a.members) && At(s, i, ShowAtom(a))
    ensures i + 1 <= |s| && ParseClass(s, i + 1, np) == Ok(a, i + |ShowAtom(a)|, np)
  {
    hide ParseMembers, NoNul, Inner, At;
    var m := a.members;
    var close := [']' as int];
    var head := ['[' as int] + if a.negated then ['^' as int] else [];
    assert ShowAtom(a) == head + (m + close);
    AtConcat(s, i, head, m + close);
    var j := i + |head|;
    AtByte(s, i, head + (m + close), 1);
    AtByte(s, i, head + (m + close), |head|);
    ListParse(s, j, m);
    assert (head + (m + close))[|head|] == m[0];
    if a.negated { assert (head + (m + close))[1] == '^' as int; }
    assert [m[0]] + m[1..] == m && [] + m == m;
  }

  // ----- Literals -----

  /** An atom starts with no operator, and with an ordinary character only if it is a literal written as it is. */
  lemma AtomStart(a: Atom)
    requires WfAtom(a) && CanonAtom(a)
    ensures ShowAtom(a) != []
    ensures var c := ShowAtom(a)[0];
      !IsMult(c) && !EndsBranch(c) && (IsMeta(c) <==> !a.Literal? || Escaped(a))
  {
    hide ShowAlts;
    if a.Literal? && !Escaped(a) { assert Ordinary(a.text[0]); }
  }

  lemma PieceStart(s: seq<Byte>, i: nat, p: Piece)
    requires WfAtom(p.atom) && CanonAtom(p.atom) && At(s, i, ShowPiece(p))
    ensures i < |s| && s[i] == Peek(s, i) == ShowAtom(p.atom)[0] && !IsMult(s[i]) && !EndsBranch(s[i])
    ensures IsMeta(s[i]) <==> !p.atom.Literal? || Escaped(p.atom)
  {
    hide ShowAtom, CanonAtom, IsMeta, Escaped, ShowQuant;
    AtomStart(p.atom);
    AtByte(s, i, ShowPiece(p), 0);
  }

  /** What follows a piece is no operator. */
  lemma PiecesStart(s: seq<Byte>, i: nat, ps: Pieces)
    requires WfPieces(ps) && CanonPieces(ps) && At(s, i, ShowPieces(ps)) && EndsBranch(Peek(s, i + |ShowPieces(ps)|))
    ensures i <= |s| && !IsMult(Peek(s, i))
    ensures ps.PNil? ==> EndsBranch(Peek(s, i))
    ensures ps.PCons? ==>
      i < |s| && !EndsBranch(s[i]) && At(s, i, ShowPiece(ps.head)) &&
      At(s, i + |ShowPiece(ps.head)|, ShowPieces(ps.tail))
  {
    hide ShowPiece;
    if ps.PCons? {
      AtConcat(s, i, ShowPiece(ps.head), ShowPieces(ps.tail));
      PieceStart(s, i, ps.head);
    }
  }

  lemma {:induction false} RunAt(s: seq<Byte>, i: nat, text: seq<Byte>)
    requires At(s, i, text) && AllOrdinary(text)
    ensures LiteralRun(s, i) == |text| + LiteralRun(s, i + |text|)
    decreases |text|
  {
    if text != [] {
      assert text == [text[0]] + text[1..];
      AtConcat(s, i, [text[0]], text[1..]);
      assert s[i] == text[0] by { AtByte(s, i, text, 0); }
      assert AllOrdinary(text[1..]);
      RunAt(s, i + 1, text[1..]);
    }
  }

  lemma NoRun(s: seq<Byte>, i: nat)
    requires IsMeta(Peek(s, i)) || Peek(s, i) == 0
    ensures LiteralRun(s, i) == 0
  {
  }

  lemma QuantStart(q: Quant)
    requires !q.One?
    ensures ShowQuant(q) != [] && IsMult(ShowQuant(q)[0]) && IsMeta(ShowQuant(q)[0])
  {
  }

  /** One character and an operator. */
  lemma RunOfOne(s: seq<Byte>, i: nat, p: Piece)
    requires p.atom.Literal? && |p.atom.text| == 1 && AllOrdinary(p.atom.text) && !p.quant.One? && !Escaped(p.atom)
    requires At(s, i, ShowPiece(p))
    ensures LiteralRun(s, i) == 1 && IsMult(Peek(s, i + 1))
  {
    hide LiteralRun, IsMeta, IsMult, ShowQuant;
    AtConcat(s, i, p.atom.text, ShowQuant(p.quant));
    QuantStart(p.quant);
    AtByte(s, i + 1, ShowQuant(p.quant), 0);
    RunAt(s, i, p.atom.text);
    NoRun(s, i + 1);
  }

  lemma BranchEnds(c: Byte)
    requires EndsBranch(c)
    ensures (IsMeta(c) || c == 0) && !IsMult(c)
  {
  }

  /** The run gobbled for a literal is the literal. */
  lemma LiteralIs(s: seq<Byte>, i: nat, p: Piece, rest: Pieces)
    requires WfPieces(PCons(p, rest)) && CanonPieces(PCons(p, rest)) && p.atom.Literal? && !Escaped(p.atom)
    requires At(s, i, ShowPiece(p)) && At(s, i + |ShowPiece(p)|, ShowPieces(rest))
    requires EndsBranch(Peek(s, i + |ShowPiece(p)| + |ShowPieces(rest)|))
    ensures LiteralLength(s, i) == |p.atom.text| && At(s, i, p.atom.text)
  {
    hide LiteralRun, IsMeta, IsMult, EndsBranch, ShowPieces, At, Peek;
    var text := p.atom.text;
    AtConcat(s, i, text, ShowQuant(p.quant));
    var j := i + |text|;
    if !p.quant.One? {
      RunOfOne(s, i, p);
    } else {
      RunAt(s, i, text);
      PiecesStart(s, j, rest);
      if rest.PNil? {
        BranchEnds(Peek(s, j));
        NoRun(s, j);
      } else if rest.head.atom.Literal? && !Escaped(rest.head.atom) {
        RunOfOne(s, j, rest.head);
        assert WfAtom(p.atom) && LiteralRun(s, i) == |text| + 1;
      } else {
        PieceStart(s, j, rest.head);
        NoRun(s, j);
      }
    }
  }

  // ----- Everything parses as what it was written for -----

  lemma LetterMeans(k: CharKind, complement: bool)
    ensures var c := KindLetter(k, complement);
      c in [119, 87, 115, 83, 100, 68] && EscapeKind(c) == Kind(k, complement)
  {
  }

  lemma MetaIsNoLetter(c: Byte)
    requires IsMeta(c)
    ensures c != 0 && c !in [119, 87, 115, 83, 100, 68] && c != 'b' as int && c != 'B' as int
  {
  }

  /** A backslash and a letter that stands for a kind of character. */
  lemma KindParse(s: seq<Byte>, i: nat, a: Atom, np: nat)
    requires NoNul(s) && 1 <= np && At(s, i, ShowAtom(a)) && a.Kind?
    ensures i < |s| && !EndsBranch(s[i]) && ParseAtom(s, i, np) == Ok(a, i + 2, np)
  {
    hide NoNul, At, ParseReg, ParseClass, IsMeta, EscapeKind, KindLetter;
    AtByte(s, i, ShowAtom(a), 0);
    AtByte(s, i, ShowAtom(a), 1);
    LetterMeans(a.kind, a.complement);
  }

  /** A backslash and what it escapes. */
  lemma EscapeParse(s: seq<Byte>, i: nat, a: Atom, np: nat)
    requires NoNul(s) && 1 <= np && At(s, i, ShowAtom(a)) && Escaped(a)
    ensures i < |s| && !EndsBranch(s[i]) && ParseAtom(s, i, np) == Ok(a, i + 2, np)
  {
    hide NoNul, At, ParseReg, ParseClass, IsMeta;
    AtByte(s, i, ShowAtom(a), 0);
    AtByte(s, i, ShowAtom(a), 1);
    MetaIsNoLetter(a.text[0]);
    assert a.text == [a.text[0]];
  }

  /** A character with a meaning of its own, and a bracket expression. */
  lemma SignParse(s: seq<Byte>, i: nat, a: Atom, np: nat)
    requires NoNul(s) && 1 <= np && At(s, i, ShowAtom(a)) && (a.Bol? || a.Eol? || a.Any? || a.Class?) && CanonAtom(a)
    ensures i < |s| && !EndsBranch(s[i]) && ParseAtom(s, i, np) == Ok(a, i + |ShowAtom(a)|, np)
  {
    hide NoNul, At, ParseReg, ParseClass, Listable;
    AtByte(s, i, ShowAtom(a), 0);
    if a.Class? { ClassParse(s, i, a, np); }
  }

  lemma TextParse(s: seq<Byte>, i: nat, a: Atom, np: nat)
    requires NoNul(s) && 1 <= np && a.Literal? && WfAtom(a) && CanonAtom(a) && !Escaped(a)
    requires At(s, i, a.text) && LiteralLength(s, i) == |a.text|
    ensures i < |s| && !EndsBranch(s[i]) && ParseAtom(s, i, np) == Ok(a, i + |a.text|, np)
  {
    hide NoNul, ParseReg, ParseClass, ParseEscape, LiteralLength;
    AtByte(s, i, a.text, 0);
    assert Ordinary(a.text[0]);
  }

  lemma QuantParse(s: seq<Byte>, i: nat, p: Piece, j: nat, np: nat, np': nat)
    requires NoNul(s) && i < |s| && !EndsBranch(s[i]) && 1 <= np && WfPiece(p) && j <= |s|
    requires ParseAtom(s, i, np) == Ok(p.atom, j, np') && At(s, j, ShowQuant(p.quant))
    requires p.atom.Literal? && !p.quant.One? ==> |p.atom.text| == 1
    requires !IsMult(Peek(s, j + |ShowQuant(p.quant)|))
    ensures ParsePiece(s, i, np) == Ok(p, j + |ShowQuant(p.quant)|, np')
  {
    hide NoNul, At, ParseAtom, WfAtom;
    var q := ShowQuant(p.quant);
    if q != [] { AtByte(s, j, q, 0); }
    if |q| > 1 { AtByte(s, j, q, 1); }
  }

  lemma {:induction false} AtomParse(s: seq<Byte>, i: nat, p: Piece, rest: Pieces, np: nat)
    requires NoNul(s) && 1 <= np && WfPieces(PCons(p, rest)) && CanonPieces(PCons(p, rest)) && AtomNumbered(p.atom, np)
    requires At(s, i, ShowPiece(p)) && At(s, i + |ShowPiece(p)|, ShowPieces(rest))
    requires EndsBranch(Peek(s, i + |ShowPiece(p)| + |ShowPieces(rest)|))
    ensures i < |s| && !EndsBranch(s[i])
    ensures ParseAtom(s, i, np) == Ok(p.atom, i + |ShowAtom(p.atom)|, np + AtomGroups(p.atom))
    decreases p.atom, 1
  {
    hide NoNul, At, ParseAtom, ShowAtom, EndsBranch, LiteralLength;
    var a := p.atom;
    AtConcat(s, i, ShowAtom(a), ShowQuant(p.quant));
    if a.Group? {
      GroupParse(s, i, a, np);
    } else if a.Kind? {
      KindParse(s, i, a, np);
      TwoBytes(a);
    } else if Escaped(a) {
      EscapeParse(s, i, a, np);
      TwoBytes(a);
    } else if a.Literal? {
      LiteralIs(s, i, p, rest);
      TextParse(s, i, a, np);
      PlainText(a);
    } else {
      SignParse(s, i, a, np);
    }
  }

  lemma TwoBytes(a: Atom)
    requires a.Kind? || Escaped(a)
    ensures |ShowAtom(a)| == 2 && AtomGroups(a) == 0
  {
  }

  lemma PlainText(a: Atom)
    requires a.Literal? && !Escaped(a)
    ensures ShowAtom(a) == a.text
  {
  }

  lemma {:induction false} GroupParse(s: seq<Byte>, i: nat, a: Atom, np: nat)
    requires NoNul(s) && 1 <= np && a.Group? && WfAtom(a) && CanonAtom(a) && AtomNumbered(a, np)
    requires At(s, i, ShowAtom(a))
    ensures i < |s| && !EndsBranch(s[i])
    ensures ParseAtom(s, i, np) == Ok(a, i + |ShowAtom(a)|, np + AtomGroups(a))
    decreases a, 0
  {
    hide NoNul, At, ParseAtom, ParseAlts, ShowAlts, EndsBranch;
    var body, close := ShowAlts(a.body), [')' as int];
    assert ShowAtom(a) == ['(' as int] + (body + close);
    AtByte(s, i, ShowAtom(a), 0);
    AtConcat(s, i, ['(' as int], body + close);
    AtConcat(s, i + 1, body, close);
    AtByte(s, i + 1 + |body|, close, 0);
    AltsParse(s, i + 1, a.body, np + 1);
    GroupStep(s, i, np, a.body, i + 1 + |body|, np + 1 + AltsGroups(a.body));
  }

  lemma GroupStep(s: seq<Byte>, i: nat, np: nat, body: Alts, j: nat, np': nat)
    requires NoNul(s) && i < |s| && s[i] == '(' as int && 1 <= np < NSUBEXP && Peek(s, j) == ')' as int
    requires ParseAlts(s, i + 1, np + 1) == Ok(body, j, np')
    ensures !EndsBranch(s[i]) && ParseAtom(s, i, np) == Ok(Group(np, body), j + 1, np')
  {
    hide NoNul, ParseAlts, ParseClass, ParseEscape, LiteralLength;
  }

  lemma PieceStep(s: seq<Byte>, i: nat, np: nat, p: Piece, rest: Pieces, j: nat, np': nat, end: nat, np'': nat)
    requires NoNul(s) && i < |s| && !EndsBranch(s[i]) && 1 <= np && j <= |s| && 1 <= np'
    requires ParsePiece(s, i, np) == Ok(p, j, np') && ParsePieces(s, j, np') == Ok(rest, end, np'')
    ensures ParsePieces(s, i, np) == Ok(PCons(p, rest), end, np'')
  {
    hide NoNul, ParsePiece;
  }

  lemma {:induction false} PiecesParse(s: seq<Byte>, i: nat, ps: Pieces, np: nat)
    requires NoNul(s) && 1 <= np && WfPieces(ps) && CanonPieces(ps) && PiecesNumbered(ps, np)
    requires At(s, i, ShowPieces(ps)) && EndsBranch(Peek(s, i + |ShowPieces(ps)|))
    ensures i <= |s| && ParsePieces(s, i, np) == Ok(ps, i + |ShowPieces(ps)|, np + PiecesGroups(ps))
    decreases ps
  {
    hide NoNul, At, ParsePiece, ParsePieces, ShowAtom, ShowQuant, EndsBranch, IsMult;
    PiecesStart(s, i, ps);
    if ps.PNil? {
      NoPieces(s, i, np);
    } else {
      var p, rest := ps.head, ps.tail;
      var j, np' := i + |ShowPiece(p)|, np + AtomGroups(p.atom);
      assert |ShowPieces(ps)| == |ShowPiece(p)| + |ShowPieces(rest)|;
      PieceParse(s, i, p, rest, np);
      PiecesParse(s, j, rest, np');
      PieceStep(s, i, np, p, rest, j, np', j + |ShowPieces(rest)|, np' + PiecesGroups(rest));
    }
  }

  lemma NoPieces(s: seq<Byte>, i: nat, np: nat)
    requires NoNul(s) && i <= |s| && 1 <= np && EndsBranch(Peek(s, i))
    ensures ParsePieces(s, i, np) == Ok(PNil, i, np)
  {
  }

  lemma {:induction false} PieceParse(s: seq<Byte>, i: nat, p: Piece, rest: Pieces, np: nat)
    requires NoNul(s) && 1 <= np && WfPieces(PCons(p, rest)) && CanonPieces(PCons(p, rest)) && AtomNumbered(p.atom, np)
    requires At(s, i, ShowPiece(p)) && At(s, i + |ShowPiece(p)|, ShowPieces(rest))
    requires EndsBranch(Peek(s, i + |ShowPiece(p)| + |ShowPieces(rest)|))
    ensures i < |s| && !EndsBranch(s[i])
    ensures ParsePiece(s, i, np) == Ok(p, i + |ShowPiece(p)|, np + AtomGroups(p.atom))
    decreases p, 0
  {
    hide NoNul, At, ParsePiece, ShowAtom, ShowQuant, EndsBranch, IsMult;
    var j := i + |ShowPiece(p)|;
    AtomParse(s, i, p, rest, np);
    AtConcat(s, i, ShowAtom(p.atom), ShowQuant(p.quant));
    PiecesStart(s, j, rest);
    QuantParse(s, i, p, i + |ShowAtom(p.atom)|, np, np + AtomGroups(p.atom));
  }

  lemma {:induction false} AltsParse(s: seq<Byte>, i: nat, alts: Alts, np: nat)
    requires NoNul(s) && 1 <= np && alts.ACons? && WfAlts(alts) && CanonAlts(alts) && AltsNumbered(alts, np)
    requires At(s, i, ShowAlts(alts))
    requires var c := Peek(s, i + |ShowAlts(alts)|); c == 0 || c == ')' as int
    ensures i <= |s| && ParseAlts(s, i, np) == Ok(alts, i + |ShowAlts(alts)|, np + AltsGroups(alts))
    decreases alts
  {
    hide NoNul, At, ParsePieces, ParseAlts, ShowPieces, EndsBranch;
    var b, rest := alts.first, alts.rest;
    var j, np' := i + |ShowPieces(b)|, np + PiecesGroups(b);
    if rest.ANil? {
      EndBytes(Peek(s, j));
      PiecesParse(s, i, b, np);
      LastAlt(s, i, np, b, j, np');
    } else {
      var bar := ['|' as int];
      assert ShowAlts(alts) == ShowPieces(b) + (bar + ShowAlts(rest));
      AtConcat(s, i, ShowPieces(b), bar + ShowAlts(rest));
      AtConcat(s, j, bar, ShowAlts(rest));
      AtByte(s, j, bar, 0);
      EndBytes(Peek(s, j));
      PiecesParse(s, i, b, np);
      AltsParse(s, j + 1, rest, np');
      MoreAlts(s, i, np, b, j, np', rest, j + 1 + |ShowAlts(rest)|, np' + AltsGroups(rest));
    }
  }

  lemma EndBytes(c: Byte)
    ensures c == 0 || c == '|' as int || c == ')' as int ==> EndsBranch(c)
  {
  }

  lemma LastAlt(s: seq<Byte>, i: nat, np: nat, b: Pieces, j: nat, np': nat)
    requires NoNul(s) && i <= |s| && 1 <= np && ParsePieces(s, i, np) == Ok(b, j, np') && Peek(s, j) != '|' as int
    ensures ParseAlts(s, i, np) == Ok(ACons(b, ANil), j, np')
  {
    hide NoNul, ParsePieces;
  }

  lemma MoreAlts(s: seq<Byte>, i: nat, np: nat, b: Pieces, j: nat, np': nat, rest: Alts, end: nat, np'': nat)
    requires NoNul(s) && i <= |s| && 1 <= np && ParsePieces(s, i, np) == Ok(b, j, np') && Peek(s, j) == '|' as int
    requires j + 1 <= |s| && 1 <= np' && ParseAlts(s, j + 1, np') == Ok(rest, end, np'')
    ensures ParseAlts(s, i, np) == Ok(ACons(b, rest), end, np'')
  {
    hide NoNul, ParsePieces;
  }

  // ----- The round trip -----

  lemma {:induction false} AtomNoNul(a: Atom)
    requires WfAtom(a)
    ensures NoNul(ShowAtom(a))
    decreases a, 0
  {
    if a.Group? { AltsNoNul(a.body); }
  }

  lemma {:induction false} PiecesNoNul(ps: Pieces)
    requires WfPieces(ps)
    ensures NoNul(ShowPieces(ps))
    decreases ps
  {
    if ps.PCons? {
      AtomNoNul(ps.head.atom);
      PiecesNoNul(ps.tail);
    }
  }

  lemma {:induction false} AltsNoNul(alts: Alts)
    requires WfAlts(alts)
    ensures NoNul(ShowAlts(alts))
    decreases alts
  {
    if alts.ACons? {
      PiecesNoNul(alts.first);
      AltsNoNul(alts.rest);
    }
  }

  /** A pattern is a tree in canonical form: at least one alternative, groups numbered from 1 in order. */
  ghost predicate Canonical(alts: Alts)
  {
    alts.ACons? && WfAlts(alts) && CanonAlts(alts) && AltsNumbered(alts, 1)
  }

  /** What a tree in canonical form is written as parses to this tree, to the end. */
  lemma ShowParses(alts: Alts)
    requires Canonical(alts)
    ensures NoNul(ShowAlts(alts)) && Parse(ShowAlts(alts)) == Ok(alts, |ShowAlts(alts)|, 1 + AltsGroups(alts))
  {
    hide ParseAlts, ShowAlts, NoNul;
    var s := ShowAlts(alts);
    AltsNoNul(alts);
    assert s[0..0 + |s|] == s;
    AltsParse(s, 0, alts, 1);
  }
}
