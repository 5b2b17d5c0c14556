/** Abstract syntax of regular expressions, the static flags the compiler computes about it,
    and the grammar as a recursive-descent function over the pattern bytes. */
module RegexpSyntax {
  import opened RegexpCode

  datatype CharKind = Word | Space | Digit

  datatype Atom =
    | Bol
    | Eol
    | Any
    | Class(negated: bool, members: seq<Byte>)
    | Kind(kind: CharKind, complement: bool)
    | Literal(text: seq<Byte>)
    | Group(no: nat, body: Alts)

  datatype Quant = One | Opt | Star | Plus | LazyStar | LazyPlus

  datatype Piece = Piece(atom: Atom, quant: Quant)

  /** A concatenation. */
  datatype Pieces = PNil | PCons(head: Piece, tail: Pieces)

  /** Alternatives separated by `|`. */
  datatype Alts = ANil | ACons(first: Pieces, rest: Alts)

  function Snoc(ps: Pieces, p: Piece): (r: Pieces)
    ensures r.PCons?
  {
    match ps
    case PNil => PCons(p, PNil)
    case PCons(h, t) => PCons(h, Snoc(t, p))
  }

  function Append(ps: Pieces, qs: Pieces): Pieces
  {
    match ps
    case PNil => qs
    case PCons(h, t) => PCons(h, Append(t, qs))
  }

  function AltSnoc(alts: Alts, b: Pieces): (r: Alts)
    ensures r.ACons?
  {
    match alts
    case ANil => ACons(b, ANil)
    case ACons(f, r) => ACons(f, AltSnoc(r, b))
  }

  function AltAppend(alts: Alts, more: Alts): Alts
  {
    match alts
    case ANil => more
    case ACons(f, r) => ACons(f, AltAppend(r, more))
  }

  function AltCount(alts: Alts): nat
  {
    match alts
    case ANil => 0
    case ACons(_, r) => 1 + AltCount(r)
  }

  lemma SnocAppend(ps: Pieces, p: Piece, qs: Pieces)
    ensures Append(Snoc(ps, p), qs) == Append(ps, PCons(p, qs))
  {
  }

  lemma AppendNil(ps: Pieces)
    ensures Append(ps, PNil) == ps
  {
  }

  lemma AltSnocAppend(alts: Alts, b: Pieces, more: Alts)
    ensures AltAppend(AltSnoc(alts, b), more) == AltAppend(alts, ACons(b, more))
  {
  }

  lemma AltAppendNil(alts: Alts)
    ensures AltAppend(alts, ANil) == alts
  {
  }

  // ----- Static flags -----

  /** HASWIDTH: never matches the empty string. */
  predicate AtomWidth(a: Atom)
  {
    match a
    case Bol => false
    case Eol => false
    case Any => true
    case Class(_, _) => true
    case Kind(_, _) => true
    case Literal(_) => true
    case Group(_, body) => AltsWidth(body)
  }

  predicate PieceWidth(p: Piece)
  {
    match p.quant
    case One => AtomWidth(p.atom)
    case Plus => true
    case LazyPlus => true
    case _ => false
  }

  predicate PiecesWidth(ps: Pieces)
  {
    match ps
    case PNil => false
    case PCons(h, t) => PieceWidth(h) || PiecesWidth(t)
  }

  predicate AltsWidth(alts: Alts)
  {
    match alts
    case ANil => true
    case ACons(b, r) => PiecesWidth(b) && AltsWidth(r)
  }

  /** SIMPLE: matches exactly one character, so the one-instruction loops apply. */
  predicate Simple(a: Atom)
  {
    a.Any? || a.Class? || a.Kind? || (a.Literal? && |a.text| == 1)
  }

  /** SPSTART: may begin with a repetition. */
  predicate AtomSpStart(a: Atom)
  {
    match a
    case Group(_, body) => AltsSpStart(body)
    case _ => false
  }

  predicate PieceSpStart(p: Piece)
  {
    match p.quant
    case One => AtomSpStart(p.atom)
    case Plus => false
    case LazyPlus => false
    case _ => true
  }

  predicate PiecesSpStart(ps: Pieces)
  {
    ps.PCons? && PieceSpStart(ps.head)
  }

  predicate AltsSpStart(alts: Alts)
  {
    match alts
    case ANil => false
    case ACons(b, r) => PiecesSpStart(b) || AltsSpStart(r)
  }

  // ----- Well-formed trees -----

  ghost predicate NoNul(t: seq<Byte>)
  {
    forall j :: 0 <= j < |t| ==> t[j] != 0
  }

  ghost predicate WfAtom(a: Atom)
  {
    match a
    case Class(_, members) => NoNul(members)
    case Literal(text) => |text| > 0 && NoNul(text)
    case Group(no, body) => 1 <= no < NSUBEXP && body.ACons? && WfAlts(body)
    case _ => true
  }

  ghost predicate WfPiece(p: Piece)
  {
    && WfAtom(p.atom)
    && (p.quant.Star? || p.quant.Plus? ==> AtomWidth(p.atom))
    && (p.quant.LazyStar? || p.quant.LazyPlus? ==> Simple(p.atom))
    && (p.quant.Star? || p.quant.Plus? ==> Simple(p.atom) || p.atom.Group?)
    && (p.quant.One? || p.quant.Opt? ==> !(p.atom.Kind? && p.atom.complement))
  }

  ghost predicate WfPieces(ps: Pieces)
  {
    match ps
    case PNil => true
    case PCons(h, t) => WfPiece(h) && WfPieces(t)
  }

  ghost predicate WfAlts(alts: Alts)
  {
    match alts
    case ANil => true
    case ACons(b, r) => WfPieces(b) && WfAlts(r)
  }

  // ----- Group numbers: every group is numbered in order of its opening parenthesis -----

  function AtomGroups(a: Atom): nat
  {
    match a
    case Group(_, body) => 1 + AltsGroups(body)
    case _ => 0
  }

  function PiecesGroups(ps: Pieces): nat
  {
    match ps
    case PNil => 0
    case PCons(h, t) => AtomGroups(h.atom) + PiecesGroups(t)
  }

  function AltsGroups(alts: Alts): nat
  {
    match alts
    case ANil => 0
    case ACons(b, r) => PiecesGroups(b) + AltsGroups(r)
  }

  ghost predicate AtomNumbered(a: Atom, lo: nat)
  {
    match a
    case Group(no, body) => no == lo && AltsNumbered(body, lo + 1)
    case _ => true
  }

  ghost predicate PiecesNumbered(ps: Pieces, lo: nat)
  {
    match ps
    case PNil => true
    case PCons(h, t) => AtomNumbered(h.atom, lo) && PiecesNumbered(t, lo + AtomGroups(h.atom))
  }

  ghost predicate AltsNumbered(alts: Alts, lo: nat)
  {
    match alts
    case ANil => true
    case ACons(b, r) => PiecesNumbered(b, lo) && AltsNumbered(r, lo + PiecesGroups(b))
  }

  // ----- Grammar -----

  datatype Error =
    | TooManyGroups
    | UnmatchedParen
    | EmptyOperand
    | NestedOperator
    | InvalidRange
    | UnmatchedBracket
    | NothingToRepeat
    | TrailingBackslash
    | TooBig
    | OutsideFragment   // an operator this model does not cover

  /** A parsed value, the position after it and the next free group number. */
  datatype Parsed<+T> = Ok(value: T, pos: nat, npar: nat) | Err(error: Error)

  /** Patterns are C strings: reading at the end yields the terminator. */
  function Peek(s: seq<Byte>, i: nat): Byte
  {
    if i < |s| then s[i] else 0
  }

  predicate IsMult(c: Byte)
  {
    c == '*' as int || c == '+' as int || c == '?' as int
  }

  predicate IsMeta(c: Byte)
  {
    c in [94, 36, 46, 91, 40, 41, 124, 63, 43, 42, 92]  // ^ $ . [ ( ) | ? + * \
  }

  predicate EndsBranch(c: Byte)
  {
    c == 0 || c == '|' as int || c == ')' as int
  }

  /** Length of the run of ordinary characters at `i`. */
  function LiteralRun(s: seq<Byte>, i: nat): (n: nat)
    ensures i <= |s| ==> i + n <= |s|
    ensures forall j :: i <= j < i + n ==> !IsMeta(Peek(s, j)) && Peek(s, j) != 0
    ensures IsMeta(Peek(s, i + n)) || Peek(s, i + n) == 0
    decreases |s| - i
  {
    if i >= |s| || IsMeta(s[i]) || s[i] == 0 then 0 else 1 + LiteralRun(s, i + 1)
  }

  /** The run actually gobbled: it stays clear of a following repetition operator. */
  function LiteralLength(s: seq<Byte>, i: nat): (n: nat)
  {
    var n := LiteralRun(s, i);
    if n > 1 && IsMult(Peek(s, i + n)) then n - 1 else n
  }

  /** The bytes lo, lo+1, ..., hi. */
  function ByteRange(lo: nat, hi: nat): (r: seq<Byte>)
    requires hi < 256
    ensures lo > 0 ==> NoNul(r)
    ensures |r| == if lo <= hi then hi - lo + 1 else 0
    decreases hi + 1 - lo
  {
    if lo > hi then [] else [lo] + ByteRange(lo + 1, hi)
  }

  /** Members of a bracket expression from `i` up to its closing bracket. */
  function ParseMembers(s: seq<Byte>, i: nat): (r: Parsed<seq<Byte>>)
    requires 0 < i <= |s|
    ensures r.Ok? ==> i <= r.pos <= |s| && r.npar == 0
    ensures r.Ok? ==> NoNul(r.value)
    decreases |s| - i
  {
    if Peek(s, i) == 0 || Peek(s, i) == ']' as int then Ok([], i, 0)
    else if s[i] == '-' as int then
      if Peek(s, i + 1) == ']' as int || Peek(s, i + 1) == 0 then
        Prepend(['-' as int], ParseMembers(s, i + 1))
      else if s[i - 1] as int + 1 > s[i + 1] as int + 1 then Err(InvalidRange)
      else Prepend(ByteRange(s[i - 1] as int + 1, s[i + 1]), ParseMembers(s, i + 2))
    else Prepend([s[i]], ParseMembers(s, i + 1))
  }

  function Prepend(xs: seq<Byte>, r: Parsed<seq<Byte>>): Parsed<seq<Byte>>
  {
    if r.Ok? then Ok(xs + r.value, r.pos, r.npar) else r
  }

  /** A bracket expression; `i` is just after the opening bracket. */
  function ParseClass(s: seq<Byte>, i: nat, np: nat): (r: Parsed<Atom>)
    requires 0 < i <= |s|
    ensures r.Ok? ==> i < r.pos <= |s| && r.npar == np
    ensures r.Ok? ==> r.value.Class? && WfAtom(r.value) && AtomGroups(r.value) == 0
  {
    var negated := Peek(s, i) == '^' as int;
    var j := if negated then i + 1 else i;
    var literal := Peek(s, j) == ']' as int || Peek(s, j) == '-' as int;
    var first := if literal then [s[j]] else [];
    var m := ParseMembers(s, if literal then j + 1 else j);
    if m.Err? then Err(m.error)
    else if Peek(s, m.pos) != ']' as int then Err(UnmatchedBracket)
    else Ok(Class(negated, first + m.value), m.pos + 1, np)
  }

  function EscapeKind(c: Byte): (r: Atom)
    requires c in [119, 87, 115, 83, 100, 68]  // w W s S d D
    ensures r.Kind?
  {
    Kind(if c == 119 || c == 87 then Word else if c == 115 || c == 83 then Space else Digit,
         c == 87 || c == 83 || c == 68)
  }

  /** What follows a backslash. */
  function ParseEscape(s: seq<Byte>, i: nat, np: nat): (r: Parsed<Atom>)
    requires i <= |s|
    ensures r.Ok? ==> i < r.pos <= |s| && r.npar == np
    ensures r.Ok? ==> WfAtom(r.value) && AtomGroups(r.value) == 0 && AtomNumbered(r.value, np)
    ensures r.Ok? ==> r.value.Kind? || (r.value.Literal? && |r.value.text| == 1)
  {
    var e := Peek(s, i);
    if e == 0 then Err(TrailingBackslash)
    else if e in [119, 87, 115, 83, 100, 68] then Ok(EscapeKind(e), i + 1, np)
    else if e == 'b' as int || e == 'B' as int then Err(OutsideFragment)
    else Ok(Literal([e]), i + 1, np)
  }

  /** regatom */
  function ParseAtom(s: seq<Byte>, i: nat, np: nat): (r: Parsed<Atom>)
    requires i < |s| && NoNul(s) && !EndsBranch(s[i]) && 1 <= np
    ensures r.Ok? ==> i < r.pos <= |s| && np <= r.npar
    ensures r.Ok? ==> WfAtom(r.value)
    ensures r.Ok? ==> AtomNumbered(r.value, np) && r.npar == np + AtomGroups(r.value)
    ensures r.Ok? && r.value.Literal? && |r.value.text| > 1 ==> !IsMult(Peek(s, r.pos))
    decreases |s| - i, 0
  {
    var c := s[i];
    if c == '^' as int then Ok(Bol, i + 1, np)
    else if c == '$' as int then Ok(Eol, i + 1, np)
    else if c == '.' as int then Ok(Any, i + 1, np)
    else if c == '[' as int then ParseClass(s, i + 1, np)
    else if c == '(' as int then
      var r := ParseReg(s, i + 1, np, true);
      if r.Err? then Err(r.error) else Ok(Group(np, r.value), r.pos, r.npar)
    else if IsMult(c) then Err(NothingToRepeat)
    else if c == '\\' as int then ParseEscape(s, i + 1, np)
    else
      var n := LiteralLength(s, i);
      assert LiteralRun(s, i) > 0;
      Ok(Literal(s[i..i + n]), i + n, np)
  }

  /** reg: a whole pattern, or (when `paren`) a group whose opening parenthesis is absorbed. */
  function ParseReg(s: seq<Byte>, i: nat, np: nat, paren: bool): (r: Parsed<Alts>)
    requires i <= |s| && NoNul(s) && 1 <= np
    ensures r.Ok? ==> i <= r.pos <= |s| && np <= r.npar && r.value.ACons? && WfAlts(r.value)
    ensures r.Ok? && paren ==> i < r.pos && np < NSUBEXP
    ensures r.Ok? ==> var lo := if paren then np + 1 else np;
                      AltsNumbered(r.value, lo) && r.npar == lo + AltsGroups(r.value)
    decreases |s| - i, 5
  {
    if paren && np >= NSUBEXP then Err(TooManyGroups)
    else
      var r := ParseAlts(s, i, if paren then np + 1 else np);
      if r.Err? then r
      else if paren then
        if Peek(s, r.pos) != ')' as int then Err(UnmatchedParen) else Ok(r.value, r.pos + 1, r.npar)
      else
        if Peek(s, r.pos) != 0 then Err(UnmatchedParen) else r
  }

  /** regpiece */
  function ParsePiece(s: seq<Byte>, i: nat, np: nat): (r: Parsed<Piece>)
    requires i < |s| && NoNul(s) && !EndsBranch(s[i]) && 1 <= np
    ensures r.Ok? ==> i < r.pos <= |s| && np <= r.npar
    ensures r.Ok? ==> WfPiece(r.value)
    ensures r.Ok? ==> AtomNumbered(r.value.atom, np) && r.npar == np + AtomGroups(r.value.atom)
    decreases |s| - i, 1
  {
    var r := ParseAtom(s, i, np);
    if r.Err? then Err(r.error)
    else
      var a := r.value;
      var op := Peek(s, r.pos);
      if !IsMult(op) then
        if a.Kind? && a.complement then Err(OutsideFragment) else Ok(Piece(a, One), r.pos, r.npar)
      else if !AtomWidth(a) && op != '?' as int then Err(EmptyOperand)
      else
        var greedy := Peek(s, r.pos + 1) != '?' as int;
        var end := if greedy then r.pos + 1 else r.pos + 2;
        if !greedy && (op == '?' as int || !Simple(a)) then Err(OutsideFragment)
        else if op == '?' as int && a.Kind? && a.complement then Err(OutsideFragment)
        else if IsMult(Peek(s, end)) then Err(NestedOperator)
        else
          var q := if op == '?' as int then Opt
                   else if op == '*' as int then (if greedy then Star else LazyStar)
                   else (if greedy then Plus else LazyPlus);
          Ok(Piece(a, q), end, r.npar)
  }

  /** regbranch */
  function ParsePieces(s: seq<Byte>, i: nat, np: nat): (r: Parsed<Pieces>)
    requires i <= |s| && NoNul(s) && 1 <= np
    ensures r.Ok? ==> i <= r.pos <= |s| && np <= r.npar && EndsBranch(Peek(s, r.pos))
    ensures r.Ok? ==> WfPieces(r.value)
    ensures r.Ok? ==> PiecesNumbered(r.value, np) && r.npar == np + PiecesGroups(r.value)
    decreases |s| - i, 2
  {
    if EndsBranch(Peek(s, i)) then Ok(PNil, i, np)
    else
      var p := ParsePiece(s, i, np);
      if p.Err? then Err(p.error)
      else
        var t := ParsePieces(s, p.pos, p.npar);
        if t.Err? then t else Ok(PCons(p.value, t.value), t.pos, t.npar)
  }

  /** The alternatives of reg. */
  function ParseAlts(s: seq<Byte>, i: nat, np: nat): (r: Parsed<Alts>)
    requires i <= |s| && NoNul(s) && 1 <= np
    ensures r.Ok? ==> i <= r.pos <= |s| && np <= r.npar && r.value.ACons?
    ensures r.Ok? ==> Peek(s, r.pos) == 0 || Peek(s, r.pos) == ')' as int
    ensures r.Ok? ==> WfAlts(r.value)
    ensures r.Ok? ==> AltsNumbered(r.value, np) && r.npar == np + AltsGroups(r.value)
    decreases |s| - i, 3
  {
    var b := ParsePieces(s, i, np);
    if b.Err? then Err(b.error)
    else if Peek(s, b.pos) != '|' as int then Ok(ACons(b.value, ANil), b.pos, b.npar)
    else
      var r := ParseAlts(s, b.pos + 1, b.npar);
      if r.Err? then r else Ok(ACons(b.value, r.value), r.pos, r.npar)
  }

  function Parse(s: seq<Byte>): (r: Parsed<Alts>)
    requires NoNul(s)
    ensures r.Ok? ==> r.value.ACons? && WfAlts(r.value) && AltsNumbered(r.value, 1)
  {
    ParseReg(s, 0, 1, false)
  }
}
