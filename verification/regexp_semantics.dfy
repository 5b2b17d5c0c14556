/** What a regular expression means: the list of all ways it can match from a position, in the
    order a backtracking matcher prefers them.  Nothing here mentions programs or continuations. */
module RegexpSemantics {
  import opened RegexpCode
  import opened RegexpSyntax

  /** The string being matched (a C string, without its terminator) and the matching flags. */
  datatype Subject = Subject(text: seq<Byte>, nocase: bool, notbol: bool)

  // ----- Characters -----

  function Upper(c: Byte): Byte
  {
    if 97 <= c <= 122 then c - 32 else c
  }

  predicate Same(su: Subject, a: Byte, b: Byte)
  {
    if su.nocase then Upper(a) == Upper(b) else a == b
  }

  predicate InKind(k: CharKind, c: Byte)
  {
    match k
    case Word => c == 95 || 48 <= c <= 57 || 65 <= c <= 90 || 97 <= c <= 122
    case Space => c == 32 || 9 <= c <= 13
    case Digit => 48 <= c <= 57
  }

  /** A one-character atom accepts `c`. */
  predicate Hits(su: Subject, a: Atom, c: Byte)
    requires Simple(a)
  {
    match a
    case Any => true
    case Class(negated, members) => (c in members) != negated
    case Kind(k, complement) => InKind(k, c) != complement
    case Literal(text) => Same(su, text[0], c)
    case _ => false
  }

  predicate TextAt(su: Subject, t: seq<Byte>, i: nat)
  {
    i + |t| <= |su.text| && forall j :: 0 <= j < |t| ==> Same(su, t[j], su.text[i + j])
  }

  // ----- Outcomes -----

  /** Passing an opening or a closing parenthesis. */
  datatype Event = Opened(no: nat, pos: nat) | Closed(no: nat, pos: nat)

  /** Where a match ends and the parentheses it passed, in order. */
  datatype Outcome = Outcome(end: nat, trace: seq<Event>)

  function Prefix(t: seq<Event>, os: seq<Outcome>): (r: seq<Outcome>)
    ensures |r| == |os|
  {
    seq(|os|, i requires 0 <= i < |os| => Outcome(os[i].end, t + os[i].trace))
  }

  /** Appends the closing of group `no` to every outcome. */
  function Seal(no: nat, os: seq<Outcome>): (r: seq<Outcome>)
    ensures |r| == |os|
  {
    seq(|os|, i requires 0 <= i < |os| => Outcome(os[i].end, os[i].trace + [Closed(no, os[i].end)]))
  }

  ghost predicate Between(os: seq<Outcome>, lo: int, hi: int)
  {
    forall j :: 0 <= j < |os| ==> lo <= os[j].end <= hi
  }

  function OutAtom(su: Subject, a: Atom, i: nat): (r: seq<Outcome>)
    requires WfAtom(a) && i <= |su.text|
    ensures Between(r, if AtomWidth(a) then i + 1 else i, |su.text|)
    decreases a, 0
  {
    match a
    case Bol => if i == 0 && !su.notbol then [Outcome(i, [])] else []
    case Eol => if i == |su.text| then [Outcome(i, [])] else []
    case Literal(text) => if TextAt(su, text, i) then [Outcome(i + |text|, [])] else []
    case Group(no, body) => Prefix([Opened(no, i)], Seal(no, OutAlts(su, body, i)))
    case _ => if i < |su.text| && Hits(su, a, su.text[i]) then [Outcome(i + 1, [])] else []
  }

  /** Earlier alternatives are preferred. */
  function OutAlts(su: Subject, alts: Alts, i: nat): (r: seq<Outcome>)
    requires WfAlts(alts) && i <= |su.text|
    ensures Between(r, if AltsWidth(alts) then i + 1 else i, |su.text|)
    decreases alts, 0
  {
    match alts
    case ANil => []
    case ACons(b, rest) => OutPieces(su, b, i) + OutAlts(su, rest, i)
  }

  function OutPieces(su: Subject, ps: Pieces, i: nat): (r: seq<Outcome>)
    requires WfPieces(ps) && i <= |su.text|
    ensures Between(r, if PiecesWidth(ps) then i + 1 else i, |su.text|)
    decreases ps, 0
  {
    match ps
    case PNil => [Outcome(i, [])]
    case PCons(p, rest) => Chain(su, OutPiece(su, p, i), rest, if PieceWidth(p) then i + 1 else i)
  }

  /** Continues every outcome of a piece with the pieces after it. */
  function Chain(su: Subject, os: seq<Outcome>, rest: Pieces, lo: nat): (r: seq<Outcome>)
    requires WfPieces(rest) && Between(os, lo, |su.text|)
    ensures Between(r, if PiecesWidth(rest) then lo + 1 else lo, |su.text|)
    decreases rest, 1, |os|
  {
    if os == [] then []
    else Prefix(os[0].trace, OutPieces(su, rest, os[0].end)) + Chain(su, os[1..], rest, lo)
  }

  function OutPiece(su: Subject, p: Piece, i: nat): (r: seq<Outcome>)
    requires WfPiece(p) && i <= |su.text|
    ensures Between(r, if PieceWidth(p) then i + 1 else i, |su.text|)
    decreases p, 0
  {
    match p.quant
    case One => OutAtom(su, p.atom, i)
    case Opt => OutAtom(su, p.atom, i) + [Outcome(i, [])]
    case Star => OutStar(su, p.atom, i)
    case Plus => StarEach(su, OutAtom(su, p.atom, i), p.atom, i + 1)
    case LazyStar => OutLazy(su, p.atom, i)
    case LazyPlus => LazyEach(su, OutAtom(su, p.atom, i), p.atom, i + 1)
  }

  /** Greedy repetition: one more round is preferred to stopping. */
  function OutStar(su: Subject, a: Atom, i: nat): (r: seq<Outcome>)
    requires WfAtom(a) && AtomWidth(a) && i <= |su.text|
    ensures Between(r, i, |su.text|)
    decreases a, 2, |su.text| - i, 1, 0
  {
    StarEach(su, OutAtom(su, a, i), a, i + 1) + [Outcome(i, [])]
  }

  function StarEach(su: Subject, os: seq<Outcome>, a: Atom, lo: nat): (r: seq<Outcome>)
    requires WfAtom(a) && AtomWidth(a) && Between(os, lo, |su.text|)
    ensures Between(r, lo, |su.text|)
    decreases a, 2, |su.text| - lo + 1, 0, |os|
  {
    if os == [] then []
    else Prefix(os[0].trace, OutStar(su, a, os[0].end)) + StarEach(su, os[1..], a, lo)
  }

  /** Reluctant repetition: stopping is preferred. */
  function OutLazy(su: Subject, a: Atom, i: nat): (r: seq<Outcome>)
    requires WfAtom(a) && AtomWidth(a) && i <= |su.text|
    ensures Between(r, i, |su.text|)
    decreases a, 2, |su.text| - i, 1, 0
  {
    [Outcome(i, [])] + LazyEach(su, OutAtom(su, a, i), a, i + 1)
  }

  function LazyEach(su: Subject, os: seq<Outcome>, a: Atom, lo: nat): (r: seq<Outcome>)
    requires WfAtom(a) && AtomWidth(a) && Between(os, lo, |su.text|)
    ensures Between(r, lo, |su.text|)
    decreases a, 2, |su.text| - lo + 1, 0, |os|
  {
    if os == [] then []
    else Prefix(os[0].trace, OutLazy(su, a, os[0].end)) + LazyEach(su, os[1..], a, lo)
  }

  // ----- Laws of outcome lists -----

  lemma PrefixConcat(t: seq<Event>, xs: seq<Outcome>, ys: seq<Outcome>)
    ensures Prefix(t, xs + ys) == Prefix(t, xs) + Prefix(t, ys)
  {
  }

  lemma PrefixTwice(t: seq<Event>, u: seq<Event>, os: seq<Outcome>)
    ensures Prefix(t, Prefix(u, os)) == Prefix(t + u, os)
  {
    forall j | 0 <= j < |os| ensures Prefix(t, Prefix(u, os))[j] == Prefix(t + u, os)[j] {
      assert t + (u + os[j].trace) == (t + u) + os[j].trace;
    }
  }

  lemma PrefixNone(os: seq<Outcome>)
    ensures Prefix([], os) == os
  {
    forall j | 0 <= j < |os| ensures Prefix([], os)[j] == os[j] {
      assert [] + os[j].trace == os[j].trace;
    }
  }
}
