/** What patterns mean, in terms of their bytes: where a pattern put together from others can match follows from
    where those can match. */
module RegexpLaws {
  import opened RegexpCode
  import opened RegexpSyntax
  import opened RegexpSemantics
  import opened RegexpWriter

  function Ends(os: seq<Outcome>): (r: seq<nat>)
    ensures |r| == |os|
  {
    seq(|os|, k requires 0 <= k < |os| => os[k].end)
  }

  /** Where matches of pattern `p` from `i` end, the preferred one first. */
  function Finds(su: Subject, p: seq<Byte>, i: nat): (r: seq<nat>)
    requires NoNul(p) && i <= |su.text|
    ensures forall k :: 0 <= k < |r| ==> i <= r[k] <= |su.text|
  {
    var r := Parse(p);
    if r.Ok? then Ends(OutAlts(su, r.value, i)) else []
  }

  /** ... from each of `starts`. */
  function Follow(su: Subject, starts: seq<nat>, p: seq<Byte>): seq<nat>
    requires NoNul(p) && forall k :: 0 <= k < |starts| ==> starts[k] <= |su.text|
  {
    if starts == [] then [] else Finds(su, p, starts[0]) + Follow(su, starts[1..], p)
  }

  // ----- Lists of ends -----

  lemma EndsConcat(a: seq<Outcome>, b: seq<Outcome>)
    ensures Ends(a + b) == Ends(a) + Ends(b)
  {
  }

  lemma EndsMarked(t: seq<Event>, no: nat, os: seq<Outcome>)
    ensures Ends(Prefix(t, os)) == Ends(os) && Ends(Seal(no, os)) == Ends(os)
  {
  }

  /** Where `ps` can match from each of `starts`. */
  function PiecesFrom(su: Subject, starts: seq<nat>, ps: Pieces): (r: seq<nat>)
    requires WfPieces(ps) && forall k :: 0 <= k < |starts| ==> starts[k] <= |su.text|
    ensures forall k :: 0 <= k < |r| ==> r[k] <= |su.text|
  {
    if starts == [] then [] else Ends(OutPieces(su, ps, starts[0])) + PiecesFrom(su, starts[1..], ps)
  }

  lemma {:induction false} ChainEnds(su: Subject, os: seq<Outcome>, rest: Pieces, lo: nat)
    requires WfPieces(rest) && Between(os, lo, |su.text|)
    ensures Ends(Chain(su, os, rest, lo)) == PiecesFrom(su, Ends(os), rest)
    decreases |os|
  {
    hide OutPieces;
    if os != [] {
      var first := OutPieces(su, rest, os[0].end);
      ChainEnds(su, os[1..], rest, lo);
      assert Ends(os)[1..] == Ends(os[1..]);
      EndsMarked(os[0].trace, 0, first);
      EndsConcat(Prefix(os[0].trace, first), Chain(su, os[1..], rest, lo));
    }
  }

  function RepeatFrom(su: Subject, starts: seq<nat>, a: Atom, greedy: bool): seq<nat>
    requires WfAtom(a) && AtomWidth(a) && forall k :: 0 <= k < |starts| ==> starts[k] <= |su.text|
  {
    if starts == [] then []
    else
      Ends(if greedy then OutStar(su, a, starts[0]) else OutLazy(su, a, starts[0])) +
      RepeatFrom(su, starts[1..], a, greedy)
  }

  lemma {:induction false} StarEnds(su: Subject, os: seq<Outcome>, a: Atom, lo: nat)
    requires WfAtom(a) && AtomWidth(a) && Between(os, lo, |su.text|)
    ensures Ends(StarEach(su, os, a, lo)) == RepeatFrom(su, Ends(os), a, true)
    decreases |os|
  {
    hide OutStar;
    if os != [] {
      var first := OutStar(su, a, os[0].end);
      StarEnds(su, os[1..], a, lo);
      assert Ends(os)[1..] == Ends(os[1..]);
      EndsMarked(os[0].trace, 0, first);
      EndsConcat(Prefix(os[0].trace, first), StarEach(su, os[1..], a, lo));
    }
  }

  lemma {:induction false} LazyEnds(su: Subject, os: seq<Outcome>, a: Atom, lo: nat)
    requires WfAtom(a) && AtomWidth(a) && Between(os, lo, |su.text|)
    ensures Ends(LazyEach(su, os, a, lo)) == RepeatFrom(su, Ends(os), a, false)
    decreases |os|
  {
    hide OutLazy;
    if os != [] {
      var first := OutLazy(su, a, os[0].end);
      LazyEnds(su, os[1..], a, lo);
      assert Ends(os)[1..] == Ends(os[1..]);
      EndsMarked(os[0].trace, 0, first);
      EndsConcat(Prefix(os[0].trace, first), LazyEach(su, os[1..], a, lo));
    }
  }

  // ----- Renumbering -----

  /** The groups numbered from `lo` on. */
  function RenumberAtom(a: Atom, lo: nat): Atom
  {
    match a
    case Group(_, body) => Group(lo, RenumberAlts(body, lo + 1))
    case _ => a
  }

  function RenumberPieces(ps: Pieces, lo: nat): Pieces
  {
    match ps
    case PNil => PNil
    case PCons(p, rest) =>
      PCons(Piece(RenumberAtom(p.atom, lo), p.quant), RenumberPieces(rest, lo + AtomGroups(p.atom)))
  }

  function RenumberAlts(alts: Alts, lo: nat): Alts
  {
    match alts
    case ANil => ANil
    case ACons(b, rest) => ACons(RenumberPieces(b, lo), RenumberAlts(rest, lo + PiecesGroups(b)))
  }

  /** Numbers are not written, and a pattern is as canonical with other numbers as long as there are enough. */
  lemma {:induction false} AtomRenumbered(a: Atom, lo: nat)
    requires WfAtom(a) && CanonAtom(a) && 1 <= lo && lo + AtomGroups(a) <= NSUBEXP
    ensures var b := RenumberAtom(a, lo);
      && WfAtom(b) && CanonAtom(b) && AtomNumbered(b, lo) && AtomGroups(b) == AtomGroups(a)
      && ShowAtom(b) == ShowAtom(a) && AtomWidth(b) == AtomWidth(a) && Simple(b) == Simple(a)
    decreases a, 0
  {
    if a.Group? { AltsRenumbered(a.body, lo + 1); }
  }

  lemma {:induction false} PiecesRenumbered(ps: Pieces, lo: nat)
    requires WfPieces(ps) && CanonPieces(ps) && 1 <= lo && lo + PiecesGroups(ps) <= NSUBEXP
    ensures var qs := RenumberPieces(ps, lo);
      && WfPieces(qs) && CanonPieces(qs) && PiecesNumbered(qs, lo) && PiecesGroups(qs) == PiecesGroups(ps)
      && ShowPieces(qs) == ShowPieces(ps) && PiecesWidth(qs) == PiecesWidth(ps)
    decreases ps, 0
  {
    hide WfPiece, CanonAtom, ShowPiece, PieceWidth, Plain, RenumberAtom, AtomNumbered;
    if ps.PCons? {
      PieceRenumbered(ps.head, lo);
      var next := lo + AtomGroups(ps.head.atom);
      PiecesRenumbered(ps.tail, next);
      HeadRenumbered(ps.tail, next);
    }
  }

  lemma HeadRenumbered(ps: Pieces, lo: nat)
    ensures ps.PCons? ==> RenumberPieces(ps, lo).PCons? && Plain(RenumberPieces(ps, lo).head) == Plain(ps.head)
    ensures ps.PNil? ==> RenumberPieces(ps, lo).PNil?
  {
  }

  lemma {:induction false} PieceRenumbered(p: Piece, lo: nat)
    requires WfPiece(p) && CanonAtom(p.atom) && 1 <= lo && lo + AtomGroups(p.atom) <= NSUBEXP
    ensures var q := Piece(RenumberAtom(p.atom, lo), p.quant);
      && WfPiece(q) && CanonAtom(q.atom) && AtomNumbered(q.atom, lo) && AtomGroups(q.atom) == AtomGroups(p.atom)
      && ShowPiece(q) == ShowPiece(p) && PieceWidth(q) == PieceWidth(p) && Plain(q) == Plain(p)
      && (q.atom.Literal? <==> p.atom.Literal?) && (p.atom.Literal? ==> q.atom == p.atom)
    decreases p, 0
  {
    hide WfAtom, CanonAtom, ShowAtom, AtomWidth, AtomNumbered, AtomGroups;
    AtomRenumbered(p.atom, lo);
  }

  lemma {:induction false} AltsRenumbered(alts: Alts, lo: nat)
    requires WfAlts(alts) && CanonAlts(alts) && 1 <= lo && lo + AltsGroups(alts) <= NSUBEXP
    ensures var more := RenumberAlts(alts, lo);
      && WfAlts(more) && CanonAlts(more) && AltsNumbered(more, lo) && AltsGroups(more) == AltsGroups(alts)
      && ShowAlts(more) == ShowAlts(alts) && AltsWidth(more) == AltsWidth(alts)
    decreases alts, 0
  {
    if alts.ACons? {
      PiecesRenumbered(alts.first, lo);
      AltsRenumbered(alts.rest, lo + PiecesGroups(alts.first));
    }
  }

  // ----- Numbers do not matter for where a match ends -----

  /** The two atoms end at the same places. */
  ghost predicate SameEnds(su: Subject, a: Atom, b: Atom)
    requires WfAtom(a) && WfAtom(b)
  {
    forall j: nat :: j <= |su.text| ==> Ends(OutAtom(su, a, j)) == Ends(OutAtom(su, b, j))
  }

  function Repeats(su: Subject, a: Atom, i: nat, greedy: bool): seq<Outcome>
    requires WfAtom(a) && AtomWidth(a) && i <= |su.text|
  {
    if greedy then OutStar(su, a, i) else OutLazy(su, a, i)
  }

  lemma AtomEnds(su: Subject, a: Atom, i: nat)
    requires WfAtom(a) && i <= |su.text|
    ensures var more := Ends(OutAtom(su, a, i));
      forall k :: 0 <= k < |more| ==> (if AtomWidth(a) then i + 1 else i) <= more[k] <= |su.text|
  {
    hide OutAtom;
  }

  /** What a repetition comes to, after one more round or none. */
  lemma RepeatEnds(su: Subject, a: Atom, i: nat, greedy: bool)
    requires WfAtom(a) && AtomWidth(a) && i <= |su.text|
    ensures var more := Ends(OutAtom(su, a, i));
      (forall k :: 0 <= k < |more| ==> i < more[k] <= |su.text|) &&
      Ends(Repeats(su, a, i, greedy)) ==
        if greedy then RepeatFrom(su, more, a, true) + [i] else [i] + RepeatFrom(su, more, a, false)
  {
    AtomEnds(su, a, i);
    if greedy { GreedyEnds(su, a, i); } else { ReluctantEnds(su, a, i); }
  }

  lemma GreedyEnds(su: Subject, a: Atom, i: nat)
    requires WfAtom(a) && AtomWidth(a) && i <= |su.text|
    requires var more := Ends(OutAtom(su, a, i)); forall k :: 0 <= k < |more| ==> more[k] <= |su.text|
    ensures Ends(OutStar(su, a, i)) == RepeatFrom(su, Ends(OutAtom(su, a, i)), a, true) + [i]
  {
    hide OutAtom, StarEach, RepeatFrom, WfAtom, AtomWidth;
    var os := OutAtom(su, a, i);
    StarEnds(su, os, a, i + 1);
    EndsConcat(StarEach(su, os, a, i + 1), [Outcome(i, [])]);
  }

  lemma ReluctantEnds(su: Subject, a: Atom, i: nat)
    requires WfAtom(a) && AtomWidth(a) && i <= |su.text|
    requires var more := Ends(OutAtom(su, a, i)); forall k :: 0 <= k < |more| ==> more[k] <= |su.text|
    ensures Ends(OutLazy(su, a, i)) == [i] + RepeatFrom(su, Ends(OutAtom(su, a, i)), a, false)
  {
    hide OutAtom, LazyEach, RepeatFrom, WfAtom, AtomWidth;
    var os := OutAtom(su, a, i);
    LazyEnds(su, os, a, i + 1);
    EndsConcat([Outcome(i, [])], LazyEach(su, os, a, i + 1));
  }

  lemma {:induction false} SameRepeats(su: Subject, a: Atom, b: Atom, i: nat, greedy: bool)
    requires WfAtom(a) && WfAtom(b) && AtomWidth(a) && AtomWidth(b) && SameEnds(su, a, b) && i <= |su.text|
    ensures Ends(Repeats(su, a, i, greedy)) == Ends(Repeats(su, b, i, greedy))
    decreases |su.text| - i, 1, 0
  {
    hide OutAtom, Repeats, RepeatFrom;
    RepeatEnds(su, a, i, greedy);
    RepeatEnds(su, b, i, greedy);
    SameFrom(su, a, b, Ends(OutAtom(su, a, i)), i + 1, greedy);
  }

  lemma {:induction false} SameFrom(su: Subject, a: Atom, b: Atom, starts: seq<nat>, lo: nat, greedy: bool)
    requires WfAtom(a) && WfAtom(b) && AtomWidth(a) && AtomWidth(b) && SameEnds(su, a, b)
    requires forall k :: 0 <= k < |starts| ==> lo <= starts[k] <= |su.text|
    ensures RepeatFrom(su, starts, a, greedy) == RepeatFrom(su, starts, b, greedy)
    decreases |su.text| - lo + 1, 0, |starts|
  {
    hide OutAtom, OutStar, OutLazy, SameEnds;
    if starts != [] {
      SameRepeats(su, a, b, starts[0], greedy);
      SameFrom(su, a, b, starts[1..], lo, greedy);
    }
  }

  /** Where a quantified atom ends follows from where the atom does. */
  lemma PieceEnds(su: Subject, p: Piece, i: nat)
    requires WfPiece(p) && i <= |su.text|
    ensures var a := p.atom; var once := Ends(OutAtom(su, a, i));
      Ends(OutPiece(su, p, i)) == match p.quant
        case One => once
        case Opt => once + [i]
        case Star => Ends(Repeats(su, a, i, true))
        case LazyStar => Ends(Repeats(su, a, i, false))
        case Plus => RepeatFrom(su, once, a, true)
        case LazyPlus => RepeatFrom(su, once, a, false)
  {
    hide OutAtom;
    var os := OutAtom(su, p.atom, i);
    if p.quant.Opt? { EndsConcat(os, [Outcome(i, [])]); }
    if p.quant.Plus? { StarEnds(su, os, p.atom, i + 1); }
    if p.quant.LazyPlus? { LazyEnds(su, os, p.atom, i + 1); }
  }

  lemma SamePiece(su: Subject, p: Piece, q: Piece, i: nat)
    requires WfPiece(p) && WfPiece(q) && p.quant == q.quant && SameEnds(su, p.atom, q.atom) && i <= |su.text|
    requires AtomWidth(p.atom) == AtomWidth(q.atom)
    ensures Ends(OutPiece(su, p, i)) == Ends(OutPiece(su, q, i))
  {
    hide OutAtom, OutPiece, Repeats, RepeatFrom, WfAtom;
    PieceEnds(su, p, i);
    PieceEnds(su, q, i);
    if AtomWidth(p.atom) {
      SameRepeats(su, p.atom, q.atom, i, true);
      SameRepeats(su, p.atom, q.atom, i, false);
      var once := Ends(OutAtom(su, p.atom, i));
      SameFrom(su, p.atom, q.atom, once, i, true);
      SameFrom(su, p.atom, q.atom, once, i, false);
    }
  }

  lemma {:induction false} RenumberedAtom(su: Subject, a: Atom, lo: nat)
    requires WfAtom(a) && CanonAtom(a) && 1 <= lo && lo + AtomGroups(a) <= NSUBEXP
    ensures WfAtom(RenumberAtom(a, lo)) && SameEnds(su, RenumberAtom(a, lo), a)
    decreases a, 0
  {
    AtomRenumbered(a, lo);
    if a.Group? {
      forall j: nat | j <= |su.text| ensures Ends(OutAtom(su, RenumberAtom(a, lo), j)) == Ends(OutAtom(su, a, j)) {
        AltsRenumbered(a.body, lo + 1);
        RenumberedAlts(su, a.body, lo + 1, j);
        GroupEnds(su, a.no, a.body, j);
        GroupEnds(su, lo, RenumberAlts(a.body, lo + 1), j);
      }
    }
  }

  lemma GroupEnds(su: Subject, no: nat, body: Alts, i: nat)
    requires WfAtom(Group(no, body)) && i <= |su.text|
    ensures Ends(OutAtom(su, Group(no, body), i)) == Ends(OutAlts(su, body, i))
  {
    hide OutAlts;
    var os := OutAlts(su, body, i);
    EndsMarked([], no, os);
    EndsMarked([Opened(no, i)], no, Seal(no, os));
  }

  lemma PiecesEnds(su: Subject, p: Piece, rest: Pieces, i: nat)
    requires WfPieces(PCons(p, rest)) && i <= |su.text|
    ensures var starts := Ends(OutPiece(su, p, i));
      (forall k :: 0 <= k < |starts| ==> i <= starts[k] <= |su.text|) &&
      Ends(OutPieces(su, PCons(p, rest), i)) == PiecesFrom(su, starts, rest)
  {
    hide OutPiece, Chain;
    ChainEnds(su, OutPiece(su, p, i), rest, if PieceWidth(p) then i + 1 else i);
  }

  lemma {:induction false} RenumberedPieces(su: Subject, ps: Pieces, lo: nat, i: nat)
    requires WfPieces(ps) && CanonPieces(ps) && 1 <= lo && lo + PiecesGroups(ps) <= NSUBEXP && i <= |su.text|
    ensures WfPieces(RenumberPieces(ps, lo))
    ensures Ends(OutPieces(su, RenumberPieces(ps, lo), i)) == Ends(OutPieces(su, ps, i))
    decreases ps, 0
  {
    hide OutPieces, OutPiece, SameEnds, WfAtom, CanonAtom;
    PiecesRenumbered(ps, lo);
    if ps.PCons? {
      var p, rest, next := ps.head, ps.tail, lo + AtomGroups(ps.head.atom);
      var q := Piece(RenumberAtom(p.atom, lo), p.quant);
      AtomRenumbered(p.atom, lo);
      RenumberedAtom(su, p.atom, lo);
      SamePiece(su, q, p, i);
      PiecesEnds(su, p, rest, i);
      PiecesEnds(su, q, RenumberPieces(rest, next), i);
      RenumberedFrom(su, Ends(OutPiece(su, p, i)), rest, next);
    }
  }

  lemma {:induction false} RenumberedFrom(su: Subject, starts: seq<nat>, ps: Pieces, lo: nat)
    requires WfPieces(ps) && CanonPieces(ps) && 1 <= lo && lo + PiecesGroups(ps) <= NSUBEXP
    requires forall k :: 0 <= k < |starts| ==> starts[k] <= |su.text|
    ensures WfPieces(RenumberPieces(ps, lo))
    ensures PiecesFrom(su, starts, RenumberPieces(ps, lo)) == PiecesFrom(su, starts, ps)
    decreases ps, 1, |starts|
  {
    hide OutPieces;
    PiecesRenumbered(ps, lo);
    if starts != [] {
      RenumberedPieces(su, ps, lo, starts[0]);
      RenumberedFrom(su, starts[1..], ps, lo);
    }
  }

  lemma {:induction false} RenumberedAlts(su: Subject, alts: Alts, lo: nat, i: nat)
    requires WfAlts(alts) && CanonAlts(alts) && 1 <= lo && lo + AltsGroups(alts) <= NSUBEXP && i <= |su.text|
    ensures WfAlts(RenumberAlts(alts, lo))
    ensures Ends(OutAlts(su, RenumberAlts(alts, lo), i)) == Ends(OutAlts(su, alts, i))
    decreases alts, 0
  {
    hide OutPieces;
    AltsRenumbered(alts, lo);
    if alts.ACons? {
      var b, next := alts.first, lo + PiecesGroups(alts.first);
      RenumberedPieces(su, b, lo, i);
      RenumberedAlts(su, alts.rest, next, i);
      EndsConcat(OutPieces(su, b, i), OutAlts(su, alts.rest, i));
      EndsConcat(OutPieces(su, RenumberPieces(b, lo), i), OutAlts(su, RenumberAlts(alts.rest, next), i));
    }
  }

  // ----- Patterns put together -----

  lemma Found(su: Subject, alts: Alts, i: nat)
    requires Canonical(alts) && i <= |su.text|
    ensures NoNul(ShowAlts(alts)) && Finds(su, ShowAlts(alts), i) == Ends(OutAlts(su, alts, i))
  {
    hide OutAlts, Parse, NoNul;
    ShowParses(alts);
  }

  lemma {:induction false} AltAppended(a: Alts, b: Alts, lo: nat)
    requires a.ACons? && b.ACons? && WfAlts(a) && WfAlts(b) && CanonAlts(a) && CanonAlts(b)
    requires AltsNumbered(a, lo) && AltsNumbered(b, lo + AltsGroups(a))
    ensures var c := AltAppend(a, b);
      && c.ACons? && WfAlts(c) && CanonAlts(c) && AltsNumbered(c, lo)
      && ShowAlts(c) == ShowAlts(a) + ['|' as int] + ShowAlts(b)
    decreases a
  {
    hide ShowPieces, WfPieces, CanonPieces, PiecesNumbered, PiecesGroups;
    if a.rest.ACons? { AltAppended(a.rest, b, lo + PiecesGroups(a.first)); }
  }

  lemma {:induction false} AltEnds(su: Subject, a: Alts, b: Alts, i: nat)
    requires WfAlts(a) && WfAlts(b) && WfAlts(AltAppend(a, b)) && i <= |su.text|
    ensures Ends(OutAlts(su, AltAppend(a, b), i)) == Ends(OutAlts(su, a, i)) + Ends(OutAlts(su, b, i))
    decreases a
  {
    hide OutPieces;
    if a.ACons? {
      EndsConcat(OutPieces(su, a.first, i), OutAlts(su, a.rest, i));
      AltEnds(su, a.rest, b, i);
      EndsConcat(OutPieces(su, a.first, i), OutAlts(su, AltAppend(a.rest, b), i));
    }
  }

  /** `p|q` matches where p does, and then where q does. */
  lemma EitherLaw(su: Subject, a: Alts, b: Alts, i: nat)
    requires Canonical(a) && Canonical(b) && AltsGroups(a) + AltsGroups(b) < NSUBEXP && i <= |su.text|
    ensures NoNul(ShowAlts(a) + ['|' as int] + ShowAlts(b)) && NoNul(ShowAlts(a)) && NoNul(ShowAlts(b))
    ensures Finds(su, ShowAlts(a) + ['|' as int] + ShowAlts(b), i)
      == Finds(su, ShowAlts(a), i) + Finds(su, ShowAlts(b), i)
  {
    hide Finds, OutAlts, ShowAlts, NoNul, WfAlts, CanonAlts, AltsNumbered, AltAppend, AltsGroups;
    var more := RenumberAlts(b, 1 + AltsGroups(a));
    AltsRenumbered(b, 1 + AltsGroups(a));
    RenumberedCons(b, 1 + AltsGroups(a));
    RenumberedAlts(su, b, 1 + AltsGroups(a), i);
    AltAppended(a, more, 1);
    AltEnds(su, a, more, i);
    Found(su, a, i);
    Found(su, b, i);
    Found(su, AltAppend(a, more), i);
  }

  lemma RenumberedCons(b: Alts, lo: nat)
    requires b.ACons?
    ensures RenumberAlts(b, lo).ACons?
  {
  }

  /** Two literals do not meet where `ps` goes over into `qs`. */
  predicate Joins(ps: Pieces, qs: Pieces)
  {
    match ps
    case PNil => true
    case PCons(p, rest) => if rest.PNil? then qs.PCons? ==> !(Plain(p) && Plain(qs.head)) else Joins(rest, qs)
  }

  lemma {:induction false} Appended(ps: Pieces, qs: Pieces, lo: nat)
    requires WfPieces(ps) && WfPieces(qs) && CanonPieces(ps) && CanonPieces(qs) && Joins(ps, qs)
    requires PiecesNumbered(ps, lo) && PiecesNumbered(qs, lo + PiecesGroups(ps))
    ensures var rs := Append(ps, qs);
      && WfPieces(rs) && CanonPieces(rs) && PiecesNumbered(rs, lo)
      && ShowPieces(rs) == ShowPieces(ps) + ShowPieces(qs)
  {
    hide WfAtom, CanonAtom, AtomNumbered, ShowPiece;
    if ps.PCons? {
      Appended(ps.tail, qs, lo + AtomGroups(ps.head.atom));
      assert ShowPiece(ps.head) + (ShowPieces(ps.tail) + ShowPieces(qs)) == ShowPieces(ps) + ShowPieces(qs);
    } else {
      assert [] + ShowPieces(qs) == ShowPieces(qs);
    }
  }

  lemma {:induction false} FromConcat(su: Subject, a: seq<nat>, b: seq<nat>, ps: Pieces)
    requires WfPieces(ps)
    requires (forall k :: 0 <= k < |a| ==> a[k] <= |su.text|) && forall k :: 0 <= k < |b| ==> b[k] <= |su.text|
    ensures PiecesFrom(su, a + b, ps) == PiecesFrom(su, a, ps) + PiecesFrom(su, b, ps)
  {
    hide OutPieces;
    if a == [] {
      assert a + b == b;
    } else {
      assert (a + b)[1..] == a[1..] + b;
      FromConcat(su, a[1..], b, ps);
    }
  }

  lemma {:induction false} AppendedEnds(su: Subject, ps: Pieces, qs: Pieces, i: nat)
    requires WfPieces(ps) && WfPieces(qs) && WfPieces(Append(ps, qs)) && i <= |su.text|
    ensures Ends(OutPieces(su, Append(ps, qs), i)) == PiecesFrom(su, Ends(OutPieces(su, ps, i)), qs)
    decreases ps, 1
  {
    hide OutPiece;
    if ps.PNil? {
      assert Ends(OutPieces(su, ps, i)) == [i];
      assert PiecesFrom(su, [i], qs) == Ends(OutPieces(su, qs, i)) + PiecesFrom(su, [i][1..], qs);
    } else {
      PiecesEnds(su, ps.head, ps.tail, i);
      PiecesEnds(su, ps.head, Append(ps.tail, qs), i);
      AppendedFrom(su, Ends(OutPiece(su, ps.head, i)), ps.tail, qs);
    }
  }

  lemma {:induction false} AppendedFrom(su: Subject, starts: seq<nat>, ps: Pieces, qs: Pieces)
    requires WfPieces(ps) && WfPieces(qs) && WfPieces(Append(ps, qs))
    requires forall k :: 0 <= k < |starts| ==> starts[k] <= |su.text|
    ensures PiecesFrom(su, starts, Append(ps, qs)) == PiecesFrom(su, PiecesFrom(su, starts, ps), qs)
    decreases ps, 2, |starts|
  {
    hide OutPieces, Append;
    if starts != [] {
      AppendedEnds(su, ps, qs, starts[0]);
      AppendedFrom(su, starts[1..], ps, qs);
      FromConcat(su, Ends(OutPieces(su, ps, starts[0])), PiecesFrom(su, starts[1..], ps), qs);
    }
  }

  /** A pattern of one alternative. */
  function Branch(ps: Pieces): Alts
  {
    ACons(ps, ANil)
  }

  lemma BranchCanonical(ps: Pieces)
    requires WfPieces(ps) && CanonPieces(ps) && PiecesNumbered(ps, 1)
    ensures Canonical(Branch(ps))
  {
    hide WfPieces, CanonPieces, PiecesNumbered;
    assert WfAlts(ANil) && CanonAlts(ANil) && AltsNumbered(ANil, 1 + PiecesGroups(ps));
  }

  lemma {:induction false} FollowPieces(su: Subject, starts: seq<nat>, qs: Pieces)
    requires Canonical(Branch(qs)) && forall k :: 0 <= k < |starts| ==> starts[k] <= |su.text|
    ensures NoNul(ShowPieces(qs)) && WfPieces(qs) && Follow(su, starts, ShowPieces(qs)) == PiecesFrom(su, starts, qs)
  {
    hide Finds, OutPieces, NoNul;
    ShowParses(Branch(qs));
    if starts != [] {
      BranchFound(su, qs, starts[0]);
      FollowPieces(su, starts[1..], qs);
    }
  }

  lemma BranchFound(su: Subject, ps: Pieces, i: nat)
    requires Canonical(Branch(ps)) && i <= |su.text|
    ensures NoNul(ShowPieces(ps)) && WfPieces(ps)
    ensures Finds(su, ShowPieces(ps), i) == Ends(OutPieces(su, ps, i))
  {
    hide Finds, OutPieces, NoNul;
    Found(su, Branch(ps), i);
    assert OutAlts(su, Branch(ps), i) == OutPieces(su, ps, i) + [];
  }

  /** `pq` matches where q does from the places where p does. */
  lemma ThenLaw(su: Subject, ps: Pieces, qs: Pieces, i: nat)
    requires Canonical(Branch(ps)) && Canonical(Branch(qs)) && Joins(ps, qs) && i <= |su.text|
    requires PiecesGroups(ps) + PiecesGroups(qs) < NSUBEXP
    ensures NoNul(ShowPieces(ps) + ShowPieces(qs)) && NoNul(ShowPieces(ps)) && NoNul(ShowPieces(qs))
    ensures Finds(su, ShowPieces(ps) + ShowPieces(qs), i)
      == Follow(su, Finds(su, ShowPieces(ps), i), ShowPieces(qs))
  {
    hide Finds, OutPieces, ShowPieces, NoNul, WfPieces, CanonPieces, PiecesNumbered, Append, PiecesGroups, Joins;
    var lo := 1 + PiecesGroups(ps);
    var more := RenumberPieces(qs, lo);
    PiecesRenumbered(qs, lo);
    JoinsRenumbered(ps, qs, lo);
    Appended(ps, more, 1);
    AppendedEnds(su, ps, more, i);
    BranchFound(su, ps, i);
    BranchCanonical(Append(ps, more));
    BranchFound(su, Append(ps, more), i);
    var starts := Ends(OutPieces(su, ps, i));
    RenumberedFrom(su, starts, qs, lo);
    FollowPieces(su, starts, qs);
  }

  lemma {:induction false} JoinsRenumbered(ps: Pieces, qs: Pieces, lo: nat)
    requires Joins(ps, qs)
    ensures Joins(ps, RenumberPieces(qs, lo))
  {
    if ps.PCons? && ps.tail.PCons? { JoinsRenumbered(ps.tail, qs, lo); }
  }

  // ----- Groups and repetition -----

  /** An atom that is a pattern by itself, with quantifier `q`. */
  ghost predicate Quantifies(a: Atom, q: Quant)
  {
    WfPiece(Piece(a, q)) && CanonAtom(a) && AtomNumbered(a, 1) && (a.Literal? && !q.One? ==> |a.text| == 1)
  }

  lemma {:induction false} FromNil(su: Subject, starts: seq<nat>)
    requires forall k :: 0 <= k < |starts| ==> starts[k] <= |su.text|
    ensures PiecesFrom(su, starts, PNil) == starts
  {
    if starts != [] {
      FromNil(su, starts[1..]);
      assert Ends(OutPieces(su, PNil, starts[0])) == [starts[0]];
    }
  }

  lemma SingleFound(su: Subject, a: Atom, q: Quant, i: nat)
    requires Quantifies(a, q) && i <= |su.text|
    ensures NoNul(ShowAtom(a) + ShowQuant(q))
    ensures Finds(su, ShowAtom(a) + ShowQuant(q), i) == Ends(OutPiece(su, Piece(a, q), i))
  {
    hide Finds, OutPiece, NoNul, ShowAtom, ShowQuant, WfAtom, CanonAtom, AtomNumbered;
    var p := Piece(a, q);
    var ps := PCons(p, PNil);
    assert WfPieces(PNil) && CanonPieces(PNil) && PiecesNumbered(PNil, 1 + AtomGroups(a));
    BranchCanonical(ps);
    BranchFound(su, ps, i);
    assert ShowPieces(ps) == ShowAtom(a) + ShowQuant(q) + ShowPieces(PNil) == ShowAtom(a) + ShowQuant(q);
    PiecesEnds(su, p, PNil, i);
    FromNil(su, Ends(OutPiece(su, p, i)));
  }

  lemma AtomFound(su: Subject, a: Atom, i: nat)
    requires Quantifies(a, One) && i <= |su.text|
    ensures NoNul(ShowAtom(a)) && Finds(su, ShowAtom(a), i) == Ends(OutAtom(su, a, i))
  {
    hide Finds, OutAtom, NoNul, ShowAtom;
    SingleFound(su, a, One, i);
    assert ShowAtom(a) + [] == ShowAtom(a);
  }

  lemma {:induction false} FollowRepeats(su: Subject, a: Atom, starts: seq<nat>, greedy: bool)
    requires Quantifies(a, if greedy then Star else LazyStar) && AtomWidth(a)
    requires forall k :: 0 <= k < |starts| ==> starts[k] <= |su.text|
    ensures var p := ShowAtom(a) + ShowQuant(if greedy then Star else LazyStar);
      NoNul(p) && Follow(su, starts, p) == RepeatFrom(su, starts, a, greedy)
  {
    hide Finds, OutStar, OutLazy, NoNul, ShowAtom, ShowQuant, Quantifies;
    var q := if greedy then Star else LazyStar;
    SingleFound(su, a, q, |su.text|);
    if starts != [] {
      SingleFound(su, a, q, starts[0]);
      FollowRepeats(su, a, starts[1..], greedy);
    }
  }

  lemma GroupIsPattern(body: Alts)
    requires body.ACons? && WfAlts(body) && CanonAlts(body) && AltsNumbered(body, 2)
    ensures Quantifies(Group(1, body), One) && ShowAtom(Group(1, body)) == ['(' as int] + ShowAlts(body) + [')' as int]
  {
  }

  /** `(p)` matches where p does. */
  lemma GroupLaw(su: Subject, alts: Alts, i: nat)
    requires Canonical(alts) && AltsGroups(alts) + 1 < NSUBEXP && i <= |su.text|
    ensures var p := ShowAlts(alts); var q := ['(' as int] + p + [')' as int];
      NoNul(p) && NoNul(q) && Finds(su, q, i) == Finds(su, p, i)
  {
    hide Finds, OutAtom, OutAlts, NoNul, ShowAlts, ShowAtom, Quantifies, WfAlts, CanonAlts, AltsNumbered;
    var more := RenumberAlts(alts, 2);
    AltsRenumbered(alts, 2);
    RenumberedCons(alts, 2);
    RenumberedAlts(su, alts, 2, i);
    Found(su, alts, i);
    GroupIsPattern(more);
    AtomFound(su, Group(1, more), i);
    GroupEnds(su, 1, more, i);
  }

  /** `p?` matches where p does, and then here. */
  lemma OptionalLaw(su: Subject, a: Atom, i: nat)
    requires Quantifies(a, One) && Quantifies(a, Opt) && i <= |su.text|
    ensures var p := ShowAtom(a);
      NoNul(p) && NoNul(p + ['?' as int]) && Finds(su, p + ['?' as int], i) == Finds(su, p, i) + [i]
  {
    hide Finds, OutAtom, OutPiece, NoNul, ShowAtom, Quantifies;
    AtomFound(su, a, i);
    SingleFound(su, a, Opt, i);
    assert ShowQuant(Opt) == ['?' as int];
    PieceOf(su, a, Opt, i);
  }

  lemma PieceOf(su: Subject, a: Atom, q: Quant, i: nat)
    requires Quantifies(a, q) && i <= |su.text|
    ensures var once := Ends(OutAtom(su, a, i));
      (forall k :: 0 <= k < |once| ==> once[k] <= |su.text|) &&
      Ends(OutPiece(su, Piece(a, q), i)) == match q
        case One => once
        case Opt => once + [i]
        case Star => Ends(Repeats(su, a, i, true))
        case LazyStar => Ends(Repeats(su, a, i, false))
        case Plus => RepeatFrom(su, once, a, true)
        case LazyPlus => RepeatFrom(su, once, a, false)
  {
    hide OutAtom, OutPiece, Repeats, RepeatFrom;
    PieceEnds(su, Piece(a, q), i);
    AtomEnds(su, a, i);
  }

  /** `p*` matches where one more p and then `p*` does, and then here; `p+` where a p and then `p*` does. */
  lemma GreedyLaw(su: Subject, a: Atom, i: nat)
    requires Quantifies(a, One) && Quantifies(a, Star) && i <= |su.text|
    ensures var p := ShowAtom(a); var star, plus := p + ['*' as int], p + ['+' as int];
      && NoNul(p) && NoNul(star) && NoNul(plus)
      && Finds(su, star, i) == Follow(su, Finds(su, p, i), star) + [i]
      && Finds(su, plus, i) == Follow(su, Finds(su, p, i), star)
  {
    hide Finds, OutAtom, OutPiece, NoNul, ShowAtom, Repeats, RepeatFrom;
    AtomFound(su, a, i);
    SingleFound(su, a, Star, i);
    SingleFound(su, a, Plus, i);
    assert ShowQuant(Star) == ['*' as int] && ShowQuant(Plus) == ['+' as int];
    PieceOf(su, a, Star, i);
    PieceOf(su, a, Plus, i);
    RepeatEnds(su, a, i, true);
    FollowRepeats(su, a, Ends(OutAtom(su, a, i)), true);
  }

  /** `p*?` and `p+?` prefer fewer rounds. */
  lemma ReluctantLaw(su: Subject, a: Atom, i: nat)
    requires Quantifies(a, One) && Quantifies(a, LazyStar) && i <= |su.text|
    ensures var p := ShowAtom(a); var star, plus := p + ['*' as int, '?' as int], p + ['+' as int, '?' as int];
      && NoNul(p) && NoNul(star) && NoNul(plus)
      && Finds(su, star, i) == [i] + Follow(su, Finds(su, p, i), star)
      && Finds(su, plus, i) == Follow(su, Finds(su, p, i), star)
  {
    hide Finds, OutAtom, OutPiece, NoNul, ShowAtom, Repeats, RepeatFrom;
    assert AtomWidth(a);
    AtomFound(su, a, i);
    SingleFound(su, a, LazyStar, i);
    SingleFound(su, a, LazyPlus, i);
    assert ShowQuant(LazyStar) == ['*' as int, '?' as int] && ShowQuant(LazyPlus) == ['+' as int, '?' as int];
    PieceOf(su, a, LazyStar, i);
    PieceOf(su, a, LazyPlus, i);
    RepeatEnds(su, a, i, false);
    FollowRepeats(su, a, Ends(OutAtom(su, a, i)), false);
  }

  // ----- Single characters -----

  predicate Letter(c: Byte)
  {
    65 <= c <= 90 || 97 <= c <= 122
  }

  /** `x` is read as `c`: the same byte, or when case is ignored the same letter. */
  predicate ReadAs(su: Subject, c: Byte, x: Byte)
  {
    x == c || (su.nocase && Letter(c) && Letter(x) && (x == c + 32 || c == x + 32))
  }

  /** What an atom of one character accepts. */
  predicate Accepts(su: Subject, a: Atom, x: Byte)
    requires Simple(a)
  {
    match a
    case Literal(text) => ReadAs(su, text[0], x)
    case Class(negated, members) => if negated then x !in members else x in members
    case Kind(k, complement) =>
      var among := match k
        case Word => Letter(x) || 48 <= x <= 57 || x == 95
        case Space => x == 32 || x == 9 || x == 10 || x == 11 || x == 12 || x == 13
        case Digit => 48 <= x <= 57;
      if complement then !among else among
    case _ => true
  }

  lemma HitsMeans(su: Subject, a: Atom, x: Byte)
    requires Simple(a)
    ensures Hits(su, a, x) <==> Accepts(su, a, x)
  {
  }

  ghost predicate AcceptsAt(su: Subject, a: Atom, i: nat)
    requires Simple(a)
  {
    i < |su.text| && Accepts(su, a, su.text[i])
  }

  lemma SimpleEnds(su: Subject, a: Atom, i: nat)
    requires WfAtom(a) && Simple(a) && i <= |su.text|
    ensures Ends(OutAtom(su, a, i)) == if AcceptsAt(su, a, i) then [i + 1] else []
  {
    if i < |su.text| { HitsMeans(su, a, su.text[i]); }
  }

  /** `n` characters in a row are accepted, and no more. */
  ghost predicate Row(su: Subject, a: Atom, i: nat, n: nat)
    requires Simple(a)
  {
    (forall j: nat :: i <= j < i + n ==> AcceptsAt(su, a, j)) && !AcceptsAt(su, a, i + n)
  }

  /** i + n, ..., i */
  function Down(i: nat, n: nat): seq<nat>
  {
    seq(n + 1, k requires 0 <= k <= n => i + n - k)
  }

  /** i, ..., i + n */
  function Up(i: nat, n: nat): seq<nat>
  {
    seq(n + 1, k requires 0 <= k <= n => i + k)
  }

  lemma RowParts(su: Subject, a: Atom, i: nat, n: nat)
    requires Simple(a) && Row(su, a, i, n) && i <= |su.text|
    ensures AcceptsAt(su, a, i) <==> n > 0
    ensures n > 0 ==> i < |su.text| && Row(su, a, i + 1, n - 1)
  {
    hide Accepts;
  }

  lemma DownUp(i: nat, n: nat)
    ensures Down(i, 0) == [i] == Up(i, 0)
    ensures n > 0 ==> Down(i, n) == Down(i + 1, n - 1) + [i] && Up(i, n) == [i] + Up(i + 1, n - 1)
  {
  }

  lemma {:induction false} RowRepeats(su: Subject, a: Atom, i: nat, n: nat)
    requires WfAtom(a) && Simple(a) && Row(su, a, i, n) && i <= |su.text|
    ensures Ends(OutStar(su, a, i)) == Down(i, n) && Ends(OutLazy(su, a, i)) == Up(i, n)
    decreases n
  {
    hide OutStar, OutLazy, OutAtom, AcceptsAt, Row, WfAtom, RepeatFrom, Down, Up;
    RowParts(su, a, i, n);
    SimpleEnds(su, a, i);
    RepeatEnds(su, a, i, true);
    RepeatEnds(su, a, i, false);
    DownUp(i, n);
    if n > 0 {
      RowRepeats(su, a, i + 1, n - 1);
      OneStart(su, i + 1, a);
    } else {
      NoStart(su, a);
      assert [] + [i] == [i] == [i] + [];
    }
  }

  lemma NoStart(su: Subject, a: Atom)
    requires WfAtom(a) && AtomWidth(a)
    ensures RepeatFrom(su, [], a, true) == [] == RepeatFrom(su, [], a, false)
  {
  }

  lemma OneStart(su: Subject, i: nat, a: Atom)
    requires WfAtom(a) && AtomWidth(a) && i <= |su.text|
    ensures RepeatFrom(su, [i], a, true) == Ends(OutStar(su, a, i))
    ensures RepeatFrom(su, [i], a, false) == Ends(OutLazy(su, a, i))
  {
    hide OutStar, OutLazy;
    assert [i][1..] == [];
  }

  lemma RowPlus(su: Subject, a: Atom, i: nat, n: nat)
    requires Simple(a) && Quantifies(a, Plus) && Row(su, a, i, n) && i <= |su.text|
    ensures Quantifies(a, LazyPlus)
    ensures Ends(OutPiece(su, Piece(a, Plus), i)) == if n > 0 then Down(i + 1, n - 1) else []
    ensures Ends(OutPiece(su, Piece(a, LazyPlus), i)) == if n > 0 then Up(i + 1, n - 1) else []
  {
    hide OutAtom, OutStar, OutLazy, OutPiece, AcceptsAt, Row, WfAtom, RepeatFrom, Down, Up;
    RowParts(su, a, i, n);
    SimpleEnds(su, a, i);
    PieceOf(su, a, Plus, i);
    PieceOf(su, a, LazyPlus, i);
    if n > 0 {
      RowRepeats(su, a, i + 1, n - 1);
      OneStart(su, i + 1, a);
    } else {
      NoStart(su, a);
    }
  }

  /** One character, once and repeated: `p*` takes up to `n` of them, the most first, and `p+` at least one;
      `p*?` and `p+?` take the fewest first. */
  lemma CharacterLaw(su: Subject, a: Atom, i: nat, n: nat)
    requires Simple(a) && Quantifies(a, Star) && Row(su, a, i, n) && i <= |su.text|
    ensures var p := ShowAtom(a); var star, plus := p + ['*' as int], p + ['+' as int];
      var star', plus' := star + ['?' as int], plus + ['?' as int];
      && NoNul(p) && NoNul(star) && NoNul(plus) && NoNul(star') && NoNul(plus')
      && (Quantifies(a, One) ==> Finds(su, p, i) == if n > 0 then [i + 1] else [])
      && Finds(su, star, i) == Down(i, n) && Finds(su, star', i) == Up(i, n)
      && Finds(su, plus, i) == (if n > 0 then Down(i + 1, n - 1) else [])
      && Finds(su, plus', i) == (if n > 0 then Up(i + 1, n - 1) else [])
  {
    hide Finds, OutAtom, OutStar, OutLazy, OutPiece, NoNul, ShowAtom, Accepts, WfAtom, CanonAtom;
    var p := ShowAtom(a);
    RowRepeats(su, a, i, n);
    RowPlus(su, a, i, n);
    SimpleEnds(su, a, i);
    RowParts(su, a, i, n);
    SingleFound(su, a, Star, i);
    SingleFound(su, a, LazyStar, i);
    SingleFound(su, a, Plus, i);
    SingleFound(su, a, LazyPlus, i);
    QuantBytes(p);
    PieceOf(su, a, Star, i);
    PieceOf(su, a, LazyStar, i);
    NoNulPart(p, ['*' as int]);
    if Quantifies(a, One) { AtomFound(su, a, i); }
  }

  lemma NoNulPart(p: seq<Byte>, q: seq<Byte>)
    requires NoNul(p + q)
    ensures NoNul(p)
  {
    forall j | 0 <= j < |p| ensures p[j] != 0 { assert p[j] == (p + q)[j]; }
  }

  lemma QuantBytes(p: seq<Byte>)
    ensures p + ['*' as int] == p + ShowQuant(Star) && p + ['+' as int] == p + ShowQuant(Plus)
    ensures p + ['*' as int] + ['?' as int] == p + ShowQuant(LazyStar)
    ensures p + ['+' as int] + ['?' as int] == p + ShowQuant(LazyPlus)
  {
    assert p + ['*' as int] + ['?' as int] == p + ['*' as int, '?' as int];
    assert p + ['+' as int] + ['?' as int] == p + ['+' as int, '?' as int];
  }
}
