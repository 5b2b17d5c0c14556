/** The machine finds exactly the first outcome, unless it hits its recursion limit; and what it
    finds is always an outcome. */
module RegexpAgreement {
  import opened RegexpSyntax
  import opened RegexpSemantics
  import opened RegexpMachine

  /** Success is always sound; without overflow it is complete and picks the preferred outcome. */
  ghost predicate Agrees(r: Result, os: seq<Outcome>)
  {
    && (r.ok ==> Outcome(r.end, r.trace) in os)
    && (!r.over ==> (r.ok <==> os != []))
    && (!r.over && r.ok ==> os[0] == Outcome(r.end, r.trace))
  }

  lemma AgreesOr(x: Result, y: Result, xs: seq<Outcome>, ys: seq<Outcome>)
    requires Agrees(x, xs) && Agrees(y, ys)
    ensures Agrees(OrElse(x, y), xs + ys)
  {
  }

  lemma AgreesBefore(t: seq<Event>, r: Result, os: seq<Outcome>)
    requires Agrees(r, os)
    ensures Agrees(Before(t, r), Prefix(t, os))
  {
    if r.ok {
      var j :| 0 <= j < |os| && os[j] == Outcome(r.end, r.trace);
      assert Prefix(t, os)[j] == Outcome(r.end, t + r.trace);
    }
  }

  // ----- Progress -----

  lemma {:induction false} ProgressWide(k: Cont, i: nat)
    requires Progress(k, i, false)
    ensures Progress(k, i, true)
  {
    match k
    case Done =>
    case Seq(ps, k') => if !PiecesWidth(ps) { ProgressWide(k', i); }
    case Choose(alts, k') => if !AltsWidth(alts) { ProgressWide(k', i); }
    case Shut(_, k') => ProgressWide(k', i);
    case Loop(_, _, k') => ProgressWide(k', i);
    case Again(_, _, k') => ProgressWide(k', i);
    case Redo(_, _, k') => ProgressWide(k', i);
  }

  lemma {:induction false} ProgressOn(k: Cont, i: nat, j: nat, wide: bool)
    requires Progress(k, i, wide) && i <= j && (wide ==> i < j)
    ensures Progress(k, j, false)
  {
    match k
    case Done =>
    case Seq(ps, k') =>
      if PiecesWidth(ps) && !wide { ProgressLater(k', i, j, true); } else { ProgressOn(k', i, j,
        wide || PiecesWidth(ps)); if PiecesWidth(ps) { ProgressWide(k', j); } }
    case Choose(alts, k') =>
      if AltsWidth(alts) && !wide { ProgressLater(k', i, j, true); } else { ProgressOn(k', i, j,
        wide || AltsWidth(alts)); if AltsWidth(alts) { ProgressWide(k', j); } }
    case Shut(_, k') => ProgressOn(k', i, j, wide);
    case Loop(_, _, k') => ProgressOn(k', i, j, wide);
    case Again(_, _, k') => ProgressOn(k', i, j, wide);
    case Redo(_, _, k') => ProgressOn(k', i, j, wide);
  }

  lemma {:induction false} ProgressLater(k: Cont, i: nat, j: nat, wide: bool)
    requires Progress(k, i, wide) && i <= j
    ensures Progress(k, j, wide)
  {
    match k
    case Done =>
    case Seq(ps, k') => ProgressLater(k', i, j, wide || PiecesWidth(ps));
    case Choose(alts, k') => ProgressLater(k', i, j, wide || AltsWidth(alts));
    case Shut(_, k') => ProgressLater(k', i, j, wide);
    case Loop(_, _, k') => ProgressLater(k', i, j, wide);
    case Again(_, _, k') => ProgressLater(k', i, j, wide);
    case Redo(_, _, k') => ProgressLater(k', i, j, wide);
  }

  // ----- One-character loops -----

  /** The outcomes hi, hi-1, ..., lo. */
  function Down(lo: nat, hi: int): (r: seq<Outcome>)
    ensures Between(r, lo, hi)
    decreases hi + 1 - lo
  {
    if hi < lo then [] else [Outcome(hi, [])] + Down(lo, hi - 1)
  }

  lemma {:induction false} DownLast(lo: nat, hi: nat)
    requires lo <= hi
    ensures Down(lo, hi) == Down(lo + 1, hi) + [Outcome(lo, [])]
    decreases hi
  {
    if lo < hi {
      DownLast(lo, hi - 1);
      assert [Outcome(hi, [])] + (Down(lo + 1, hi - 1) + [Outcome(lo, [])])
          == [Outcome(hi, [])] + Down(lo + 1, hi - 1) + [Outcome(lo, [])];
    } else {
      assert Down(lo, hi - 1) == [];
    }
  }

  lemma {:induction false} StarIsDown(su: Subject, a: Atom, i: nat)
    requires WfAtom(a) && Simple(a) && i <= |su.text|
    ensures OutStar(su, a, i) == Down(i, i + Count(su, a, i))
    ensures StarEach(su, OutAtom(su, a, i), a, i + 1) == Down(i + 1, i + Count(su, a, i))
    decreases |su.text| - i
  {
    hide OutStar, StarEach, OutAtom, Count, Down, Hits;
    SimpleOut(su, a, i);
    var n := Count(su, a, i);
    DownLast(i, i + n);
    if n > 0 {
      StepHit(su, a, i);
      StarIsDown(su, a, i + 1);
      assert i + 1 + Count(su, a, i + 1) == i + n;
    } else {
      StepMiss(su, a, i);
      DownEmpty(i);
      assert [] + [Outcome(i, [])] == [Outcome(i, [])];
    }
  }

  lemma DownEmpty(i: nat)
    ensures Down(i + 1, i) == [] && Up(i + 1, i) == [] && Up(i, i) == [Outcome(i, [])]
  {
    assert Up(i, i) == [Outcome(i, [])] + Up(i + 1, i);
  }

  lemma StepHit(su: Subject, a: Atom, i: nat)
    requires WfAtom(a) && Simple(a) && i <= |su.text| && Count(su, a, i) > 0
    ensures StarEach(su, OutAtom(su, a, i), a, i + 1) == OutStar(su, a, i + 1)
    ensures OutStar(su, a, i) == OutStar(su, a, i + 1) + [Outcome(i, [])]
    ensures LazyEach(su, OutAtom(su, a, i), a, i + 1) == OutLazy(su, a, i + 1)
    ensures OutLazy(su, a, i) == [Outcome(i, [])] + OutLazy(su, a, i + 1)
  {
    SimpleOut(su, a, i);
    EachOne(su, a, i + 1);
  }

  lemma StepMiss(su: Subject, a: Atom, i: nat)
    requires WfAtom(a) && Simple(a) && i <= |su.text| && Count(su, a, i) == 0
    ensures StarEach(su, OutAtom(su, a, i), a, i + 1) == [] && OutStar(su, a, i) == [Outcome(i, [])]
    ensures LazyEach(su, OutAtom(su, a, i), a, i + 1) == [] && OutLazy(su, a, i) == [Outcome(i, [])]
  {
    SimpleOut(su, a, i);
  }

  lemma EachOne(su: Subject, a: Atom, j: nat)
    requires WfAtom(a) && AtomWidth(a) && j <= |su.text|
    ensures StarEach(su, [Outcome(j, [])], a, j) == OutStar(su, a, j)
    ensures LazyEach(su, [Outcome(j, [])], a, j) == OutLazy(su, a, j)
  {
    hide OutStar, OutLazy;
    assert [Outcome(j, [])][1..] == [];
    PrefixNone(OutStar(su, a, j));
    PrefixNone(OutLazy(su, a, j));
  }

  /** The outcomes lo, lo+1, ..., hi. */
  function Up(lo: nat, hi: nat): (r: seq<Outcome>)
    ensures Between(r, lo, hi)
    decreases hi + 1 - lo
  {
    if hi < lo then [] else [Outcome(lo, [])] + Up(lo + 1, hi)
  }

  lemma {:induction false} LazyIsUp(su: Subject, a: Atom, i: nat)
    requires WfAtom(a) && Simple(a) && i <= |su.text|
    ensures OutLazy(su, a, i) == Up(i, i + Count(su, a, i))
    ensures LazyEach(su, OutAtom(su, a, i), a, i + 1) == Up(i + 1, i + Count(su, a, i))
    decreases |su.text| - i
  {
    hide OutLazy, LazyEach, OutAtom, Count, Hits, Up;
    SimpleOut(su, a, i);
    var n := Count(su, a, i);
    if n > 0 {
      StepHit(su, a, i);
      LazyIsUp(su, a, i + 1);
      assert i + 1 + Count(su, a, i + 1) == i + n;
      UpFirst(i, i + n);
    } else {
      StepMiss(su, a, i);
      DownEmpty(i);
    }
  }

  lemma UpFirst(lo: nat, hi: nat)
    requires lo <= hi
    ensures Up(lo, hi) == [Outcome(lo, [])] + Up(lo + 1, hi)
  {
  }

  /** A one-character atom, a one-character literal included, has at most one outcome. */
  lemma SimpleOut(su: Subject, a: Atom, i: nat)
    requires WfAtom(a) && Simple(a) && i <= |su.text|
    ensures OutAtom(su, a, i) == if i < |su.text| && Hits(su, a, su.text[i]) then [Outcome(i + 1, [])] else []
    ensures Count(su, a, i) == if i < |su.text| && Hits(su, a, su.text[i]) then 1 + Count(su, a, i + 1) else 0
  {
  }

  /** Skipping a hopeless place loses nothing: the literal that follows would fail there. */
  lemma HopelessMeans(su: Subject, k: Cont, i: nat)
    requires WfCont(k) && i <= |su.text| && Hopeless(su, k, i)
    ensures Means(su, k, i) == []
  {
    var text := k.ps.head.atom.text;
    assert i + |text| <= |su.text| ==> !Same(su, text[0], su.text[i + 0]);
    assert OutPiece(su, k.ps.head, i) == [];
    assert OutPieces(su, k.ps, i) == [];
  }

  lemma TryAgrees(su: Subject, max: int, k: Cont, i: nat, depth: nat)
    requires WfCont(k) && i <= |su.text| && Progress(k, i, false)
    ensures Agrees(Try(su, max, k, i, depth), Means(su, k, i))
    decreases |su.text| - i, Weight(k, i), 2
  {
    if Hopeless(su, k, i) {
      HopelessMeans(su, k, i);
    } else {
      NestedAgrees(su, max, k, i, depth);
    }
  }

  lemma DownAgrees(su: Subject, max: int, k: Cont, i: nat, no: int, min: nat, depth: nat)
    requires WfCont(k) && i <= |su.text| && -1 <= i + no <= |su.text| && Progress(k, i, min > 0)
    ensures Between(Down(i + min, i + no), 0, |su.text|)
    ensures Agrees(RunDown(su, max, k, i, no, min, depth), Then(su, Down(i + min, i + no), k))
    decreases |su.text| - i, Weight(k, i), 3, no + 1
  {
    hide Means, Agrees, Try, Progress, OrElse, Then, WfCont;
    ThenNil(su, k);
    if no < min {
      AgreesFail();
    } else {
      ProgressOn(k, i, i + no, min > 0);
      TryAgrees(su, max, k, i + no, depth);
      ThenHere(su, i + no, k);
      DownAgrees(su, max, k, i, no - 1, min, depth);
      AgreesOr(Try(su, max, k, i + no, depth), RunDown(su, max, k, i, no - 1, min, depth),
               Means(su, k, i + no), Then(su, Down(i + min, i + no - 1), k));
      ThenConcat(su, [Outcome(i + no, [])], Down(i + min, i + no - 1), k);
    }
  }

  lemma ThenNil(su: Subject, k: Cont)
    requires WfCont(k)
    ensures Then(su, [], k) == []
  {
  }

  lemma AgreesFail()
    ensures Agrees(FAIL, [])
  {
  }

  lemma UpAgrees(su: Subject, max: int, k: Cont, i: nat, no: nat, most: nat, depth: nat)
    requires WfCont(k) && i <= |su.text| && i + most <= |su.text| && Progress(k, i, no > 0)
    ensures Between(Up(i + no, i + most), 0, |su.text|)
    ensures Agrees(RunUp(su, max, k, i, no, most, depth), Then(su, Up(i + no, i + most), k))
    decreases |su.text| - i, Weight(k, i), 3, most + 1 - no
  {
    hide Means, Agrees, Try, Progress, OrElse, Then, WfCont;
    ThenNil(su, k);
    if no > most {
      AgreesFail();
    } else {
      ProgressOn(k, i, i + no, no > 0);
      TryAgrees(su, max, k, i + no, depth);
      ThenHere(su, i + no, k);
      if no == 0 { ProgressWide(k, i); }
      UpAgrees(su, max, k, i, no + 1, most, depth);
      AgreesOr(Try(su, max, k, i + no, depth), RunUp(su, max, k, i, no + 1, most, depth),
               Means(su, k, i + no), Then(su, Up(i + no + 1, i + most), k));
      ThenConcat(su, [Outcome(i + no, [])], Up(i + no + 1, i + most), k);
    }
  }

  lemma SimpleAgrees(su: Subject, max: int, p: Piece, k: Cont, i: nat, depth: nat)
    requires WfPiece(p) && WfCont(k) && i <= |su.text| && Simple(p.atom) && !p.quant.One? && !p.quant.Opt?
    requires Progress(k, i, PieceWidth(p))
    ensures Agrees(RunSimple(su, max, p, k, i, depth), Then(su, OutPiece(su, p, i), k))
    decreases |su.text| - i, Weight(k, i), 4
  {
    hide Means, Agrees, Progress, Then, OutStar, StarEach, OutLazy, LazyEach, OutAtom, RunDown, RunUp;
    var n := Count(su, p.atom, i);
    StarIsDown(su, p.atom, i);
    LazyIsUp(su, p.atom, i);
    match p.quant
    case Star => DownAgrees(su, max, k, i, n, 0, depth);
    case Plus => DownAgrees(su, max, k, i, n, 1, depth);
    case LazyStar => UpAgrees(su, max, k, i, 0, n, depth);
    case LazyPlus => UpAgrees(su, max, k, i, 1, n, depth);
  }

  // ----- The machine -----

  /** Soundness and completeness of the machine on every continuation. */
  lemma RunAgrees(su: Subject, max: int, k: Cont, i: nat, depth: nat)
    requires WfCont(k) && i <= |su.text| && Progress(k, i, false)
    ensures Agrees(Run(su, max, k, i, depth), Means(su, k, i))
    decreases |su.text| - i, Weight(k, i), 0
  {
    match k
    case Done =>
    case Seq(ps, k') =>
      if ps.PNil? {
        RunAgrees(su, max, k', i, depth);
        ThenHere(su, i, k');
      } else {
        var lo := if PieceWidth(ps.head) then i + 1 else i;
        AfterProgress(ps, k', i);
        PieceAgrees(su, max, ps.head, After(ps.tail, k'), i, depth);
        ThenChain(su, OutPiece(su, ps.head, i), ps.tail, lo, k');
      }
    case Choose(alts, k') =>
      if alts.rest.ANil? {
        assert AltsWidth(alts) == PiecesWidth(alts.first);
        RunAgrees(su, max, Seq(alts.first, k'), i, depth);
        assert OutAlts(su, alts, i) == OutPieces(su, alts.first, i);
      } else {
        AltsAgrees(su, max, alts, k', i, depth);
      }
    case Shut(no, k') =>
      NestedAgrees(su, max, k', i, depth);
      AgreesBefore([Closed(no, i)], Nested(su, max, k', i, depth), Means(su, k', i));
    case Loop(a, from, k') =>
      PieceAgrees(su, max, Piece(a, Star), k', i, depth);
    case Again(a, from, k') =>
      NestedAgrees(su, max, Redo(a, from, k'), i, depth);
      NestedAgrees(su, max, Seq(PNil, k'), i, depth);
      AgreesOr(Nested(su, max, Redo(a, from, k'), i, depth), Nested(su, max, Seq(PNil, k'), i, depth),
               Means(su, Redo(a, from, k'), i), Means(su, Seq(PNil, k'), i));
      ThenConcat(su, StarEach(su, OutAtom(su, a, i), a, i + 1), [Outcome(i, [])], k');
    case Redo(a, from, k') =>
      ProgressWide(k', i);
      PieceAgrees(su, max, Piece(a, Plus), k', i, depth);
  }

  lemma NestedAgrees(su: Subject, max: int, k: Cont, i: nat, depth: nat)
    requires WfCont(k) && i <= |su.text| && Progress(k, i, false)
    ensures Agrees(Nested(su, max, k, i, depth), Means(su, k, i))
    decreases |su.text| - i, Weight(k, i), 1
  {
    if depth + 1 < max {
      RunAgrees(su, max, k, i, depth + 1);
    }
  }

  lemma AltsAgrees(su: Subject, max: int, alts: Alts, k: Cont, i: nat, depth: nat)
    requires alts.ACons? && WfAlts(alts) && WfCont(k) && i <= |su.text| && Progress(k, i, AltsWidth(alts))
    ensures Agrees(RunAlts(su, max, alts, k, i, depth), Then(su, OutAlts(su, alts, i), k))
    decreases |su.text| - i, AltsWeight(alts) + 1 + Weight(k, i), 2
  {
    var b, rest := alts.first, alts.rest;
    if !AltsWidth(alts) {
      if PiecesWidth(b) || AltsWidth(rest) { ProgressWide(k, i); }
    }
    NestedAgrees(su, max, Seq(b, k), i, depth);
    if rest.ACons? {
      AltsAgrees(su, max, rest, k, i, depth);
      AgreesOr(Nested(su, max, Seq(b, k), i, depth), RunAlts(su, max, rest, k, i, depth),
               Means(su, Seq(b, k), i), Then(su, OutAlts(su, rest, i), k));
      ThenConcat(su, OutPieces(su, b, i), OutAlts(su, rest, i), k);
    } else {
      assert OutAlts(su, alts, i) == OutPieces(su, b, i);
    }
  }

  lemma AtomAgrees(su: Subject, max: int, a: Atom, k: Cont, i: nat, depth: nat)
    requires WfAtom(a) && WfCont(k) && i <= |su.text| && Progress(k, i, AtomWidth(a))
    ensures Agrees(RunAtom(su, max, a, k, i, depth), Then(su, OutAtom(su, a, i), k))
    decreases |su.text| - i, AtomWeight(a) + Weight(k, i), 0
  {
    if a.Group? {
      GroupAgrees(su, max, a, k, i, depth);
    } else {
      hide Means, Then, Agrees, Run, Progress;
      var os := OutAtom(su, a, i);
      ThenNil(su, k);
      AgreesFail();
      if os != [] {
        var j := os[0].end;
        assert os == [Outcome(j, [])];
        ProgressOn(k, i, j, AtomWidth(a));
        RunAgrees(su, max, k, j, depth);
        ThenHere(su, j, k);
      }
    }
  }

  lemma GroupAgrees(su: Subject, max: int, a: Atom, k: Cont, i: nat, depth: nat)
    requires a.Group? && WfAtom(a) && WfCont(k) && i <= |su.text| && Progress(k, i, AtomWidth(a))
    ensures Agrees(RunAtom(su, max, a, k, i, depth), Then(su, OutAtom(su, a, i), k))
    decreases |su.text| - i, AtomWeight(a) + Weight(k, i) - 1, 0
  {
    var inner, shut := OutAlts(su, a.body, i), Shut(a.no, k);
    var r := Nested(su, max, Choose(a.body, shut), i, depth);
    assert Weight(shut, i) == 1 + Weight(k, i) && Progress(shut, i, AtomWidth(a)) && WfCont(shut);
    NestedAgrees(su, max, Choose(a.body, shut), i, depth);
    hide Means, Then, Agrees, Nested, OutAlts;
    ChooseMeans(su, a.body, shut, i);
    AgreesBefore([Opened(a.no, i)], r, Then(su, inner, shut));
    ThenSeal(su, a.no, inner, k);
    ThenPrefix(su, [Opened(a.no, i)], Seal(a.no, inner), k);
  }

  lemma ChooseMeans(su: Subject, alts: Alts, k: Cont, i: nat)
    requires alts.ACons? && WfAlts(alts) && WfCont(k) && i <= |su.text|
    ensures Means(su, Choose(alts, k), i) == Then(su, OutAlts(su, alts, i), k)
  {
  }

  lemma AfterProgress(ps: Pieces, k: Cont, i: nat)
    requires ps.PCons? && Progress(Seq(ps, k), i, false)
    ensures Progress(After(ps.tail, k), i, PieceWidth(ps.head))
  {
    if ps.tail.PNil? { assert PiecesWidth(ps) == PieceWidth(ps.head); }
  }

  lemma PieceAgrees(su: Subject, max: int, p: Piece, k: Cont, i: nat, depth: nat)
    requires WfPiece(p) && WfCont(k) && i <= |su.text| && Progress(k, i, PieceWidth(p))
    ensures Agrees(RunPiece(su, max, p, k, i, depth), Then(su, OutPiece(su, p, i), k))
    decreases |su.text| - i, PieceWeight(p) + Weight(k, i), 0
  {
    hide Means, Agrees, Progress, Then, OutStar, StarEach, OutLazy, LazyEach, OutAtom, RunAtom, Nested, RunSimple, Run;
    var a := p.atom;
    OnlyWeight(a, k, i);
    if p.quant.One? {
      AtomAgrees(su, max, a, k, i, depth);
    } else if p.quant.Opt? {
      OnlyProgress(a, k, i);
      ThenSkip(su, OutAtom(su, a, i), k);
      ThenOnly(su, a, i, Seq(PNil, k));
      NestedAgrees(su, max, Seq(Only(a), Seq(PNil, k)), i, depth);
      StopAgrees(su, max, k, i, depth);
      AgreesOr(Nested(su, max, Seq(Only(a), Seq(PNil, k)), i, depth), Nested(su, max, Seq(PNil, k), i, depth),
               Then(su, OutAtom(su, a, i), k), Then(su, [Outcome(i, [])], k));
      ThenConcat(su, OutAtom(su, a, i), [Outcome(i, [])], k);
    } else if Simple(a) {
      SimpleAgrees(su, max, p, k, i, depth);
    } else if p.quant.Star? {
      LoopProgress(a, k, i);
      ThenOnly(su, a, i, Loop(a, i, k));
      ThenStarEach(su, OutAtom(su, a, i), a, i + 1, i, k);
      NestedAgrees(su, max, Seq(Only(a), Loop(a, i, k)), i, depth);
      StopAgrees(su, max, k, i, depth);
      AgreesOr(Nested(su, max, Seq(Only(a), Loop(a, i, k)), i, depth), Nested(su, max, Seq(PNil, k), i, depth),
               Then(su, StarEach(su, OutAtom(su, a, i), a, i + 1), k), Then(su, [Outcome(i, [])], k));
      ThenConcat(su, StarEach(su, OutAtom(su, a, i), a, i + 1), [Outcome(i, [])], k);
      StarUnfold(su, a, i);
    } else {
      AgainProgress(a, k, i);
      ThenOnly(su, a, i, Again(a, i, k));
      ThenStarEach(su, OutAtom(su, a, i), a, i + 1, i, k);
      RunAgrees(su, max, Seq(Only(a), Again(a, i, k)), i, depth);
    }
  }

  lemma StarUnfold(su: Subject, a: Atom, i: nat)
    requires WfAtom(a) && AtomWidth(a) && i <= |su.text|
    ensures OutStar(su, a, i) == StarEach(su, OutAtom(su, a, i), a, i + 1) + [Outcome(i, [])]
  {
  }

  lemma StopAgrees(su: Subject, max: int, k: Cont, i: nat, depth: nat)
    requires WfCont(k) && i <= |su.text| && Progress(k, i, false)
    ensures Agrees(Nested(su, max, Seq(PNil, k), i, depth), Then(su, [Outcome(i, [])], k))
    decreases |su.text| - i, Weight(Seq(PNil, k), i), 2
  {
    NestedAgrees(su, max, Seq(PNil, k), i, depth);
  }

  lemma OnlyProgress(a: Atom, k: Cont, i: nat)
    requires Progress(k, i, false)
    ensures Progress(Seq(Only(a), Seq(PNil, k)), i, false) && Progress(Seq(PNil, k), i, false)
  {
    if AtomWidth(a) { ProgressWide(k, i); }
    assert PiecesWidth(Only(a)) == AtomWidth(a);
    assert Progress(Seq(PNil, k), i, AtomWidth(a));
  }

  lemma LoopProgress(a: Atom, k: Cont, i: nat)
    requires Progress(k, i, false) && AtomWidth(a)
    ensures Progress(Seq(Only(a), Loop(a, i, k)), i, false)
  {
    ProgressWide(k, i);
    assert PiecesWidth(Only(a)) == AtomWidth(a);
    assert Progress(Loop(a, i, k), i, true);
  }

  lemma AgainProgress(a: Atom, k: Cont, i: nat)
    requires Progress(k, i, true) && AtomWidth(a)
    ensures Progress(Seq(Only(a), Again(a, i, k)), i, false)
  {
    assert PiecesWidth(Only(a)) == AtomWidth(a);
    assert Progress(Again(a, i, k), i, true);
  }

  lemma ThenOnly(su: Subject, a: Atom, i: nat, k: Cont)
    requires WfPiece(Piece(a, One)) && WfCont(k) && i <= |su.text|
    ensures WfCont(Seq(Only(a), k))
    ensures Means(su, Seq(Only(a), k), i) == Then(su, OutAtom(su, a, i), k)
  {
    assert OutPiece(su, Piece(a, One), i) == OutAtom(su, a, i);
    ThenChain(su, OutAtom(su, a, i), PNil, if AtomWidth(a) then i + 1 else i, k);
  }
}
