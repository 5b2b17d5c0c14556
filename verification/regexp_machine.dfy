/** The backtracking machine on syntax trees.  A continuation is the stack of things still to be
    matched; `Run` explores it exactly as the program does, with its recursion limit and its
    one-character lookahead.  It is tied to the meaning of regular expressions by `RunAgrees`. */
module RegexpMachine {
  import opened RegexpCode
  import opened RegexpSyntax
  import opened RegexpSemantics

  /** What the program counter stands for. */
  datatype Cont =
    | Done                                              // END
    | Seq(ps: Pieces, k: Cont)                          // a concatenation, then k
    | Choose(alts: Alts, k: Cont)                       // the first BRANCH of a choice
    | Shut(no: nat, k: Cont)                            // CLOSE
    | Loop(a: Atom, from: nat, k: Cont)                 // the BACK of a*, whose round began at `from`
    | Again(a: Atom, from: nat, k: Cont)                // the first BRANCH of a+, after a round
    | Redo(a: Atom, from: nat, k: Cont)                 // the BACK of a+

  ghost predicate WfCont(k: Cont)
  {
    match k
    case Done => true
    case Seq(ps, k') => WfPieces(ps) && WfCont(k')
    case Choose(alts, k') => alts.ACons? && WfAlts(alts) && WfCont(k')
    case Shut(no, k') => 1 <= no < NSUBEXP && WfCont(k')
    case Loop(a, _, k') => a.Group? && WfAtom(a) && AtomWidth(a) && WfCont(k')
    case Again(a, _, k') => a.Group? && WfAtom(a) && AtomWidth(a) && WfCont(k')
    case Redo(a, _, k') => a.Group? && WfAtom(a) && AtomWidth(a) && WfCont(k')
  }

  /** Every BACK on the stack will be reached at a later position than its round began:
      either that is so already, or (`wide`) something before it cannot match the empty string. */
  ghost predicate Progress(k: Cont, i: nat, wide: bool)
  {
    match k
    case Done => true
    case Seq(ps, k') => Progress(k', i, wide || PiecesWidth(ps))
    case Choose(alts, k') => Progress(k', i, wide || AltsWidth(alts))
    case Shut(_, k') => Progress(k', i, wide)
    case Loop(_, from, k') => from <= i && (wide || from < i) && Progress(k', i, wide)
    case Again(_, from, k') => from <= i && (wide || from < i) && Progress(k', i, wide)
    case Redo(_, from, k') => from <= i && (wide || from < i) && Progress(k', i, wide)
  }

  /** A concatenation of which some pieces are left. */
  function After(rest: Pieces, k: Cont): Cont
  {
    if rest.PNil? then k else Seq(rest, k)
  }

  function Only(a: Atom): Pieces
  {
    PCons(Piece(a, One), PNil)
  }

  // ----- Termination measure -----

  function AtomWeight(a: Atom): nat
  {
    match a
    case Group(_, body) => 5 + AltsWeight(body)
    case _ => 1
  }

  function PieceWeight(p: Piece): nat
  {
    if p.quant.One? then AtomWeight(p.atom) + 1 else AtomWeight(p.atom) + 10
  }

  function PiecesWeight(ps: Pieces): nat
  {
    match ps
    case PNil => 1
    case PCons(p, rest) => PieceWeight(p) + PiecesWeight(rest) + 1
  }

  function AltsWeight(alts: Alts): nat
  {
    match alts
    case ANil => 0
    case ACons(b, rest) => 1 + PiecesWeight(b) + AltsWeight(rest)
  }

  /** Decreases at every step that consumes nothing. */
  function Weight(k: Cont, i: nat): nat
  {
    match k
    case Done => 1
    case Seq(ps, k') => PiecesWeight(ps) + 1 + Weight(k', i)
    case Choose(alts, k') => AltsWeight(alts) + 2 + Weight(k', i)
    case Shut(_, k') => 1 + Weight(k', i)
    case Loop(a, from, k') => (if from < i then AtomWeight(a) + 15 else 1) + Weight(k', i)
    case Again(a, from, k') => (if from < i then AtomWeight(a) + 18 else 4) + Weight(k', i)
    case Redo(a, from, k') => (if from < i then AtomWeight(a) + 15 else 1) + Weight(k', i)
  }

  // ----- Running -----

  /** `over` records that the recursion limit was hit somewhere along the way. */
  datatype Result = Result(ok: bool, end: nat, trace: seq<Event>, over: bool)

  const FAIL := Result(false, 0, [], false)

  function OrElse(x: Result, y: Result): Result
  {
    if x.ok then x else y.(over := x.over || y.over)
  }

  function Before(t: seq<Event>, r: Result): Result
  {
    if r.ok then r.(trace := t + r.trace) else r
  }

  /** Characters matched by greedily repeating a one-character atom. */
  function Count(su: Subject, a: Atom, i: nat): (n: nat)
    requires Simple(a) && i <= |su.text|
    ensures i + n <= |su.text|
    ensures forall j :: i <= j < i + n ==> Hits(su, a, su.text[j])
    ensures i + n < |su.text| ==> !Hits(su, a, su.text[i + n])
    decreases |su.text| - i
  {
    if i < |su.text| && Hits(su, a, su.text[i]) then 1 + Count(su, a, i + 1) else 0
  }

  /** The character a following literal node begins with, or 0. */
  function Lookahead(k: Cont): Byte
  {
    if k.Seq? && k.ps.PCons? && k.ps.head.quant.One? && k.ps.head.atom.Literal? && |k.ps.head.atom.text| > 0
    then k.ps.head.atom.text[0] else 0
  }

  function CharAt(su: Subject, i: nat): Byte
  {
    if i < |su.text| then su.text[i] else 0
  }

  /** The lookahead already shows that going on at `i` is useless. */
  predicate Hopeless(su: Subject, k: Cont, i: nat)
  {
    Lookahead(k) != 0 && !Same(su, Lookahead(k), CharAt(su, i))
  }

  function Run(su: Subject, max: int, k: Cont, i: nat, depth: nat): (r: Result)
    requires WfCont(k) && i <= |su.text|
    decreases |su.text| - i, Weight(k, i), 0
  {
    match k
    case Done => Result(true, i, [], false)
    case Seq(ps, k') =>
      if ps.PNil? then Run(su, max, k', i, depth)
      else RunPiece(su, max, ps.head, After(ps.tail, k'), i, depth)
    case Choose(alts, k') =>
      if alts.rest.ANil? then Run(su, max, Seq(alts.first, k'), i, depth)
      else RunAlts(su, max, alts, k', i, depth)
    case Shut(no, k') => Before([Closed(no, i)], Nested(su, max, k', i, depth))
    case Loop(a, from, k') => if from < i then RunPiece(su, max, Piece(a, Star), k', i, depth) else FAIL
    case Again(a, from, k') =>
      OrElse(Nested(su, max, Redo(a, from, k'), i, depth), Nested(su, max, Seq(PNil, k'), i, depth))
    case Redo(a, from, k') => if from < i then RunPiece(su, max, Piece(a, Plus), k', i, depth) else FAIL
  }

  /** A recursive call of the matcher. */
  function Nested(su: Subject, max: int, k: Cont, i: nat, depth: nat): (r: Result)
    requires WfCont(k) && i <= |su.text|
    decreases |su.text| - i, Weight(k, i), 1
  {
    if depth + 1 >= max then Result(false, 0, [], true) else Run(su, max, k, i, depth + 1)
  }

  function RunAlts(su: Subject, max: int, alts: Alts, k: Cont, i: nat, depth: nat): (r: Result)
    requires alts.ACons? && WfAlts(alts) && WfCont(k) && i <= |su.text|
    decreases |su.text| - i, AltsWeight(alts) + 1 + Weight(k, i), 2
  {
    if alts.rest.ANil? then Nested(su, max, Seq(alts.first, k), i, depth)
    else OrElse(Nested(su, max, Seq(alts.first, k), i, depth), RunAlts(su, max, alts.rest, k, i, depth))
  }

  function RunAtom(su: Subject, max: int, a: Atom, k: Cont, i: nat, depth: nat): (r: Result)
    requires WfAtom(a) && WfCont(k) && i <= |su.text|
    decreases |su.text| - i, AtomWeight(a) + Weight(k, i), 0
  {
    match a
    case Bol => if i == 0 && !su.notbol then Run(su, max, k, i, depth) else FAIL
    case Eol => if i == |su.text| then Run(su, max, k, i, depth) else FAIL
    case Literal(text) => if TextAt(su, text, i) then Run(su, max, k, i + |text|, depth) else FAIL
    case Group(no, body) =>
      assert Weight(Shut(no, k), i) == 1 + Weight(k, i);
      Before([Opened(no, i)], Nested(su, max, Choose(body, Shut(no, k)), i, depth))
    case _ => if i < |su.text| && Hits(su, a, su.text[i]) then Run(su, max, k, i + 1, depth) else FAIL
  }

  function RunPiece(su: Subject, max: int, p: Piece, k: Cont, i: nat, depth: nat): (r: Result)
    requires WfPiece(p) && WfCont(k) && i <= |su.text|
    decreases |su.text| - i, PieceWeight(p) + Weight(k, i), 0
  {
    var a := p.atom;
    OnlyWeight(a, k, i);
    if p.quant.One? then RunAtom(su, max, a, k, i, depth)
    else if p.quant.Opt? then
      OrElse(Nested(su, max, Seq(Only(a), Seq(PNil, k)), i, depth), Nested(su, max, Seq(PNil, k), i, depth))
    else if Simple(a) then RunSimple(su, max, p, k, i, depth)
    else if p.quant.Star? then
      OrElse(Nested(su, max, Seq(Only(a), Loop(a, i, k)), i, depth), Nested(su, max, Seq(PNil, k), i, depth))
    else
      Run(su, max, Seq(Only(a), Again(a, i, k)), i, depth)
  }

  lemma OnlyWeight(a: Atom, k: Cont, i: nat)
    ensures Weight(Seq(Only(a), Seq(PNil, k)), i) == AtomWeight(a) + 6 + Weight(k, i)
    ensures WfCont(k) ==> WfCont(Seq(PNil, k))
    ensures Weight(Seq(Only(a), Loop(a, i, k)), i) == AtomWeight(a) + 5 + Weight(k, i)
    ensures Weight(Seq(Only(a), Again(a, i, k)), i) == AtomWeight(a) + 8 + Weight(k, i)
    ensures Weight(Seq(PNil, k), i) == 2 + Weight(k, i)
    ensures WfCont(k) && WfAtom(a) && a.Group? && AtomWidth(a) ==> WfCont(Loop(a, i, k)) && WfCont(Again(a, i, k))
  {
    assert PiecesWeight(Only(a)) == AtomWeight(a) + 3;
    assert Weight(Seq(PNil, k), i) == 2 + Weight(k, i);
    assert Weight(Loop(a, i, k), i) == 1 + Weight(k, i) && Weight(Again(a, i, k), i) == 4 + Weight(k, i);
  }

  /** The one-character loops. */
  function RunSimple(su: Subject, max: int, p: Piece, k: Cont, i: nat, depth: nat): (r: Result)
    requires WfCont(k) && i <= |su.text| && Simple(p.atom)
    decreases |su.text| - i, Weight(k, i), 4
  {
    var n := Count(su, p.atom, i);
    if p.quant.Star? then RunDown(su, max, k, i, n, 0, depth)
    else if p.quant.Plus? then RunDown(su, max, k, i, n, 1, depth)
    else RunUp(su, max, k, i, if p.quant.LazyStar? then 0 else 1, n, depth)
  }

  /** One place to go on after a one-character loop. */
  function Try(su: Subject, max: int, k: Cont, i: nat, depth: nat): (r: Result)
    requires WfCont(k) && i <= |su.text|
    decreases |su.text| - i, Weight(k, i), 2
  {
    if Hopeless(su, k, i) then FAIL else Nested(su, max, k, i, depth)
  }

  /** Going on after no, no-1, ..., min characters. */
  function RunDown(su: Subject, max: int, k: Cont, i: nat, no: int, min: nat, depth: nat): (r: Result)
    requires WfCont(k) && i <= |su.text| && i + no <= |su.text|
    decreases |su.text| - i, Weight(k, i), 3, no + 1
  {
    if no < min then FAIL
    else OrElse(Try(su, max, k, i + no, depth), RunDown(su, max, k, i, no - 1, min, depth))
  }

  /** Going on after no, no+1, ..., most characters. */
  function RunUp(su: Subject, max: int, k: Cont, i: nat, no: nat, most: nat, depth: nat): (r: Result)
    requires WfCont(k) && i <= |su.text| && i + most <= |su.text|
    decreases |su.text| - i, Weight(k, i), 3, most + 1 - no
  {
    if no > most then FAIL
    else OrElse(Try(su, max, k, i + no, depth), RunUp(su, max, k, i, no + 1, most, depth))
  }

  // ----- What a continuation means -----

  function Means(su: Subject, k: Cont, i: nat): (r: seq<Outcome>)
    requires WfCont(k) && i <= |su.text|
    decreases k, 0
  {
    match k
    case Done => [Outcome(i, [])]
    case Seq(ps, k') => Then(su, OutPieces(su, ps, i), k')
    case Choose(alts, k') => Then(su, OutAlts(su, alts, i), k')
    case Shut(no, k') => Prefix([Closed(no, i)], Means(su, k', i))
    case Loop(a, _, k') => Then(su, OutStar(su, a, i), k')
    case Again(a, _, k') => Then(su, OutStar(su, a, i), k')
    case Redo(a, _, k') => Then(su, StarEach(su, OutAtom(su, a, i), a, i + 1), k')
  }

  /** Continues every outcome with what is left. */
  function Then(su: Subject, os: seq<Outcome>, k: Cont): (r: seq<Outcome>)
    requires WfCont(k) && Between(os, 0, |su.text|)
    decreases k, 1, |os|
  {
    if os == [] then [] else Prefix(os[0].trace, Means(su, k, os[0].end)) + Then(su, os[1..], k)
  }

  // ----- Laws -----

  lemma {:induction false} ThenConcat(su: Subject, xs: seq<Outcome>, ys: seq<Outcome>, k: Cont)
    requires WfCont(k) && Between(xs, 0, |su.text|) && Between(ys, 0, |su.text|)
    ensures Then(su, xs + ys, k) == Then(su, xs, k) + Then(su, ys, k)
  {
    if xs == [] {
      assert xs + ys == ys;
    } else {
      assert (xs + ys)[1..] == xs[1..] + ys;
      ThenConcat(su, xs[1..], ys, k);
    }
  }

  lemma {:induction false} ThenPrefix(su: Subject, t: seq<Event>, os: seq<Outcome>, k: Cont)
    requires WfCont(k) && Between(os, 0, |su.text|)
    ensures Then(su, Prefix(t, os), k) == Prefix(t, Then(su, os, k))
  {
    if os != [] {
      assert Prefix(t, os)[1..] == Prefix(t, os[1..]);
      ThenPrefix(su, t, os[1..], k);
      PrefixTwice(t, os[0].trace, Means(su, k, os[0].end));
      PrefixConcat(t, Prefix(os[0].trace, Means(su, k, os[0].end)), Then(su, os[1..], k));
    }
  }

  lemma ThenOne(su: Subject, o: Outcome, k: Cont)
    requires WfCont(k) && o.end <= |su.text|
    ensures Then(su, [o], k) == Prefix(o.trace, Means(su, k, o.end))
  {
    assert [o][1..] == [];
  }

  lemma ThenHere(su: Subject, i: nat, k: Cont)
    requires WfCont(k) && i <= |su.text|
    ensures Then(su, [Outcome(i, [])], k) == Means(su, k, i)
  {
    ThenOne(su, Outcome(i, []), k);
    PrefixNone(Means(su, k, i));
  }

  /** A NOTHING node changes nothing. */
  lemma {:induction false} ThenSkip(su: Subject, os: seq<Outcome>, k: Cont)
    requires WfCont(k) && Between(os, 0, |su.text|)
    ensures WfCont(Seq(PNil, k)) && Then(su, os, Seq(PNil, k)) == Then(su, os, k)
  {
    if os != [] {
      ThenHere(su, os[0].end, k);
      ThenSkip(su, os[1..], k);
    }
  }

  lemma {:induction false} ThenChain(su: Subject, os: seq<Outcome>, rest: Pieces, lo: nat, k: Cont)
    requires WfCont(k) && WfPieces(rest) && Between(os, lo, |su.text|)
    ensures Between(Chain(su, os, rest, lo), 0, |su.text|)
    ensures Then(su, Chain(su, os, rest, lo), k) == Then(su, os, After(rest, k))
    decreases |os|
  {
    if os != [] {
      var more := OutPieces(su, rest, os[0].end);
      ThenChain(su, os[1..], rest, lo, k);
      ThenConcat(su, Prefix(os[0].trace, more), Chain(su, os[1..], rest, lo), k);
      ThenPrefix(su, os[0].trace, more, k);
      if rest.PNil? { ThenHere(su, os[0].end, k); }
    }
  }

  lemma {:induction false} ThenSeal(su: Subject, no: nat, os: seq<Outcome>, k: Cont)
    requires WfCont(k) && 1 <= no < NSUBEXP && Between(os, 0, |su.text|)
    ensures Then(su, Seal(no, os), k) == Then(su, os, Shut(no, k))
  {
    if os != [] {
      assert Seal(no, os)[1..] == Seal(no, os[1..]);
      ThenSeal(su, no, os[1..], k);
      PrefixTwice(os[0].trace, [Closed(no, os[0].end)], Means(su, k, os[0].end));
    }
  }

  lemma {:induction false} ThenStarEach(su: Subject, os: seq<Outcome>, a: Atom, lo: nat, from: nat, k: Cont)
    requires WfCont(k) && WfAtom(a) && a.Group? && AtomWidth(a) && Between(os, lo, |su.text|)
    ensures Between(StarEach(su, os, a, lo), 0, |su.text|)
    ensures WfCont(Loop(a, from, k)) && WfCont(Again(a, from, k))
    ensures Then(su, StarEach(su, os, a, lo), k) == Then(su, os, Loop(a, from, k)) == Then(su, os, Again(a, from, k))
    decreases |os|
  {
    if os != [] {
      var more := OutStar(su, a, os[0].end);
      ThenStarEach(su, os[1..], a, lo, from, k);
      ThenConcat(su, Prefix(os[0].trace, more), StarEach(su, os[1..], a, lo), k);
      ThenPrefix(su, os[0].trace, more, k);
    }
  }
}
