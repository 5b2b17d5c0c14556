/** What one instruction of a program does to the continuation it stands for. */
module RegexpSteps {
  import opened RegexpCode
  import opened RegexpSyntax
  import opened RegexpLayout
  import opened RegexpSemantics
  import opened RegexpMachine
  import opened RegexpAgreement
  import opened RegexpDenotes

  lemma HeadIs(code: seq<Byte>, pc: nat, k: Cont)
    requires |code| < CODE_LIMIT && WfCont(k) && Denotes(code, pc, k)
    ensures pc + 3 <= |code| && Op(code, pc) == HeadOp(k)
  {
    hide At, Link, PieceImage, PieceSize, PieceTail, AtomSize, AltsImage, AltsSize, PieceAt;
    DenotesFits(code, pc, k);
    match k
    case Done => NodeAt(code, pc, END, 0);
    case Seq(ps, k') =>
      hide Denotes;
      if ps.PNil? {
        NothingNode(code, pc, k');
      } else {
        SeqHead(code, pc, ps, k');
        PieceHead(code, pc, ps.head, After(ps.tail, k'));
      }
    case Choose(alts, k') => ChooseHead(code, pc, alts);
    case Shut(no, k') => AtByte(code, pc, Node(CloseOp(no), Link(code, pc)), 0);
    case Loop(a, i, k') => StarNode(code, pc - 3 - AtomSize(a), a, i, k');
    case Again(a, i, k') => PlusNode(code, pc - AtomSize(a), a, i, k');
    case Redo(a, i, k') => PlusNode(code, pc - 3 - AtomSize(a), a, i, k');
  }

  lemma PieceHead(code: seq<Byte>, pc: nat, p: Piece, k: Cont)
    requires PieceAt(code, pc, p, k)
    ensures pc < |code| && code[pc] == PieceOp(p)
  {
    hide At, Link, PieceImage, PieceTail, PieceSize, PieceAt, Denotes;
    UnfoldPiece(code, pc, p, k);
    var t := To(pc + PieceTail(p) + Link(code, pc + PieceTail(p)) - pc - PieceSize(p));
    PieceFirst(p, t);
    AtByte(code, pc, PieceImage(p, t), 0);
  }

  lemma ChooseHead(code: seq<Byte>, pc: nat, alts: Alts)
    requires alts.ACons? && At(code, pc, AltsImage(alts, true, AltCount(alts)))
    ensures pc < |code| && code[pc] == BRANCH
  {
    hide At, PiecesImage, PiecesSize, AltsSize, AltCount;
    AtByte(code, pc, AltsImage(alts, true, AltCount(alts)), 0);
  }

  // ----- Which continuations begin with a given opcode -----

  predicate LeafOp(op: Byte)
  {
    1 <= op <= 5 || op == EXACTLY || 12 <= op <= 17
  }

  predicate RepeatingOp(op: Byte)
  {
    op == STAR || op == PLUS || op == NGSTAR || op == NGPLUS
  }

  /** A leaf that a single node matches. */
  ghost predicate SingleLeaf(a: Atom)
  {
    WfAtom(a) && !a.Group? && !(a.Kind? && a.complement)
  }

  ghost predicate Repeated(p: Piece)
  {
    WfPiece(p) && Simple(p.atom) && !p.quant.One? && !p.quant.Opt?
  }

  lemma AtomOpShape(a: Atom)
    requires WfAtom(a)
    ensures a.Group? ==> AtomOp(a) == OPEN as int + a.no && 20 < AtomOp(a) < 30
    ensures !a.Group? ==> LeafOp(AtomOp(a))
  {
  }

  lemma PieceOpShape(p: Piece)
    requires WfPiece(p)
    ensures LeafOp(PieceOp(p)) ==> p.quant.One? && SingleLeaf(p.atom) && PieceOp(p) == AtomOp(p.atom)
    ensures 20 < PieceOp(p) < 30 ==>
      p.atom.Group? && (p.quant.One? || p.quant.Plus?) && PieceOp(p) == OPEN as int + p.atom.no
    ensures RepeatingOp(PieceOp(p)) ==> Repeated(p) && PieceOp(p) == RepeatOp(p.quant)
    ensures PieceOp(p) == BRANCH ==> p.quant.Opt? || (p.quant.Star? && p.atom.Group?)
    ensures LeafOp(PieceOp(p)) || 20 < PieceOp(p) < 30 || RepeatingOp(PieceOp(p)) || PieceOp(p) == BRANCH
  {
    hide AtomOp;
    AtomOpShape(p.atom);
  }

  lemma HeadShape(k: Cont)
    requires WfCont(k)
    ensures HeadOp(k) == END <==> k.Done?
    ensures LeafOp(HeadOp(k)) ==>
      k.Seq? && k.ps.PCons? && k.ps.head.quant.One? && SingleLeaf(k.ps.head.atom) && HeadOp(k) == AtomOp(k.ps.head.atom)
    ensures HeadOp(k) == NOTHING ==> k.Seq? && k.ps.PNil?
    ensures HeadOp(k) == BACK ==> k.Loop? || k.Redo?
    ensures HeadOp(k) == BRANCH ==>
      || k.Choose? || k.Again?
      || (k.Seq? && k.ps.PCons? && (k.ps.head.quant.Opt? || (k.ps.head.quant.Star? && k.ps.head.atom.Group?)))
    ensures 20 < HeadOp(k) < 30 ==>
      && k.Seq? && k.ps.PCons? && k.ps.head.atom.Group? && (k.ps.head.quant.One? || k.ps.head.quant.Plus?)
      && HeadOp(k) == OPEN as int + k.ps.head.atom.no
    ensures 30 < HeadOp(k) < 40 ==> k.Shut? && HeadOp(k) == CLOSE as int + k.no
    ensures RepeatingOp(HeadOp(k)) ==>
      k.Seq? && k.ps.PCons? && Repeated(k.ps.head) && HeadOp(k) == RepeatOp(k.ps.head.quant)
    ensures HeadOp(k) == END || LeafOp(HeadOp(k)) || HeadOp(k) == NOTHING || HeadOp(k) == BACK || HeadOp(k) == BRANCH
         || 20 < HeadOp(k) < 30 || 30 < HeadOp(k) < 40 || RepeatingOp(HeadOp(k))
  {
    hide PieceOp, WfPieces;
    match k
    case Seq(ps, _) => if ps.PCons? { HeadPiece(ps); PieceOpShape(ps.head); }
    case _ =>
  }

  lemma HeadPiece(ps: Pieces)
    requires ps.PCons? && WfPieces(ps)
    ensures WfPiece(ps.head) && WfPieces(ps.tail)
  {
  }

  // ----- Steps -----

  ghost predicate Ready(code: seq<Byte>, pc: nat, su: Subject, k: Cont, i: nat)
  {
    |code| < CODE_LIMIT && i <= |su.text| && WfCont(k) && Denotes(code, pc, k) && Progress(k, i, false)
  }

  function Rest(k: Cont): Cont
    requires k.Seq? && k.ps.PCons?
  {
    After(k.ps.tail, k.k)
  }

  lemma RestFacts(k: Cont, i: nat)
    requires k.Seq? && k.ps.PCons? && WfCont(k) && Progress(k, i, false)
    ensures WfPiece(k.ps.head) && WfCont(Rest(k)) && Progress(Rest(k), i, PieceWidth(k.ps.head))
    ensures Weight(Rest(k), i) + PieceWeight(k.ps.head) < Weight(k, i)
  {
    AfterProgress(k.ps, k.k, i);
  }

  lemma SeqRuns(su: Subject, max: int, k: Cont, i: nat, depth: nat)
    requires k.Seq? && k.ps.PCons? && WfCont(k) && i <= |su.text|
    ensures WfPiece(k.ps.head) && WfCont(Rest(k))
    ensures Run(su, max, k, i, depth) == RunPiece(su, max, k.ps.head, Rest(k), i, depth)
  {
    hide RunPiece;
  }

  lemma OneRuns(su: Subject, max: int, a: Atom, k: Cont, i: nat, depth: nat)
    requires WfPiece(Piece(a, One)) && WfCont(k) && i <= |su.text|
    ensures RunPiece(su, max, Piece(a, One), k, i, depth) == RunAtom(su, max, a, k, i, depth)
  {
    hide RunAtom;
  }

  lemma LeafRuns(su: Subject, max: int, a: Atom, k: Cont, i: nat, depth: nat)
    requires WfAtom(a) && !a.Group? && WfCont(k) && i <= |su.text|
    ensures OutAtom(su, a, i) == [] ==> RunAtom(su, max, a, k, i, depth) == FAIL
    ensures OutAtom(su, a, i) != [] ==>
        var j := OutAtom(su, a, i)[0].end;
        j <= |su.text| && OutAtom(su, a, i) == [Outcome(j, [])] &&
          RunAtom(su, max, a, k, i, depth) == Run(su, max, k, j, depth)
  {
    hide Run;
  }

  /** A single-node atom: it is tried on the input, then its link is followed. */
  lemma LeafStep(code: seq<Byte>, pc: nat, su: Subject, max: int, k: Cont, i: nat, depth: nat)
    requires Ready(code, pc, su, k, i)
    requires k.Seq? && k.ps.PCons? && k.ps.head.quant.One? && SingleLeaf(k.ps.head.atom)
    ensures pc + 3 <= |code| && Link(code, pc) > 0 && At(code, pc + 3, Operand(k.ps.head.atom))
    ensures Denotes(code, pc + Link(code, pc), Rest(k))
    ensures WfCont(Rest(k)) && Progress(Rest(k), i, AtomWidth(k.ps.head.atom)) && Weight(Rest(k), i) < Weight(k, i)
    ensures Run(su, max, k, i, depth) == RunAtom(su, max, k.ps.head.atom, Rest(k), i, depth)
  {
    hide Denotes, PieceAt, At, Link, Progress, Run, RunAtom, Weight, WfPieces, WfAtom, AtomWidth;
    var a := k.ps.head.atom;
    assert k.ps.head == Piece(a, One);
    RestFacts(k, i);
    SeqHead(code, pc, k.ps, k.k);
    LeafNode(code, pc, a, Rest(k));
    SeqRuns(su, max, k, i, depth);
    OneRuns(su, max, a, Rest(k), i, depth);
  }

  lemma LeafMoves(su: Subject, a: Atom, k: Cont, i: nat, j: nat)
    requires WfAtom(a) && i <= |su.text| && Progress(k, i, AtomWidth(a)) && OutAtom(su, a, i) == [Outcome(j, [])]
    ensures i <= j <= |su.text| && Progress(k, j, false)
  {
    hide Progress, AtomWidth, OutAtom;
    assert OutAtom(su, a, i)[0].end == j;
    ProgressOn(k, i, j, AtomWidth(a));
  }

  lemma NothingStep(code: seq<Byte>, pc: nat, su: Subject, max: int, k: Cont, i: nat, depth: nat)
    requires Ready(code, pc, su, k, i) && k.Seq? && k.ps.PNil?
    ensures pc + 3 <= |code| && Link(code, pc) > 0 && Ready(code, pc + Link(code, pc), su, k.k, i)
    ensures Run(su, max, k, i, depth) == Run(su, max, k.k, i, depth) && Weight(k.k, i) < Weight(k, i)
  {
    hide Denotes, Link;
    NothingNode(code, pc, k.k);
  }

  lemma ShutStep(code: seq<Byte>, pc: nat, su: Subject, max: int, k: Cont, i: nat, depth: nat)
    requires Ready(code, pc, su, k, i) && k.Shut?
    ensures pc + 3 <= |code| && Link(code, pc) > 0 && Ready(code, pc + Link(code, pc), su, k.k, i)
    ensures Run(su, max, k, i, depth) == Before([Closed(k.no, i)], Nested(su, max, k.k, i, depth)) &&
      Weight(k.k, i) < Weight(k, i)
  {
    hide Link, At, Nested;
  }

  /** The node that ends a round leads back to the loop; another round may begin only if this one
      consumed something, which `Progress` guarantees. */
  lemma BackStep(code: seq<Byte>, pc: nat, su: Subject, max: int, k: Cont, i: nat, depth: nat) returns (k1: Cont)
    requires Ready(code, pc, su, k, i) && (k.Loop? || k.Redo?)
    ensures pc + 3 <= |code| && 0 < Link(code, pc) <= pc && Ready(code, pc - Link(code, pc), su, k1, i)
    ensures Run(su, max, k, i, depth) == Run(su, max, k1, i, depth) && Weight(k1, i) < Weight(k, i)
  {
    hide Denotes, PieceAt, Progress, Link, Run, Weight, WfAtom, WfPieces;
    var p := Piece(k.a, if k.Loop? then Star else Plus);
    k1 := Seq(PCons(p, PNil), k.k);
    BackLink(code, pc, k);
    SeqOne(code, pc - Link(code, pc), p, k.k);
    BackFacts(k, p, i);
    BackRuns(su, max, k, p, i, depth);
  }

  lemma BackPiece(code: seq<Byte>, pc: nat, k: Cont)
    requires Denotes(code, pc, k) && (k.Loop? || k.Redo?)
    ensures 3 + AtomSize(k.a) <= pc &&
      PieceAt(code, pc - 3 - AtomSize(k.a), Piece(k.a, if k.Loop? then Star else Plus), k.k)
  {
    hide PieceAt, AtomSize;
  }

  lemma BackLink(code: seq<Byte>, pc: nat, k: Cont)
    requires |code| < CODE_LIMIT && WfCont(k) && Denotes(code, pc, k) && (k.Loop? || k.Redo?)
    ensures pc + 3 <= |code| && 0 < Link(code, pc) <= pc
    ensures PieceAt(code, pc - Link(code, pc), Piece(k.a, if k.Loop? then Star else Plus), k.k)
  {
    hide PieceAt, Link, Op, AtomSize, Denotes;
    BackPiece(code, pc, k);
    if k.Loop? {
      StarNode(code, pc - 3 - AtomSize(k.a), k.a, k.from, k.k);
    } else {
      PlusNode(code, pc - 3 - AtomSize(k.a), k.a, k.from, k.k);
    }
  }

  lemma SeqOne(code: seq<Byte>, pc: nat, p: Piece, k: Cont)
    requires PieceAt(code, pc, p, k)
    ensures Denotes(code, pc, Seq(PCons(p, PNil), k))
  {
    hide At, Link, PieceImage, PieceSize, PieceTail, PiecesImage, PiecesSize, PiecesTail, PieceAt, Denotes;
    UnfoldPiece(code, pc, p, k);
    var d := pc + PieceTail(p) + Link(code, pc + PieceTail(p)) - pc - PieceSize(p);
    PiecesCons(PCons(p, PNil), d);
    FoldSeq(code, pc, PCons(p, PNil), d, k);
  }

  lemma BackFacts(k: Cont, p: Piece, i: nat)
    requires WfCont(k) && Progress(k, i, false)
    requires (k.Loop? && p == Piece(k.a, Star)) || (k.Redo? && p == Piece(k.a, Plus))
    ensures WfCont(Seq(PCons(p, PNil), k.k)) && Progress(Seq(PCons(p, PNil), k.k), i, false) && k.from < i
    ensures Weight(Seq(PCons(p, PNil), k.k), i) < Weight(k, i)
  {
    assert WfPieces(PCons(p, PNil));
    if PiecesWidth(PCons(p, PNil)) { ProgressWide(k.k, i); }
    assert PiecesWeight(PCons(p, PNil)) == AtomWeight(k.a) + 12;
  }

  lemma BackRuns(su: Subject, max: int, k: Cont, p: Piece, i: nat, depth: nat)
    requires k.Loop? || k.Redo?
    requires WfCont(k) && i <= |su.text| && k.from < i && WfCont(Seq(PCons(p, PNil), k.k))
    requires (k.Loop? && p == Piece(k.a, Star)) || (k.Redo? && p == Piece(k.a, Plus))
    ensures Run(su, max, k, i, depth) == Run(su, max, Seq(PCons(p, PNil), k.k), i, depth)
  {
    hide RunPiece;
  }

  /** The one-instruction loop: an operand to repeat, then whatever the link leads to. */
  lemma RepeatStep(code: seq<Byte>, pc: nat, su: Subject, max: int, k: Cont, i: nat, depth: nat)
    requires Ready(code, pc, su, k, i) && k.Seq? && k.ps.PCons? && Repeated(k.ps.head)
    ensures pc + 6 <= |code| && Link(code, pc) > 0 && Denotes(code, pc + Link(code, pc), Rest(k))
    ensures Op(code, pc + 3) == AtomOp(k.ps.head.atom) && At(code, pc + 6, Operand(k.ps.head.atom))
    ensures WfCont(Rest(k)) && Progress(Rest(k), i, PieceWidth(k.ps.head)) && Weight(Rest(k), i) + 1 < Weight(k, i)
    ensures Run(su, max, k, i, depth) == RunSimple(su, max, k.ps.head, Rest(k), i, depth)
  {
    hide Denotes, PieceAt, At, Link, Op, Progress, Run, RunSimple, Weight, WfPieces, WfAtom, PieceWidth, PieceWeight;
    var p := k.ps.head;
    RestFacts(k, i);
    SeqHead(code, pc, k.ps, k.k);
    RepeatNode(code, pc, p, Rest(k));
    SeqRuns(su, max, k, i, depth);
    SimpleRuns(su, max, p, Rest(k), i, depth);
    WeightPositive(p);
  }

  lemma WeightPositive(p: Piece)
    ensures PieceWeight(p) > 0
  {
  }

  lemma SimpleRuns(su: Subject, max: int, p: Piece, k: Cont, i: nat, depth: nat)
    requires Repeated(p) && WfCont(k) && i <= |su.text|
    ensures RunPiece(su, max, p, k, i, depth) == RunSimple(su, max, p, k, i, depth)
  {
    hide RunSimple, Nested, Run;
  }

  /** An opening parenthesis. */
  lemma OpenStep(code: seq<Byte>, pc: nat, su: Subject, max: int, k: Cont, i: nat, depth: nat) returns (inner: Cont)
    requires Ready(code, pc, su, k, i) && k.Seq? && k.ps.PCons? && k.ps.head.quant.One? && k.ps.head.atom.Group?
    ensures pc + 3 <= |code| && Link(code, pc) == 3 && Ready(code, pc + 3, su, inner, i)
    ensures Weight(inner, i) < Weight(k, i)
    ensures Run(su, max, k, i, depth) == Before([Opened(k.ps.head.atom.no, i)], Nested(su, max, inner, i, depth))
  {
    hide Denotes, PieceAt, At, Link, Op, Progress, Run, RunAtom, Nested, Weight, WfPieces, WfAtom, AtomWidth;
    var a := k.ps.head.atom;
    assert k.ps.head == Piece(a, One);
    inner := Choose(a.body, Shut(a.no, Rest(k)));
    RestFacts(k, i);
    SeqHead(code, pc, k.ps, k.k);
    OpenNode(code, pc, a, Rest(k));
    SeqRuns(su, max, k, i, depth);
    OneRuns(su, max, a, Rest(k), i, depth);
    InnerFacts(su, max, a, Rest(k), i, depth);
  }

  lemma InnerFacts(su: Subject, max: int, a: Atom, k: Cont, i: nat, depth: nat)
    requires a.Group? && WfPiece(Piece(a, One)) && WfCont(k) && i <= |su.text| && Progress(k, i, AtomWidth(a))
    ensures WfCont(Choose(a.body, Shut(a.no, k))) && Progress(Choose(a.body, Shut(a.no, k)), i, false)
    ensures Weight(Choose(a.body, Shut(a.no, k)), i) < PieceWeight(Piece(a, One)) + Weight(k, i)
    ensures RunAtom(su, max, a, k, i, depth) == Before([Opened(a.no, i)], Nested(su, max, Choose(a.body, Shut(a.no,
      k)), i, depth))
  {
    hide Nested, AltsWeight, AltsWidth;
    assert Weight(Shut(a.no, k), i) == 1 + Weight(k, i) && Progress(Shut(a.no, k), i, AltsWidth(a.body));
    assert WfCont(Shut(a.no, k));
  }

  /** A group under `+` is entered as a plain group that afterwards decides whether to go round again. */
  lemma PlusStep(code: seq<Byte>, pc: nat, su: Subject, max: int, k: Cont, i: nat, depth: nat) returns (k1: Cont)
    requires Ready(code, pc, su, k, i) && k.Seq? && k.ps.PCons? && k.ps.head.quant.Plus? && k.ps.head.atom.Group?
    ensures Ready(code, pc, su, k1, i) && Weight(k1, i) < Weight(k, i)
    ensures k1.Seq? && k1.ps == Only(k.ps.head.atom)
    ensures Run(su, max, k, i, depth) == Run(su, max, k1, i, depth)
  {
    hide Denotes, PieceAt, At, Link, Op, Progress, Run, RunAtom, Nested, Weight, WfPieces, WfAtom, AtomWidth, AtomSize,
         Only;
    var a := k.ps.head.atom;
    assert k.ps.head == Piece(a, Plus);
    k1 := Seq(Only(a), Again(a, i, Rest(k)));
    RestFacts(k, i);
    PlusWf(a);
    SeqHead(code, pc, k.ps, k.k);
    PlusNode(code, pc, a, i, Rest(k));
    SeqRuns(su, max, k, i, depth);
    PlusRuns(su, max, a, Rest(k), i, depth);
    OnlyWeight(a, Rest(k), i);
    AgainProgress(a, Rest(k), i);
    PlusWeight(a);
  }

  lemma PlusWf(a: Atom)
    requires a.Group? && WfPiece(Piece(a, Plus))
    ensures WfAtom(a) && AtomWidth(a) && PieceWidth(Piece(a, Plus))
  {
  }

  lemma PlusWeight(a: Atom)
    ensures PieceWeight(Piece(a, Plus)) == AtomWeight(a) + 10
  {
  }

  lemma PlusRuns(su: Subject, max: int, a: Atom, k: Cont, i: nat, depth: nat)
    requires a.Group? && WfPiece(Piece(a, Plus)) && WfCont(k) && i <= |su.text|
    ensures WfCont(Seq(Only(a), Again(a, i, k)))
    ensures RunPiece(su, max, Piece(a, Plus), k, i, depth) == Run(su, max, Seq(Only(a), Again(a, i, k)), i, depth)
  {
    hide Run;
    OnlyWeight(a, k, i);
    assert WfPieces(Only(a));
  }

  // ----- Branching -----

  /** A run of BRANCH nodes, each followed by the code of one of `ks`. */
  ghost predicate Fork(code: seq<Byte>, pc: nat, ks: seq<Cont>)
    decreases |ks|
  {
    && |ks| > 0
    && pc + 3 <= |code| && Op(code, pc) == BRANCH && Link(code, pc) > 0
    && Denotes(code, pc + 3, ks[0])
    && pc + Link(code, pc) < |code|
    && if |ks| == 1 then Op(code, pc + Link(code, pc)) != BRANCH else Fork(code, pc + Link(code, pc), ks[1..])
  }

  ghost predicate AllReady(su: Subject, ks: seq<Cont>, i: nat, w: nat)
  {
    i <= |su.text| && forall j :: 0 <= j < |ks| ==> WfCont(ks[j]) && Progress(ks[j], i, false) && Weight(ks[j], i) < w
  }

  /** Trying each in turn. */
  ghost function RunAny(su: Subject, max: int, ks: seq<Cont>, i: nat, depth: nat): Result
    requires |ks| > 0 && i <= |su.text| && forall j :: 0 <= j < |ks| ==> WfCont(ks[j])
  {
    if |ks| == 1 then Nested(su, max, ks[0], i, depth)
    else OrElse(Nested(su, max, ks[0], i, depth), RunAny(su, max, ks[1..], i, depth))
  }

  ghost function Bodies(alts: Alts, k: Cont): (r: seq<Cont>)
    ensures |r| == AltCount(alts)
  {
    match alts
    case ANil => []
    case ACons(b, rest) => [Seq(b, k)] + Bodies(rest, k)
  }

  lemma {:induction false} ChoiceFork(code: seq<Byte>, pc: nat, alts: Alts, k: Cont)
    requires |code| < CODE_LIMIT && alts.ACons? && Branches(code, pc, alts, k)
    requires pc + AltsSize(alts) < |code| && Op(code, pc + AltsSize(alts)) != BRANCH
    ensures Fork(code, pc, Bodies(alts, k))
    decreases alts
  {
    hide Denotes, PiecesSize, Link, Op;
    var ks := Bodies(alts, k);
    assert ks == [Seq(alts.first, k)] + Bodies(alts.rest, k);
    if alts.rest.ACons? {
      ChoiceFork(code, pc + Link(code, pc), alts.rest, k);
      assert ks[1..] == Bodies(alts.rest, k);
      assert Branches(code, pc + Link(code, pc), alts.rest, k);
    }
  }

  lemma {:induction false} BodiesReady(su: Subject, alts: Alts, k: Cont, i: nat)
    requires i <= |su.text| && WfAlts(alts) && WfCont(k) && Progress(k, i, AltsWidth(alts))
    ensures AllReady(su, Bodies(alts, k), i, AltsWeight(alts) + 2 + Weight(k, i))
    decreases alts
  {
    hide Progress, PiecesWidth, WfPieces, PiecesWeight;
    if alts.ACons? {
      var b, rest := alts.first, alts.rest;
      if (PiecesWidth(b) || AltsWidth(rest)) && !AltsWidth(alts) { ProgressWide(k, i); }
      BodiesReady(su, rest, k, i);
      BodyReady(b, k, i);
      assert Bodies(alts, k) == [Seq(b, k)] + Bodies(rest, k);
    }
  }

  lemma BodyReady(b: Pieces, k: Cont, i: nat)
    requires WfPieces(b) && WfCont(k) && Progress(k, i, PiecesWidth(b))
    ensures WfCont(Seq(b, k)) && Progress(Seq(b, k), i, false) &&
      Weight(Seq(b, k), i) == PiecesWeight(b) + 1 + Weight(k, i)
  {
  }

  lemma {:induction false} BodiesRun(su: Subject, max: int, alts: Alts, k: Cont, i: nat, depth: nat)
    requires i <= |su.text| && alts.ACons? && WfAlts(alts) && WfCont(k)
    requires forall j :: 0 <= j < AltCount(alts) ==> WfCont(Bodies(alts, k)[j])
    ensures RunAny(su, max, Bodies(alts, k), i, depth) == RunAlts(su, max, alts, k, i, depth)
    decreases alts
  {
    hide Nested, WfPieces;
    var ks := Bodies(alts, k);
    assert ks == [Seq(alts.first, k)] + Bodies(alts.rest, k) && ks[0] == Seq(alts.first, k);
    if alts.rest.ACons? {
      assert ks[1..] == Bodies(alts.rest, k);
      forall j | 0 <= j < AltCount(alts.rest) ensures WfCont(Bodies(alts.rest, k)[j]) {
        assert ks[j + 1] == Bodies(alts.rest, k)[j];
      }
      BodiesRun(su, max, alts.rest, k, i, depth);
    }
  }

  lemma TwoFork(code: seq<Byte>, pc: nat, q: nat, x: Cont, y: Cont)
    requires pc + 3 <= |code| && Op(code, pc) == BRANCH && pc < q && pc + Link(code, pc) == q &&
      Denotes(code, pc + 3, x)
    requires q + 6 <= |code| && Op(code, q) == BRANCH && Link(code, q) == 3 && Denotes(code, q + 3, y) &&
      Op(code, q + 3) != BRANCH
    ensures Fork(code, pc, [x, y])
  {
    hide Denotes, Link, Op;
    assert [x, y][1..] == [y];
    assert Fork(code, q, [y]);
  }

  lemma TwoRun(su: Subject, max: int, x: Cont, y: Cont, i: nat, depth: nat, w: nat)
    requires i <= |su.text| && WfCont(x) && WfCont(y)
    requires Progress(x, i, false) && Progress(y, i, false) && Weight(x, i) < w && Weight(y, i) < w
    ensures AllReady(su, [x, y], i, w)
    ensures RunAny(su, max, [x, y], i, depth) == OrElse(Nested(su, max, x, i, depth), Nested(su, max, y, i, depth))
  {
    hide Nested, WfCont, Progress, Weight;
    assert [x, y][1..] == [y];
  }

  /** A branching place: a choice, an optional or starred piece, or the decision after a round of `+`.
      With a single alternative there is no choice and no recursion. */
  lemma BranchStep(code: seq<Byte>, pc: nat, su: Subject, max: int, k: Cont, i: nat, depth: nat) returns (ks: seq<Cont>)
    requires Ready(code, pc, su, k, i) && HeadOp(k) == BRANCH
    ensures Fork(code, pc, ks) && AllReady(su, ks, i, Weight(k, i))
    ensures Run(su, max, k, i, depth) == if |ks| == 1 then Run(su, max, ks[0], i, depth) else RunAny(su, max, ks, i,
      depth)
  {
    hide Ready, WfPieces, Denotes, Progress, Run, RunAny, Weight, Fork, AllReady, PieceOp;
    ReadyWf(code, pc, su, k, i);
    HeadShape(k);
    if k.Choose? {
      ks := Bodies(k.alts, k.k);
      ChooseStep(code, pc, su, max, k, i, depth);
    } else if k.Again? {
      ks := AgainStep(code, pc, su, max, k, i, depth);
    } else if k.ps.head.quant.Opt? {
      ks := OptStep(code, pc, su, max, k, i, depth);
    } else {
      ks := StarStep(code, pc, su, max, k, i, depth);
    }
  }

  lemma ReadyWf(code: seq<Byte>, pc: nat, su: Subject, k: Cont, i: nat)
    requires Ready(code, pc, su, k, i)
    ensures i <= |su.text| && WfCont(k)
  {
  }

  lemma ChooseStep(code: seq<Byte>, pc: nat, su: Subject, max: int, k: Cont, i: nat, depth: nat)
    requires Ready(code, pc, su, k, i) && k.Choose?
    ensures Fork(code, pc, Bodies(k.alts, k.k)) && AllReady(su, Bodies(k.alts, k.k), i, Weight(k, i))
    ensures var ks := Bodies(k.alts, k.k);
      Run(su, max, k, i, depth) == if |ks| == 1 then Run(su, max, ks[0], i, depth) else RunAny(su, max, ks, i, depth)
  {
    hide At, Link, Op, AltsImage, AltsSize, Fork, PiecesWidth, WfPieces, Bodies, Branches, RunAny;
    ChooseEnd(code, pc, k);
    ChoiceBranches(code, pc, k.alts, k.k);
    ChoiceFork(code, pc, k.alts, k.k);
    BodiesReady(su, k.alts, k.k, i);
    ChooseRuns(su, max, k, i, depth);
  }

  lemma ChooseEnd(code: seq<Byte>, pc: nat, k: Cont)
    requires |code| < CODE_LIMIT && k.Choose? && WfCont(k) && Denotes(code, pc, k)
    ensures At(code, pc, AltsImage(k.alts, true, AltCount(k.alts))) && Denotes(code, pc + AltsSize(k.alts), k.k)
    ensures pc + AltsSize(k.alts) < |code| && Op(code, pc + AltsSize(k.alts)) != BRANCH
  {
    hide At, Link, Op, AltsImage, AltsSize;
    HeadIs(code, pc + AltsSize(k.alts), k.k);
  }

  lemma ChooseRuns(su: Subject, max: int, k: Cont, i: nat, depth: nat)
    requires i <= |su.text| && k.Choose? && WfCont(k) &&
      forall j :: 0 <= j < AltCount(k.alts) ==> WfCont(Bodies(k.alts, k.k)[j])
    ensures var ks := Bodies(k.alts, k.k);
      Run(su, max, k, i, depth) == if |ks| == 1 then Run(su, max, ks[0], i, depth) else RunAny(su, max, ks, i, depth)
  {
    hide RunAny, RunAlts, WfPieces;
    BodiesRun(su, max, k.alts, k.k, i, depth);
    if k.alts.rest.ANil? {
      assert Bodies(k.alts, k.k) == [Seq(k.alts.first, k.k)];
    }
  }

  lemma OptStep(code: seq<Byte>, pc: nat, su: Subject, max: int, k: Cont, i: nat, depth: nat) returns (ks: seq<Cont>)
    requires Ready(code, pc, su, k, i) && k.Seq? && k.ps.PCons? && k.ps.head.quant.Opt?
    ensures |ks| == 2 && Fork(code, pc, ks) && AllReady(su, ks, i, Weight(k, i))
    ensures Run(su, max, k, i, depth) == RunAny(su, max, ks, i, depth)
  {
    hide Denotes, PieceAt, At, Link, Op, Progress, Run, Nested, RunPiece, RunAny, Weight, WfAtom, AtomSize, Only, Fork,
         AllReady;
    var a, r := k.ps.head.atom, Rest(k);
    assert k.ps.head == Piece(a, Opt);
    RestFacts(k, i);
    OnlyWeight(a, r, i);
    OnlyProgress(a, r, i);
    SeqHead(code, pc, k.ps, k.k);
    OptNode(code, pc, a, r);
    var x, y := Seq(Only(a), Seq(PNil, r)), Seq(PNil, r);
    ks := [x, y];
    TwoFork(code, pc, pc + 3 + AtomSize(a), x, y);
    OnlyWf(a, Opt, Seq(PNil, r));
    assert PieceWeight(Piece(a, Opt)) == AtomWeight(a) + 10;
    TwoRun(su, max, x, y, i, depth, Weight(k, i));
    SeqRuns(su, max, k, i, depth);
    OptRuns(su, max, a, r, i, depth);
  }

  lemma OnlyWf(a: Atom, q: Quant, k: Cont)
    requires WfPiece(Piece(a, q)) && WfCont(k) && (q.Opt? || (q.Star? && a.Group?))
    ensures WfCont(Seq(Only(a), k))
  {
    assert WfPiece(Piece(a, One));
    assert WfPieces(Only(a));
  }

  lemma OptRuns(su: Subject, max: int, a: Atom, k: Cont, i: nat, depth: nat)
    requires WfPiece(Piece(a, Opt)) && WfCont(k) && i <= |su.text| && WfCont(Seq(Only(a), Seq(PNil, k))) &&
      WfCont(Seq(PNil, k))
    ensures RunPiece(su, max, Piece(a, Opt), k, i, depth)
         == OrElse(Nested(su, max, Seq(Only(a), Seq(PNil, k)), i, depth), Nested(su, max, Seq(PNil, k), i, depth))
  {
    hide Nested;
  }

  lemma StarStep(code: seq<Byte>, pc: nat, su: Subject, max: int, k: Cont, i: nat, depth: nat) returns (ks: seq<Cont>)
    requires Ready(code, pc, su, k, i) && k.Seq? && k.ps.PCons? && k.ps.head.quant.Star? && k.ps.head.atom.Group?
    ensures |ks| == 2 && Fork(code, pc, ks) && AllReady(su, ks, i, Weight(k, i))
    ensures Run(su, max, k, i, depth) == RunAny(su, max, ks, i, depth)
  {
    hide Denotes, PieceAt, At, Link, Op, Progress, Run, Nested, RunPiece, RunAny, Weight, WfAtom, AtomWidth, AtomSize,
         Only, Fork, AllReady;
    var a, r := k.ps.head.atom, Rest(k);
    assert k.ps.head == Piece(a, Star);
    RestFacts(k, i);
    OnlyWeight(a, r, i);
    StarWf(a);
    LoopProgress(a, r, i);
    SeqHead(code, pc, k.ps, k.k);
    StarNode(code, pc, a, i, r);
    var x, y := Seq(Only(a), Loop(a, i, r)), Seq(PNil, r);
    ks := [x, y];
    TwoFork(code, pc, pc + 6 + AtomSize(a), x, y);
    OnlyWf(a, Star, Loop(a, i, r));
    NilProgress(r, i);
    TwoRun(su, max, x, y, i, depth, Weight(k, i));
    SeqRuns(su, max, k, i, depth);
    StarRuns(su, max, a, r, i, depth);
  }

  lemma StarWf(a: Atom)
    requires a.Group? && WfPiece(Piece(a, Star))
    ensures WfAtom(a) && AtomWidth(a) && !PieceWidth(Piece(a, Star)) &&
      PieceWeight(Piece(a, Star)) == AtomWeight(a) + 10
  {
  }

  lemma NilProgress(k: Cont, i: nat)
    requires Progress(k, i, false)
    ensures Progress(Seq(PNil, k), i, false)
  {
  }

  lemma StarRuns(su: Subject, max: int, a: Atom, k: Cont, i: nat, depth: nat)
    requires a.Group? && WfPiece(Piece(a, Star)) && WfCont(k) && i <= |su.text| &&
      WfCont(Seq(Only(a), Loop(a, i, k))) && WfCont(Seq(PNil, k))
    ensures RunPiece(su, max, Piece(a, Star), k, i, depth)
         == OrElse(Nested(su, max, Seq(Only(a), Loop(a, i, k)), i, depth), Nested(su, max, Seq(PNil, k), i, depth))
  {
    hide Nested;
  }

  lemma AgainStep(code: seq<Byte>, pc: nat, su: Subject, max: int, k: Cont, i: nat, depth: nat) returns (ks: seq<Cont>)
    requires Ready(code, pc, su, k, i) && k.Again?
    ensures |ks| == 2 && Fork(code, pc, ks) && AllReady(su, ks, i, Weight(k, i))
    ensures Run(su, max, k, i, depth) == RunAny(su, max, ks, i, depth)
  {
    var x, y := Redo(k.a, k.from, k.k), Seq(PNil, k.k);
    ks := [x, y];
    AgainFork(code, pc, k);
    AgainFacts(k, i);
    AgainRuns(su, max, k, i, depth);
    TwoRun(su, max, x, y, i, depth, Weight(k, i));
  }

  lemma AgainFork(code: seq<Byte>, pc: nat, k: Cont)
    requires |code| < CODE_LIMIT && k.Again? && WfCont(k) && Denotes(code, pc, k)
    ensures Fork(code, pc, [Redo(k.a, k.from, k.k), Seq(PNil, k.k)])
  {
    hide PieceAt, Link, Op, AtomSize;
    var b := pc - AtomSize(k.a);
    PlusNode(code, b, k.a, k.from, k.k);
    hide Denotes;
    RoundDenotes(code, pc + 3, k.a, k.from, k.k);
    TwoFork(code, pc, pc + 6, Redo(k.a, k.from, k.k), Seq(PNil, k.k));
  }

  lemma AgainFacts(k: Cont, i: nat)
    requires k.Again? && WfCont(k) && Progress(k, i, false)
    ensures WfCont(Redo(k.a, k.from, k.k)) && WfCont(Seq(PNil, k.k))
    ensures Progress(Redo(k.a, k.from, k.k), i, false) && Progress(Seq(PNil, k.k), i, false)
    ensures Weight(Redo(k.a, k.from, k.k), i) < Weight(k, i) && Weight(Seq(PNil, k.k), i) < Weight(k, i)
  {
    assert Weight(Seq(PNil, k.k), i) == 2 + Weight(k.k, i);
  }

  lemma AgainRuns(su: Subject, max: int, k: Cont, i: nat, depth: nat)
    requires k.Again? && WfCont(k) && i <= |su.text| && WfCont(Redo(k.a, k.from, k.k)) && WfCont(Seq(PNil, k.k))
    ensures Run(su, max, k, i, depth)
         == OrElse(Nested(su, max, Redo(k.a, k.from, k.k), i, depth), Nested(su, max, Seq(PNil, k.k), i, depth))
  {
    hide Nested;
  }
}
