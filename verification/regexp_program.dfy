/** The whole compiler: both passes, the size limit, and what is dug out of the finished program to
    speed up searching. */
module RegexpProgram {
  import opened RegexpCode
  import opened RegexpSyntax
  import opened RegexpLayout
  import opened RegexpChains
  import opened RegexpCompiler
  import opened RegexpMachine
  import opened RegexpDenotes
  import opened RegexpSteps
  import opened RegexpStrings
  import opened RegexpMatcher

  /** A compiled expression.  `regmust` points into `code`. */
  datatype Program = Program(code: seq<Byte>, regstart: Byte, reganch: bool, regmust: int, regmlen: nat)

  datatype Compiled = Compiled(program: Program) | Failed(error: Error)

  // ----- What the hints should be -----

  function Literal1(p: Piece): seq<Byte>
  {
    if p.quant.One? && p.atom.Literal? then p.atom.text else []
  }

  /** The longest literal that every match goes through, the last one among equals. */
  function Must(ps: Pieces, best: seq<Byte>): seq<Byte>
  {
    match ps
    case PNil => best
    case PCons(p, rest) =>
      Must(rest, if p.quant.One? && p.atom.Literal? && |p.atom.text| >= |best| then p.atom.text else best)
  }

  /** The character every match begins with, if it is known. */
  function StartHint(alts: Alts): Byte
  {
    if alts.ACons? && alts.rest.ANil? && alts.first.PCons? &&
      Literal1(alts.first.head) != [] then Literal1(alts.first.head)[0] else 0
  }

  /** Matches can begin at the start of the input only. */
  predicate AnchorHint(alts: Alts)
  {
    alts.ACons? && alts.rest.ANil? && alts.first.PCons? && alts.first.head == Piece(Bol, One)
  }

  /** A text that must appear; looked for only when the expression begins with a repetition. */
  function MustHint(alts: Alts): seq<Byte>
  {
    if alts.ACons? && alts.rest.ANil? && AltsSpStart(alts) then Must(alts.first, []) else []
  }

  /** `r` is the finished program for `alts`. */
  ghost predicate Implements(r: Program, alts: Alts)
  {
    && alts.ACons? && WfAlts(alts) && ProgramSize(alts) < TOO_BIG
    && r.code == ProgramImage(alts)
    && r.regstart == StartHint(alts) && r.reganch == AnchorHint(alts)
    && r.regmlen == |MustHint(alts)| && (r.regmust == NULL <==> MustHint(alts) == [])
    && (r.regmust != NULL ==> 0 <= r.regmust && At(r.code, r.regmust, MustHint(alts) + [0]))
  }

  // ----- The program as a whole -----

  /** The byte after the magic number begins the top-level alternatives, and they end at END. */
  lemma ProgramDenotes(alts: Alts)
    requires alts.ACons? && WfAlts(alts) && ProgramSize(alts) < TOO_BIG
    ensures Denotes(ProgramImage(alts), 1, Choose(alts, Done))
    ensures |ProgramImage(alts)| == ProgramSize(alts)
  {
    hide AltsImage, AltsSize, At;
    var body := AltsImage(alts, true, AltCount(alts));
    AtAll(ProgramImage(alts));
    AtFirst(ProgramImage(alts), 0, [MAGIC] + body, Node(END, 0));
    AtFirst(ProgramImage(alts), 0, [MAGIC], body);
  }

  lemma AtAll(x: seq<Byte>)
    ensures At(x, 0, x)
  {
  }

  /** With one alternative, the node after the first BRANCH is END; with more it is a BRANCH. */
  lemma TopBranch(alts: Alts)
    requires alts.ACons? && WfAlts(alts) && ProgramSize(alts) < TOO_BIG
    ensures var code := ProgramImage(alts);
      && |code| >= 10 && Op(code, 1) == BRANCH && Link(code, 1) > 0 && 1 + Link(code, 1) + 3 <= |code|
      && (Op(code, 1 + Link(code, 1)) == END <==> alts.rest.ANil?)
      && Denotes(code, 4, Seq(alts.first, Done))
  {
    hide AltsImage, PiecesSize, PiecesImage, At, Link, Op, Denotes;
    var code := ProgramImage(alts);
    ProgramDenotes(alts);
    ChooseEnd(code, 1, Choose(alts, Done));
    ChoiceBranches(code, 1, alts, Done);
    assert Branches(code, 1, alts, Done);
    var next := 1 + Link(code, 1);
    if alts.rest.ANil? {
      assert next == 1 + AltsSize(alts);
      HeadIs(code, next, Done);
    } else {
      assert Branches(code, next, alts.rest, Done);
    }
  }

  /** A piece other than a plain literal is crossed without meeting a literal node. */
  lemma PieceWalk(code: seq<Byte>, pc: nat, p: Piece, k: Cont) returns (next: nat)
    requires |code| < CODE_LIMIT && WfPiece(p) && WfCont(k) && PieceAt(code, pc, p, k) && Literal1(p) == []
    ensures pc < next && Reach(code, pc, next, true) && Denotes(code, next, k)
  {
    hide PieceAt, At, Link, Op, PieceImage, PieceSize, PieceTail, Denotes, Reach;
    UnfoldPiece(code, pc, p, k);
    next := pc + PieceTail(p) + Link(code, pc + PieceTail(p));
    var d := next - pc - PieceSize(p);
    DenotesFits(code, next, k);
    PieceReachTo(p, d);
    ReachInContext(code, pc, PieceImage(p, To(d)), 0, PieceSize(p) + d, true);
  }

  function Left(k: Cont): Pieces
  {
    if k.Seq? then k.ps else PNil
  }

  /** One step of the walk along the top-level nodes: `scan` is on its way to `at`, where `k` starts. */
  ghost predicate Walking(code: seq<Byte>, scan: nat, at: nat, k: Cont)
  {
    && |code| < CODE_LIMIT && WfCont(k) && (k.Done? || (k.Seq? && k.k.Done?))
    && scan <= at && Reach(code, scan, at, true) && Denotes(code, at, k)
  }

  lemma WalkArrived(code: seq<Byte>, at: nat, k: Cont) returns (at': nat, k': Cont)
    requires Walking(code, at, at, k) && !k.Done?
    ensures at + 3 <= |code| && Link(code, at) > 0 && Op(code, at) != BACK
    ensures Walking(code, at + Link(code, at), at', k')
    ensures Op(code, at) == EXACTLY <==> k.ps.PCons? && Literal1(k.ps.head) != []
    ensures Op(code, at) == EXACTLY ==> At(code, at + 3, Literal1(k.ps.head) + [0])
    ensures Left(k') == if k.ps.PCons? then k.ps.tail else PNil
  {
    hide PieceAt, At, Link, Op, Denotes, Reach;
    HeadIs(code, at, k);
    HeadShape(k);
    if k.ps.PNil? {
      NothingNode(code, at, k.k);
      at', k' := at + Link(code, at), k.k;
      ReachSelf(code, at', true);
    } else {
      var p := k.ps.head;
      k' := Rest(k);
      assert WfPiece(p) && WfCont(k');
      SeqHead(code, at, k.ps, k.k);
      if Literal1(p) != [] {
        assert p == Piece(p.atom, One);
        LeafNode(code, at, p.atom, k');
        at' := at + Link(code, at);
        ReachSelf(code, at', true);
      } else {
        at' := PieceWalk(code, at, p, k');
        WalkOn(code, at, at', k');
      }
    }
  }

  lemma WalkOn(code: seq<Byte>, scan: nat, at: nat, k: Cont)
    requires |code| < CODE_LIMIT && WfCont(k) && (k.Done? || (k.Seq? && k.k.Done?))
    requires scan < at && Reach(code, scan, at, true) && Denotes(code, at, k)
    ensures scan + 3 <= |code| && Link(code, scan) > 0 && Op(code, scan) != BACK && Op(code, scan) != EXACTLY
    ensures Walking(code, scan + Link(code, scan), at, k)
  {
    hide Denotes, Link, Op;
    ReachForward(code, scan + Link(code, scan), at, true);
  }

  /** Follows the top-level chain looking for the longest literal. */
  method LongestLiteral(code: seq<Byte>, first: nat, ghost ps: Pieces) returns (longest: int, len: nat)
    requires Walking(code, first, first, Seq(ps, Done))
    ensures len == |Must(ps, [])| && (longest == NULL <==> len == 0)
    ensures longest != NULL ==> 0 <= longest && At(code, longest, Must(ps, []) + [0])
  {
    hide Walking, At, Link, Reach, Denotes, PieceAt;
    longest, len := NULL, 0;
    var scan: int := first;
    ghost var at, k := first, Seq(ps, Done);
    ghost var best: seq<Byte> := [];
    while scan != NULL
      invariant scan == NULL || (0 <= scan && Walking(code, scan, at, k))
      invariant scan == NULL ==> Left(k) == PNil
      invariant len == |best| && (longest == NULL <==> len == 0)
      invariant longest != NULL ==> 0 <= longest && At(code, longest, best + [0])
      invariant Must(Left(k), best) == Must(ps, [])
      decreases if scan == NULL then 0 else |code| + 1 - scan
    {
      ghost var left := Left(k);
      WalkFacts(code, scan, at, k);
      if scan == at && k.Done? {
        DoneNode(code, scan);
        NextIs(code, scan);
      } else if scan == at {
        at, k := WalkArrived(code, at, k);
        NextIs(code, scan);
        if Op(code, scan) == EXACTLY { WfText(left); }
      } else {
        WalkOn(code, scan, at, k);
        NextIs(code, scan);
      }
      if Op(code, scan) == EXACTLY {
        var n := StrLen(code, scan + 3, Literal1(left.head));
        if n >= len {
          longest, len := scan + 3, n;
          best := Literal1(left.head);
        }
      }
      scan := RegNext(code, scan);
    }
  }

  lemma DoneNode(code: seq<Byte>, pc: nat)
    requires Denotes(code, pc, Done)
    ensures pc + 3 <= |code| && Op(code, pc) == END && Link(code, pc) == 0
  {
    NodeAt(code, pc, END, 0);
  }

  lemma WfText(ps: Pieces)
    requires ps.PCons? && WfPieces(ps)
    ensures NoNul(Literal1(ps.head))
  {
    assert WfPiece(ps.head) && WfAtom(ps.head.atom);
  }

  lemma WalkFacts(code: seq<Byte>, scan: nat, at: nat, k: Cont)
    requires Walking(code, scan, at, k)
    ensures |code| < CODE_LIMIT && WfCont(k) && Denotes(code, at, k) && (k.Done? || (k.Seq? && k.k.Done?)) && scan <= at
    ensures Reach(code, scan, at, true) && WfPieces(Left(k))
  {
    hide Denotes, Reach;
  }

  /** Digs out the hints. */
  method Optimise(code: seq<Byte>, spstart: bool, ghost alts: Alts) returns (r: Program)
    requires alts.ACons? && WfAlts(alts) && ProgramSize(alts) < TOO_BIG && code == ProgramImage(alts) &&
      spstart == AltsSpStart(alts)
    ensures Implements(r, alts)
  {
    hide ProgramImage, At, Link, Denotes, Must, Reach, HeadOp, ProgramSize;
    var regstart, reganch, regmust, regmlen := 0, false, NULL, 0;
    var scan := 1;
    TopBranch(alts);
    ProgramLength(alts);
    NextIs(code, scan);
    if Op(code, RegNext(code, scan)) == END {
      scan := scan + 3;
      StartsWith(code, alts.first);
      if Op(code, scan) == EXACTLY {
        regstart := code[scan + 3];
      } else if Op(code, scan) == BOL {
        reganch := true;
      }
      if spstart {
        WalkBegins(code, scan, alts.first);
        regmust, regmlen := LongestLiteral(code, scan, alts.first);
      }
    }
    r := Program(code, regstart, reganch, regmust, regmlen);
  }

  lemma WalkBegins(code: seq<Byte>, pc: nat, ps: Pieces)
    requires |code| < CODE_LIMIT && WfPieces(ps) && Denotes(code, pc, Seq(ps, Done))
    ensures Walking(code, pc, pc, Seq(ps, Done))
  {
    hide Denotes, Reach;
    assert WfCont(Done);
    ReachSelf(code, pc, true);
  }

  lemma ProgramLength(alts: Alts)
    ensures |ProgramImage(alts)| == ProgramSize(alts)
  {
  }

  lemma StartsWith(code: seq<Byte>, ps: Pieces)
    requires |code| < CODE_LIMIT && WfPieces(ps) && Denotes(code, 4, Seq(ps, Done))
    ensures |code| >= 7
    ensures Op(code, 4) == EXACTLY <==> ps.PCons? && Literal1(ps.head) != []
    ensures Op(code, 4) == EXACTLY ==> |code| > 7 && code[7] == Literal1(ps.head)[0]
    ensures Op(code, 4) == BOL <==> ps.PCons? && ps.head == Piece(Bol, One)
  {
    hide Denotes, At, Link;
    var k := Seq(ps, Done);
    HeadIs(code, 4, k);
    HeadShape(k);
    LookaheadIs(code, 4, k);
    if Op(code, 4) == BOL { BolOp(ps.head.atom); }
  }

  lemma BolOp(a: Atom)
    requires WfAtom(a)
    ensures AtomOp(a) == BOL <==> a == Bol
  {
  }

  /** Compiles `exp`: a sizing pass that may fail, the size limit, an emitting pass that cannot. */
  method RegComp(exp: seq<Byte>) returns (r: Compiled)
    requires NoNul(exp) && Parse(exp) != Err(OutsideFragment)
    ensures var p := Parse(exp);
      if p.Err? then r == Failed(p.error)
      else if ProgramSize(p.value) >= TOO_BIG then r == Failed(TooBig)
      else r.Compiled? && Implements(r.program, p.value)
  {
    hide ParseReg, ParseAlts, AltsImage, AltsSize, AltsSpStart, AltsWidth, RegImage, RegSize, ProgramImage,
         ProgramSize, Implements, WfAlts, AltsNumbered;
    ghost var p := Parse(exp);
    assert p == ParseReg(exp, 0, 1, false);
    var c := new Compiler(exp);
    c.RegC(MAGIC);
    var ret, flags := c.Reg(false);
    if ret.Null? {
      return Failed(ret.error);
    }
    ghost var alts := p.value;
    WholeImage(alts);
    if c.size >= TOO_BIG {
      return Failed(TooBig);
    }
    c.code := new Byte[c.size];
    c.parse, c.npar, c.sizing, c.emit := 0, 1, false, 0;
    c.RegC(MAGIC);
    ret, flags := c.Reg(false);
    var code := c.code[..];
    assert code == c.Out() == ProgramImage(alts) by { assert [] + [MAGIC] == [MAGIC]; }
    var program := Optimise(code, flags.spstart, alts);
    r := Compiled(program);
  }

  lemma WholeImage(alts: Alts)
    ensures 1 + RegSize(false, alts) == ProgramSize(alts)
    ensures [MAGIC] + RegImage(false, 1, alts) == ProgramImage(alts)
  {
    hide AltsImage, AltsSize;
    assert [MAGIC] + (AltsImage(alts, true, AltCount(alts)) + Node(END, 0)) == [MAGIC] + AltsImage(alts, true,
      AltCount(alts)) + Node(END, 0);
  }
}
