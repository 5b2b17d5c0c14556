/** Which continuation a place in a program stands for, and what its bytes therefore look like. */
module RegexpDenotes {
  import opened RegexpCode
  import opened RegexpSyntax
  import opened RegexpLayout
  import opened RegexpChains
  import opened RegexpMachine

  /** `pc` is the first node of `p`, whose tail leads to the code of `k`. */
  ghost predicate PieceAt(code: seq<Byte>, pc: nat, p: Piece, k: Cont)
    decreases k, 1
  {
    var t := pc + PieceTail(p);
    t + 3 <= |code| &&
    var next := t + Link(code, t);
    && pc + PieceSize(p) <= next
    && At(code, pc, PieceImage(p, To(next - pc - PieceSize(p))))
    && Denotes(code, next, k)
  }

  /** Running the program from `pc` is running `k`. */
  ghost predicate Denotes(code: seq<Byte>, pc: nat, k: Cont)
    decreases k, 0
  {
    match k
    case Done => At(code, pc, Node(END, 0))
    case Seq(ps, k') =>
      var t := pc + PiecesTail(ps);
      t + 3 <= |code| &&
      var next := t + Link(code, t);
      && pc + PiecesSize(ps) <= next
      && At(code, pc, PiecesImage(ps, To(next - pc - PiecesSize(ps))))
      && Denotes(code, next, k')
    case Choose(alts, k') =>
      && At(code, pc, AltsImage(alts, true, AltCount(alts)))
      && (k'.Done? || k'.Shut?)
      && Denotes(code, pc + AltsSize(alts), k')
    case Shut(no, k') =>
      pc + 3 <= |code| && Link(code, pc) > 0
      && At(code, pc, Node(CloseOp(no), Link(code, pc)))
      && Denotes(code, pc + Link(code, pc), k')
    case Loop(a, _, k') => 3 + AtomSize(a) <= pc && PieceAt(code, pc - 3 - AtomSize(a), Piece(a, Star), k')
    case Again(a, _, k') => AtomSize(a) <= pc && PieceAt(code, pc - AtomSize(a), Piece(a, Plus), k')
    case Redo(a, _, k') => 3 + AtomSize(a) <= pc && PieceAt(code, pc - 3 - AtomSize(a), Piece(a, Plus), k')
  }

  /** The opcode every such place begins with. */
  function PieceOp(p: Piece): Byte
  {
    if p.quant.One? then AtomOp(p.atom)
    else if p.quant.Opt? then BRANCH
    else if Simple(p.atom) then RepeatOp(p.quant)
    else if p.quant.Star? then BRANCH
    else AtomOp(p.atom)
  }

  function HeadOp(k: Cont): Byte
  {
    match k
    case Done => END
    case Seq(ps, _) => if ps.PNil? then NOTHING else PieceOp(ps.head)
    case Choose(_, _) => BRANCH
    case Shut(no, _) => CloseOp(no)
    case Loop(_, _, _) => BACK
    case Again(_, _, _) => BRANCH
    case Redo(_, _, _) => BACK
  }

  // ----- Reading images -----

  lemma AtFirst(code: seq<Byte>, pc: nat, x: seq<Byte>, y: seq<Byte>)
    requires At(code, pc, x + y)
    ensures At(code, pc, x) && At(code, pc + |x|, y)
  {
    AtConcat(code, pc, x, y);
  }

  lemma AtomFirst(a: Atom, t: Tail)
    ensures AtomImage(a, t)[0] == AtomOp(a)
  {
  }

  lemma PieceFirst(p: Piece, t: Tail)
    ensures PieceImage(p, t)[0] == PieceOp(p)
  {
    hide AtomImage;
    AtomFirst(p.atom, t);
    AtomFirst(p.atom, To(0));
  }

  lemma AtByte(code: seq<Byte>, pc: nat, x: seq<Byte>, j: nat)
    requires At(code, pc, x) && j < |x|
    ensures pc + j < |code| && code[pc + j] == x[j]
  {
    assert code[pc..pc + |x|][j] == code[pc + j];
  }

  lemma UnfoldSeq(code: seq<Byte>, pc: nat, ps: Pieces, k: Cont)
    requires Denotes(code, pc, Seq(ps, k))
    ensures pc + PiecesTail(ps) + 3 <= |code|
    ensures pc + PiecesSize(ps) <= pc + PiecesTail(ps) + Link(code, pc + PiecesTail(ps))
    ensures At(code, pc, PiecesImage(ps, To(pc + PiecesTail(ps) + Link(code,
      pc + PiecesTail(ps)) - pc - PiecesSize(ps))))
    ensures Denotes(code, pc + PiecesTail(ps) + Link(code, pc + PiecesTail(ps)), k)
  {
    hide At, Link, PiecesImage, PiecesSize, PiecesTail;
  }

  lemma FoldSeq(code: seq<Byte>, pc: nat, ps: Pieces, d: nat, k: Cont)
    requires pc + PiecesTail(ps) + 3 <= |code|
    requires PiecesTail(ps) + Link(code, pc + PiecesTail(ps)) == PiecesSize(ps) + d
    requires At(code, pc, PiecesImage(ps, To(d))) && Denotes(code, pc + PiecesSize(ps) + d, k)
    ensures Denotes(code, pc, Seq(ps, k))
  {
    hide At, Link, PiecesImage, PiecesSize, PiecesTail;
    assert pc + PiecesTail(ps) + Link(code, pc + PiecesTail(ps)) == pc + PiecesSize(ps) + d;
  }

  lemma FoldPiece(code: seq<Byte>, pc: nat, p: Piece, d: nat, k: Cont)
    requires pc + PieceTail(p) + 3 <= |code|
    requires PieceTail(p) + Link(code, pc + PieceTail(p)) == PieceSize(p) + d
    requires At(code, pc, PieceImage(p, To(d))) && Denotes(code, pc + PieceSize(p) + d, k)
    ensures PieceAt(code, pc, p, k)
  {
    hide At, Link, PieceImage, PieceSize, PieceTail, Denotes;
    assert pc + PieceTail(p) + Link(code, pc + PieceTail(p)) == pc + PieceSize(p) + d;
  }

  lemma UnfoldPiece(code: seq<Byte>, pc: nat, p: Piece, k: Cont)
    requires PieceAt(code, pc, p, k)
    ensures pc + PieceTail(p) + 3 <= |code|
    ensures pc + PieceSize(p) <= pc + PieceTail(p) + Link(code, pc + PieceTail(p))
    ensures At(code, pc, PieceImage(p, To(pc + PieceTail(p) + Link(code, pc + PieceTail(p)) - pc - PieceSize(p))))
    ensures Denotes(code, pc + PieceTail(p) + Link(code, pc + PieceTail(p)), k)
  {
    hide At, Link, PieceImage, PieceSize, PieceTail, Denotes;
  }

  /** The first piece of a concatenation, and what comes after it. */
  lemma SeqHead(code: seq<Byte>, pc: nat, ps: Pieces, k: Cont)
    requires |code| < CODE_LIMIT && ps.PCons? && WfPieces(ps) && WfCont(k) && Denotes(code, pc, Seq(ps, k))
    ensures PieceAt(code, pc, ps.head, After(ps.tail, k))
  {
    hide At, PieceImage, PiecesImage, PieceSize, PieceTail, PiecesTail, PiecesSize, Link, Denotes, PieceAt;
    UnfoldSeq(code, pc, ps, k);
    var d := pc + PiecesTail(ps) + Link(code, pc + PiecesTail(ps)) - pc - PiecesSize(ps);
    PiecesCons(ps, d);
    if ps.tail.PCons? {
      var n := PieceSize(ps.head);
      AtFirst(code, pc, PieceImage(ps.head, To(0)), PiecesImage(ps.tail, To(d)));
      AtSize(code, pc, PieceImage(ps.head, To(0)));
      PieceTailNode(ps.head, To(0));
      LinkAt(code, pc, PieceImage(ps.head, To(0)), PieceTail(ps.head));
      assert pc + n + PiecesTail(ps.tail) == pc + PiecesTail(ps);
      FoldSeq(code, pc + n, ps.tail, d, k);
      FoldPiece(code, pc, ps.head, 0, Seq(ps.tail, k));
    } else {
      FoldPiece(code, pc, ps.head, d, k);
    }
  }

  lemma PiecesCons(ps: Pieces, d: nat)
    requires ps.PCons?
    ensures PiecesImage(ps, To(d)) ==
      if ps.tail.PNil? then PieceImage(ps.head, To(d)) else PieceImage(ps.head, To(0)) + PiecesImage(ps.tail, To(d))
    ensures PiecesSize(ps) == if ps.tail.PNil? then PieceSize(ps.head) else PieceSize(ps.head) + PiecesSize(ps.tail)
    ensures PiecesTail(ps) == if ps.tail.PNil? then PieceTail(ps.head) else PieceSize(ps.head) + PiecesTail(ps.tail)
  {
    hide PieceImage, PieceSize, PieceTail;
  }

  lemma AtSize(code: seq<Byte>, pc: nat, x: seq<Byte>)
    requires At(code, pc, x)
    ensures pc + |x| <= |code|
  {
  }

  lemma LinkAt(code: seq<Byte>, pc: nat, x: seq<Byte>, j: nat)
    requires At(code, pc, x) && j + 3 <= |x|
    ensures pc + j + 3 <= |code| && Link(code, pc + j) == Link(x, j) && Op(code, pc + j) == Op(x, j)
  {
    AtByte(code, pc, x, j);
    AtByte(code, pc, x, j + 1);
    AtByte(code, pc, x, j + 2);
  }

  lemma At4(code: seq<Byte>, pc: nat, w: seq<Byte>, x: seq<Byte>, y: seq<Byte>, z: seq<Byte>)
    requires At(code, pc, w + x + y + z)
    ensures At(code, pc, w) && At(code, pc + |w|, x) && At(code, pc + |w| + |x|, y)
    ensures At(code, pc + |w| + |x| + |y|, z)
  {
    hide At;
    AtFirst(code, pc, w + x + y, z);
    AtFirst(code, pc, w + x, y);
    AtFirst(code, pc, w, x);
    assert |w + x| == |w| + |x| && |w + x + y| == |w| + |x| + |y|;
  }

  lemma NodeAt(code: seq<Byte>, pc: nat, op: Byte, link: nat)
    requires At(code, pc, Node(op, link)) && link < 65536
    ensures pc + 3 <= |code| && Op(code, pc) == op && Link(code, pc) == link
  {
    AtNode(code, pc, op, link);
  }

  /** A final NOTHING node of a construct whose code ends at `pc + 3`. */
  lemma NothingAt(code: seq<Byte>, pc: nat, d: nat, k: Cont)
    requires |code| < CODE_LIMIT && WfCont(k) && At(code, pc, Node(NOTHING, 3 + d)) && Denotes(code, pc + 3 + d, k) &&
      pc + 3 + d <= |code|
    ensures pc + 3 <= |code| && Op(code, pc) == NOTHING && Link(code, pc) == 3 + d && Denotes(code, pc, Seq(PNil, k))
  {
    hide At, Link, Op;
    NodeAt(code, pc, NOTHING, 3 + d);
    assert PiecesImage(PNil, To(d)) == Node(NOTHING, 3 + d);
  }

  lemma DenotesFits(code: seq<Byte>, pc: nat, k: Cont)
    requires WfCont(k) && Denotes(code, pc, k)
    ensures pc + 3 <= |code|
  {
    hide At;
    match k
    case Done => AtSize(code, pc, Node(END, 0));
    case Seq(ps, _) =>
    case Choose(alts, _) =>
      AtSize(code, pc, AltsImage(alts, true, AltCount(alts)));
    case Shut(_, _) =>
    case Loop(_, _, _) =>
    case Again(_, _, _) =>
    case Redo(_, _, _) =>
  }

  /** An atom's code as the operand of some construct, when the place its tail leads to is `k`. */
  lemma AtomDenotes(code: seq<Byte>, pc: nat, a: Atom, d: nat, k: Cont)
    requires |code| < CODE_LIMIT && WfCont(k) && At(code, pc, AtomImage(a, To(d))) &&
      Denotes(code, pc + AtomSize(a) + d, k)
    ensures Denotes(code, pc, Seq(Only(a), k))
  {
    hide At, AtomImage, AtomSize, AtomTail, PiecesImage, PiecesSize, PiecesTail, Link, Denotes, Only;
    OnlyImage(a, To(d));
    BodyDenotes(code, pc, Only(a), d, k);
  }

  lemma OnlyImage(a: Atom, t: Tail)
    ensures PiecesImage(Only(a), t) == AtomImage(a, t)
    ensures PiecesSize(Only(a)) == AtomSize(a) && PiecesTail(Only(a)) == AtomTail(a)
  {
  }

  // ----- What each construct looks like -----

  lemma OpenImage(a: Atom, d: nat)
    requires a.Group?
    ensures AtomImage(a, To(d))
         == Node(AtomOp(a), 3) + AltsImage(a.body, true, AltCount(a.body)) + Node(CloseOp(a.no), 3 + d)
    ensures AtomSize(a) == 6 + AltsSize(a.body) && AtomTail(a) == 3 + AltsSize(a.body)
  {
    hide AltsImage, AltsSize, AltCount, Node, AtomOp, CloseOp, Operand;
  }

  lemma OptImage(a: Atom, d: nat)
    ensures PieceImage(Piece(a, Opt), To(d))
         == Node(BRANCH, 3 + AtomSize(a)) + AtomImage(a, To(3)) + Node(BRANCH, 3) + Node(NOTHING, 3 + d)
    ensures PieceSize(Piece(a, Opt)) == AtomSize(a) + 9 && PieceTail(Piece(a, Opt)) == AtomSize(a) + 6
  {
  }

  lemma StarImage(a: Atom, d: nat)
    requires !Simple(a)
    ensures PieceImage(Piece(a, Star), To(d))
         == Node(BRANCH, 6 + AtomSize(a)) + AtomImage(a, To(0)) + Node(BACK, 3 + AtomSize(a)) + Node(BRANCH,
           3) + Node(NOTHING, 3 + d)
    ensures PieceSize(Piece(a, Star)) == AtomSize(a) + 12 && PieceTail(Piece(a, Star)) == AtomSize(a) + 9
  {
  }

  lemma PlusImage(a: Atom, d: nat)
    requires !Simple(a)
    ensures PieceImage(Piece(a, Plus), To(d))
         == AtomImage(a, To(0)) + Node(BRANCH, 6) + Node(BACK, 3 + AtomSize(a)) + Node(BRANCH, 3) + Node(NOTHING, 3 + d)
    ensures PieceSize(Piece(a, Plus)) == AtomSize(a) + 12 && PieceTail(Piece(a, Plus)) == AtomSize(a) + 9
  {
  }

  lemma LeafLinked(a: Atom, d: nat)
    requires !a.Group?
    ensures AtomImage(a, To(d)) == Node(AtomOp(a), AtomSize(a) + d) + Operand(a)
    ensures AtomSize(a) == 3 + |Operand(a)| && AtomTail(a) == 0
  {
    hide AtomOp, Operand, Node;
  }

  lemma LeafNode(code: seq<Byte>, pc: nat, a: Atom, k: Cont)
    requires |code| < CODE_LIMIT && WfCont(k) && !a.Group? && PieceAt(code, pc, Piece(a, One), k)
    ensures pc + 3 <= |code| && Op(code, pc) == AtomOp(a) && Link(code, pc) > 0
    ensures Denotes(code, pc + Link(code, pc), k) && At(code, pc + 3, Operand(a))
  {
    hide At, Link, Denotes, Operand;
    var d := pc + Link(code, pc) - pc - AtomSize(a);
    DenotesFits(code, pc + Link(code, pc), k);
    LeafLinked(a, d);
    AtFirst(code, pc, Node(AtomOp(a), AtomSize(a) + d), Operand(a));
    NodeAt(code, pc, AtomOp(a), AtomSize(a) + d);
  }

  lemma NothingImage(d: nat)
    ensures PiecesImage(PNil, To(d)) == Node(NOTHING, 3 + d) && PiecesSize(PNil) == 3 && PiecesTail(PNil) == 0
  {
    hide Node;
  }

  lemma NothingNode(code: seq<Byte>, pc: nat, k: Cont)
    requires |code| < CODE_LIMIT && WfCont(k) && Denotes(code, pc, Seq(PNil, k))
    ensures pc + 3 <= |code| && Op(code, pc) == NOTHING && Link(code, pc) > 0
    ensures Denotes(code, pc + Link(code, pc), k)
  {
    hide At, Link, Denotes;
    NothingImage(0);
    UnfoldSeq(code, pc, PNil, k);
    var d := pc + Link(code, pc) - pc - 3;
    NothingImage(d);
    DenotesFits(code, pc + Link(code, pc), k);
    NodeAt(code, pc, NOTHING, 3 + d);
  }

  lemma OpenNode(code: seq<Byte>, pc: nat, a: Atom, k: Cont)
    requires |code| < CODE_LIMIT && WfCont(k) && a.Group? && PieceAt(code, pc, Piece(a, One), k)
    ensures pc + 3 <= |code| && Op(code, pc) == AtomOp(a) && Link(code, pc) == 3
    ensures Denotes(code, pc + 3, Choose(a.body, Shut(a.no, k)))
  {
    hide At, Link, Op, AtomImage, AltsImage, AltsSize, AtomSize, AtomTail, Denotes;
    OpenImage(a, 0);
    var t := pc + 3 + AltsSize(a.body);
    OpenTail(code, pc, a, k);
    var d := t + Link(code, t) - pc - AtomSize(a);
    OpenImage(a, d);
    DenotesFits(code, t + Link(code, t), k);
    var open, alts, close := Node(AtomOp(a), 3), AltsImage(a.body, true, AltCount(a.body)), Node(CloseOp(a.no), 3 + d);
    AtFirst(code, pc, open + alts, close);
    AtFirst(code, pc, open, alts);
    NodeAt(code, pc, AtomOp(a), 3);
    NodeAt(code, t, CloseOp(a.no), 3 + d);
    ShutDenotes(code, t, a.no, k);
    OpenDenotes(code, pc + 3, a.body, a.no, k);
  }

  lemma OneLayout(a: Atom)
    ensures PieceSize(Piece(a, One)) == AtomSize(a) && PieceTail(Piece(a, One)) == AtomTail(a)
  {
    hide AtomSize, AtomTail;
  }

  lemma OpenTail(code: seq<Byte>, pc: nat, a: Atom, k: Cont)
    requires a.Group? && PieceAt(code, pc, Piece(a, One), k)
    ensures var t := pc + 3 + AltsSize(a.body);
      && t + 3 <= |code| && pc + AtomSize(a) <= t + Link(code, t)
      && At(code, pc, AtomImage(a, To(t + Link(code, t) - pc - AtomSize(a)))) && Denotes(code, t + Link(code, t), k)
  {
    hide At, Link, AtomImage, PieceImage, PieceSize, PieceTail, AltsSize, AtomSize, AtomTail, Denotes, PieceAt;
    OpenImage(a, 0);
    OneLayout(a);
    UnfoldPiece(code, pc, Piece(a, One), k);
    PieceOne(Piece(a, One), To(pc + PieceTail(Piece(a, One)) + Link(code, pc + PieceTail(Piece(a,
      One))) - pc - AtomSize(a)));
  }

  lemma ShutDenotes(code: seq<Byte>, t: nat, no: nat, k: Cont)
    requires t + 3 <= |code| && Link(code, t) > 0
    requires At(code, t, Node(CloseOp(no), Link(code, t))) && Denotes(code, t + Link(code, t), k)
    ensures Denotes(code, t, Shut(no, k))
  {
    hide At, Link;
  }

  lemma OpenDenotes(code: seq<Byte>, pc: nat, body: Alts, no: nat, k: Cont)
    requires At(code, pc, AltsImage(body, true, AltCount(body)))
    requires Denotes(code, pc + AltsSize(body), Shut(no, k))
    ensures Denotes(code, pc, Choose(body, Shut(no, k)))
  {
    hide At, Link, AltsImage, AltsSize;
  }

  lemma LeafOpen(a: Atom)
    requires !a.Group?
    ensures AtomImage(a, Open) == Node(AtomOp(a), 0) + Operand(a)
  {
  }

  lemma RepeatNode(code: seq<Byte>, pc: nat, p: Piece, k: Cont)
    requires |code| < CODE_LIMIT && WfCont(k) && Simple(p.atom) && !p.quant.One? && !p.quant.Opt? &&
      PieceAt(code, pc, p, k)
    ensures pc + 6 <= |code| && Op(code, pc) == RepeatOp(p.quant) && Link(code, pc) > 0
    ensures Denotes(code, pc + Link(code, pc), k)
    ensures Op(code, pc + 3) == AtomOp(p.atom) && At(code, pc + 6, Operand(p.atom))
  {
    hide At, Link, Op, AtomImage, PieceImage, Denotes, Operand;
    var d := pc + Link(code, pc) - pc - PieceSize(p);
    DenotesFits(code, pc + Link(code, pc), k);
    PieceSimple(p, To(d));
    AtFirst(code, pc, Node(RepeatOp(p.quant), PieceSize(p) + d), AtomImage(p.atom, Open));
    NodeAt(code, pc, RepeatOp(p.quant), PieceSize(p) + d);
    LeafOpen(p.atom);
    AtFirst(code, pc + 3, Node(AtomOp(p.atom), 0), Operand(p.atom));
    NodeAt(code, pc + 3, AtomOp(p.atom), 0);
  }

  lemma OptNode(code: seq<Byte>, pc: nat, a: Atom, k: Cont)
    requires |code| < CODE_LIMIT && WfCont(k) && PieceAt(code, pc, Piece(a, Opt), k)
    ensures var q := pc + 3 + AtomSize(a);
      && q + 6 <= |code| && Op(code, pc) == BRANCH && Link(code, pc) == 3 + AtomSize(a)
      && Op(code, q) == BRANCH && Link(code, q) == 3 && Op(code, q + 3) == NOTHING
      && Denotes(code, q + 3, Seq(PNil, k)) && Denotes(code, pc + 3, Seq(Only(a), Seq(PNil, k)))
  {
    hide At, Link, Op, AtomImage, AtomSize, PieceImage, PieceSize, PieceTail, Denotes;
    OptImage(a, 0);
    var n := AtomSize(a);
    var t := pc + n + 6;
    var d := t + Link(code, t) - pc - n - 9;
    OptImage(a, d);
    DenotesFits(code, t + Link(code, t), k);
    At4(code, pc, Node(BRANCH, 3 + n), AtomImage(a, To(3)), Node(BRANCH, 3), Node(NOTHING, 3 + d));
    NodeAt(code, pc, BRANCH, 3 + n);
    NodeAt(code, pc + 3 + n, BRANCH, 3);
    NothingAt(code, t, d, k);
    AtomDenotes(code, pc + 3, a, 3, Seq(PNil, k));
  }

  /** The places that end a round of a repeated group. */
  lemma RoundDenotes(code: seq<Byte>, pc: nat, a: Atom, i: nat, k: Cont)
    ensures 3 + AtomSize(a) <= pc && PieceAt(code, pc - 3 - AtomSize(a), Piece(a, Star), k) ==>
      Denotes(code, pc, Loop(a, i, k))
    ensures AtomSize(a) <= pc && PieceAt(code, pc - AtomSize(a), Piece(a, Plus), k) ==>
      Denotes(code, pc, Again(a, i, k))
    ensures 3 + AtomSize(a) <= pc && PieceAt(code, pc - 3 - AtomSize(a), Piece(a, Plus), k) ==>
      Denotes(code, pc, Redo(a, i, k))
  {
    hide PieceAt, AtomSize;
  }

  lemma StarNode(code: seq<Byte>, pc: nat, a: Atom, i: nat, k: Cont)
    requires |code| < CODE_LIMIT && WfCont(k) && a.Group? && WfAtom(a) && AtomWidth(a) &&
      PieceAt(code, pc, Piece(a, Star), k)
    ensures var q := pc + 6 + AtomSize(a);
      && q + 6 <= |code| && Op(code, pc) == BRANCH && Link(code, pc) == 6 + AtomSize(a)
      && Op(code, q - 3) == BACK && Link(code, q - 3) == 3 + AtomSize(a)
      && Op(code, q) == BRANCH && Link(code, q) == 3 && Op(code, q + 3) == NOTHING
      && Denotes(code, q + 3, Seq(PNil, k)) && Denotes(code, pc + 3, Seq(Only(a), Loop(a, i, k)))
  {
    hide At, Link, Op, AtomImage, AtomSize, PieceImage, PieceSize, PieceTail, Denotes;
    StarImage(a, 0);
    var n := AtomSize(a);
    var t := pc + n + 9;
    var d := t + Link(code, t) - pc - n - 12;
    StarImage(a, d);
    DenotesFits(code, t + Link(code, t), k);
    AtFirst(code, pc, Node(BRANCH, 6 + n) + AtomImage(a, To(0)) + Node(BACK, 3 + n) + Node(BRANCH, 3), Node(NOTHING,
      3 + d));
    At4(code, pc, Node(BRANCH, 6 + n), AtomImage(a, To(0)), Node(BACK, 3 + n), Node(BRANCH, 3));
    NodeAt(code, pc, BRANCH, 6 + n);
    NodeAt(code, pc + 3 + n, BACK, 3 + n);
    NodeAt(code, pc + 6 + n, BRANCH, 3);
    NothingAt(code, t, d, k);
    RoundDenotes(code, pc + 3 + n, a, i, k);
    AtomDenotes(code, pc + 3, a, 0, Loop(a, i, k));
  }

  lemma PlusNode(code: seq<Byte>, pc: nat, a: Atom, i: nat, k: Cont)
    requires |code| < CODE_LIMIT && WfCont(k) && a.Group? && WfAtom(a) && AtomWidth(a) &&
      PieceAt(code, pc, Piece(a, Plus), k)
    ensures var b := pc + AtomSize(a);
      && b + 12 <= |code| && Op(code, b) == BRANCH && Link(code, b) == 6
      && Op(code, b + 3) == BACK && Link(code, b + 3) == 3 + AtomSize(a)
      && Op(code, b + 6) == BRANCH && Link(code, b + 6) == 3 && Op(code, b + 9) == NOTHING
      && Denotes(code, b + 9, Seq(PNil, k)) && Denotes(code, pc, Seq(Only(a), Again(a, i, k)))
  {
    hide At, Link, Op, AtomImage, AtomSize, PieceImage, PieceSize, PieceTail, Denotes;
    PlusImage(a, 0);
    var n := AtomSize(a);
    var t := pc + n + 9;
    var d := t + Link(code, t) - pc - n - 12;
    PlusImage(a, d);
    DenotesFits(code, t + Link(code, t), k);
    AtFirst(code, pc, AtomImage(a, To(0)) + Node(BRANCH, 6) + Node(BACK, 3 + n) + Node(BRANCH, 3), Node(NOTHING,
      3 + d));
    At4(code, pc, AtomImage(a, To(0)), Node(BRANCH, 6), Node(BACK, 3 + n), Node(BRANCH, 3));
    NodeAt(code, pc + n, BRANCH, 6);
    NodeAt(code, pc + n + 3, BACK, 3 + n);
    NodeAt(code, pc + n + 6, BRANCH, 3);
    NothingAt(code, t, d, k);
    RoundDenotes(code, pc + n, a, i, k);
    AtomDenotes(code, pc, a, 0, Again(a, i, k));
  }

  /** The BRANCH nodes of a choice, the j-th and all later ones. */
  ghost predicate Branches(code: seq<Byte>, pc: nat, alts: Alts, k: Cont)
    decreases alts
  {
    alts.ACons? ==>
      && pc + 3 <= |code| && Op(code, pc) == BRANCH && Link(code, pc) == 3 + PiecesSize(alts.first)
      && Denotes(code, pc + 3, Seq(alts.first, k))
      && Branches(code, pc + Link(code, pc), alts.rest, k)
  }

  lemma {:induction false} ChoiceBranches(code: seq<Byte>, pc: nat, alts: Alts, k: Cont)
    requires |code| < CODE_LIMIT && WfCont(k) && At(code, pc, AltsImage(alts, true, AltCount(alts))) &&
      Denotes(code, pc + AltsSize(alts), k)
    ensures Branches(code, pc, alts, k)
    decreases alts
  {
    hide At, Link, PiecesImage, PiecesSize, Denotes;
    if alts.ACons? {
      var b, rest := alts.first, alts.rest;
      var node, body, more := Node(BRANCH, 3 + PiecesSize(b)), PiecesImage(b, To(AltsSize(rest))), AltsImage(rest,
        true, AltCount(rest));
      assert AltsImage(alts, true, AltCount(alts)) == node + body + more;
      AtFirst(code, pc, node + body, more);
      AtFirst(code, pc, node, body);
      AtSize(code, pc + 3, body);
      NodeAt(code, pc, BRANCH, 3 + PiecesSize(b));
      ChoiceBranches(code, pc + 3 + PiecesSize(b), rest, k);
      BodyDenotes(code, pc + 3, b, AltsSize(rest), k);
    }
  }

  lemma BodyDenotes(code: seq<Byte>, pc: nat, b: Pieces, d: nat, k: Cont)
    requires |code| < CODE_LIMIT && WfCont(k) && At(code, pc, PiecesImage(b, To(d))) &&
      Denotes(code, pc + PiecesSize(b) + d, k)
    ensures Denotes(code, pc, Seq(b, k))
  {
    hide At, Link, PiecesImage, PiecesSize, PiecesTail, Denotes;
    DenotesFits(code, pc + PiecesSize(b) + d, k);
    AtSize(code, pc, PiecesImage(b, To(d)));
    PiecesTailNode(b, To(d));
    LinkAt(code, pc, PiecesImage(b, To(d)), PiecesTail(b));
    FoldSeq(code, pc, b, d, k);
  }

  lemma {:induction false} PiecesTailNode(ps: Pieces, t: Tail)
    requires PiecesSize(ps) < 65536 && (t.To? ==> PiecesSize(ps) + t.dist < 65536)
    ensures Link(PiecesImage(ps, t), PiecesTail(ps)) == TailLink(PiecesSize(ps) - PiecesTail(ps), t)
  {
    hide Link, Op, PieceImage, PieceSize, PieceTail;
    if ps.PNil? {
      HeadNode(NOTHING, TailLink(3, t), [], false);
      assert Node(NOTHING, TailLink(3, t)) + [] == PiecesImage(ps, t);
    } else if ps.tail.PNil? {
      PieceTailNode(ps.head, t);
    } else {
      PiecesTailNode(ps.tail, t);
      LinkAfterPrefix(PieceImage(ps.head, To(0)), PiecesImage(ps.tail, t), PiecesTail(ps.tail));
    }
  }
}
