/** Following links through images: where a walk from the first node of a construct ends. */
module RegexpChains {
  import opened RegexpCode
  import opened RegexpSyntax
  import opened RegexpLayout

  // ----- Chains in concatenated code -----

  /** A node leads to the place its link names. */
  lemma HeadNode(op: Byte, link: nat, post: seq<Byte>, quiet: bool)
    requires link < 65536
    ensures Op(Node(op, link) + post, 0) == op && Link(Node(op, link) + post, 0) == link
    ensures link > 0 && op != BACK && (quiet ==> op != EXACTLY) ==> Reach(Node(op, link) + post, 0, link, quiet)
  {
    assert Reach(Node(op, link) + post, link, link, quiet);
  }

  lemma AfterPrefix(pre: seq<Byte>, x: seq<Byte>, p: nat, q: nat, quiet: bool)
    requires Reach(x, p, q, quiet)
    ensures Reach(pre + x, |pre| + p, |pre| + q, quiet)
  {
    hide Reach, Link, Op;
    AtOffset(pre, x, []);
    assert pre + x + [] == pre + x;
    ReachInContext(pre + x, |pre|, x, p, q, quiet);
  }

  lemma BeforeSuffix(x: seq<Byte>, post: seq<Byte>, p: nat, q: nat, quiet: bool)
    requires Reach(x, p, q, quiet)
    ensures Reach(x + post, p, q, quiet)
  {
    hide Reach, Link, Op;
    AtOffset([], x, post);
    assert [] + x + post == x + post;
    ReachInContext(x + post, 0, x, p, q, quiet);
  }

  /** A node that jumps over `body` to a chain through `rest`. */
  lemma JumpOver(op: Byte, body: seq<Byte>, rest: seq<Byte>, q: nat, quiet: bool)
    requires |body| + 3 < 65536 && op != BACK && (quiet ==> op != EXACTLY)
    requires Reach(rest, 0, q, quiet)
    ensures Reach(Node(op, 3 + |body|) + body + rest, 0, 3 + |body| + q, quiet)
  {
    hide Reach, Link, Op;
    var code := Node(op, 3 + |body|) + body + rest;
    HeadNode(op, 3 + |body|, body + rest, quiet);
    assert code == Node(op, 3 + |body|) + (body + rest);
    AfterPrefix(Node(op, 3 + |body|) + body, rest, 0, q, quiet);
    ReachTrans(code, 0, 3 + |body|, 3 + |body| + q, quiet);
  }

  /** A chain through `x` that leaves it at its end continues through `y`. */
  lemma Follow(x: seq<Byte>, y: seq<Byte>, q: nat, quiet: bool)
    requires Reach(x, 0, |x|, quiet) && Reach(y, 0, q, quiet)
    ensures Reach(x + y, 0, |x| + q, quiet)
  {
    hide Reach, Link, Op;
    BeforeSuffix(x, y, 0, |x|, quiet);
    AfterPrefix(x, y, 0, q, quiet);
    ReachTrans(x + y, 0, |x|, |x| + q, quiet);
  }

  lemma LinkAfterPrefix(pre: seq<Byte>, x: seq<Byte>, p: nat)
    requires p + 3 <= |x|
    ensures Link(pre + x, |pre| + p) == Link(x, p) && Op(pre + x, |pre| + p) == Op(x, p)
  {
  }

  // ----- Chains through images -----

  lemma {:induction false} AltsReach(alts: Alts, closed: nat)
    requires AltsSize(alts) < 65536
    ensures Reach(AltsImage(alts, true, closed), 0, AltsSize(alts), true)
  {
    hide Reach, Link, Op, PiecesImage;
    if alts.ANil? {
      ReachSelf([], 0, true);
    } else {
      var c := if closed > 0 then closed - 1 else 0;
      AltsReach(alts.rest, c);
      JumpOver(BRANCH, PiecesImage(alts.first, if closed > 0 then To(AltsSize(alts.rest)) else Open),
               AltsImage(alts.rest, true, c), AltsSize(alts.rest), true);
    }
  }

  lemma OpenChainStep(body: seq<Byte>, rest: seq<Byte>, q: nat)
    requires |body| + 3 < 65536 && q + 3 <= |rest|
    requires Reach(rest, 0, q, true) && Link(rest, q) == 0 && Op(rest, q) == BRANCH
    ensures var code := Node(BRANCH, 3 + |body|) + body + rest;
            Reach(code, 0, 3 + |body| + q, true) && Link(code, 3 + |body| + q) == 0
            && Op(code, 3 + |body| + q) == BRANCH
  {
    hide Reach;
    JumpOver(BRANCH, body, rest, q, true);
    LinkAfterPrefix(Node(BRANCH, 3 + |body|) + body, rest, q);
  }

  lemma OpenChainEnd(body: seq<Byte>)
    ensures var code := Node(BRANCH, 0) + body + [];
            Reach(code, 0, 0, true) && Link(code, 0) == 0 && Op(code, 0) == BRANCH
  {
  }

  lemma {:induction false} AltsReachTail(alts: Alts)
    requires alts.ACons? && AltsSize(alts) < 65536
    ensures Reach(AltsImage(alts, false, 0), 0, AltsTail(alts), true)
    ensures Link(AltsImage(alts, false, 0), AltsTail(alts)) == 0
    ensures Op(AltsImage(alts, false, 0), AltsTail(alts)) == BRANCH
  {
    hide Reach, Link, Op, PiecesImage;
    if alts.rest.ACons? {
      AltsReachTail(alts.rest);
      OpenChainStep(PiecesImage(alts.first, Open), AltsImage(alts.rest, false, 0), AltsTail(alts.rest));
    } else {
      OpenChainEnd(PiecesImage(alts.first, Open));
    }
  }

  lemma GroupReach(a: Atom, t: Tail)
    requires a.Group? && AtomSize(a) < 65536
    ensures Reach(AtomImage(a, t), 0, AtomTail(a), true)
  {
    hide Reach, Link, Op, AltsImage;
    var alts := AltsImage(a.body, true, AltCount(a.body));
    var close := Node(CloseOp(a.no), TailLink(3, t));
    AltsReach(a.body, AltCount(a.body));
    HeadNode(AtomOp(a), 3, [], true);
    assert Node(AtomOp(a), 3) + [] == Node(AtomOp(a), 3);
    Follow(Node(AtomOp(a), 3), alts, |alts|, true);
    BeforeSuffix(Node(AtomOp(a), 3) + alts, close, 0, 3 + |alts|, true);
  }

  lemma AtomReachOpen(a: Atom)
    requires AtomSize(a) < 65536
    ensures Reach(AtomImage(a, Open), 0, AtomTail(a), true)
    ensures Link(AtomImage(a, Open), AtomTail(a)) == 0 && Op(AtomImage(a, Open), AtomTail(a)) != BACK
  {
    hide Reach, Link, Op, AtomImage;
    AtomTailNode(a, Open);
    if a.Group? {
      GroupReach(a, Open);
    } else {
      ReachSelf(AtomImage(a, Open), 0, true);
    }
  }

  /** A linked atom leads out of its image, to wherever its tail points. */
  lemma AtomReachTo(a: Atom, d: nat)
    requires AtomSize(a) + d < 65536
    ensures Reach(AtomImage(a, To(d)), 0, AtomSize(a) + d, !a.Literal?)
  {
    hide Reach, Link, Op, AltsImage;
    if a.Group? {
      GroupReach(a, To(d));
      var alts := AltsImage(a.body, true, AltCount(a.body));
      HeadNode(CloseOp(a.no), 3 + d, [], true);
      assert Node(CloseOp(a.no), 3 + d) + [] == Node(CloseOp(a.no), 3 + d);
      AfterPrefix(Node(AtomOp(a), 3) + alts, Node(CloseOp(a.no), 3 + d), 0, 3 + d, true);
      ReachTrans(AtomImage(a, To(d)), 0, AtomTail(a), AtomSize(a) + d, true);
    } else {
      HeadNode(AtomOp(a), AtomSize(a) + d, Operand(a), !a.Literal?);
    }
  }

  /** The shape shared by every looping construct: BRANCH to BRANCH to NOTHING. */
  lemma TwoBranches(body: seq<Byte>, post: seq<Byte>)
    requires |body| + 3 < 65536
    ensures Reach(Node(BRANCH, 3 + |body|) + body + Node(BRANCH, 3) + post, 0, 6 + |body|, true)
  {
    hide Reach, Link, Op;
    HeadNode(BRANCH, 3, post, true);
    JumpOver(BRANCH, body, Node(BRANCH, 3) + post, 3, true);
    assert Node(BRANCH, 3 + |body|) + body + (Node(BRANCH, 3) + post)
        == Node(BRANCH, 3 + |body|) + body + Node(BRANCH, 3) + post;
  }

  lemma LoopShape(body: seq<Byte>, back: seq<Byte>, post: seq<Byte>)
    requires |body| + |back| + 3 < 65536
    ensures Reach(Node(BRANCH, 3 + |body| + |back|) + body + back + Node(BRANCH, 3) + post,
                  0, 6 + |body| + |back|, true)
  {
    hide Reach, Link, Op;
    TwoBranches(body + back, post);
    assert Node(BRANCH, 3 + |body + back|) + (body + back) + Node(BRANCH, 3) + post
        == Node(BRANCH, 3 + |body| + |back|) + body + back + Node(BRANCH, 3) + post;
  }

  lemma PlusShape(body: seq<Byte>, back: seq<Byte>, post: seq<Byte>)
    requires |back| == 3 && Reach(body, 0, |body|, true)
    ensures Reach(body + Node(BRANCH, 6) + back + Node(BRANCH, 3) + post, 0, |body| + 9, true)
  {
    hide Reach, Link, Op;
    TwoBranches(back, post);
    var two := Node(BRANCH, 6) + back + Node(BRANCH, 3) + post;
    Follow(body, two, 9, true);
    assert body + two == body + Node(BRANCH, 6) + back + Node(BRANCH, 3) + post;
  }

  /** From the first node of a piece to its tail node. */
  lemma PieceReach(p: Piece, t: Tail)
    requires PieceSize(p) < 65536 && WfPiece(p)
    ensures Reach(PieceImage(p, t), 0, PieceTail(p), true)
  {
    var n := AtomSize(p.atom);
    hide Reach, Link, Op, AtomImage;
    var nothing := Node(NOTHING, TailLink(3, t));
    if p.quant.One? {
      if p.atom.Group? {
        GroupReach(p.atom, t);
      } else {
        ReachSelf(PieceImage(p, t), 0, true);
      }
    } else if p.quant.Opt? {
      TwoBranches(AtomImage(p.atom, To(3)), nothing);
    } else if Simple(p.atom) {
      ReachSelf(PieceImage(p, t), 0, true);
    } else if p.quant.Star? {
      LoopShape(AtomImage(p.atom, To(0)), Node(BACK, 3 + n), nothing);
    } else {
      AtomReachTo(p.atom, 0);
      PlusShape(AtomImage(p.atom, To(0)), Node(BACK, 3 + n), nothing);
    }
  }

  lemma ReachSelf(code: seq<Byte>, p: nat, quiet: bool)
    ensures Reach(code, p, p, quiet)
  {
  }

  lemma ReachHop(code: seq<Byte>, p: nat, quiet: bool)
    requires p + 3 <= |code| && Op(code, p) != BACK && (quiet ==> Op(code, p) != EXACTLY) && Link(code, p) > 0
    ensures Reach(code, p, p + Link(code, p), quiet)
  {
    ReachSelf(code, p + Link(code, p), quiet);
  }

  lemma AtomTailNode(a: Atom, t: Tail)
    requires AtomSize(a) < 65536 && (t.To? ==> AtomSize(a) + t.dist < 65536)
    ensures Link(AtomImage(a, t), AtomTail(a)) == TailLink(AtomSize(a) - AtomTail(a), t)
    ensures Op(AtomImage(a, t), AtomTail(a)) == if a.Group? then CloseOp(a.no) else AtomOp(a)
  {
    if a.Group? {
      var close := Node(CloseOp(a.no), TailLink(3, t));
      HeadNode(CloseOp(a.no), TailLink(3, t), [], true);
      assert close + [] == close;
      LinkAfterPrefix(Node(AtomOp(a), 3) + AltsImage(a.body, true, AltCount(a.body)), close, 0);
    } else {
      HeadNode(AtomOp(a), TailLink(AtomSize(a), t), Operand(a), true);
    }
  }

  lemma PieceTailNode(p: Piece, t: Tail)
    requires PieceSize(p) < 65536 && (t.To? ==> PieceSize(p) + t.dist < 65536)
    ensures Link(PieceImage(p, t), PieceTail(p)) == TailLink(PieceSize(p) - PieceTail(p), t)
    ensures Op(PieceImage(p, t), PieceTail(p)) != BACK
    ensures (p.quant.One? && p.atom.Literal?) || Op(PieceImage(p, t), PieceTail(p)) != EXACTLY
  {
    hide Link, Op, AtomImage, PieceImage;
    if p.quant.One? {
      PieceOne(p, t);
      AtomTailNode(p.atom, t);
    } else if !p.quant.Opt? && Simple(p.atom) {
      PieceSimple(p, t);
      HeadNode(RepeatOp(p.quant), TailLink(PieceSize(p), t), AtomImage(p.atom, Open), true);
    } else {
      HeadNode(NOTHING, TailLink(3, t), [], true);
      assert Node(NOTHING, TailLink(3, t)) + [] == Node(NOTHING, TailLink(3, t));
      PieceEndsInNothing(p, t);
      LinkAfterPrefix(PieceImage(p, t)[..PieceTail(p)], Node(NOTHING, TailLink(3, t)), 0);
    }
  }

  lemma PieceOne(p: Piece, t: Tail)
    requires p.quant.One?
    ensures PieceImage(p, t) == AtomImage(p.atom, t)
  {
  }

  lemma PieceSimple(p: Piece, t: Tail)
    requires !p.quant.One? && !p.quant.Opt? && Simple(p.atom)
    ensures PieceImage(p, t) == Node(RepeatOp(p.quant), TailLink(PieceSize(p), t)) + AtomImage(p.atom, Open)
  {
  }

  lemma PieceEndsInNothing(p: Piece, t: Tail)
    requires !p.quant.One? && (p.quant.Opt? || !Simple(p.atom))
    ensures PieceImage(p, t) == PieceImage(p, t)[..PieceTail(p)] + Node(NOTHING, TailLink(3, t))
  {
    hide AtomImage;
  }

  /** A linked piece leads out of its image; quietly, unless it is a bare literal. */
  lemma PieceReachTo(p: Piece, d: nat)
    requires PieceSize(p) + d < 65536 && WfPiece(p)
    ensures Reach(PieceImage(p, To(d)), 0, PieceSize(p) + d, !(p.quant.One? && p.atom.Literal?))
  {
    hide Reach, Link, Op, PieceImage, AtomImage, PieceSize, PieceTail;
    var quiet := !(p.quant.One? && p.atom.Literal?);
    PieceReach(p, To(d));
    if !quiet { ReachLoud(PieceImage(p, To(d)), 0, PieceTail(p)); }
    PieceTailNode(p, To(d));
    ReachHop(PieceImage(p, To(d)), PieceTail(p), quiet);
    ReachTrans(PieceImage(p, To(d)), 0, PieceTail(p), PieceSize(p) + d, quiet);
  }

  lemma PiecesSkip(x: seq<Byte>, y: seq<Byte>, q: nat)
    requires q + 3 <= |y| && Reach(x, 0, |x|, false) && Reach(y, 0, q, false)
    ensures Reach(x + y, 0, |x| + q, false)
    ensures Link(x + y, |x| + q) == Link(y, q) && Op(x + y, |x| + q) == Op(y, q)
  {
    hide Reach;
    Follow(x, y, q, false);
  }

  lemma {:induction false} PiecesReachOpen(ps: Pieces)
    requires PiecesSize(ps) < 65536 && WfPieces(ps)
    ensures Reach(PiecesImage(ps, Open), 0, PiecesTail(ps), false)
    ensures Link(PiecesImage(ps, Open), PiecesTail(ps)) == 0
    ensures Op(PiecesImage(ps, Open), PiecesTail(ps)) != BACK
  {
    hide Reach, Link, Op, PieceImage, PieceSize, PieceTail;
    if ps.PCons? {
      if ps.tail.PNil? {
        PieceReach(ps.head, Open);
        ReachLoud(PieceImage(ps.head, Open), 0, PieceTail(ps.head));
        PieceTailNode(ps.head, Open);
      } else {
        PieceReachTo(ps.head, 0);
        if !(ps.head.quant.One? && ps.head.atom.Literal?) {
          ReachLoud(PieceImage(ps.head, To(0)), 0, PieceSize(ps.head));
        }
        PiecesReachOpen(ps.tail);
        PiecesSkip(PieceImage(ps.head, To(0)), PiecesImage(ps.tail, Open), PiecesTail(ps.tail));
      }
    } else {
      ReachSelf(PiecesImage(ps, Open), 0, false);
      HeadNode(NOTHING, 0, [], false);
      assert Node(NOTHING, 0) + [] == PiecesImage(ps, Open);
    }
  }

  // ----- Patching inside larger code -----

  lemma NodeInContext(pre: seq<Byte>, op: Byte, link: nat, post: seq<Byte>)
    requires link < 65536
    ensures Op(pre + Node(op, link) + post, |pre|) == op && Link(pre + Node(op, link) + post, |pre|) == link
  {
    AtOffset(pre, Node(op, link), post);
    AtNode(pre + Node(op, link) + post, |pre|, op, link);
  }

  lemma PatchNode(pre: seq<Byte>, op: Byte, was: nat, post: seq<Byte>, link: nat)
    ensures SetLink(pre + Node(op, was) + post, |pre|, link) == pre + Node(op, link) + post
  {
    assert SetLink(Node(op, was), 0, link) == Node(op, link);
    hide SetLink, Node;
    SetLinkInContext(pre, Node(op, was), post, 0, link);
  }

  lemma HopNode(pre: seq<Byte>, op: Byte, link: nat, post: seq<Byte>)
    requires 0 < link < 65536 && op != BACK
    ensures Reach(pre + Node(op, link) + post, |pre|, |pre| + link, false)
  {
    hide Reach, Link, Op;
    NodeInContext(pre, op, link, post);
    ReachHop(pre + Node(op, link) + post, |pre|, false);
  }

  lemma LinkInContext(pre: seq<Byte>, x: seq<Byte>, post: seq<Byte>, p: nat)
    requires p + 3 <= |x|
    ensures Link(pre + x + post, |pre| + p) == Link(x, p) && Op(pre + x + post, |pre| + p) == Op(x, p)
  {
  }

  lemma ReachMiddle(pre: seq<Byte>, x: seq<Byte>, post: seq<Byte>, p: nat, q: nat)
    requires Reach(x, p, q, false)
    ensures Reach(pre + x + post, |pre| + p, |pre| + q, false)
  {
    hide Reach, Link, Op;
    AtOffset(pre, x, post);
    ReachInContext(pre + x + post, |pre|, x, p, q, false);
  }

  /** What regtail relies on when it is pointed at an open atom, and what it does. */
  lemma AtomInContext(pre: seq<Byte>, a: Atom, post: seq<Byte>)
    requires AtomSize(a) < 65536
    ensures Reach(pre + AtomImage(a, Open) + post, |pre|, |pre| + AtomTail(a), false)
    ensures Link(pre + AtomImage(a, Open) + post, |pre| + AtomTail(a)) == 0
    ensures Op(pre + AtomImage(a, Open) + post, |pre| + AtomTail(a)) != BACK
  {
    hide Reach, Link, Op, AtomImage, AtomSize, AtomTail;
    AtomReachOpen(a);
    ReachLoud(AtomImage(a, Open), 0, AtomTail(a));
    ReachMiddle(pre, AtomImage(a, Open), post, 0, AtomTail(a));
    LinkInContext(pre, AtomImage(a, Open), post, AtomTail(a));
  }

  lemma PatchAtom(pre: seq<Byte>, a: Atom, post: seq<Byte>, d: nat)
    ensures SetLink(pre + AtomImage(a, Open) + post, |pre| + AtomTail(a), AtomSize(a) - AtomTail(a) + d)
         == pre + AtomImage(a, To(d)) + post
  {
    hide AtomImage, SetLink, AtomSize, AtomTail;
    AtomSetTail(a, d);
    SetLinkInContext(pre, AtomImage(a, Open), post, AtomTail(a), AtomSize(a) - AtomTail(a) + d);
  }

  lemma ChainAtom(pre: seq<Byte>, a: Atom, d: nat, post: seq<Byte>)
    requires AtomSize(a) + d < 65536
    ensures Reach(pre + AtomImage(a, To(d)) + post, |pre|, |pre| + AtomSize(a) + d, false)
  {
    hide Reach, Link, Op, AtomImage;
    AtomReachTo(a, d);
    if !a.Literal? {
      ReachLoud(AtomImage(a, To(d)), 0, AtomSize(a) + d);
    }
    ReachMiddle(pre, AtomImage(a, To(d)), post, 0, AtomSize(a) + d);
  }

  lemma PieceInContext(pre: seq<Byte>, p: Piece, post: seq<Byte>)
    requires PieceSize(p) < 65536 && WfPiece(p)
    ensures Reach(pre + PieceImage(p, Open) + post, |pre|, |pre| + PieceTail(p), false)
    ensures Link(pre + PieceImage(p, Open) + post, |pre| + PieceTail(p)) == 0
    ensures Op(pre + PieceImage(p, Open) + post, |pre| + PieceTail(p)) != BACK
  {
    hide Reach, Link, Op, PieceImage, PieceSize, PieceTail;
    PieceReach(p, Open);
    ReachLoud(PieceImage(p, Open), 0, PieceTail(p));
    PieceTailNode(p, Open);
    ReachMiddle(pre, PieceImage(p, Open), post, 0, PieceTail(p));
    LinkInContext(pre, PieceImage(p, Open), post, PieceTail(p));
  }

  lemma PatchPiece(pre: seq<Byte>, p: Piece, post: seq<Byte>, d: nat)
    ensures SetLink(pre + PieceImage(p, Open) + post, |pre| + PieceTail(p), PieceSize(p) - PieceTail(p) + d)
         == pre + PieceImage(p, To(d)) + post
  {
    hide PieceImage, SetLink, PieceSize, PieceTail;
    PieceSetTail(p, d);
    SetLinkInContext(pre, PieceImage(p, Open), post, PieceTail(p), PieceSize(p) - PieceTail(p) + d);
  }

  /** Pieces whose tails all lead to the next piece. */
  function LinkedImage(ps: Pieces): seq<Byte>
  {
    match ps
    case PNil => []
    case PCons(h, t) => PieceImage(h, To(0)) + LinkedImage(t)
  }

  lemma {:induction false} LinkedSnoc(ps: Pieces, p: Piece)
    ensures LinkedImage(Snoc(ps, p)) == LinkedImage(ps) + PieceImage(p, To(0))
    ensures PiecesImage(Snoc(ps, p), Open) == LinkedImage(ps) + PieceImage(p, Open)
  {
    hide PieceImage;
    if ps.PCons? {
      LinkedSnoc(ps.tail, p);
    }
  }

  lemma {:induction false} AltsLink(alts: Alts)
    requires alts.ACons?
    ensures SetLink(AltsImage(alts, false, 0), AltsTail(alts), AltsSize(alts) - AltsTail(alts)) == AltsImage(alts,
      true, 0)
  {
    hide PiecesImage, SetLink, Node, PiecesSize;
    var body := PiecesImage(alts.first, Open);
    if alts.rest.ANil? {
      SetLinkNode(BRANCH, 0, body, 3 + |body|);
      assert Node(BRANCH, 0) + body + [] == Node(BRANCH, 0) + body;
      assert Node(BRANCH, 3 + |body|) + body + [] == Node(BRANCH, 3 + |body|) + body;
    } else {
      AltsLink(alts.rest);
      SetLinkAfter(Node(BRANCH, 3 + |body|) + body, AltsImage(alts.rest, false, 0), AltsTail(alts.rest),
                   AltsSize(alts.rest) - AltsTail(alts.rest));
    }
  }

  lemma SetLinkAfter(pre: seq<Byte>, x: seq<Byte>, p: nat, link: nat)
    requires p + 3 <= |x|
    ensures SetLink(pre + x, |pre| + p, link) == pre + SetLink(x, p, link)
  {
  }

  lemma {:induction false} AltsSnocImage(alts: Alts, b: Pieces)
    ensures AltsImage(AltSnoc(alts, b), false, 0) == AltsImage(alts, true, 0) + AltsImage(ACons(b, ANil), false, 0)
  {
    hide PiecesImage, PiecesSize, AltsImage;
    if alts.ACons? {
      AltsSnocImage(alts.rest, b);
      var pre := Node(BRANCH, 3 + PiecesSize(alts.first)) + PiecesImage(alts.first, Open);
      var last := AltsImage(ACons(b, ANil), false, 0);
      OpenFirst(alts, true);
      OpenFirst(AltSnoc(alts, b), false);
      assert pre + (AltsImage(alts.rest, true, 0) + last) == pre + AltsImage(alts.rest, true, 0) + last;
    } else {
      NoAlts();
    }
  }

  lemma NoAlts()
    ensures AltsImage(ANil, true, 0) == []
  {
  }

  lemma OpenFirst(alts: Alts, linked: bool)
    requires alts.ACons? && (linked || alts.rest.ACons?)
    ensures AltsImage(alts, linked, 0)
         == Node(BRANCH, 3 + PiecesSize(alts.first)) + PiecesImage(alts.first, Open) + AltsImage(alts.rest, linked, 0)
  {
    hide PiecesImage, PiecesSize, Node;
  }

  // ----- Tying the bodies of a choice to its closing node, one at a time -----

  function AltDrop(alts: Alts, j: nat): Alts
    requires j <= AltCount(alts)
  {
    if j == 0 then alts else AltDrop(alts.rest, j - 1)
  }

  /** Offset of the j-th BRANCH; past the last one it is the size of the chain. */
  function AltOffset(alts: Alts, j: nat): nat
    requires j <= AltCount(alts)
  {
    if j == 0 then 0 else 3 + PiecesSize(alts.first) + AltOffset(alts.rest, j - 1)
  }

  lemma {:induction false} AltDropFacts(alts: Alts, j: nat)
    requires j <= AltCount(alts)
    ensures AltOffset(alts, j) + AltsSize(AltDrop(alts, j)) == AltsSize(alts)
    ensures WfAlts(alts) ==> WfAlts(AltDrop(alts, j))
    ensures j < AltCount(alts) <==> AltDrop(alts, j).ACons?
    ensures j < AltCount(alts) ==> AltOffset(alts, j + 1) == AltOffset(alts, j) + 3 + PiecesSize(AltDrop(alts, j).first)
    ensures j < AltCount(alts) ==> AltDrop(alts, j + 1) == AltDrop(alts, j).rest
  {
    if j > 0 {
      AltDropFacts(alts.rest, j - 1);
    }
  }

  /** Position of the tail node of the j-th body, and the link it has to get. */
  function BodyTail(alts: Alts, j: nat): nat
    requires j < AltCount(alts)
  {
    if j == 0 then 3 + PiecesTail(alts.first) else 3 + PiecesSize(alts.first) + BodyTail(alts.rest, j - 1)
  }

  lemma AltsCons(b: Pieces, rest: Alts)
    ensures AltsImage(ACons(b, rest), true, 0)
         == Node(BRANCH, 3 + PiecesSize(b)) + PiecesImage(b, Open) + AltsImage(rest, true, 0)
    ensures AltsImage(ACons(b, rest), true, 1)
         == Node(BRANCH, 3 + PiecesSize(b)) + PiecesImage(b, To(AltsSize(rest))) + AltsImage(rest, true, 0)
  {
    hide PiecesImage, PiecesSize;
  }

  lemma CloseFirst(b: Pieces, rest: Alts)
    requires PiecesSize(b) + 3 < 65536 && WfPieces(b)
    ensures Op(AltsImage(ACons(b, rest), true, 0), 0) == BRANCH
    ensures Link(AltsImage(ACons(b, rest), true, 0), 0) == 3 + PiecesSize(b)
    ensures Reach(AltsImage(ACons(b, rest), true, 0), 3, 3 + PiecesTail(b), false)
    ensures Link(AltsImage(ACons(b, rest), true, 0), 3 + PiecesTail(b)) == 0
    ensures Op(AltsImage(ACons(b, rest), true, 0), 3 + PiecesTail(b)) != BACK
  {
    hide Reach, Link, Op, PiecesImage, PiecesSize, PiecesTail, AltsImage;
    var node := Node(BRANCH, 3 + PiecesSize(b));
    var body := PiecesImage(b, Open);
    var tail := AltsImage(rest, true, 0);
    AltsCons(b, rest);
    HeadNode(BRANCH, 3 + PiecesSize(b), body + tail, true);
    assert node + (body + tail) == node + body + tail;
    PiecesReachOpen(b);
    ReachMiddle(node, body, tail, 0, PiecesTail(b));
    LinkInContext(node, body, tail, PiecesTail(b));
  }

  lemma CloseFirstLink(b: Pieces, rest: Alts)
    ensures SetLink(AltsImage(ACons(b, rest), true, 0), 3 + PiecesTail(b),
      PiecesSize(b) - PiecesTail(b) + AltsSize(rest))
         == AltsImage(ACons(b, rest), true, 1)
  {
    hide SetLink, PiecesImage, PiecesSize, PiecesTail, AltsImage;
    AltsCons(b, rest);
    PiecesSetTail(b, AltsSize(rest));
    SetLinkInContext(Node(BRANCH, 3 + PiecesSize(b)), PiecesImage(b, Open), AltsImage(rest, true, 0),
                     PiecesTail(b), PiecesSize(b) - PiecesTail(b) + AltsSize(rest));
  }

  lemma {:induction false} CloseAlt(alts: Alts, j: nat)
    requires j < AltCount(alts) && AltsSize(alts) < 65536 && WfAlts(alts)
    ensures AltDrop(alts, j).ACons? && AltOffset(alts, j) + AltsSize(AltDrop(alts, j)) == AltsSize(alts)
    ensures BodyTail(alts, j) == AltOffset(alts, j) + 3 + PiecesTail(AltDrop(alts, j).first)
    ensures Op(AltsImage(alts, true, j), AltOffset(alts, j)) == BRANCH
    ensures Link(AltsImage(alts, true, j), AltOffset(alts, j)) == 3 + PiecesSize(AltDrop(alts, j).first)
    ensures Reach(AltsImage(alts, true, j), AltOffset(alts, j) + 3, BodyTail(alts, j), false)
    ensures Link(AltsImage(alts, true, j), BodyTail(alts, j)) == 0
    ensures Op(AltsImage(alts, true, j), BodyTail(alts, j)) != BACK
  {
    hide Reach, Link, Op, PiecesImage, PiecesSize, PiecesTail;
    AltDropFacts(alts, j);
    if j == 0 {
      CloseFirst(alts.first, alts.rest);
    } else {
      CloseAlt(alts.rest, j - 1);
      var pre := Node(BRANCH, 3 + PiecesSize(alts.first)) + PiecesImage(alts.first, To(AltsSize(alts.rest)));
      var x := AltsImage(alts.rest, true, j - 1);
      AfterPrefix(pre, x, AltOffset(alts.rest, j - 1) + 3, BodyTail(alts.rest, j - 1), false);
      LinkAfterPrefix(pre, x, AltOffset(alts.rest, j - 1));
      LinkAfterPrefix(pre, x, BodyTail(alts.rest, j - 1));
    }
  }

  lemma {:induction false} CloseAltLink(alts: Alts, j: nat)
    requires j < AltCount(alts)
    ensures BodyTail(alts, j) + 3 <= AltsSize(alts)
    ensures SetLink(AltsImage(alts, true, j), BodyTail(alts, j), AltsSize(alts) - BodyTail(alts, j))
         == AltsImage(alts, true, j + 1)
  {
    hide SetLink, PiecesImage, PiecesSize, PiecesTail;
    if j == 0 {
      CloseFirstLink(alts.first, alts.rest);
    } else {
      CloseAltLink(alts.rest, j - 1);
      SetLinkAfter(Node(BRANCH, 3 + PiecesSize(alts.first)) + PiecesImage(alts.first, To(AltsSize(alts.rest))),
                   AltsImage(alts.rest, true, j - 1), BodyTail(alts.rest, j - 1),
                   AltsSize(alts.rest) - BodyTail(alts.rest, j - 1));
    }
  }
}
