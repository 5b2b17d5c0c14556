/** The byte image of every construct, as a function of its syntax tree and of where its
    tail link points.  Images are position independent. */
module RegexpLayout {
  import opened RegexpCode
  import opened RegexpSyntax

  /** Where the tail of an image points: nowhere yet, or `dist` bytes past its own end. */
  datatype Tail = Open | To(dist: nat)

  /** The link of a node that starts `n` bytes before the end of its image. */
  function TailLink(n: nat, t: Tail): nat
  {
    if t.Open? then 0 else n + t.dist
  }

  function AtomOp(a: Atom): Byte
  {
    match a
    case Bol => BOL
    case Eol => EOL
    case Any => ANY
    case Class(negated, _) => if negated then ANYBUT else ANYOF
    case Kind(Word, c) => if c then NWORD else WORD
    case Kind(Space, c) => if c then NWSPC else WSPC
    case Kind(Digit, c) => if c then NDIGI else DIGI
    case Literal(_) => EXACTLY
    case Group(no, _) => if no < NSUBEXP then (OPEN as int + no) else OPEN
  }

  /** The operand bytes of a node: a terminated string, or nothing. */
  function Operand(a: Atom): seq<Byte>
  {
    match a
    case Class(_, members) => members + [0]
    case Literal(text) => text + [0]
    case _ => []
  }

  function AtomSize(a: Atom): (n: nat)
    ensures n >= 3
  {
    match a
    case Group(_, body) => 6 + AltsSize(body)
    case _ => 3 + |Operand(a)|
  }

  function PieceSize(p: Piece): (n: nat)
    ensures n >= 3
  {
    match p.quant
    case One => AtomSize(p.atom)
    case Opt => AtomSize(p.atom) + 9
    case _ => if Simple(p.atom) then AtomSize(p.atom) + 3 else AtomSize(p.atom) + 12
  }

  function PiecesSize(ps: Pieces): (n: nat)
    ensures n >= 3
  {
    match ps
    case PNil => 3
    case PCons(h, t) => if t.PNil? then PieceSize(h) else PieceSize(h) + PiecesSize(t)
  }

  function AltsSize(alts: Alts): nat
  {
    match alts
    case ANil => 0
    case ACons(b, r) => 3 + PiecesSize(b) + AltsSize(r)
  }

  function AtomImage(a: Atom, t: Tail): (r: seq<Byte>)
    ensures |r| == AtomSize(a)
  {
    match a
    case Group(no, body) =>
      Node(AtomOp(a), 3)
      + AltsImage(body, true, AltCount(body))
      + Node(CloseOp(no), TailLink(3, t))
    case _ => Node(AtomOp(a), TailLink(AtomSize(a), t)) + Operand(a)
  }

  function CloseOp(no: nat): Byte
  {
    if no < NSUBEXP then (CLOSE as int + no) else CLOSE
  }

  function RepeatOp(q: Quant): Byte
  {
    match q
    case Star => STAR
    case Plus => PLUS
    case LazyStar => NGSTAR
    case _ => NGPLUS
  }

  function PieceImage(p: Piece, t: Tail): (r: seq<Byte>)
    ensures |r| == PieceSize(p)
  {
    var n := AtomSize(p.atom);
    if p.quant.One? then AtomImage(p.atom, t)
    else if p.quant.Opt? then
      Node(BRANCH, 3 + n) + AtomImage(p.atom, To(3)) + Node(BRANCH, 3) + Node(NOTHING, TailLink(3, t))
    else if Simple(p.atom) then
      Node(RepeatOp(p.quant), TailLink(3 + n, t)) + AtomImage(p.atom, Open)
    else if p.quant.Star? then
      Node(BRANCH, 6 + n) + AtomImage(p.atom, To(0)) + Node(BACK, 3 + n)
      + Node(BRANCH, 3) + Node(NOTHING, TailLink(3, t))
    else
      AtomImage(p.atom, To(0)) + Node(BRANCH, 6) + Node(BACK, 3 + n)
      + Node(BRANCH, 3) + Node(NOTHING, TailLink(3, t))
  }

  function PiecesImage(ps: Pieces, t: Tail): (r: seq<Byte>)
    ensures |r| == PiecesSize(ps)
  {
    match ps
    case PNil => Node(NOTHING, TailLink(3, t))
    case PCons(h, r) => if r.PNil? then PieceImage(h, t) else PieceImage(h, To(0)) + PiecesImage(r, t)
  }

  /** A chain of BRANCH nodes.  While the chain is being built its last link is missing
      (`linked` is false) and only the first `closed` bodies are tied to what follows. */
  function AltsImage(alts: Alts, linked: bool, closed: nat): (r: seq<Byte>)
    ensures |r| == AltsSize(alts)
  {
    match alts
    case ANil => []
    case ACons(b, rest) =>
      Node(BRANCH, if rest.ANil? && !linked then 0 else 3 + PiecesSize(b))
      + PiecesImage(b, if closed > 0 then To(AltsSize(rest)) else Open)
      + AltsImage(rest, linked, if closed > 0 then closed - 1 else 0)
  }

  /** A whole program: magic byte, the top-level alternatives, END. */
  function ProgramSize(alts: Alts): nat
  {
    4 + AltsSize(alts)
  }

  function ProgramImage(alts: Alts): (r: seq<Byte>)
    ensures |r| == ProgramSize(alts)
  {
    [MAGIC] + AltsImage(alts, true, AltCount(alts)) + Node(END, 0)
  }

  // ----- Where the tail node of an open image sits -----

  function AtomTail(a: Atom): (n: nat)
    ensures n + 3 <= AtomSize(a)
  {
    match a
    case Group(_, body) => 3 + AltsSize(body)
    case _ => 0
  }

  function PieceTail(p: Piece): (n: nat)
    ensures n + 3 <= PieceSize(p)
  {
    match p.quant
    case One => AtomTail(p.atom)
    case Opt => AtomSize(p.atom) + 6
    case _ => if Simple(p.atom) then 0 else AtomSize(p.atom) + 9
  }

  function PiecesTail(ps: Pieces): (n: nat)
    ensures n + 3 <= PiecesSize(ps)
  {
    match ps
    case PNil => 0
    case PCons(h, t) => if t.PNil? then PieceTail(h) else PieceSize(h) + PiecesTail(t)
  }

  /** Offset of the last BRANCH of a nonempty chain. */
  function AltsTail(alts: Alts): (n: nat)
    requires alts.ACons?
    ensures n + 6 <= AltsSize(alts)
  {
    if alts.rest.ANil? then 0 else 3 + PiecesSize(alts.first) + AltsTail(alts.rest)
  }

  // ----- Patching a tail turns an open image into a linked one -----

  lemma AtomSetTail(a: Atom, d: nat)
    ensures SetLink(AtomImage(a, Open), AtomTail(a), AtomSize(a) - AtomTail(a) + d) == AtomImage(a, To(d))
  {
    if a.Group? {
      var pre := Node(AtomOp(a), 3) + AltsImage(a.body, true, AltCount(a.body));
      SetLinkInContext(pre, Node(CloseOp(a.no), 0), [], 0, 3 + d);
      assert AtomImage(a, Open) == pre + Node(CloseOp(a.no), 0) + [];
      SetLinkNode(CloseOp(a.no), 0, [], 3 + d);
      assert AtomImage(a, To(d)) == pre + Node(CloseOp(a.no), 3 + d) + [];
      assert SetLink(Node(CloseOp(a.no), 0), 0, 3 + d) == Node(CloseOp(a.no), 3 + d);
    } else {
      SetLinkNode(AtomOp(a), 0, Operand(a), AtomSize(a) + d);
    }
  }

  lemma PieceSetTail(p: Piece, d: nat)
    ensures SetLink(PieceImage(p, Open), PieceTail(p), PieceSize(p) - PieceTail(p) + d) == PieceImage(p, To(d))
  {
    hide AtomImage, AtomSize, AtomTail;
    var n := AtomSize(p.atom);
    if p.quant.One? {
      AtomSetTail(p.atom, d);
    } else if !p.quant.Opt? && Simple(p.atom) {
      SetLinkNode(RepeatOp(p.quant), 0, AtomImage(p.atom, Open), 3 + n + d);
    } else {
      var k := PieceTail(p);
      var pre := PieceImage(p, Open)[..k];
      assert PieceImage(p, Open) == pre + Node(NOTHING, 0) + [];
      SetLinkInContext(pre, Node(NOTHING, 0), [], 0, 3 + d);
      assert SetLink(Node(NOTHING, 0), 0, 3 + d) == Node(NOTHING, 3 + d);
      assert PieceImage(p, To(d)) == pre + Node(NOTHING, 3 + d) + [];
    }
  }

  lemma {:induction false} PiecesSetTail(ps: Pieces, d: nat)
    ensures SetLink(PiecesImage(ps, Open), PiecesTail(ps), PiecesSize(ps) - PiecesTail(ps) + d) == PiecesImage(ps,
      To(d))
  {
    hide PieceImage, PieceSize, PieceTail;
    if ps.PNil? {
    } else if ps.tail.PNil? {
      PieceSetTail(ps.head, d);
    } else {
      PiecesSetTail(ps.tail, d);
      var pre := PieceImage(ps.head, To(0));
      assert PiecesImage(ps, Open) == pre + PiecesImage(ps.tail, Open) + [];
      SetLinkInContext(pre, PiecesImage(ps.tail, Open), [], PiecesTail(ps.tail),
                       PiecesSize(ps) - PiecesTail(ps) + d);
      assert PiecesImage(ps, To(d)) == pre + PiecesImage(ps.tail, To(d)) + [];
    }
  }
}
