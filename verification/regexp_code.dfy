/** The byte encoding of compiled regular expressions: opcodes, the three-byte node header
    and the relative 16-bit "next" links that thread nodes together. */
module RegexpCode {

  type Byte = b: int | 0 <= b < 256

  const END: Byte := 0
  const BOL: Byte := 1
  const EOL: Byte := 2
  const ANY: Byte := 3
  const ANYOF: Byte := 4
  const ANYBUT: Byte := 5
  const BRANCH: Byte := 6
  const BACK: Byte := 7
  const EXACTLY: Byte := 8
  const NOTHING: Byte := 9
  const STAR: Byte := 10
  const PLUS: Byte := 11
  const WORD: Byte := 12
  const NWORD: Byte := 13
  const WSPC: Byte := 14
  const NWSPC: Byte := 15
  const DIGI: Byte := 16
  const NDIGI: Byte := 17
  const OPEN: Byte := 20
  const CLOSE: Byte := 30
  const NGSTAR: Byte := 40
  const NGPLUS: Byte := 41

  const MAGIC: Byte := 156
  /** Sizes at or above this are refused by the compiler. */
  const TOO_BIG := 32767
  /** No program is ever as long as this, so every offset fits its two bytes. */
  const CODE_LIMIT := 60000
  /** Number of capture slots; slot 0 is the whole match. */
  const NSUBEXP := 10

  /** One node: opcode, then the link with its high byte first. */
  function Node(op: Byte, link: nat): (r: seq<Byte>)
    ensures |r| == 3
  {
    [op, link / 256 % 256, link % 256]
  }

  function Op(code: seq<Byte>, p: nat): Byte
    requires p < |code|
  {
    code[p]
  }

  /** The raw link of the node at `p`; 0 means "not linked". */
  function Link(code: seq<Byte>, p: nat): nat
    requires p + 3 <= |code|
  {
    code[p + 1] as int * 256 + code[p + 2] as int
  }

  /** Overwrites the link of the node at `p`, leaving every other byte alone. */
  function SetLink(code: seq<Byte>, p: nat, link: nat): (r: seq<Byte>)
    requires p + 3 <= |code|
    ensures |r| == |code|
  {
    code[p + 1 := link / 256 % 256][p + 2 := link % 256]
  }

  /** `image` sits in `code` at `p`. */
  ghost predicate At(code: seq<Byte>, p: nat, image: seq<Byte>)
  {
    p + |image| <= |code| && code[p..p + |image|] == image
  }

  lemma AtConcat(code: seq<Byte>, p: nat, a: seq<Byte>, b: seq<Byte>)
    ensures At(code, p, a + b) <==> At(code, p, a) && At(code, p + |a|, b)
  {
    if At(code, p, a + b) {
      assert code[p..p + |a|] == (a + b)[..|a|] == a;
      assert code[p + |a|..p + |a| + |b|] == (a + b)[|a|..] == b;
    }
    if At(code, p, a) && At(code, p + |a|, b) {
      assert code[p..p + |a| + |b|] == code[p..p + |a|] + code[p + |a|..p + |a| + |b|];
    }
  }

  lemma AtNode(code: seq<Byte>, p: nat, op: Byte, link: nat)
    requires At(code, p, Node(op, link)) && link < 65536
    ensures p + 3 <= |code| && Op(code, p) == op && Link(code, p) == link
  {
    var w := code[p..p + 3];
    assert w[0] == code[p] && w[1] == code[p + 1] && w[2] == code[p + 2];
  }

  lemma AtOffset(pre: seq<Byte>, image: seq<Byte>, post: seq<Byte>)
    ensures At(pre + image + post, |pre|, image)
  {
  }

  lemma SetLinkInContext(pre: seq<Byte>, image: seq<Byte>, post: seq<Byte>, p: nat, link: nat)
    requires p + 3 <= |image|
    ensures SetLink(pre + image + post, |pre| + p, link) == pre + SetLink(image, p, link) + post
  {
  }

  lemma SetLinkNode(op: Byte, old_: nat, post: seq<Byte>, link: nat)
    ensures SetLink(Node(op, old_) + post, 0, link) == Node(op, link) + post
  {
  }

  /** Following links from `p` leads forward to `q`, meeting no BACK node before `q`;
      when `quiet`, no literal node either. */
  ghost predicate Reach(code: seq<Byte>, p: nat, q: nat, quiet: bool)
    decreases |code| - p
  {
    p == q ||
    (p + 3 <= |code| && Op(code, p) != BACK && (quiet ==> Op(code, p) != EXACTLY) &&
     Link(code, p) > 0 && Reach(code, p + Link(code, p), q, quiet))
  }

  lemma {:induction false} ReachForward(code: seq<Byte>, p: nat, q: nat, quiet: bool)
    requires Reach(code, p, q, quiet)
    ensures p <= q
    decreases |code| - p
  {
    if p != q {
      ReachForward(code, p + Link(code, p), q, quiet);
    }
  }

  lemma {:induction false} ReachTrans(code: seq<Byte>, p: nat, q: nat, r: nat, quiet: bool)
    requires Reach(code, p, q, quiet) && Reach(code, q, r, quiet)
    ensures Reach(code, p, r, quiet)
    decreases |code| - p
  {
    if p != q {
      ReachTrans(code, p + Link(code, p), q, r, quiet);
    }
  }

  lemma {:induction false} ReachLoud(code: seq<Byte>, p: nat, q: nat)
    requires Reach(code, p, q, true)
    ensures Reach(code, p, q, false)
    decreases |code| - p
  {
    if p != q {
      ReachLoud(code, p + Link(code, p), q);
    }
  }

  /** Links are relative, so a chain inside an image survives relocation. */
  lemma {:induction false} ReachInContext(code: seq<Byte>, base: nat, image: seq<Byte>, p: nat, q: nat, quiet: bool)
    requires At(code, base, image) && Reach(image, p, q, quiet)
    ensures Reach(code, base + p, base + q, quiet)
    decreases |image| - p
  {
    if p != q {
      var w := code[base..base + |image|];
      assert w[p] == code[base + p] && w[p + 1] == code[base + p + 1] && w[p + 2] == code[base + p + 2];
      ReachInContext(code, base, image, p + Link(image, p), q, quiet);
    }
  }

  /** The chain from `p` ends at the unlinked node `m`, which may be made to point at `val`. */
  ghost predicate Tieable(code: seq<Byte>, p: nat, m: nat, val: nat)
  {
    && m + 3 <= |code| && Reach(code, p, m, false) && Link(code, m) == 0
    && if Op(code, m) == BACK then val <= m else m <= val
  }

  /** Doing so gives `want`. */
  ghost predicate Ties(code: seq<Byte>, p: nat, m: nat, val: nat, want: seq<Byte>)
  {
    Tieable(code, p, m, val) && SetLink(code, m, if val <= m then m - val else val - m) == want
  }
}
