/** The unrolled rounds of one block. */
module Md5Block {
  import opened Md5Rfc

  // The four mixing functions, one of them in its shorter form.
  function FF(b: Word, c: Word, d: Word): Word { d ^ (b & (c ^ d)) }
  function FG(b: Word, c: Word, d: Word): Word { FF(d, b, c) }
  function FH(b: Word, c: Word, d: Word): Word { (b ^ c) ^ d }
  function FI(b: Word, c: Word, d: Word): Word { c ^ (b | !d) }

  lemma Select(b: Word, c: Word, d: Word)
    ensures d ^ (b & (c ^ d)) == (b & c) | (!b & d)
  {
  }

  lemma Select2(b: Word, c: Word, d: Word)
    ensures c ^ (d & (b ^ c)) == (b & d) | (c & !d)
  {
  }

  lemma ShortForms(b: Word, c: Word, d: Word)
    ensures FF(b, c, d) == F(b, c, d)
    ensures FG(b, c, d) == G(b, c, d)
  {
    Select(b, c, d);
    Select2(b, c, d);
  }

  function Cyclic(w: Word, s: nat): Word
    requires 0 < s < 32
  {
    (w << s) | (w >> (32 - s))
  }

  lemma Rotates1(w: Word)
    ensures Cyclic(w, 7) == Rotate(w, 7)
    ensures Cyclic(w, 12) == Rotate(w, 12)
    ensures Cyclic(w, 17) == Rotate(w, 17)
    ensures Cyclic(w, 22) == Rotate(w, 22)
  {
  }

  lemma Rotates2(w: Word)
    ensures Cyclic(w, 5) == Rotate(w, 5)
    ensures Cyclic(w, 9) == Rotate(w, 9)
    ensures Cyclic(w, 14) == Rotate(w, 14)
    ensures Cyclic(w, 20) == Rotate(w, 20)
  {
  }

  lemma Rotates3(w: Word)
    ensures Cyclic(w, 4) == Rotate(w, 4)
    ensures Cyclic(w, 11) == Rotate(w, 11)
    ensures Cyclic(w, 16) == Rotate(w, 16)
    ensures Cyclic(w, 23) == Rotate(w, 23)
  {
  }

  lemma Rotates4(w: Word)
    ensures Cyclic(w, 6) == Rotate(w, 6)
    ensures Cyclic(w, 10) == Rotate(w, 10)
    ensures Cyclic(w, 15) == Rotate(w, 15)
    ensures Cyclic(w, 21) == Rotate(w, 21)
  {
  }

  lemma CyclicRotates(w: Word, i: nat)
    requires i < 64
    ensures Cyclic(w, Shift(i)) == Rotate(w, Shift(i))
  {
    hide Cyclic, Rotate;
    Rotates1(w);
    Rotates2(w);
    Rotates3(w);
    Rotates4(w);
  }

  /** One operation on the register `a`, of which `b` is the neighbour. */
  function Op(a: Word, f: Word, w: Word, s: nat, t: Word, b: Word): Word
    requires 0 < s < 32
  {
    Add(Cyclic(Add(Add(Add(a, f), w), t), s), b)
  }

  lemma Commutes(x: Word, y: Word)
    ensures Add(x, y) == Add(y, x)
  {
  }

  lemma OpRotates(a: Word, f: Word, w: Word, i: nat, t: Word, b: Word)
    requires i < 64
    ensures Op(a, f, w, Shift(i), t, b) == Add(b, Rotate(Add(Add(Add(a, f), w), t), Shift(i)))
  {
    hide Shift, Cyclic, Rotate, Add;
    var sum := Add(Add(Add(a, f), w), t);
    CyclicRotates(sum, i);
    Commutes(b, Rotate(sum, Shift(i)));
  }

  lemma OpIs(i: nat, r: Regs, block: seq<Byte>)
    requires i < 64 && |block| == 64
    ensures Operation(i, r, block) ==
      Regs(r.d, Op(r.a, Mix(i, r.b, r.c, r.d), WordOf(block, Index(i)), Shift(i), Sine(i), r.b), r.b, r.c)
  {
    hide Shift, Index, WordOf, Mix, Rotate, Sine, Op, Add;
    OpRotates(r.a, Mix(i, r.b, r.c, r.d), WordOf(block, Index(i)), i, Sine(i), r.b);
  }

  /** Four operations bring every register back to its place. */
  lemma FourOps(i: nat, r: Regs, block: seq<Byte>, q: Regs)
    requires i + 4 <= 64 && |block| == 64 && q == Operations(i, r, block)
    ensures var a := Op(q.a, Mix(i, q.b, q.c, q.d), WordOf(block, Index(i)), Shift(i), Sine(i), q.b);
      var d := Op(q.d, Mix(i + 1, a, q.b, q.c), WordOf(block, Index(i + 1)), Shift(i + 1), Sine(i + 1), a);
      var c := Op(q.c, Mix(i + 2, d, a, q.b), WordOf(block, Index(i + 2)), Shift(i + 2), Sine(i + 2), d);
      var b := Op(q.b, Mix(i + 3, c, d, a), WordOf(block, Index(i + 3)), Shift(i + 3), Sine(i + 3), c);
      Operations(i + 4, r, block) == Regs(a, b, c, d)
  {
    hide Shift, Index, WordOf, Mix, Op, Operation, Sine;
    var q1 := Operation(i, q, block);
    var q2 := Operation(i + 1, q1, block);
    var q3 := Operation(i + 2, q2, block);
    OpIs(i, q, block);
    OpIs(i + 1, q1, block);
    OpIs(i + 2, q2, block);
    OpIs(i + 3, q3, block);
    assert Operations(i + 1, r, block) == q1;
    assert Operations(i + 2, r, block) == q2;
    assert Operations(i + 3, r, block) == q3;
  }

  // ----- The tables, operation by operation -----

  lemma Sines1A()
    ensures Sine(0) == 0xd76aa478 && Sine(1) == 0xe8c7b756 && Sine(2) == 0x242070db && Sine(3) == 0xc1bdceee
    ensures Sine(4) == 0xf57c0faf && Sine(5) == 0x4787c62a && Sine(6) == 0xa8304613 && Sine(7) == 0xfd469501
  {
  }

  lemma Sines1B()
    ensures Sine(8) == 0x698098d8 && Sine(9) == 0x8b44f7af && Sine(10) == 0xffff5bb1 && Sine(11) == 0x895cd7be
    ensures Sine(12) == 0x6b901122 && Sine(13) == 0xfd987193 && Sine(14) == 0xa679438e && Sine(15) == 0x49b40821
  {
  }

  lemma Order1()
    ensures Index(0) == 0 && Index(1) == 1 && Index(2) == 2 && Index(3) == 3
    ensures Index(4) == 4 && Index(5) == 5 && Index(6) == 6 && Index(7) == 7
    ensures Index(8) == 8 && Index(9) == 9 && Index(10) == 10 && Index(11) == 11
    ensures Index(12) == 12 && Index(13) == 13 && Index(14) == 14 && Index(15) == 15
    ensures Shift(0) == 7 && Shift(1) == 12 && Shift(2) == 17 && Shift(3) == 22
    ensures Shift(4) == 7 && Shift(5) == 12 && Shift(6) == 17 && Shift(7) == 22
    ensures Shift(8) == 7 && Shift(9) == 12 && Shift(10) == 17 && Shift(11) == 22
    ensures Shift(12) == 7 && Shift(13) == 12 && Shift(14) == 17 && Shift(15) == 22
  {
  }

  lemma Sines2A()
    ensures Sine(16) == 0xf61e2562 && Sine(17) == 0xc040b340 && Sine(18) == 0x265e5a51 && Sine(19) == 0xe9b6c7aa
    ensures Sine(20) == 0xd62f105d && Sine(21) == 0x02441453 && Sine(22) == 0xd8a1e681 && Sine(23) == 0xe7d3fbc8
  {
  }

  lemma Sines2B()
    ensures Sine(24) == 0x21e1cde6 && Sine(25) == 0xc33707d6 && Sine(26) == 0xf4d50d87 && Sine(27) == 0x455a14ed
    ensures Sine(28) == 0xa9e3e905 && Sine(29) == 0xfcefa3f8 && Sine(30) == 0x676f02d9 && Sine(31) == 0x8d2a4c8a
  {
  }

  lemma Order2()
    ensures Index(16) == 1 && Index(17) == 6 && Index(18) == 11 && Index(19) == 0
    ensures Index(20) == 5 && Index(21) == 10 && Index(22) == 15 && Index(23) == 4
    ensures Index(24) == 9 && Index(25) == 14 && Index(26) == 3 && Index(27) == 8
    ensures Index(28) == 13 && Index(29) == 2 && Index(30) == 7 && Index(31) == 12
    ensures Shift(16) == 5 && Shift(17) == 9 && Shift(18) == 14 && Shift(19) == 20
    ensures Shift(20) == 5 && Shift(21) == 9 && Shift(22) == 14 && Shift(23) == 20
    ensures Shift(24) == 5 && Shift(25) == 9 && Shift(26) == 14 && Shift(27) == 20
    ensures Shift(28) == 5 && Shift(29) == 9 && Shift(30) == 14 && Shift(31) == 20
  {
  }

  lemma Sines3A()
    ensures Sine(32) == 0xfffa3942 && Sine(33) == 0x8771f681 && Sine(34) == 0x6d9d6122 && Sine(35) == 0xfde5380c
    ensures Sine(36) == 0xa4beea44 && Sine(37) == 0x4bdecfa9 && Sine(38) == 0xf6bb4b60 && Sine(39) == 0xbebfbc70
  {
  }

  lemma Sines3B()
    ensures Sine(40) == 0x289b7ec6 && Sine(41) == 0xeaa127fa && Sine(42) == 0xd4ef3085 && Sine(43) == 0x04881d05
    ensures Sine(44) == 0xd9d4d039 && Sine(45) == 0xe6db99e5 && Sine(46) == 0x1fa27cf8 && Sine(47) == 0xc4ac5665
  {
  }

  lemma Order3()
    ensures Index(32) == 5 && Index(33) == 8 && Index(34) == 11 && Index(35) == 14
    ensures Index(36) == 1 && Index(37) == 4 && Index(38) == 7 && Index(39) == 10
    ensures Index(40) == 13 && Index(41) == 0 && Index(42) == 3 && Index(43) == 6
    ensures Index(44) == 9 && Index(45) == 12 && Index(46) == 15 && Index(47) == 2
    ensures Shift(32) == 4 && Shift(33) == 11 && Shift(34) == 16 && Shift(35) == 23
    ensures Shift(36) == 4 && Shift(37) == 11 && Shift(38) == 16 && Shift(39) == 23
    ensures Shift(40) == 4 && Shift(41) == 11 && Shift(42) == 16 && Shift(43) == 23
    ensures Shift(44) == 4 && Shift(45) == 11 && Shift(46) == 16 && Shift(47) == 23
  {
  }

  lemma Sines4A()
    ensures Sine(48) == 0xf4292244 && Sine(49) == 0x432aff97 && Sine(50) == 0xab9423a7 && Sine(51) == 0xfc93a039
    ensures Sine(52) == 0x655b59c3 && Sine(53) == 0x8f0ccc92 && Sine(54) == 0xffeff47d && Sine(55) == 0x85845dd1
  {
  }

  lemma Sines4B()
    ensures Sine(56) == 0x6fa87e4f && Sine(57) == 0xfe2ce6e0 && Sine(58) == 0xa3014314 && Sine(59) == 0x4e0811a1
    ensures Sine(60) == 0xf7537e82 && Sine(61) == 0xbd3af235 && Sine(62) == 0x2ad7d2bb && Sine(63) == 0xeb86d391
  {
  }

  lemma Order4()
    ensures Index(48) == 0 && Index(49) == 7 && Index(50) == 14 && Index(51) == 5
    ensures Index(52) == 12 && Index(53) == 3 && Index(54) == 10 && Index(55) == 1
    ensures Index(56) == 8 && Index(57) == 15 && Index(58) == 6 && Index(59) == 13
    ensures Index(60) == 4 && Index(61) == 11 && Index(62) == 2 && Index(63) == 9
    ensures Shift(48) == 6 && Shift(49) == 10 && Shift(50) == 15 && Shift(51) == 21
    ensures Shift(52) == 6 && Shift(53) == 10 && Shift(54) == 15 && Shift(55) == 21
    ensures Shift(56) == 6 && Shift(57) == 10 && Shift(58) == 15 && Shift(59) == 21
    ensures Shift(60) == 6 && Shift(61) == 10 && Shift(62) == 15 && Shift(63) == 21
  {
  }

  lemma Mixes(i: nat, b: Word, c: Word, d: Word)
    ensures Mix(i, b, c, d) == if i < 16 then FF(b, c, d) else if i < 32 then FG(b, c, d) else if i < 48 then FH(b, c,
      d) else FI(b, c, d)
  {
    hide F, G, FF, FG;
    ShortForms(b, c, d);
  }

  method Round1(x: seq<Word>, q: Regs, ghost r: Regs, ghost block: seq<Byte>) returns (o: Regs)
    requires |block| == 64 && |x| == 16 && (forall k :: 0 <= k < 16 ==> x[k] == WordOf(block, k))
    requires q == Operations(0, r, block)
    ensures o == Operations(16, r, block)
  {
    hide WordOf, Op, Operation, Operations, Mix, Sine, Index, Shift, FF, FG, FH, FI, Add;
    Sines1A();
    Sines1B();
    Order1();
    var (a, b, c, d) := (q.a, q.b, q.c, q.d);
    FourOps(0, r, block, Regs(a, b, c, d));
    Mixes(0, b, c, d);
    a := Op(a, FF(b, c, d), x[0], 7, 0xd76aa478, b);
    Mixes(1, a, b, c);
    d := Op(d, FF(a, b, c), x[1], 12, 0xe8c7b756, a);
    Mixes(2, d, a, b);
    c := Op(c, FF(d, a, b), x[2], 17, 0x242070db, d);
    Mixes(3, c, d, a);
    b := Op(b, FF(c, d, a), x[3], 22, 0xc1bdceee, c);
    FourOps(4, r, block, Regs(a, b, c, d));
    Mixes(4, b, c, d);
    a := Op(a, FF(b, c, d), x[4], 7, 0xf57c0faf, b);
    Mixes(5, a, b, c);
    d := Op(d, FF(a, b, c), x[5], 12, 0x4787c62a, a);
    Mixes(6, d, a, b);
    c := Op(c, FF(d, a, b), x[6], 17, 0xa8304613, d);
    Mixes(7, c, d, a);
    b := Op(b, FF(c, d, a), x[7], 22, 0xfd469501, c);
    FourOps(8, r, block, Regs(a, b, c, d));
    Mixes(8, b, c, d);
    a := Op(a, FF(b, c, d), x[8], 7, 0x698098d8, b);
    Mixes(9, a, b, c);
    d := Op(d, FF(a, b, c), x[9], 12, 0x8b44f7af, a);
    Mixes(10, d, a, b);
    c := Op(c, FF(d, a, b), x[10], 17, 0xffff5bb1, d);
    Mixes(11, c, d, a);
    b := Op(b, FF(c, d, a), x[11], 22, 0x895cd7be, c);
    FourOps(12, r, block, Regs(a, b, c, d));
    Mixes(12, b, c, d);
    a := Op(a, FF(b, c, d), x[12], 7, 0x6b901122, b);
    Mixes(13, a, b, c);
    d := Op(d, FF(a, b, c), x[13], 12, 0xfd987193, a);
    Mixes(14, d, a, b);
    c := Op(c, FF(d, a, b), x[14], 17, 0xa679438e, d);
    Mixes(15, c, d, a);
    b := Op(b, FF(c, d, a), x[15], 22, 0x49b40821, c);
    return Regs(a, b, c, d);
  }

  method Round2(x: seq<Word>, q: Regs, ghost r: Regs, ghost block: seq<Byte>) returns (o: Regs)
    requires |block| == 64 && |x| == 16 && (forall k :: 0 <= k < 16 ==> x[k] == WordOf(block, k))
    requires q == Operations(16, r, block)
    ensures o == Operations(32, r, block)
  {
    hide WordOf, Op, Operation, Operations, Mix, Sine, Index, Shift, FF, FG, FH, FI, Add;
    Sines2A();
    Sines2B();
    Order2();
    var (a, b, c, d) := (q.a, q.b, q.c, q.d);
    FourOps(16, r, block, Regs(a, b, c, d));
    Mixes(16, b, c, d);
    a := Op(a, FG(b, c, d), x[1], 5, 0xf61e2562, b);
    Mixes(17, a, b, c);
    d := Op(d, FG(a, b, c), x[6], 9, 0xc040b340, a);
    Mixes(18, d, a, b);
    c := Op(c, FG(d, a, b), x[11], 14, 0x265e5a51, d);
    Mixes(19, c, d, a);
    b := Op(b, FG(c, d, a), x[0], 20, 0xe9b6c7aa, c);
    FourOps(20, r, block, Regs(a, b, c, d));
    Mixes(20, b, c, d);
    a := Op(a, FG(b, c, d), x[5], 5, 0xd62f105d, b);
    Mixes(21, a, b, c);
    d := Op(d, FG(a, b, c), x[10], 9, 0x02441453, a);
    Mixes(22, d, a, b);
    c := Op(c, FG(d, a, b), x[15], 14, 0xd8a1e681, d);
    Mixes(23, c, d, a);
    b := Op(b, FG(c, d, a), x[4], 20, 0xe7d3fbc8, c);
    FourOps(24, r, block, Regs(a, b, c, d));
    Mixes(24, b, c, d);
    a := Op(a, FG(b, c, d), x[9], 5, 0x21e1cde6, b);
    Mixes(25, a, b, c);
    d := Op(d, FG(a, b, c), x[14], 9, 0xc33707d6, a);
    Mixes(26, d, a, b);
    c := Op(c, FG(d, a, b), x[3], 14, 0xf4d50d87, d);
    Mixes(27, c, d, a);
    b := Op(b, FG(c, d, a), x[8], 20, 0x455a14ed, c);
    FourOps(28, r, block, Regs(a, b, c, d));
    Mixes(28, b, c, d);
    a := Op(a, FG(b, c, d), x[13], 5, 0xa9e3e905, b);
    Mixes(29, a, b, c);
    d := Op(d, FG(a, b, c), x[2], 9, 0xfcefa3f8, a);
    Mixes(30, d, a, b);
    c := Op(c, FG(d, a, b), x[7], 14, 0x676f02d9, d);
    Mixes(31, c, d, a);
    b := Op(b, FG(c, d, a), x[12], 20, 0x8d2a4c8a, c);
    return Regs(a, b, c, d);
  }

  method Round3(x: seq<Word>, q: Regs, ghost r: Regs, ghost block: seq<Byte>) returns (o: Regs)
    requires |block| == 64 && |x| == 16 && (forall k :: 0 <= k < 16 ==> x[k] == WordOf(block, k))
    requires q == Operations(32, r, block)
    ensures o == Operations(48, r, block)
  {
    hide WordOf, Op, Operation, Operations, Mix, Sine, Index, Shift, FF, FG, FH, FI, Add;
    Sines3A();
    Sines3B();
    Order3();
    var (a, b, c, d) := (q.a, q.b, q.c, q.d);
    FourOps(32, r, block, Regs(a, b, c, d));
    Mixes(32, b, c, d);
    a := Op(a, FH(b, c, d), x[5], 4, 0xfffa3942, b);
    Mixes(33, a, b, c);
    d := Op(d, FH(a, b, c), x[8], 11, 0x8771f681, a);
    Mixes(34, d, a, b);
    c := Op(c, FH(d, a, b), x[11], 16, 0x6d9d6122, d);
    Mixes(35, c, d, a);
    b := Op(b, FH(c, d, a), x[14], 23, 0xfde5380c, c);
    FourOps(36, r, block, Regs(a, b, c, d));
    Mixes(36, b, c, d);
    a := Op(a, FH(b, c, d), x[1], 4, 0xa4beea44, b);
    Mixes(37, a, b, c);
    d := Op(d, FH(a, b, c), x[4], 11, 0x4bdecfa9, a);
    Mixes(38, d, a, b);
    c := Op(c, FH(d, a, b), x[7], 16, 0xf6bb4b60, d);
    Mixes(39, c, d, a);
    b := Op(b, FH(c, d, a), x[10], 23, 0xbebfbc70, c);
    FourOps(40, r, block, Regs(a, b, c, d));
    Mixes(40, b, c, d);
    a := Op(a, FH(b, c, d), x[13], 4, 0x289b7ec6, b);
    Mixes(41, a, b, c);
    d := Op(d, FH(a, b, c), x[0], 11, 0xeaa127fa, a);
    Mixes(42, d, a, b);
    c := Op(c, FH(d, a, b), x[3], 16, 0xd4ef3085, d);
    Mixes(43, c, d, a);
    b := Op(b, FH(c, d, a), x[6], 23, 0x04881d05, c);
    FourOps(44, r, block, Regs(a, b, c, d));
    Mixes(44, b, c, d);
    a := Op(a, FH(b, c, d), x[9], 4, 0xd9d4d039, b);
    Mixes(45, a, b, c);
    d := Op(d, FH(a, b, c), x[12], 11, 0xe6db99e5, a);
    Mixes(46, d, a, b);
    c := Op(c, FH(d, a, b), x[15], 16, 0x1fa27cf8, d);
    Mixes(47, c, d, a);
    b := Op(b, FH(c, d, a), x[2], 23, 0xc4ac5665, c);
    return Regs(a, b, c, d);
  }

  method Round4(x: seq<Word>, q: Regs, ghost r: Regs, ghost block: seq<Byte>) returns (o: Regs)
    requires |block| == 64 && |x| == 16 && (forall k :: 0 <= k < 16 ==> x[k] == WordOf(block, k))
    requires q == Operations(48, r, block)
    ensures o == Operations(64, r, block)
  {
    hide WordOf, Op, Operation, Operations, Mix, Sine, Index, Shift, FF, FG, FH, FI, Add;
    Sines4A();
    Sines4B();
    Order4();
    var (a, b, c, d) := (q.a, q.b, q.c, q.d);
    FourOps(48, r, block, Regs(a, b, c, d));
    Mixes(48, b, c, d);
    a := Op(a, FI(b, c, d), x[0], 6, 0xf4292244, b);
    Mixes(49, a, b, c);
    d := Op(d, FI(a, b, c), x[7], 10, 0x432aff97, a);
    Mixes(50, d, a, b);
    c := Op(c, FI(d, a, b), x[14], 15, 0xab9423a7, d);
    Mixes(51, c, d, a);
    b := Op(b, FI(c, d, a), x[5], 21, 0xfc93a039, c);
    FourOps(52, r, block, Regs(a, b, c, d));
    Mixes(52, b, c, d);
    a := Op(a, FI(b, c, d), x[12], 6, 0x655b59c3, b);
    Mixes(53, a, b, c);
    d := Op(d, FI(a, b, c), x[3], 10, 0x8f0ccc92, a);
    Mixes(54, d, a, b);
    c := Op(c, FI(d, a, b), x[10], 15, 0xffeff47d, d);
    Mixes(55, c, d, a);
    b := Op(b, FI(c, d, a), x[1], 21, 0x85845dd1, c);
    FourOps(56, r, block, Regs(a, b, c, d));
    Mixes(56, b, c, d);
    a := Op(a, FI(b, c, d), x[8], 6, 0x6fa87e4f, b);
    Mixes(57, a, b, c);
    d := Op(d, FI(a, b, c), x[15], 10, 0xfe2ce6e0, a);
    Mixes(58, d, a, b);
    c := Op(c, FI(d, a, b), x[6], 15, 0xa3014314, d);
    Mixes(59, c, d, a);
    b := Op(b, FI(c, d, a), x[13], 21, 0x4e0811a1, c);
    FourOps(60, r, block, Regs(a, b, c, d));
    Mixes(60, b, c, d);
    a := Op(a, FI(b, c, d), x[4], 6, 0xf7537e82, b);
    Mixes(61, a, b, c);
    d := Op(d, FI(a, b, c), x[11], 10, 0xbd3af235, a);
    Mixes(62, d, a, b);
    c := Op(c, FI(d, a, b), x[2], 15, 0x2ad7d2bb, d);
    Mixes(63, c, d, a);
    b := Op(b, FI(c, d, a), x[9], 21, 0xeb86d391, c);
    return Regs(a, b, c, d);
  }

  /** All the rounds of one block, whose words are gathered first. */
  method ProcessOne(block: seq<Byte>, r: Regs) returns (o: Regs)
    requires |block| == 64
    ensures o == Compress(r, block)
  {
    hide WordOf, Operations, Add;
    var x := seq(16, k requires 0 <= k < 16 => WordOf(block, k));
    NoOperations(r, block);
    var q := Round1(x, r, r, block);
    q := Round2(x, q, r, block);
    q := Round3(x, q, r, block);
    q := Round4(x, q, r, block);
    return Regs(Add(r.a, q.a), Add(r.b, q.b), Add(r.c, q.c), Add(r.d, q.d));
  }

  lemma NoOperations(r: Regs, block: seq<Byte>)
    requires |block| == 64
    ensures Operations(0, r, block) == r
  {
  }
}
