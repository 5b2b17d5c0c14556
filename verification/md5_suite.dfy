/** The values of section 3.3 and two digests of the test suite (section A.5) of RFC 1321, byte by byte. */
module Md5Suite {
  import opened Md5Rfc

  /** Section 3.3: the registers start as these bytes, low-order byte first. */
  lemma InitialBytes()
    ensures Output(INIT) == [0x01, 0x23, 0x45, 0x67, 0x89, 0xab, 0xcd, 0xef, 0xfe, 0xdc, 0xba, 0x98, 0x76, 0x54, 0x32,
      0x10]
  {
  }

  // ----- One operation at a time -----

  function Set(i: nat, r: Regs, x: Word, k: Word, s: nat): Word
    requires 0 < s < 32
  {
    Add(r.b, Rotate(Add(Add(Add(r.a, Mix(i, r.b, r.c, r.d)), x), k), s))
  }

  /** Operation `i` uses word `n`, which is `x`, the number `k` and the shift `s`, and sets a register to `e`. */
  lemma Step(r: Regs, block: seq<Byte>, i: nat, n: nat, x: Word, k: Word, s: nat, e: Word)
    requires i < 64 && |block| == 64 && n < 16 && 0 < s < 32
    requires Index(i) == n && WordOf(block, n) == x && Sine(i) == k && Shift(i) == s
    requires Set(i, Operations(i, r, block), x, k, s) == e
    ensures var o := Operations(i, r, block); Operations(i + 1, r, block) == Regs(o.d, e, o.b, o.c)
  {
    hide Add, Mix, Rotate, WordOf, Sine, Shift, Index;
  }

  lemma Start(r: Regs, block: seq<Byte>)
    requires |block| == 64
    ensures Operations(0, r, block) == r
  {
  }

  lemma Stop(r: Regs, block: seq<Byte>, o: Regs, end: Regs)
    requires |block| == 64 && Operations(64, r, block) == o
    requires end == Regs(Add(r.a, o.a), Add(r.b, o.b), Add(r.c, o.c), Add(r.d, o.d))
    ensures Compress(r, block) == end
  {
    hide Operations, Add;
  }

  lemma Table1()
    ensures Index(0) == 0 && Shift(0) == 7 && Sine(0) == 0xd76aa478
    ensures Index(1) == 1 && Shift(1) == 12 && Sine(1) == 0xe8c7b756
    ensures Index(2) == 2 && Shift(2) == 17 && Sine(2) == 0x242070db
    ensures Index(3) == 3 && Shift(3) == 22 && Sine(3) == 0xc1bdceee
  {
  }

  lemma Table2()
    ensures Index(4) == 4 && Shift(4) == 7 && Sine(4) == 0xf57c0faf
    ensures Index(5) == 5 && Shift(5) == 12 && Sine(5) == 0x4787c62a
    ensures Index(6) == 6 && Shift(6) == 17 && Sine(6) == 0xa8304613
    ensures Index(7) == 7 && Shift(7) == 22 && Sine(7) == 0xfd469501
  {
  }

  lemma Table3()
    ensures Index(8) == 8 && Shift(8) == 7 && Sine(8) == 0x698098d8
    ensures Index(9) == 9 && Shift(9) == 12 && Sine(9) == 0x8b44f7af
    ensures Index(10) == 10 && Shift(10) == 17 && Sine(10) == 0xffff5bb1
    ensures Index(11) == 11 && Shift(11) == 22 && Sine(11) == 0x895cd7be
  {
  }

  lemma Table4()
    ensures Index(12) == 12 && Shift(12) == 7 && Sine(12) == 0x6b901122
    ensures Index(13) == 13 && Shift(13) == 12 && Sine(13) == 0xfd987193
    ensures Index(14) == 14 && Shift(14) == 17 && Sine(14) == 0xa679438e
    ensures Index(15) == 15 && Shift(15) == 22 && Sine(15) == 0x49b40821
  {
  }

  lemma Table5()
    ensures Index(16) == 1 && Shift(16) == 5 && Sine(16) == 0xf61e2562
    ensures Index(17) == 6 && Shift(17) == 9 && Sine(17) == 0xc040b340
    ensures Index(18) == 11 && Shift(18) == 14 && Sine(18) == 0x265e5a51
    ensures Index(19) == 0 && Shift(19) == 20 && Sine(19) == 0xe9b6c7aa
  {
  }

  lemma Table6()
    ensures Index(20) == 5 && Shift(20) == 5 && Sine(20) == 0xd62f105d
    ensures Index(21) == 10 && Shift(21) == 9 && Sine(21) == 0x02441453
    ensures Index(22) == 15 && Shift(22) == 14 && Sine(22) == 0xd8a1e681
    ensures Index(23) == 4 && Shift(23) == 20 && Sine(23) == 0xe7d3fbc8
  {
  }

  lemma Table7()
    ensures Index(24) == 9 && Shift(24) == 5 && Sine(24) == 0x21e1cde6
    ensures Index(25) == 14 && Shift(25) == 9 && Sine(25) == 0xc33707d6
    ensures Index(26) == 3 && Shift(26) == 14 && Sine(26) == 0xf4d50d87
    ensures Index(27) == 8 && Shift(27) == 20 && Sine(27) == 0x455a14ed
  {
  }

  lemma Table8()
    ensures Index(28) == 13 && Shift(28) == 5 && Sine(28) == 0xa9e3e905
    ensures Index(29) == 2 && Shift(29) == 9 && Sine(29) == 0xfcefa3f8
    ensures Index(30) == 7 && Shift(30) == 14 && Sine(30) == 0x676f02d9
    ensures Index(31) == 12 && Shift(31) == 20 && Sine(31) == 0x8d2a4c8a
  {
  }

  lemma Table9()
    ensures Index(32) == 5 && Shift(32) == 4 && Sine(32) == 0xfffa3942
    ensures Index(33) == 8 && Shift(33) == 11 && Sine(33) == 0x8771f681
    ensures Index(34) == 11 && Shift(34) == 16 && Sine(34) == 0x6d9d6122
    ensures Index(35) == 14 && Shift(35) == 23 && Sine(35) == 0xfde5380c
  {
  }

  lemma Table10()
    ensures Index(36) == 1 && Shift(36) == 4 && Sine(36) == 0xa4beea44
    ensures Index(37) == 4 && Shift(37) == 11 && Sine(37) == 0x4bdecfa9
    ensures Index(38) == 7 && Shift(38) == 16 && Sine(38) == 0xf6bb4b60
    ensures Index(39) == 10 && Shift(39) == 23 && Sine(39) == 0xbebfbc70
  {
  }

  lemma Table11()
    ensures Index(40) == 13 && Shift(40) == 4 && Sine(40) == 0x289b7ec6
    ensures Index(41) == 0 && Shift(41) == 11 && Sine(41) == 0xeaa127fa
    ensures Index(42) == 3 && Shift(42) == 16 && Sine(42) == 0xd4ef3085
    ensures Index(43) == 6 && Shift(43) == 23 && Sine(43) == 0x04881d05
  {
  }

  lemma Table12()
    ensures Index(44) == 9 && Shift(44) == 4 && Sine(44) == 0xd9d4d039
    ensures Index(45) == 12 && Shift(45) == 11 && Sine(45) == 0xe6db99e5
    ensures Index(46) == 15 && Shift(46) == 16 && Sine(46) == 0x1fa27cf8
    ensures Index(47) == 2 && Shift(47) == 23 && Sine(47) == 0xc4ac5665
  {
  }

  lemma Table13()
    ensures Index(48) == 0 && Shift(48) == 6 && Sine(48) == 0xf4292244
    ensures Index(49) == 7 && Shift(49) == 10 && Sine(49) == 0x432aff97
    ensures Index(50) == 14 && Shift(50) == 15 && Sine(50) == 0xab9423a7
    ensures Index(51) == 5 && Shift(51) == 21 && Sine(51) == 0xfc93a039
  {
  }

  lemma Table14()
    ensures Index(52) == 12 && Shift(52) == 6 && Sine(52) == 0x655b59c3
    ensures Index(53) == 3 && Shift(53) == 10 && Sine(53) == 0x8f0ccc92
    ensures Index(54) == 10 && Shift(54) == 15 && Sine(54) == 0xffeff47d
    ensures Index(55) == 1 && Shift(55) == 21 && Sine(55) == 0x85845dd1
  {
  }

  lemma Table15()
    ensures Index(56) == 8 && Shift(56) == 6 && Sine(56) == 0x6fa87e4f
    ensures Index(57) == 15 && Shift(57) == 10 && Sine(57) == 0xfe2ce6e0
    ensures Index(58) == 6 && Shift(58) == 15 && Sine(58) == 0xa3014314
    ensures Index(59) == 13 && Shift(59) == 21 && Sine(59) == 0x4e0811a1
  {
  }

  lemma Table16()
    ensures Index(60) == 4 && Shift(60) == 6 && Sine(60) == 0xf7537e82
    ensures Index(61) == 11 && Shift(61) == 10 && Sine(61) == 0xbd3af235
    ensures Index(62) == 2 && Shift(62) == 15 && Sine(62) == 0x2ad7d2bb
    ensures Index(63) == 9 && Shift(63) == 21 && Sine(63) == 0xeb86d391
  {
  }

  // ----- Words of a padded message -----

  lemma Bytes(n: nat, b0: Byte, b1: Byte, b2: Byte, b3: Byte)
    requires n == b0 as nat + 256 * b1 as nat + 65536 * b2 as nat + 16777216 * b3 as nat
    ensures LittleEndian(n) == [b0, b1, b2, b3]
  {
    var n1, n2 := n / 256, n / 65536;
    assert n1 == b1 as nat + 256 * b2 as nat + 65536 * b3 as nat;
    assert n2 == b2 as nat + 256 * b3 as nat;
    assert n / 16777216 == b3 as nat;
    assert n % 256 == b0 as nat;
    assert n1 % 256 == b1 as nat;
    assert n2 % 256 == b2 as nat;
  }

  /** A number below 2^32 as a word. */
  function ToWord(n: nat): Word
    requires n < WORD
  {
    n as Word
  }

  lemma SameWord(w: Word)
    ensures ToWord(w as nat) == w
  {
  }

  lemma WordIs(block: seq<Byte>, k: nat)
    requires 4 * k + 4 <= |block|
    ensures WordOf(block, k) == ToWord(Little(block[4 * k..4 * k + 4]))
  {
    hide Little;
  }

  lemma WordFrom(block: seq<Byte>, k: nat, n: nat)
    requires 4 * k + 4 <= |block|
    requires n == block[4 * k] as nat + 256 * block[4 * k + 1] as nat + 65536 * block[4 * k + 2] as nat
      + 16777216 * block[4 * k + 3] as nat
    ensures n < WORD && WordOf(block, k) == ToWord(n)
  {
    hide ToWord, WordOf;
    WordIs(block, k);
    assert Little(block[4 * k..4 * k + 4]) == n;
  }

  /** The message, the 1 bit, zeros and the length. */
  lemma PaddedAt(msg: seq<Byte>, j: nat)
    ensures |msg| + 9 <= |Padded(msg)| < |msg| + 73
    ensures j < |Padded(msg)| ==> Padded(msg)[j] == if j < |msg| then msg[j] else if j == |msg| then 0x80
      else if j < |Padded(msg)| - 8 then 0 else LengthBytes(|msg|)[j - (|Padded(msg)| - 8)]
  {
    hide LengthBytes;
  }

  lemma ShortLength(n: nat)
    requires n < 0x1000
    ensures LengthBytes(n) == [8 * n % 256, n / 32, 0, 0, 0, 0, 0, 0]
  {
    assert 8 * n % (WORD * WORD) == 8 * n;
  }

  lemma ZeroWord(msg: seq<Byte>, k: nat)
    requires |msg| < 4 * k && 4 * k + 12 <= |Padded(msg)|
    ensures WordOf(Padded(msg), k) == 0
  {
    hide Padded, WordOf, ToWord, LengthBytes;
    PaddedAt(msg, 4 * k);
    PaddedAt(msg, 4 * k + 1);
    PaddedAt(msg, 4 * k + 2);
    PaddedAt(msg, 4 * k + 3);
    WordFrom(Padded(msg), k, 0);
    SameWord(0);
  }

  lemma LengthWords(msg: seq<Byte>, k: nat)
    requires |msg| < 0x1000 && 4 * k + 8 == |Padded(msg)|
    ensures WordOf(Padded(msg), k) == ToWord(8 * |msg|) && WordOf(Padded(msg), k + 1) == 0
  {
    hide Padded, WordOf, ToWord, LengthBytes;
    ShortLength(|msg|);
    PaddedAt(msg, 0);
    forall j | 4 * k <= j < 4 * k + 8 ensures Padded(msg)[j] == LengthBytes(|msg|)[j - 4 * k] {
      PaddedAt(msg, j);
    }
    WordFrom(Padded(msg), k, 8 * |msg|);
    WordFrom(Padded(msg), k + 1, 0);
    SameWord(0);
  }

  lemma OneBlock(msg: seq<Byte>)
    requires |msg| < 56
    ensures |Padded(msg)| == 64 && Digest(msg) == Compress(INIT, Padded(msg))
  {
    hide Compress, Padded, Absorb;
    PaddedAt(msg, 0);
    Absorbed(INIT, Padded(msg));
  }

  lemma Absorbed(r: Regs, block: seq<Byte>)
    requires |block| == 64
    ensures Absorb(r, block) == Compress(r, block)
  {
    hide Compress;
    assert block[..0] == [] && block[0..] == block;
  }

  // ----- "" -----

  ghost predicate EmptyBlock(block: seq<Byte>)
  {
    |block| == 64
    && WordOf(block, 0) == 0x80
    && forall k :: 0 <= k < 16 && k != 0 ==> WordOf(block, k) == 0
  }

  lemma EmptyRound1(block: seq<Byte>)
    requires EmptyBlock(block)
    ensures Operations(16, INIT, block) == Regs(0xf56c7cf1, 0xd6819c6a, 0x5aa53f75, 0x374943a7)
  {
    hide Operations, WordOf, Sine, Index, Shift;
    var r := INIT;
    Table1();
    Table2();
    Table3();
    Table4();
    Start(r, block);
    Step(r, block, 0, 0, 0x80, 0xd76aa478, 7, 0xa5202774);
    Step(r, block, 1, 1, 0x0, 0xe8c7b756, 12, 0xf59592dd);
    Step(r, block, 2, 2, 0x0, 0x242070db, 17, 0xe7f06b23);
    Step(r, block, 3, 3, 0x0, 0xc1bdceee, 22, 0x1b163203);
    Step(r, block, 4, 4, 0x0, 0xf57c0faf, 7, 0x32033344);
    Step(r, block, 5, 5, 0x0, 0x4787c62a, 12, 0x2f35d494);
    Step(r, block, 6, 6, 0x0, 0xa8304613, 17, 0xf5b158db);
    Step(r, block, 7, 7, 0x0, 0xfd469501, 22, 0x9bc13ce9);
    Step(r, block, 8, 8, 0x0, 0x698098d8, 7, 0x3893b991);
    Step(r, block, 9, 9, 0x0, 0x8b44f7af, 12, 0xfce4a312);
    Step(r, block, 10, 10, 0x0, 0xffff5bb1, 17, 0xe1ef0576);
    Step(r, block, 11, 11, 0x0, 0x895cd7be, 22, 0x70768a29);
    Step(r, block, 12, 12, 0x0, 0x6b901122, 7, 0xf56c7cf1);
    Step(r, block, 13, 13, 0x0, 0xfd987193, 12, 0x374943a7);
    Step(r, block, 14, 14, 0x0, 0xa679438e, 17, 0x5aa53f75);
    Step(r, block, 15, 15, 0x0, 0x49b40821, 22, 0xd6819c6a);
  }

  lemma EmptyRound2(block: seq<Byte>)
    requires EmptyBlock(block)
    requires Operations(16, INIT, block) == Regs(0xf56c7cf1, 0xd6819c6a, 0x5aa53f75, 0x374943a7)
    ensures Operations(32, INIT, block) == Regs(0x13707036, 0xa2205f1f, 0x1c31c384, 0xae7813db)
  {
    hide Operations, WordOf, Sine, Index, Shift;
    var r := INIT;
    Table5();
    Table6();
    Table7();
    Table8();
    Step(r, block, 16, 1, 0x0, 0xf61e2562, 5, 0x1c7d7513);
    Step(r, block, 17, 6, 0x0, 0xc040b340, 9, 0x7bd57a3a);
    Step(r, block, 18, 11, 0x0, 0x265e5a51, 14, 0xc095f13a);
    Step(r, block, 19, 0, 0x80, 0xe9b6c7aa, 20, 0xbd782e17);
    Step(r, block, 20, 5, 0x0, 0xd62f105d, 5, 0x3d1e3e6c);
    Step(r, block, 21, 10, 0x0, 0x02441453, 9, 0x68b7b3e3);
    Step(r, block, 22, 15, 0x0, 0xd8a1e681, 14, 0xeb41643e);
    Step(r, block, 23, 4, 0x0, 0xe7d3fbc8, 20, 0xe422531a);
    Step(r, block, 24, 9, 0x0, 0x21e1cde6, 5, 0x306ec122);
    Step(r, block, 25, 14, 0x0, 0xc33707d6, 9, 0xd28c77c2);
    Step(r, block, 26, 3, 0x0, 0xf4d50d87, 14, 0xa3c663da);
    Step(r, block, 27, 8, 0x0, 0x455a14ed, 20, 0xa0572807);
    Step(r, block, 28, 13, 0x0, 0xa9e3e905, 5, 0x13707036);
    Step(r, block, 29, 2, 0x0, 0xfcefa3f8, 9, 0xae7813db);
    Step(r, block, 30, 7, 0x0, 0x676f02d9, 14, 0x1c31c384);
    Step(r, block, 31, 12, 0x0, 0x8d2a4c8a, 20, 0xa2205f1f);
  }

  lemma EmptyRound3(block: seq<Byte>)
    requires EmptyBlock(block)
    requires Operations(32, INIT, block) == Regs(0x13707036, 0xa2205f1f, 0x1c31c384, 0xae7813db)
    ensures Operations(48, INIT, block) == Regs(0x3f55edfd, 0xca7d2dbd, 0x68d84ea2, 0x22a31f54)
  {
    hide Operations, WordOf, Sine, Index, Shift;
    var r := INIT;
    Table9();
    Table10();
    Table11();
    Table12();
    Step(r, block, 32, 5, 0x0, 0xfffa3942, 4, 0xdf63eaa1);
    Step(r, block, 33, 8, 0x0, 0x8771f681, 11, 0xc3689f5b);
    Step(r, block, 34, 11, 0x0, 0x6d9d6122, 16, 0x12f3e755);
    Step(r, block, 35, 14, 0x0, 0xfde5380c, 23, 0x004b6669);
    Step(r, block, 36, 1, 0x0, 0xa4beea44, 4, 0x5f7a9b2e);
    Step(r, block, 37, 4, 0x0, 0x4bdecfa9, 11, 0xabc34e16);
    Step(r, block, 38, 7, 0x0, 0xf6bb4b60, 16, 0x91ca4cb7);
    Step(r, block, 39, 10, 0x0, 0xbebfbc70, 23, 0xc5dc8c15);
    Step(r, block, 40, 13, 0x0, 0x289b7ec6, 4, 0x4497169d);
    Step(r, block, 41, 0, 0x80, 0xeaa127fa, 11, 0x76fd93d4);
    Step(r, block, 42, 3, 0x0, 0xd4ef3085, 16, 0xfd95f243);
    Step(r, block, 43, 6, 0x0, 0x04881d05, 23, 0x0fe32453);
    Step(r, block, 44, 9, 0x0, 0xd9d4d039, 4, 0x3f55edfd);
    Step(r, block, 45, 12, 0x0, 0xe6db99e5, 11, 0x22a31f54);
    Step(r, block, 46, 15, 0x0, 0x1fa27cf8, 16, 0x68d84ea2);
    Step(r, block, 47, 2, 0x0, 0xc4ac5665, 23, 0xca7d2dbd);
  }

  lemma EmptyRound4(block: seq<Byte>)
    requires EmptyBlock(block)
    requires Operations(48, INIT, block) == Regs(0x3f55edfd, 0xca7d2dbd, 0x68d84ea2, 0x22a31f54)
    ensures Operations(64, INIT, block) == Regs(0x7246fad3, 0x14e45506, 0xff4ea3eb, 0x6e10a476)
  {
    hide Operations, WordOf, Sine, Index, Shift;
    var r := INIT;
    Table13();
    Table14();
    Table15();
    Table16();
    Step(r, block, 48, 0, 0x80, 0xf4292244, 6, 0x93aa2577);
    Step(r, block, 49, 7, 0x0, 0x432aff97, 10, 0x1688dc85);
    Step(r, block, 50, 14, 0x0, 0xab9423a7, 15, 0xcd85b8cb);
    Step(r, block, 51, 5, 0x0, 0xfc93a039, 21, 0x561e0689);
    Step(r, block, 52, 12, 0x0, 0x655b59c3, 6, 0x5625a114);
    Step(r, block, 53, 3, 0x0, 0x8f0ccc92, 10, 0x3450f42b);
    Step(r, block, 54, 10, 0x0, 0xffeff47d, 15, 0x392ad0d0);
    Step(r, block, 55, 1, 0x0, 0x85845dd1, 21, 0x1e77fa61);
    Step(r, block, 56, 8, 0x0, 0x6fa87e4f, 6, 0x474a9c8c);
    Step(r, block, 57, 15, 0x0, 0xfe2ce6e0, 10, 0xdfce00bc);
    Step(r, block, 58, 6, 0x0, 0xa3014314, 15, 0x36594b14);
    Step(r, block, 59, 13, 0x0, 0x4e0811a1, 21, 0x30130182);
    Step(r, block, 60, 4, 0x0, 0xf7537e82, 6, 0x7246fad3);
    Step(r, block, 61, 11, 0x0, 0xbd3af235, 10, 0x6e10a476);
    Step(r, block, 62, 2, 0x0, 0x2ad7d2bb, 15, 0xff4ea3eb);
    Step(r, block, 63, 9, 0x0, 0xeb86d391, 21, 0x14e45506);
  }

  lemma EmptyFirst()
    ensures |Padded([])| == 64 && WordOf(Padded([]), 0) == 0x80
  {
    hide Padded, WordOf, ToWord, LengthBytes;
    var msg: seq<Byte> := [];
    OneBlock(msg);
    PaddedAt(msg, 0);
    PaddedAt(msg, 1);
    PaddedAt(msg, 2);
    PaddedAt(msg, 3);
    WordFrom(Padded(msg), 0, 0x80);
    SameWord(0x80);
  }

  lemma EmptyPadded()
    ensures EmptyBlock(Padded([]))
  {
    hide Padded, WordOf, ToWord;
    SameWord(0x0);
    EmptyFirst();
    LengthWords([], 14);
    forall k | 1 <= k < 14 ensures WordOf(Padded([]), k) == 0 {
      ZeroWord([], k);
    }
  }

  lemma EmptyOutput()
    ensures Output(Regs(0xd98c1dd4, 0x04b2008f, 0x980980e9, 0x7e42f8ec))
      == [0xd4, 0x1d, 0x8c, 0xd9, 0x8f, 0x00, 0xb2, 0x04, 0xe9, 0x80, 0x09, 0x98, 0xec, 0xf8, 0x42, 0x7e]
  {
    hide LittleEndian;
    Bytes(0xd98c1dd4, 0xd4, 0x1d, 0x8c, 0xd9);
    Bytes(0x04b2008f, 0x8f, 0x00, 0xb2, 0x04);
    Bytes(0x980980e9, 0xe9, 0x80, 0x09, 0x98);
    Bytes(0x7e42f8ec, 0xec, 0xf8, 0x42, 0x7e);
  }

  /** MD5 ("") = d41d8cd98f00b204e9800998ecf8427e */
  lemma EmptyDigest()
    ensures Output(Digest([])) == [0xd4, 0x1d, 0x8c, 0xd9, 0x8f, 0x00, 0xb2, 0x04,
      0xe9, 0x80, 0x09, 0x98, 0xec, 0xf8, 0x42, 0x7e]
  {
    hide Operations, Padded, WordOf, Output, Digest;
    var block := Padded([]);
    EmptyPadded();
    OneBlock([]);
    EmptyRound1(block);
    EmptyRound2(block);
    EmptyRound3(block);
    EmptyRound4(block);
    Stop(INIT, block, Regs(0x7246fad3, 0x14e45506, 0xff4ea3eb, 0x6e10a476),
      Regs(0xd98c1dd4, 0x04b2008f, 0x980980e9, 0x7e42f8ec));
    EmptyOutput();
  }

  // ----- "abc" -----

  ghost predicate AbcBlock(block: seq<Byte>)
  {
    |block| == 64
    && WordOf(block, 0) == 0x80636261
    && WordOf(block, 14) == 0x18
    && forall k :: 0 <= k < 16 && k != 0 && k != 14 ==> WordOf(block, k) == 0
  }

  lemma AbcRound1(block: seq<Byte>)
    requires AbcBlock(block)
    ensures Operations(16, INIT, block) == Regs(0xdda9b9a6, 0x72aff2e0, 0xe396856b, 0xa1051895)
  {
    hide Operations, WordOf, Sine, Index, Shift;
    var r := INIT;
    Table1();
    Table2();
    Table3();
    Table4();
    Start(r, block);
    Step(r, block, 0, 0, 0x80636261, 0xd76aa478, 7, 0xd6d117b4);
    Step(r, block, 1, 1, 0x0, 0xe8c7b756, 12, 0x344a8432);
    Step(r, block, 2, 2, 0x0, 0x242070db, 17, 0x2f6fbd72);
    Step(r, block, 3, 3, 0x0, 0xc1bdceee, 22, 0x7ad956f2);
    Step(r, block, 4, 4, 0x0, 0xf57c0faf, 7, 0xc73741ef);
    Step(r, block, 5, 5, 0x0, 0x4787c62a, 12, 0x8bac3051);
    Step(r, block, 6, 6, 0x0, 0xa8304613, 17, 0x207dc67b);
    Step(r, block, 7, 7, 0x0, 0xfd469501, 22, 0x928d99f6);
    Step(r, block, 8, 8, 0x0, 0x698098d8, 7, 0x854b3712);
    Step(r, block, 9, 9, 0x0, 0x8b44f7af, 12, 0x74e2f284);
    Step(r, block, 10, 10, 0x0, 0xffff5bb1, 17, 0x3020401c);
    Step(r, block, 11, 11, 0x0, 0x895cd7be, 22, 0x5ed49596);
    Step(r, block, 12, 12, 0x0, 0x6b901122, 7, 0xdda9b9a6);
    Step(r, block, 13, 13, 0x0, 0xfd987193, 12, 0xa1051895);
    Step(r, block, 14, 14, 0x18, 0xa679438e, 17, 0xe396856b);
    Step(r, block, 15, 15, 0x0, 0x49b40821, 22, 0x72aff2e0);
  }

  lemma AbcRound2(block: seq<Byte>)
    requires AbcBlock(block)
    requires Operations(16, INIT, block) == Regs(0xdda9b9a6, 0x72aff2e0, 0xe396856b, 0xa1051895)
    ensures Operations(32, INIT, block) == Regs(0x790a77fb, 0x726342d3, 0xa62884aa, 0x9f47e4f8)
  {
    hide Operations, WordOf, Sine, Index, Shift;
    var r := INIT;
    Table5();
    Table6();
    Table7();
    Table8();
    Step(r, block, 16, 1, 0x0, 0xf61e2562, 5, 0x3e9e9126);
    Step(r, block, 17, 6, 0x0, 0xc040b340, 9, 0x4a1d804e);
    Step(r, block, 18, 11, 0x0, 0x265e5a51, 14, 0xe25e1652);
    Step(r, block, 19, 0, 0x80636261, 0xe9b6c7aa, 20, 0xb5b204e4);
    Step(r, block, 20, 5, 0x0, 0xd62f105d, 5, 0x59a8ffda);
    Step(r, block, 21, 10, 0x0, 0x02441453, 9, 0x6d002f1e);
    Step(r, block, 22, 15, 0x0, 0xd8a1e681, 14, 0xabfc7920);
    Step(r, block, 23, 4, 0x0, 0xe7d3fbc8, 20, 0x47092c07);
    Step(r, block, 24, 9, 0x0, 0x21e1cde6, 5, 0xb7f268cf);
    Step(r, block, 25, 14, 0x18, 0xc33707d6, 9, 0x09388eff);
    Step(r, block, 26, 3, 0x0, 0xf4d50d87, 14, 0xfe1623b1);
    Step(r, block, 27, 8, 0x0, 0x455a14ed, 20, 0x786acb8f);
    Step(r, block, 28, 13, 0x0, 0xa9e3e905, 5, 0x790a77fb);
    Step(r, block, 29, 2, 0x0, 0xfcefa3f8, 9, 0x9f47e4f8);
    Step(r, block, 30, 7, 0x0, 0x676f02d9, 14, 0xa62884aa);
    Step(r, block, 31, 12, 0x0, 0x8d2a4c8a, 20, 0x726342d3);
  }

  lemma AbcRound3(block: seq<Byte>)
    requires AbcBlock(block)
    requires Operations(32, INIT, block) == Regs(0x790a77fb, 0x726342d3, 0xa62884aa, 0x9f47e4f8)
    ensures Operations(48, INIT, block) == Regs(0x7f2e507b, 0x7beb9700, 0x8fae6399, 0x99d9679d)
  {
    hide Operations, WordOf, Sine, Index, Shift;
    var r := INIT;
    Table9();
    Table10();
    Table11();
    Table12();
    Step(r, block, 32, 5, 0x0, 0xfffa3942, 4, 0xb3707ebf);
    Step(r, block, 33, 8, 0x0, 0x8771f681, 11, 0x60127b2e);
    Step(r, block, 34, 11, 0x0, 0x6d9d6122, 16, 0x8d212ff5);
    Step(r, block, 35, 14, 0x18, 0xfde5380c, 23, 0x3b0875c7);
    Step(r, block, 36, 1, 0x0, 0xa4beea44, 4, 0x21b117b9);
    Step(r, block, 37, 4, 0x0, 0x4bdecfa9, 11, 0x6e7429d5);
    Step(r, block, 38, 7, 0x0, 0xf6bb4b60, 16, 0x3575227e);
    Step(r, block, 39, 10, 0x0, 0xbebfbc70, 23, 0x5a2f5ea5);
    Step(r, block, 40, 13, 0x0, 0x289b7ec6, 4, 0x11de1779);
    Step(r, block, 41, 0, 0x80636261, 0xeaa127fa, 11, 0xfadcaa38);
    Step(r, block, 42, 3, 0x0, 0xd4ef3085, 16, 0x31c465ca);
    Step(r, block, 43, 6, 0x0, 0x04881d05, 23, 0x4c6124f4);
    Step(r, block, 44, 9, 0x0, 0xd9d4d039, 4, 0x7f2e507b);
    Step(r, block, 45, 12, 0x0, 0xe6db99e5, 11, 0x99d9679d);
    Step(r, block, 46, 15, 0x0, 0x1fa27cf8, 16, 0x8fae6399);
    Step(r, block, 47, 2, 0x0, 0xc4ac5665, 23, 0x7beb9700);
  }

  lemma AbcRound4(block: seq<Byte>)
    requires AbcBlock(block)
    requires Operations(48, INIT, block) == Regs(0x7f2e507b, 0x7beb9700, 0x8fae6399, 0x99d9679d)
    ensures Operations(64, INIT, block) == Regs(0x310ade8f, 0xc08226b3, 0xe484b9d8, 0x624d8cb2)
  {
    hide Operations, WordOf, Sine, Index, Shift;
    var r := INIT;
    Table13();
    Table14();
    Table15();
    Table16();
    Step(r, block, 48, 0, 0x80636261, 0xf4292244, 6, 0x7b201df8);
    Step(r, block, 49, 7, 0x0, 0x432aff97, 10, 0xf4e8e96e);
    Step(r, block, 50, 14, 0x18, 0xab9423a7, 15, 0xb298cefd);
    Step(r, block, 51, 5, 0x0, 0xfc93a039, 21, 0x8bf025c4);
    Step(r, block, 52, 12, 0x0, 0x655b59c3, 6, 0x06cc5e8a);
    Step(r, block, 53, 3, 0x0, 0x8f0ccc92, 10, 0x5b0d97aa);
    Step(r, block, 54, 10, 0x0, 0xffeff47d, 15, 0x7d632dd0);
    Step(r, block, 55, 1, 0x0, 0x85845dd1, 21, 0x3bfa2c27);
    Step(r, block, 56, 8, 0x0, 0x6fa87e4f, 6, 0x7f81cc35);
    Step(r, block, 57, 15, 0x0, 0xfe2ce6e0, 10, 0x094454ab);
    Step(r, block, 58, 6, 0x0, 0xa3014314, 15, 0x4f9dbe3f);
    Step(r, block, 59, 13, 0x0, 0x4e0811a1, 21, 0x7327d604);
    Step(r, block, 60, 4, 0x0, 0xf7537e82, 6, 0x310ade8f);
    Step(r, block, 61, 11, 0x0, 0xbd3af235, 10, 0x624d8cb2);
    Step(r, block, 62, 2, 0x0, 0x2ad7d2bb, 15, 0xe484b9d8);
    Step(r, block, 63, 9, 0x0, 0xeb86d391, 21, 0xc08226b3);
  }

  lemma AbcFirst()
    ensures |Padded([97, 98, 99])| == 64 && WordOf(Padded([97, 98, 99]), 0) == 0x80636261
  {
    hide Padded, WordOf, ToWord, LengthBytes;
    var msg: seq<Byte> := [97, 98, 99];
    OneBlock(msg);
    PaddedAt(msg, 0);
    PaddedAt(msg, 1);
    PaddedAt(msg, 2);
    PaddedAt(msg, 3);
    WordFrom(Padded(msg), 0, 0x80636261);
    SameWord(0x80636261);
  }

  lemma AbcPadded()
    ensures AbcBlock(Padded([97, 98, 99]))
  {
    hide Padded, WordOf, ToWord;
    SameWord(0x18);
    AbcFirst();
    LengthWords([97, 98, 99], 14);
    forall k | 1 <= k < 14 ensures WordOf(Padded([97, 98, 99]), k) == 0 {
      ZeroWord([97, 98, 99], k);
    }
  }

  lemma AbcOutput()
    ensures Output(Regs(0x98500190, 0xb04fd23c, 0x7d3f96d6, 0x727fe128))
      == [0x90, 0x01, 0x50, 0x98, 0x3c, 0xd2, 0x4f, 0xb0, 0xd6, 0x96, 0x3f, 0x7d, 0x28, 0xe1, 0x7f, 0x72]
  {
    hide LittleEndian;
    Bytes(0x98500190, 0x90, 0x01, 0x50, 0x98);
    Bytes(0xb04fd23c, 0x3c, 0xd2, 0x4f, 0xb0);
    Bytes(0x7d3f96d6, 0xd6, 0x96, 0x3f, 0x7d);
    Bytes(0x727fe128, 0x28, 0xe1, 0x7f, 0x72);
  }

  /** MD5 ("abc") = 900150983cd24fb0d6963f7d28e17f72 */
  lemma AbcDigest()
    ensures Output(Digest([97, 98, 99])) == [0x90, 0x01, 0x50, 0x98, 0x3c, 0xd2, 0x4f, 0xb0,
      0xd6, 0x96, 0x3f, 0x7d, 0x28, 0xe1, 0x7f, 0x72]
  {
    hide Operations, Padded, WordOf, Output, Digest;
    var block := Padded([97, 98, 99]);
    AbcPadded();
    OneBlock([97, 98, 99]);
    AbcRound1(block);
    AbcRound2(block);
    AbcRound3(block);
    AbcRound4(block);
    Stop(INIT, block, Regs(0x310ade8f, 0xc08226b3, 0xe484b9d8, 0x624d8cb2),
      Regs(0x98500190, 0xb04fd23c, 0x7d3f96d6, 0x727fe128));
    AbcOutput();
  }

}
