/** MD5 as sections 3.1 to 3.4 of RFC 1321 define it. */
module Md5Rfc {

  type Byte = x: int | 0 <= x < 256

  type Word = bv32

  const WORD: nat := 0x1_0000_0000

  datatype Regs = Regs(a: Word, b: Word, c: Word, d: Word)

  // ----- Section 3.1 and 3.2: padding and length -----

  function Zeros(n: nat): (z: seq<Byte>)
    ensures |z| == n && forall i :: 0 <= i < n ==> z[i] == 0
  {
    seq(n, _ => 0)
  }

  /** A number below 2^32, low-order byte first. */
  function LittleEndian(n: nat): (b: seq<Byte>)
    ensures |b| == 4
  {
    [n % 256, n / 256 % 256, n / 65536 % 256, n / 16777216 % 256]
  }

  /** The number of bits as a 64-bit quantity, low-order word first. */
  function LengthBytes(n: nat): (b: seq<Byte>)
    ensures |b| == 8
  {
    var bits := 8 * n % (WORD * WORD);
    LittleEndian(bits % WORD) + LittleEndian(bits / WORD)
  }

  /** A single 1 bit, then zeros until 8 bytes are missing to a whole number of blocks. */
  function Padding(n: nat): (p: seq<Byte>)
    ensures |p| >= 1 && (n + |p|) % 64 == 56
  {
    [0x80 as Byte] + Zeros((55 - n) % 64)
  }

  function Padded(msg: seq<Byte>): (p: seq<Byte>)
    ensures |p| % 64 == 0
  {
    var head := msg + Padding(|msg|);
    assert |head| % 64 == 56;
    head + LengthBytes(|msg|)
  }

  // ----- Section 3.3 and 3.4: registers and rounds -----

  const INIT := Regs(0x67452301, 0xefcdab89, 0x98badcfe, 0x10325476)

  function F(x: Word, y: Word, z: Word): Word { (x & y) | (!x & z) }
  function G(x: Word, y: Word, z: Word): Word { (x & z) | (y & !z) }
  function H(x: Word, y: Word, z: Word): Word { (x ^ y) ^ z }
  function I(x: Word, y: Word, z: Word): Word { y ^ (x | !z) }

  // The table of sines, a row for each round.
  const SINES1: seq<Word> := [
    0xd76aa478, 0xe8c7b756, 0x242070db, 0xc1bdceee, 0xf57c0faf, 0x4787c62a, 0xa8304613, 0xfd469501,
    0x698098d8, 0x8b44f7af, 0xffff5bb1, 0x895cd7be, 0x6b901122, 0xfd987193, 0xa679438e, 0x49b40821]
  const SINES2: seq<Word> := [
    0xf61e2562, 0xc040b340, 0x265e5a51, 0xe9b6c7aa, 0xd62f105d, 0x02441453, 0xd8a1e681, 0xe7d3fbc8,
    0x21e1cde6, 0xc33707d6, 0xf4d50d87, 0x455a14ed, 0xa9e3e905, 0xfcefa3f8, 0x676f02d9, 0x8d2a4c8a]
  const SINES3: seq<Word> := [
    0xfffa3942, 0x8771f681, 0x6d9d6122, 0xfde5380c, 0xa4beea44, 0x4bdecfa9, 0xf6bb4b60, 0xbebfbc70,
    0x289b7ec6, 0xeaa127fa, 0xd4ef3085, 0x04881d05, 0xd9d4d039, 0xe6db99e5, 0x1fa27cf8, 0xc4ac5665]
  const SINES4: seq<Word> := [
    0xf4292244, 0x432aff97, 0xab9423a7, 0xfc93a039, 0x655b59c3, 0x8f0ccc92, 0xffeff47d, 0x85845dd1,
    0x6fa87e4f, 0xfe2ce6e0, 0xa3014314, 0x4e0811a1, 0xf7537e82, 0xbd3af235, 0x2ad7d2bb, 0xeb86d391]

  function Sine(i: nat): Word
    requires i < 64
  {
    (if i < 16 then SINES1 else if i < 32 then SINES2 else if i < 48 then SINES3 else SINES4)[i % 16]
  }

  function Mix(i: nat, x: Word, y: Word, z: Word): Word
  {
    if i < 16 then F(x, y, z) else if i < 32 then G(x, y, z) else if i < 48 then H(x, y, z) else I(x, y, z)
  }

  /** Which word of the block operation `i` uses. */
  function Index(i: nat): (k: nat)
    ensures k < 16
  {
    (if i < 16 then i else if i < 32 then 1 + 5 * i else if i < 48 then 5 + 3 * i else 7 * i) % 16
  }

  function Shift(i: nat): (s: nat)
    ensures 0 < s < 32
  {
    var r := i % 4;
    if i < 16 then [7, 12, 17, 22][r]
    else if i < 32 then [5, 9, 14, 20][r]
    else if i < 48 then [4, 11, 16, 23][r]
    else [6, 10, 15, 21][r]
  }

  /** The number whose four bytes, low-order byte first, are `b`. */
  function Little(b: seq<Byte>): (n: int)
    requires |b| == 4
    ensures 0 <= n < WORD
  {
    b[0] as int + 256 * b[1] as int + 65536 * b[2] as int + 16777216 * b[3] as int
  }

  /** The word of `block` at index `k`, low-order byte first. */
  function WordOf(block: seq<Byte>, k: nat): Word
    requires 4 * k + 4 <= |block|
  {
    var b: seq<Byte> := block[4 * k..4 * k + 4];
    Little(b) as Word
  }

  /** Addition of words wraps around. */
  function Add(x: Word, y: Word): Word
  {
    x + y
  }

  function Rotate(w: Word, s: nat): Word
    requires 0 < s < 32
  {
    w.RotateLeft(s)
  }

  /** a = b + ((a + f(b, c, d) + X[k] + T[i]) <<< s), the registers then changing roles. */
  function Operation(i: nat, r: Regs, block: seq<Byte>): Regs
    requires i < 64 && |block| == 64
  {
    var sum := Add(Add(Add(r.a, Mix(i, r.b, r.c, r.d)), WordOf(block, Index(i))), Sine(i));
    Regs(r.d, Add(r.b, Rotate(sum, Shift(i))), r.b, r.c)
  }

  function Operations(n: nat, r: Regs, block: seq<Byte>): Regs
    requires n <= 64 && |block| == 64
  {
    if n == 0 then r else Operation(n - 1, Operations(n - 1, r, block), block)
  }

  function Compress(r: Regs, block: seq<Byte>): Regs
    requires |block| == 64
  {
    var o := Operations(64, r, block);
    Regs(Add(r.a, o.a), Add(r.b, o.b), Add(r.c, o.c), Add(r.d, o.d))
  }

  /** Takes in whole blocks, the first ones first. */
  function Absorb(r: Regs, bytes: seq<Byte>): Regs
    requires |bytes| % 64 == 0
    decreases |bytes|
  {
    if bytes == [] then r
    else Compress(Absorb(r, bytes[..|bytes| - 64]), bytes[|bytes| - 64..])
  }

  function Digest(msg: seq<Byte>): Regs
  {
    Absorb(INIT, Padded(msg))
  }

  // ----- Section 3.5: output -----

  /** The registers as bytes, low-order byte of the first one first. */
  function Output(r: Regs): (b: seq<Byte>)
    ensures |b| == 16
  {
    LittleEndian(r.a as nat) + LittleEndian(r.b as nat) + LittleEndian(r.c as nat) + LittleEndian(r.d as nat)
  }
}
