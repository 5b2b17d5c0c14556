/** The streaming computation: a context that keeps incomplete blocks in a buffer of 128 bytes. */
module Md5Context {
  import opened Md5Rfc
  import opened Md5Block

  const BUFFER: nat := 128
  const LIMIT: nat := WORD * WORD

  // ----- Whole blocks -----

  lemma AbsorbOne(r: Regs, bytes: seq<Byte>, block: seq<Byte>)
    requires |bytes| % 64 == 0 && |block| == 64
    ensures Absorb(r, bytes + block) == Compress(Absorb(r, bytes), block)
  {
    hide Compress;
    var all := bytes + block;
    assert all[..|all| - 64] == bytes && all[|all| - 64..] == block;
  }

  lemma {:induction false} AbsorbBoth(r: Regs, s: seq<Byte>, t: seq<Byte>)
    requires |s| % 64 == 0 && |t| % 64 == 0
    ensures Absorb(r, s + t) == Absorb(Absorb(r, s), t)
    decreases |t|
  {
    hide Compress;
    if t == [] {
      assert s + t == s;
    } else {
      var front, block := t[..|t| - 64], t[|t| - 64..];
      AbsorbBoth(r, s, front);
      AbsorbOne(r, s + front, block);
      assert s + t == (s + front) + block;
      AbsorbOne(Absorb(r, s), front, block);
      assert t == front + block;
    }
  }

  lemma AbsorbNone(r: Regs)
    ensures Absorb(r, []) == r
  {
  }

  // ----- The two-word count -----

  /** total[0] += len */
  function CountLow(low: nat, len: nat): (l: nat)
    ensures l < WORD
  {
    (low + len) % WORD
  }

  /** The carry is noticed by the low word having become smaller than what was added. */
  function CountHigh(low: nat, high: nat, len: nat): (h: nat)
    requires high < WORD
    ensures h < WORD
  {
    if CountLow(low, len) < len then (high + 1) % WORD else high
  }

  function Count(low: nat, high: nat): nat
  {
    low + WORD * high
  }

  lemma WordDivision(n: nat)
    ensures n == WORD * (n / WORD) + n % WORD && 0 <= n % WORD < WORD
  {
  }

  lemma SameModulo(q: nat, h: nat, l: nat)
    requires l < WORD && h < WORD
    ensures (WORD * q + l) % LIMIT == Count(l, h) <==> q % WORD == h
  {
    assert q == WORD * (q / WORD) + q % WORD;
    assert WORD * q + l == LIMIT * (q / WORD) + (WORD * (q % WORD) + l);
    assert 0 <= WORD * (q % WORD) + l < LIMIT;
    ModuloIs(q / WORD, WORD * (q % WORD) + l);
  }

  lemma ModuloIs(q: nat, r: nat)
    requires r < LIMIT
    ensures (LIMIT * q + r) % LIMIT == r
  {
  }

  /** The count is right when the one carry that is noticed is what the sum carries. */
  lemma CountCarries(low: nat, high: nat, len: nat)
    requires low < WORD && high < WORD
    ensures Count(CountLow(low, len), CountHigh(low, high, len)) == (Count(low, high) + len) % LIMIT <==>
      (high + (low + len) / WORD) % WORD == (high + if CountLow(low, len) < len then 1 else 0) % WORD
  {
    var q := high + (low + len) / WORD;
    WordDivision(low + len);
    assert Count(low, high) + len == WORD * q + CountLow(low, len);
    SameModulo(q, CountHigh(low, high, len), CountLow(low, len));
  }

  /** For any length of 64 bits the count is right, as a 64-bit number, exactly when the low word and the
      length together carry at most once. */
  lemma CountExact(low: nat, high: nat, len: nat)
    requires low < WORD && high < WORD && len < WORD * WORD
    ensures Count(CountLow(low, len), CountHigh(low, high, len)) == (Count(low, high) + len) % LIMIT <==>
      low + len < 2 * WORD
  {
    CountCarries(low, high, len);
    var q := (low + len) / WORD;
    WordDivision(low + len);
    if low + len < WORD {
      assert q == 0 && CountLow(low, len) == low + len;
    } else {
      assert 1 <= q <= WORD;
      assert len < WORD ==> q == 1 && CountLow(low, len) == low + len - WORD;
      assert q == 1 <==> low + len < 2 * WORD;
      CarryOnce(high, q);
    }
  }

  /** More than one carry is not taken for one. */
  lemma CarryOnce(high: nat, q: nat)
    requires high < WORD && 1 <= q <= WORD
    ensures (high + q) % WORD == (high + 1) % WORD <==> q == 1
  {
  }

  /** Blocks of fewer than 2^32 bytes are always counted. */
  lemma CountBelow(low: nat, high: nat, len: nat)
    requires low < WORD && high < WORD && len < WORD
    ensures Count(CountLow(low, len), CountHigh(low, high, len)) == (Count(low, high) + len) % LIMIT
  {
    CountExact(low, high, len);
  }

  lemma CountMore(done: nat, n: nat, count: nat)
    requires count == done % LIMIT
    ensures (count + n) % LIMIT == (done + n) % LIMIT
  {
    var q := done / LIMIT;
    assert done + n == LIMIT * q + (count + n);
    var k := (count + n) / LIMIT;
    assert done + n == LIMIT * (q + k) + (count + n) % LIMIT;
    ModuloIs(q + k, (count + n) % LIMIT);
  }

  lemma Suffix(msg: seq<Byte>, more: seq<Byte>, n: nat)
    requires n <= |msg|
    ensures (msg + more)[..n] == msg[..n] && (msg + more)[n..] == msg[n..] + more
  {
  }

  /** Where `msg` is cut once `n` of its last bytes, `rest`, have been processed. */
  lemma TailSlices(msg: seq<Byte>, rest: seq<Byte>, n: nat)
    requires n <= |rest| <= |msg| && rest == msg[|msg| - |rest|..]
    ensures var cut := |msg| - (|rest| - n); msg[..|msg| - |rest|] + rest[..n] == msg[..cut] && rest[n..] == msg[cut..]
  {
  }

  /** A block of 2^33 bytes is counted as 2^32. */
  lemma CountLost()
    ensures Count(CountLow(0, 2 * WORD), CountHigh(0, 0, 2 * WORD)) == WORD
  {
  }

  /** The two words count `n` bytes, as a 64-bit number. */
  predicate Counts(low: nat, high: nat, n: nat)
  {
    Count(low, high) == n % LIMIT
  }

  lemma NothingWaits(b: nat)
    requires b <= BUFFER
    ensures Part(b) < 64 && (b == BUFFER ==> Part(b) == 0)
  {
  }

  lemma CountAll(done: nat, bytes: nat, low: nat, high: nat)
    requires low < WORD && high < WORD && bytes < WORD && Counts(low, high, done)
    ensures Counts(CountLow(low, bytes), CountHigh(low, high, bytes), done + bytes)
  {
    hide CountLow, CountHigh, Count;
    CountBelow(low, high, bytes);
    CountMore(done, bytes, Count(low, high));
  }

  // ----- Padding -----

  /** fillbuf: a byte 0x80 and zeros. */
  function Fillbuf(): (f: seq<Byte>)
    ensures |f| == 64
  {
    [0x80 as Byte] + Zeros(63)
  }

  function Pad(bytes: nat): int
  {
    if bytes >= 56 then 64 + 56 - bytes else 56 - bytes
  }

  /** The padding of a message of which `bytes` wait fits the buffer, and completes a block. */
  lemma PadIs(n: nat, bytes: nat)
    requires bytes <= n && bytes <= 64 && (n - bytes) % 64 == 0
    ensures 0 < Pad(bytes) <= 64 && bytes + Pad(bytes) + 8 <= BUFFER && (bytes + Pad(bytes) + 8) % 64 == 0
    ensures Fillbuf()[..Pad(bytes)] == Padding(n)
  {
    assert (55 - n) % 64 == (55 - bytes) % 64;
    assert 1 + (55 - n) % 64 == Pad(bytes);
  }

  lemma WholeDigest(msg: seq<Byte>)
    ensures Processed(Padded(msg)) == Digest(msg)
  {
    hide Absorb, LengthBytes;
  }

  lemma FinalBlocks(msg: seq<Byte>, done: seq<Byte>, rest: seq<Byte>, last: seq<Byte>)
    requires msg == done + rest && |done| % 64 == 0 && |last| % 64 == 0
    requires last == rest + Padding(|msg|) + LengthBytes(|msg|)
    ensures Absorb(Processed(done), last) == Digest(msg)
  {
    hide Absorb, LengthBytes, Padding, Processed, Digest;
    ProcessedMore(done, last);
    assert done + last == Padded(msg);
    WholeDigest(msg);
  }

  // ----- The length in bits -----

  /** The two words written after the padding: total[0] << 3, and total[1] << 3 with the three bits
      that total[0] << 3 lost; the bits do not overlap, so their union is a sum. */
  function LowBits(low: nat): nat { 8 * low % WORD }
  function HighBits(low: nat, high: nat): nat { 8 * high % WORD + low / 0x2000_0000 }

  lemma Shifted(low: nat)
    requires low < WORD
    ensures 8 * low == WORD * (low / 0x2000_0000) + 8 * low % WORD
  {
  }

  lemma BitsValue(low: nat, high: nat)
    requires low < WORD && high < WORD
    ensures LowBits(low) < WORD && HighBits(low, high) < WORD
    ensures 8 * Count(low, high) % LIMIT == Count(LowBits(low), HighBits(low, high))
  {
    Shifted(low);
    var carry := low / 0x2000_0000;
    assert carry < 8;
    HighWord(high, carry);
    SameModulo(8 * high + carry, HighBits(low, high), LowBits(low));
    assert 8 * Count(low, high) == WORD * (8 * high + carry) + LowBits(low);
  }

  lemma Halves(low: nat, high: nat)
    requires low < WORD && high < WORD
    ensures Count(low, high) % WORD == low && Count(low, high) / WORD == high
  {
  }

  lemma BitsAre(n: nat, low: nat, high: nat)
    requires low < WORD && high < WORD && Count(low, high) == n % LIMIT
    ensures LowBits(low) < WORD && HighBits(low, high) < WORD
    ensures LittleEndian(LowBits(low)) + LittleEndian(HighBits(low, high)) == LengthBytes(n)
  {
    hide LittleEndian, Count, LowBits, HighBits;
    BitsValue(low, high);
    TimesEight(n);
    Halves(LowBits(low), HighBits(low, high));
  }

  lemma TimesEight(n: nat)
    ensures 8 * n % LIMIT == 8 * (n % LIMIT) % LIMIT
  {
    assert n == LIMIT * (n / LIMIT) + n % LIMIT;
    assert 8 * n == LIMIT * (8 * (n / LIMIT)) + 8 * (n % LIMIT);
    var q, r := 8 * (n / LIMIT), 8 * (n % LIMIT);
    assert r == LIMIT * (r / LIMIT) + r % LIMIT;
    assert 8 * n == LIMIT * (q + r / LIMIT) + r % LIMIT;
    ModuloIs(q + r / LIMIT, r % LIMIT);
  }

  lemma HighWord(high: nat, carry: nat)
    requires high < WORD && carry < 8
    ensures (8 * high + carry) % WORD == 8 * high % WORD + carry < WORD
  {
    var q := high / 0x2000_0000;
    assert high == 0x2000_0000 * q + high % 0x2000_0000;
    assert 8 * high == WORD * q + 8 * (high % 0x2000_0000);
  }

  // ----- The context -----

  /** memcpy between arrays that need not differ; the regions do not overlap. */
  method Copy(to: array<Byte>, at: nat, from: array<Byte>, off: nat, n: nat)
    requires at + n <= to.Length && off + n <= from.Length && (to == from ==> at + n <= off || off + n <= at)
    modifies to
    ensures to[..] == old(to[..at]) + old(from[off..off + n]) + old(to[at + n..])
  {
    forall i | 0 <= i < n { to[at + i] := from[off + i]; }
  }

  /** The loop over the blocks of `bytes`. */
  method Blocks(bytes: seq<Byte>, start: Regs) returns (r: Regs)
    requires |bytes| % 64 == 0
    ensures r == Absorb(start, bytes)
  {
    hide Absorb, Compress;
    r := start;
    var i := 0;
    AbsorbNone(start);
    assert bytes[..0] == [];
    while i < |bytes|
      invariant 0 <= i <= |bytes| && i % 64 == 0
      invariant r == Absorb(start, bytes[..i])
    {
      AbsorbOne(start, bytes[..i], bytes[i..i + 64]);
      assert bytes[..i + 64] == bytes[..i] + bytes[i..i + 64];
      r := ProcessOne(bytes[i..i + 64], r);
      i := i + 64;
    }
    assert bytes[..i] == bytes;
  }

  /** The registers once the whole blocks of `bytes` have been processed. */
  function Processed(bytes: seq<Byte>): Regs
  {
    if |bytes| % 64 == 0 then Absorb(INIT, bytes) else INIT
  }

  lemma ProcessedMore(s: seq<Byte>, t: seq<Byte>)
    requires |s| % 64 == 0 && |t| % 64 == 0
    ensures Processed(s + t) == Absorb(Processed(s), t)
  {
    hide Absorb;
    WholeSum(|s|, |t|);
    AbsorbBoth(INIT, s, t);
  }

  lemma WholeSum(a: nat, b: nat)
    requires a % 64 == 0 && b % 64 == 0
    ensures (a + b) % 64 == 0
  {
  }

  /** len & ~63 and len & 63 */
  function Whole(len: nat): nat { len / 64 * 64 }
  function Part(len: nat): nat { len % 64 }

  lemma WholeAndPart(len: nat)
    ensures Whole(len) + Part(len) == len && Whole(len) % 64 == 0 && Part(len) < 64 && (len > 64 ==> Whole(len) >= 64)
  {
  }

  lemma LessWaits(n: nat, len: nat)
    requires len <= n && (n - len) % 64 == 0
    ensures (n - len + Whole(len)) % 64 == 0
  {
  }

  class Md5 {
    var A: Word
    var B: Word
    var C: Word
    var D: Word
    var low: nat              // total[0]
    var high: nat             // total[1]
    var buflen: nat
    const buffer: array<Byte>

    function State(): Regs
      reads this`A, this`B, this`C, this`D
    {
      Regs(A, B, C, D)
    }

    /** The context has taken in `msg`: whole blocks are in the registers, the rest in the buffer. */
    ghost predicate Took(msg: seq<Byte>)
      reads this`A, this`B, this`C, this`D, this`low, this`high, this`buflen, buffer
    {
      low < WORD && high < WORD && buffer.Length == BUFFER && buflen <= |msg| && buflen <= BUFFER &&
        (|msg| - buflen) % 64 == 0 &&
      State() == Processed(msg[..|msg| - buflen]) && buffer[..buflen] == msg[|msg| - buflen..]
    }

    /** ... and counted the bytes in the registers, as a 64-bit number. */
    ghost predicate Counted(msg: seq<Byte>)
      reads this`low, this`high, this`buflen
    {
      buflen <= |msg| && Counts(low, high, |msg| - buflen)
    }

    /** Between calls at most 64 bytes wait in the buffer. */
    ghost predicate Holds(msg: seq<Byte>)
      reads this`A, this`B, this`C, this`D, this`low, this`high, this`buflen, buffer
    {
      Took(msg) && buflen <= 64
    }

    /** md5_init_ctx */
    constructor ()
      ensures Holds([]) && Counted([]) && fresh(buffer)
    {
      AbsorbNone(INIT);
      A, B, C, D := 0x67452301, 0xefcdab89, 0x98badcfe, 0x10325476;
      low, high, buflen := 0, 0, 0;
      buffer := new Byte[BUFFER];
    }

    method CountUp(len: nat)
      requires low < WORD && high < WORD
      modifies this`low, this`high
      ensures low == CountLow(old(low), len) && high == CountHigh(old(low), old(high), len)
    {
      low := (low + len) % WORD;
      if low < len { high := (high + 1) % WORD; }
    }

    /** md5_process_block */
    method ProcessBlock(data: array<Byte>, off: nat, len: nat)
      requires len % 64 == 0 && off + len <= data.Length && low < WORD && high < WORD
      modifies this`A, this`B, this`C, this`D, this`low, this`high
      ensures State() == Absorb(old(State()), data[off..off + len])
      ensures low == CountLow(old(low), len) && high == CountHigh(old(low), old(high), len)
    {
      hide Absorb, CountLow, CountHigh;
      var r := Blocks(data[off..off + len], State());
      CountUp(len);
      A, B, C, D := r.a, r.b, r.c, r.d;
    }

    /** Copies `n` bytes of `data` after those that wait. */
    method Fill(data: array<Byte>, off: nat, n: nat, ghost msg: seq<Byte>)
      requires Took(msg) && data != buffer && off + n <= data.Length && buflen + n <= BUFFER
      modifies this`buflen, buffer
      ensures Took(msg + data[off..off + n]) && buflen == old(buflen) + n
    {
      hide Processed;
      ghost var rest, more := buffer[..buflen], data[off..off + n];
      Copy(buffer, buflen, data, off, n);
      buflen := buflen + n;
      assert buffer[..buflen] == rest + more;
      Suffix(msg, more, |msg| - old(buflen));
    }

    /** Processes `n` bytes, whole blocks, which follow those already processed. */
    method Take(data: array<Byte>, off: nat, n: nat, ghost done: seq<Byte>)
      requires n % 64 == 0 && off + n <= data.Length && low < WORD && high < WORD
      requires |done| % 64 == 0 && State() == Processed(done)
      modifies this`A, this`B, this`C, this`D, this`low, this`high
      ensures State() == Processed(done + data[off..off + n]) && low < WORD && high < WORD
      ensures old(Counts(low, high, |done|)) && n < WORD ==> Counts(low, high, |done| + n)
    {
      hide Absorb, CountLow, CountHigh, Count, Processed;
      ghost var count := Count(low, high);
      ProcessedMore(done, data[off..off + n]);
      if n < WORD { CountBelow(low, high, n); }
      if count == |done| % LIMIT { CountMore(|done|, n, count); }
      ProcessBlock(data, off, n);
    }

    /** Processes the whole blocks that wait and moves the rest to the front of the buffer. */
    method Drain(ghost msg: seq<Byte>)
      requires Took(msg) && buflen > 64
      modifies this`A, this`B, this`C, this`D, this`low, this`high, this`buflen, buffer
      ensures Took(msg) && buflen == Part(old(buflen))
      ensures old(Counted(msg)) ==> Counted(msg)
    {
      hide Processed, Counts, Whole, Part;
      WholeAndPart(buflen);
      LessWaits(|msg|, buflen);
      var n, left := Whole(buflen), Part(buflen);
      ghost var rest := buffer[..buflen];
      TailSlices(msg, rest, n);
      assert buffer[0..n] == rest[..n];
      Take(buffer, 0, n, msg[..|msg| - buflen]);
      MoveDown(n, left);
    }

    method MoveDown(n: nat, left: nat)
      requires n + left == buflen <= buffer.Length && left <= n
      modifies this`buflen, buffer
      ensures buflen == left && buffer[..left] == old(buffer[..buflen])[n..]
    {
      Copy(buffer, 0, buffer, n, left);
      buflen := left;
    }

    /** Processes whole blocks of `data` itself; nothing waits in the buffer. */
    method TakeDirect(data: array<Byte>, off: nat, n: nat, ghost msg: seq<Byte>)
      requires Took(msg) && buflen == 0 && n % 64 == 0 && off + n <= data.Length
      modifies this`A, this`B, this`C, this`D, this`low, this`high
      ensures Took(msg + data[off..off + n])
      ensures old(Counted(msg)) && n < WORD ==> Counted(msg + data[off..off + n])
    {
      hide Processed, Counts;
      ghost var all := msg + data[off..off + n];
      assert msg[..|msg|] == msg && all[..|all|] == all;
      WholeSum(|msg|, n);
      Take(data, off, n, msg);
    }

    /** Completes what waits in the buffer, as far as `data` goes. */
    method ProcessFirst(data: array<Byte>, len: nat, ghost msg: seq<Byte>) returns (p: nat)
      requires Holds(msg) && data != buffer && len <= data.Length
      modifies this, buffer
      ensures p <= len && Holds(msg + data[..p]) && (p < len ==> buflen == 0)
      ensures old(Counted(msg)) ==> Counted(msg + data[..p])
    {
      hide Processed, Counts, Part;
      p := 0;
      assert data[0..0] == data[..0] == [] && msg + [] == msg;
      if buflen != 0 {
        p := if BUFFER - buflen > len then len else BUFFER - buflen;
        assert data[0..p] == data[..p];
        Fill(data, 0, p, msg);
        if buflen > 64 {
          NothingWaits(buflen);
          Drain(msg + data[..p]);
        }
      }
    }

    /** Processes the whole blocks that follow, unless 64 bytes or fewer are left. */
    method ProcessMiddle(data: array<Byte>, len: nat, p: nat, ghost msg: seq<Byte>) returns (q: nat)
      requires p <= len <= data.Length && Took(msg + data[..p]) && (len - p > 64 ==> buflen == 0)
      modifies this`A, this`B, this`C, this`D, this`low, this`high
      ensures p <= q <= len && len - q <= 64 && Took(msg + data[..q])
      ensures old(Counted(msg + data[..p])) && len < WORD ==> Counted(msg + data[..q])
    {
      hide Processed, Counts, Whole, Part;
      q := p;
      if len - p > 64 {
        var n := Whole(len - p);
        WholeAndPart(len - p);
        TakeDirect(data, p, n, msg + data[..p]);
        q := p + n;
        assert msg + data[..p] + data[p..q] == msg + data[..q];
      }
    }

    /** md5_process_bytes */
    method ProcessBytes(data: array<Byte>, len: nat, ghost msg: seq<Byte>)
      requires Holds(msg) && data != buffer && len <= data.Length
      modifies this, buffer
      ensures Holds(msg + data[..len])
      ensures old(Counted(msg)) && len < WORD ==> Counted(msg + data[..len])
    {
      hide Processed, Counts, Counted;
      var p := ProcessFirst(data, len, msg);
      p := ProcessMiddle(data, len, p, msg);
      var left := len - p;
      assert msg + data[..p] + data[p..p + left] == msg + data[..len];
      if left > 0 {
        FillCounted(data, p, left, msg + data[..p]);
      } else {
        assert data[..p] == data[..len];
      }
    }

    method FillCounted(data: array<Byte>, off: nat, n: nat, ghost msg: seq<Byte>)
      requires Took(msg) && data != buffer && off + n <= data.Length && buflen + n <= 64
      modifies this`buflen, buffer
      ensures Holds(msg + data[off..off + n])
      ensures old(Counted(msg)) ==> Counted(msg + data[off..off + n])
    {
      hide Processed, Counts;
      Fill(data, off, n, msg);
    }

    /** Stores a word, low-order byte first. */
    method PutWord(at: nat, word: nat)
      requires buffer.Length == BUFFER && at + 4 <= BUFFER
      modifies buffer
      ensures buffer[..] == old(buffer[..at]) + LittleEndian(word) + old(buffer[at + 4..])
    {
      buffer[at], buffer[at + 1], buffer[at + 2], buffer[at + 3] :=
        word % 256, word / 256 % 256, word / 65536 % 256, word / 16777216 % 256;
    }

    /** Pads what waits and appends the length in bits of the `n` bytes counted. */
    method PadBuffer(bytes: nat, pad: nat, ghost n: nat)
      requires buffer.Length == BUFFER && bytes + pad + 8 <= BUFFER && pad <= 64
      requires low < WORD && high < WORD && Counts(low, high, n) && Fillbuf()[..pad] == Padding(n)
      modifies buffer
      ensures buffer[..bytes + pad + 8] == old(buffer[..bytes]) + Padding(n) + LengthBytes(n)
    {
      hide LengthBytes, LittleEndian, Padding, LowBits, HighBits;
      ghost var rest := buffer[..bytes];
      var fillbuf := new Byte[64](i requires 0 <= i < 64 => Fillbuf()[i]);
      assert fillbuf[0..pad] == Fillbuf()[..pad];
      Copy(buffer, bytes, fillbuf, 0, pad);
      assert buffer[..bytes + pad] == rest + Padding(n);
      PutWord(bytes + pad, LowBits(low));
      PutWord(bytes + pad + 4, HighBits(low, high));
      BitsAre(n, low, high);
      assert buffer[..bytes + pad + 8] == rest + Padding(n) + (LittleEndian(LowBits(low)) + LittleEndian(HighBits(low,
        high)));
    }

    /** md5_finish_ctx: pads, adds the length and processes what is left. */
    method Finish(ghost msg: seq<Byte>) returns (r: Regs)
      requires Holds(msg) && Counted(msg)
      modifies this, buffer
      ensures r == State() == Digest(msg)
    {
      hide Processed, LengthBytes, Counts, Pad, Padding, Absorb, Digest;
      ghost var done, rest := msg[..|msg| - buflen], buffer[..buflen];
      var bytes := buflen;
      CountAll(|msg| - bytes, bytes, low, high);
      CountUp(bytes);
      var pad := Pad(bytes);
      PadIs(|msg|, bytes);
      PadBuffer(bytes, pad, |msg|);
      ghost var last := buffer[0..bytes + pad + 8];
      assert last == rest + Padding(|msg|) + LengthBytes(|msg|);
      FinalBlocks(msg, done, rest, last);
      ProcessBlock(buffer, 0, bytes + pad + 8);
      r := State();
    }

    /** md5_read_ctx */
    method Read(resbuf: array<Byte>)
      requires resbuf.Length == 16
      modifies resbuf
      ensures resbuf[..] == Output(State())
    {
      var bytes := Output(State());
      forall i | 0 <= i < 16 { resbuf[i] := bytes[i]; }
    }
  }
}
