/** Digests of messages that arrive in pieces. */
module Md5Streams {
  import opened Md5Rfc
  import opened Md5Context

  function Contents(chunks: seq<array<Byte>>): seq<Byte>
    reads chunks
  {
    if chunks == [] then [] else Contents(chunks[..|chunks| - 1]) + chunks[|chunks| - 1][..]
  }

  /** However a message is cut into chunks of fewer than 2^32 bytes, the digest is that of the message. */
  method DigestChunks(chunks: seq<array<Byte>>) returns (r: Regs)
    requires forall i :: 0 <= i < |chunks| ==> chunks[i].Length < WORD
    ensures r == Digest(Contents(chunks))
  {
    hide Digest, Md5.Took, Md5.Counted;
    var ctx := new Md5();
    ghost var msg := [];
    var i := 0;
    assert chunks[..0] == [];
    while i < |chunks|
      invariant 0 <= i <= |chunks| && fresh(ctx) && fresh(ctx.buffer)
      invariant msg == Contents(chunks[..i]) && ctx.Holds(msg) && ctx.Counted(msg)
    {
      assert chunks[..i + 1][..i] == chunks[..i];
      ctx.ProcessBytes(chunks[i], chunks[i].Length, msg);
      assert chunks[i][..chunks[i].Length] == chunks[i][..];
      msg := msg + chunks[i][..];
      i := i + 1;
    }
    assert chunks[..i] == chunks;
    r := ctx.Finish(msg);
  }

  /** md5_buffer */
  method DigestBuffer(data: array<Byte>) returns (r: Regs)
    requires data.Length < WORD
    ensures r == Digest(data[..])
  {
    hide Digest, Md5.Took, Md5.Counted;
    var ctx := new Md5();
    ctx.ProcessBytes(data, data.Length, []);
    assert [] + data[..data.Length] == data[..];
    r := ctx.Finish(data[..]);
  }

  const BLOCKSIZE: nat := 4096

  /** A file that hands out at each place as many bytes as it likes, but none only at its end. */
  class Reader {
    const file: seq<Byte>
    const appetite: nat -> nat
    var pos: nat

    constructor (file: seq<Byte>, appetite: nat -> nat)
      ensures this.file == file && pos == 0
    {
      this.file, this.appetite, pos := file, appetite, 0;
    }

    /** fread of bytes */
    method Read(buf: array<Byte>, at: nat, limit: nat) returns (n: nat)
      requires pos <= |file| && at + limit <= buf.Length
      modifies this`pos, buf
      ensures n <= limit && pos == old(pos) + n <= |file| && (n == 0 <==> limit == 0 || old(pos) == |file|)
      ensures buf[..at + n] == old(buf[..at]) + file[old(pos)..pos]
    {
      n := 1 + appetite(pos);
      if n > limit { n := limit; }
      if n > |file| - pos { n := |file| - pos; }
      forall i | 0 <= i < n { buf[at + i] := file[pos + i]; }
      pos := pos + n;
    }

    /** Reads until the block is full or the file ends. */
    method ReadBlock(buf: array<Byte>) returns (sum: nat)
      requires pos <= |file| && buf.Length >= BLOCKSIZE
      modifies this`pos, buf
      ensures sum <= BLOCKSIZE && pos == old(pos) + sum <= |file| && (sum < BLOCKSIZE ==> pos == |file|)
      ensures buf[..sum] == file[old(pos)..pos]
    {
      sum := Read(buf, 0, BLOCKSIZE);
      var n := sum;
      while sum < BLOCKSIZE && n != 0
        invariant sum <= BLOCKSIZE && pos == old(pos) + sum <= |file| && buf[..sum] == file[old(pos)..pos]
        invariant n == 0 ==> pos == |file|
        decreases |file| - pos, n
      {
        ghost var was := pos;
        n := Read(buf, sum, BLOCKSIZE - sum);
        sum := sum + n;
        assert file[old(pos)..was] + file[was..pos] == file[old(pos)..pos];
      }
    }
  }

  /** md5_stream: whole blocks of the file go straight to the registers, the rest through the buffer. */
  method DigestStream(reader: Reader) returns (r: Regs)
    requires reader.pos == 0
    modifies reader
    ensures r == Digest(reader.file)
  {
    hide Digest, Md5.Took, Md5.Counted;
    var ctx := new Md5();
    var buffer := new Byte[BLOCKSIZE + 72];
    ghost var msg := reader.file[..0];
    var sum := reader.ReadBlock(buffer);
    while sum == BLOCKSIZE
      invariant fresh(ctx) && fresh(ctx.buffer)
      invariant |msg| <= reader.pos <= |reader.file| && sum == reader.pos - |msg| && sum <= BLOCKSIZE
      invariant msg == reader.file[..|msg|] && buffer[..sum] == reader.file[|msg|..reader.pos]
      invariant sum < BLOCKSIZE ==> reader.pos == |reader.file|
      invariant ctx.Holds(msg) && ctx.Counted(msg) && ctx.buflen == 0 && ctx.buffer != buffer
      decreases |reader.file| - |msg|
    {
      ctx.TakeDirect(buffer, 0, BLOCKSIZE, msg);
      assert buffer[0..BLOCKSIZE] == buffer[..sum];
      msg := msg + buffer[0..BLOCKSIZE];
      sum := reader.ReadBlock(buffer);
    }
    if sum > 0 {
      ctx.ProcessBytes(buffer, sum, msg);
      msg := msg + buffer[..sum];
    }
    assert msg == reader.file;
    r := ctx.Finish(msg);
  }
}
