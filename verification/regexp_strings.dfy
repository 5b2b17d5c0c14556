/** C strings inside a program: operands end in a NUL byte. */
module RegexpStrings {
  import opened RegexpCode
  import opened RegexpSyntax
  import opened RegexpDenotes

  /** No position, no node. */
  const NULL: int := -1

  method StrLen(code: seq<Byte>, p: nat, ghost s: seq<Byte>) returns (n: nat)
    requires At(code, p, s + [0]) && NoNul(s)
    ensures n == |s|
  {
    n := 0;
    AtByte(code, p, s + [0], 0);
    while code[p + n] != 0
      invariant n <= |s| && p + n < |code| && code[p + n] == (s + [0])[n]
      decreases |s| - n
    {
      n := n + 1;
      AtByte(code, p, s + [0], n);
    }
  }

  method StrChr(code: seq<Byte>, p: nat, c: Byte, ghost s: seq<Byte>) returns (found: bool)
    requires At(code, p, s + [0]) && NoNul(s)
    ensures found == (c in s)
  {
    var q := p;
    AtByte(code, p, s + [0], 0);
    while code[q] != 0
      invariant p <= q <= p + |s| && q < |code| && code[q] == (s + [0])[q - p]
      invariant c !in s[..q - p]
      decreases p + |s| - q
    {
      if code[q] == c {
        assert s[q - p] == c;
        return true;
      }
      q := q + 1;
      AtByte(code, p, s + [0], q - p);
    }
    assert s[..q - p] == s;
    found := false;
  }
}
