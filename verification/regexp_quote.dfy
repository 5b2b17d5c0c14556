/** quote-regexp: the text it builds is a pattern that matches exactly the original text. */
module RegexpQuote {
  import opened RegexpCode
  import opened RegexpSyntax
  import opened RegexpSemantics
  import opened RegexpMachine
  import opened RegexpSteps
  import opened RegexpMatcher

  /** Characters that get a backslash. */
  predicate Special(c: Byte)
  {
    c in [42, 43, 63, 46, 91, 93, 40, 41, 124, 94, 36, 92]  // * + ? . [ ] ( ) | ^ $ \
  }

  function Quoted(s: seq<Byte>): (r: seq<Byte>)
    ensures |r| >= |s|
  {
    if s == [] then [] else (if Special(s[0]) then ['\\' as int, s[0]] else [s[0]]) + Quoted(s[1..])
  }

  lemma {:induction false} QuotedSnoc(s: seq<Byte>, c: Byte)
    ensures Quoted(s + [c]) == Quoted(s) + (if Special(c) then ['\\' as int, c] else [c])
  {
    if s == [] {
      assert s + [c] == [c] && [c][1..] == [];
    } else {
      assert (s + [c])[1..] == s[1..] + [c];
      QuotedSnoc(s[1..], c);
    }
  }

  /** Builds the quoted text in a buffer that doubles when it is nearly full. */
  method QuoteRegexp(s: seq<Byte>) returns (r: seq<Byte>)
    ensures r == Quoted(s)
  {
    hide Special, Quoted;
    var buf, len, quoted := new Byte[128], 0, false;
    var i := 0;
    QuotedNone();
    while i < |s|
      invariant i <= |s| && len < buf.Length && fresh(buf) && buf.Length >= 128
      invariant buf[..len] == Quoted(s[..i])
      invariant !quoted ==> Quoted(s[..i]) == s[..i]
    {
      if len + 2 >= buf.Length {
        buf := Doubled(buf, len);
      }
      var c := s[i];
      assert s[..i + 1] == s[..i] + [c];
      QuotedSnoc(s[..i], c);
      if Special(c) {
        ghost var was := buf[..len];
        buf[len], buf[len + 1] := '\\' as int, c;
        len := len + 2;
        assert buf[..len] == was + ['\\' as int, c];
        quoted := true;
      } else {
        ghost var was := buf[..len];
        buf[len] := c;
        len := len + 1;
        assert buf[..len] == was + [c];
      }
      i := i + 1;
    }
    assert s[..i] == s;
    r := if !quoted then s else buf[..len];
  }

  method Doubled(buf: array<Byte>, len: nat) returns (more: array<Byte>)
    requires len <= buf.Length && buf.Length > 0
    ensures fresh(more) && more.Length == 2 * buf.Length && more[..len] == buf[..len]
  {
    more := new Byte[2 * buf.Length];
    for j := 0 to len
      invariant more[..j] == buf[..j]
    {
      more[j] := buf[j];
    }
  }

  // ----- What the quoted text parses to -----

  function PlainRun(s: seq<Byte>): (n: nat)
    ensures n <= |s|
    ensures forall j :: 0 <= j < n ==> !Special(s[j])
    ensures n < |s| ==> Special(s[n])
  {
    if s == [] || Special(s[0]) then 0 else 1 + PlainRun(s[1..])
  }

  /** One literal for every maximal run of ordinary characters and one for every special one. */
  function Chunks(s: seq<Byte>): Pieces
    decreases |s|
  {
    if s == [] then PNil
    else PCons(Piece(Literal(s[..ChunkLength(s)]), One), Chunks(s[ChunkLength(s)..]))
  }

  lemma {:induction false} QuotedPlain(s: seq<Byte>, n: nat)
    requires n <= |s| && forall j :: 0 <= j < n ==> !Special(s[j])
    ensures Quoted(s) == s[..n] + Quoted(s[n..])
  {
    if n == 0 {
      assert s[0..] == s;
    } else {
      QuotedPlain(s[1..], n - 1);
      assert s[1..][n - 1..] == s[n..];
      assert s[..n] == [s[0]] + s[1..][..n - 1];
    }
  }

  lemma {:induction false} LiteralRunIs(q: seq<Byte>, i: nat, n: nat)
    requires i + n <= |q| && NoNul(q) && forall j :: i <= j < i + n ==> !Special(q[j])
    requires i + n < |q| ==> q[i + n] == '\\' as int
    ensures LiteralRun(q, i) == n
    decreases n
  {
    if n > 0 {
      LiteralRunIs(q, i + 1, n - 1);
    }
  }

  lemma {:induction false} QuotedNoNul(s: seq<Byte>)
    requires NoNul(s)
    ensures NoNul(Quoted(s))
  {
    if s != [] {
      assert NoNul(s[1..]);
      QuotedNoNul(s[1..]);
    }
  }

  /** The rest of the pattern from `i` on is the quoted form of `s`. */
  lemma {:induction false} ChunksParse(q: seq<Byte>, i: nat, s: seq<Byte>)
    requires NoNul(q) && i <= |q| && q[i..] == Quoted(s) && NoNul(s)
    ensures ParsePieces(q, i, 1) == Ok(Chunks(s), |q|, 1)
    decreases |s|
  {
    hide ParsePiece, ParsePieces, Quoted, PlainRun, NoNul, Special, EndsBranch;
    if s == [] {
      QuotedNone();
      PiecesEnd(q, i);
    } else {
      var n, k := ChunkLength(s), if Special(s[0]) then 2 else ChunkLength(s);
      if Special(s[0]) { SpecialStart(q, i, s); } else { PlainStart(q, i, s); }
      Tail(q, i, k);
      NoNulFrom(s, n);
      ChunksParse(q, i + k, s[n..]);
      PiecesStep(q, i, Piece(Literal(s[..n]), One), i + k, Chunks(s[n..]));
    }
  }

  function ChunkLength(s: seq<Byte>): (n: nat)
    requires s != []
    ensures 0 < n <= |s|
  {
    if Special(s[0]) then 1 else PlainRun(s)
  }

  lemma QuotedNone()
    ensures Quoted([]) == []
  {
  }

  lemma Tail(q: seq<Byte>, i: nat, k: nat)
    requires i + k <= |q|
    ensures q[i + k..] == q[i..][k..]
  {
  }

  lemma NoNulFrom(s: seq<Byte>, n: nat)
    requires NoNul(s) && n <= |s|
    ensures NoNul(s[n..]) && NoNul(s[..n])
  {
  }

  lemma PiecesEnd(q: seq<Byte>, i: nat)
    requires NoNul(q) && i == |q|
    ensures ParsePieces(q, i, 1) == Ok(PNil, |q|, 1)
  {
  }

  lemma PiecesStep(q: seq<Byte>, i: nat, p: Piece, j: nat, rest: Pieces)
    requires NoNul(q) && i < |q| && !EndsBranch(q[i]) && j <= |q|
    requires ParsePiece(q, i, 1) == Ok(p, j, 1) && ParsePieces(q, j, 1) == Ok(rest, |q|, 1)
    ensures ParsePieces(q, i, 1) == Ok(PCons(p, rest), |q|, 1)
  {
    hide ParsePiece, NoNul;
  }

  lemma PieceOfLiteral(q: seq<Byte>, i: nat, text: seq<Byte>, j: nat)
    requires NoNul(q) && i < |q| && !EndsBranch(q[i]) && ParseAtom(q, i, 1) == Ok(Literal(text), j, 1) &&
      !IsMult(Peek(q, j))
    ensures ParsePiece(q, i, 1) == Ok(Piece(Literal(text), One), j, 1)
  {
    hide ParseAtom, NoNul, IsMult, Peek;
  }

  lemma SpecialStart(q: seq<Byte>, i: nat, s: seq<Byte>)
    requires NoNul(q) && i <= |q| && q[i..] == Quoted(s) && NoNul(s) && s != [] && Special(s[0])
    ensures i + 2 <= |q| && !EndsBranch(q[i]) && q[i..][2..] == Quoted(s[1..])
    ensures ParsePiece(q, i, 1) == Ok(Piece(Literal(s[..1]), One), i + 2, 1)
  {
    hide ParsePiece, ParseAtom, NoNul;
    assert q[i] == q[i..][0] && q[i + 1] == q[i..][1] == s[0];
    assert q[i..][2..] == Quoted(s[1..]);
    assert s[..1] == [s[0]];
    NextPlain(q, i, 2, s[1..]);
    EscapeAtom(q, i);
    PieceOfLiteral(q, i, s[..1], i + 2);
  }

  lemma EscapeAtom(q: seq<Byte>, i: nat)
    requires NoNul(q) && i + 1 < |q| && q[i] == '\\' as int && Special(q[i + 1])
    ensures ParseAtom(q, i, 1) == Ok(Literal([q[i + 1]]), i + 2, 1)
  {
    hide ParseReg, ParseClass, LiteralLength;
  }

  lemma PlainStart(q: seq<Byte>, i: nat, s: seq<Byte>)
    requires NoNul(q) && i <= |q| && q[i..] == Quoted(s) && NoNul(s) && s != [] && !Special(s[0])
    ensures var n := PlainRun(s);
      n > 0 && i + n <= |q| && !EndsBranch(q[i]) && q[i..][n..] == Quoted(s[n..])
      && ParsePiece(q, i, 1) == Ok(Piece(Literal(s[..n]), One), i + n, 1)
  {
    hide ParsePiece, ParseAtom, LiteralRun, Quoted, Special, PlainRun, NoNul, IsMult, EndsBranch;
    var n := PlainRun(s);
    QuotedPlain(s, n);
    assert q[i..][n..] == Quoted(s[n..]);
    forall j | i <= j < i + n ensures !Special(q[j]) { assert q[j] == q[i..][j - i] == s[j - i]; }
    if i + n < |q| {
      assert q[i + n] == q[i..][n] == Quoted(s[n..])[0];
      QuotedNone();
      QuotedStart(s[n..]);
    }
    LiteralRunIs(q, i, n);
    NextPlain(q, i, n, s[n..]);
    assert q[i..i + n] == q[i..][..n] == s[..n];
    assert q[i] == s[0] by { assert q[i] == q[i..][0]; }
    PlainAtom(q, i, n);
    PieceOfLiteral(q, i, s[..n], i + n);
  }

  lemma QuotedStart(s: seq<Byte>)
    requires s != [] && Special(s[0])
    ensures Quoted(s)[0] == '\\' as int
  {
  }

  lemma PlainFacts(c: Byte)
    requires !Special(c) && c != 0
    ensures c != '^' as int && c != '$' as int && c != '.' as int && c != '[' as int && c != '(' as int &&
      c != '\\' as int
    ensures !IsMult(c) && !EndsBranch(c)
  {
  }

  lemma PlainAtom(q: seq<Byte>, i: nat, n: nat)
    requires NoNul(q) && i < |q| && !Special(q[i]) && LiteralRun(q, i) == n && n > 0 && i + n <= |q| &&
      !IsMult(Peek(q, i + n))
    ensures !EndsBranch(q[i]) && ParseAtom(q, i, 1) == Ok(Literal(q[i..i + n]), i + n, 1)
  {
    hide ParseReg, ParseClass, ParseEscape, LiteralRun, Special, IsMult, EndsBranch, IsMeta;
    PlainFacts(q[i]);
    assert LiteralLength(q, i) == n;
  }

  /** A repetition operator never follows. */
  lemma NextPlain(q: seq<Byte>, i: nat, k: nat, s: seq<Byte>)
    requires i + k <= |q| && q[i..][k..] == Quoted(s)
    ensures !IsMult(Peek(q, i + k))
  {
    if i + k < |q| {
      assert q[i + k] == q[i..][k] == Quoted(s)[0];
    }
  }

  // ----- What it matches -----

  lemma TextSplit(su: Subject, s: seq<Byte>, n: nat, i: nat)
    requires n <= |s|
    ensures TextAt(su, s, i) <==> TextAt(su, s[..n], i) && TextAt(su, s[n..], i + n)
  {
    if TextAt(su, s[..n], i) && TextAt(su, s[n..], i + n) {
      forall j | 0 <= j < |s| ensures Same(su, s[j], su.text[i + j]) {
        if j < n {
          assert s[..n][j] == s[j];
        } else {
          assert s[n..][j - n] == s[j] && Same(su, s[n..][j - n], su.text[i + n + (j - n)]);
        }
      }
    }
    if TextAt(su, s, i) {
      assert TextAt(su, s[..n], i);
      forall j | 0 <= j < |s| - n ensures Same(su, s[n..][j], su.text[i + n + j]) {
        assert s[n..][j] == s[n + j] && Same(su, s[n + j], su.text[i + (n + j)]);
      }
    }
  }

  lemma {:induction false} ChunksWf(s: seq<Byte>)
    requires NoNul(s)
    ensures WfPieces(Chunks(s))
    decreases |s|
  {
    if s != [] {
      var n := ChunkLength(s);
      assert NoNul(s[..n]) && NoNul(s[n..]);
      assert WfPiece(Piece(Literal(s[..n]), One));
      ChunksWf(s[n..]);
    }
  }

  /** No recursion is needed to match it, so no limit on recursion can get in the way. */
  lemma {:induction false} ChunksRun(su: Subject, max: int, s: seq<Byte>, i: nat, depth: nat)
    requires NoNul(s) && i <= |su.text|
    ensures WfPieces(Chunks(s)) && WfCont(Seq(Chunks(s), Done))
    ensures Run(su, max, Seq(Chunks(s), Done), i, depth) == if TextAt(su, s, i) then Result(true, i + |s|, [],
      false) else FAIL
    decreases |s|
  {
    hide WfPieces, Run, TextAt, ChunkLength, NoNul;
    ChunksWf(s);
    SeqDone(su, max, Chunks(s), i, depth);
    if s != [] {
      var n := ChunkLength(s);
      TextSplit(su, s, n, i);
      NoNulFrom(s, n);
      ChunksStep(su, max, s, i, depth);
      if TextAt(su, s[..n], i) {
        TextFits(su, s[..n], i);
        ChunksRun(su, max, s[n..], i + n, depth);
        SeqDone(su, max, Chunks(s[n..]), i + n, depth);
      }
    } else {
      NothingRun(su, max, i, depth);
      TextNone(su, i);
    }
  }

  lemma TextFits(su: Subject, s: seq<Byte>, i: nat)
    requires TextAt(su, s, i)
    ensures i + |s| <= |su.text|
  {
  }

  lemma TextNone(su: Subject, i: nat)
    requires i <= |su.text|
    ensures TextAt(su, [], i)
  {
  }

  lemma NothingRun(su: Subject, max: int, i: nat, depth: nat)
    requires i <= |su.text|
    ensures WfCont(Seq(PNil, Done)) && Run(su, max, Seq(PNil, Done), i, depth) == Result(true, i, [], false)
  {
    assert WfCont(Done);
    DoneRuns(su, max, i, depth);
  }

  lemma SeqDone(su: Subject, max: int, ps: Pieces, i: nat, depth: nat)
    requires WfPieces(ps) && i <= |su.text|
    ensures WfCont(After(ps, Done)) && WfCont(Seq(ps, Done))
    ensures Run(su, max, After(ps, Done), i, depth) == Run(su, max, Seq(ps, Done), i, depth)
  {
    hide RunPiece;
    assert WfCont(Done);
  }

  lemma ChunksStep(su: Subject, max: int, s: seq<Byte>, i: nat, depth: nat)
    requires s != [] && i <= |su.text| && WfPieces(Chunks(s))
    ensures var n := ChunkLength(s);
      && WfPieces(Chunks(s[n..])) && WfCont(After(Chunks(s[n..]), Done)) && WfCont(Seq(Chunks(s), Done))
      && Run(su, max, Seq(Chunks(s), Done), i, depth)
         == if TextAt(su, s[..n], i) then Run(su, max, After(Chunks(s[n..]), Done), i + n, depth) else FAIL
  {
    hide TextAt, Run, ChunkLength;
    var n := ChunkLength(s);
    var p, rest := Piece(Literal(s[..n]), One), Chunks(s[n..]);
    assert Chunks(s) == PCons(p, rest) && WfPiece(p) && WfPieces(rest);
    SeqDone(su, max, Chunks(s), i, depth);
    SeqDone(su, max, rest, i, depth);
    SeqRuns(su, max, Seq(Chunks(s), Done), i, depth);
    OneRuns(su, max, p.atom, After(rest, Done), i, depth);
    LiteralRuns(su, max, s[..n], After(rest, Done), i, depth);
  }

  lemma LiteralRuns(su: Subject, max: int, text: seq<Byte>, k: Cont, i: nat, depth: nat)
    requires WfAtom(Literal(text)) && WfCont(k) && i <= |su.text|
    ensures RunAtom(su, max, Literal(text), k, i, depth) == if TextAt(su, text, i) then Run(su, max, k, i + |text|,
      depth) else FAIL
  {
    hide Run;
  }

  /** The quoted pattern compiles to something that matches at a position exactly when the text is
      there, and consumes exactly the text. */
  lemma QuotedIsLiteral(s: seq<Byte>, su: Subject, max: int, i: nat)
    requires NoNul(s) && i <= |su.text| && max > 0
    ensures NoNul(Quoted(s)) && WfPieces(Chunks(s)) && WfAlts(ACons(Chunks(s), ANil))
    ensures Parse(Quoted(s)) == Ok(ACons(Chunks(s), ANil), |Quoted(s)|, 1)
    ensures TryAt(su, max, ACons(Chunks(s), ANil), i) == if TextAt(su, s, i) then Result(true, i + |s|, [],
      false) else FAIL
  {
    hide ParsePieces, TextAt, Chunks, Quoted, NoNul, Run;
    QuotedNoNul(s);
    Tail(Quoted(s), 0, 0);
    assert Quoted(s)[0..] == Quoted(s);
    ChunksParse(Quoted(s), 0, s);
    assert ParseAlts(Quoted(s), 0, 1) == Ok(ACons(Chunks(s), ANil), |Quoted(s)|, 1);
    ChunksWf(s);
    ChunksRun(su, max, s, i, 0);
    OneChoice(su, max, Chunks(s), i);
  }

  lemma OneChoice(su: Subject, max: int, ps: Pieces, i: nat)
    requires WfPieces(ps) && i <= |su.text| && max > 0
    ensures WfAlts(ACons(ps, ANil)) && WfCont(Seq(ps, Done))
    ensures TryAt(su, max, ACons(ps, ANil), i) == Run(su, max, Seq(ps, Done), i, 0)
  {
    hide RunPiece;
    assert WfAlts(ANil) && WfCont(Done);
    assert WfCont(Choose(ACons(ps, ANil), Done));
  }
}
