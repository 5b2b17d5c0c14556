/** Which printed symbols read back as themselves, and that printed integers do. */
module LispSymbols {
  import opened LispText

  // ----- What the scanner makes of a printed name -----

  function PutPrinted(t: Scan, c: char): (u: Scan)
    ensures u.buf == t.buf + [c]
  {
    if Special(c) then Quoted(t, [c]) else Put(t, c)
  }

  /** The scanner's state after a printed name. */
  function Run(t: Scan, name: string): (u: Scan)
    ensures u.buf == t.buf + name
    decreases |name|
  {
    if name == "" then t else
      assert t.buf + [name[0]] + name[1..] == t.buf + name;
      Run(PutPrinted(t, name[0]), name[1..])
  }

  predicate Ends(tail: string)
  {
    tail == "" || Delimiter(tail[0])
  }

  lemma ScanOne(t: Scan, c: char, rest: string)
    requires Special(c) || c != '\\'
    ensures ScanFrom(t, (if Special(c) then "\\" else "") + [c] + rest) == ScanFrom(PutPrinted(t, c), rest)
  {
    var s := (if Special(c) then "\\" else "") + [c] + rest;
    if Special(c) {
      assert s[0] == '\\' && s[1..2] == [c] && s[2..] == rest;
    } else {
      assert s[0] == c && s[1..] == rest;
    }
  }

  lemma {:induction false} ScanEscaped(t: Scan, name: string, tail: string)
    requires Ends(tail)
    ensures ScanFrom(t, Escaped(name) + tail) == Ended(Run(t, name), tail)
    decreases |name|
  {
    if name == "" {
      assert Escaped(name) + tail == tail;
    } else {
      var c := name[0];
      hide ScanFrom;
      ScanOne(t, c, Escaped(name[1..]) + tail);
      assert Escaped(name) + tail == (if Special(c) then "\\" else "") + [c] + (Escaped(name[1..]) + tail);
      ScanEscaped(PutPrinted(t, c), name[1..], tail);
    }
  }

  /** The state after the whole printed symbol. */
  function Final(name: string): Scan
  {
    if NumberLike(name) then Run(Quoted(START, name[..1]), name[1..]) else Run(START, name)
  }

  lemma PlainEscaped(name: string)
    requires name != "" && !Special(name[0])
    ensures Escaped(name) == [name[0]] + Escaped(name[1..])
  {
  }

  lemma ScanSymbol(name: string, tail: string)
    requires Ends(tail)
    ensures ScanFrom(START, NameText(name) + tail) == Ended(Final(name), tail)
  {
    hide ScanFrom, Escaped, Run;
    if NumberLike(name) {
      var c := name[0];
      PlainEscaped(name);
      var rest := Escaped(name[1..]) + tail;
      ScanBackslash(START, c, rest);
      assert NameText(name) + tail == "\\" + [c] + rest;
      assert name[..1] == [c];
      ScanEscaped(Quoted(START, [c]), name[1..], tail);
    } else {
      assert NameText(name) == Escaped(name);
      ScanEscaped(START, name, tail);
    }
  }

  lemma ScanBackslash(t: Scan, c: char, rest: string)
    ensures ScanFrom(t, "\\" + [c] + rest) == ScanFrom(Quoted(t, [c]), rest)
  {
    var s := "\\" + [c] + rest;
    assert s[0] == '\\' && s[1..2] == [c] && s[2..] == rest;
  }

  // ----- Once quoted, always a symbol -----

  lemma {:induction false} StaysQuoted(t: Scan, name: string)
    requires t.radix == 0 || exists i :: 0 <= i < |name| && Special(name[i])
    ensures Run(t, name).radix == 0
    decreases |name|
  {
    if name != "" {
      var u := PutPrinted(t, name[0]);
      if u.radix != 0 {
        var i :| 0 <= i < |name| && Special(name[i]);
        assert Special(name[1..][i - 1]);
      }
      StaysQuoted(u, name[1..]);
    }
  }

  /** The names that are printed with a backslash. */
  predicate PrintedQuoted(name: string)
  {
    NumberLike(name) || exists i :: 0 <= i < |name| && Special(name[i])
  }

  lemma QuotedFinal(name: string)
    requires PrintedQuoted(name)
    ensures Final(name).radix == 0 && Final(name).buf == name
  {
    hide Run;
    if NumberLike(name) {
      StaysQuoted(Quoted(START, name[..1]), name[1..]);
      assert name[..1] + name[1..] == name;
    } else {
      StaysQuoted(START, name);
    }
  }

  // ----- Tokens that read as numbers -----

  /** The leading signs of a token; the reader lets any number of them pass. */
  function Signs(s: string): (k: nat)
    ensures k <= |s| && (forall i :: 0 <= i < k ==> Sign(s[i])) && (k < |s| ==> !Sign(s[k]))
  {
    if s == "" || !Sign(s[0]) then 0 else 1 + Signs(s[1..])
  }

  /** Signs, and an integer, a ratio or a decimal. */
  predicate NumberToken(name: string)
  {
    var t := name[Signs(name)..];
    AllDigits(t) || RatioText(t) || Decimal(t)
  }

  /** A sign and five characters ending in ".0": the last check of read_symbol, which even a quoted name
      does not escape. */
  predicate SignedPointZero(name: string)
  {
    |name| == 6 && Sign(name[0]) && name[4] == '.' && name[5] == '0' && PointZero(name[1..])
  }

  /** The C strings that read back. */
  predicate ReadableText(name: string)
  {
    name != "" && !SignedPointZero(name) && (PrintedQuoted(name) || !NumberToken(name))
  }

  /** The names that read back. */
  predicate Readable(name: string)
  {
    NUL !in name && ReadableText(name)
  }

  /** What the scanner knows after the leading signs. */
  function AfterSigns(k: nat, sign: int, buf: string): Scan
  {
    START.(sign := sign, nfirst := k, hadSign := k > 0, buf := buf)
  }

  function LastSign(sign: int, s: string): int
  {
    if s == "" then sign else if s[|s| - 1] == '-' then -1 else 1
  }

  lemma PutSign(k: nat, sign: int, buf: string, c: char)
    requires |buf| == k && Sign(c)
    ensures PutPrinted(AfterSigns(k, sign, buf), c) == AfterSigns(k + 1, if c == '-' then -1 else 1, buf + [c])
  {
  }

  lemma RunOne(t: Scan, c: char, rest: string)
    ensures Run(t, [c] + rest) == Run(PutPrinted(t, c), rest)
  {
    assert ([c] + rest)[1..] == rest;
  }

  lemma {:induction false} RunSigns(k: nat, sign: int, buf: string, name: string)
    requires |buf| == k
    ensures var m := Signs(name);
      Run(AfterSigns(k, sign, buf), name) ==
      Run(AfterSigns(k + m, LastSign(sign, name[..m]), buf + name[..m]), name[m..])
    decreases |name|
  {
    hide Run, PutPrinted, AfterSigns;
    var m := Signs(name);
    if m == 0 {
      assert name[..0] == "" && name[0..] == name && buf + "" == buf;
    } else {
      var c, rest := name[0], name[1..];
      var next := if c == '-' then -1 else 1;
      PutSign(k, sign, buf, c);
      RunOne(AfterSigns(k, sign, buf), c, rest);
      assert name == [c] + rest;
      RunSigns(k + 1, next, buf + [c], rest);
      SignsGlue(sign, buf, name, m);
    }
  }

  lemma SignsGlue(sign: int, buf: string, name: string, m: nat)
    requires 0 < m <= |name|
    ensures var c, rest := name[0], name[1..];
      rest[m - 1..] == name[m..] && buf + [c] + rest[..m - 1] == buf + name[..m] &&
      LastSign(if c == '-' then -1 else 1, rest[..m - 1]) == LastSign(sign, name[..m])
  {
    var c, rest := name[0], name[1..];
    assert name[..m] == [c] + rest[..m - 1];
  }

  /** In the middle of a number. */
  predicate Inside(t: Scan)
  {
    (t.radix == 10 || t.radix == 0) && t.nfirst < |t.buf| && !t.expecting
  }

  lemma InsideStep(t: Scan, c: char)
    requires Inside(t) && !Special(c)
    ensures var u := PutPrinted(t, c);
      Inside(u) && u.nfirst == t.nfirst && u.sign == t.sign && u.force == t.force && (t.radix == 0 ==> u.radix == 0)
  {
  }

  lemma DigitStep(t: Scan, c: char)
    requires Inside(t) && t.radix == 10 && Digit(c)
    ensures PutPrinted(t, c) == t.(buf := t.buf + [c]) && Inside(PutPrinted(t, c))
  {
  }

  lemma {:induction false} StaysInside(t: Scan, s: string)
    requires Inside(t) && forall i :: 0 <= i < |s| ==> !Special(s[i])
    ensures var u := Run(t, s);
      Inside(u) && u.nfirst == t.nfirst && u.sign == t.sign && u.force == t.force && (t.radix == 0 ==> u.radix == 0)
    decreases |s|
  {
    hide PutPrinted, Inside, Special;
    if s != "" {
      InsideStep(t, s[0]);
      StaysInside(PutPrinted(t, s[0]), s[1..]);
    }
  }

  lemma {:induction false} RunDigits(t: Scan, s: string, rest: string)
    requires Inside(t) && t.radix == 10 && forall i :: 0 <= i < |s| ==> Digit(s[i])
    ensures Run(t, s + rest) == Run(t.(buf := t.buf + s), rest)
    decreases |s|
  {
    hide PutPrinted, Inside, Run;
    if s == "" {
      assert s + rest == rest && t.buf + s == t.buf;
    } else {
      var c := s[0];
      var u := t.(buf := t.buf + [c]);
      DigitStep(t, c);
      assert s + rest == [c] + (s[1..] + rest);
      RunOne(t, c, s[1..] + rest);
      RunDigits(u, s[1..], rest);
      assert u.buf + s[1..] == t.buf + s;
    }
  }

  /** Before the first character that is not a sign. */
  predicate Fresh(t: Scan)
  {
    t.radix == -1 && t.nfirst == |t.buf| && t.exact && !t.rational && !t.exponent && !t.expecting
  }

  /** Digits are read in radix ten, from the start of a number. */
  lemma FreshDigits(t: Scan, s: string, rest: string)
    requires Fresh(t) && AllDigits(s)
    ensures Run(t, s + rest) == Run(t.(radix := 10, buf := t.buf + s), rest)
  {
    hide Run;
    var c := s[0];
    var u := t.(radix := 10, buf := t.buf + [c]);
    assert PutPrinted(t, c) == u;
    RunOne(t, c, s[1..] + rest);
    assert s + rest == [c] + (s[1..] + rest);
    RunDigits(u, s[1..], rest);
    assert u.buf + s[1..] == t.buf + s;
  }

  lemma RunNothing(t: Scan)
    ensures Run(t, "") == t
  {
  }

  lemma DigitsParts(s: string)
    ensures var a := DigitRun(s); s == s[..a] + s[a..] && (a > 0 ==> AllDigits(s[..a]))
  {
  }

  lemma IntegerRun(t: Scan, s: string)
    requires Fresh(t) && AllDigits(s)
    ensures Run(t, s) == t.(radix := 10, buf := t.buf + s)
  {
    hide Run;
    FreshDigits(t, s, "");
    assert s + "" == s;
    RunNothing(t.(radix := 10, buf := t.buf + s));
  }

  lemma RatioRun(t: Scan, s: string)
    requires Fresh(t) && RatioText(s)
    ensures Run(t, s) == t.(radix := 10, rational := true, buf := t.buf + s)
  {
    hide Run;
    var a := DigitRun(s);
    DigitsParts(s);
    FreshDigits(t, s[..a], s[a..]);
    var u := t.(radix := 10, buf := t.buf + s[..a]);
    assert s[a..] == ['/'] + s[a + 1..];
    RunOne(u, '/', s[a + 1..]);
    var v := u.(rational := true, buf := u.buf + ['/']);
    assert PutPrinted(u, '/') == v;
    RunDigits(v, s[a + 1..], "");
    assert s[a + 1..] + "" == s[a + 1..];
    assert v.buf + s[a + 1..] == t.buf + s;
    RunNothing(v.(buf := t.buf + s));
  }

  lemma ExponentStep(t: Scan, c: char)
    requires Inside(t) && t.radix == 10 && !t.rational && !t.exponent && (c == 'e' || c == 'E')
    ensures var u := PutPrinted(t, c);
      u == t.(exact := false, exponent := true, buf := t.buf + [c]) && Inside(u)
  {
  }

  lemma SignStep(t: Scan, c: char)
    requires Inside(t) && t.radix == 10 && t.exponent && Sign(c)
    ensures PutPrinted(t, c) == t.(buf := t.buf + [c]) && Inside(PutPrinted(t, c))
  {
  }

  lemma PointStep(t: Scan)
    requires (Inside(t) && t.radix == 10 && t.exact && !t.rational && !t.exponent) || Fresh(t)
    ensures var u := PutPrinted(t, '.');
      u == t.(radix := 10, exact := false, buf := t.buf + ['.']) && Inside(u) && !u.rational && !u.exponent
  {
  }

  /** The state after a decimal with a point or an exponent. */
  lemma ExponentRun(t: Scan, s: string)
    requires Inside(t) && t.radix == 10 && !t.rational && !t.exponent && s != "" && ExponentPart(s)
    ensures Run(t, s) == t.(exact := false, exponent := true, buf := t.buf + s)
  {
    hide Run, Inside, PutPrinted;
    var u := t.(exact := false, exponent := true, buf := t.buf + [s[0]]);
    ExponentStep(t, s[0]);
    RunOne(t, s[0], s[1..]);
    assert s == [s[0]] + s[1..];
    var signed := |s| > 1 && Sign(s[1]);
    var ds := if signed then s[2..] else s[1..];
    var v := if signed then u.(buf := u.buf + [s[1]]) else u;
    if signed {
      RunOne(u, s[1], s[2..]);
      assert s[1..] == [s[1]] + s[2..];
      SignStep(u, s[1]);
    }
    RunDigits(v, ds, "");
    assert ds + "" == ds;
    assert v.buf + ds == t.buf + s;
    RunNothing(v.(buf := t.buf + s));
  }

  /** After the digits in front. */
  function Head(t: Scan, s: string): Scan
  {
    var a := DigitRun(s);
    if a > 0 then t.(radix := 10, buf := t.buf + s[..a]) else t
  }

  lemma HeadRun(t: Scan, s: string)
    requires Fresh(t)
    ensures Run(t, s) == Run(Head(t, s), s[DigitRun(s)..])
    ensures Head(t, s).buf == t.buf + s[..DigitRun(s)]
  {
    hide Run;
    var a := DigitRun(s);
    DigitsParts(s);
    if a > 0 { FreshDigits(t, s[..a], s[a..]); } else { assert s[..0] == "" && s[0..] == s && t.buf + "" == t.buf; }
  }

  lemma HeadMeans(t: Scan, s: string)
    requires Fresh(t)
    ensures var h := Head(t, s);
      if DigitRun(s) > 0 then Inside(h) && h.radix == 10 && h.exact && !h.rational && !h.exponent else Fresh(h)
    ensures var h := Head(t, s); h == t.(radix := h.radix, buf := h.buf)
  {
  }

  lemma DecimalRun(t: Scan, s: string)
    requires Fresh(t) && Decimal(s) && !AllDigits(s)
    ensures Run(t, s) == t.(radix := 10, exact := false, exponent := Run(t, s).exponent, buf := t.buf + s)
  {
    hide Run, DigitRun, ExponentPart, Fresh, Inside, Head;
    var a := DigitRun(s);
    HeadRun(t, s);
    HeadMeans(t, s);
    if a < |s| && s[a] == '.' {
      var r := s[a + 1..];
      SplitAtPoint(t.buf, s, a);
      PointRun(Head(t, s), r, a > 0);
    } else {
      assert a < |s|;
      LastPart(Head(t, s), s[a..]);
      assert t.buf + s[..a] + s[a..] == t.buf + s;
    }
  }

  lemma SplitAtPoint(buf: string, s: string, a: nat)
    requires a < |s| && s[a] == '.'
    ensures var r := s[a + 1..];
      s[a..] == ['.'] + r && buf + s[..a] + ['.'] + r == buf + s && r[DigitRun(r)..] == s[a + 1 + DigitRun(r)..]
  {
  }

  /** From the point on. */
  lemma PointRun(t: Scan, r: string, digits: bool)
    requires if digits then Inside(t) && t.radix == 10 && t.exact && !t.rational && !t.exponent else Fresh(t)
    requires ExponentPart(r[DigitRun(r)..])
    ensures var u := Run(t, ['.'] + r);
      u == t.(radix := 10, exact := false, exponent := u.exponent, buf := t.buf + ['.'] + r)
  {
    hide Run, Inside, Fresh, PutPrinted;
    var b := DigitRun(r);
    DigitsParts(r);
    RunOne(t, '.', r);
    var v := t.(radix := 10, exact := false, buf := t.buf + ['.']);
    PointStep(t);
    RunDigits(v, r[..b], r[b..]);
    var w := v.(buf := v.buf + r[..b]);
    StillInside(v, r[..b]);
    LastPart(w, r[b..]);
    assert w.buf + r[b..] == t.buf + ['.'] + r;
  }

  lemma StillInside(t: Scan, s: string)
    requires Inside(t)
    ensures Inside(t.(buf := t.buf + s))
  {
  }

  lemma LastPart(t: Scan, s: string)
    requires Inside(t) && t.radix == 10 && !t.rational && !t.exponent && ExponentPart(s)
    ensures var u := Run(t, s);
      u == t.(exact := if s == "" then t.exact else false, exponent := s != "", buf := t.buf + s)
  {
    if s == "" {
      assert t.buf + s == t.buf;
    } else {
      ExponentRun(t, s);
    }
  }

  // ----- The grammar of tokens and the scanner agree -----

  lemma {:induction false} ValueOfZeros(s: string)
    requires forall i :: 0 <= i < |s| ==> Digit(s[i])
    ensures Value(10, s) >= 0
    ensures Value(10, s) != 0 <==> exists i :: 0 <= i < |s| && s[i] != '0'
  {
    if s != "" {
      var n := |s| - 1;
      var u := s[..n];
      ValueOfZeros(u);
      if i :| 0 <= i < |u| && u[i] != '0' {
        assert s[i] != '0';
      } else {
        assert forall i | 0 <= i < |u| :: s[i] == u[i];
      }
    }
  }

  lemma {:induction false} SlashIs(s: string, k: nat)
    requires k <= |s| && (k < |s| ==> s[k] == '/') && forall i :: 0 <= i < k ==> s[i] != '/'
    ensures Slash(s) == k
  {
    if k > 0 { SlashIs(s[1..], k - 1); }
  }

  lemma {:induction false} SlashAt(s: string)
    ensures var k := Slash(s); k < |s| ==> s[k] == '/'
  {
    if s != "" && s[0] != '/' { SlashAt(s[1..]); }
  }

  lemma {:induction false} DigitRunIs(s: string, k: nat)
    requires k <= |s| && (k < |s| ==> !Digit(s[k])) && forall i :: 0 <= i < k ==> Digit(s[i])
    ensures DigitRun(s) == k
  {
    if k > 0 { DigitRunIs(s[1..], k - 1); }
  }

  lemma TenDigits(s: string)
    ensures DigitsOf(10, s) <==> AllDigits(s)
  {
  }

  /** A ratio in radix ten. */
  lemma RatioParses(s: string)
    ensures Parses(Ratio, 10, s) <==> RatioText(s)
  {
    var a, k := DigitRun(s), Slash(s);
    SlashAt(s);
    if RatioText(s) {
      SlashIs(s, a);
    }
    if k < |s| && DigitsOf(10, s[..k]) {
      assert forall i | 0 <= i < k :: s[i] == s[..k][i];
      DigitRunIs(s, k);
    }
    if a == k < |s| {
      var u := s[k + 1..];
      TenDigits(s[..k]);
      TenDigits(u);
      assert a > 0 ==> AllDigits(s[..k]);
      if AllDigits(u) { NonzeroAfter(s, k); }
    }
  }

  lemma NonzeroAfter(s: string, k: nat)
    requires k < |s| && AllDigits(s[k + 1..])
    ensures Value(10, s[k + 1..]) != 0 <==> exists i :: k < i < |s| && s[i] != '0'
  {
    var u := s[k + 1..];
    ValueOfZeros(u);
    if i :| 0 <= i < |u| && u[i] != '0' {
      assert s[k + 1 + i] != '0';
    } else {
      assert forall i | k < i < |s| :: s[i] == u[i - k - 1];
    }
  }

  /** The state of the scanner after the signs of a name that is printed as it is. */
  lemma UnquotedRun(name: string)
    requires !PrintedQuoted(name)
    ensures var m := Signs(name);
      Final(name) == Run(AfterSigns(m, LastSign(1, name[..m]), name[..m]), name[m..])
  {
    hide Run;
    RunSigns(0, 1, "", name);
    assert "" + name[..Signs(name)] == name[..Signs(name)];
  }

  lemma FirstInside(t: Scan, c: char)
    requires Fresh(t) && !Special(c) && !Sign(c)
    ensures var u := PutPrinted(t, c);
      Inside(u) && u.nfirst == t.nfirst && u.sign == t.sign && u.force == t.force &&
      (u.radix == 10 <==> Digit(c) || c == '.')
  {
  }

  lemma AfterSignsFresh(k: nat, sign: int, buf: string)
    requires |buf| == k
    ensures var t := AfterSigns(k, sign, buf);
      Fresh(t) && t.nfirst == k && t.force == 0 && t.buf == buf && t.radix == -1
  {
  }

  lemma NoneSpecial(name: string, m: nat, rest: string)
    requires !PrintedQuoted(name) && m < |name| && rest == name[m + 1..]
    ensures !Special(name[m]) && forall i :: 0 <= i < |rest| ==> !Special(rest[i])
    ensures name[m..] == [name[m]] + rest
  {
  }

  /** Where the scanner ends. */
  lemma UnquotedEnds(name: string)
    requires !PrintedQuoted(name)
    ensures var m, f := Signs(name), Final(name);
      f.buf == name && f.nfirst == m && f.force == 0 &&
      (if m == |name| then f.radix == -1
       else (f.radix == 10 || f.radix == 0) && (Digit(name[m]) || name[m] == '.' || f.radix == 0))
  {
    hide Run, PutPrinted, AfterSigns, Fresh, Special, PrintedQuoted, Final;
    UnquotedRun(name);
    var m := Signs(name);
    var t := AfterSigns(m, LastSign(1, name[..m]), name[..m]);
    AfterSignsFresh(m, LastSign(1, name[..m]), name[..m]);
    assert name[..m] + name[m..] == name;
    if m < |name| {
      var c := name[m];
      NoneSpecial(name, m, name[m + 1..]);
      FirstInside(t, c);
      RunOne(t, c, name[m + 1..]);
      StaysInside(PutPrinted(t, c), name[m + 1..]);
    } else {
      assert name[m..] == "";
      RunNothing(t);
    }
  }

  /** A name that is printed as it is reads as a number exactly when it is a number token. */
  lemma UnquotedNumber(name: string)
    requires !PrintedQuoted(name)
    ensures var m, f := Signs(name), Final(name);
      NumberToken(name) <==> m < |name| && f.radix == 10 && Parses(KindOf(f), 10, name[m..])
  {
    hide Run, Final, Decimal, RatioText, AllDigits, DigitsOf;
    UnquotedEnds(name);
    UnquotedRun(name);
    var m := Signs(name);
    var s := name[m..];
    var t := AfterSigns(m, LastSign(1, name[..m]), name[..m]);
    TenDigits(s);
    RatioParses(s);
    EmptyToken();
    if AllDigits(s) {
      IntegerRun(t, s);
    } else if RatioText(s) {
      RatioRun(t, s);
    } else if Decimal(s) {
      DecimalRun(t, s);
    }
  }

  lemma EmptyToken()
    ensures !AllDigits("") && !RatioText("") && !Decimal("")
  {
  }

  // ----- The last check of read_symbol -----

  lemma {:induction false} SignsIs(s: string, k: nat)
    requires k <= |s| && (k < |s| ==> !Sign(s[k])) && forall i :: 0 <= i < k ==> Sign(s[i])
    ensures Signs(s) == k
  {
    if k > 0 { SignsIs(s[1..], k - 1); }
  }

  lemma DecimalStart(s: string)
    requires Decimal(s)
    ensures s != "" && !Sign(s[0])
  {
  }

  lemma TrimmedPlain(s: string)
    requires s != "" && !Special(s[0])
    ensures Trimmed(s) == if Sign(s[0]) then s[1..] else s
  {
  }

  /** If that check would take such a name for a float, an earlier one does, or the name cannot be a number
      for the scanner. */
  lemma PointZeroToken(name: string)
    requires SignedPointZero(name) && !PrintedQuoted(name)
    ensures NumberToken(name) || Final(name).radix == 0
  {
    hide Run, Final, Decimal, RatioText, AllDigits, Trimmed, HexPointZero;
    var text := name[1..];
    UnquotedEnds(name);
    TrimmedPlain(text);
    var u := Trimmed(text);
    if text == "inf.0" || text == "nan.0" {
      assert name[1] == text[0];
      SignsIs(name, 1);
    } else {
      var k := if Sign(name[1]) then 2 else 1;
      assert u == name[k..];
      if Decimal(u) {
        DecimalStart(u);
        SignsIs(name, k);
      } else {
        HexRun(name, k);
      }
    }
  }

  lemma HexSteps(t: Scan, c: char, d: char)
    requires Fresh(t) && c == '0' && (d == 'x' || d == 'X')
    ensures PutPrinted(PutPrinted(t, c), d).radix == 0
  {
  }

  lemma HexRun(name: string, k: nat)
    requires !PrintedQuoted(name) && 0 < k <= |name| && (forall i :: 0 <= i < k ==> Sign(name[i]))
    requires HexPointZero(name[k..])
    ensures Final(name).radix == 0
  {
    hide Run, Final, PutPrinted, AfterSigns, Fresh;
    SignsIs(name, k);
    UnquotedRun(name);
    var t := AfterSigns(k, LastSign(1, name[..k]), name[..k]);
    AfterSignsFresh(k, LastSign(1, name[..k]), name[..k]);
    var c, d := name[k], name[k + 1];
    assert name[k..] == [c] + ([d] + name[k + 2..]);
    RunOne(t, c, [d] + name[k + 2..]);
    RunOne(PutPrinted(t, c), d, name[k + 2..]);
    HexSteps(t, c, d);
    StaysQuoted(PutPrinted(PutPrinted(t, c), d), name[k + 2..]);
  }

  // ----- Printed symbols -----

  lemma TokenOfFinal(name: string)
    requires name != ""
    ensures Token(Final(name)).Some?
    ensures Token(Final(name)).value == Symbol(name) <==> ReadableText(name)
  {
    hide Run, Final, Decimal, RatioText, AllDigits, PointZero, Parses;
    var f := Final(name);
    if PrintedQuoted(name) {
      QuotedFinal(name);
    } else {
      UnquotedEnds(name);
      UnquotedNumber(name);
      if SignedPointZero(name) { PointZeroToken(name); }
    }
  }

  lemma TextReadsBack(name: string, tail: string)
    requires Ends(tail)
    ensures ReadIdentifier(NameText(name) + tail) == Read(Symbol(name), tail) <==> ReadableText(name)
    ensures if name == "" then ReadIdentifier(NameText(name) + tail) == Failed
      else Token(Final(name)).Some? && ReadIdentifier(NameText(name) + tail) == Read(Token(Final(name)).value, tail)
  {
    hide ScanFrom, Final, Token, PointZero, SignedPointZero;
    ScanSymbol(name, tail);
    if name == "" {
      NoName();
    } else {
      TokenOfFinal(name);
    }
  }

  lemma NoName()
    ensures Token(Final("")).None?
  {
  }

  lemma WholeName(name: string)
    ensures CName(name) == name <==> NUL !in name
    ensures NUL !in CName(name)
  {
    if NUL !in name {
      assert CLength(name) == |name|;
    }
  }

  /** What the token of a printed symbol is. */
  function SymbolToken(name: string): Option<Datum>
  {
    if CName(name) == "" then None else Token(Final(CName(name)))
  }

  /** A printed symbol reads as itself exactly when its name is readable; whatever else it reads as takes the
      same text. */
  lemma SymbolReadsBack(name: string, tail: string)
    requires Ends(tail)
    ensures ReadIdentifier(SymbolText(name) + tail) == Read(Symbol(name), tail) <==> Readable(name)
    ensures var d := SymbolToken(name);
      ReadIdentifier(SymbolText(name) + tail) == if d.Some? then Read(d.value, tail) else Failed
    ensures SymbolToken(name) == Some(Symbol(name)) <==> Readable(name)
    ensures SymbolToken(name).Some? <==> CName(name) != ""
  {
    hide ReadIdentifier, NameText, Final, Token, ReadableText;
    var c := CName(name);
    TextReadsBack(c, tail);
    WholeName(name);
    if c != "" {
      TokenOfFinal(c);
      TokenIs(c, name);
    } else {
      EmptyUnreadable();
    }
  }

  /** A token that is a symbol is named by its characters. */
  lemma TokenIs(c: string, name: string)
    ensures Token(Final(c)) == Some(Symbol(name)) ==> c == name
  {
    hide Run;
    if c != "" { assert c[..1] + c[1..] == c; }
  }

  lemma EmptyUnreadable()
    ensures !ReadableText("")
  {
  }
}
