/** The reader, on a stream with one character of lookahead. */
module LispReader {
  import opened LispText
  import NumberTheory
  import NumberTower
  import LispSymbols
  import LispData
  import LispLost

  datatype Look = Eof | Char(c: char)

  class Stream {
    const text: string
    var pos: nat

    constructor (text: string)
      ensures this.text == text && pos == 0
    {
      this.text, pos := text, 0;
    }

    /** The lookahead is the character before the place that is read next. */
    ghost predicate Valid(c: Look)
      reads this
    {
      pos <= |text| && if c.Eof? then pos == |text| else pos > 0 && text[pos - 1] == c.c
    }

    /** What is left to be read, the lookahead first. */
    ghost function Left(c: Look): string
      requires Valid(c)
      reads this
    {
      if c.Eof? then "" else text[pos - 1..]
    }

    /** rep_stream_getc */
    method Getc() returns (c: Look)
      requires pos <= |text|
      modifies this`pos
      ensures Valid(c) && Left(c) == text[old(pos)..]
      ensures c.Char? ==> pos == old(pos) + 1
    {
      if pos == |text| { return Eof; }
      c := Char(text[pos]);
      pos := pos + 1;
    }

    /** rep_stream_ungetc of the character just read. */
    method Ungetc()
      requires 0 < pos <= |text|
      modifies this`pos
      ensures pos == old(pos) - 1
    {
      pos := pos - 1;
    }

    // ----- Symbols and numbers -----

    /** The loop of read_symbol between bars. */
    method ReadBar(t: Scan, ghost left: string) returns (u: Scan, next: Look)
      requires Sound(t) && pos <= |text| && left != "" && left[0] == '|' && left[1..] == text[pos..]
      modifies this`pos
      ensures Valid(next) && pos >= old(pos)
      ensures if next.Eof? then ScanFrom(t, left) == Broken
        else Sound(u) && ScanFrom(t, left) == ScanFrom(u, text[pos..])
    {
      hide BarRun, ScanFrom, Quoted, Sound, InBar;
      ghost var base := pos;
      BarStart(text, base, t);
      BarsStep(t, left);
      u := t.(radix := 0);
      next := Getc();
      while next != Eof && next.c != '|'
        invariant Valid(next) && pos >= base && (next.Char? ==> pos > base)
        invariant InBar(text, base, if next.Eof? then pos else pos - 1, t, u)
        decreases |text| - pos + if next.Eof? then 0 else 1
      {
        BarStep(text, base, pos - 1, t, u);
        u := u.(buf := u.buf + [next.c]);
        next := Getc();
      }
      BarIs(text, base, if next.Eof? then pos else pos - 1, t, u);
    }

    /** The loop of read_symbol after a backslash. */
    method ReadEscape(t: Scan, ghost left: string) returns (u: Scan, next: Look)
      requires Sound(t) && pos <= |text| && left != "" && left[0] == '\\' && left[1..] == text[pos..]
      modifies this`pos
      ensures Valid(next) && pos >= old(pos)
      ensures if next.Eof? then ScanFrom(t, left) == Broken
        else Sound(u) && ScanFrom(t, left) == ScanFrom(u, text[pos..])
    {
      hide ScanFrom, Sound;
      ghost var body := text[pos..];
      BackslashStep(t, left);
      u := t.(radix := 0);
      next := Getc();
      if next.Char? {
        assert Left(next)[0] == next.c && Left(next)[1..] == text[pos..];
        u := u.(buf := u.buf + [next.c]);
      }
    }

    /** One turn of the loop of read_symbol, on a character that does not end the symbol; nothing is returned
        if the input breaks off. */
    method SymbolChar(t: Scan, c: Look) returns (u: Option<Scan>, next: Look)
      requires Valid(c) && c.Char? && Sound(t) && !Delimiter(c.c) && !(c.c == '#' && t.radix == 0)
      modifies this`pos
      ensures Valid(next)
      ensures u.None? ==> ScanFrom(t, old(Left(c))) == Broken
      ensures u.Some? ==> Sound(u.value) && |Left(next)| < |old(Left(c))|
      ensures u.Some? ==> ScanFrom(u.value, Left(next)) == ScanFrom(t, old(Left(c)))
    {
      hide ScanFrom, Put, Sound, Delimiter;
      ghost var left := Left(c);
      assert left[0] == c.c && left[1..] == text[pos..];
      var v;
      if c.c == '\\' {
        v, next := ReadEscape(t, left);
        if next == Eof { return None, next; }
      } else if c.c == '|' {
        v, next := ReadBar(t, left);
        if next == Eof { return None, next; }
      } else {
        PutStep(t, left);
        v := Put(t, c.c);
      }
      u := Some(v);
      next := Getc();
    }

    /** read_symbol */
    method ReadSymbol(c: Look) returns (d: Option<Datum>, next: Look)
      requires Valid(c)
      modifies this`pos
      ensures Valid(next)
      ensures SymbolRead(LispText.ReadSymbol(old(Left(c))), d, Left(next))
    {
      hide ScanFrom, Token, Sound, LispText.ReadSymbol, SymbolRead, Delimiter;
      ghost var input := Left(c);
      var t := START;
      next := c;
      StartSound();
      while next != Eof && !Delimiter(next.c) && !(next.c == '#' && t.radix == 0)
        invariant Valid(next) && Sound(t)
        invariant ScanFrom(t, Left(next)) == ScanFrom(START, input)
        decreases |Left(next)|
      {
        var u;
        u, next := SymbolChar(t, next);
        if u == None { Unread(input); return None, next; }
        t := u.value;
      }
      EndStep(t, Left(next));
      SymbolIs(input, t, Left(next));
      d := Finish(t);
    }

    /** The end of read_symbol. */
    method Finish(t: Scan) returns (d: Option<Datum>)
      requires Sound(t)
      ensures d == Token(t)
    {
      if t.buf == "" { return None; }
      if t.radix > 0 && t.nfirst < |t.buf| {
        var kind := if !t.exact then Float else if t.rational then Ratio else Integer;
        d := ParseNumber(t, kind, t.buf[t.nfirst..]);
        if d.Some? { return; }
      } else if |t.buf| == 6 && t.buf[4] == '.' && t.buf[5] == '0' && (t.buf[0] == '+' || t.buf[0] == '-') {
        var sign := if t.buf[0] == '+' then 1 else -1;
        if PointZero(t.buf[1..]) { return Some(Real(Float, t.buf[1..], 0, sign, 0)); }
      }
      return Some(Symbol(t.buf));
    }

    /** rep_parse_number: integers are computed, other numbers kept as they are written. */
    method ParseNumber(t: Scan, kind: Kind, text: string) returns (d: Option<Datum>)
      requires Sound(t) && t.radix > 0 && t.nfirst < |t.buf| && text == t.buf[t.nfirst..]
      ensures d == if Parses(kind, t.radix, text) then Some(NumberOf(kind, t)) else None
    {
      if kind == Integer {
        var n := ParseInteger(text, t.radix, t.sign);
        if n == None { return None; }
        return Some(if t.force == 0 then Int(n.value) else Real(kind, text, t.radix, t.sign, t.force));
      }
      return if Parses(kind, t.radix, text) then Some(NumberOf(kind, t)) else None;
    }

    /** The integer that is written, by way of a machine word when so few digits cannot leave the range of
        small integers. */
    method ParseInteger(text: string, radix: int, sign: int) returns (n: Option<int>)
      requires text != "" && Radix(radix) && (sign == 1 || sign == -1)
      ensures n == if DigitsOf(radix, text) then Some(sign * Value(radix, text)) else None
    {
      hide Value, DigitValue, NumberTower.InRange, Bits;
      var len := |text|;
      var bits := Bits(radix, len);
      if bits < 62 {
        assert Value(radix, text[..0]) == 0 by { NoDigits(radix, text); }
        var value, i := 0, 0;
        while i < len
          invariant 0 <= i <= len
          invariant forall j :: 0 <= j < i ==> DigitValue(text[j]) < radix
          invariant value == Value(radix, text[..i])
        {
          var d := DigitValue(text[i]);
          if d >= radix { return None; }
          ValueStep(radix, text, i);
          value := value * radix + d;
          i := i + 1;
        }
        assert text[..len] == text;
        FewDigits(radix, text);
        var word := NumberTower.MakeInt(if sign > 0 then value else value * -1);
        return Some(word.n);
      }
      return if DigitsOf(radix, text) then Some(if sign < 0 then -Value(radix, text) else Value(radix, text)) else None;
    }

    // ----- Lists, vectors and the rest -----

    /** The reply and the lookahead that a method is to return. */
    ghost predicate Replied(r: Outcome, reply: Reply, next: Look)
      reads this
    {
      match r
      case Read(d, rest) => reply == Form(d) && Valid(next) && Left(next) == rest
      case Failed => reply == Error
      case Foreign => reply == Unmodelled
    }

    /** The rest of a comment. */
    method SkipLine() returns (next: Look)
      requires pos <= |text|
      modifies this`pos
      ensures Valid(next) && Left(next) == AfterLine(text[old(pos)..])
    {
      ghost var line := text[pos..];
      var c := Getc();
      while c != Eof && c.c != '\n' && c.c != FF && c.c != '\r'
        invariant Valid(c) && AfterLine(Left(c)) == AfterLine(line)
        decreases |Left(c)|
      {
        assert Left(c)[1..] == text[pos..];
        c := Getc();
      }
      assert c.Char? ==> Left(c)[1..] == text[pos..];
      next := Getc();
    }

    /** Whether a dot in a list stands by itself.  If it does not, the character after it is put back. */
    method Dot(c: Look) returns (dotted: bool, next: Look)
      requires Valid(c) && c == Char('.')
      modifies this`pos
      ensures Valid(next)
      ensures var left := old(Left(c));
        if |left| == 1 then next == Eof
        else dotted == White(left[1]) && next.Char? && Left(next) == if dotted then left[1..] else left
    {
      next := Getc();
      if next == Eof { return false, next; }
      dotted := White(next.c);
      if !dotted {
        Ungetc();
        next := c;
      }
    }

    /** Whether the input breaks off after "#" in a list, and whether a comment begins there. */
    method Hash(c: Look) returns (broken: bool, comment: bool)
      requires Valid(c) && c == Char('#')
      modifies this`pos
      ensures pos <= |text|
      ensures var left := old(Left(c));
        broken == (|left| == 1) && comment == (!broken && left[1] == '|') &&
        (!comment ==> Valid(c) && Left(c) == left)
    {
      var next := Getc();
      if next == Eof { return true, false; }
      comment := next.c == '|';
      broken := false;
      if !comment { Ungetc(); }
    }

    /** One turn of the loop of read_list; a reply is returned at the end of the list. */
    method ListTurn(c: Look, items: seq<Datum>, tail: Datum)
      returns (reply: Option<Reply>, next: Look, more: seq<Datum>, end: Datum)
      requires Valid(c)
      modifies this`pos
      ensures pos <= |text|
      ensures reply.None? ==> Valid(next) && |Left(next)| < |old(Left(c))|
      ensures reply.None? ==> LispText.ReadList(Left(next), more, end) == LispText.ReadList(old(Left(c)), items, tail)
      ensures reply.Some? ==> Replied(LispText.ReadList(old(Left(c)), items, tail), reply.value, next)
      decreases |Left(c)|, 4
    {
      hide LispText.Readl, LispText.ReadList, AfterLine, Build;
      ghost var left := Left(c);
      LispData.ListBroken(left, items, tail);
      reply, next, more, end := None, c, items, tail;
      if c == Eof { reply := Some(Error); return; }
      var ch := c.c;
      assert left[0] == ch && left[1..] == text[pos..];
      if White(ch) {
        LispData.ListWhite(left, items, tail);
        next := Getc();
        return;
      }
      if ch == ';' {
        LispData.ListLine(left, items, tail);
        next := SkipLine();
        return;
      }
      if ch == ')' || ch == ']' {
        LispData.ListClose(left, items, tail);
        next := Getc();
        reply := Some(Form(Build(items, tail)));
        return;
      }
      if ch == '.' {
        var dotted;
        dotted, next := Dot(c);
        if next == Eof { reply := Some(Error); return; }
        if dotted {
          LispData.ListDotted(left, items, tail);
          if items == [] { reply := Some(Error); return; }
          var form;
          form, next := Readl(next);
          if form.Form? { end := form.d; } else { reply := Some(form); }
          return;
        }
      } else if ch == '#' {
        var broken, comment := Hash(c);
        if broken { reply := Some(Form(Build(items, tail))); return; }
        if comment { reply := Some(Unmodelled); return; }
      }
      reply, next, more := ListElement(c, items, tail);
      end := Nil;
    }

    /** An element of a list. */
    method ListElement(c: Look, items: seq<Datum>, ghost tail: Datum)
      returns (reply: Option<Reply>, next: Look, more: seq<Datum>)
      requires Valid(c) && c.Char? && !White(c.c) && c.c != ';' && c.c != ')' && c.c != ']'
      requires c.c == '.' ==> |Left(c)| > 1 && !White(Left(c)[1])
      requires c.c == '#' ==> |Left(c)| > 1 && Left(c)[1] != '|'
      modifies this`pos
      ensures pos <= |text|
      ensures reply.None? ==> Valid(next) && |Left(next)| < |old(Left(c))|
      ensures reply.None? ==> LispText.ReadList(Left(next), more, Nil) == LispText.ReadList(old(Left(c)), items, tail)
      ensures reply.Some? ==> Replied(LispText.ReadList(old(Left(c)), items, tail), reply.value, next)
      decreases |Left(c)|, 3
    {
      hide LispText.Readl, LispText.ReadList;
      LispData.ListElement(Left(c), items, tail);
      reply, more := None, items;
      var form;
      form, next := Readl(c);
      if form.Form? { more := items + [form.d]; } else { reply := Some(form); }
    }

    /** read_list */
    method ReadList(c: Look) returns (reply: Reply, next: Look)
      requires Valid(c) && c.Char?
      modifies this`pos
      ensures pos <= |text| && Replied(LispText.ReadList(old(text[pos..]), [], Nil), reply, next)
      decreases |Left(c)|, 0
    {
      hide LispText.ReadList;
      ghost var input := text[pos..];
      var items: seq<Datum>, tail := [], Nil;
      next := Getc();
      while true
        invariant Valid(next) && |Left(next)| <= |input|
        invariant LispText.ReadList(Left(next), items, tail) == LispText.ReadList(input, [], Nil)
        decreases |Left(next)|
      {
        var done;
        done, next, items, tail := ListTurn(next, items, tail);
        if done.Some? { return done.value, next; }
      }
    }

    /** read_vector */
    method ReadVector(c: Look) returns (reply: Reply, next: Look)
      requires Valid(c) && c.Char?
      modifies this`pos
      ensures pos <= |text| && Replied(AsVector(LispText.ReadList(old(text[pos..]), [], Nil)), reply, next)
      decreases |Left(c)|, 1
    {
      hide LispText.ReadList;
      reply, next := ReadList(c);
      if !reply.Form? { return; }
      var list := reply.d;
      var items: seq<Datum> := [];
      while list.Cons?
        decreases list
        invariant items + Elements(list) == Elements(reply.d)
      {
        items := items + [list.car];
        list := list.cdr;
      }
      assert items + [] == items;
      reply := Form(Vector(items));
    }

    /** A form that stands for a list of a symbol and what follows it. */
    method ReadQuoted(name: string, c: Look) returns (reply: Reply, next: Look)
      requires Valid(c) && c.Char?
      modifies this`pos
      ensures pos <= |text| && Replied(Wrapped(name, LispText.Readl(old(Left(c)))), reply, next)
      decreases |Left(c)|, 3
    {
      hide LispText.Readl;
      reply, next := Readl(c);
      if reply.Form? { reply := Form(Cons(Symbol(name), Cons(reply.d, Nil))); }
    }

    /** A symbol, a number, or a symbol of a module. */
    method ReadIdentifier(c: Look) returns (reply: Reply, next: Look)
      requires Valid(c) && c.Char?
      modifies this`pos
      ensures pos <= |text| && Replied(LispText.ReadIdentifier(old(Left(c))), reply, next)
    {
      hide LispText.ReadSymbol;
      var form;
      form, next := ReadSymbol(c);
      if form == None { return Error, next; }
      if next == Char('#') && form.value.Symbol? {
        assert Left(next)[0] == '#' && Left(next)[1..] == text[pos..];
        next := Getc();
        var v;
        v, next := ReadSymbol(next);
        if v == None { return Error, next; }
        return Form(List3(Symbol("module-ref"), form.value, v.value)), next;
      }
      assert next.Char? ==> Left(next)[0] == next.c;
      return Form(form.value), next;
    }

    /** readl */
    method Readl(c: Look) returns (reply: Reply, next: Look)
      requires Valid(c)
      modifies this`pos
      ensures pos <= |text| && Replied(LispText.Readl(old(Left(c))), reply, next)
      decreases |Left(c)|, 2
    {
      hide LispText.ReadList, AfterLine, LispText.ReadIdentifier, AsVector, Wrapped;
      ghost var input := Left(c);
      next := c;
      while true
        invariant Valid(next) && |Left(next)| <= |input|
        invariant LispText.Readl(Left(next)) == LispText.Readl(input)
        decreases |Left(next)|
      {
        ghost var left := Left(next);
        if next == Eof { return Error, next; }
        var ch := next.c;
        assert left[0] == ch && left[1..] == text[pos..];
        if White(ch) { next := Getc(); continue; }
        if ch == ';' { next := SkipLine(); continue; }
        if ch == '(' { reply, next := ReadList(next); return; }
        if ch == '[' { reply, next := ReadVector(next); return; }
        if ch == '\'' || ch == '`' {
          next := Getc();
          if next == Eof { return Error, next; }
          reply, next := ReadQuoted(if ch == '\'' then "quote" else "backquote", next);
          return;
        }
        if ch == ',' {
          next := Getc();
          if next == Eof { return Error, next; }
          if next.c == '@' {
            assert left[1] == '@' && left[2..] == text[pos..];
            next := Getc();
            if next == Eof { return Error, next; }
            reply, next := ReadQuoted("backquote-splice", next);
          } else {
            reply, next := ReadQuoted("backquote-unquote", next);
          }
          return;
        }
        if ch == '"' { return Unmodelled, next; }
        if ch == '#' {
          next := Getc();
          if next == Eof { return Error, next; }
          assert left[1] == next.c && left[2..] == text[pos..];
          if next.c == '(' { reply, next := ReadVector(next); return; }
          if ForeignPrefix(next.c) { return Unmodelled, next; }
          if !NumberPrefix(next.c) { return Error, next; }
          Ungetc();
          next := Char('#');
        }
        reply, next := ReadIdentifier(next);
        return;
      }
    }

    /** Reading what was printed gives the same data back, and what follows it is still to be read, exactly
        when everything in the tree is in its place and the names of all its symbols are readable. */
    method ReadBack(d: Datum, tail: string) returns (reply: Reply, next: Look)
      requires Printable(d) && (LispData.Atom(d) ==> LispSymbols.Ends(tail))
      requires pos <= |text| && text[pos..] == Print(d) + tail
      modifies this`pos
      ensures pos <= |text|
      ensures reply == Form(d) && Valid(next) && Left(next) == tail <==> LispLost.Placed(d) && LispLost.AllReadable(d)
    {
      hide Print, LispText.Readl, LispLost.Placed, LispLost.AllReadable;
      var c := Getc();
      LispLost.TreeReadsBack(d, tail);
      reply, next := Readl(c);
    }
  }

  datatype Reply = Form(d: Datum) | Error | Unmodelled

  // ----- What the scanner does with one character -----

  predicate Radix(r: int)
  {
    r == 2 || r == 8 || r == 10 || r == 16
  }

  /** The radix and sign of a token are always among the ones that the number parser knows. */
  predicate Sound(t: Scan)
  {
    (t.radix == -1 || t.radix == 0 || Radix(t.radix)) && (t.sign == 1 || t.sign == -1)
  }

  lemma StartSound()
    ensures Sound(START)
  {
  }

  predicate SymbolRead(r: Outcome, d: Option<Datum>, rest: string)
  {
    match r
    case Read(v, left) => d == Some(v) && rest == left
    case _ => d == None
  }

  lemma PutSound(t: Scan, c: char)
    requires Sound(t)
    ensures Sound(Put(t, c))
  {
    SpeculateSound(t, c);
    hide Speculate;
  }

  lemma SpeculateSound(t: Scan, c: char)
    requires Sound(t)
    ensures Sound(Speculate(t, c))
  {
    hide Digit, Prefixed, InNumber;
    PrefixedSound(t, c);
    InNumberSound(t, c);
  }

  lemma InNumberSound(t: Scan, c: char)
    requires Sound(t)
    ensures Sound(InNumber(t, c))
  {
    hide InRadix;
    InRadixSound(t, c);
  }

  lemma PrefixedSound(t: Scan, c: char)
    requires Sound(t)
    ensures Sound(Prefixed(t, c))
  {
  }

  lemma InRadixSound(t: Scan, c: char)
    requires Sound(t)
    ensures Sound(InRadix(t, c))
  {
  }

  lemma PutStep(t: Scan, left: string)
    requires Sound(t) && left != "" && !Delimiter(left[0]) && left[0] != '\\' && left[0] != '|'
    requires !(left[0] == '#' && t.radix == 0)
    ensures ScanFrom(t, left) == ScanFrom(Put(t, left[0]), left[1..]) && Sound(Put(t, left[0]))
  {
    PutSound(t, left[0]);
    hide Put, Sound, Delimiter, Quoted;
  }

  lemma BackslashStep(t: Scan, left: string)
    requires Sound(t) && left != "" && left[0] == '\\'
    ensures var body := left[1..];
      if body == "" then ScanFrom(t, left) == Broken
      else ScanFrom(t, left) == ScanFrom(Quoted(t, [body[0]]), body[1..]) && Sound(Quoted(t, [body[0]]))
  {
    var body := left[1..];
    if body != "" {
      assert left[1..2] == [body[0]];
      assert left[2..] == body[1..];
    }
  }

  lemma BarsStep(t: Scan, left: string)
    requires Sound(t) && left != "" && left[0] == '|'
    ensures var body := left[1..];
      var k := BarRun(body);
      if k == |body| then ScanFrom(t, left) == Broken
      else ScanFrom(t, left) == ScanFrom(Quoted(t, body[..k]), body[k + 1..]) && Sound(Quoted(t, body[..k]))
  {
    var body := left[1..];
    var k := BarRun(body);
    if k < |body| {
      assert left[1..k + 1] == body[..k];
      assert left[k + 2..] == body[k + 1..];
    }
  }

  lemma EndStep(t: Scan, left: string)
    requires left == "" || Delimiter(left[0]) || (left[0] == '#' && t.radix == 0)
    ensures ScanFrom(t, left) == Ended(t, left)
  {
  }

  lemma SymbolIs(input: string, t: Scan, rest: string)
    requires ScanFrom(START, input) == Ended(t, rest)
    ensures SymbolRead(LispText.ReadSymbol(input), Token(t), rest)
  {
  }

  lemma Unread(input: string)
    requires ScanFrom(START, input) == Broken
    ensures LispText.ReadSymbol(input) == Failed
    ensures forall d: Option<Datum>, rest :: SymbolRead(Failed, d, rest) <==> d == None
  {
  }

  ghost predicate InBar(text: string, base: int, at: int, t: Scan, u: Scan)
  {
    0 <= base <= at <= |text| && u == Quoted(t, text[base..at]) && forall i :: base <= i < at ==> text[i] != '|'
  }

  lemma BarStart(text: string, base: int, t: Scan)
    requires 0 <= base <= |text|
    ensures InBar(text, base, base, t, t.(radix := 0))
  {
    assert t.buf + text[base..base] == t.buf;
  }

  lemma BarStep(text: string, base: int, at: int, t: Scan, u: Scan)
    requires InBar(text, base, at, t, u) && at < |text| && text[at] != '|'
    ensures InBar(text, base, at + 1, t, u.(buf := u.buf + [text[at]]))
  {
    assert text[base..at + 1] == text[base..at] + [text[at]];
  }

  lemma BarIs(text: string, base: int, at: int, t: Scan, u: Scan)
    requires InBar(text, base, at, t, u) && (at < |text| ==> text[at] == '|')
    ensures var body := text[base..];
      BarRun(body) == at - base && u == Quoted(t, body[..at - base]) &&
      (at < |text| ==> text[at + 1..] == body[at - base + 1..])
  {
    var body := text[base..];
    assert body[..at - base] == text[base..at];
    BarRunIs(body, at - base);
  }

  lemma {:induction false} BarRunIs(body: string, k: nat)
    requires k <= |body| && (k < |body| ==> body[k] == '|') && forall i :: 0 <= i < k ==> body[i] != '|'
    ensures BarRun(body) == k
  {
    if k > 0 { BarRunIs(body[1..], k - 1); }
  }

  // ----- Short integers stay in range -----

  lemma NoDigits(radix: int, text: string)
    ensures Value(radix, text[..0]) == 0
  {
  }

  lemma ValueStep(radix: int, text: string, i: nat)
    requires i < |text|
    ensures Value(radix, text[..i + 1]) == Value(radix, text[..i]) * radix + DigitValue(text[i])
  {
    assert text[..i + 1][..i] == text[..i];
  }

  function Power(b: nat, n: nat): nat
  {
    if n == 0 then 1 else b * Power(b, n - 1)
  }

  lemma {:induction false} ValueBound(radix: nat, s: string)
    requires forall i :: 0 <= i < |s| ==> DigitValue(s[i]) < radix
    ensures 0 <= Value(radix, s) < Power(radix, |s|)
  {
    if s != "" {
      var n := |s| - 1;
      ValueBound(radix, s[..n]);
      var v, p := Value(radix, s[..n]), Power(radix, n);
      LastDigit(radix, v, p, DigitValue(s[n]));
    }
  }

  lemma LastDigit(radix: nat, v: nat, p: nat, d: nat)
    requires v < p && d < radix
    ensures 0 <= v * radix + d < radix * p
  {
    NumberTheory.MulSign(radix, v);
    NumberTheory.MulSign(radix, p - 1 - v);
    assert radix * (p - 1 - v) == radix * p - radix - v * radix;
  }

  lemma {:induction false} PowerAdd(b: nat, m: nat, n: nat)
    ensures Power(b, m + n) == Power(b, m) * Power(b, n)
  {
    if m > 0 {
      PowerAdd(b, m - 1, n);
      Associate(b, Power(b, m - 1), Power(b, n));
    }
  }

  lemma Associate(a: int, b: int, c: int)
    ensures a * (b * c) == (a * b) * c
  {
  }

  lemma {:induction false} PowerMonotone(b: nat, m: nat, n: nat)
    requires b > 0 && m <= n
    ensures 0 < Power(b, m) <= Power(b, n)
  {
    if m > 0 {
      PowerMonotone(b, m - 1, n - 1);
      NumberTheory.MulSign(b, Power(b, n - 1) - Power(b, m - 1));
      NumberTheory.MulBound(b, Power(b, m - 1));
    } else if n > 0 {
      PowerMonotone(b, 0, n - 1);
      NumberTheory.MulBound(b, Power(b, n - 1));
    }
  }

  function Bits(radix: int, len: nat): nat
  {
    if radix == 2 then len else if radix == 8 then len * 3 else if radix == 10 then len * 27 / 8 else len * 4
  }

  lemma Limits()
    ensures Power(2, 61) <= 0x2000_0000_0000_0000 && Power(8, 20) <= 0x2000_0000_0000_0000
    ensures Power(10, 18) <= 0x2000_0000_0000_0000 && Power(16, 15) <= 0x2000_0000_0000_0000
  {
    PowersOfTwo();
    PowerAdd(10, 9, 9);
    PowersOfTen();
    hide Power;
  }

  lemma PowersOfTen()
    ensures Power(10, 9) == 1_000_000_000
  {
    assert Power(10, 1) == 10 && Power(10, 2) == 100;
    PowerAdd(10, 2, 2);
    PowerAdd(10, 4, 4);
    PowerAdd(10, 8, 1);
    hide Power;
  }

  /** 2^61, 8^20 and 16^15. */
  lemma PowersOfTwo()
    ensures Power(2, 61) == 0x2000_0000_0000_0000
    ensures Power(8, 20) == 0x1000_0000_0000_0000 == Power(16, 15)
  {
    SmallPowers();
    PowerAdd(2, 15, 15);
    PowerAdd(2, 30, 30);
    PowerAdd(2, 60, 1);
    PowerAdd(8, 5, 5);
    PowerAdd(8, 10, 10);
    PowerAdd(16, 5, 5);
    PowerAdd(16, 10, 5);
    hide Power;
  }

  lemma SmallPowers()
    ensures Power(2, 1) == 2 && Power(2, 15) == 0x8000 && Power(8, 5) == 0x8000 && Power(16, 5) == 0x10_0000
  {
    PowerAdd(2, 5, 5);
    PowerAdd(2, 10, 5);
    assert Power(2, 5) == 32;
    assert Power(8, 5) == 8 * Power(8, 4) && Power(8, 4) == 4096;
    assert Power(16, 5) == 16 * Power(16, 4) && Power(16, 4) == 65536;
  }

  lemma FewDigits(radix: int, text: string)
    requires Radix(radix) && DigitsOf(radix, text) && Bits(radix, |text|) < 62
    ensures NumberTower.InRange(Value(radix, text)) && NumberTower.InRange(-Value(radix, text))
  {
    ValueBound(radix, text);
    Limits();
    PowerMonotone(radix, |text|, if radix == 2 then 61 else if radix == 8 then 20 else if radix == 10 then 18 else 15);
  }
}
