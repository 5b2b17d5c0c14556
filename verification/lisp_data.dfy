/** What reading a printed tree gives. */
module LispData {
  import opened LispText
  import opened LispSymbols

  // ----- Integers -----

  lemma {:induction false} DigitsMean(n: nat)
    ensures AllDigits(Digits(n)) && Value(10, Digits(n)) == n
  {
    if n < 10 {
      OneDigit(n);
    } else {
      DigitsMean(n / 10);
      MoreDigits(Digits(n / 10), n % 10);
    }
  }

  lemma OneDigit(d: nat)
    requires d < 10
    ensures AllDigits([DigitChar(d)]) && Value(10, [DigitChar(d)]) == d
  {
    assert [DigitChar(d)][..0] == "";
  }

  lemma MoreDigits(s: string, d: nat)
    requires AllDigits(s) && d < 10
    ensures AllDigits(s + [DigitChar(d)]) && Value(10, s + [DigitChar(d)]) == Value(10, s) * 10 + d
  {
    assert (s + [DigitChar(d)])[..|s|] == s;
  }

  lemma {:induction false} ScanDigits(t: Scan, s: string, tail: string)
    requires Ends(tail) && forall i :: 0 <= i < |s| ==> !Special(s[i])
    ensures ScanFrom(t, s + tail) == Ended(Run(t, s), tail)
    decreases |s|
  {
    EscapedPlain(s);
    ScanEscaped(t, s, tail);
  }

  lemma {:induction false} EscapedPlain(s: string)
    requires forall i :: 0 <= i < |s| ==> !Special(s[i])
    ensures Escaped(s) == s
  {
    if s != "" { EscapedPlain(s[1..]); }
  }

  lemma NumeralPlain(n: int)
    ensures var s := Numeral(n); forall i :: 0 <= i < |s| ==> !Special(s[i])
  {
    DigitsMean(if n < 0 then -n else n);
  }

  lemma NumeralRun(n: int)
    ensures var m, f := if n < 0 then 1 else 0, Run(START, Numeral(n));
      f.radix == 10 && f.nfirst == m && KindOf(f) == Integer && f.force == 0 && f.buf == Numeral(n) &&
      f.sign == (if n < 0 then -1 else 1)
  {
    hide Run, Digits;
    var ds := Digits(if n < 0 then -n else n);
    DigitsMean(if n < 0 then -n else n);
    if n < 0 {
      RunOne(START, '-', ds);
      assert Numeral(n) == ['-'] + ds;
      PutSign(0, 1, "", '-');
      assert START == AfterSigns(0, 1, "");
      assert "" + ['-'] == ['-'];
      AfterSignsFresh(1, -1, "-");
      IntegerRun(AfterSigns(1, -1, "-"), ds);
    } else {
      AfterSignsFresh(0, 1, "");
      IntegerRun(START, ds);
      assert "" + ds == ds;
    }
  }

  /** A printed integer reads as itself. */
  lemma IntegerReadsBack(n: int, tail: string)
    requires Ends(tail)
    ensures ReadIdentifier(Numeral(n) + tail) == Read(Int(n), tail)
  {
    hide Run, Digits, ScanFrom;
    var s, f := Numeral(n), Run(START, Numeral(n));
    NumeralPlain(n);
    ScanDigits(START, s, tail);
    NumeralRun(n);
    var a := if n < 0 then -n else n;
    DigitsMean(a);
    assert s[f.nfirst..] == Digits(a);
    TenDigits(Digits(a));
  }

  // ----- One step of the list reader -----

  lemma ListElement(s: string, items: seq<Datum>, tail: Datum)
    requires s != "" && !White(s[0]) && s[0] != ';' && s[0] != ')' && s[0] != ']'
    requires s[0] == '.' ==> |s| > 1 && !White(s[1])
    requires s[0] == '#' ==> |s| > 1 && s[1] != '|'
    ensures ReadList(s, items, tail) ==
      var r := Readl(s); if r.Read? then ReadList(r.rest, items + [r.d], Nil) else r
  {
  }

  lemma ListWhite(s: string, items: seq<Datum>, tail: Datum)
    requires s != "" && White(s[0])
    ensures ReadList(s, items, tail) == ReadList(s[1..], items, tail)
  {
  }

  lemma ListLine(s: string, items: seq<Datum>, tail: Datum)
    requires s != "" && s[0] == ';'
    ensures ReadList(s, items, tail) == ReadList(AfterLine(s[1..]), items, tail)
  {
  }

  lemma ListClose(s: string, items: seq<Datum>, tail: Datum)
    requires s != "" && (s[0] == ')' || s[0] == ']')
    ensures ReadList(s, items, tail) == Read(Build(items, tail), s[1..])
  {
  }

  /** A dot, and then white space. */
  lemma ListDotted(s: string, items: seq<Datum>, tail: Datum)
    requires |s| > 1 && s[0] == '.' && White(s[1])
    ensures ReadList(s, items, tail) ==
      if items == [] then Failed
      else var r := Readl(s[1..]); if r.Read? then ReadList(r.rest, items, r.d) else r
  {
  }

  /** A list that the input breaks off. */
  lemma ListBroken(s: string, items: seq<Datum>, tail: Datum)
    ensures s == "" || s == "." ==> ReadList(s, items, tail) == Failed
    ensures s == "#" ==> ReadList(s, items, tail) == Read(Build(items, tail), s)
    ensures |s| > 1 && s[0] == '#' && s[1] == '|' ==> ReadList(s, items, tail) == Foreign
  {
  }

  lemma ListSpace(s: string, items: seq<Datum>, tail: Datum)
    ensures ReadList(" " + s, items, tail) == ReadList(s, items, tail)
  {
    assert (" " + s)[1..] == s;
    ListWhite(" " + s, items, tail);
  }

  lemma ListEnd(c: char, s: string, items: seq<Datum>, tail: Datum)
    requires c == ')' || c == ']'
    ensures ReadList([c] + s, items, tail) == Read(Build(items, tail), s)
  {
    assert ([c] + s)[1..] == s;
    ListClose([c] + s, items, tail);
  }

  lemma {:induction false} BuildSnoc(items: seq<Datum>, d: Datum, tail: Datum)
    ensures Build(items + [d], tail) == Build(items, Cons(d, tail))
  {
    if items == [] {
      assert (items + [d])[1..] == [];
    } else {
      assert (items + [d])[1..] == items[1..] + [d];
      BuildSnoc(items[1..], d, tail);
    }
  }

  lemma {:induction false} ElementsOfBuild(items: seq<Datum>)
    ensures Elements(Build(items, Nil)) == items
  {
    if items != [] { ElementsOfBuild(items[1..]); }
  }

  // ----- Elements -----

  const DOT: Datum := Symbol(".")

  /** A symbol that is printed as nothing. */
  predicate Blank(d: Datum)
  {
    d.Symbol? && CName(d.name) == ""
  }

  /** A symbol that is printed as a dot. */
  predicate Dotty(d: Datum)
  {
    d.Symbol? && CName(d.name) == "."
  }

  predicate Atom(d: Datum)
  {
    d.Symbol? || d.Int?
  }

  predicate AtomStart(c: char)
  {
    c != '(' && c != '[' && c != '\'' && c != '`' && c != ',' && c != '"'
  }

  lemma BlankText(d: Datum)
    requires Blank(d)
    ensures Print(d) == ""
  {
  }

  /** What the text of an element begins with. */
  lemma ElementStart(d: Datum)
    requires Printable(d) && !Blank(d)
    ensures var s := Print(d);
      s != "" && !White(s[0]) && s[0] != ';' && s[0] != ')' && s[0] != ']' && s[0] != '#' &&
      if Dotty(d) then s == "." else s[0] == '.' ==> |s| > 1 && !White(s[1])
    ensures Atom(d) ==> AtomStart(Print(d)[0])
  {
    hide CName, NameText;
    match d
    case Symbol(name) => SymbolStart(CName(name));
    case Int(n) => DigitsMean(if n < 0 then -n else n);
    case _ =>
  }

  lemma SymbolStart(name: string)
    requires name != ""
    ensures var s := NameText(name);
      s != "" && (s[0] == '\\' || !Special(s[0])) &&
      if name == "." then s == "." else s[0] == '.' ==> |s| > 1 && !White(s[1])
  {
    if name == "." {
      EscapedPlain(name);
    } else if !NumberLike(name) && name[0] == '.' {
      assert Escaped(name)[1] == Escaped(name[1..])[0];
    }
  }

  lemma ReadlIsIdentifier(s: string)
    requires s != "" && !White(s[0]) && s[0] != ';' && s[0] != '#' && AtomStart(s[0])
    ensures Readl(s) == ReadIdentifier(s)
  {
  }

  lemma ReadAtom(d: Datum, tail: string)
    requires Atom(d) && !Blank(d) && Ends(tail)
    ensures Readl(Print(d) + tail) == Found(Seen(d), tail)
  {
    hide Readl, ReadIdentifier, Final, Token, SymbolText, Numeral, SymbolToken;
    ElementStart(d);
    var s := Print(d) + tail;
    assert s[0] == Print(d)[0];
    ReadlIsIdentifier(s);
    match d
    case Symbol(name) => SymbolReadsBack(name, tail);
    case Int(n) => IntegerReadsBack(n, tail);
  }

  // ----- What is seen of a tree -----

  function TreeSize(d: Datum): (n: nat)
    ensures n > 0
  {
    match d
    case Cons(a, b) => TreeSize(a) + TreeSize(b) + 2
    case Vector(items) => 1 + SeqSize(items)
    case _ => 1
  }

  function SeqSize(es: seq<Datum>): nat
  {
    if es == [] then 0 else TreeSize(es[0]) + SeqSize(es[1..])
  }

  /** What is printed between the parentheses of a list: its elements and, if it does not end in the empty
      list, a dot and what it ends in. */
  function Pieces(d: Datum): (es: seq<Datum>)
    requires d.Cons?
    ensures SeqSize(es) < TreeSize(d) && es != []
  {
    var more := if d.cdr.Cons? then Pieces(d.cdr) else if d.cdr.Nil? then [] else [DOT, d.cdr];
    assert ([d.car] + more)[1..] == more;
    assert d.cdr.Cons? || d.cdr.Nil? || more[1..] == [d.cdr];
    assert [d.cdr][1..] == [] && SeqSize([d.cdr]) == TreeSize(d.cdr);
    assert TreeSize(DOT) == 1 && SeqSize(more) <= TreeSize(d.cdr) + 1;
    [d.car] + more
  }

  /** What reading the printed tree gives, if anything. */
  function Seen(d: Datum): Option<Datum>
    decreases TreeSize(d), 1
  {
    match d
    case Cons(_, _) => Take(Pieces(d), [], Nil)
    case Vector(items) =>
      var r := Take(items, [], Nil);
      if r.Some? then Some(Vector(Elements(r.value))) else None
    case Symbol(name) => SymbolToken(name)
    case _ => Some(d)
  }

  /** What the list reader makes of printed elements, after those in `items`, of which the last is followed
      by `tail`. */
  function Take(es: seq<Datum>, items: seq<Datum>, tail: Datum): Option<Datum>
    decreases SeqSize(es), 2
  {
    if es == [] then Some(Build(items, tail))
    else
      var more := es[1..];
      if Blank(es[0]) then Take(more, items, tail)
      else if Dotty(es[0]) && more != [] then if items == [] then None else TakeTail(more, items)
      else
        var v := Seen(es[0]);
        if v.Some? then Take(more, items + [v.value], Nil) else None
  }

  /** After a dot. */
  function TakeTail(es: seq<Datum>, items: seq<Datum>): Option<Datum>
    decreases SeqSize(es), 2
  {
    if es == [] then None
    else if Blank(es[0]) then TakeTail(es[1..], items)
    else
      var v := Seen(es[0]);
      if v.Some? then Take(es[1..], items, v.value) else None
  }

  function Found(r: Option<Datum>, rest: string): Outcome
  {
    if r.Some? then Read(r.value, rest) else Failed
  }

  // ----- The text of a list or vector -----

  predicate AllPrintable(es: seq<Datum>)
  {
    forall i :: 0 <= i < |es| ==> Printable(es[i])
  }

  /** Elements with spaces between them, and the closing bracket. */
  function Body(es: seq<Datum>, close: char): string
    requires AllPrintable(es)
    decreases |es|, 1
  {
    if es == [] then [close] else Print(es[0]) + After(es, close)
  }

  /** The text after the first element. */
  function After(es: seq<Datum>, close: char): string
    requires AllPrintable(es) && es != []
    decreases |es|, 0
  {
    if |es| == 1 then [close] else " " + Body(es[1..], close)
  }

  lemma {:induction false} PiecesText(d: Datum)
    requires d.Cons? && Printable(d)
    ensures AllPrintable(Pieces(d)) && PrintPairs(d) == Body(Pieces(d), ')')
  {
    hide Print;
    var es := Pieces(d);
    if d.cdr.Cons? {
      PiecesText(d.cdr);
      assert es[1..] == Pieces(d.cdr);
    } else if d.cdr.Nil? {
    } else {
      var last := es[1..];
      assert last == [DOT, d.cdr] && last[1..] == [d.cdr];
      DotText();
      assert Body(last[1..], ')') == Print(d.cdr) + ")";
      assert Body(last, ')') == "." + (" " + (Print(d.cdr) + ")"));
      DottedEnd(Print(d.cdr));
    }
  }

  lemma DottedEnd(s: string)
    ensures " " + ("." + (" " + (s + ")"))) == " . " + s + ")"
  {
  }

  lemma DotText()
    ensures Dotty(DOT) && !Blank(DOT) && Print(DOT) == "."
  {
    WholeName(".");
    EscapedPlain(".");
  }

  lemma {:induction false} ItemsText(items: seq<Datum>)
    requires AllPrintable(items)
    ensures PrintItems(items) == Body(items, ']')
  {
    hide Print;
    if items != [] { ItemsText(items[1..]); }
  }

  predicate Closer(c: char)
  {
    c == ')' || c == ']'
  }

  lemma AfterStart(es: seq<Datum>, close: char, tail: string)
    requires AllPrintable(es) && es != [] && Closer(close)
    ensures var r := After(es, close) + tail; r != "" && r[0] == (if |es| == 1 then close else ' ') && Ends(r)
  {
    hide Body;
  }

  /** A space after an element makes no difference. */
  lemma ListAfter(es: seq<Datum>, close: char, tail: string, items: seq<Datum>, t: Datum)
    requires AllPrintable(es) && es != []
    ensures ReadList(After(es, close) + tail, items, t) == ReadList(Body(es[1..], close) + tail, items, t)
  {
    hide ReadList;
    if |es| > 1 {
      hide Body;
      var s := Body(es[1..], close) + tail;
      assert After(es, close) + tail == " " + s;
      ListSpace(s, items, t);
    }
  }

  lemma FormAfter(es: seq<Datum>, close: char, tail: string)
    requires AllPrintable(es) && es != []
    ensures Readl(After(es, close) + tail) == Readl(Body(es[1..], close) + tail)
  {
    hide Readl;
    if |es| > 1 {
      hide Body;
      var s := Body(es[1..], close) + tail;
      assert After(es, close) + tail == " " + s;
      FormSpace(s);
    }
  }

  lemma FormSpace(s: string)
    ensures Readl(" " + s) == Readl(s)
  {
    assert (" " + s)[1..] == s;
  }

  /** No form begins with a closing bracket. */
  lemma NoForm(close: char, tail: string)
    requires Closer(close)
    ensures Readl([close] + tail) == Failed
  {
    var s := [close] + tail;
    ReadlIsIdentifier(s);
    assert ScanFrom(START, s) == Ended(START, s);
  }

  lemma BodyText(es: seq<Datum>, close: char, tail: string)
    requires AllPrintable(es) && es != []
    ensures Body(es, close) + tail == Print(es[0]) + (After(es, close) + tail)
    ensures Blank(es[0]) ==> Body(es, close) + tail == After(es, close) + tail
  {
    hide Print, After;
    if Blank(es[0]) { BlankText(es[0]); }
  }

  // ----- Reading what was printed -----

  lemma Opens(c: char, s: string)
    requires c == '(' || c == '['
    ensures Readl([c] + s) == if c == '(' then ReadList(s, [], Nil) else AsVector(ReadList(s, [], Nil))
  {
    assert ([c] + s)[1..] == s;
  }

  /** Reading a printed tree gives what is seen of it, and leaves what follows. */
  lemma {:induction false} ReadPrinted(d: Datum, tail: string)
    requires Printable(d) && !Blank(d) && (Atom(d) ==> Ends(tail))
    ensures Readl(Print(d) + tail) == Found(Seen(d), tail)
    decreases TreeSize(d), 1
  {
    hide Readl, ReadList, Body;
    match d
    case Nil =>
      Opens('(', ")" + tail);
      assert Print(d) + tail == ['('] + (")" + tail);
      ListEnd(')', tail, [], Nil);
    case Cons(_, _) =>
      Opens('(', PrintPairs(d) + tail);
      assert Print(d) + tail == ['('] + (PrintPairs(d) + tail);
      PiecesText(d);
      ReadBody(Pieces(d), ')', tail, [], Nil);
    case Vector(items) =>
      Opens('[', PrintItems(items) + tail);
      assert Print(d) + tail == ['['] + (PrintItems(items) + tail);
      ItemsText(items);
      ReadBody(items, ']', tail, [], Nil);
    case _ =>
      ReadAtom(d, tail);
  }

  lemma {:induction false} ReadBody(es: seq<Datum>, close: char, tail: string, items: seq<Datum>, t: Datum)
    requires AllPrintable(es) && Closer(close)
    ensures ReadList(Body(es, close) + tail, items, t) == Found(Take(es, items, t), tail)
    decreases SeqSize(es), 2
  {
    hide Readl, ReadList, Print, After, Blank, Dotty, Build;
    if es == [] {
      ListEnd(close, tail, items, t);
    } else {
      hide Body;
      var e, more := es[0], es[1..];
      var rest := After(es, close) + tail;
      BodyText(es, close, tail);
      AfterStart(es, close, tail);
      if Blank(e) {
        ListAfter(es, close, tail, items, t);
        ReadBody(more, close, tail, items, t);
      } else if Dotty(e) && more != [] {
        DottyStep(e, rest, items, t);
        FormAfter(es, close, tail);
        if items != [] { ReadTail(more, close, tail, items); }
      } else {
        ReadPrinted(e, rest);
        ElementStep(e, rest, items, t);
        if Seen(e).Some? {
          ListAfter(es, close, tail, items + [Seen(e).value], Nil);
          ReadBody(more, close, tail, items + [Seen(e).value], Nil);
        }
      }
    }
  }

  /** A dot, and then a space. */
  lemma DottyStep(e: Datum, rest: string, items: seq<Datum>, t: Datum)
    requires Printable(e) && Dotty(e) && rest != "" && rest[0] == ' '
    ensures ReadList(Print(e) + rest, items, t) ==
      if items == [] then Failed
      else var r := Readl(rest); if r.Read? then ReadList(r.rest, items, r.d) else r
  {
    hide Readl, ReadList, Print;
    assert !Blank(e);
    ElementStart(e);
    var s := "." + rest;
    assert s[1..] == rest;
    ListDotted(s, items, t);
  }

  lemma ElementStep(e: Datum, rest: string, items: seq<Datum>, t: Datum)
    requires Printable(e) && !Blank(e) && (Dotty(e) ==> rest != "" && !White(rest[0]))
    requires Readl(Print(e) + rest) == Found(Seen(e), rest)
    ensures ReadList(Print(e) + rest, items, t) ==
      if Seen(e).Some? then ReadList(rest, items + [Seen(e).value], Nil) else Failed
  {
    hide Readl, ReadList, Print, Seen, Blank, Dotty;
    ElementStart(e);
    var s := Print(e) + rest;
    assert s[0] == Print(e)[0];
    if Dotty(e) { assert s[1] == rest[0]; } else if |Print(e)| > 1 { assert s[1] == Print(e)[1]; }
    ListElement(s, items, t);
  }

  /** After a dot, one form is read and the list goes on. */
  lemma {:induction false} ReadTail(es: seq<Datum>, close: char, tail: string, items: seq<Datum>)
    requires AllPrintable(es) && Closer(close)
    ensures var r := Readl(Body(es, close) + tail);
      (if r.Read? then ReadList(r.rest, items, r.d) else r) == Found(TakeTail(es, items), tail)
    decreases SeqSize(es), 2
  {
    hide Readl, ReadList, Print, After, Blank, Build;
    if es == [] {
      NoForm(close, tail);
    } else {
      hide Body;
      var e, more := es[0], es[1..];
      var rest := After(es, close) + tail;
      BodyText(es, close, tail);
      AfterStart(es, close, tail);
      if Blank(e) {
        FormAfter(es, close, tail);
        ReadTail(more, close, tail, items);
      } else {
        ReadPrinted(e, rest);
        if Seen(e).Some? {
          ListAfter(es, close, tail, items, Seen(e).value);
          ReadBody(more, close, tail, items, Seen(e).value);
        }
      }
    }
  }
}
