/** Written forms of data, character by character: laws on texts that pin what printer and reader agree on. */
module LispSyntax {
  import opened LispText

  // ----- Printed lists, vectors and numbers -----

  /** The printed items with a space between any two. */
  function Joined(items: seq<Datum>): string
    requires items != [] && forall i :: 0 <= i < |items| ==> Printable(items[i])
  {
    if |items| == 1 then Print(items[0]) else Print(items[0]) + " " + Joined(items[1..])
  }

  /** `(a b c)`, `(a b . c)` */
  lemma {:induction false} ListPrints(items: seq<Datum>, tail: Datum)
    requires items != [] && (forall i :: 0 <= i < |items| ==> Printable(items[i])) && Printable(tail) && !tail.Cons?
    ensures var d := Build(items, tail);
      Printable(d) && Print(d) == "(" + Joined(items) + if tail.Nil? then ")" else " . " + Print(tail) + ")"
  {
    PairsPrint(items, tail);
  }

  lemma {:induction false} PairsPrint(items: seq<Datum>, tail: Datum)
    requires items != [] && (forall i :: 0 <= i < |items| ==> Printable(items[i])) && Printable(tail) && !tail.Cons?
    ensures var d := Build(items, tail);
      d.Cons? && Printable(d) &&
      PrintPairs(d) == Joined(items) + if tail.Nil? then ")" else " . " + Print(tail) + ")"
  {
    hide Print;
    if |items| == 1 {
      assert Build(items[1..], tail) == tail;
    } else {
      PairsPrint(items[1..], tail);
    }
  }

  /** `[a b c]`, and `()` and `[]` for nothing */
  lemma {:induction false} VectorPrints(items: seq<Datum>)
    requires forall i :: 0 <= i < |items| ==> Printable(items[i])
    ensures Print(Vector(items)) == if items == [] then "[]" else "[" + Joined(items) + "]"
    ensures Print(Nil) == "()"
  {
    if items != [] { ItemsPrint(items); }
  }

  lemma {:induction false} ItemsPrint(items: seq<Datum>)
    requires items != [] && forall i :: 0 <= i < |items| ==> Printable(items[i])
    ensures PrintItems(items) == Joined(items) + "]"
  {
    hide Print;
    if |items| > 1 { ItemsPrint(items[1..]); }
  }

  /** Decimal digits, the most significant first, after a minus sign for negative numbers. */
  lemma NumeralPrints(n: int, d: nat)
    requires d < 10
    ensures Print(Int(d)) == ["0123456789"[d]]
    ensures n > 0 ==> Print(Int(10 * n + d)) == Print(Int(n)) + ["0123456789"[d]]
    ensures n > 0 ==> Print(Int(-n)) == "-" + Print(Int(n))
  {
    if n > 0 {
      assert (10 * n + d) / 10 == n && (10 * n + d) % 10 == d;
    }
  }

  /** A name without special characters that does not look like a number is printed as it is, ... */
  lemma {:induction false} PlainNamePrints(name: string)
    requires (forall i :: 0 <= i < |name| ==> !Special(name[i])) && !NumberLike(name)
    ensures Print(Symbol(name)) == name
  {
    hide NumberLike;
    NoNulLength(name);
    EscapedPlain(name);
    assert name[..|name|] == name;
  }

  lemma {:induction false} NoNulLength(name: string)
    requires forall i :: 0 <= i < |name| ==> name[i] != NUL
    ensures CLength(name) == |name|
  {
    if name != "" { NoNulLength(name[1..]); }
  }

  lemma {:induction false} EscapedPlain(name: string)
    requires forall i :: 0 <= i < |name| ==> !Special(name[i])
    ensures Escaped(name) == name
  {
    if name != "" {
      EscapedPlain(name[1..]);
      assert [name[0]] + name[1..] == name;
    }
  }

  // ----- Reading -----

  /** The four abbreviations. */
  lemma AbbreviationsRead(s: string, d: Datum, rest: string)
    requires Readl(s) == Read(d, rest)
    ensures Readl("'" + s) == Read(Cons(Symbol("quote"), Cons(d, Nil)), rest)
    ensures Readl("`" + s) == Read(Cons(Symbol("backquote"), Cons(d, Nil)), rest)
    ensures Readl(",@" + s) == Read(Cons(Symbol("backquote-splice"), Cons(d, Nil)), rest)
    ensures s == "" || s[0] != '@' ==> Readl("," + s) == Read(Cons(Symbol("backquote-unquote"), Cons(d, Nil)), rest)
  {
    NonEmpty(s);
    Quotes(s, d, rest);
    Splice(s, d, rest);
    if s[0] != '@' { Comma(s, d, rest); }
  }

  lemma NonEmpty(s: string)
    requires Readl(s).Read?
    ensures s != ""
  {
    hide ReadList, ReadIdentifier, Wrapped;
  }

  lemma Quotes(s: string, d: Datum, rest: string)
    requires s != "" && Readl(s) == Read(d, rest)
    ensures Readl("'" + s) == Read(Cons(Symbol("quote"), Cons(d, Nil)), rest)
    ensures Readl("`" + s) == Read(Cons(Symbol("backquote"), Cons(d, Nil)), rest)
  {
    hide ReadList, ReadIdentifier, AfterLine;
    assert ("'" + s)[1..] == s && ("`" + s)[1..] == s;
  }

  lemma Comma(s: string, d: Datum, rest: string)
    requires s != "" && s[0] != '@' && Readl(s) == Read(d, rest)
    ensures Readl("," + s) == Read(Cons(Symbol("backquote-unquote"), Cons(d, Nil)), rest)
  {
    hide ReadList, ReadIdentifier, AfterLine;
    assert ("," + s)[1..] == s;
  }

  lemma Splice(s: string, d: Datum, rest: string)
    requires s != "" && Readl(s) == Read(d, rest)
    ensures Readl(",@" + s) == Read(Cons(Symbol("backquote-splice"), Cons(d, Nil)), rest)
  {
    hide ReadList, ReadIdentifier, AfterLine, AsVector;
    var t := ",@" + s;
    assert t[2..] == s && t[0] == ',' && t[1] == '@';
  }

  /** White space and comments in front of a form are skipped. */
  lemma {:induction false} SkippedRead(c: char, comment: string, s: string)
    requires White(c) && forall i :: 0 <= i < |comment| ==> comment[i] != '\n' && comment[i] != FF && comment[i] != '\r'
    ensures Readl([c] + s) == Readl(s) && Readl(";" + comment + "\n" + s) == Readl(s)
  {
    assert ([c] + s)[1..] == s;
    LineEnds(comment, s);
    assert (";" + comment + "\n" + s)[1..] == comment + "\n" + s;
  }

  lemma {:induction false} LineEnds(comment: string, s: string)
    requires forall i :: 0 <= i < |comment| ==> comment[i] != '\n' && comment[i] != FF && comment[i] != '\r'
    ensures AfterLine(comment + "\n" + s) == s
  {
    if comment != "" {
      LineEnds(comment[1..], s);
      assert (comment + "\n" + s)[1..] == comment[1..] + "\n" + s;
    } else {
      assert ("" + "\n" + s)[1..] == s;
    }
  }

  /** The radix that a letter after `#` stands for. */
  predicate RadixLetter(c: char, radix: int)
  {
    match radix
    case 2 => c == 'b' || c == 'B'
    case 8 => c == 'o' || c == 'O'
    case 10 => c == 'd' || c == 'D'
    case 16 => c == 'x' || c == 'X'
    case _ => false
  }

  /** What the scanner knows after the prefix. */
  function AfterPrefix(c: char, radix: int): Scan
  {
    START.(nfirst := 2, radix := radix, buf := ['#', c])
  }

  lemma PrefixScans(c: char, radix: int)
    requires RadixLetter(c, radix)
    ensures Put(Put(START, '#'), c) == AfterPrefix(c, radix)
  {
    assert [] + ['#'] == ['#'] && ['#'] + [c] == ['#', c];
  }

  lemma DigitPlain(radix: int, d: char)
    requires (radix == 2 || radix == 8 || radix == 10 || radix == 16) && DigitValue(d) < radix
    ensures HexDigit(d) && !Delimiter(d) && d != '\\' && d != '|' && d != '#' && d != '.' && d != '/' && !Sign(d)
    ensures radix <= 10 ==> '0' as int <= d as int <= '0' as int + radix - 1
    ensures radix == 10 ==> d != 'e' && d != 'E'
  {
  }

  lemma {:induction false} DigitsScan(t: Scan, c: char, radix: int, done: string, s: string)
    requires RadixLetter(c, radix) && t == AfterPrefix(c, radix).(buf := ['#', c] + done)
    requires forall i :: 0 <= i < |s| ==> DigitValue(s[i]) < radix
    ensures ScanFrom(t, s) == Ended(t.(buf := ['#', c] + (done + s)), "")
    decreases |s|
  {
    if s == "" {
      assert done + s == done;
    } else {
      DigitPlain(radix, s[0]);
      var u := Put(t, s[0]);
      assert u.buf == ['#', c] + (done + [s[0]]);
      assert u == t.(buf := u.buf);
      DigitsScan(u, c, radix, done + [s[0]], s[1..]);
      assert done + [s[0]] + s[1..] == done + s;
    }
  }

  /** `#b`, `#o`, `#d` and `#x` before digits: the integer they are in base 2, 8, 10 and 16. */
  lemma PrefixedReads(c: char, radix: int, s: string)
    requires RadixLetter(c, radix) && DigitsOf(radix, s)
    ensures Readl(['#', c] + s) == Read(Int(Value(radix, s)), "")
  {
    hide Put, Value, ScanFrom, Token, ReadSymbol, ReadList;
    var text, t := ['#', c] + s, AfterPrefix(c, radix);
    assert t == t.(buf := ['#', c] + []);
    DigitsScan(t, c, radix, [], s);
    assert [] + s == s;
    PrefixFirst(c, radix, s);
    IntegerToken(t.(buf := text), s);
    assert ReadSymbol(text) == Read(Int(Value(radix, s)), "") by { TokenReads(text, t.(buf := text), ""); }
    PrefixIsNumber(c, radix, s);
  }

  lemma PrefixFirst(c: char, radix: int, s: string)
    requires RadixLetter(c, radix)
    ensures ScanFrom(START, ['#', c] + s) == ScanFrom(AfterPrefix(c, radix), s)
  {
    hide Put;
    var text := ['#', c] + s;
    PrefixScans(c, radix);
    assert text[1..] == [c] + s && text[1..][1..] == s;
    Scans(START, text);
    ScanKeeps();
    Scans(Put(START, '#'), [c] + s);
    assert ([c] + s)[1..] == s;
  }

  /** The radix is still open after `#`. */
  lemma ScanKeeps()
    ensures Put(START, '#').radix == -1
  {
  }

  lemma Scans(t: Scan, s: string)
    requires s != "" && !Delimiter(s[0]) && s[0] != '\\' && s[0] != '|' && (s[0] == '#' ==> t.radix != 0)
    ensures ScanFrom(t, s) == ScanFrom(Put(t, s[0]), s[1..])
  {
    hide Put;
  }

  lemma TokenReads(s: string, t: Scan, rest: string)
    requires ScanFrom(START, s) == Ended(t, rest) && Token(t).Some?
    ensures ReadSymbol(s) == Read(Token(t).value, rest)
  {
    hide ScanFrom, Token;
  }

  lemma PrefixIsNumber(c: char, radix: int, s: string)
    requires RadixLetter(c, radix)
    requires var r := ReadSymbol(['#', c] + s); r.Read? && !r.d.Symbol?
    ensures Readl(['#', c] + s) == ReadSymbol(['#', c] + s)
  {
    hide ReadSymbol, ReadList;
  }

  lemma IntegerToken(t: Scan, s: string)
    requires t.exact && !t.rational && t.force == 0 && t.sign == 1 && t.radix > 0 && t.nfirst == 2
    requires |t.buf| == |s| + 2 && t.buf[2..] == s && DigitsOf(t.radix, s)
    ensures Token(t) == Some(Int(Value(t.radix, s)))
  {
    hide Value;
  }
}
