/** Printed and read forms of Lisp data. */
module LispText {

  datatype Kind = Integer | Ratio | Float

  /** Numbers other than integers are kept as what the number parser was given. */
  datatype Datum =
    | Nil
    | Cons(car: Datum, cdr: Datum)
    | Vector(items: seq<Datum>)
    | Int(n: int)
    | Symbol(name: string)
    | Real(kind: Kind, text: string, radix: int, sign: int, force: int)

  // ----- Characters -----

  const FF: char := '\U{0C}'
  const VT: char := '\U{0B}'

  predicate White(c: char)
  {
    c == ' ' || c == '\t' || c == '\n' || c == FF || c == '\r'
  }

  /** What ends a symbol. */
  predicate Delimiter(c: char)
  {
    White(c) || c == '(' || c == ')' || c == '[' || c == ']' || c == '\'' || c == '"' ||
    c == ';' || c == ',' || c == '`'
  }

  predicate Digit(c: char)
  {
    '0' <= c <= '9'
  }

  predicate HexDigit(c: char)
  {
    Digit(c) || 'a' <= c <= 'f' || 'A' <= c <= 'F'
  }

  predicate Sign(c: char)
  {
    c == '-' || c == '+'
  }

  /** What is printed after a backslash. */
  predicate Special(c: char)
  {
    Delimiter(c) || c == '\\' || c == '|' || c == '#' || c < ' ' || c == '\U{7F}'
  }

  // ----- Numerals -----

  /** The leading digits of a text. */
  function DigitRun(s: string): (k: nat)
    ensures k <= |s| && (forall i :: 0 <= i < k ==> Digit(s[i])) && (k < |s| ==> !Digit(s[k]))
  {
    if s == "" || !Digit(s[0]) then 0 else 1 + DigitRun(s[1..])
  }

  predicate AllDigits(s: string)
  {
    s != "" && forall i :: 0 <= i < |s| ==> Digit(s[i])
  }

  predicate ExponentPart(s: string)
  {
    s == "" ||
    ((s[0] == 'e' || s[0] == 'E') && AllDigits(if |s| > 1 && Sign(s[1]) then s[2..] else s[1..]))
  }

  /** Decimal numerals as strtod reads them, without a sign. */
  predicate Decimal(s: string)
  {
    var a := DigitRun(s);
    if a < |s| && s[a] == '.' then
      var b := DigitRun(s[a + 1..]);
      a + b > 0 && ExponentPart(s[a + 1 + b..])
    else a > 0 && ExponentPart(s[a..])
  }

  /** Digits, a slash and digits that are not all zero. */
  predicate RatioText(s: string)
  {
    var a := DigitRun(s);
    a > 0 && a + 1 < |s| && s[a] == '/' && AllDigits(s[a + 1..]) && exists i :: a < i < |s| && s[i] != '0'
  }

  /** A sign or white space, which strtod skips in front of a numeral. */
  function Trimmed(s: string): string
  {
    if s != "" && (White(s[0]) || s[0] == VT) then Trimmed(s[1..])
    else if s != "" && Sign(s[0]) then s[1..] else s
  }

  /** "0x", and hexadecimal digits before ".0". */
  predicate HexPointZero(s: string)
  {
    |s| >= 4 && s[0] == '0' && (s[1] == 'x' || s[1] == 'X') && s[|s| - 2..] == ".0" &&
    forall i :: 2 <= i < |s| - 2 ==> HexDigit(s[i])
  }

  /** Five characters ending in ".0" that the number parser takes for a float. */
  predicate PointZero(s: string)
  {
    s == "inf.0" || s == "nan.0" || Decimal(Trimmed(s)) || HexPointZero(Trimmed(s))
  }

  function DigitValue(c: char): nat
  {
    if Digit(c) then (c - '0') as nat
    else if 'a' <= c <= 'f' then (c - 'a') as nat + 10
    else if 'A' <= c <= 'F' then (c - 'A') as nat + 10
    else 99
  }

  predicate DigitsOf(radix: int, s: string)
  {
    s != "" && forall i :: 0 <= i < |s| ==> DigitValue(s[i]) < radix
  }

  function Value(radix: int, s: string): int
  {
    if s == "" then 0 else Value(radix, s[..|s| - 1]) * radix + DigitValue(s[|s| - 1])
  }

  function Slash(s: string): (k: nat)
    ensures k <= |s|
  {
    if s == "" || s[0] == '/' then 0 else 1 + Slash(s[1..])
  }

  /** Whether rep_parse_number accepts a text. */
  predicate Parses(kind: Kind, radix: int, s: string)
  {
    match kind
    case Integer => DigitsOf(radix, s)
    case Ratio =>
      var k := Slash(s);
      k < |s| && DigitsOf(radix, s[..k]) && DigitsOf(radix, s[k + 1..]) && Value(radix, s[k + 1..]) != 0
    case Float => Decimal(s)
  }

  // ----- Reading a symbol or a number -----

  /** What is known of a token: the characters so far, and how they would read as a number. */
  datatype Scan = Scan(radix: int, sign: int, nfirst: nat, exact: bool, rational: bool, exponent: bool,
                       hadSign: bool, expecting: bool, force: int, buf: string)

  const START: Scan := Scan(-1, 1, 0, true, false, false, false, false, 0, "")

  /** The character after "#". */
  function Prefixed(t: Scan, c: char): Scan
  {
    t.(expecting := false, nfirst := |t.buf| + 1, radix := PrefixRadix(t.radix, c), force := PrefixForce(t.force, c))
  }

  function PrefixRadix(radix: int, c: char): int
  {
    if c == 'b' || c == 'B' then 2
    else if c == 'o' || c == 'O' then 8
    else if c == 'd' || c == 'D' then 10
    else if c == 'x' || c == 'X' then 16
    else if c == 'e' || c == 'E' || c == 'i' || c == 'I' then radix
    else 0
  }

  function PrefixForce(force: int, c: char): int
  {
    if c == 'e' || c == 'E' then 1 else if c == 'i' || c == 'I' then -1 else force
  }

  function InRadix(t: Scan, c: char): Scan
  {
    if t.radix <= 10 && !('0' as int <= c as int <= '0' as int + t.radix - 1) then t.(radix := 0)
    else if t.radix == 16 && !HexDigit(c) then t.(radix := 0)
    else t
  }

  /** A character of what may be a number. */
  function Speculate(t: Scan, c: char): Scan
  {
    if t.expecting then Prefixed(t, c)
    else if |t.buf| == t.nfirst && (Sign(c) || c == '#') then
      var u := t.(nfirst := |t.buf| + 1);
      if c != '#' then u.(sign := if c == '-' then -1 else 1, hadSign := true)
      else if t.hadSign then u.(radix := 0)
      else u.(expecting := true)
    else if t.radix == -1 then
      t.(radix := if c == '.' || Digit(c) then 10 else 0, exact := t.exact && c != '.')
    else InNumber(t, c)
  }

  /** A character after the first of a number. */
  function InNumber(t: Scan, c: char): Scan
  {
    if c == '.' then
      if t.exact && t.radix == 10 && !t.rational then t.(exact := false) else t.(radix := 0)
    else if c == '/' then
      if t.exact && !t.rational then t.(rational := true) else t.(radix := 0)
    else if Sign(c) && t.exponent then t
    else if (c == 'e' || c == 'E') && t.radix == 10 then
      if !t.rational && !t.exponent then t.(exponent := true, exact := false) else t.(radix := 0)
    else InRadix(t, c)
  }

  function Put(t: Scan, c: char): (u: Scan)
    ensures u.buf == t.buf + [c]
  {
    (if t.radix != 0 then Speculate(t, c) else t).(buf := t.buf + [c])
  }

  function Quoted(t: Scan, s: string): Scan
  {
    t.(radix := 0, buf := t.buf + s)
  }

  function BarRun(s: string): (k: nat)
    ensures k <= |s| && (k < |s| ==> s[k] == '|')
  {
    if s == "" || s[0] == '|' then 0 else 1 + BarRun(s[1..])
  }

  datatype Scanned = Ended(t: Scan, rest: string) | Broken

  function ScanFrom(t: Scan, s: string): (r: Scanned)
    ensures r.Ended? ==> |r.rest| + |r.t.buf| <= |s| + |t.buf|
    decreases |s|
  {
    if s == "" || Delimiter(s[0]) || (s[0] == '#' && t.radix == 0) then Ended(t, s)
    else if s[0] == '\\' then
      if |s| == 1 then Broken else ScanFrom(Quoted(t, s[1..2]), s[2..])
    else if s[0] == '|' then
      var k := BarRun(s[1..]);
      if k + 1 == |s| then Broken else ScanFrom(Quoted(t, s[1..k + 1]), s[k + 2..])
    else ScanFrom(Put(t, s[0]), s[1..])
  }

  datatype Option<T> = None | Some(value: T)

  function NumberOf(kind: Kind, t: Scan): Datum
  {
    var text := if t.nfirst <= |t.buf| then t.buf[t.nfirst..] else "";
    if kind == Integer && t.force == 0 then Int(t.sign * Value(t.radix, text))
    else Real(kind, text, t.radix, t.sign, t.force)
  }

  function KindOf(t: Scan): Kind
  {
    if !t.exact then Float else if t.rational then Ratio else Integer
  }

  /** What the end of read_symbol makes of the token; nothing if it is empty. */
  function Token(t: Scan): (d: Option<Datum>)
    ensures d.Some? ==> t.buf != ""
  {
    if t.buf == "" then None
    else if t.radix > 0 && t.nfirst < |t.buf| then
      Some(if Parses(KindOf(t), t.radix, t.buf[t.nfirst..]) then NumberOf(KindOf(t), t) else Symbol(t.buf))
    else if |t.buf| == 6 && t.buf[4] == '.' && t.buf[5] == '0' && Sign(t.buf[0]) && PointZero(t.buf[1..]) then
      Some(Real(Float, t.buf[1..], 0, if t.buf[0] == '+' then 1 else -1, 0))
    else Some(Symbol(t.buf))
  }

  /** Foreign stands for syntax that this model does not interpret. */
  datatype Outcome = Read(d: Datum, rest: string) | Failed | Foreign

  /** read_symbol */
  function ReadSymbol(s: string): (r: Outcome)
    ensures r.Read? ==> |r.rest| < |s|
    ensures !r.Foreign?
  {
    var scanned := ScanFrom(START, s);
    if scanned.Broken? || Token(scanned.t).None? then Failed
    else Read(Token(scanned.t).value, scanned.rest)
  }

  /** A symbol, a number, or a symbol of a module. */
  function ReadIdentifier(s: string): (r: Outcome)
    ensures r.Read? ==> |r.rest| < |s|
    ensures !r.Foreign?
  {
    var r := ReadSymbol(s);
    if r.Read? && r.rest != "" && r.rest[0] == '#' && r.d.Symbol? then
      var v := ReadSymbol(r.rest[1..]);
      if v.Read? then Read(List3(Symbol("module-ref"), r.d, v.d), v.rest) else v
    else r
  }

  function List3(a: Datum, b: Datum, c: Datum): Datum
  {
    Cons(a, Cons(b, Cons(c, Nil)))
  }

  // ----- Reading -----

  function AfterLine(s: string): (r: string)
    ensures |r| <= |s|
  {
    if s == "" then "" else if s[0] == '\n' || s[0] == FF || s[0] == '\r' then s[1..] else AfterLine(s[1..])
  }

  function Build(items: seq<Datum>, tail: Datum): Datum
  {
    if items == [] then tail else Cons(items[0], Build(items[1..], tail))
  }

  function Elements(d: Datum): seq<Datum>
  {
    if d.Cons? then [d.car] + Elements(d.cdr) else []
  }

  function AsVector(r: Outcome): (v: Outcome)
  {
    if r.Read? then Read(Vector(Elements(r.d)), r.rest) else r
  }

  function Wrapped(name: string, r: Outcome): Outcome
  {
    if r.Read? then Read(Cons(Symbol(name), Cons(r.d, Nil)), r.rest) else r
  }

  predicate NumberPrefix(c: char)
  {
    c == 'b' || c == 'B' || c == 'o' || c == 'O' || c == 'd' || c == 'D' ||
    c == 'x' || c == 'X' || c == 'e' || c == 'E' || c == 'i' || c == 'I'
  }

  predicate ForeignPrefix(c: char)
  {
    c == '[' || c == '|' || c == '\\' || c == '!' || c == ':' ||
    c == 't' || c == 'T' || c == 'f' || c == 'F' || c == 'u'
  }

  /** readl, on what is left of the input, its lookahead first. */
  function Readl(s: string): (r: Outcome)
    ensures r.Read? ==> |r.rest| < |s|
    decreases |s|, 0
  {
    if s == "" then Failed
    else if White(s[0]) then Readl(s[1..])
    else if s[0] == ';' then Readl(AfterLine(s[1..]))
    else if s[0] == '(' then ReadList(s[1..], [], Nil)
    else if s[0] == '[' then AsVector(ReadList(s[1..], [], Nil))
    else if s[0] == '\'' || s[0] == '`' then
      if |s| == 1 then Failed else Wrapped(if s[0] == '\'' then "quote" else "backquote", Readl(s[1..]))
    else if s[0] == ',' then
      if |s| == 1 || (s[1] == '@' && |s| == 2) then Failed
      else if s[1] == '@' then Wrapped("backquote-splice", Readl(s[2..]))
      else Wrapped("backquote-unquote", Readl(s[1..]))
    else if s[0] == '"' then Foreign
    else if s[0] == '#' then
      if |s| == 1 then Failed
      else if s[1] == '(' then AsVector(ReadList(s[2..], [], Nil))
      else if ForeignPrefix(s[1]) then Foreign
      else if NumberPrefix(s[1]) then ReadIdentifier(s)
      else Failed
    else ReadIdentifier(s)
  }

  /** The loop of read_list, with the elements so far and what the last one is followed by. */
  function ReadList(s: string, items: seq<Datum>, tail: Datum): (r: Outcome)
    ensures r.Read? ==> |r.rest| <= |s|
    decreases |s|, 1
  {
    if s == "" then Failed
    else if White(s[0]) then ReadList(s[1..], items, tail)
    else if s[0] == ';' then ReadList(AfterLine(s[1..]), items, tail)
    else if s[0] == ')' || s[0] == ']' then Read(Build(items, tail), s[1..])
    else if s[0] == '.' && |s| == 1 then Failed
    else if s[0] == '.' && White(s[1]) then
      if items == [] then Failed else
      var r := Readl(s[1..]);
      if r.Read? then ReadList(r.rest, items, r.d) else r
    else if s[0] == '#' && |s| == 1 then Read(Build(items, tail), s)
    else if s[0] == '#' && s[1] == '|' then Foreign
    else
      var r := Readl(s);
      if r.Read? then ReadList(r.rest, items + [r.d], Nil) else r
  }

  // ----- Printing -----

  predicate NumberChar(c: char)
  {
    Digit(c) || c == '/' || c == '.'
  }

  /** The names, without NUL, that symbol_print takes for numbers. */
  predicate NumberLike(name: string)
  {
    name != "" && (Digit(name[0]) || Sign(name[0]) || name[0] == '.') &&
    (forall i :: 1 <= i < |name| ==> NumberChar(name[i])) && exists i :: 0 <= i < |name| && Digit(name[i])
  }

  function Escaped(name: string): string
  {
    if name == "" then "" else (if Special(name[0]) then "\\" else "") + [name[0]] + Escaped(name[1..])
  }

  function NameText(name: string): string
  {
    (if NumberLike(name) then "\\" else "") + Escaped(name)
  }

  const NUL: char := '\0'

  /** The length of a name as a C string. */
  function CLength(name: string): (k: nat)
    ensures k <= |name| && (k < |name| ==> name[k] == NUL) && forall i :: 0 <= i < k ==> name[i] != NUL
  {
    if name == "" || name[0] == NUL then 0 else 1 + CLength(name[1..])
  }

  function CName(name: string): string
  {
    name[..CLength(name)]
  }

  /** A symbol is printed as far as its name goes as a C string. */
  function SymbolText(name: string): string
  {
    NameText(CName(name))
  }

  function DigitChar(d: nat): (c: char)
    requires d < 10
    ensures Digit(c) && DigitValue(c) == d
  {
    '0' + d as char
  }

  function Digits(n: nat): string
  {
    if n < 10 then [DigitChar(n)] else Digits(n / 10) + [DigitChar(n % 10)]
  }

  function Numeral(n: int): string
  {
    if n < 0 then "-" + Digits(-n) else Digits(n)
  }

  /** The data whose printing is modelled. */
  predicate Printable(d: Datum)
  {
    match d
    case Nil => true
    case Cons(a, b) => Printable(a) && Printable(b)
    case Vector(items) => forall i :: 0 <= i < |items| ==> Printable(items[i])
    case Int(_) => true
    case Symbol(name) => true
    case Real(_, _, _, _, _) => false
  }

  function Print(d: Datum): string
    requires Printable(d)
    decreases d, 1
  {
    match d
    case Nil => "()"
    case Cons(_, _) => "(" + PrintPairs(d)
    case Vector(items) => "[" + PrintItems(items)
    case Int(n) => Numeral(n)
    case Symbol(name) => SymbolText(name)
  }

  /** The elements of a list and its closing parenthesis. */
  function PrintPairs(d: Datum): string
    requires d.Cons? && Printable(d)
    decreases d, 0
  {
    Print(d.car) +
    if d.cdr.Cons? then " " + PrintPairs(d.cdr)
    else if d.cdr.Nil? then ")"
    else " . " + Print(d.cdr) + ")"
  }

  function PrintItems(items: seq<Datum>): string
    requires forall i :: 0 <= i < |items| ==> Printable(items[i])
    decreases items, 0
  {
    if items == [] then "]"
    else Print(items[0]) + if |items| == 1 then "]" else " " + PrintItems(items[1..])
  }
}
