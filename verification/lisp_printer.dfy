/** The printer, which writes to a stream piece by piece. */
module LispPrinter {
  import opened LispText

  class Output {
    var text: string

    constructor ()
      ensures text == ""
    {
      text := "";
    }

    /** rep_stream_putc and rep_stream_puts */
    method Puts(s: string)
      modifies this`text
      ensures text == old(text) + s
    {
      text := text + s;
    }

    /** The first part of symbol_print: whether a name might be confused for a number. */
    static method LooksNumeric(name: string) returns (r: bool)
      ensures r <==> NumberLike(CName(name))
    {
      hide CName;
      NameStart(name);
      if name == "" || !(Digit(name[0]) || Sign(name[0]) || name[0] == '.') { return false; }
      var seenDigit, i := Digit(name[0]), 1;
      while i < |name| && NumberChar(name[i])
        invariant 1 <= i <= |name| && i <= CLength(name)
        invariant forall k :: 1 <= k < i ==> NumberChar(name[k])
        invariant seenDigit <==> exists k :: 0 <= k < i && Digit(name[k])
      {
        if Digit(name[i]) { seenDigit := true; }
        i := i + 1;
      }
      NumberLikeAt(name, i, seenDigit);
      return (i == |name| || name[i] == NUL) && seenDigit;
    }

    /** symbol_print: the buffer of twice the length of the name is long enough. */
    method SymbolPrint(name: string)
      modifies this`text
      ensures text == old(text) + SymbolText(name)
    {
      hide Special, NumberLike, Escaped, CName;
      NameStart(name);
      var buf := new char[2 * |name|];
      var out, k := 0, 0;
      var like := LooksNumeric(name);
      if like {
        NoSpecials(CName(name));
        buf[out] := '\\';
        out := out + 1;
      }
      ghost var lead := if like then "\\" else "";
      EscapedNothing(name);
      assert buf[..out] == lead == lead + Escaped(name[..0]);
      while k < |name| && name[k] != NUL
        invariant 0 <= k <= CLength(name) && (if like then out == k + 1 else out <= 2 * k)
        invariant buf[..out] == lead + Escaped(name[..k]) && text == old(text)
      {
        ghost var done := buf[..out];
        EscapedSnoc(name, k);
        if like { assert name[k] == CName(name)[k]; }
        if Special(name[k]) {
          buf[out] := '\\';
          out := out + 1;
          assert buf[..out] == done + "\\";
        }
        buf[out] := name[k];
        out := out + 1;
        assert buf[..out] == done + (if Special(name[k]) then "\\" else "") + [name[k]];
        k := k + 1;
      }
      assert name[..k] == CName(name);
      var printed := buf[..out];
      assert printed == SymbolText(name);
      Puts(printed);
    }

    /** rep_lisp_prin and rep_print_val */
    method Print(d: Datum)
      requires Printable(d)
      modifies this`text
      ensures text == old(text) + LispText.Print(d)
      decreases d, 2
    {
      match d {
        case Nil => Puts("()");
        case Cons(_, _) => PrintList(d);
        case Vector(items) => PrintVector(items);
        case Int(n) => Puts(Numeral(n));
        case Symbol(name) => SymbolPrint(name);
      }
    }

    method PrintList(d: Datum)
      requires d.Cons? && Printable(d)
      modifies this`text
      ensures text == old(text) + "(" + PrintPairs(d)
      decreases d, 1
    {
      hide LispText.Print, PrintPairs;
      Puts("(");
      ghost var start := text;
      var obj := d;
      assert start + PrintPairs(d) == text + PrintPairs(obj);
      while obj.cdr.Cons?
        invariant obj.Cons? && Printable(obj) && (obj == d || obj < d)
        invariant start + PrintPairs(d) == text + PrintPairs(obj)
        decreases obj
      {
        PairsUnfold(obj);
        PairsJoin(text, LispText.Print(obj.car), obj);
        Print(obj.car);
        obj := obj.cdr;
        Puts(" ");
      }
      PairsUnfold(obj);
      PairsEnd(text, LispText.Print(obj.car), obj);
      Print(obj.car);
      if obj.cdr != Nil {
        Puts(" . ");
        Print(obj.cdr);
      }
      Puts(")");
    }

    method PrintVector(items: seq<Datum>)
      requires forall i :: 0 <= i < |items| ==> Printable(items[i])
      modifies this`text
      ensures text == old(text) + "[" + PrintItems(items)
      decreases items
    {
      hide LispText.Print, PrintItems, Printable;
      Puts("[");
      ghost var start := text;
      var j := 0;
      assert items[0..] == items;
      while j < |items|
        invariant 0 <= j <= |items|
        invariant if j < |items| || items == [] then start + PrintItems(items) == text + PrintItems(items[j..])
          else start + PrintItems(items) == text + "]"
      {
        ItemsUnfold(items, j);
        ItemsJoin(text, LispText.Print(items[j]), items, j);
        Print(items[j]);
        if j != |items| - 1 { Puts(" "); }
        j := j + 1;
      }
      if items == [] { NoItems(); }
      Puts("]");
    }
  }

  lemma NameStart(name: string)
    ensures CName(name) == name[..CLength(name)]
  {
  }

  /** Where the scan of the number characters ends. */
  lemma NumberLikeAt(name: string, i: nat, seenDigit: bool)
    requires 1 <= i <= CLength(name) && (Digit(name[0]) || Sign(name[0]) || name[0] == '.')
    requires forall k :: 1 <= k < i ==> NumberChar(name[k])
    requires i < |name| ==> !NumberChar(name[i])
    requires seenDigit <==> exists k :: 0 <= k < i && Digit(name[k])
    ensures NumberLike(CName(name)) <==> (i == |name| || name[i] == NUL) && seenDigit
  {
    var c := CName(name);
    assert forall k | 0 <= k < |c| :: c[k] == name[k];
    if i < |c| {
      assert !NumberChar(c[i]);
    } else if seenDigit {
      var k :| 0 <= k < i && Digit(name[k]);
      assert Digit(c[k]);
    }
  }

  lemma NoSpecials(name: string)
    requires NumberLike(name)
    ensures name != "" && forall i :: 0 <= i < |name| ==> !Special(name[i])
  {
  }

  lemma EscapedNothing(name: string)
    ensures Escaped(name[..0]) == ""
  {
  }

  lemma {:induction false} EscapedAppend(s: string, c: char)
    ensures Escaped(s + [c]) == Escaped(s) + (if Special(c) then "\\" else "") + [c]
  {
    hide Special;
    if s == "" {
      assert (s + [c])[1..] == "";
    } else {
      assert (s + [c])[1..] == s[1..] + [c];
      EscapedAppend(s[1..], c);
    }
  }

  lemma EscapedSnoc(name: string, k: nat)
    requires k < |name|
    ensures Escaped(name[..k + 1]) == Escaped(name[..k]) + (if Special(name[k]) then "\\" else "") + [name[k]]
  {
    assert name[..k + 1] == name[..k] + [name[k]];
    EscapedAppend(name[..k], name[k]);
  }

  lemma PairsUnfold(d: Datum)
    requires d.Cons? && Printable(d)
    ensures Printable(d.car) && Printable(d.cdr)
    ensures PrintPairs(d) == Print(d.car) +
      if d.cdr.Cons? then " " + PrintPairs(d.cdr) else if d.cdr.Nil? then ")" else " . " + Print(d.cdr) + ")"
  {
  }

  lemma PairsJoin(text: string, car: string, d: Datum)
    requires d.Cons? && Printable(d) && d.cdr.Cons? && PrintPairs(d) == car + (" " + PrintPairs(d.cdr))
    ensures text + PrintPairs(d) == text + car + " " + PrintPairs(d.cdr)
  {
    hide PrintPairs;
  }

  lemma PairsEnd(text: string, car: string, d: Datum)
    requires d.Cons? && Printable(d) && !d.cdr.Cons?
    requires PrintPairs(d) == car + if d.cdr.Nil? then ")" else " . " + Print(d.cdr) + ")"
    ensures text + PrintPairs(d) == if d.cdr.Nil? then text + car + ")" else text + car + " . " + Print(d.cdr) + ")"
  {
    hide PrintPairs, Print;
  }

  lemma ItemsUnfold(items: seq<Datum>, j: nat)
    requires j < |items| && forall i :: 0 <= i < |items| ==> Printable(items[i])
    ensures PrintItems(items[j..]) ==
      Print(items[j]) + if j == |items| - 1 then "]" else " " + PrintItems(items[j + 1..])
  {
    hide Print, Printable;
    assert items[j..][1..] == items[j + 1..];
    ItemsOf(items[j..]);
  }

  lemma ItemsOf(items: seq<Datum>)
    requires items != [] && forall i :: 0 <= i < |items| ==> Printable(items[i])
    ensures PrintItems(items) == Print(items[0]) + if |items| == 1 then "]" else " " + PrintItems(items[1..])
  {
    hide Print, Printable;
  }

  lemma ItemsJoin(text: string, item: string, items: seq<Datum>, j: nat)
    requires j < |items| && forall i :: 0 <= i < |items| ==> Printable(items[i])
    requires PrintItems(items[j..]) == item + if j == |items| - 1 then "]" else " " + PrintItems(items[j + 1..])
    ensures text + PrintItems(items[j..]) ==
      if j == |items| - 1 then text + item + "]" else text + item + " " + PrintItems(items[j + 1..])
  {
    hide PrintItems, Printable;
  }

  lemma NoItems()
    ensures PrintItems([]) == "]"
  {
  }
}
