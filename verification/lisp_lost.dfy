/** Reading inverts printing, for exactly the trees whose symbols can be told from everything else. */
module LispLost {
  import opened LispText
  import opened LispSymbols
  import opened LispData

  /** No symbol is printed as nothing, and in a list or vector nothing follows a symbol printed as a dot. */
  predicate Placed(d: Datum)
  {
    match d
    case Cons(a, b) => Placed(a) && Placed(b) && (Dotty(a) ==> b == Nil)
    case Vector(items) =>
      forall i :: 0 <= i < |items| ==> Placed(items[i]) && (Dotty(items[i]) ==> i == |items| - 1)
    case Symbol(name) => !Blank(d)
    case _ => true
  }

  predicate AllReadable(d: Datum)
  {
    match d
    case Cons(a, b) => AllReadable(a) && AllReadable(b)
    case Vector(items) => forall i :: 0 <= i < |items| ==> AllReadable(items[i])
    case Symbol(name) => Readable(name)
    case _ => true
  }

  // ----- Trees in which everything is in its place -----

  /** The same tree, with its symbols as they read. */
  function Image(d: Datum): Datum
  {
    match d
    case Cons(a, b) => Cons(Image(a), Image(b))
    case Vector(items) => Vector(Images(items))
    case Symbol(name) => if SymbolToken(name).Some? then SymbolToken(name).value else d
    case _ => d
  }

  function Images(items: seq<Datum>): (r: seq<Datum>)
    ensures |r| == |items| && forall i :: 0 <= i < |items| ==> r[i] == Image(items[i])
  {
    if items == [] then [] else [Image(items[0])] + Images(items[1..])
  }

  lemma {:induction false} ImageSame(d: Datum)
    requires Placed(d)
    ensures Image(d) == d <==> AllReadable(d)
  {
    hide SymbolToken, Readable, Blank, Dotty;
    match d
    case Cons(a, b) =>
      ImageSame(a);
      ImageSame(b);
    case Vector(items) =>
      forall i | 0 <= i < |items| ensures Image(items[i]) == items[i] <==> AllReadable(items[i]) {
        ImageSame(items[i]);
      }
      if AllReadable(d) { assert Images(items) == items; }
    case Symbol(name) =>
      Named(name);
    case _ =>
  }

  lemma Named(name: string)
    ensures !Blank(Symbol(name)) ==> SymbolToken(name).Some?
    ensures SymbolToken(name) == Some(Symbol(name)) <==> Readable(name)
  {
    hide SymbolToken, Readable;
    SymbolReadsBack(name, "");
  }

  lemma {:induction false} BuildSnoc(items: seq<Datum>, d: Datum, tail: Datum)
    ensures Build(items + [d], tail) == Build(items, Cons(d, tail))
  {
    if items == [] {
      assert (items + [d])[1..] == [];
    } else {
      assert (items + [d])[1..] == items[1..] + [d];
      BuildSnoc(items[1..], d, tail);
    }
  }

  lemma {:induction false} ElementsOfBuild(items: seq<Datum>)
    ensures Elements(Build(items, Nil)) == items
  {
    if items != [] { ElementsOfBuild(items[1..]); }
  }

  lemma {:induction false} PlacedSeen(d: Datum)
    requires Placed(d)
    ensures Seen(d) == Some(Image(d))
    decreases TreeSize(d), 1
  {
    hide SymbolToken, Take, Blank;
    match d
    case Cons(_, _) =>
      PlacedPairs(d, [], Nil);
    case Vector(items) =>
      PlacedItems(items, [], Nil);
      assert [] + Images(items) == Images(items);
      ElementsOfBuild(Images(items));
    case Symbol(name) => Named(name);
    case _ =>
  }

  lemma {:induction false} PlacedPairs(d: Datum, items: seq<Datum>, tail: Datum)
    requires d.Cons? && Placed(d)
    ensures Take(Pieces(d), items, tail) == Some(Build(items, Image(d)))
    decreases TreeSize(d), 0
  {
    hide Blank, Dotty, Build, Seen, Take, Image;
    var es, more := Pieces(d), items + [Image(d.car)];
    ImagePair(d);
    NotBlank(d.car);
    PlacedSeen(d.car);
    PiecesFirst(d);
    TakeFirst(es, items, tail);
    if d.cdr.Cons? {
      PlacedPairs(d.cdr, more, Nil);
    } else if d.cdr.Nil? {
      TakeNone(more, Nil);
    } else {
      NotBlank(d.cdr);
      PlacedSeen(d.cdr);
      TakeDotted(d.cdr, more);
    }
    BuildSnoc(items, Image(d.car), Image(d.cdr));
  }

  lemma ImagePair(d: Datum)
    requires d.Cons?
    ensures Image(d) == Cons(Image(d.car), Image(d.cdr)) && (d.cdr.Nil? ==> Image(d.cdr) == Nil)
  {
  }

  lemma NotBlank(d: Datum)
    requires Placed(d)
    ensures !Blank(d)
  {
  }

  lemma PiecesFirst(d: Datum)
    requires d.Cons?
    ensures var es := Pieces(d);
      es[0] == d.car &&
      es[1..] == (if d.cdr.Cons? then Pieces(d.cdr) else if d.cdr.Nil? then [] else [DOT, d.cdr])
  {
  }

  /** An element that is not taken for anything else. */
  lemma TakeFirst(es: seq<Datum>, items: seq<Datum>, tail: Datum)
    requires es != [] && !Blank(es[0]) && (Dotty(es[0]) ==> es[1..] == [])
    ensures Take(es, items, tail) ==
      if Seen(es[0]).Some? then Take(es[1..], items + [Seen(es[0]).value], Nil) else None
  {
    hide Blank, Dotty, Seen;
  }

  lemma TakeNone(items: seq<Datum>, tail: Datum)
    ensures Take([], items, tail) == Some(Build(items, tail))
  {
  }

  lemma TakeDotted(x: Datum, items: seq<Datum>)
    requires !Blank(x) && Seen(x).Some? && items != []
    ensures Take([DOT, x], items, Nil) == Some(Build(items, Seen(x).value))
  {
    hide Blank, Dotty, Seen, Build;
    DotText();
    var es := [DOT, x];
    assert es[1..] == [x] && [x][1..] == [];
    TakeNone(items, Seen(x).value);
    assert TakeTail([x], items) == Take([], items, Seen(x).value);
  }

  lemma {:induction false} PlacedItems(es: seq<Datum>, items: seq<Datum>, tail: Datum)
    requires Placed(Vector(es))
    ensures Take(es, items, tail) == Some(Build(items + Images(es), if es == [] then tail else Nil))
    decreases SeqSize(es), 2
  {
    hide Blank, Dotty, Build, Seen, Take, Image;
    if es == [] {
      TakeNone(items, tail);
      assert items + [] == items;
    } else {
      NotBlank(es[0]);
      PlacedSeen(es[0]);
      TakeFirst(es, items, tail);
      PlacedItems(es[1..], items + [Image(es[0])], Nil);
      assert items + [Image(es[0])] + Images(es[1..]) == items + Images(es);
    }
  }

  // ----- Trees in which something is not -----

  /** How many symbols and numbers a tree holds. */
  function Leaves(d: Datum): nat
  {
    match d
    case Nil => 0
    case Cons(a, b) => Leaves(a) + Leaves(b)
    case Vector(items) => LeavesOf(items)
    case _ => 1
  }

  function LeavesOf(es: seq<Datum>): nat
  {
    if es == [] then 0 else Leaves(es[0]) + LeavesOf(es[1..])
  }

  lemma {:induction false} LeavesSnoc(es: seq<Datum>, d: Datum)
    ensures LeavesOf(es + [d]) == LeavesOf(es) + Leaves(d)
  {
    if es == [] {
      assert (es + [d])[1..] == [];
    } else {
      assert (es + [d])[1..] == es[1..] + [d];
      LeavesSnoc(es[1..], d);
    }
  }

  lemma {:induction false} LeavesBuilt(items: seq<Datum>, tail: Datum)
    ensures Leaves(Build(items, tail)) == LeavesOf(items) + Leaves(tail)
  {
    if items != [] { LeavesBuilt(items[1..], tail); }
  }

  lemma {:induction false} LeavesElements(d: Datum)
    ensures LeavesOf(Elements(d)) <= Leaves(d)
  {
    if d.Cons? {
      LeavesElements(d.cdr);
      assert ([d.car] + Elements(d.cdr))[1..] == Elements(d.cdr);
    }
  }

  predicate AllBlank(es: seq<Datum>)
  {
    forall i :: 0 <= i < |es| ==> Blank(es[i])
  }

  function Wrong(d: Datum): nat
  {
    if Placed(d) then 0 else 1
  }

  /** How many leaves at least are missing from what the list reader makes of printed elements: those that
      are printed as nothing, those taken for the dot of a pair, and those after such a dot that are
      forgotten again. */
  function Loss(es: seq<Datum>): nat
    decreases |es|
  {
    if es == [] then 0
    else if Blank(es[0]) then 1 + Loss(es[1..])
    else if Dotty(es[0]) && es[1..] != [] then 1 + LossTail(es[1..])
    else Wrong(es[0]) + Loss(es[1..])
  }

  function LossTail(es: seq<Datum>): nat
    decreases |es|
  {
    if es == [] then 0
    else if Blank(es[0]) then 1 + LossTail(es[1..])
    else (if AllBlank(es[1..]) then Wrong(es[0]) else Leaves(es[0])) + Loss(es[1..])
  }

  lemma {:induction false} TakeBound(es: seq<Datum>, items: seq<Datum>, tail: Datum)
    ensures var r := Take(es, items, tail);
      r.Some? ==>
        Leaves(r.value) + Loss(es) <= LeavesOf(items) + (if AllBlank(es) then Leaves(tail) else 0) + LeavesOf(es)
    decreases SeqSize(es), 2
  {
    hide Blank, Dotty, Seen, Build, Wrong;
    if es == [] {
      LeavesBuilt(items, tail);
    } else {
      var e, more := es[0], es[1..];
      BlankFirst(es);
      if Blank(e) {
        BlankLeaf(e);
        TakeBound(more, items, tail);
      } else if Dotty(e) && more != [] {
        DottyLeaf(e);
        if items != [] { TakeTailBound(more, items); }
      } else if Seen(e).Some? {
        SeenBound(e);
        LeavesSnoc(items, Seen(e).value);
        TakeBound(more, items + [Seen(e).value], Nil);
      }
    }
  }

  lemma BlankFirst(es: seq<Datum>)
    requires es != []
    ensures AllBlank(es) <==> Blank(es[0]) && AllBlank(es[1..])
  {
    hide Blank;
    if Blank(es[0]) && AllBlank(es[1..]) {
      forall i | 0 <= i < |es| ensures Blank(es[i]) { if i > 0 { assert es[i] == es[1..][i - 1]; } }
    }
  }

  lemma BlankLeaf(d: Datum)
    requires Blank(d)
    ensures Leaves(d) == 1 && !Placed(d)
  {
  }

  lemma DottyLeaf(d: Datum)
    requires Dotty(d)
    ensures Leaves(d) == 1
  {
  }

  lemma {:induction false} TakeTailBound(es: seq<Datum>, items: seq<Datum>)
    ensures var r := TakeTail(es, items);
      r.Some? ==> Leaves(r.value) + LossTail(es) <= LeavesOf(items) + LeavesOf(es)
    decreases SeqSize(es), 2
  {
    hide Blank, Dotty, Seen, Build, Wrong, AllBlank, Loss;
    if es != [] {
      var e, more := es[0], es[1..];
      if Blank(e) {
        BlankLeaf(e);
        TakeTailBound(more, items);
      } else if Seen(e).Some? {
        SeenBound(e);
        TakeBound(more, items, Seen(e).value);
      }
    }
  }

  /** What is read holds no more leaves than the tree that was printed, and fewer if something in that is
      not in its place. */
  lemma {:induction false} SeenBound(d: Datum)
    ensures var r := Seen(d); r.Some? ==> Leaves(r.value) + Wrong(d) <= Leaves(d)
    decreases TreeSize(d), 1
  {
    hide Blank, Dotty, Take, Loss, SymbolToken, Elements;
    match d
    case Cons(_, _) =>
      TakeBound(Pieces(d), [], Nil);
      PiecesLoss(d);
    case Vector(items) =>
      TakeBound(items, [], Nil);
      ItemsLoss(items);
      if Seen(d).Some? { LeavesElements(Take(items, [], Nil).value); }
    case Symbol(name) => TokenLeaf(name);
    case _ =>
  }

  lemma TokenLeaf(name: string)
    ensures SymbolToken(name).Some? ==> Leaves(SymbolToken(name).value) == 1 && !Blank(Symbol(name))
  {
    hide Final;
  }

  /** Whether a list ends in something else than the empty list; its dot is one more printed element. */
  function Dots(d: Datum): nat
    requires d.Cons?
  {
    if d.cdr.Cons? then Dots(d.cdr) else if d.cdr.Nil? then 0 else 1
  }

  lemma DotLoss(x: Datum)
    ensures Loss([DOT, x]) >= 1 + Wrong(x) && LossTail([DOT, x]) >= 1
    ensures LeavesOf([DOT, x]) == 1 + Leaves(x)
  {
    hide Blank, Dotty, Placed;
    var es := [DOT, x];
    DotText();
    assert es[1..] == [x] && [x][1..] == [];
    assert LeavesOf([x]) == Leaves(x) && Leaves(DOT) == 1;
    BlankFirst([x]);
  }

  /** The leaves of a list are those of its printed elements but for the dot, and every list with something
      out of place loses more than that dot. */
  lemma {:induction false} PiecesLoss(d: Datum)
    requires d.Cons?
    ensures LeavesOf(Pieces(d)) == Leaves(d) + Dots(d)
    ensures Loss(Pieces(d)) >= Dots(d) + Wrong(d) && LossTail(Pieces(d)) >= Dots(d)
  {
    hide Blank, Dotty, AllBlank, Loss, LossTail, Pieces;
    PiecesFirst(d);
    var es := Pieces(d);
    LossFirst(es);
    if d.cdr.Cons? {
      PiecesLoss(d.cdr);
    } else if d.cdr.Nil? {
      assert Placed(d.cdr);
    } else {
      DotLoss(d.cdr);
      assert Wrong(d) <= Wrong(d.car) + Wrong(d.cdr) + if Dotty(d.car) then 1 else 0;
    }
  }

  lemma LossFirst(es: seq<Datum>)
    requires es != []
    ensures Loss(es) ==
      if Blank(es[0]) then 1 + Loss(es[1..])
      else if Dotty(es[0]) && es[1..] != [] then 1 + LossTail(es[1..])
      else Wrong(es[0]) + Loss(es[1..])
    ensures LossTail(es) >= if Blank(es[0]) then 1 + LossTail(es[1..]) else Loss(es[1..])
    ensures Blank(es[0]) ==> !Placed(es[0])
  {
    hide AllBlank, Dotty;
    if Blank(es[0]) { BlankLeaf(es[0]); }
  }

  lemma {:induction false} ItemsLoss(es: seq<Datum>)
    ensures Loss(es) >= Wrong(Vector(es))
  {
    hide Blank, Dotty, AllBlank, Loss, LossTail;
    if es != [] {
      var more := es[1..];
      LossFirst(es);
      ItemsLoss(more);
      if Placed(es[0]) && Placed(Vector(more)) && (Dotty(es[0]) ==> more == []) {
        forall i | 0 <= i < |es| ensures Placed(es[i]) && (Dotty(es[i]) ==> i == |es| - 1) {
          if i > 0 { assert es[i] == more[i - 1]; }
        }
      }
    }
  }

  // ----- The trees that read back -----

  lemma SeenSame(d: Datum)
    ensures Seen(d) == Some(d) <==> Placed(d) && AllReadable(d)
  {
    hide Seen, Image, Leaves;
    if Placed(d) {
      PlacedSeen(d);
      ImageSame(d);
    } else {
      SeenBound(d);
    }
  }

  /** A printed tree reads back as itself, with what follows it left to be read, exactly when everything in it
      is in its place and the names of all its symbols are readable. */
  lemma TreeReadsBack(d: Datum, tail: string)
    requires Printable(d) && (Atom(d) ==> Ends(tail))
    ensures Readl(Print(d) + tail) == Read(d, tail) <==> Placed(d) && AllReadable(d)
  {
    hide Readl, Print, Seen, AllReadable;
    if Blank(d) {
      BlankText(d);
      assert Print(d) + tail == tail;
    } else {
      ReadPrinted(d, tail);
      SeenSame(d);
    }
  }

  // ----- Names that are lost -----

  /** A list that begins with the symbol "." and has more elements does not read at all. */
  lemma DotFirst(d: Datum, tail: string)
    requires Printable(d) && d.Cons? && d.car == DOT && d.cdr != Nil
    ensures Readl(Print(d) + tail) == Failed
  {
    hide Readl, Print;
    ReadPrinted(d, tail);
    DotText();
    PiecesFirst(d);
    assert Pieces(d)[1..] != [];
  }

  lemma PlainName(name: string)
    requires NUL !in name
    ensures CName(name) == name && SymbolText(name) == NameText(name) && (Readable(name) <==> ReadableText(name))
  {
    hide NameText, ReadableText;
    WholeName(name);
  }

  /** A name without anything special in it, and not like a number, is printed as it is. */
  lemma PlainText(name: string)
    requires NUL !in name && !NumberLike(name) && forall i :: 0 <= i < |name| ==> !Special(name[i])
    ensures SymbolText(name) == name
  {
    hide NumberLike;
    PlainName(name);
    EscapedPlain(name);
  }

  /** A name of one letter. */
  lemma Letter(name: string)
    requires |name| == 1 && 'a' <= name[0] <= 'z'
    ensures Readable(name) && SymbolText(name) == name && !Dotty(Symbol(name)) && !Blank(Symbol(name))
  {
    PlainText(name);
    PlainName(name);
    SignsIs(name, 0);
    assert name[0..] == name;
  }

  /** A name is printed up to its first NUL: this one as "a", which reads as another symbol. */
  lemma NulIsLost(name: string, a: string)
    requires |a| == 1 && 'a' <= a[0] <= 'z' && name == a + [NUL] + "b"
    ensures SymbolText(name) == a && !Readable(name) && ReadIdentifier(a) == Read(Symbol(a), "")
  {
    hide ReadIdentifier, ReadableText, NameText;
    assert name[0] == a[0] && name[1] == NUL;
    assert CName(name) == a by { UpToNul(name, 1); }
    Letter(a);
    PlainName(a);
    SymbolReadsBack(a, "");
    assert SymbolText(a) + "" == SymbolText(a);
  }

  lemma {:induction false} UpToNul(name: string, k: nat)
    requires k < |name| && name[k] == NUL && forall i :: 0 <= i < k ==> name[i] != NUL
    ensures CLength(name) == k
  {
    if k > 0 { UpToNul(name[1..], k - 1); }
  }

  /** Further on, the symbol "." turns the element after it into the tail of a pair: the list of a, "." and b
      prints as the pair of a and b, and reads as that. */
  lemma DotIsLost(a: Datum, b: Datum)
    requires Printable(a) && Printable(b) && !b.Cons? && !b.Nil? && Placed(a) && Placed(b) && !Dotty(a)
    ensures Printable(List3(a, DOT, b)) && Print(List3(a, DOT, b)) == Print(Cons(a, b))
    ensures Readl(Print(Cons(a, b))) == Read(Cons(a, b), "") <==> AllReadable(a) && AllReadable(b)
  {
    hide Readl, Print, PrintPairs, AllReadable, Dotty, Placed;
    DotText();
    PrintedPair(a, b);
    PrintedThree(a, DOT, b);
    JoinedDot(Print(a), Print(b));
    PairPlaced(a, b);
    TreeReadsBack(Cons(a, b), "");
    assert Print(Cons(a, b)) + "" == Print(Cons(a, b));
  }

  lemma JoinedDot(a: string, b: string)
    ensures "(" + (a + (" " + ("." + (" " + (b + ")"))))) == "(" + (a + (" . " + b + ")"))
  {
  }

  lemma PairPlaced(a: Datum, b: Datum)
    requires Placed(a) && Placed(b) && !Dotty(a)
    ensures Placed(Cons(a, b)) && (AllReadable(Cons(a, b)) <==> AllReadable(a) && AllReadable(b))
  {
  }

  lemma PrintedPair(a: Datum, b: Datum)
    requires Printable(a) && Printable(b) && !b.Cons? && !b.Nil?
    ensures Print(Cons(a, b)) == "(" + (Print(a) + (" . " + Print(b) + ")"))
  {
    hide Print, PrintPairs;
    PairText(a, b);
  }

  lemma PrintedThree(a: Datum, b: Datum, c: Datum)
    requires Printable(a) && Printable(b) && Printable(c)
    ensures Printable(Cons(c, Nil)) && Printable(Cons(b, Cons(c, Nil))) && Printable(List3(a, b, c))
    ensures Print(List3(a, b, c)) == "(" + (Print(a) + (" " + (Print(b) + (" " + (Print(c) + ")")))))
  {
    hide Print, PrintPairs;
    PairText(a, Cons(b, Cons(c, Nil)));
    PairText(b, Cons(c, Nil));
    PairText(c, Nil);
  }

  lemma PairText(a: Datum, d: Datum)
    requires Printable(a) && Printable(d)
    ensures Print(Cons(a, d)) == "(" + PrintPairs(Cons(a, d))
    ensures PrintPairs(Cons(a, d)) == Print(a) +
      if d.Cons? then " " + PrintPairs(d) else if d.Nil? then ")" else " . " + Print(d) + ")"
  {
  }

  /** A list of the symbol with the empty name prints as "()", which reads as the empty list. */
  lemma EmptyNameIsLost()
    ensures Print(Cons(Symbol(""), Nil)) == "()" && Readl("()") == Read(Nil, "")
  {
    Opens('(', ")");
    ListEnd(')', "", [], Nil);
    assert ['('] + ")" == "()" && [')'] + "" == ")";
  }

  /** The symbol "+123.0" prints as "\+123.0", and still reads as a float. */
  lemma FloatNameIsLost(name: string)
    requires name == "+123.0"
    ensures SymbolText(name) == "\\" + name && !Readable(name)
    ensures ReadIdentifier(SymbolText(name)) == Read(Real(Float, name[1..], 0, 1, 0), "")
  {
    hide ReadIdentifier, Final, Token, SignedPointZero, CName, NameText, NumberLike;
    assert NUL !in name;
    PlainName(name);
    FloatNameText(name);
    FloatToken(name);
    SymbolReadsBack(name, "");
    assert SymbolText(name) + "" == SymbolText(name);
  }

  lemma FloatNameText(name: string)
    requires name == "+123.0"
    ensures NumberLike(name) && NameText(name) == "\\" + name
  {
    assert Digit(name[1]);
    EscapedPlain(name);
    hide Escaped;
  }

  lemma FloatToken(name: string)
    requires name == "+123.0" && NumberLike(name)
    ensures SignedPointZero(name)
    ensures Token(Final(name)) == Some(Real(Float, name[1..], 0, 1, 0))
  {
    hide Run, Final, Trimmed, Decimal;
    var s := name[1..];
    assert s == "123.0";
    assert Trimmed(s) == s by { TrimmedPlain(s); }
    PlainDecimal(s);
    QuotedFinal(name);
  }

  lemma PlainDecimal(s: string)
    requires s == "123.0"
    ensures Decimal(s)
  {
    DigitRunIs(s, 3);
    assert s[4..] == "0";
    DigitRunIs("0", 1);
    assert s[5..] == "";
  }

  /** Names of two signs and a digit, like "--5", and of a digit and an exponent, like "1e5", print as they
      are, and read as numbers. */
  lemma NumberNamesAreLost(name: string)
    requires |name| == 3
    requires (Sign(name[0]) && Sign(name[1]) && Digit(name[2])) ||
      (Digit(name[0]) && name[1] == 'e' && Digit(name[2]))
    ensures SymbolText(name) == name && !Readable(name)
  {
    hide NumberToken, NumberLike;
    if Sign(name[0]) { TwoSigns(name); } else { WithExponent(name); }
    PlainText(name);
    PlainName(name);
  }

  lemma TwoSigns(name: string)
    requires |name| == 3 && Sign(name[0]) && Sign(name[1]) && Digit(name[2])
    ensures NumberToken(name) && !NumberLike(name)
  {
    SignsIs(name, 2);
    assert name[2..] == [name[2]];
  }

  lemma WithExponent(name: string)
    requires |name| == 3 && Digit(name[0]) && name[1] == 'e' && Digit(name[2])
    ensures NumberToken(name) && !NumberLike(name)
  {
    SignsIs(name, 0);
    assert name[0..] == name;
    DigitRunIs(name, 1);
    var e := name[1..];
    assert e[0] == 'e' && e[1..] == [name[2]];
  }
}
