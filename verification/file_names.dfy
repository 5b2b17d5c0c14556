/** File names as lists of components, and the normal form of a name. */
module FileNames {

  datatype Walk = Walk(stack: seq<string>, open: bool)

  /** The length of the first component. */
  function FirstLen(s: string): (k: nat)
    ensures k <= |s| && (k < |s| ==> s[k] == '/')
    ensures forall i | 0 <= i < k :: s[i] != '/'
  {
    if s == "" || s[0] == '/' then 0 else 1 + FirstLen(s[1..])
  }

  lemma {:induction false} FirstIs(s: string, k: nat)
    requires k <= |s| && (k < |s| ==> s[k] == '/')
    requires forall i | 0 <= i < k :: s[i] != '/'
    ensures FirstLen(s) == k
  {
    if k > 0 { FirstIs(s[1..], k - 1); }
  }

  function AfterFirst(s: string): (rest: string)
    ensures s != "" ==> |rest| < |s|
  {
    if FirstLen(s) < |s| then s[FirstLen(s) + 1..] else ""
  }

  predicate Absolute(s: string)
  {
    |s| > 0 && s[0] == '/'
  }

  /** ".." goes up, unless there is nothing to go up from: at the root it stays there, and at the start of a
      relative name it is kept. */
  predicate GoesUp(absolute: bool, stack: seq<string>)
  {
    if stack == [] then absolute else stack[|stack| - 1] != ".."
  }

  predicate Kept(absolute: bool, stack: seq<string>, c: string)
  {
    if c == "" || c == "." then false else c == ".." ==> !GoesUp(absolute, stack)
  }

  function Step(absolute: bool, stack: seq<string>, c: string): seq<string>
  {
    if Kept(absolute, stack, c) then stack + [c]
    else if c == ".." && stack != [] then stack[..|stack| - 1]
    else stack
  }

  /** Where the components of a name lead from a directory, and whether the last one needs no slash after it. */
  function From(absolute: bool, stack: seq<string>, s: string): Walk
    decreases |s|
  {
    if s == "" then Walk(stack, true)
    else
      var c := s[..FirstLen(s)];
      if FirstLen(s) == |s| then Walk(Step(absolute, stack, c), !Kept(absolute, stack, c))
      else From(absolute, Step(absolute, stack, c), AfterFirst(s))
  }

  function Resolve(s: string): seq<string>
  {
    From(Absolute(s), [], s).stack
  }

  // ----- Writing a list of components -----

  function Flat(stack: seq<string>): string
  {
    if stack == [] then "" else stack[0] + "/" + Flat(stack[1..])
  }

  /** A list without its last slash. */
  function Trimmed(stack: seq<string>): string
    requires stack != []
  {
    if |stack| == 1 then stack[0] else stack[0] + "/" + Trimmed(stack[1..])
  }

  lemma {:induction false} TrimmedIs(stack: seq<string>)
    requires stack != []
    ensures Flat(stack) == Trimmed(stack) + "/"
  {
    if |stack| > 1 { TrimmedIs(stack[1..]); }
  }

  lemma {:induction false} TrimmedSnoc(stack: seq<string>, c: string)
    ensures Trimmed(stack + [c]) == Flat(stack) + c
  {
    if stack == [] {
    } else {
      assert (stack + [c])[1..] == stack[1..] + [c];
      TrimmedSnoc(stack[1..], c);
    }
  }

  function Prefix(absolute: bool, stack: seq<string>): string
  {
    (if absolute then "/" else "") + Flat(stack)
  }

  function Written(absolute: bool, w: Walk): string
  {
    if w.stack == [] then (if absolute then "/" else ".")
    else (if absolute then "/" else "") + if w.open then Flat(w.stack) else Trimmed(w.stack)
  }

  /** The normal form: the components that a name resolves to, with the slash at the end if its last
      component does not stand for itself. */
  function Normal(s: string): string
  {
    Written(Absolute(s), From(Absolute(s), [], s))
  }

  // ----- Stacks that resolving can reach -----

  predicate Plain(c: string)
  {
    c != "" && c != "." && '/' !in c
  }

  /** Plain components, with ".." only in front, and there only if ups are allowed. */
  predicate Good(stack: seq<string>, ups: bool)
  {
    stack == [] || (Plain(stack[0]) && (stack[0] == ".." ==> ups) && Good(stack[1..], ups && stack[0] == ".."))
  }

  lemma {:induction false} GoodAt(stack: seq<string>, ups: bool, i: nat)
    requires Good(stack, ups) && i < |stack|
    ensures Plain(stack[i]) && (stack[i] == ".." ==> ups && forall j | 0 <= j <= i :: stack[j] == "..")
  {
    if i > 0 {
      GoodAt(stack[1..], ups && stack[0] == "..", i - 1);
      if stack[i] == ".." {
        forall j | 0 <= j <= i ensures stack[j] == ".." {
          if j > 0 { assert stack[1..][j - 1] == ".."; }
        }
      }
    }
  }

  lemma {:induction false} GoodSnoc(stack: seq<string>, ups: bool, c: string)
    requires Good(stack, ups) && Plain(c)
    requires c == ".." ==> ups && (stack != [] ==> stack[|stack| - 1] == "..")
    ensures Good(stack + [c], ups)
  {
    if stack == [] {
      assert (stack + [c])[1..] == [];
    } else {
      assert (stack + [c])[1..] == stack[1..] + [c];
      if c == ".." { GoodAt(stack, ups, |stack| - 1); assert stack[0] == ".."; }
      GoodSnoc(stack[1..], ups && stack[0] == "..", c);
    }
  }

  lemma {:induction false} GoodInit(stack: seq<string>, ups: bool)
    requires Good(stack, ups) && stack != []
    ensures Good(stack[..|stack| - 1], ups)
  {
    if |stack| > 1 {
      assert stack[..|stack| - 1][1..] == stack[1..][..|stack| - 2];
      GoodInit(stack[1..], ups && stack[0] == "..");
    }
  }

  lemma GoodStep(absolute: bool, stack: seq<string>, c: string)
    requires Good(stack, !absolute) && '/' !in c
    ensures Good(Step(absolute, stack, c), !absolute)
  {
    if Kept(absolute, stack, c) {
      if c == ".." && stack != [] { GoodAt(stack, !absolute, |stack| - 1); }
      GoodSnoc(stack, !absolute, c);
    } else if c == ".." && stack != [] {
      GoodInit(stack, !absolute);
    }
  }

  lemma {:induction false} GoodFrom(absolute: bool, stack: seq<string>, s: string)
    requires Good(stack, !absolute)
    ensures Good(From(absolute, stack, s).stack, !absolute)
    decreases |s|
  {
    if s != "" {
      GoodStep(absolute, stack, s[..FirstLen(s)]);
      if FirstLen(s) < |s| { GoodFrom(absolute, Step(absolute, stack, s[..FirstLen(s)]), AfterFirst(s)); }
    }
  }

  // ----- Names in normal form -----

  /** The rest of a name, at the start of a component: no empty component but for a slash at the end, no
      ".", and ".." only in front. */
  predicate Tidy(s: string, ups: bool)
    decreases |s|
  {
    s == "" ||
    var c := s[..FirstLen(s)];
    Plain(c) && (c == ".." ==> ups) && Tidy(AfterFirst(s), ups && c == "..")
  }

  predicate InNormalForm(s: string)
  {
    s == "." || (s != "" && if s[0] == '/' then Tidy(s[1..], false) else Tidy(s, true))
  }

  /** A name that begins with a whole component, and one that is a component. */
  lemma FirstOf(c: string, rest: string)
    requires '/' !in c
    ensures var s := c + "/" + rest;
      FirstLen(s) == |c| && s[..|c|] == c && AfterFirst(s) == rest && FirstLen(c) == |c| && AfterFirst(c) == ""
  {
    var s := c + "/" + rest;
    FirstIs(s, |c|);
    FirstIs(c, |c|);
    assert s[..|c|] == c;
    assert s[|c| + 1..] == rest;
  }

  lemma FromFirst(absolute: bool, base: seq<string>, c: string, rest: string)
    requires Plain(c) && (c == ".." ==> !GoesUp(absolute, base))
    ensures From(absolute, base, c + "/" + rest) == From(absolute, base + [c], rest)
    ensures From(absolute, base, c) == Walk(base + [c], false)
  {
    FirstOf(c, rest);
    assert c[..|c|] == c;
    assert Step(absolute, base, c) == base + [c];
  }

  lemma TidyFirst(c: string, rest: string, ups: bool)
    requires Plain(c) && (c == ".." ==> ups)
    ensures Tidy(c + "/" + rest, ups) == Tidy(rest, ups && c == "..")
    ensures Tidy(c, ups)
  {
    FirstOf(c, rest);
    assert c[..|c|] == c;
  }

  lemma {:induction false} FlatTidy(stack: seq<string>, ups: bool)
    requires Good(stack, ups)
    ensures Tidy(Flat(stack), ups) && (stack != [] ==> Tidy(Trimmed(stack), ups))
  {
    hide Tidy, Plain;
    if stack == [] {
      TidyNothing(ups);
    } else {
      var c := stack[0];
      FlatTidy(stack[1..], ups && c == "..");
      TidyFirst(c, Flat(stack[1..]), ups);
      if |stack| > 1 { TidyFirst(c, Trimmed(stack[1..]), ups); }
    }
  }

  lemma TidyNothing(ups: bool)
    ensures Tidy("", ups)
  {
  }

  lemma TidyRoot(absolute: bool, s: string)
    requires Tidy(s, !absolute) && (s == "" ==> absolute) && !Absolute(s)
    ensures InNormalForm((if absolute then "/" else "") + s)
  {
    hide Tidy;
    if absolute {
      assert ("/" + s)[1..] == s;
    } else {
      assert "" + s == s;
    }
  }

  lemma StartsPlain(stack: seq<string>, ups: bool)
    requires stack != [] && Good(stack, ups)
    ensures !Absolute(Flat(stack)) && !Absolute(Trimmed(stack)) && Trimmed(stack) != ""
  {
    assert Flat(stack)[0] == stack[0][0] == Trimmed(stack)[0];
  }

  /** Every name has a normal form. */
  lemma NormalIsNormal(s: string)
    ensures InNormalForm(Normal(s))
  {
    hide From, Flat, Trimmed, Tidy, Good;
    var absolute := Absolute(s);
    var w := From(absolute, [], s);
    GoodNothing(!absolute);
    GoodFrom(absolute, [], s);
    if w.stack != [] {
      FlatTidy(w.stack, !absolute);
      TrimmedIs(w.stack);
      StartsPlain(w.stack, !absolute);
      TidyRoot(absolute, if w.open then Flat(w.stack) else Trimmed(w.stack));
    } else if absolute {
      assert "/"[1..] == "";
      TidyNothing(false);
    }
  }

  lemma GoodNothing(ups: bool)
    ensures Good([], ups)
  {
  }

  // ----- A name in normal form is its own normal form -----

  lemma {:induction false} FlatSnoc(stack: seq<string>, c: string)
    ensures Flat(stack + [c]) == Flat(stack) + c + "/"
  {
    if stack == [] {
      assert (stack + [c])[1..] == [];
    } else {
      assert (stack + [c])[1..] == stack[1..] + [c];
      FlatSnoc(stack[1..], c);
    }
  }

  lemma PrefixSnoc(absolute: bool, stack: seq<string>, c: string)
    ensures Prefix(absolute, stack + [c]) == Prefix(absolute, stack) + c + "/"
  {
    FlatSnoc(stack, c);
  }

  predicate AllUps(stack: seq<string>)
  {
    forall i :: 0 <= i < |stack| ==> stack[i] == ".."
  }

  lemma FirstParts(s: string)
    ensures s == if FirstLen(s) == |s| then s[..FirstLen(s)] else s[..FirstLen(s)] + "/" + AfterFirst(s)
    ensures s != "" ==> |AfterFirst(s)| < |s|
  {
  }

  lemma TidyParts(s: string, ups: bool)
    requires s != "" && Tidy(s, ups)
    ensures var c := s[..FirstLen(s)];
      Plain(c) && (c == ".." ==> ups) && Tidy(AfterFirst(s), ups && c == "..")
  {
  }

  /** Resolving a tidy name keeps all of it. */
  lemma {:induction false} TidyWalk(absolute: bool, stack: seq<string>, s: string, ups: bool)
    requires s != "" && Tidy(s, ups) && (ups ==> !absolute && AllUps(stack))
    ensures Written(absolute, From(absolute, stack, s)) == Prefix(absolute, stack) + s
    decreases |s|
  {
    hide From, Flat, Trimmed, Plain, Tidy, AfterFirst;
    var k := FirstLen(s);
    var c, rest := s[..k], AfterFirst(s);
    TidyParts(s, ups);
    assert c == ".." ==> !GoesUp(absolute, stack);
    FromFirst(absolute, stack, c, rest);
    FirstParts(s);
    if k == |s| {
      TrimmedSnoc(stack, c);
    } else {
      FlatSnoc(stack, c);
      if rest == "" {
        NothingLeft(absolute, stack + [c]);
      } else {
        TidyWalk(absolute, stack + [c], rest, ups && c == "..");
      }
    }
  }

  lemma NothingLeft(absolute: bool, stack: seq<string>)
    ensures From(absolute, stack, "") == Walk(stack, true)
  {
  }

  /** A name is left as it is exactly when it is in normal form. */
  lemma UnchangedExactly(s: string)
    ensures Normal(s) == s <==> InNormalForm(s)
  {
    NormalIsNormal(s);
    if InNormalForm(s) && s != "." {
      if s[0] == '/' {
        RootFirst(s);
        if s[1..] != "" { TidyWalk(true, [], s[1..], false); }
        assert s == "/" + s[1..];
      } else {
        TidyWalk(false, [], s, true);
      }
    }
  }

  lemma RootFirst(s: string)
    requires Absolute(s)
    ensures From(true, [], s) == From(true, [], s[1..])
  {
    assert s[..0] == "";
  }

  /** Normalising twice changes nothing more. */
  lemma NormalIdempotent(s: string)
    ensures Normal(Normal(s)) == Normal(s)
  {
    NormalIsNormal(s);
    UnchangedExactly(Normal(s));
  }

  // ----- The normal form resolves to the same components -----

  lemma {:induction false} FlatWalk(absolute: bool, base: seq<string>, stack: seq<string>, ups: bool)
    requires stack != [] && Good(stack, ups) && (ups ==> !absolute && AllUps(base))
    ensures From(absolute, base, Flat(stack)) == Walk(base + stack, true)
    ensures From(absolute, base, Trimmed(stack)) == Walk(base + stack, false)
    decreases |stack|
  {
    hide From, Plain;
    var c := stack[0];
    var next := base + [c];
    assert Plain(c) && (c == ".." ==> !GoesUp(absolute, base));
    FromFirst(absolute, base, c, Flat(stack[1..]));
    if |stack| == 1 {
      assert next == base + stack;
      NothingLeft(absolute, next);
    } else {
      FromFirst(absolute, base, c, Trimmed(stack[1..]));
      FlatWalk(absolute, next, stack[1..], ups && c == "..");
      assert next + stack[1..] == base + stack;
    }
  }

  /** The name written for components that resolving can reach resolves to them, and to the same end. */
  lemma WrittenWalk(absolute: bool, w: Walk)
    requires Good(w.stack, !absolute)
    ensures var r := Written(absolute, w);
      Absolute(r) == absolute && From(absolute, [], r).stack == w.stack &&
      (w.stack != [] ==> From(absolute, [], r).open == w.open)
  {
    hide From, Flat, Trimmed, Good;
    if w.stack == [] {
      DotAndRoot();
    } else {
      StartsPlain(w.stack, !absolute);
      FlatWalk(absolute, [], w.stack, !absolute);
      assert [] + w.stack == w.stack;
      var body := if w.open then Flat(w.stack) else Trimmed(w.stack);
      if absolute {
        var r := "/" + body;
        assert r[1..] == body;
        RootFirst(r);
      } else {
        assert "" + body == body;
      }
    }
  }

  lemma DotAndRoot()
    ensures From(true, [], "/").stack == [] && From(false, [], ".").stack == []
  {
    RootFirst("/");
    assert "."[..1] == ".";
    FirstIs(".", 1);
  }

  /** A name and its normal form are both absolute or both relative, and lead through the same components. */
  lemma NormalResolves(s: string)
    ensures Absolute(Normal(s)) == Absolute(s) && Resolve(Normal(s)) == Resolve(s)
  {
    hide From, Written, Good;
    var absolute := Absolute(s);
    GoodNothing(!absolute);
    GoodFrom(absolute, [], s);
    WrittenWalk(absolute, From(absolute, [], s));
  }

  /** A name without a slash at its end. */
  function Bare(s: string): string
  {
    if |s| > 1 && s[|s| - 1] == '/' then s[..|s| - 1] else s
  }

  /** Two names have the same normal form, up to a slash at the end, exactly when they lead through the
      same components. */
  lemma SameNormal(s: string, t: string)
    ensures Bare(Normal(s)) == Bare(Normal(t)) <==> Absolute(s) == Absolute(t) && Resolve(s) == Resolve(t)
  {
    hide Bare, Normal, From, Written;
    BareWritten(s);
    BareWritten(t);
  }

  lemma BareWritten(s: string)
    ensures var r := Bare(Normal(s));
      r == Written(Absolute(s), Walk(Resolve(s), false)) && Absolute(r) == Absolute(s) && Resolve(r) == Resolve(s)
  {
    hide From, Flat, Trimmed, Good;
    var absolute := Absolute(s);
    var w := From(absolute, [], s);
    GoodNothing(!absolute);
    GoodFrom(absolute, [], s);
    WrittenWalk(absolute, Walk(w.stack, false));
    if w.stack != [] {
      TrimmedIs(w.stack);
      StartsPlain(w.stack, !absolute);
      TrimmedEnd(w.stack, !absolute);
      var t := Trimmed(w.stack);
      assert (t + "/")[..|t|] == t;
      assert ("/" + (t + "/"))[..|t| + 1] == "/" + t;
    }
  }

  lemma {:induction false} TrimmedEnd(stack: seq<string>, ups: bool)
    requires stack != [] && Good(stack, ups)
    ensures |Trimmed(stack)| > 0 && Trimmed(stack)[|Trimmed(stack)| - 1] != '/'
  {
    if |stack| > 1 { TrimmedEnd(stack[1..], ups && stack[0] == ".."); }
  }

  // ----- What a normal form looks like -----

  /** s[i..j] is a component of s. */
  predicate ComponentAt(s: string, i: int, j: int)
  {
    0 <= i <= j <= |s| && (i == 0 || s[i - 1] == '/') && (j == |s| || s[j] == '/') &&
    forall k :: i <= k < j ==> s[k] != '/'
  }

  lemma {:induction false} TidyShape(s: string, ups: bool, i: int, j: int)
    requires Tidy(s, ups) && ComponentAt(s, i, j)
    ensures i == j ==> i == |s|
    ensures s[i..j] != "."
    ensures s[i..j] == ".." ==> ups && Dots(s[..i])
    decreases |s|
  {
    hide Tidy, Plain, AfterFirst, ComponentAt, Dots;
    if s == "" {
      EmptyAt(i, j);
    } else {
      var f := FirstLen(s);
      TidyParts(s, ups);
      FirstParts(s);
      FirstEnds(s, i, j);
      if i == 0 {
        PlainMeans(s[..f]);
        NoDots();
      } else {
        AfterIs(s);
        TidyShape(s[f + 1..], ups && s[..f] == "..", i - f - 1, j - f - 1);
        SliceShifted(s, f + 1, i, j);
        if s[i..j] == ".." { MoreDots(s, i); }
      }
    }
  }

  lemma EmptyAt(i: int, j: int)
    requires ComponentAt("", i, j)
    ensures i == j == 0
  {
  }

  lemma NoDots()
    ensures Dots("")
  {
  }

  lemma FirstEnds(s: string, i: int, j: int)
    requires ComponentAt(s, i, j)
    ensures 0 <= i <= j <= |s|
    ensures i == 0 ==> j == FirstLen(s) && s[i..j] == s[..FirstLen(s)]
    ensures i > 0 ==> FirstLen(s) < i && ComponentAt(s[FirstLen(s) + 1..], i - FirstLen(s) - 1, j - FirstLen(s) - 1)
  {
  }

  lemma SliceShifted(s: string, f: nat, i: int, j: int)
    requires f <= i <= j <= |s|
    ensures s[f..][i - f..j - f] == s[i..j]
  {
  }

  /** Nothing but "../" */
  predicate Dots(s: string)
    decreases |s|
  {
    s == "" || (|s| >= 3 && s[..3] == "../" && Dots(s[3..]))
  }

  lemma MoreDots(s: string, i: nat)
    requires FirstLen(s) < i <= |s|
    requires s[..FirstLen(s)] == ".." && Dots(s[FirstLen(s) + 1..][..i - FirstLen(s) - 1])
    ensures Dots(s[..i])
  {
    assert s[..i][..3] == s[..2] + [s[2]];
    assert s[..i][3..] == s[3..][..i - 3];
  }

  lemma PlainMeans(c: string)
    ensures Plain(c) <==> c != "" && c != "." && '/' !in c
  {
  }

  lemma AfterIs(s: string)
    requires FirstLen(s) < |s|
    ensures AfterFirst(s) == s[FirstLen(s) + 1..]
  {
  }

  /** In a normal form no component is empty, except at either end; none is "." unless it is the whole
      name; and ".." is found only in a relative name, with nothing but ".." before it. */
  lemma NormalShape(s: string, i: int, j: int)
    requires ComponentAt(Normal(s), i, j)
    ensures var r := Normal(s);
      (i == j ==> i == 0 || i == |r|) && (r[i..j] == "." ==> r == ".") &&
      (r[i..j] == ".." ==> !Absolute(s) && Dots(r[..i]))
  {
    hide Normal, Tidy;
    NormalIsNormal(s);
    NormalResolves(s);
    var r := Normal(s);
    if r == "." {
    } else if r[0] == '/' {
      if i > 0 {
        assert r[1..][i - 1..j - 1] == r[i..j];
        TidyShape(r[1..], false, i - 1, j - 1);
      }
    } else {
      TidyShape(r, true, i, j);
    }
  }
}
