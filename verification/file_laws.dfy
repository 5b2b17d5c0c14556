/** What the parts of a file name mean: laws on names put together, which do not mention how they are resolved. */
module FileLaws {
  import opened FileNames

  /** A component that names something. */
  predicate Plain(c: string)
  {
    c != "" && c != "." && c != ".." && forall i :: 0 <= i < |c| ==> c[i] != '/'
  }

  lemma {:induction false} FromSnoc(absolute: bool, stack: seq<string>, s: string, c: string)
    requires s != "" && forall i :: 0 <= i < |c| ==> c[i] != '/'
    ensures From(absolute, stack, s + "/" + c).stack == Step(absolute, From(absolute, stack, s).stack, c)
    decreases |s|
  {
    var t := s + "/" + c;
    var k := FirstLen(s);
    FirstIs(t, k);
    assert t[..k] == s[..k];
    var next := Step(absolute, stack, s[..k]);
    if k == |s| {
      assert t[k + 1..] == c;
      LastPart(absolute, next, c);
    } else {
      assert t[k + 1..] == s[k + 1..] + "/" + c;
      if s[k + 1..] == "" {
        assert "" + "/" + c == "/" + c;
        EmptyFirst(absolute, next, c);
      } else {
        FromSnoc(absolute, next, s[k + 1..], c);
      }
    }
  }

  lemma LastPart(absolute: bool, stack: seq<string>, c: string)
    requires forall i :: 0 <= i < |c| ==> c[i] != '/'
    ensures From(absolute, stack, c).stack == Step(absolute, stack, c)
  {
    if c != "" {
      FirstIs(c, |c|);
      assert c[..|c|] == c;
    }
  }

  lemma EmptyFirst(absolute: bool, stack: seq<string>, c: string)
    requires forall i :: 0 <= i < |c| ==> c[i] != '/'
    ensures From(absolute, stack, "/" + c).stack == Step(absolute, stack, c)
  {
    FirstIs("/" + c, 0);
    assert ("/" + c)[1..] == c;
    LastPart(absolute, stack, c);
  }

  lemma Snoc(s: string, c: string)
    requires s != "" && forall i :: 0 <= i < |c| ==> c[i] != '/'
    ensures Absolute(s + "/" + c) == Absolute(s)
    ensures Resolve(s + "/" + c) == Step(Absolute(s), Resolve(s), c)
  {
    FromSnoc(Absolute(s), [], s, c);
  }

  /** A name of one component leads to it, from the root or from where one is. */
  lemma FirstResolves(c: string)
    requires Plain(c)
    ensures Resolve(c) == [c] == Resolve("/" + c) && Resolve("") == [] == Resolve("/")
  {
    LastPart(false, [], c);
    EmptyFirst(true, [], c);
    EmptyFirst(true, [], "");
    assert "/" + "" == "/";
  }

  /** `s/c` leads one component further; `s/` and `s/.` lead where s does. */
  lemma ChildResolves(s: string, c: string)
    requires s != "" && Plain(c)
    ensures Resolve(s + "/" + c) == Resolve(s) + [c]
    ensures Resolve(s + "/") == Resolve(s) && Resolve(s + "/.") == Resolve(s)
  {
    Snoc(s, c);
    Snoc(s, "");
    Snoc(s, ".");
    assert s + "/" + "" == s + "/" && s + "/" + "." == s + "/.";
  }

  /** `s/..` leads one component back; from the root it stays there, and a relative name that has nothing to go back to
      keeps the dots. */
  lemma ParentResolves(s: string)
    requires s != ""
    ensures var r := Resolve(s);
      Resolve(s + "/..") ==
        if r != [] && r[|r| - 1] != ".." then r[..|r| - 1] else if Absolute(s) && r == [] then [] else r + [".."]
  {
    Snoc(s, "..");
    assert s + "/" + ".." == s + "/..";
  }

  /** Going to a component and back is going nowhere, and expanding shows it. */
  lemma ThereAndBack(s: string, c: string)
    requires s != "" && Plain(c)
    ensures Resolve(s + "/" + c + "/..") == Resolve(s)
    ensures Bare(Normal(s + "/" + c + "/..")) == Bare(Normal(s))
  {
    hide Resolve, Normal, Bare, Step, Absolute;
    ChildResolves(s, c);
    ParentResolves(s + "/" + c);
    Snoc(s, c);
    Snoc(s + "/" + c, "..");
    assert s + "/" + c + "/" + ".." == s + "/" + c + "/..";
    SameNormal(s + "/" + c + "/..", s);
  }
}
