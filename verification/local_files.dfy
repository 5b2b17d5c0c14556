/** Expanding file names in a buffer. */
module LocalFiles {
  import opened FileNames

  // ----- One component -----

  lemma Component(absolute: bool, stack: seq<string>, file: string, i: nat, k: nat)
    requires i < |file| && k == FirstLen(file[i..])
    ensures i + k < |file| ==>
      From(absolute, stack, file[i..]) == From(absolute, Step(absolute, stack, file[i..i + k]), file[i + k + 1..])
    ensures i + k == |file| ==>
      From(absolute, stack, file[i..]) ==
      Walk(Step(absolute, stack, file[i..i + k]), !Kept(absolute, stack, file[i..i + k]))
  {
    var s := file[i..];
    assert s[..k] == file[i..i + k];
    if i + k < |file| { assert s[k + 1..] == file[i + k + 1..]; }
  }

  /** A component of one or two characters at the start of the rest of a name. */
  lemma ShortComponent(file: string, i: nat, k: nat)
    requires k <= 2 && i + k <= |file| && (i + k < |file| ==> file[i + k] == '/')
    requires forall j | i <= j < i + k :: file[j] == '.'
    ensures FirstLen(file[i..]) == k
    ensures k == 1 ==> file[i..i + k] == "."
    ensures k == 2 ==> file[i..i + k] == ".."
  {
    FirstIs(file[i..], k);
  }

  lemma SkipSlash(absolute: bool, stack: seq<string>, file: string, i: nat)
    requires i < |file| && file[i] == '/'
    ensures From(absolute, stack, file[i..]) == From(absolute, stack, file[i + 1..])
  {
    ShortComponent(file, i, 0);
    Component(absolute, stack, file, i, 0);
  }

  // ----- What the buffer holds -----

  /** Everything before place i has been resolved to stack. */
  ghost predicate Resolved(file: string, i: nat, stack: seq<string>)
    requires i <= |file|
  {
    Good(stack, !Absolute(file)) && From(Absolute(file), [], file) == From(Absolute(file), stack, file[i..])
  }

  /** And out is what is written of it. */
  ghost predicate Open(file: string, i: nat, out: string, stack: seq<string>)
    requires i <= |file|
  {
    Resolved(file, i, stack) && out == Prefix(Absolute(file), stack)
  }

  /** The whole name has been written, and its last component stands for itself. */
  ghost predicate Closed(file: string, i: nat, out: string)
  {
    i == |file| && out == Normal(file)
  }

  ghost predicate Built(file: string, i: nat, out: string, stack: seq<string>)
    requires i <= |file|
  {
    Open(file, i, out, stack) || Closed(file, i, out)
  }

  /** At the start of a component. */
  ghost predicate Ready(file: string, i: nat, out: string, stack: seq<string>)
    requires i <= |file|
  {
    if i == 0 then out == "" && stack == []
    else Built(file, i, out, stack) && (i < |file| ==> file[i] != '/')
  }

  /** Where a component other than the root begins, the buffer holds the components so far. */
  lemma ReadyIsOpen(file: string, i: nat, out: string, stack: seq<string>)
    requires i < |file| && Ready(file, i, out, stack) && file[i] != '/'
    ensures Open(file, i, out, stack)
  {
    assert i == 0 ==> file[i..] == file;
  }

  lemma {:induction false} PrefixEmpty(absolute: bool, stack: seq<string>)
    ensures Prefix(absolute, stack) == "" <==> !absolute && stack == []
  {
  }

  /** A finished buffer. */
  lemma Finished(file: string, out: string, stack: seq<string>)
    requires Ready(file, |file|, out, stack)
    ensures Normal(file) == if out == "" then "." else out
  {
    hide Good;
    assert file[|file|..] == "";
    if |file| > 0 && Open(file, |file|, out, stack) {
      PrefixEmpty(Absolute(file), stack);
    } else if |file| > 0 {
      NormalNonempty(file);
    }
  }

  lemma NormalNonempty(s: string)
    ensures Normal(s) != ""
  {
    hide Normal;
    NormalIsNormal(s);
  }

  // ----- One step of the loop -----

  lemma ReadyToStart(file: string)
    ensures Ready(file, 0, "", [])
  {
  }

  lemma IsReady(file: string, i: nat, out: string, stack: seq<string>)
    requires 0 < i <= |file| && Built(file, i, out, stack) && (i < |file| ==> file[i] != '/')
    ensures Ready(file, i, out, stack)
  {
  }

  lemma Skipped(file: string, i: nat, out: string, stack: seq<string>)
    requires i < |file| && file[i] == '/' && Built(file, i, out, stack)
    ensures Built(file, i + 1, out, stack)
  {
    SkipSlash(Absolute(file), stack, file, i);
  }

  function Next(file: string, i: nat, k: nat): nat
  {
    if i + k < |file| then i + k + 1 else i + k
  }

  function Slash(file: string, i: nat): string
  {
    if i < |file| then "/" else ""
  }

  /** A component that is not written. */
  lemma Dropped(file: string, i: nat, k: nat, stack: seq<string>)
    requires i < |file| && Resolved(file, i, stack) && k == FirstLen(file[i..])
    requires !Kept(Absolute(file), stack, file[i..i + k])
    ensures var next := Step(Absolute(file), stack, file[i..i + k]);
      Open(file, Next(file, i, k), Prefix(Absolute(file), next), next)
  {
    hide Step, Good, Kept, FirstLen, Prefix, From;
    Component(Absolute(file), stack, file, i, k);
    GoodStep(Absolute(file), stack, file[i..i + k]);
    var next := Step(Absolute(file), stack, file[i..i + k]);
    if i + k == |file| {
      assert file[|file|..] == "";
      NothingLeft(Absolute(file), next);
    }
  }

  /** A component that is. */
  lemma Copied(file: string, i: nat, k: nat, out: string, stack: seq<string>)
    requires i < |file| && Open(file, i, out, stack) && k == FirstLen(file[i..])
    requires Kept(Absolute(file), stack, file[i..i + k])
    ensures Built(file, Next(file, i, k), out + file[i..i + k] + Slash(file, i + k), stack + [file[i..i + k]])
  {
    hide Good, FirstLen, Prefix, From;
    var absolute, c := Absolute(file), file[i..i + k];
    Component(absolute, stack, file, i, k);
    GoodStep(absolute, stack, c);
    if i + k < |file| {
      PrefixSnoc(absolute, stack, c);
    } else {
      ClosedWritten(absolute, stack, c);
      assert out + c + "" == out + c;
    }
  }

  lemma ClosedWritten(absolute: bool, stack: seq<string>, c: string)
    ensures Written(absolute, Walk(stack + [c], false)) == Prefix(absolute, stack) + c
  {
    TrimmedSnoc(stack, c);
  }

  /** "./" */
  lemma DotSlash(file: string, i: nat, out: string, stack: seq<string>)
    requires i + 1 < |file| && file[i] == '.' && file[i + 1] == '/' && Open(file, i, out, stack)
    ensures Open(file, i + 1, out, stack)
  {
    hide From, Good, Prefix, FirstLen;
    ShortComponent(file, i, 1);
    Component(Absolute(file), stack, file, i, 1);
    SkipSlash(Absolute(file), stack, file, i + 1);
  }

  /** "." at the end */
  lemma LastDot(file: string, out: string, stack: seq<string>)
    requires |file| > 0 && file[|file| - 1] == '.' && Open(file, |file| - 1, out, stack)
    ensures if out == "" then Closed(file, |file|, ".") else Open(file, |file|, out, stack)
  {
    hide From, Good;
    var absolute, i := Absolute(file), |file| - 1;
    ShortComponent(file, i, 1);
    Component(absolute, stack, file, i, 1);
    assert file[|file|..] == "";
    NothingLeft(absolute, stack);
    PrefixEmpty(absolute, stack);
  }

  /** A component that is neither "." nor "..". */
  lemma OtherComponent(file: string, i: nat, k: nat, stack: seq<string>)
    requires i < |file| && k == FirstLen(file[i..]) && file[i] != '/'
    requires !(file[i] == '.' && (i + 1 == |file| || file[i + 1] == '/'))
    requires !(file[i] == '.' && file[i + 1] == '.' && (i + 2 == |file| || file[i + 2] == '/'))
    ensures Kept(Absolute(file), stack, file[i..i + k])
  {
    var s := file[i..];
    assert k > 0;
    assert forall j | 0 <= j < k :: s[j] == file[i..i + k][j];
    if i + k < |file| { assert s[k] == file[i + k]; }
  }

  /** Copying a component, or the slash of an absolute name. */
  lemma CopiedAny(file: string, i: nat, k: nat, out: string, stack: seq<string>) returns (next: seq<string>)
    requires i < |file| && k == FirstLen(file[i..]) && Ready(file, i, out, stack)
    requires !(file[i] == '.' && (i + 1 == |file| || file[i + 1] == '/'))
    requires !(file[i] == '.' && file[i + 1] == '.' && (i + 2 == |file| || file[i + 2] == '/'))
    ensures Built(file, Next(file, i, k), out + file[i..i + k] + Slash(file, i + k), next)
  {
    hide FirstLen, From, Good, Prefix;
    if file[i] == '/' {
      assert i == 0 && file[i..] == file;
      GoodNothing(!Absolute(file));
      ShortComponent(file, 0, 0);
      Dropped(file, 0, 0, []);
      PrefixOfNone(true);
      next := [];
    } else {
      ReadyIsOpen(file, i, out, stack);
      OtherComponent(file, i, k, stack);
      Copied(file, i, k, out, stack);
      next := stack + [file[i..i + k]];
    }
  }

  // ----- Going up -----

  predicate AllDots(c: string)
  {
    forall k :: 0 <= k < |c| ==> c[k] == '.'
  }

  lemma TwoDots(c: string)
    ensures c == ".." <==> AllDots(c) && |c| == 2
  {
    if AllDots(c) && |c| == 2 { assert c == [c[0], c[1]]; }
  }

  lemma LastOf(absolute: bool, stack: seq<string>)
    requires stack != []
    ensures var n := |stack| - 1; Prefix(absolute, stack) == Prefix(absolute, stack[..n]) + stack[n] + "/"
  {
    var n := |stack| - 1;
    assert stack == stack[..n] + [stack[n]];
    PrefixSnoc(absolute, stack[..n], stack[n]);
  }

  lemma EndsInSlash(absolute: bool, stack: seq<string>)
    ensures var p := Prefix(absolute, stack); p == "" || p[|p| - 1] == '/'
  {
    if stack != [] { LastOf(absolute, stack); }
  }

  /** What stepping back over the last component leaves: where it begins, where it ends, and whether it
      consists of dots.  Without a component, both places are the start of the buffer. */
  ghost predicate SteppedBack(absolute: bool, stack: seq<string>, back: nat, end: nat, allDots: bool)
  {
    if stack == [] then back == end == 0 && allDots
    else
      var n := |stack| - 1;
      back == |Prefix(absolute, stack[..n])| && end == back + |stack[n]| && (allDots <==> AllDots(stack[n]))
  }

  lemma LastComponent(absolute: bool, stack: seq<string>, out: string) returns (start: nat, c: string)
    requires out == Prefix(absolute, stack) && Good(stack, !absolute)
    ensures start + |c| <= |out|
    ensures forall k :: start <= k < start + |c| ==> out[k] == c[k - start] != '/'
    ensures start == 0 || out[start - 1] == '/'
    ensures c == "" ==> start == 0
    ensures forall k :: start + |c| <= k < |out| ==> out[k] == '/'
    ensures SteppedBack(absolute, stack, start, start + |c|, AllDots(c))
  {
    hide Prefix, Good;
    if stack == [] {
      start, c := 0, "";
      PrefixOfNone(absolute);
    } else {
      var n := |stack| - 1;
      GoodAt(stack, !absolute, n);
      LastOf(absolute, stack);
      EndsInSlash(absolute, stack[..n]);
      start, c := |Prefix(absolute, stack[..n])|, stack[n];
    }
  }

  method StepBack(buf: array<char>, optr: nat, ghost absolute: bool, ghost stack: seq<string>)
    returns (back: nat, end: nat, allDots: bool)
    requires optr <= buf.Length && buf[..optr] == Prefix(absolute, stack) && Good(stack, !absolute)
    ensures SteppedBack(absolute, stack, back, end, allDots)
    ensures back <= end <= optr
  {
    hide *;
    ghost var out := buf[..optr];
    ghost var start, c := LastComponent(absolute, stack, out);
    assert forall k | start <= k < start + |c| :: out[k] != '/';
    back := optr;
    while back > 0 && buf[back - 1] == '/'
      invariant start + |c| <= back <= optr
    {
      assert out[back - 1] == '/';
      back := back - 1;
    }
    assert back < optr ==> out[back] == '/';
    end := back;
    allDots := true;
    while back > 0 && buf[back - 1] != '/'
      invariant start <= back <= end
      invariant allDots <==> forall k :: back <= k < end ==> out[k] == '.'
    {
      assert out[back - 1] != '/';
      back := back - 1;
      if buf[back] != '.' { allDots := false; assert out[back] != '.'; }
    }
    DotsAt(out, start, c);
  }

  lemma DotsAt(out: string, start: nat, c: string)
    requires start + |c| <= |out| && forall k :: start <= k < start + |c| ==> out[k] == c[k - start] != '/'
    ensures AllDots(c) <==> forall k :: start <= k < start + |c| ==> out[k] == '.'
  {
    assert forall k | 0 <= k < |c| :: c[k] == out[start + k];
  }

  lemma PrefixOfNone(absolute: bool)
    ensures Prefix(absolute, []) == if absolute then "/" else ""
  {
  }

  /** The test for a component to go up from, and the test for the root. */
  lemma UpTests(absolute: bool, stack: seq<string>, out: string, back: nat, end: nat, allDots: bool)
    requires Good(stack, !absolute) && out == Prefix(absolute, stack)
    requires SteppedBack(absolute, stack, back, end, allDots)
    ensures (back < |out| && out[back] != '/' && (!allDots || end - back != 2)) <==>
            stack != [] && stack[|stack| - 1] != ".."
    ensures (allDots && end == back && back == 0 && |out| > 0 && out[0] == '/' && |out| - end == 1) <==>
            absolute && stack == []
    ensures stack != [] ==> back < |out| && out[..back] == Prefix(absolute, stack[..|stack| - 1])
  {
    hide Good, Prefix;
    if stack == [] {
      PrefixOfNone(absolute);
    } else {
      var n := |stack| - 1;
      var p, c := Prefix(absolute, stack[..n]), stack[n];
      GoodAt(stack, !absolute, n);
      LastOf(absolute, stack);
      TwoDots(c);
      assert out[|p|] == c[0] != '/';
    }
  }

  /** ".." */
  method Parent(file: string, iptr: nat, buf: array<char>, optr: nat, ghost stack: seq<string>)
    returns (optr': nat, ghost next: seq<string>)
    requires iptr + 1 < |file| && optr <= iptr && buf.Length == |file| + 1
    requires file[iptr] == '.' && file[iptr + 1] == '.' && (iptr + 2 == |file| || file[iptr + 2] == '/')
    requires Open(file, iptr, buf[..optr], stack)
    modifies buf
    ensures optr' <= Next(file, iptr, 2) && Built(file, Next(file, iptr, 2), buf[..optr'], next)
  {
    hide *;
    ghost var absolute := Absolute(file);
    ghost var out := buf[..optr];
    OpenMeans(file, iptr, out, stack);
    var back, end, allDots := StepBack(buf, optr, absolute, stack);
    UpTests(absolute, stack, out, back, end, allDots);
    ShortComponent(file, iptr, 2);
    NextOf(file, iptr);
    UpStep(absolute, stack);
    next := Step(absolute, stack, "..");
    if !Kept(absolute, stack, "..") {
      Dropped(file, iptr, 2, stack);
      OpenIsBuilt(file, Next(file, iptr, 2), Prefix(absolute, next), next);
    } else {
      Copied(file, iptr, 2, out, stack);
    }
    if back < optr && buf[back] != '/' && (!allDots || end - back != 2) {
      assert buf[..back] == out[..back];
      optr' := back;
    } else if allDots && end == back && back == 0 && optr > 0 && buf[0] == '/' && optr - end == 1 {
      assert buf[..1] == "/";
      optr' := back + 1;
    } else {
      buf[optr] := '.';
      buf[optr + 1] := '.';
      optr' := optr + 2;
      assert buf[..optr'] == out + "..";
      if iptr + 2 < |file| {
        buf[optr'] := '/';
        optr' := optr' + 1;
        assert buf[..optr'] == out + ".." + "/";
      } else {
        assert out + ".." + "" == out + "..";
      }
    }
  }

  lemma OpenMeans(file: string, i: nat, out: string, stack: seq<string>)
    requires i <= |file| && Open(file, i, out, stack)
    ensures Resolved(file, i, stack) && Good(stack, !Absolute(file)) && out == Prefix(Absolute(file), stack)
  {
  }

  lemma OpenIsBuilt(file: string, i: nat, out: string, stack: seq<string>)
    requires i <= |file| && Open(file, i, out, stack)
    ensures Built(file, i, out, stack)
  {
  }

  lemma ClosedIsBuilt(file: string, out: string, stack: seq<string>)
    requires Closed(file, |file|, out)
    ensures Built(file, |file|, out, stack)
  {
  }

  lemma UpStep(absolute: bool, stack: seq<string>)
    ensures Kept(absolute, stack, "..") <==> if stack == [] then !absolute else stack[|stack| - 1] == ".."
    ensures Step(absolute, stack, "..") ==
      if Kept(absolute, stack, "..") then stack + [".."] else if stack == [] then [] else stack[..|stack| - 1]
    ensures Prefix(true, []) == "/"
  {
  }

  lemma NextIs(file: string, i: nat, k: nat)
    requires i + k <= |file|
    ensures Next(file, i, k) == if i + k == |file| then i + k else i + k + 1
    ensures Slash(file, i + k) == if i + k == |file| then "" else "/"
  {
  }

  lemma NextOf(file: string, i: nat)
    requires i + 2 <= |file|
    ensures Next(file, i, 2) == if i + 2 == |file| then i + 2 else i + 3
    ensures Slash(file, i + 2) == if i + 2 == |file| then "" else "/"
  {
  }

  // ----- rep_expand_file_name -----

  method CopyComponent(file: string, iptr: nat, buf: array<char>, optr: nat, ghost stack: seq<string>)
    returns (iptr': nat, optr': nat, ghost next: seq<string>)
    requires iptr < |file| && optr <= iptr && buf.Length == |file| + 1
    requires Ready(file, iptr, buf[..optr], stack)
    requires !(file[iptr] == '.' && (iptr + 1 == |file| || file[iptr + 1] == '/'))
    requires !(file[iptr] == '.' && file[iptr + 1] == '.' && (iptr + 2 == |file| || file[iptr + 2] == '/'))
    modifies buf
    ensures iptr < iptr' <= |file| && optr' <= iptr' && Built(file, iptr', buf[..optr'], next)
  {
    hide *;
    var end := iptr + FirstLen(file[iptr..]);
    ghost var out := buf[..optr];
    next := CopiedAny(file, iptr, end - iptr, out, stack);
    NextIs(file, iptr, end - iptr);
    StartsWithSlash(file, iptr);
    forall k | iptr <= k < end { buf[optr + k - iptr] := file[k]; }
    iptr', optr' := end, optr + end - iptr;
    assert buf[..optr'] == out + file[iptr..end];
    if iptr' < |file| && file[iptr'] == '/' {
      buf[optr'] := file[iptr'];
      assert buf[..optr' + 1] == out + file[iptr..end] + "/";
      iptr', optr' := iptr' + 1, optr' + 1;
    } else {
      assert out + file[iptr..end] + "" == out + file[iptr..end];
    }
  }

  /** The first component is empty only in front of a slash. */
  lemma StartsWithSlash(file: string, i: nat)
    requires i < |file|
    ensures var k := FirstLen(file[i..]); (k == 0 ==> file[i] == '/') && (i + k < |file| ==> file[i + k] == '/')
  {
    var k := FirstLen(file[i..]);
    if i + k < |file| { assert file[i..][k] == file[i + k]; }
  }

  /** The normal form of a file name, built in a buffer no longer than the name. */
  method ExpandFileName(file: string) returns (r: string)
    ensures r == Normal(file)
    ensures |r| <= if |file| == 0 then 1 else |file|
  {
    hide *;
    var buf := new char[|file| + 1];
    var iptr, optr := 0, 0;
    ghost var absolute := Absolute(file);
    ghost var stack: seq<string> := [];
    ReadyToStart(file);
    while iptr < |file|
      invariant iptr <= |file| && optr <= iptr
      invariant Ready(file, iptr, buf[..optr], stack)
      decreases |file| - iptr
    {
      ghost var i := iptr;
      var dots := file[iptr] == '.';
      if dots && iptr + 1 < |file| && file[iptr + 1] == '/' {
        ReadyIsOpen(file, i, buf[..optr], stack);
        DotSlash(file, i, buf[..optr], stack);
        OpenIsBuilt(file, i + 1, buf[..optr], stack);
        iptr := iptr + 1;
      } else if dots && iptr + 1 == |file| {
        ReadyIsOpen(file, i, buf[..optr], stack);
        LastDot(file, buf[..optr], stack);
        assert buf[..optr] == "" <==> optr == 0;
        if optr == 0 {
          buf[optr] := '.';
          optr := optr + 1;
          assert buf[..optr] == ".";
          ClosedIsBuilt(file, ".", stack);
        } else {
          OpenIsBuilt(file, |file|, buf[..optr], stack);
        }
        iptr := iptr + 1;
      } else if dots && file[iptr + 1] == '.' && (iptr + 2 == |file| || file[iptr + 2] == '/') {
        ReadyIsOpen(file, i, buf[..optr], stack);
        optr, stack := Parent(file, iptr, buf, optr, stack);
        NextOf(file, i);
        iptr := iptr + if iptr + 2 == |file| then 2 else 3;
      } else {
        iptr, optr, stack := CopyComponent(file, iptr, buf, optr, stack);
      }
      while iptr < |file| && file[iptr] == '/'
        invariant i < iptr <= |file| && optr <= iptr
        invariant Built(file, iptr, buf[..optr], stack)
      {
        Skipped(file, iptr, buf[..optr], stack);
        iptr := iptr + 1;
      }
      IsReady(file, iptr, buf[..optr], stack);
    }
    Finished(file, buf[..optr], stack);
    if optr == 0 {
      buf[optr] := '.';
      optr := optr + 1;
      assert buf[..optr] == ".";
    }
    r := buf[..optr];
  }
}
