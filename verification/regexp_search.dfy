/** Searching: the leftmost position at which the program matches.  The filters that spare attempts
    change nothing. */
module RegexpSearch {
  import opened RegexpCode
  import opened RegexpSyntax
  import opened RegexpLayout
  import opened RegexpSemantics
  import opened RegexpMachine
  import opened RegexpAgreement
  import opened RegexpDenotes
  import opened RegexpStrings
  import opened RegexpMatcher
  import opened RegexpProgram

  /** The plain search: every position in turn, the end of the input included. */
  function Scan(su: Subject, max: int, alts: Alts, i: nat): (found: int)
    requires alts.ACons? && WfAlts(alts) && i <= |su.text| + 1
    ensures found == NULL || (i <= found <= |su.text| && TryAt(su, max, alts, found).ok)
    ensures forall j :: i <= j <= |su.text| && (found == NULL || j < found) ==> !TryAt(su, max, alts, j).ok
    decreases |su.text| + 1 - i
  {
    if i > |su.text| then NULL
    else if TryAt(su, max, alts, i).ok then i
    else Scan(su, max, alts, i + 1)
  }

  /** An attempt reports an outcome; unless it was cut short, the preferred one, and fails only if
      there is none. */
  lemma TryMeans(su: Subject, max: int, alts: Alts, i: nat)
    requires alts.ACons? && WfAlts(alts) && i <= |su.text|
    ensures Agrees(TryAt(su, max, alts, i), OutAlts(su, alts, i))
  {
    hide Run, Means, Then, OutAlts, Agrees;
    var k := Choose(alts, Done);
    assert WfCont(Done) && Progress(Done, i, AltsWidth(alts));
    ThenDone(su, OutAlts(su, alts, i));
    ChooseMeans(su, alts, Done, i);
    if 0 >= max {
      CutShort(OutAlts(su, alts, i));
    } else {
      RunAgrees(su, max, k, i, 0);
    }
  }

  lemma CutShort(os: seq<Outcome>)
    ensures Agrees(Result(false, 0, [], true), os)
  {
  }

  lemma {:induction false} ThenDone(su: Subject, os: seq<Outcome>)
    requires Between(os, 0, |su.text|)
    ensures Then(su, os, Done) == os
  {
    if os != [] {
      ThenDone(su, os[1..]);
      assert Prefix(os[0].trace, [Outcome(os[0].end, [])]) == [os[0]] by {
        assert os[0].trace + [] == os[0].trace;
      }
      assert os == [os[0]] + os[1..];
    }
  }

  /** Nothing matches at any position below `n`. */
  ghost predicate NoneBelow(su: Subject, alts: Alts, n: nat)
    requires WfAlts(alts)
  {
    forall i :: 0 <= i < n && i <= |su.text| ==> OutAlts(su, alts, i) == []
  }

  /** `at` is the leftmost position at which the expression matches, NULL if there is none, and an
      attempt there reports the preferred outcome. */
  ghost predicate Leftmost(su: Subject, max: int, alts: Alts, at: int)
    requires alts.ACons? && WfAlts(alts)
  {
    if at == NULL then NoneBelow(su, alts, |su.text| + 1)
    else
      0 <= at <= |su.text| && NoneBelow(su, alts, at) && OutAlts(su, alts, at) != [] &&
      (var r := TryAt(su, max, alts, at); OutAlts(su, alts, at)[0] == Outcome(r.end, r.trace))
  }

  /** What the search finds is a match; it is the leftmost one, with the preferred outcome, unless the
      recursion limit was hit at a position up to it. */
  lemma ScanMeans(su: Subject, max: int, alts: Alts)
    requires alts.ACons? && WfAlts(alts)
    ensures var at := Scan(su, max, alts, 0);
      && (at != NULL ==> var r := TryAt(su, max, alts, at); Outcome(r.end, r.trace) in OutAlts(su, alts, at))
      && ((forall i :: 0 <= i <= |su.text| && (at == NULL || i <= at) ==> !TryAt(su, max, alts, i).over) ==>
          Leftmost(su, max, alts, at))
  {
    hide TryAt, OutAlts;
    forall i | 0 <= i <= |su.text| ensures Agrees(TryAt(su, max, alts, i), OutAlts(su, alts, i)) {
      TryMeans(su, max, alts, i);
    }
    var at := Scan(su, max, alts, 0);
    if at != NULL {
      assert Agrees(TryAt(su, max, alts, at), OutAlts(su, alts, at));
    }
  }

  /** A failed attempt that was not cut short is one more position without a match. */
  lemma FailedTry(su: Subject, max: int, alts: Alts, i: nat)
    requires alts.ACons? && WfAlts(alts) && i <= |su.text| && NoneBelow(su, alts, i)
    requires !TryAt(su, max, alts, i).ok && !TryAt(su, max, alts, i).over
    ensures NoneBelow(su, alts, i + 1)
  {
    hide TryAt, OutAlts;
    TryMeans(su, max, alts, i);
  }

  /** A successful attempt that was not cut short. */
  lemma FirstTry(su: Subject, max: int, alts: Alts, i: nat)
    requires alts.ACons? && WfAlts(alts) && i <= |su.text| && NoneBelow(su, alts, i)
    requires TryAt(su, max, alts, i).ok && !TryAt(su, max, alts, i).over
    ensures Leftmost(su, max, alts, i)
  {
    hide TryAt, OutAlts;
    TryMeans(su, max, alts, i);
  }

  // ----- What the hints say about matches -----

  /** Where nothing can match, an attempt fails. */
  lemma Hopeless0(su: Subject, max: int, alts: Alts, i: nat)
    requires alts.ACons? && WfAlts(alts) && i <= |su.text| && OutAlts(su, alts, i) == []
    ensures !TryAt(su, max, alts, i).ok
  {
    hide TryAt, OutAlts;
    TryMeans(su, max, alts, i);
  }

  lemma OneAlternative(su: Subject, alts: Alts, i: nat)
    requires alts.ACons? && alts.rest.ANil? && WfAlts(alts) && i <= |su.text|
    ensures OutAlts(su, alts, i) == OutPieces(su, alts.first, i)
  {
    hide OutPieces;
    assert OutAlts(su, alts.rest, i) == [];
  }

  lemma StartMatters(su: Subject, alts: Alts, i: nat)
    requires WfAlts(alts) && i <= |su.text| && StartHint(alts) != 0 && OutAlts(su, alts, i) != []
    ensures i < |su.text| && Same(su, StartHint(alts), su.text[i])
  {
    hide OutAlts;
    var p, text := alts.first.head, Literal1(alts.first.head);
    OneAlternative(su, alts, i);
    assert OutPiece(su, p, i) != [];
    assert TextAt(su, text, i);
    assert Same(su, text[0], su.text[i + 0]);
  }

  lemma AnchorMatters(su: Subject, alts: Alts, i: nat)
    requires WfAlts(alts) && i <= |su.text| && AnchorHint(alts) && OutAlts(su, alts, i) != []
    ensures i == 0
  {
    hide OutAlts;
    OneAlternative(su, alts, i);
    assert OutPiece(su, alts.first.head, i) != [];
  }

  ghost predicate Has(ps: Pieces, t: seq<Byte>)
  {
    ps.PCons? && (Literal1(ps.head) == t || Has(ps.tail, t))
  }

  lemma {:induction false} MustHas(ps: Pieces, best: seq<Byte>)
    ensures Must(ps, best) == best || Has(ps, Must(ps, best))
  {
    if ps.PCons? {
      var p := ps.head;
      MustHas(ps.tail, if p.quant.One? && p.atom.Literal? && |p.atom.text| >= |best| then p.atom.text else best);
    }
  }

  lemma {:induction false} ChainSome(su: Subject, os: seq<Outcome>, rest: Pieces, lo: nat) returns (j: nat)
    requires WfPieces(rest) && Between(os, lo, |su.text|) && Chain(su, os, rest, lo) != []
    ensures j < |os| && OutPieces(su, rest, os[j].end) != []
    decreases |os|
  {
    hide OutPieces;
    if OutPieces(su, rest, os[0].end) != [] {
      j := 0;
    } else {
      var m := ChainSome(su, os[1..], rest, lo);
      j := m + 1;
    }
  }

  lemma {:induction false} HasMatters(su: Subject, ps: Pieces, t: seq<Byte>, i: nat) returns (j: nat)
    requires WfPieces(ps) && i <= |su.text| && Has(ps, t) && t != [] && OutPieces(su, ps, i) != []
    ensures TextAt(su, t, j)
  {
    var lo := if PieceWidth(ps.head) then i + 1 else i;
    var m := ChainSome(su, OutPiece(su, ps.head, i), ps.tail, lo);
    if Literal1(ps.head) == t {
      assert OutPiece(su, ps.head, i) == OutAtom(su, ps.head.atom, i) != [];
      assert TextAt(su, t, i);
      j := i;
    } else {
      j := HasMatters(su, ps.tail, t, OutPiece(su, ps.head, i)[m].end);
    }
  }

  lemma MustMatters(su: Subject, alts: Alts, i: nat) returns (j: nat)
    requires WfAlts(alts) && i <= |su.text| && MustHint(alts) != [] && OutAlts(su, alts, i) != []
    ensures TextAt(su, MustHint(alts), j)
  {
    hide OutAlts, OutPieces;
    OneAlternative(su, alts, i);
    MustHas(alts.first, []);
    j := HasMatters(su, alts.first, MustHint(alts), i);
  }

  lemma {:induction false} ScanSkip(su: Subject, max: int, alts: Alts, i: nat, j: nat)
    requires alts.ACons? && WfAlts(alts) && i <= j <= |su.text| + 1
    requires forall m :: i <= m < j ==> !TryAt(su, max, alts, m).ok
    ensures Scan(su, max, alts, i) == Scan(su, max, alts, j)
    decreases j - i
  {
    hide TryAt;
    if i < j {
      ScanSkip(su, max, alts, i + 1, j);
    }
  }

  // ----- The search -----

  function Lower(c: Byte): Byte
  {
    if 65 <= c <= 90 then c + 32 else c
  }

  /** The two spellings looked for in place of `c`. */
  lemma Spellings(su: Subject, c: Byte, d: Byte)
    ensures Same(su, c, d) <==> d == (if su.nocase then Lower(c) else c) || d == (if su.nocase then Upper(c) else c)
  {
  }

  /** strpbrk with two characters, or strchr when they are equal. */
  method FindEither(text: seq<Byte>, s: nat, a: Byte, b: Byte) returns (p: int)
    requires s <= |text|
    ensures p == NULL || (s <= p < |text| && (text[p] == a || text[p] == b))
    ensures forall j :: s <= j < |text| && (p == NULL || j < p) ==> text[j] != a && text[j] != b
  {
    p := s;
    while p < |text|
      invariant s <= p <= |text|
      invariant forall j :: s <= j < p ==> text[j] != a && text[j] != b
    {
      if text[p] == a || text[p] == b {
        return;
      }
      p := p + 1;
    }
    p := NULL;
  }

  /** Is the required text anywhere in the input? */
  method MustAppear(m: Matcher, p: nat, n: nat, ghost t: seq<Byte>) returns (found: bool)
    requires m.Valid() && t != [] && NoNul(t) && n == |t| && At(m.program, p, t + [0])
    ensures !found ==> forall j: nat :: !TextAt(m.subject, t, j)
  {
    hide At;
    var su := m.subject;
    AtByte(m.program, p, t + [0], 0);
    var c := m.program[p];
    var lower, upper := if su.nocase then Lower(c) else c, if su.nocase then Upper(c) else c;
    var s := FindEither(su.text, 0, lower, upper);
    ghost var from: nat := 0;
    while s != NULL
      invariant s == NULL || (from <= s < |su.text|)
      invariant forall j: nat :: j < from ==> !TextAt(su, t, j)
      invariant forall j :: from <= j < |su.text| && (s == NULL || j < s) ==> su.text[j] != lower && su.text[j] != upper
      decreases if s == NULL then 0 else |su.text| + 1 - s
    {
      var same := m.StrnEqual(p, s, n, t);
      if same {
        return true;
      }
      forall j: nat | j < s + 1 ensures !TextAt(su, t, j) {
        if from <= j < s { FirstChar(su, t, j); Spellings(su, c, su.text[j]); }
      }
      from := s + 1;
      s := FindEither(su.text, s + 1, lower, upper);
    }
    forall j: nat ensures !TextAt(su, t, j) {
      if from <= j < |su.text| { FirstChar(su, t, j); Spellings(su, c, su.text[j]); }
    }
    found := false;
  }

  lemma FirstChar(su: Subject, t: seq<Byte>, j: nat)
    requires t != [] && j < |su.text|
    ensures TextAt(su, t, j) ==> Same(su, t[0], su.text[j])
  {
    if TextAt(su, t, j) {
      assert Same(su, t[0], su.text[j + 0]);
    }
  }

  /** The searching loops, from the first position that is worth trying. */
  method Attempts(m: Matcher, start: Byte, anchored: bool, ghost alts: Alts) returns (ok: bool)
    requires m.Valid() && alts.ACons? && WfAlts(alts) && Denotes(m.program, 1, Choose(alts, Done))
    requires start == StartHint(alts) && anchored == AnchorHint(alts) && !m.overflow
    modifies m`reginput, m`nest, m`overflow, m.startp, m.endp
    ensures var at := Scan(m.subject, m.max, alts, 0);
      && ok == (at != NULL) && (ok ==> m.Caps() == Whole(at, TryAt(m.subject, m.max, alts, at)))
      && (!m.overflow ==> Leftmost(m.subject, m.max, alts, at))
    ensures m.overflow ==> exists i :: 0 <= i <= |m.subject.text| && TryAt(m.subject, m.max, alts, i).over
  {
    hide Denotes, TryAt, Whole, OutAlts, StartHint, AnchorHint, NoneBelow, Leftmost;
    var su := m.subject;
    NoneYet(su, alts);
    if anchored {
      ok := m.RegTry(0, alts);
      AnchoredScan(su, m.max, alts);
      return;
    }
    if start != 0 {
      ok := AttemptsAt(m, start, alts);
    } else {
      var s := 0;
      while s <= |su.text|
        invariant s <= |su.text| + 1
        invariant Scan(su, m.max, alts, 0) == Scan(su, m.max, alts, s)
        invariant m.overflow ==> exists i :: 0 <= i <= |su.text| && TryAt(su, m.max, alts, i).over
        invariant !m.overflow ==> NoneBelow(su, alts, s)
      {
        ok := m.RegTry(s, alts);
        if !m.overflow {
          if ok { FirstTry(su, m.max, alts, s); } else { FailedTry(su, m.max, alts, s); }
        }
        if ok {
          return;
        }
        s := s + 1;
      }
      NoneAtAll(su, m.max, alts, s);
      ok := false;
    }
  }

  lemma NoneYet(su: Subject, alts: Alts)
    requires WfAlts(alts)
    ensures NoneBelow(su, alts, 0)
  {
  }

  lemma NoneAtAll(su: Subject, max: int, alts: Alts, n: nat)
    requires alts.ACons? && WfAlts(alts) && n > |su.text|
    ensures NoneBelow(su, alts, n) ==> Leftmost(su, max, alts, NULL)
  {
    hide OutAlts;
  }

  /** An anchored expression is tried at the start of the input only. */
  lemma AnchoredScan(su: Subject, max: int, alts: Alts)
    requires alts.ACons? && WfAlts(alts) && AnchorHint(alts)
    ensures Scan(su, max, alts, 0) == if TryAt(su, max, alts, 0).ok then 0 else NULL
    ensures !TryAt(su, max, alts, 0).over ==> Leftmost(su, max, alts, Scan(su, max, alts, 0))
  {
    hide TryAt, OutAlts, AnchorHint;
    forall j | 1 <= j <= |su.text| ensures OutAlts(su, alts, j) == [] && !TryAt(su, max, alts, j).ok {
      if OutAlts(su, alts, j) != [] { AnchorMatters(su, alts, j); }
      Hopeless0(su, max, alts, j);
    }
    if !TryAt(su, max, alts, 0).over {
      if TryAt(su, max, alts, 0).ok { FirstTry(su, max, alts, 0); } else { FailedTry(su, max, alts, 0); }
    }
  }

  /** Only positions whose character can begin a match. */
  method AttemptsAt(m: Matcher, start: Byte, ghost alts: Alts) returns (ok: bool)
    requires m.Valid() && alts.ACons? && WfAlts(alts) && Denotes(m.program, 1, Choose(alts, Done))
    requires start == StartHint(alts) != 0 && !m.overflow
    modifies m`reginput, m`nest, m`overflow, m.startp, m.endp
    ensures var at := Scan(m.subject, m.max, alts, 0);
      && ok == (at != NULL) && (ok ==> m.Caps() == Whole(at, TryAt(m.subject, m.max, alts, at)))
      && (!m.overflow ==> Leftmost(m.subject, m.max, alts, at))
    ensures m.overflow ==> exists i :: 0 <= i <= |m.subject.text| && TryAt(m.subject, m.max, alts, i).over
  {
    hide Denotes, TryAt, Whole, OutAlts, StartHint, Scan, NoneBelow, Leftmost;
    var su := m.subject;
    NoneYet(su, alts);
    var lower, upper := if su.nocase then Lower(start) else start, if su.nocase then Upper(start) else start;
    ghost var from: nat := 0;
    var s := FindEither(su.text, 0, lower, upper);
    while s != NULL
      invariant from <= |su.text| + 1 && (s == NULL || from <= s < |su.text|)
      invariant forall j :: from <= j < |su.text| && (s == NULL || j < s) ==> su.text[j] != lower && su.text[j] != upper
      invariant Scan(su, m.max, alts, 0) == Scan(su, m.max, alts, from)
      invariant m.overflow ==> exists i :: 0 <= i <= |su.text| && TryAt(su, m.max, alts, i).over
      invariant !m.overflow ==> NoneBelow(su, alts, from)
      decreases if s == NULL then 0 else |su.text| + 1 - s
    {
      Skipped(su, m.max, alts, start, from, s);
      ok := m.RegTry(s, alts);
      ScanStep(su, m.max, alts, s);
      if !m.overflow {
        if ok { FirstTry(su, m.max, alts, s); } else { FailedTry(su, m.max, alts, s); }
      }
      if ok {
        return;
      }
      from := s + 1;
      s := FindEither(su.text, s + 1, lower, upper);
    }
    Skipped(su, m.max, alts, start, from, |su.text| + 1);
    ScanEnd(su, m.max, alts);
    NoneAtAll(su, m.max, alts, |su.text| + 1);
    ok := false;
  }

  lemma ScanStep(su: Subject, max: int, alts: Alts, i: nat)
    requires alts.ACons? && WfAlts(alts) && i <= |su.text|
    ensures Scan(su, max, alts, i) == if TryAt(su, max, alts, i).ok then i else Scan(su, max, alts, i + 1)
  {
    hide TryAt;
  }

  lemma ScanEnd(su: Subject, max: int, alts: Alts)
    requires alts.ACons? && WfAlts(alts)
    ensures Scan(su, max, alts, |su.text| + 1) == NULL
  {
  }

  /** Positions whose character cannot begin a match need no attempt. */
  lemma Skipped(su: Subject, max: int, alts: Alts, c: Byte, i: nat, j: nat)
    requires alts.ACons? && WfAlts(alts) && i <= j <= |su.text| + 1 && c == StartHint(alts) != 0
    requires forall m :: i <= m < j && m < |su.text| ==>
      su.text[m] != (if su.nocase then Lower(c) else c) && su.text[m] != (if su.nocase then Upper(c) else c)
    ensures Scan(su, max, alts, i) == Scan(su, max, alts, j)
    ensures NoneBelow(su, alts, i) ==> NoneBelow(su, alts, j)
  {
    hide TryAt, OutAlts, StartHint, Scan;
    forall m | i <= m < j && m <= |su.text| ensures OutAlts(su, alts, m) == [] && !TryAt(su, max, alts, m).ok {
      if OutAlts(su, alts, m) != [] {
        StartMatters(su, alts, m);
        Spellings(su, c, su.text[m]);
      }
      Hopeless0(su, max, alts, m);
    }
    ScanSkip(su, max, alts, i, j);
  }

  /** Searches `text` with a compiled expression, filling the capture arrays.  Unless the recursion
      limit was hit the match found is the leftmost one, with the outcome that is preferred there, and
      there is none only if no position has one.  Something that does not begin with the magic number
      is refused. */
  method RegExec(program: Program, su: Subject, max: int, startp: array<int>, endp: array<int>, ghost alts: Alts)
    returns (ok: bool, overflow: bool)
    requires NoNul(su.text) && startp != endp && startp.Length == NSUBEXP && endp.Length == NSUBEXP
    requires |program.code| > 0 && (program.code[0] == MAGIC ==> Implements(program, alts))
    modifies startp, endp
    ensures program.code[0] != MAGIC ==> !ok
    ensures program.code[0] == MAGIC ==>
      var at := Scan(su, max, alts, 0);
      && ok == (at != NULL)
      && (ok ==> Captures(startp[..], endp[..]) == Whole(at, TryAt(su, max, alts, at)))
      && (!overflow ==> Leftmost(su, max, alts, at))
      && (overflow ==> exists i :: 0 <= i <= |su.text| && TryAt(su, max, alts, i).over)
  {
    hide Denotes, TryAt, Whole, OutAlts, StartHint, AnchorHint, MustHint, ProgramImage, ProgramSize, At, Scan, Leftmost;
    if program.code[0] != MAGIC {
      return false, false;
    }
    var m := new Matcher(program.code, su, max, startp, endp);
    ProgramDenotes(alts);
    if program.regmust != NULL {
      MustText(alts);
      var found := MustAppear(m, program.regmust, program.regmlen, MustHint(alts));
      if !found {
        Absent(su, max, alts);
        return false, false;
      }
    }
    ok := Attempts(m, program.regstart, program.reganch, alts);
    overflow := m.overflow;
  }

  lemma MustText(alts: Alts)
    requires WfAlts(alts)
    ensures NoNul(MustHint(alts))
  {
    if alts.ACons? {
      MustWf(alts.first, []);
    }
  }

  lemma {:induction false} MustWf(ps: Pieces, best: seq<Byte>)
    requires WfPieces(ps) && NoNul(best)
    ensures NoNul(Must(ps, best))
  {
    if ps.PCons? {
      var p := ps.head;
      assert WfPiece(p) && WfAtom(p.atom);
      MustWf(ps.tail, if p.quant.One? && p.atom.Literal? && |p.atom.text| >= |best| then p.atom.text else best);
    }
  }

  /** Without the required text there is no match anywhere. */
  lemma Absent(su: Subject, max: int, alts: Alts)
    requires alts.ACons? && WfAlts(alts) && MustHint(alts) != [] && forall j: nat :: !TextAt(su, MustHint(alts), j)
    ensures Scan(su, max, alts, 0) == NULL && Leftmost(su, max, alts, NULL)
  {
    hide TryAt, OutAlts, MustHint, Scan;
    forall i | 0 <= i < |su.text| + 1 ensures OutAlts(su, alts, i) == [] && !TryAt(su, max, alts, i).ok {
      if OutAlts(su, alts, i) != [] {
        var j := MustMatters(su, alts, i);
      }
      Hopeless0(su, max, alts, i);
    }
    ScanSkip(su, max, alts, 0, |su.text| + 1);
    ScanEnd(su, max, alts);
  }
}
