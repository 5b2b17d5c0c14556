/** The backtracking matcher on compiled programs: a loop over nodes, recursion where the outcome of
    the rest decides, captures written on the way back from success. */
module RegexpMatcher {
  import opened RegexpCode
  import opened RegexpSyntax
  import opened RegexpLayout
  import opened RegexpSemantics
  import opened RegexpMachine
  import opened RegexpDenotes
  import opened RegexpAgreement
  import opened RegexpSteps
  import opened RegexpStrings

  // ----- Captures -----

  datatype Captures = Captures(starts: seq<int>, ends: seq<int>)

  /** An event is recorded only where nothing has been recorded yet. */
  function Note(c: Captures, e: Event): (r: Captures)
    ensures |r.starts| == |c.starts| && |r.ends| == |c.ends|
  {
    match e
    case Opened(no, pos) =>
      if no < |c.starts| && c.starts[no] == NULL then c.(starts := c.starts[no := pos]) else c
    case Closed(no, pos) =>
      if no < |c.ends| && c.ends[no] == NULL then c.(ends := c.ends[no := pos]) else c
  }

  /** Events are recorded last one first. */
  function Noted(c: Captures, t: seq<Event>): (r: Captures)
    ensures |r.starts| == |c.starts| && |r.ends| == |c.ends|
  {
    if t == [] then c else Note(Noted(c, t[1..]), t[0])
  }

  function Blank(): Captures
  {
    Captures(seq(NSUBEXP, _ => NULL), seq(NSUBEXP, _ => NULL))
  }

  /** The captures of a whole match that began at `s`; slot 0 is the match itself. */
  function Whole(s: nat, r: Result): Captures
  {
    var c := Noted(Blank(), r.trace);
    Captures(c.starts[0 := s], c.ends[0 := r.end])
  }

  /** Trying a whole expression at one position. */
  function TryAt(su: Subject, max: int, alts: Alts, i: nat): Result
    requires alts.ACons? && WfAlts(alts) && i <= |su.text|
  {
    Enter(su, max, Choose(alts, Done), i, 0)
  }

  lemma NotedFirst(c: Captures, e: Event, t: seq<Event>)
    ensures Noted(c, [e] + t) == Note(Noted(c, t), e)
  {
    assert ([e] + t)[1..] == t;
  }

  /** Entering the matcher at recursion depth `depth`. */
  function Enter(su: Subject, max: int, k: Cont, i: nat, depth: nat): Result
    requires WfCont(k) && i <= |su.text|
  {
    if depth >= max then Result(false, 0, [], true) else Run(su, max, k, i, depth)
  }

  /** The link of a node as a position: NULL if it has none; BACK leads backwards. */
  function RegNext(code: seq<Byte>, p: nat): (next: int)
    requires p + 3 <= |code|
  {
    var offset := Link(code, p);
    if offset == 0 then NULL
    else if Op(code, p) == BACK then p - offset
    else p + offset
  }

  lemma NotedNone(c: Captures)
    ensures Noted(c, []) == c
  {
  }

  lemma CountStep(su: Subject, a: Atom, i: nat)
    requires Simple(a) && i <= |su.text| && NoNul(su.text)
    ensures CharAt(su, i) != 0 && Hits(su, a, CharAt(su, i)) ==>
      i < |su.text| && Count(su, a, i) == 1 + Count(su, a, i + 1)
    ensures !(CharAt(su, i) != 0 && Hits(su, a, CharAt(su, i))) ==> Count(su, a, i) == 0
  {
  }

  lemma QuantIs(p: Piece)
    requires Repeated(p)
    ensures RepeatOp(p.quant) == STAR <==> p.quant.Star?
    ensures RepeatOp(p.quant) == PLUS <==> p.quant.Plus?
    ensures RepeatOp(p.quant) == NGSTAR <==> p.quant.LazyStar?
    ensures RepeatOp(p.quant) == NGPLUS <==> p.quant.LazyPlus?
  {
  }

  /** Nothing found so far. */
  function Missed(over: bool): Result
  {
    Result(false, 0, [], over)
  }

  lemma MissedFirst(r: Result)
    ensures r == OrElse(Missed(false), r)
  {
  }

  lemma MissedStep(hit: bool, here: Result, rest: Result)
    ensures !here.ok ==> OrElse(Missed(hit), OrElse(here, rest)) == OrElse(Missed(hit || here.over), rest)
    ensures here.ok ==> OrElse(Missed(hit), OrElse(here, rest)) == here.(over := hit || here.over)
  {
  }

  lemma MissedLast(hit: bool, here: Result)
    ensures OrElse(Missed(hit), here) == here.(over := hit || here.over)
  {
  }

  lemma MissedAll(hit: bool)
    ensures OrElse(Missed(hit), FAIL) == Missed(hit)
  {
  }

  /** Where a one-instruction loop keeps its operand. */
  ghost predicate RepeatAt(code: seq<Byte>, pc: nat, p: Piece)
  {
    && pc + 6 <= |code| && Op(code, pc) == RepeatOp(p.quant)
    && Op(code, pc + 3) == AtomOp(p.atom) && At(code, pc + 6, Operand(p.atom))
  }

  lemma LookaheadIs(code: seq<Byte>, pc: nat, k: Cont)
    requires |code| < CODE_LIMIT && WfCont(k) && Denotes(code, pc, k)
    ensures pc + 3 <= |code| && (Op(code, pc) == EXACTLY ==> pc + 3 < |code| && code[pc + 3] == Lookahead(k))
    ensures Op(code, pc) != EXACTLY ==> Lookahead(k) == 0
  {
    hide Denotes, PieceAt, At, Link;
    HeadIs(code, pc, k);
    HeadShape(k);
    if Op(code, pc) == EXACTLY {
      var a := k.ps.head.atom;
      assert k.ps.head == Piece(a, One) && a.Literal?;
      SeqHead(code, pc, k.ps, k.k);
      LeafNode(code, pc, a, Rest(k));
      AtByte(code, pc + 3, Operand(a), 0);
    }
  }

  lemma NextIs(code: seq<Byte>, p: nat)
    requires p + 3 <= |code|
    ensures Link(code, p) == 0 ==> RegNext(code, p) == NULL
    ensures Link(code, p) > 0 && Op(code, p) == BACK ==> RegNext(code, p) == p - Link(code, p)
    ensures Link(code, p) > 0 && Op(code, p) != BACK ==> RegNext(code, p) == p + Link(code, p)
  {
    hide Link;
  }

  lemma ReadyHead(code: seq<Byte>, pc: nat, su: Subject, k: Cont, i: nat)
    requires Ready(code, pc, su, k, i)
    ensures i <= |su.text| && WfCont(k) && pc + 3 <= |code| && Op(code, pc) == HeadOp(k)
    ensures HeadOp(k) == END <==> k.Done?
    ensures LeafOp(HeadOp(k)) ==>
      k.Seq? && k.ps.PCons? && k.ps.head.quant.One? && SingleLeaf(k.ps.head.atom) && HeadOp(k) == AtomOp(k.ps.head.atom)
    ensures HeadOp(k) == NOTHING ==> k.Seq? && k.ps.PNil?
    ensures HeadOp(k) == BACK ==> k.Loop? || k.Redo?
    ensures 20 < HeadOp(k) < 30 ==>
      && k.Seq? && k.ps.PCons? && k.ps.head.atom.Group? && (k.ps.head.quant.One? || k.ps.head.quant.Plus?)
      && HeadOp(k) == OPEN as int + k.ps.head.atom.no
    ensures 30 < HeadOp(k) < 40 ==> k.Shut? && HeadOp(k) == CLOSE as int + k.no
    ensures RepeatingOp(HeadOp(k)) ==>
      k.Seq? && k.ps.PCons? && Repeated(k.ps.head) && HeadOp(k) == RepeatOp(k.ps.head.quant)
    ensures HeadOp(k) == END || LeafOp(HeadOp(k)) || HeadOp(k) == NOTHING || HeadOp(k) == BACK || HeadOp(k) == BRANCH
         || 20 < HeadOp(k) < 30 || 30 < HeadOp(k) < 40 || RepeatingOp(HeadOp(k))
  {
    hide Denotes, Progress, WfCont, HeadOp, Repeated, SingleLeaf, AtomOp, RepeatOp;
    HeadIs(code, pc, k);
    HeadShape(k);
  }

  lemma LeafReady(code: seq<Byte>, pc: nat, su: Subject, a: Atom, k: Cont, i: nat, j: nat)
    requires |code| < CODE_LIMIT && WfCont(k) && Denotes(code, pc, k)
    requires WfAtom(a) && i <= |su.text| && Progress(k, i, AtomWidth(a)) && OutAtom(su, a, i) == [Outcome(j, [])]
    ensures i <= j && Ready(code, pc, su, k, j)
  {
    hide Denotes, Progress, WfCont, OutAtom, AtomWidth;
    LeafMoves(su, a, k, i, j);
  }

  lemma TopReady(code: seq<Byte>, su: Subject, alts: Alts, i: nat)
    requires |code| < CODE_LIMIT && i <= |su.text| && alts.ACons? && WfAlts(alts) &&
      Denotes(code, 1, Choose(alts, Done))
    ensures Ready(code, 1, su, Choose(alts, Done), i)
  {
    hide Denotes;
    assert WfCont(Done) && Progress(Done, i, AltsWidth(alts));
  }

  lemma DoneRuns(su: Subject, max: int, i: nat, depth: nat)
    requires i <= |su.text|
    ensures Run(su, max, Done, i, depth) == Result(true, i, [], false)
  {
  }

  lemma ForkNext(code: seq<Byte>, pc: nat, ks: seq<Cont>)
    requires Fork(code, pc, ks)
    ensures |ks| > 0 && pc + 3 <= |code| && Op(code, pc) == BRANCH && Link(code, pc) > 0 && pc + Link(code, pc) < |code|
    ensures (Op(code, pc + Link(code, pc)) != BRANCH) == (|ks| == 1)
    ensures Denotes(code, pc + 3, ks[0])
  {
    hide Denotes, Link;
  }

  lemma ReadyOne(code: seq<Byte>, pc: nat, su: Subject, ks: seq<Cont>, i: nat, w: nat)
    requires |code| < CODE_LIMIT && Fork(code, pc, ks) && AllReady(su, ks, i, w)
    ensures |ks| > 0 && Ready(code, pc + 3, su, ks[0], i) && Weight(ks[0], i) < w
  {
    hide Denotes, Link, Op, Progress, Weight, WfCont;
  }

  lemma UpperZero(c: Byte)
    ensures Upper(c) == 0 <==> c == 0
  {
  }

  lemma TextPast(su: Subject, t: seq<Byte>, i: nat, j: nat)
    requires NoNul(t) && NoNul(su.text) && j < |t| && i + j <= |su.text| && !Same(su, t[j], CharAt(su, i + j))
    ensures !TextAt(su, t, i)
  {
    UpperZero(t[j]);
  }

  class Matcher {
    const program: seq<Byte>
    const subject: Subject
    const max: int
    const startp: array<int>
    const endp: array<int>
    var reginput: int
    var nest: nat
    var overflow: bool

    constructor (program: seq<Byte>, subject: Subject, max: int, startp: array<int>, endp: array<int>)
      ensures this.program == program && this.subject == subject && this.max == max
      ensures this.startp == startp && this.endp == endp && nest == 0 && !overflow
    {
      this.program, this.subject, this.max := program, subject, max;
      this.startp, this.endp := startp, endp;
      reginput, nest, overflow := 0, 0, false;
    }

    ghost predicate Valid()
    {
      && |program| < CODE_LIMIT && NoNul(subject.text)
      && startp != endp && startp.Length == NSUBEXP && endp.Length == NSUBEXP
    }

    ghost function Caps(): Captures
      reads startp, endp
    {
      Captures(startp[..], endp[..])
    }

    /** The state is as `r` says: on success the input position and the recorded captures, on failure
        no capture touched; and whether the recursion limit was ever hit. */
    ghost predicate Reports(r: Result, ok: bool, was: Captures, over: bool)
      reads this, startp, endp
    {
      && ok == r.ok && overflow == (over || r.over)
      && (ok ==> reginput == r.end && Caps() == Noted(was, r.trace))
      && (!ok ==> Caps() == was)
    }

    /** strncmp or strncasecmp of an operand against the input. */
    method StrnEqual(p: nat, at: nat, n: nat, ghost s: seq<Byte>) returns (same: bool)
      requires Valid() && At(program, p, s + [0]) && NoNul(s) && n == |s| && at <= |subject.text|
      ensures same == TextAt(subject, s, at)
    {
      var j := 0;
      while j < n
        invariant j <= n && at + j <= |subject.text|
        invariant forall m :: 0 <= m < j ==> Same(subject, s[m], subject.text[at + m])
      {
        AtByte(program, p, s + [0], j);
        if !Same(subject, program[p + j], CharAt(subject, at + j)) {
          TextPast(subject, s, at, j);
          return false;
        }
        UpperZero(s[j]);
        j := j + 1;
      }
      same := true;
    }

    // ----- Single nodes -----

    method MatchExactly(scan: nat, ghost text: seq<Byte>) returns (ok: bool)
      requires Valid() && 0 <= reginput <= |subject.text| && |text| > 0 && NoNul(text) &&
        At(program, scan + 3, text + [0])
      modifies this`reginput
      ensures ok == TextAt(subject, text, old(reginput))
      ensures reginput == if ok then old(reginput) + |text| else old(reginput)
    {
      var opnd := scan + 3;
      AtByte(program, opnd, text + [0], 0);
      if !Same(subject, program[opnd], CharAt(subject, reginput)) {
        TextPast(subject, text, reginput, 0);
        return false;
      }
      var len := StrLen(program, opnd, text);
      ok := true;
      if len > 1 {
        ok := StrnEqual(opnd, reginput, len, text);
      } else {
        UpperZero(text[0]);
      }
      if ok {
        reginput := reginput + len;
      }
    }

    method MatchSet(scan: nat, negated: bool, ghost members: seq<Byte>) returns (ok: bool)
      requires Valid() && 0 <= reginput <= |subject.text| && NoNul(members) && At(program, scan + 3, members + [0])
      modifies this`reginput
      ensures ok == (old(reginput) < |subject.text| && (subject.text[old(reginput)] in members) != negated)
      ensures reginput == if ok then old(reginput) + 1 else old(reginput)
    {
      if CharAt(subject, reginput) == 0 {
        return false;
      }
      var found := StrChr(program, scan + 3, CharAt(subject, reginput), members);
      if found == negated {
        return false;
      }
      reginput := reginput + 1;
      ok := true;
    }

    /** Tries a single-node atom and advances past what it matches. */
    method MatchLeaf(scan: nat, ghost a: Atom) returns (ok: bool)
      requires Valid() && 0 <= reginput <= |subject.text| && SingleLeaf(a)
      requires scan + 3 <= |program| && Op(program, scan) == AtomOp(a) && At(program, scan + 3, Operand(a))
      modifies this`reginput
      ensures 0 <= reginput
      ensures OutAtom(subject, a, old(reginput)) == if ok then [Outcome(reginput, [])] else []
    {
      hide At;
      var op := Op(program, scan);
      var c := CharAt(subject, reginput);
      ok := false;
      if op == BOL {
        ok := reginput == 0 && !subject.notbol;
      } else if op == EOL {
        ok := c == 0;
      } else if op == EXACTLY {
        ok := MatchExactly(scan, a.text);
      } else if op == ANYOF || op == ANYBUT {
        ok := MatchSet(scan, op == ANYBUT, a.members);
      } else {
        ok := if op == ANY then c != 0
              else if op == WORD then InKind(Word, c)
              else if op == WSPC then InKind(Space, c)
              else InKind(Digit, c);
        if ok {
          reginput := reginput + 1;
        }
      }
    }

    // ----- One-character loops -----

    /** One more character for the operand at `p`? */
    method Accepts(p: nat, c: Byte, ghost a: Atom) returns (hit: bool)
      requires WfAtom(a) && Simple(a) && p + 3 <= |program| && Op(program, p) == AtomOp(a) &&
        At(program, p + 3, Operand(a))
      requires Valid()
      ensures hit == (c != 0 && Hits(subject, a, c))
    {
      var op := Op(program, p);
      if op == EXACTLY {
        AtByte(program, p + 3, Operand(a), 0);
        UpperZero(a.text[0]);
        UpperZero(c);
        hit := Same(subject, program[p + 3], c);
      } else if c == 0 {
        hit := false;
      } else if op == ANY {
        hit := true;
      } else if op == ANYOF || op == ANYBUT {
        var found := StrChr(program, p + 3, c, a.members);
        hit := found != (op == ANYBUT);
      } else {
        var kind := if op == WORD || op == NWORD then Word else if op == WSPC || op == NWSPC then Space else Digit;
        hit := InKind(kind, c) != (op == NWORD || op == NWSPC || op == NDIGI);
      }
    }

    method RegRepeat(p: nat, ghost a: Atom) returns (count: nat)
      requires Valid() && 0 <= reginput <= |subject.text|
      requires WfAtom(a) && Simple(a) && p + 3 <= |program| && Op(program, p) == AtomOp(a) &&
        At(program, p + 3, Operand(a))
      modifies this`reginput
      ensures count == Count(subject, a, old(reginput)) && reginput == old(reginput) + count
    {
      hide At, Hits, Operand, Count;
      var scan := reginput;
      var hit := Accepts(p, CharAt(subject, scan), a);
      while hit
        invariant 0 <= reginput == old(reginput) <= scan <= |subject.text|
        invariant hit == (CharAt(subject, scan) != 0 && Hits(subject, a, CharAt(subject, scan)))
        invariant Count(subject, a, reginput) == scan - reginput + Count(subject, a, scan)
        decreases |subject.text| - scan
      {
        CountStep(subject, a, scan);
        scan := scan + 1;
        hit := Accepts(p, CharAt(subject, scan), a);
      }
      CountStep(subject, a, scan);
      count := scan - reginput;
      reginput := scan;
    }

    /** The character a following literal begins with, or 0. */
    method NextChar(next: nat, ghost k: Cont) returns (c: Byte)
      requires Valid() && WfCont(k) && Denotes(program, next, k)
      ensures c == Lookahead(k)
    {
      HeadIs(program, next, k);
      HeadShape(k);
      LookaheadIs(program, next, k);
      c := if Op(program, next) == EXACTLY then program[next + 3] else 0;
    }

    /** STAR and PLUS: as many as possible first, then one fewer each time. */
    method MatchGreedy(scan: nat, next: nat, ghost p: Piece, ghost k: Cont) returns (ok: bool)
      requires Valid() && 0 <= reginput <= |subject.text|
      requires Repeated(p) && (p.quant.Star? || p.quant.Plus?) && RepeatAt(program, scan, p)
      requires WfCont(k) && Denotes(program, next, k) && Progress(k, reginput, PieceWidth(p))
      modifies this`reginput, this`nest, this`overflow, startp, endp
      ensures Reports(RunSimple(subject, max, p, k, old(reginput), old(nest)), ok, old(Caps()), old(overflow))
      ensures nest == old(nest)
      decreases |subject.text| - reginput, Weight(k, reginput) + 1, 0
    {
      hide Denotes, Run, Nested, Progress, At, Weight, Lookahead, Operand, Count, Noted, OrElse;
      var nextch := NextChar(next, k);
      var min := if Op(program, scan) == STAR then 0 else 1;
      var save := reginput;
      var count := RegRepeat(scan + 3, p.atom);
      var no: int := count;
      ghost var goal := RunDown(subject, max, k, save, no, min, nest);
      ghost var hit := false;
      MissedFirst(goal);
      while no >= min
        invariant -1 <= no <= count && reginput == save + no
        invariant nest == old(nest) && Caps() == old(Caps()) && overflow == (old(overflow) || hit)
        invariant goal == OrElse(Missed(hit), RunDown(subject, max, k, save, no, min, nest))
        decreases no + 1
      {
        ProgressOn(k, save, save + no, min > 0);
        ghost var here := Try(subject, max, k, save + no, nest);
        MissedStep(hit, here, RunDown(subject, max, k, save, no - 1, min, nest));
        if nextch == 0 || Same(subject, nextch, CharAt(subject, reginput)) {
          ok := NestedRegMatch(next, k);
          if ok {
            return true;
          }
        }
        hit := hit || here.over;
        no := no - 1;
        reginput := save + no;
      }
      MissedAll(hit);
      ok := false;
    }

    /** NGSTAR and NGPLUS: as few as possible first. */
    method MatchReluctant(scan: nat, next: nat, ghost p: Piece, ghost k: Cont) returns (ok: bool)
      requires Valid() && 0 <= reginput <= |subject.text|
      requires Repeated(p) && (p.quant.LazyStar? || p.quant.LazyPlus?) && RepeatAt(program, scan, p)
      requires WfCont(k) && Denotes(program, next, k) && Progress(k, reginput, PieceWidth(p))
      modifies this`reginput, this`nest, this`overflow, startp, endp
      ensures Reports(RunSimple(subject, max, p, k, old(reginput), old(nest)), ok, old(Caps()), old(overflow))
      ensures nest == old(nest)
      decreases |subject.text| - reginput, Weight(k, reginput) + 1, 0
    {
      hide Denotes, Run, Nested, Progress, At, Weight, Lookahead, Operand, Count, Noted, OrElse;
      var nextch := NextChar(next, k);
      var least := if Op(program, scan) == NGSTAR then 0 else 1;
      var no := least;
      var save := reginput;
      var most := RegRepeat(scan + 3, p.atom);
      ghost var goal := RunUp(subject, max, k, save, no, most, nest);
      ghost var hit := false;
      MissedFirst(goal);
      while no <= most
        invariant least <= no
        invariant nest == old(nest) && Caps() == old(Caps()) && overflow == (old(overflow) || hit)
        invariant goal == OrElse(Missed(hit), RunUp(subject, max, k, save, no, most, nest))
        decreases most + 1 - no
      {
        reginput := save + no;
        ProgressOn(k, save, save + no, least > 0) by { if least == 0 &&
          no > 0 { ProgressLater(k, save, save + no, false); } }
        ghost var here := Try(subject, max, k, save + no, nest);
        MissedStep(hit, here, RunUp(subject, max, k, save, no + 1, most, nest));
        if nextch == 0 || Same(subject, nextch, CharAt(subject, reginput)) {
          ok := NestedRegMatch(next, k);
          if ok {
            return true;
          }
        }
        hit := hit || here.over;
        no := no + 1;
      }
      MissedAll(hit);
      ok := false;
    }

    // ----- Nodes whose outcome depends on the rest -----

    method OpenGroup(next: nat, no: nat, ghost k: Cont) returns (ok: bool)
      requires Valid() && 0 <= reginput && Ready(program, next, subject, k, reginput) && 1 <= no < NSUBEXP
      modifies this`reginput, this`nest, this`overflow, startp, endp
      ensures Reports(Before([Opened(no, old(reginput))], Nested(subject, max, k, old(reginput), old(nest))), ok,
        old(Caps()), old(overflow))
      ensures nest == old(nest)
      decreases |subject.text| - reginput, Weight(k, reginput), 7
    {
      hide Denotes, Nested, Progress, Weight, Noted;
      var save := reginput;
      ghost var was, r := Caps(), Nested(subject, max, k, reginput, nest);
      ok := NestedRegMatch(next, k);
      if ok {
        NotedFirst(was, Opened(no, save), r.trace);
        if startp[no] == NULL {
          startp[no] := save;
        }
        assert Caps() == Note(Noted(was, r.trace), Opened(no, save));
      }
    }

    method CloseGroup(next: nat, no: nat, ghost k: Cont) returns (ok: bool)
      requires Valid() && 0 <= reginput && Ready(program, next, subject, k, reginput) && 1 <= no < NSUBEXP
      modifies this`reginput, this`nest, this`overflow, startp, endp
      ensures Reports(Before([Closed(no, old(reginput))], Nested(subject, max, k, old(reginput), old(nest))), ok,
        old(Caps()), old(overflow))
      ensures nest == old(nest)
      decreases |subject.text| - reginput, Weight(k, reginput), 7
    {
      hide Denotes, Nested, Progress, Weight, Noted;
      var save := reginput;
      ghost var was, r := Caps(), Nested(subject, max, k, reginput, nest);
      ok := NestedRegMatch(next, k);
      if ok {
        NotedFirst(was, Closed(no, save), r.trace);
        if endp[no] == NULL {
          endp[no] := save;
        }
        assert Caps() == Note(Noted(was, r.trace), Closed(no, save));
      }
    }

    /** Several BRANCH nodes in a row: each alternative in turn. */
    method TryBranches(first: nat, ghost ks: seq<Cont>, ghost w: nat) returns (ok: bool)
      requires Valid() && 0 <= reginput && Fork(program, first, ks) && AllReady(subject, ks, reginput, w)
      modifies this`reginput, this`nest, this`overflow, startp, endp
      ensures Reports(RunAny(subject, max, ks, old(reginput), old(nest)), ok, old(Caps()), old(overflow))
      ensures nest == old(nest)
      decreases |subject.text| - reginput, w, 0
    {
      hide Denotes, Nested, Progress, Weight, Noted, OrElse, Link, Op, WfCont;
      var scan: int := first;
      var save := reginput;
      ghost var js := ks;
      ghost var goal := RunAny(subject, max, ks, reginput, nest);
      ghost var hit := false;
      MissedFirst(goal);
      var more := true;
      while more
        invariant reginput == save
        invariant nest == old(nest) && Caps() == old(Caps()) && overflow == (old(overflow) || hit)
        invariant more ==> 0 <= scan && AllReady(subject, js, save, w) && Fork(program, scan, js)
        invariant more ==> goal == OrElse(Missed(hit), RunAny(subject, max, js, save, nest))
        invariant !more ==> !goal.ok && goal.over == hit
        decreases if more then 1 + |js| else 0
      {
        ghost var here := Nested(subject, max, js[0], save, nest);
        ok := NestedRegMatch(scan + 3, js[0]);
        if |js| == 1 {
          MissedLast(hit, here);
        } else {
          MissedStep(hit, here, RunAny(subject, max, js[1..], save, nest));
        }
        if ok {
          return true;
        }
        hit := hit || here.over;
        reginput := save;
        NextIs(program, scan);
        scan := RegNext(program, scan);
        more := scan != NULL && Op(program, scan) == BRANCH;
        js := js[1..];
      }
      ok := false;
    }

    /** Parentheses and one-instruction loops. */
    method MatchRest(scan: nat, next: int, ghost at: Cont) returns (ok: bool)
      requires Valid() && 0 <= reginput <= |subject.text| && WfCont(at) && Ready(program, scan, subject, at, reginput)
      requires scan + 3 <= |program| && next == RegNext(program, scan)
      requires (var op := Op(program, scan); op != END && !LeafOp(op) && op != NOTHING && op != BACK && op != BRANCH)
      modifies this`reginput, this`nest, this`overflow, startp, endp
      ensures Reports(Run(subject, max, at, old(reginput), old(nest)), ok, old(Caps()), old(overflow))
      ensures nest == old(nest)
      decreases |subject.text| - reginput, Weight(at, reginput), 4
    {
      hide Ready, Denotes, Run, RunSimple, Nested, Before, Progress, WfCont, Weight, Noted, At, Link, HeadOp, AtomOp,
           Operand, RepeatOp;
      ghost var k := at;
      ReadyHead(program, scan, subject, k, reginput);
      NextIs(program, scan);
      var op := Op(program, scan);
      if OPEN < op < CLOSE {
        if k.ps.head.quant.Plus? {
          k := PlusStep(program, scan, subject, max, k, reginput, nest);
          ReadyWf(program, scan, subject, k, reginput);
        }
        ghost var inner := OpenStep(program, scan, subject, max, k, reginput, nest);
        ok := OpenGroup(next, op as int - OPEN as int, inner);
        return ok;
      } else if CLOSE < op < NGSTAR {
        ShutStep(program, scan, subject, max, k, reginput, nest);
        ok := CloseGroup(next, op as int - CLOSE as int, k.k);
        return ok;
      } else if op == STAR || op == PLUS {
        RepeatStep(program, scan, subject, max, k, reginput, nest);
        QuantIs(k.ps.head);
        ok := MatchGreedy(scan, next, k.ps.head, Rest(k));
        return ok;
      } else if op == NGSTAR || op == NGPLUS {
        RepeatStep(program, scan, subject, max, k, reginput, nest);
        QuantIs(k.ps.head);
        ok := MatchReluctant(scan, next, k.ps.head, Rest(k));
        return ok;
      } else {
        assert false;   // "memory corruption"
      }
    }

    // ----- The main loop -----

    method NestedRegMatch(prog: nat, ghost k: Cont) returns (ok: bool)
      requires Valid() && 0 <= reginput && Ready(program, prog, subject, k, reginput)
      modifies this`reginput, this`nest, this`overflow, startp, endp
      ensures Reports(Nested(subject, max, k, old(reginput), old(nest)), ok, old(Caps()), old(overflow))
      ensures nest == old(nest)
      decreases |subject.text| - reginput, Weight(k, reginput), 6
    {
      hide Denotes, Run, Progress, Weight, Noted;
      nest := nest + 1;
      ok := RegMatch(prog, k);
      nest := nest - 1;
    }

    /** Matches one simple node and leaves what follows it to be run. */
    method PassLeaf(scan: nat, next: int, ghost k: Cont) returns (ok: bool)
      requires Valid() && 0 <= reginput <= |subject.text| && Ready(program, scan, subject, k, reginput)
      requires scan + 3 <= |program| && LeafOp(Op(program, scan)) && next == RegNext(program, scan)
      modifies this`reginput
      ensures 0 <= reginput && (ok ==> reginput <= |subject.text|)
      ensures k.Seq? && k.ps.PCons? && WfCont(Rest(k))
      ensures !ok ==> Run(subject, max, k, old(reginput), nest) == FAIL
      ensures ok ==>
        next >= 0 && old(reginput) <= reginput && Ready(program, next, subject, Rest(k), reginput) &&
        Run(subject, max, k, old(reginput), nest) == Run(subject, max, Rest(k), reginput, nest) &&
        Weight(Rest(k), old(reginput)) < Weight(k, old(reginput))
    {
      hide Ready, Denotes, Run, RunAtom, Progress, WfCont, Weight, At, Link, HeadOp, AtomOp, Operand, OutAtom;
      ReadyHead(program, scan, subject, k, reginput);
      NextIs(program, scan);
      ghost var a, here := k.ps.head.atom, reginput;
      LeafStep(program, scan, subject, max, k, here, nest);
      LeafRuns(subject, max, a, Rest(k), here, nest);
      ok := MatchLeaf(scan, a);
      if ok { LeafReady(program, next, subject, a, Rest(k), here, reginput); }
    }

    /** Runs the program from `prog`, which stands for `start`. */
    method RegMatch(prog: nat, ghost start: Cont) returns (ok: bool)
      requires Valid() && 0 <= reginput && Ready(program, prog, subject, start, reginput)
      modifies this`reginput, this`nest, this`overflow, startp, endp
      ensures Reports(Enter(subject, max, start, old(reginput), old(nest)), ok, old(Caps()), old(overflow))
      ensures nest == old(nest)
      decreases |subject.text| - reginput, Weight(start, reginput), 5
    {
      hide Ready, Denotes, Run, RunAtom, RunSimple, RunAny, Nested, Before, Progress, WfCont, Weight, Noted, At, Link,
           HeadOp, Fork, AllReady, AtomOp, Operand, OutAtom, RepeatOp;
      if nest >= max {
        overflow := true;
        return false;
      }
      var scan: int := prog;
      ghost var k, i := start, reginput;
      ReadyWf(program, scan, subject, k, reginput);
      ghost var goal := Run(subject, max, start, reginput, nest);
      while scan != NULL
        invariant 0 <= scan && 0 <= reginput <= |subject.text| && WfCont(k) &&
          Ready(program, scan, subject, k, reginput)
        invariant nest == old(nest) && overflow == old(overflow) && Caps() == old(Caps())
        invariant goal == Run(subject, max, k, reginput, nest)
        invariant i <= reginput && (reginput == i ==> Weight(k, reginput) <= Weight(start, reginput))
        decreases |subject.text| - reginput, Weight(k, reginput)
      {
        ReadyHead(program, scan, subject, k, reginput);
        NextIs(program, scan);
        var next := RegNext(program, scan);
        var op := Op(program, scan);
        if op == END {
          DoneRuns(subject, max, reginput, nest);
          NotedNone(Caps());
          return true;
        } else if LeafOp(op) {
          ok := PassLeaf(scan, next, k);
          if !ok {
            return false;
          }
          k := Rest(k);
        } else if op == NOTHING {
          NothingStep(program, scan, subject, max, k, reginput, nest);
          k := k.k;
          ReadyWf(program, next, subject, k, reginput);
        } else if op == BACK {
          k := BackStep(program, scan, subject, max, k, reginput, nest);
          ReadyWf(program, next, subject, k, reginput);
        } else if op == BRANCH {
          ghost var ks := BranchStep(program, scan, subject, max, k, reginput, nest);
          ForkNext(program, scan, ks);
          if Op(program, next) != BRANCH {
            ReadyOne(program, scan, subject, ks, reginput, Weight(k, reginput));
            next := scan + 3;
            k := ks[0];
            ReadyWf(program, next, subject, k, reginput);
          } else {
            ok := TryBranches(scan, ks, Weight(k, reginput));
            return ok;
          }
        } else {
          ok := MatchRest(scan, next, k);
          return ok;
        }
        scan := next;
      }
      assert false;   // "corrupted pointers"
    }

    /** Tries the whole program at one position; captures are cleared first. */
    method RegTry(s: nat, ghost alts: Alts) returns (ok: bool)
      requires Valid() && s <= |subject.text| && alts.ACons? && WfAlts(alts) && Denotes(program, 1, Choose(alts, Done))
      modifies this`reginput, this`nest, this`overflow, startp, endp
      ensures ok == TryAt(subject, max, alts, s).ok && overflow == (old(overflow) || TryAt(subject, max, alts, s).over)
      ensures Caps() == if ok then Whole(s, TryAt(subject, max, alts, s)) else Blank()
    {
      hide Denotes, Run, Noted;
      reginput, nest := s, 0;
      var i := 0;
      while i < NSUBEXP
        invariant i <= NSUBEXP && reginput == s && nest == 0 && overflow == old(overflow)
        invariant forall j :: 0 <= j < i ==> startp[j] == NULL && endp[j] == NULL
      {
        startp[i], endp[i] := NULL, NULL;
        i := i + 1;
      }
      assert Caps() == Blank();
      TopReady(program, subject, alts, s);
      ok := RegMatch(1, Choose(alts, Done));
      if ok {
        startp[0], endp[0] := s, reginput;
      }
    }
  }
}
