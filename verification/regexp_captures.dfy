/** What the capture arrays hold after a match: for every group, where its last traversal on the
    successful path began and ended. */
module RegexpCaptures {
  import opened RegexpCode
  import opened RegexpSyntax
  import opened RegexpSemantics
  import opened RegexpMachine
  import opened RegexpStrings
  import opened RegexpMatcher
  import opened RegexpSearch

  ghost predicate Silent(t: seq<Event>, no: nat)
  {
    forall j :: 0 <= j < |t| ==> t[j].no != no
  }

  /** `v` is what happened inside the last traversal of group `no`, from `p` to `q`. */
  ghost predicate Split(su: Subject, no: nat, body: Alts, t: seq<Event>, u: seq<Event>, p: nat, v: seq<Event>, q: nat,
                        w: seq<Event>)
  {
    && t == u + [Opened(no, p)] + v + [Closed(no, q)] + w
    && Silent(v, no) && Silent(w, no)
    && p <= q && p <= |su.text| && WfAlts(body) && Outcome(q, v) in OutAlts(su, body, p)
  }

  /** Within a match from `lo` to `hi`, group `no` was traversed, the last time as `Split` says. */
  ghost predicate Traversed(su: Subject, no: nat, body: Alts, t: seq<Event>, lo: nat, hi: nat)
  {
    exists u: seq<Event>, p: nat, v: seq<Event>, q: nat, w: seq<Event> :: Split(su, no, body, t, u, p, v, q, w) &&
      lo <= p && q <= hi
  }

  ghost predicate Good(su: Subject, no: nat, inside: bool, body: Alts, t: seq<Event>, lo: nat, hi: nat)
  {
    Silent(t, no) || (inside && Traversed(su, no, body, t, lo, hi))
  }

  ghost predicate AllGood(su: Subject, no: nat, inside: bool, body: Alts, os: seq<Outcome>, lo: nat)
  {
    forall j :: 0 <= j < |os| ==> Good(su, no, inside, body, os[j].trace, lo, os[j].end)
  }

  // ----- The body of a numbered group -----

  predicate Within(no: nat, lo: nat, count: nat)
  {
    lo <= no < lo + count
  }

  function AtomBody(a: Atom, no: nat, lo: nat): Alts
  {
    match a
    case Group(m, body) => if no == m then body else AltsBody(body, no, lo + 1)
    case _ => ANil
  }

  function PiecesBody(ps: Pieces, no: nat, lo: nat): Alts
  {
    match ps
    case PNil => ANil
    case PCons(h, t) =>
      if Within(no, lo, AtomGroups(h.atom)) then AtomBody(h.atom, no, lo) else PiecesBody(t, no,
        lo + AtomGroups(h.atom))
  }

  /** The body of group `no` in alternatives whose groups are numbered from `lo`. */
  function AltsBody(alts: Alts, no: nat, lo: nat): Alts
  {
    match alts
    case ANil => ANil
    case ACons(b, r) =>
      if Within(no, lo, PiecesGroups(b)) then PiecesBody(b, no, lo) else AltsBody(r, no, lo + PiecesGroups(b))
  }

  // ----- Putting traces together -----

  lemma SilentConcat(s: seq<Event>, t: seq<Event>, no: nat)
    requires Silent(s, no) && Silent(t, no)
    ensures Silent(s + t, no)
  {
  }

  lemma SplitMore(su: Subject, no: nat, body: Alts, t: seq<Event>, u: seq<Event>, p: nat, v: seq<Event>, q: nat,
                  w: seq<Event>,
                  before: seq<Event>, after: seq<Event>)
    requires Split(su, no, body, t, u, p, v, q, w) && Silent(after, no)
    ensures Split(su, no, body, before + t + after, before + u, p, v, q, w + after)
  {
    hide OutAlts, WfAlts;
    assert before + t + after == before + u + [Opened(no, p)] + v + [Closed(no, q)] + (w + after);
  }

  lemma TraversedMore(su: Subject, no: nat, body: Alts, t: seq<Event>, lo: nat, hi: nat, before: seq<Event>,
                      after: seq<Event>, lo': nat, hi': nat)
    requires Traversed(su, no, body, t, lo, hi) && Silent(after, no) && lo' <= lo && hi <= hi'
    ensures Traversed(su, no, body, before + t + after, lo', hi')
  {
    hide Split, Silent;
    var u: seq<Event>, p: nat, v: seq<Event>, q: nat, w: seq<Event> :| Split(su, no, body, t, u, p, v, q, w) &&
      lo <= p && q <= hi;
    SplitMore(su, no, body, t, u, p, v, q, w, before, after);
  }

  lemma GoodConcat(su: Subject, no: nat, inside: bool, body: Alts, s: seq<Event>, t: seq<Event>, lo: nat, mid: nat,
                   hi: nat)
    requires Good(su, no, inside, body, s, lo, mid) && Good(su, no, inside, body, t, mid, hi) && lo <= mid <= hi
    ensures Good(su, no, inside, body, s + t, lo, hi)
  {
    hide Traversed, Silent;
    if !Silent(t, no) {
      SilentNone(no);
      TraversedMore(su, no, body, t, mid, hi, s, [], lo, hi);
      assert s + t + [] == s + t;
    } else if !Silent(s, no) {
      TraversedMore(su, no, body, s, lo, mid, [], t, lo, hi);
      assert [] + s + t == s + t;
    } else {
      SilentConcat(s, t, no);
    }
  }

  lemma SilentNone(no: nat)
    ensures Silent([], no)
  {
  }

  lemma AllPrefix(su: Subject, no: nat, inside: bool, body: Alts, s: seq<Event>, os: seq<Outcome>, lo: nat, mid: nat)
    requires Good(su, no, inside, body, s, lo, mid) && AllGood(su, no, inside, body, os, mid)
    requires lo <= mid && Between(os, mid, |su.text|)
    ensures AllGood(su, no, inside, body, Prefix(s, os), lo)
  {
    hide Good;
    forall j | 0 <= j < |os| ensures Good(su, no, inside, body, Prefix(s, os)[j].trace, lo, Prefix(s, os)[j].end) {
      GoodConcat(su, no, inside, body, s, os[j].trace, lo, mid, os[j].end);
    }
  }

  lemma AllConcat(su: Subject, no: nat, inside: bool, body: Alts, xs: seq<Outcome>, ys: seq<Outcome>, lo: nat)
    requires AllGood(su, no, inside, body, xs, lo) && AllGood(su, no, inside, body, ys, lo)
    ensures AllGood(su, no, inside, body, xs + ys, lo)
  {
    hide Good;
  }

  lemma AllLift(su: Subject, no: nat, inside: bool, body: Alts, body': Alts, os: seq<Outcome>, lo: nat)
    requires AllGood(su, no, false, body, os, lo)
    ensures AllGood(su, no, inside, body', os, lo)
  {
    hide Traversed, Silent;
    forall j | 0 <= j < |os| ensures Good(su, no, inside, body', os[j].trace, lo, os[j].end) {
      assert Good(su, no, false, body, os[j].trace, lo, os[j].end);
    }
  }

  lemma AllQuiet(su: Subject, no: nat, inside: bool, body: Alts, os: seq<Outcome>, lo: nat)
    requires forall j :: 0 <= j < |os| ==> os[j].trace == []
    ensures AllGood(su, no, inside, body, os, lo)
  {
    forall j | 0 <= j < |os| ensures Good(su, no, inside, body, os[j].trace, lo, os[j].end) {
      SilentNone(no);
    }
  }

  lemma GoodIn(su: Subject, no: nat, inside: bool, body: Alts, os: seq<Outcome>, lo: nat, j: nat)
    requires AllGood(su, no, inside, body, os, lo) && j < |os|
    ensures Good(su, no, inside, body, os[j].trace, lo, os[j].end)
  {
    hide Good;
  }

  // ----- Every outcome -----

  lemma AtomGood(su: Subject, a: Atom, i: nat, lo: nat, no: nat)
    requires WfAtom(a) && i <= |su.text| && AtomNumbered(a, lo)
    ensures AllGood(su, no, Within(no, lo, AtomGroups(a)), AtomBody(a, no, lo), OutAtom(su, a, i), i)
    decreases a, 0
  {
    hide Good, AllGood, OutAlts;
    var inside, body := Within(no, lo, AtomGroups(a)), AtomBody(a, no, lo);
    if a.Group? {
      AltsGood(su, a.body, i, lo + 1, no);
      GroupGood(su, a, i, lo, no);
    } else {
      AllQuiet(su, no, inside, body, OutAtom(su, a, i), i);
    }
  }

  lemma GroupGood(su: Subject, a: Atom, i: nat, lo: nat, no: nat)
    requires a.Group? && WfAtom(a) && i <= |su.text| && AtomNumbered(a, lo)
    requires AllGood(su, no, Within(no, lo + 1, AltsGroups(a.body)), AltsBody(a.body, no, lo + 1), OutAlts(su, a.body,
      i), i)
    ensures AllGood(su, no, Within(no, lo, AtomGroups(a)), AtomBody(a, no, lo), OutAtom(su, a, i), i)
  {
    hide Good, OutAlts, AltsBody, OutAtom, AtomGroups, AltsGroups;
    var os, result := OutAlts(su, a.body, i), OutAtom(su, a, i);
    GroupOut(su, a, i);
    forall j | 0 <= j < |result|
      ensures Good(su, no, Within(no, lo, AtomGroups(a)), AtomBody(a, no, lo), result[j].trace, i, result[j].end)
    {
      var v, q := os[j].trace, os[j].end;
      assert os[j] == Outcome(q, v);
      GoodIn(su, no, Within(no, lo + 1, AltsGroups(a.body)), AltsBody(a.body, no, lo + 1), os, i, j);
      GroupCount(a, no, lo);
      if no == lo {
        OwnGroup(su, no, a.body, AltsBody(a.body, no, lo + 1), i, v, q);
      } else {
        OtherGroup(su, no, lo, Within(no, lo + 1, AltsGroups(a.body)), AltsBody(a.body, no, lo + 1), i, v, q);
      }
    }
  }

  lemma GroupOut(su: Subject, a: Atom, i: nat)
    requires a.Group? && WfAtom(a) && i <= |su.text|
    ensures var os := OutAlts(su, a.body, i); var result := OutAtom(su, a, i);
      |result| == |os| && forall j :: 0 <= j < |os| ==>
        result[j] == Outcome(os[j].end, [Opened(a.no, i)] + (os[j].trace + [Closed(a.no, os[j].end)]))
  {
    hide OutAlts;
  }

  lemma GroupCount(a: Atom, no: nat, lo: nat)
    requires a.Group? && AtomNumbered(a, lo)
    ensures no != lo ==> Within(no, lo, AtomGroups(a)) == Within(no, lo + 1, AltsGroups(a.body))
    ensures no == lo ==> Within(no, lo, AtomGroups(a)) && !Within(no, lo + 1, AltsGroups(a.body))
    ensures AtomBody(a, no, lo) == if no == lo then a.body else AltsBody(a.body, no, lo + 1)
  {
    hide AltsGroups, AltsBody, AltsNumbered;
  }

  lemma OwnGroup(su: Subject, no: nat, body: Alts, inner: Alts, i: nat, v: seq<Event>, q: nat)
    requires i <= |su.text| && WfAlts(body) && Outcome(q, v) in OutAlts(su, body, i) &&
      Good(su, no, false, inner, v, i, q)
    ensures Good(su, no, true, body, [Opened(no, i)] + (v + [Closed(no, q)]), i, q)
  {
    hide OutAlts;
    var t := [Opened(no, i)] + (v + [Closed(no, q)]);
    assert t == [] + [Opened(no, i)] + v + [Closed(no, q)] + [];
    assert Split(su, no, body, t, [], i, v, q, []);
  }

  lemma OtherGroup(su: Subject, no: nat, m: nat, inside: bool, body: Alts, i: nat, v: seq<Event>, q: nat)
    requires no != m && Good(su, no, inside, body, v, i, q) && i <= q
    ensures Good(su, no, inside, body, [Opened(m, i)] + (v + [Closed(m, q)]), i, q)
  {
    hide Traversed;
    GoodConcat(su, no, inside, body, v, [Closed(m, q)], i, q, q);
    GoodConcat(su, no, inside, body, [Opened(m, i)], v + [Closed(m, q)], i, i, q);
  }

  lemma AltsGood(su: Subject, alts: Alts, i: nat, lo: nat, no: nat)
    requires WfAlts(alts) && i <= |su.text| && AltsNumbered(alts, lo)
    ensures AllGood(su, no, Within(no, lo, AltsGroups(alts)), AltsBody(alts, no, lo), OutAlts(su, alts, i), i)
    decreases alts, 0
  {
    hide Good, AllGood, OutPieces, PiecesBody;
    var inside, body := Within(no, lo, AltsGroups(alts)), AltsBody(alts, no, lo);
    if alts.ANil? {
      AllQuiet(su, no, inside, body, [], i);
    } else {
      var b, rest, n := alts.first, alts.rest, PiecesGroups(alts.first);
      PiecesGood(su, b, i, lo, no);
      AltsGood(su, rest, i, lo + n, no);
      if !Within(no, lo, n) { AllLift(su, no, inside, PiecesBody(b, no, lo), body, OutPieces(su, b, i), i); }
      if !Within(no, lo + n, AltsGroups(rest)) { AllLift(su, no, inside, AltsBody(rest, no, lo + n), body, OutAlts(su,
        rest, i), i); }
      AllConcat(su, no, inside, body, OutPieces(su, b, i), OutAlts(su, rest, i), i);
    }
  }

  lemma PiecesGood(su: Subject, ps: Pieces, i: nat, lo: nat, no: nat)
    requires WfPieces(ps) && i <= |su.text| && PiecesNumbered(ps, lo)
    ensures AllGood(su, no, Within(no, lo, PiecesGroups(ps)), PiecesBody(ps, no, lo), OutPieces(su, ps, i), i)
    decreases ps, 0
  {
    hide Good, AllGood, OutPiece, Chain, AtomBody;
    var inside, body := Within(no, lo, PiecesGroups(ps)), PiecesBody(ps, no, lo);
    if ps.PNil? {
      AllQuiet(su, no, inside, body, [Outcome(i, [])], i);
    } else {
      var p, n := ps.head, AtomGroups(ps.head.atom);
      PieceGood(su, p, i, lo, no);
      if !Within(no, lo, n) { AllLift(su, no, inside, AtomBody(p.atom, no, lo), body, OutPiece(su, p, i), i); }
      ChainGood(su, OutPiece(su, p, i), ps.tail, if PieceWidth(p) then i + 1 else i, i, lo + n, no, inside, body);
    }
  }

  lemma ChainGood(su: Subject, os: seq<Outcome>, rest: Pieces, lo: nat, i: nat, from: nat, no: nat, inside: bool,
                  body: Alts)
    requires WfPieces(rest) && i <= lo && Between(os, lo, |su.text|) && PiecesNumbered(rest, from)
    requires AllGood(su, no, inside, body, os, i)
    requires Within(no, from, PiecesGroups(rest)) ==> inside && body == PiecesBody(rest, no, from)
    ensures AllGood(su, no, inside, body, Chain(su, os, rest, lo), i)
    decreases rest, 1, |os|
  {
    hide Good, OutPieces, PiecesBody;
    if os != [] {
      var here, more := os[0], OutPieces(su, rest, os[0].end);
      PiecesGood(su, rest, here.end, from, no);
      if !Within(no, from, PiecesGroups(rest)) { AllLift(su, no, inside, PiecesBody(rest, no, from), body, more,
        here.end); }
      AllPrefix(su, no, inside, body, here.trace, more, i, here.end);
      ChainGood(su, os[1..], rest, lo, i, from, no, inside, body);
      AllConcat(su, no, inside, body, Prefix(here.trace, more), Chain(su, os[1..], rest, lo), i);
    }
  }

  lemma PieceGood(su: Subject, p: Piece, i: nat, lo: nat, no: nat)
    requires WfPiece(p) && i <= |su.text| && AtomNumbered(p.atom, lo)
    ensures AllGood(su, no, Within(no, lo, AtomGroups(p.atom)), AtomBody(p.atom, no, lo), OutPiece(su, p, i), i)
    decreases p, 0
  {
    hide Good, AllGood, OutAtom, OutStar, OutLazy, StarEach, LazyEach, AtomBody;
    var a := p.atom;
    var inside, body := Within(no, lo, AtomGroups(a)), AtomBody(a, no, lo);
    AtomGood(su, a, i, lo, no);
    match p.quant
    case One =>
    case Opt =>
      AllQuiet(su, no, inside, body, [Outcome(i, [])], i);
      AllConcat(su, no, inside, body, OutAtom(su, a, i), [Outcome(i, [])], i);
    case Star => StarGood(su, a, i, lo, no);
    case Plus => EachGood(su, OutAtom(su, a, i), a, i + 1, i, lo, no);
    case LazyStar => LazyGood(su, a, i, lo, no);
    case LazyPlus => LazyEachGood(su, OutAtom(su, a, i), a, i + 1, i, lo, no);
  }

  lemma StarGood(su: Subject, a: Atom, i: nat, lo: nat, no: nat)
    requires WfAtom(a) && AtomWidth(a) && i <= |su.text| && AtomNumbered(a, lo)
    ensures AllGood(su, no, Within(no, lo, AtomGroups(a)), AtomBody(a, no, lo), OutStar(su, a, i), i)
    decreases a, 2, |su.text| - i, 1, 0
  {
    hide Good, AllGood, OutAtom, StarEach, AtomBody;
    var inside, body := Within(no, lo, AtomGroups(a)), AtomBody(a, no, lo);
    AtomGood(su, a, i, lo, no);
    EachGood(su, OutAtom(su, a, i), a, i + 1, i, lo, no);
    AllQuiet(su, no, inside, body, [Outcome(i, [])], i);
    AllConcat(su, no, inside, body, StarEach(su, OutAtom(su, a, i), a, i + 1), [Outcome(i, [])], i);
  }

  lemma EachGood(su: Subject, os: seq<Outcome>, a: Atom, low: nat, i: nat, lo: nat, no: nat)
    requires WfAtom(a) && AtomWidth(a) && i <= low && Between(os, low, |su.text|) && AtomNumbered(a, lo)
    requires AllGood(su, no, Within(no, lo, AtomGroups(a)), AtomBody(a, no, lo), os, i)
    ensures AllGood(su, no, Within(no, lo, AtomGroups(a)), AtomBody(a, no, lo), StarEach(su, os, a, low), i)
    decreases a, 2, |su.text| - low + 1, 0, |os|
  {
    hide Good, OutStar, AtomBody;
    var inside, body := Within(no, lo, AtomGroups(a)), AtomBody(a, no, lo);
    if os != [] {
      var here, more := os[0], OutStar(su, a, os[0].end);
      StarGood(su, a, here.end, lo, no);
      AllPrefix(su, no, inside, body, here.trace, more, i, here.end);
      EachGood(su, os[1..], a, low, i, lo, no);
      AllConcat(su, no, inside, body, Prefix(here.trace, more), StarEach(su, os[1..], a, low), i);
    }
  }

  lemma LazyGood(su: Subject, a: Atom, i: nat, lo: nat, no: nat)
    requires WfAtom(a) && AtomWidth(a) && i <= |su.text| && AtomNumbered(a, lo)
    ensures AllGood(su, no, Within(no, lo, AtomGroups(a)), AtomBody(a, no, lo), OutLazy(su, a, i), i)
    decreases a, 2, |su.text| - i, 1, 0
  {
    hide Good, AllGood, OutAtom, LazyEach, AtomBody;
    var inside, body := Within(no, lo, AtomGroups(a)), AtomBody(a, no, lo);
    AtomGood(su, a, i, lo, no);
    LazyEachGood(su, OutAtom(su, a, i), a, i + 1, i, lo, no);
    AllQuiet(su, no, inside, body, [Outcome(i, [])], i);
    AllConcat(su, no, inside, body, [Outcome(i, [])], LazyEach(su, OutAtom(su, a, i), a, i + 1), i);
  }

  lemma LazyEachGood(su: Subject, os: seq<Outcome>, a: Atom, low: nat, i: nat, lo: nat, no: nat)
    requires WfAtom(a) && AtomWidth(a) && i <= low && Between(os, low, |su.text|) && AtomNumbered(a, lo)
    requires AllGood(su, no, Within(no, lo, AtomGroups(a)), AtomBody(a, no, lo), os, i)
    ensures AllGood(su, no, Within(no, lo, AtomGroups(a)), AtomBody(a, no, lo), LazyEach(su, os, a, low), i)
    decreases a, 2, |su.text| - low + 1, 0, |os|
  {
    hide Good, OutLazy, AtomBody;
    var inside, body := Within(no, lo, AtomGroups(a)), AtomBody(a, no, lo);
    if os != [] {
      var here, more := os[0], OutLazy(su, a, os[0].end);
      LazyGood(su, a, here.end, lo, no);
      AllPrefix(su, no, inside, body, here.trace, more, i, here.end);
      LazyEachGood(su, os[1..], a, low, i, lo, no);
      AllConcat(su, no, inside, body, Prefix(here.trace, more), LazyEach(su, os[1..], a, low), i);
    }
  }

  // ----- Recording a trace -----

  lemma {:induction false} NotedConcat(c: Captures, s: seq<Event>, t: seq<Event>)
    ensures Noted(c, s + t) == Noted(Noted(c, t), s)
  {
    if s == [] {
      assert [] + t == t;
    } else {
      assert (s + t)[1..] == s[1..] + t;
      NotedConcat(c, s[1..], t);
    }
  }

  lemma {:induction false} NotedSilent(c: Captures, t: seq<Event>, no: nat)
    requires Silent(t, no) && no < |c.starts| && no < |c.ends|
    ensures Noted(c, t).starts[no] == c.starts[no] && Noted(c, t).ends[no] == c.ends[no]
  {
    if t != [] {
      NotedSilent(c, t[1..], no);
    }
  }

  lemma {:induction false} NotedKeeps(c: Captures, t: seq<Event>, no: nat)
    requires no < |c.starts| && no < |c.ends|
    ensures c.starts[no] != NULL ==> Noted(c, t).starts[no] == c.starts[no]
    ensures c.ends[no] != NULL ==> Noted(c, t).ends[no] == c.ends[no]
  {
    if t != [] {
      NotedKeeps(c, t[1..], no);
    }
  }

  /** The slots of a group that was traversed are the bounds of its last traversal. */
  lemma NotedSplit(su: Subject, no: nat, body: Alts, t: seq<Event>, u: seq<Event>, p: nat, v: seq<Event>, q: nat,
                   w: seq<Event>)
    requires no < NSUBEXP && Split(su, no, body, t, u, p, v, q, w)
    ensures Noted(Blank(), t).starts[no] == p && Noted(Blank(), t).ends[no] == q
  {
    hide Noted, OutAlts, WfAlts;
    var c := Blank();
    NotedConcat(c, u + [Opened(no, p)] + v + [Closed(no, q)], w);
    NotedSilent(c, w, no);
    var c1 := Noted(c, w);
    NotedConcat(c1, u + [Opened(no, p)] + v, [Closed(no, q)]);
    NotedOne(c1, Closed(no, q));
    var c2 := Noted(c1, [Closed(no, q)]);
    NotedConcat(c2, u + [Opened(no, p)], v);
    NotedSilent(c2, v, no);
    var c3 := Noted(c2, v);
    NotedConcat(c3, u, [Opened(no, p)]);
    NotedOne(c3, Opened(no, p));
    NotedKeeps(Noted(c3, [Opened(no, p)]), u, no);
  }

  lemma NotedOne(c: Captures, e: Event)
    ensures Noted(c, [e]) == Note(c, e)
  {
    NotedNone(c);
    NotedFirst(c, e, []);
    assert [e] + [] == [e];
  }

  /** In the events `t` of a match from `lo` to `hi`, the last traversal of group `no` went from `start`
      to `end` through the group's own body, and nothing later touched the group. */
  ghost predicate Captured(su: Subject, no: nat, body: Alts, t: seq<Event>, start: int, end: int, lo: int, hi: int)
  {
    && 0 <= lo <= start <= end <= hi
    && exists u, v, w :: Split(su, no, body, t, u, start, v, end, w)
  }

  /** Recorded captures of any outcome: a group has a start exactly when it has an end, exactly
      when it was traversed, and then the two bound its last traversal. */
  lemma CapturesAreTraversals(su: Subject, alts: Alts, i: nat, o: Outcome, no: nat)
    requires WfAlts(alts) && AltsNumbered(alts, 1) && i <= |su.text| && o in OutAlts(su, alts, i) && 1 <= no < NSUBEXP
    ensures var c := Noted(Blank(), o.trace);
      && (c.starts[no] == NULL <==> c.ends[no] == NULL)
      && (c.starts[no] == NULL <==> Silent(o.trace, no))
      && (c.starts[no] != NULL ==> Captured(su, no, AltsBody(alts, no, 1), o.trace, c.starts[no], c.ends[no], i, o.end))
  {
    hide Noted, OutAlts, AltsBody, WfAlts, Silent;
    var os := OutAlts(su, alts, i);
    AltsGood(su, alts, i, 1, no);
    var j :| 0 <= j < |os| && os[j] == o;
    GoodIn(su, no, Within(no, 1, AltsGroups(alts)), AltsBody(alts, no, 1), os, i, j);
    if Silent(o.trace, no) {
      NotedSilent(Blank(), o.trace, no);
    } else {
      var u: seq<Event>, p: nat, v: seq<Event>, q: nat, w: seq<Event> :| Split(su, no, AltsBody(alts, no, 1), o.trace,
        u, p, v, q, w) && i <= p && q <= o.end;
      NotedSplit(su, no, AltsBody(alts, no, 1), o.trace, u, p, v, q, w);
    }
  }

  /** After a successful search the whole match is in slot 0 and every group's slots are its last
      traversal; nothing an abandoned path did shows. */
  lemma SearchCaptures(su: Subject, max: int, alts: Alts, no: nat)
    requires alts.ACons? && WfAlts(alts) && AltsNumbered(alts, 1) && 1 <= no < NSUBEXP
    requires Scan(su, max, alts, 0) != NULL
    ensures var at := Scan(su, max, alts, 0); var r := TryAt(su, max, alts, at); var c := Whole(at, r);
      && c.starts[0] == at && c.ends[0] == r.end && at <= r.end <= |su.text|
      && (c.starts[no] == NULL <==> c.ends[no] == NULL)
      && (c.starts[no] == NULL <==> Silent(r.trace, no))
      && (c.starts[no] != NULL ==> Captured(su, no, AltsBody(alts, no, 1), r.trace, c.starts[no], c.ends[no], at,
        r.end))
  {
    hide TryAt, OutAlts, AltsBody, WfAlts, Noted, Captured, Silent;
    var at := Scan(su, max, alts, 0);
    var r := TryAt(su, max, alts, at);
    TryMeans(su, max, alts, at);
    CapturesAreTraversals(su, alts, at, Outcome(r.end, r.trace), no);
  }
}
