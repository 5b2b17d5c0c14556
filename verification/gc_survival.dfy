/** What a collection keeps: its marks are closed under references except where a torn list is cut,
    and exactly what is reachable when no list is torn. */
module GcSurvival {
  import opened GcBlocks
  import opened GcHeap
  import opened GcReach
  import opened GcGuardians
  import opened GcResurrection

  /** `v` is kept, or is a pair that got lost. */
  ghost predicate KeptOrLost(g1: map<Cell, Shape>, all: seq<Cell>, lists: map<Cell, Lists>, obj: map<Cell, Value>,
                             m: set<Cell>,
                             m2: set<Cell>, v: Value)
  {
    v == Zero || Settled(g1, m2, v) || (v.Ref? && v.cell in Lost(all, lists, obj, m))
  }

  /** Everything a kept cell refers to is kept, except for lost pairs. */
  ghost predicate ClosedButLost(g1: map<Cell, Shape>, all: seq<Cell>, lists: map<Cell, Lists>, obj: map<Cell, Value>,
                                m: set<Cell>,
                                m2: set<Cell>)
  {
    forall c, v :: c in m2 && c in g1 && v in Kids(g1[c]) ==> KeptOrLost(g1, all, lists, obj, m, m2, v)
  }

  lemma InMarks(g1: map<Cell, Shape>, m2: set<Cell>, c: Cell)
    requires c in m2
    ensures Settled(g1, m2, Ref(c))
  {
  }

  /** A pair that was accessible holds a kept object and leads to a kept pair, unless its list is cut there. */
  lemma AccPair(h: Cell, c: Cell, v: Value, g0: map<Cell, Shape>, g1: map<Cell, Shape>, all: seq<Cell>,
                lists: map<Cell, Lists>,
                obj: map<Cell, Value>, nil: Value, m: set<Cell>, m2: set<Cell>, bound: set<Cell>)
    requires Rearranged(g0, g1, all, lists, obj, nil, m) && Marking(g1, m + Accessible(all, lists), m2, bound, Zero)
    requires forall v :: v in MovedObjects(all, lists, obj, m) ==> Settled(g1, m2, v)
    requires Settled(g0, m, nil) && h in all && c in ListsOf(lists, h).acc && c in g1 && v in Kids(g1[c])
    ensures KeptOrLost(g1, all, lists, obj, m, m2, v)
  {
    hide Separate, SameElsewhere, Closed, Spines, Private, PrivateMarks, Kept, Moved, Lost, Distinct, Accessible,
         Settled, MovedObjects;
    var l := ListsOf(lists, h);
    AccIntact(h, g0, g1, all, lists, obj, nil, m, m2, bound);
    Still(g0, g1, all, lists, m, m2, nil);
    var next := Run1(l, obj, m);
    assert ListsOf(RunLists(all, lists, obj, m), h) == next;
    var s := if c in next.acc then next.acc else next.inacc;
    assert c in s;
    var i :| 0 <= i < |s| && s[i] == c;
    assert ShapeList(g1, s, obj, nil);
    assert g1[c] == Pair(Obj(obj, c), After(s, i, nil));
    if i + 1 < |s| && v == Ref(s[i + 1]) {
      NextPair(h, c, s[i + 1], g0, g1, all, lists, obj, nil, m, m2, i);
    }
  }

  lemma NextPair(h: Cell, c: Cell, d: Cell, g0: map<Cell, Shape>, g1: map<Cell, Shape>, all: seq<Cell>,
                 lists: map<Cell, Lists>,
                 obj: map<Cell, Value>, nil: Value, m: set<Cell>, m2: set<Cell>, i: nat)
    requires Rearranged(g0, g1, all, lists, obj, nil, m) && m + Accessible(all, lists) <= m2
    requires h in all && c in ListsOf(lists, h).acc
    requires var next := Run1(ListsOf(lists, h), obj, m); var s := if c in next.acc then next.acc else next.inacc;
      i + 1 < |s| && s[i] == c && s[i + 1] == d
    ensures KeptOrLost(g1, all, lists, obj, m, m2, Ref(d))
  {
    hide Separate, SameElsewhere, Closed, Spines, Private, PrivateMarks, Kept, Moved, Distinct, Settled, Listed;
    var l := ListsOf(lists, h);
    if d in l.acc {
      AccIn(h, d, all, lists);
      InMarks(g1, m2, d);
    } else {
      assert d in l.inacc && c !in Kept(l.acc, obj, m) && c in Moved(l.acc, obj, m) + l.inacc;
      assert Moved(l.acc, obj, m) != [];
      if h in m {
        ReachedIntact(h, g0, g1, all, lists, obj, nil, m, m2);
        InMarks(g1, m2, d);
      } else {
        LostHas(h, d, all, lists, obj, m);
      }
    }
  }

  /** A pair of a marked guardian's old inaccessible list is as it was. */
  lemma InaccPair(h: Cell, c: Cell, v: Value, g0: map<Cell, Shape>, g1: map<Cell, Shape>, all: seq<Cell>,
                  lists: map<Cell, Lists>,
                  obj: map<Cell, Value>, nil: Value, m: set<Cell>, m2: set<Cell>)
    requires Rearranged(g0, g1, all, lists, obj, nil, m) && m <= m2 && h in all && h in m
    requires Settled(g0, m, nil) && c in ListsOf(lists, h).inacc && c in g1 && v in Kids(g1[c])
    ensures Settled(g1, m2, v)
  {
    hide Separate, SameElsewhere, Closed, Spines, Private, PrivateMarks, Kept, Moved, Distinct, Settled, Listed;
    var s := ListsOf(lists, h).inacc;
    ReachedIntact(h, g0, g1, all, lists, obj, nil, m, m2);
    Still(g0, g1, all, lists, m, m2, nil);
    var j :| 0 <= j < |s| && s[j] == c;
    InaccShape(h, j, g0, g1, all, lists, obj, nil, m);
    if j + 1 < |s| { InMarks(g1, m2, s[j + 1]); }
  }

  /** A guardian that was marked refers to the first of its pairs. */
  lemma MarkedGuardian(h: Cell, v: Value, g0: map<Cell, Shape>, g1: map<Cell, Shape>, all: seq<Cell>, lists: map<Cell,
                       Lists>,
                       obj: map<Cell, Value>, nil: Value, m: set<Cell>, m2: set<Cell>)
    requires Rearranged(g0, g1, all, lists, obj, nil, m) && m + Accessible(all, lists) <= m2 && h in all && h in m
    requires Settled(g0, m, nil) && h in g1 && v in Kids(g1[h])
    ensures Settled(g1, m2, v)
  {
    hide Separate, SameElsewhere, Closed, Spines, Private, PrivateMarks, Kept, Moved, Distinct, Settled, Listed,
         Accessible;
    var l := ListsOf(lists, h);
    GuardianHead(h, g1, all, lists, obj, nil, m);
    Still(g0, g1, all, lists, m, m2, nil);
    var s := Moved(l.acc, obj, m) + l.inacc;
    if s != [] {
      if Moved(l.acc, obj, m) != [] {
        assert s[0] == Moved(l.acc, obj, m)[0];
        AccIn(h, s[0], all, lists);
      } else {
        assert s == l.inacc;
        ReachedIntact(h, g0, g1, all, lists, obj, nil, m, m2);
      }
      InMarks(g1, m2, s[0]);
    }
  }

  /** What was marked before refers to what was marked before, unless the lists were rearranged there. */
  lemma MarkedBefore(c: Cell, v: Value, g0: map<Cell, Shape>, g1: map<Cell, Shape>, all: seq<Cell>, lists: map<Cell,
                     Lists>,
                     obj: map<Cell, Value>, nil: Value, m: set<Cell>, m2: set<Cell>)
    requires Rearranged(g0, g1, all, lists, obj, nil, m) && m + Accessible(all, lists) <= m2
    requires Settled(g0, m, nil) && c in m && c !in Accessible(all, lists) && c in g1 && v in Kids(g1[c])
    ensures v == Zero || Settled(g1, m2, v)
  {
    hide Separate, SameElsewhere, Private, Kept, Moved, Distinct, Settled, Listed, Accessible;
    if c in all {
      MarkedGuardian(c, v, g0, g1, all, lists, obj, nil, m, m2);
    } else if c in Spines(all, lists) {
      var h :| h in all && c in Spine(ListsOf(lists, h));
      if c in ListsOf(lists, h).acc { AccIn(h, c, all, lists); }
      InaccPair(h, c, v, g0, g1, all, lists, obj, nil, m, m2);
    } else {
      ElsewhereSame(g0, g1, all, lists, c);
      if v != Zero { Still(g0, g1, all, lists, m, m2, v); }
    }
  }

  lemma ElsewhereSame(g0: map<Cell, Shape>, g1: map<Cell, Shape>, all: seq<Cell>, lists: map<Cell, Lists>, c: Cell)
    requires SameElsewhere(g0, g1, all, lists) && c in g1 && c !in all && c !in Spines(all, lists)
    ensures c in g0 && g1[c] == g0[c]
  {
  }

  /** After a collection everything a kept cell refers to is kept too, except for lost pairs. */
  lemma KeptIsClosed(g0: map<Cell, Shape>, g1: map<Cell, Shape>, all: seq<Cell>, lists: map<Cell, Lists>,
                     obj: map<Cell, Value>, nil: Value, m: set<Cell>, m2: set<Cell>, bound: set<Cell>)
    requires Rearranged(g0, g1, all, lists, obj, nil, m) && Marking(g1, m + Accessible(all, lists), m2, bound, Zero)
    requires Settled(g0, m, nil) && forall v :: v in MovedObjects(all, lists, obj, m) ==> Settled(g1, m2, v)
    ensures ClosedButLost(g1, all, lists, obj, m, m2)
  {
    hide Rearranged, MovedObjects, Lost, Settled;
    forall c, v | c in m2 && c in g1 && v in Kids(g1[c]) ensures KeptOrLost(g1, all, lists, obj, m, m2, v) {
      if c !in m + Accessible(all, lists) {
        assert v == Zero || Settled(g1, m2, v);
      } else if c in Accessible(all, lists) {
        var h :| h in all && c in ListsOf(lists, h).acc;
        AccPair(h, c, v, g0, g1, all, lists, obj, nil, m, m2, bound);
      } else {
        MarkedBefore(c, v, g0, g1, all, lists, obj, nil, m, m2);
      }
    }
  }

  // ----- When no list is torn -----

  predicate NoneTorn(all: seq<Cell>, lists: map<Cell, Lists>, obj: map<Cell, Value>, m: set<Cell>)
  {
    forall g :: g in all ==> !Torn(g, ListsOf(lists, g), obj, m)
  }

  lemma NothingLost(all: seq<Cell>, lists: map<Cell, Lists>, obj: map<Cell, Value>, m: set<Cell>)
    requires NoneTorn(all, lists, obj, m)
    ensures Lost(all, lists, obj, m) == {}
  {
    hide Torn;
  }

  /** ... what is kept is what the roots reach, the guardians' pairs, and all that the objects that
      changed state reach. */
  lemma KeptIsExact(g1: map<Cell, Shape>, all: seq<Cell>, lists: map<Cell, Lists>, obj: map<Cell, Value>, m: set<Cell>,
                    m2: set<Cell>,
                    changed: seq<Value>)
    requires Wf(g1) && ClosedButLost(g1, all, lists, obj, m, m2) && NoneTorn(all, lists, obj, m)
    requires Marking(g1, m + Accessible(all, lists), m2, Reach(g1, changed), Zero) && AllSettled(g1, m2, changed)
    ensures Closed(g1, m2, m2, Zero)
    ensures m2 == m + Accessible(all, lists) + MarkableOf(g1, Reach(g1, changed))
  {
    hide Accessible, Lost, NoneTorn, Settled;
    NothingLost(all, lists, obj, m);
    forall c, v | c in m2 && c in g1 && v in Kids(g1[c]) ensures v == Zero || Settled(g1, m2, v) {
      assert KeptOrLost(g1, all, lists, obj, m, m2, v);
    }
    forall c | c in MarkableOf(g1, Reach(g1, changed)) ensures c in m2 {
      var n: nat :| c in ReachIn(g1, changed, n);
      ReachLeast(g1, changed, n, m2);
    }
  }
}
