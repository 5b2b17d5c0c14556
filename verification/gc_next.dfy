/** The heap that a collection leaves is again one that can be collected. */
module GcNext {
  import opened GcBlocks
  import opened GcHeap
  import opened GcGuardians
  import opened GcResurrection
  import opened GcSurvival
  import opened GcCollect
  import GcHistory

  /** The guardians and their lists in a heap `g` whose permanently marked cells are `marks`. */
  ghost predicate InOrder(g: map<Cell, Shape>, marks: set<Cell>, all: seq<Cell>, lists: map<Cell, Lists>,
                          obj: map<Cell, Value>, nil: Value)
  {
    && Wf(g) && Separate(all, lists, obj, nil, g.Keys) && nil.Ref? && nil.cell in g
    && Listed(g, all, lists, obj, nil) && Private(g, all, lists)
    && (forall x :: x in all ==> Distinct(Spine(ListsOf(lists, x))))
    && Settled(g, marks, nil) && Closed(g, marks, marks, Zero)
    && marks !! Spines(all, lists)
  }

  lemma WorldIsInOrder(all: seq<Cell>, lists: map<Cell, Lists>, obj: map<Cell, Value>, nil: Value, heap: set<Cell>)
    ensures World(all, lists, obj, nil, heap) <==>
      InOrder(Shapes(heap), MarkedSet(heap), all, lists, obj, nil) && forall c :: c in heap ==> c.Proper()
  {
    hide Wf, Separate, Listed, Private, Distinct, Settled, Closed, Spines, Shapes, MarkedSet, Spine;
  }

  /** The guardians that stay, in the order the sweep leaves them. */
  function Surviving(all: seq<Cell>, kept: set<Cell>): (r: seq<Cell>)
    ensures forall c :: c in r ==> c in all && c in kept
    ensures forall c :: c in all && c in kept ==> c in r
  {
    if all == [] then []
    else
      var c := all[|all| - 1];
      (if c in kept then [c] else []) + Surviving(all[..|all| - 1], kept)
  }

  lemma SurvivingIn(all: seq<Cell>, kept: set<Cell>, c: Cell)
    ensures c in Surviving(all, kept) <==> c in all && c in kept
  {
  }

  lemma {:induction false} SurvivingDistinct(all: seq<Cell>, kept: set<Cell>)
    requires Distinct(all)
    ensures Distinct(Surviving(all, kept))
  {
    if all != [] {
      var t, c := all[..|all| - 1], all[|all| - 1];
      SurvivingDistinct(t, kept);
      var r := Surviving(t, kept);
      assert c !in t;
      assert c !in r;
      GcHistory.DistinctCons(c, r);
      assert [] + r == r;
    }
  }

  // ----- Rearranged lists have no repetitions -----

  lemma {:induction false} OnceEach(s: seq<Cell>)
    ensures Distinct(s) <==> forall c :: multiset(s)[c] <= 1
  {
    if s != [] {
      var t, x := s[..|s| - 1], s[|s| - 1];
      assert s == t + [x];
      OnceEach(t);
      if Distinct(s) {
        forall i | 0 <= i < |t| ensures t[i] != x { assert s[i] != s[|s| - 1]; }
        assert x !in t;
      }
      if forall c :: multiset(s)[c] <= 1 {
        forall c ensures multiset(t)[c] <= 1 { assert multiset(s)[c] <= 1; }
        forall i, j | 0 <= i < j < |s| ensures s[i] != s[j] {
          if j < |t| { assert t[i] != t[j]; } else { assert multiset(s)[x] <= 1; assert t[i] in multiset(t); }
        }
      }
    }
  }

  lemma {:induction false} SplitPairs(s: seq<Cell>, obj: map<Cell, Value>, m: set<Cell>)
    ensures multiset(Kept(s, obj, m)) + multiset(Moved(s, obj, m)) == multiset(s)
  {
    if s != [] {
      var t, c := s[..|s| - 1], s[|s| - 1];
      assert s == t + [c];
      SplitPairs(t, obj, m);
    }
  }

  lemma RunDistinct(l: Lists, obj: map<Cell, Value>, m: set<Cell>)
    requires Distinct(Spine(l))
    ensures Distinct(Spine(Run1(l, obj, m)))
  {
    hide Kept, Moved, Distinct;
    SplitPairs(l.acc, obj, m);
    OnceEach(Spine(l));
    OnceEach(Spine(Run1(l, obj, m)));
    assert multiset(Spine(Run1(l, obj, m))) == multiset(Spine(l));
  }

  // ----- The next heap -----

  /** What a collection did, as far as the next one cares. */
  ghost predicate After1(g0: map<Cell, Shape>, g1: map<Cell, Shape>, perm: set<Cell>, kept: set<Cell>, m: set<Cell>,
                         all: seq<Cell>,
                         lists: map<Cell, Lists>, obj: map<Cell, Value>, nil: Value)
  {
    && InOrder(g0, perm, all, lists, obj, nil) && Rearranged(g0, g1, all, lists, obj, nil, m) && Wf(g1)
    && ClosedButLost(g1, all, lists, obj, m, kept) && perm <= kept
    && (forall g :: g in all ==> g !in perm && (g in kept ==> Intact(g1, Run1(ListsOf(lists, g), obj, m), obj, kept)))
  }

  /** Pairs of the lists of guardians that are gone. */
  function DeadPairs(all: seq<Cell>, lists: map<Cell, Lists>, kept: set<Cell>): set<Cell>
  {
    set g, c | g in all && g !in kept && c in Spine(ListsOf(lists, g)) :: c
  }

  /** The cells the program may still come across: what was kept, and what is never marked. */
  ghost function NextHeap(g1: map<Cell, Shape>, all: seq<Cell>, lists: map<Cell, Lists>, kept: set<Cell>): set<Cell>
  {
    set c | c in g1 && (c in kept || !Markable(g1[c])) && c !in DeadPairs(all, lists, kept)
  }

  ghost function NextShapes(g1: map<Cell, Shape>, all: seq<Cell>, lists: map<Cell, Lists>, kept: set<Cell>): map<Cell,
                            Shape>
  {
    map c | c in NextHeap(g1, all, lists, kept) :: g1[c]
  }

  function NextLists(all: seq<Cell>, lists: map<Cell, Lists>, obj: map<Cell, Value>, m: set<Cell>): map<Cell, Lists>
  {
    RunLists(all, lists, obj, m)
  }

  lemma DeadPair(all: seq<Cell>, lists: map<Cell, Lists>, kept: set<Cell>, g: Cell, c: Cell)
    requires g in all && c in Spine(ListsOf(lists, g)) && g !in kept
    ensures c in DeadPairs(all, lists, kept)
  {
  }

  /** A pair of a survivor's list is not one of a dead guardian's. */
  lemma LivePair(all: seq<Cell>, lists: map<Cell, Lists>, obj: map<Cell, Value>, nil: Value, kept: set<Cell>,
                 heap: set<Cell>, g: Cell, c: Cell)
    requires Separate(all, lists, obj, nil, heap) && g in all && g in kept && c in Spine(ListsOf(lists, g))
    ensures c !in DeadPairs(all, lists, kept) && c in Spines(all, lists)
  {
  }

  lemma DeadIn(all: seq<Cell>, lists: map<Cell, Lists>, kept: set<Cell>)
    ensures DeadPairs(all, lists, kept) <= Spines(all, lists)
  {
  }

  /** The pairs of the survivors' new lists are pairs they had before. */
  lemma NextSpine(all: seq<Cell>, lists: map<Cell, Lists>, obj: map<Cell, Value>, m: set<Cell>, kept: set<Cell>,
                  g: Cell)
    requires g in all
    ensures ListsOf(NextLists(all, lists, obj, m), g) == Run1(ListsOf(lists, g), obj, m)
    ensures forall c :: c in Spine(ListsOf(NextLists(all, lists, obj, m), g)) <==> c in Spine(ListsOf(lists, g))
  {
    hide Run1, Spine;
    RunSpine(ListsOf(lists, g), obj, m);
  }

  lemma NextSpineOne(all: seq<Cell>, lists: map<Cell, Lists>, obj: map<Cell, Value>, m: set<Cell>, g: Cell, c: Cell)
    requires g in all
    ensures c in Spine(ListsOf(NextLists(all, lists, obj, m), g)) <==> c in Spine(ListsOf(lists, g))
  {
    hide Run1, Spine;
    RunSpineOne(ListsOf(lists, g), obj, m, c);
  }

  lemma NextSpines(all: seq<Cell>, lists: map<Cell, Lists>, obj: map<Cell, Value>, m: set<Cell>, kept: set<Cell>)
    ensures Spines(Surviving(all, kept), NextLists(all, lists, obj, m)) <= Spines(all, lists)
    ensures Spines(all, lists) - Spines(Surviving(all, kept), NextLists(all, lists, obj, m)) <=
            DeadPairs(all, lists, kept)
  {
    hide Spine, Surviving, NextLists;
    var next, left := NextLists(all, lists, obj, m), Surviving(all, kept);
    forall c | c in Spines(left, next) ensures c in Spines(all, lists) {
      var g :| g in left && c in Spine(ListsOf(next, g));
      SurvivingIn(all, kept, g);
      NextSpineOne(all, lists, obj, m, g, c);
    }
    forall c | c in Spines(all, lists) && c !in Spines(left, next) ensures c in DeadPairs(all, lists, kept) {
      var g :| g in all && c in Spine(ListsOf(lists, g));
      NextSpineOne(all, lists, obj, m, g, c);
      SurvivingIn(all, kept, g);
    }
  }

  /** Nothing in the next heap refers to a dead guardian's pairs. */
  lemma NoneToDead(g0: map<Cell, Shape>, g1: map<Cell, Shape>, perm: set<Cell>, kept: set<Cell>, m: set<Cell>,
                   all: seq<Cell>,
                   lists: map<Cell, Lists>, obj: map<Cell, Value>, nil: Value, c: Cell, v: Value)
    requires After1(g0, g1, perm, kept, m, all, lists, obj, nil)
    requires c in NextHeap(g1, all, lists, kept) && v in Kids(g1[c]) && v.Ref?
    ensures v.cell !in DeadPairs(all, lists, kept)
  {
    hide InOrder, Wf, Closed, PrivateMarks, Distinct, ClosedButLost, Intact, DeadPairs, Spine, Listed, SameElsewhere,
         Private, Separate, Run1;
    DeadIn(all, lists, kept);
    NilApart(all, lists, obj, nil, g0.Keys);
    if c in all {
      GuardianKept(c, g1, all, lists, obj, nil, m, kept);
      GuardianNext(c, v, g0, g1, all, lists, obj, nil, m, kept);
    } else if c in Spines(all, lists) {
      var h :| h in all && c in Spine(ListsOf(lists, h));
      if h !in kept { DeadPair(all, lists, kept, h, c); }
      PairNext(h, c, v, g0, g1, all, lists, obj, nil, m, kept);
    } else {
      ElsewhereSame(g0, g1, all, lists, c);
      Outward(g0, all, lists, c, v);
    }
  }

  lemma Outward(g0: map<Cell, Shape>, all: seq<Cell>, lists: map<Cell, Lists>, c: Cell, v: Value)
    requires Private(g0, all, lists) && c in g0 && c !in all && c !in Spines(all, lists) && v in Kids(g0[c]) && v.Ref?
    ensures v.cell !in Spines(all, lists)
  {
  }

  lemma GuardianKept(c: Cell, g1: map<Cell, Shape>, all: seq<Cell>, lists: map<Cell, Lists>, obj: map<Cell, Value>,
                     nil: Value, m: set<Cell>, kept: set<Cell>)
    requires Listed(g1, all, RunLists(all, lists, obj, m), obj, nil) && c in all && c in NextHeap(g1, all, lists, kept)
    ensures c in kept
  {
    hide Run1, ShapeList;
  }

  lemma GuardianNext(g: Cell, v: Value, g0: map<Cell, Shape>, g1: map<Cell, Shape>, all: seq<Cell>, lists: map<Cell,
                     Lists>,
                     obj: map<Cell, Value>, nil: Value, m: set<Cell>, kept: set<Cell>)
    requires Rearranged(g0, g1, all, lists, obj, nil, m) && g in all && g in kept && g in g1 && v in Kids(g1[g]) &&
      v.Ref?
    ensures v == nil || v.cell !in DeadPairs(all, lists, kept)
  {
    hide Closed, PrivateMarks, Distinct, DeadPairs, Spine, SameElsewhere, Private, Separate, Listed;
    var s := Run1(ListsOf(lists, g), obj, m).inacc;
    GuardianHead(g, g1, all, lists, obj, nil, m);
    if s != [] {
      InaccSpine(Run1(ListsOf(lists, g), obj, m), 0);
      RunSpineOne(ListsOf(lists, g), obj, m, s[0]);
      LivePair(all, lists, obj, nil, kept, g0.Keys, g, s[0]);
    }
  }

  lemma InaccSpine(l: Lists, i: nat)
    requires i < |l.inacc|
    ensures l.inacc[i] in Spine(l)
  {
    assert Spine(l)[|l.acc| + i] == l.inacc[i];
  }

  lemma PairNext(h: Cell, c: Cell, v: Value, g0: map<Cell, Shape>, g1: map<Cell, Shape>, all: seq<Cell>,
                 lists: map<Cell, Lists>,
                 obj: map<Cell, Value>, nil: Value, m: set<Cell>, kept: set<Cell>)
    requires Rearranged(g0, g1, all, lists, obj, nil, m) && h in all && h in kept && c in Spine(ListsOf(lists, h)) &&
      c in g1
    requires v in Kids(g1[c]) && v.Ref?
    ensures v == nil || v.cell !in DeadPairs(all, lists, kept)
  {
    hide Closed, PrivateMarks, Distinct, DeadPairs, SameElsewhere, Private, Separate, Run1, Spine, Listed;
    var next := Run1(ListsOf(lists, h), obj, m);
    NextSpine(all, lists, obj, m, kept, h);
    InEither(next, c);
    var s := if c in next.acc then next.acc else next.inacc;
    NextList(h, g1, all, lists, obj, nil, m);
    var i :| 0 <= i < |s| && s[i] == c;
    assert g1[c] == Pair(Obj(obj, c), After(s, i, nil));
    DeadIn(all, lists, kept);
    if v == Obj(obj, c) {
      ObjApart(h, c, all, lists, obj, nil, g0.Keys);
    } else if i + 1 < |s| {
      assert s[i + 1] in s;
      InSpine(next, s[i + 1]);
      LivePair(all, lists, obj, nil, kept, g0.Keys, h, s[i + 1]);
    }
  }

  lemma InSpine(l: Lists, c: Cell)
    requires c in l.acc || c in l.inacc
    ensures c in Spine(l)
  {
  }

  lemma NextList(h: Cell, g1: map<Cell, Shape>, all: seq<Cell>, lists: map<Cell, Lists>, obj: map<Cell, Value>,
                 nil: Value, m: set<Cell>)
    requires Listed(g1, all, RunLists(all, lists, obj, m), obj, nil) && h in all
    ensures var next := Run1(ListsOf(lists, h), obj, m);
      ShapeList(g1, next.acc, obj, nil) && ShapeList(g1, next.inacc, obj, nil)
  {
    hide Run1, ShapeList;
    assert ListsOf(RunLists(all, lists, obj, m), h) == Run1(ListsOf(lists, h), obj, m);
  }

  lemma ObjApart(h: Cell, c: Cell, all: seq<Cell>, lists: map<Cell, Lists>, obj: map<Cell, Value>, nil: Value,
                 heap: set<Cell>)
    requires Separate(all, lists, obj, nil, heap) && h in all && c in Spine(ListsOf(lists, h))
    ensures Obj(obj, c).Ref? && Obj(obj, c).cell in heap && Obj(obj, c).cell !in Spines(all, lists) && c in heap &&
      c in Spines(all, lists)
  {
  }

  // ----- The next heap is in order -----

  lemma UnmarkableHoldsNothing(s: Shape)
    requires !Markable(s) && Laid(s)
    ensures Kids(s) == []
  {
  }

  lemma LostAreDead(all: seq<Cell>, lists: map<Cell, Lists>, obj: map<Cell, Value>, m: set<Cell>, g1: map<Cell, Shape>,
                    kept: set<Cell>)
    requires forall g :: g in all && g in kept ==> Intact(g1, Run1(ListsOf(lists, g), obj, m), obj, kept)
    requires kept !! Lost(all, lists, obj, m)
    ensures Lost(all, lists, obj, m) <= DeadPairs(all, lists, kept)
  {
    hide Torn, Run1;
    forall g, c | g in all && Torn(g, ListsOf(lists, g), obj, m) && c in ListsOf(lists, g).inacc
      ensures c in DeadPairs(all, lists, kept)
    {
      LostHas(g, c, all, lists, obj, m);
      InSpine(ListsOf(lists, g), c);
      RunSpineOne(ListsOf(lists, g), obj, m, c);
      if g !in kept { DeadPair(all, lists, kept, g, c); }
    }
  }

  lemma KidsStay(g0: map<Cell, Shape>, g1: map<Cell, Shape>, perm: set<Cell>, kept: set<Cell>, m: set<Cell>,
                 all: seq<Cell>,
                 lists: map<Cell, Lists>, obj: map<Cell, Value>, nil: Value, c: Cell, v: Value)
    requires After1(g0, g1, perm, kept, m, all, lists, obj, nil) && kept !! Lost(all, lists, obj, m)
    requires c in NextHeap(g1, all, lists, kept) && v in Kids(g1[c]) && v.Ref?
    ensures v.cell in NextHeap(g1, all, lists, kept)
  {
    hide InOrder, Rearranged, Intact, DeadPairs, Lost, Laid, Run1;
    NoneToDead(g0, g1, perm, kept, m, all, lists, obj, nil, c, v);
    LostAreDead(all, lists, obj, m, g1, kept);
    if c !in kept {
      UnmarkableHoldsNothing(g1[c]);
    } else {
      assert KeptOrLost(g1, all, lists, obj, m, kept, v);
    }
  }

  lemma NextWf(g0: map<Cell, Shape>, g1: map<Cell, Shape>, perm: set<Cell>, kept: set<Cell>, m: set<Cell>,
               all: seq<Cell>,
               lists: map<Cell, Lists>, obj: map<Cell, Value>, nil: Value)
    requires After1(g0, g1, perm, kept, m, all, lists, obj, nil) && kept !! Lost(all, lists, obj, m)
    ensures Wf(NextShapes(g1, all, lists, kept))
  {
    hide InOrder, Rearranged, ClosedButLost, Intact, NextHeap, Laid, Run1, Lost;
    var g := NextShapes(g1, all, lists, kept);
    NextIn1(g1, all, lists, kept);
    forall c, v | c in g && v in Kids(g[c]) && v.Ref? ensures v.cell in g {
      KidsStay(g0, g1, perm, kept, m, all, lists, obj, nil, c, v);
    }
  }

  lemma NextIn1(g1: map<Cell, Shape>, all: seq<Cell>, lists: map<Cell, Lists>, kept: set<Cell>)
    ensures NextHeap(g1, all, lists, kept) <= g1.Keys
    ensures NextShapes(g1, all, lists, kept).Keys == NextHeap(g1, all, lists, kept)
  {
  }

  /** A surviving guardian, its pairs and their objects are in the next heap. */
  lemma SurvivorStays(g0: map<Cell, Shape>, g1: map<Cell, Shape>, perm: set<Cell>, kept: set<Cell>, m: set<Cell>,
                      all: seq<Cell>,
                      lists: map<Cell, Lists>, obj: map<Cell, Value>, nil: Value, g: Cell)
    requires After1(g0, g1, perm, kept, m, all, lists, obj, nil) && g in all && g in kept
    ensures var heap := NextHeap(g1, all, lists, kept);
      g in heap && forall c :: c in Spine(ListsOf(lists, g)) ==>
        c in heap && Obj(obj, c).Ref? && Obj(obj, c).cell in heap
  {
    hide InOrder, Wf, Closed, PrivateMarks, Distinct, ClosedButLost, Listed, SameElsewhere, Private, Separate, Spines,
         Spine, DeadPairs, Run1, RunLists;
    InHeap(all, lists, obj, nil, g0.Keys);
    DeadIn(all, lists, kept);
    SameKeys(g0, g1, all, lists);
    forall c | c in Spine(ListsOf(lists, g))
      ensures c in NextHeap(g1, all, lists, kept) && Obj(obj, c).Ref? &&
        Obj(obj, c).cell in NextHeap(g1, all, lists, kept)
    {
      LivePair(all, lists, obj, nil, kept, g0.Keys, g, c);
      ObjApart(g, c, all, lists, obj, nil, g0.Keys);
      RunSpineOne(ListsOf(lists, g), obj, m, c);
    }
  }

  lemma SameKeys(g0: map<Cell, Shape>, g1: map<Cell, Shape>, all: seq<Cell>, lists: map<Cell, Lists>)
    requires SameElsewhere(g0, g1, all, lists)
    ensures g1.Keys == g0.Keys
  {
  }

  lemma NextSeparate(g0: map<Cell, Shape>, g1: map<Cell, Shape>, perm: set<Cell>, kept: set<Cell>, m: set<Cell>,
                     all: seq<Cell>,
                     lists: map<Cell, Lists>, obj: map<Cell, Value>, nil: Value)
    requires After1(g0, g1, perm, kept, m, all, lists, obj, nil)
    ensures Separate(Surviving(all, kept), NextLists(all, lists, obj, m), obj, nil, NextHeap(g1, all, lists, kept))
  {
    hide InOrder, Wf, Closed, PrivateMarks, ClosedButLost, Listed, SameElsewhere, Private, Spines, Spine, DeadPairs,
         Run1, NextLists, NextHeap, Intact, Distinct;
    var left, next, heap := Surviving(all, kept), NextLists(all, lists, obj, m), NextHeap(g1, all, lists, kept);
    SurvivingDistinct(all, kept);
    NextSpines(all, lists, obj, m, kept);
    forall g | g in left ensures g in heap && g !in Spines(left, next) {
      SurvivorStays(g0, g1, perm, kept, m, all, lists, obj, nil, g);
    }
    forall g, h, c | g in left && h in left && g != h && c in Spine(ListsOf(next, g))
      ensures c !in Spine(ListsOf(next, h))
    {
      SurvivingIn(all, kept, g);
      SurvivingIn(all, kept, h);
      NextSpineOne(all, lists, obj, m, g, c);
      NextSpineOne(all, lists, obj, m, h, c);
      OwnPairs(all, lists, obj, nil, g0.Keys, g, h, c);
    }
    forall c | c in Spines(left, next)
      ensures c in heap && Obj(obj, c).Ref? && Obj(obj, c).cell in heap && Obj(obj, c).cell !in Spines(left, next)
    {
      var g :| g in left && c in Spine(ListsOf(next, g)) by { SpinesOwner(left, next, c); }
      NextSpineOne(all, lists, obj, m, g, c);
      SurvivorStays(g0, g1, perm, kept, m, all, lists, obj, nil, g);
    }
  }

  lemma OwnPairs(all: seq<Cell>, lists: map<Cell, Lists>, obj: map<Cell, Value>, nil: Value, heap: set<Cell>, g: Cell,
                 h: Cell, c: Cell)
    requires Separate(all, lists, obj, nil, heap) && g in all && h in all && g != h && c in Spine(ListsOf(lists, g))
    ensures c !in Spine(ListsOf(lists, h))
  {
  }

  lemma SpinesOwner(all: seq<Cell>, lists: map<Cell, Lists>, c: Cell)
    requires c in Spines(all, lists)
    ensures exists g :: g in all && c in Spine(ListsOf(lists, g))
  {
    var g :| g in all && c in Spine(ListsOf(lists, g));
  }

  lemma NextListed(g0: map<Cell, Shape>, g1: map<Cell, Shape>, perm: set<Cell>, kept: set<Cell>, m: set<Cell>,
                   all: seq<Cell>,
                   lists: map<Cell, Lists>, obj: map<Cell, Value>, nil: Value)
    requires After1(g0, g1, perm, kept, m, all, lists, obj, nil)
    ensures Listed(NextShapes(g1, all, lists, kept), Surviving(all, kept), NextLists(all, lists, obj, m), obj, nil)
  {
    hide After1, Spines, DeadPairs, Run1, NextHeap, NextShapes, Spine, NextLists, ShapeList, Surviving;
    var g, next := NextShapes(g1, all, lists, kept), NextLists(all, lists, obj, m);
    forall x | x in Surviving(all, kept)
      ensures x in g && g[x] == Object(Guardian, [After(ListsOf(next, x).inacc, -1, nil)], After(ListsOf(next, x).acc,
        -1, nil))
      ensures ShapeList(g, ListsOf(next, x).acc, obj, nil) && ShapeList(g, ListsOf(next, x).inacc, obj, nil)
    {
      SurvivingIn(all, kept, x);
      NextListedOne(g0, g1, perm, kept, m, all, lists, obj, nil, x);
    }
  }

  lemma NextListedOne(g0: map<Cell, Shape>, g1: map<Cell, Shape>, perm: set<Cell>, kept: set<Cell>, m: set<Cell>,
                      all: seq<Cell>,
                      lists: map<Cell, Lists>, obj: map<Cell, Value>, nil: Value, x: Cell)
    requires After1(g0, g1, perm, kept, m, all, lists, obj, nil) && x in all && x in kept
    ensures var g, l := NextShapes(g1, all, lists, kept), ListsOf(NextLists(all, lists, obj, m), x);
      x in g && g[x] == Object(Guardian, [After(l.inacc, -1, nil)], After(l.acc, -1, nil)) &&
      ShapeList(g, l.acc, obj, nil) && ShapeList(g, l.inacc, obj, nil)
  {
    hide InOrder, Wf, Closed, PrivateMarks, ClosedButLost, SameElsewhere, Private, Spines, DeadPairs, Run1, NextHeap,
         Intact, Separate, Distinct, Spine, ShapeList;
    var g, l := NextShapes(g1, all, lists, kept), ListsOf(NextLists(all, lists, obj, m), x);
    SurvivorStays(g0, g1, perm, kept, m, all, lists, obj, nil, x);
    NextSpine(all, lists, obj, m, kept, x);
    NextList(x, g1, all, lists, obj, nil, m);
    NextIn1(g1, all, lists, kept);
    forall c | c in l.acc || c in l.inacc ensures c in g {
      InSpine(l, c);
      NextSpineOne(all, lists, obj, m, x, c);
    }
    ListRestricted(g1, g, l.acc, obj, nil);
    ListRestricted(g1, g, l.inacc, obj, nil);
  }

  lemma ListRestricted(g1: map<Cell, Shape>, g: map<Cell, Shape>, s: seq<Cell>, obj: map<Cell, Value>, nil: Value)
    requires ShapeList(g1, s, obj, nil) && (forall c :: c in s ==>
      c in g) && (forall c :: c in g ==> c in g1 && g[c] == g1[c])
    ensures ShapeList(g, s, obj, nil)
  {
    forall i | 0 <= i < |s| ensures s[i] in g { assert s[i] in s; }
  }

  lemma NextPrivate(g0: map<Cell, Shape>, g1: map<Cell, Shape>, perm: set<Cell>, kept: set<Cell>, m: set<Cell>,
                    all: seq<Cell>,
                    lists: map<Cell, Lists>, obj: map<Cell, Value>, nil: Value)
    requires After1(g0, g1, perm, kept, m, all, lists, obj, nil)
    ensures Private(NextShapes(g1, all, lists, kept), Surviving(all, kept), NextLists(all, lists, obj, m))
  {
    hide InOrder, Wf, Closed, PrivateMarks, ClosedButLost, SameElsewhere, Spines, DeadPairs, Run1, Intact, Separate,
         Distinct, Spine, Listed, NextLists;
    var g, left, next := NextShapes(g1, all, lists, kept), Surviving(all, kept), NextLists(all, lists, obj, m);
    NextSpines(all, lists, obj, m, kept);
    forall c, v | c in g && c !in left && c !in Spines(left, next) && v in Kids(g[c]) && v.Ref?
      ensures v.cell !in Spines(left, next)
    {
      if c in all { GuardianKept(c, g1, all, lists, obj, nil, m, kept); }
      ElsewhereSame(g0, g1, all, lists, c);
      Outward(g0, all, lists, c, v);
    }
  }

  lemma NextMarks(g0: map<Cell, Shape>, g1: map<Cell, Shape>, perm: set<Cell>, kept: set<Cell>, m: set<Cell>,
                  all: seq<Cell>,
                  lists: map<Cell, Lists>, obj: map<Cell, Value>, nil: Value)
    requires After1(g0, g1, perm, kept, m, all, lists, obj, nil)
    ensures var g := NextShapes(g1, all, lists, kept);
      nil.Ref? && nil.cell in g && Settled(g, perm, nil) && Closed(g, perm, perm, Zero)
    ensures perm !! Spines(Surviving(all, kept), NextLists(all, lists, obj, m))
  {
    hide Wf, PrivateMarks, ClosedButLost, Spines, Run1, Intact, Separate, Distinct, Spine, Listed, Private, DeadPairs;
    var g := NextShapes(g1, all, lists, kept);
    NextSpines(all, lists, obj, m, kept);
    DeadIn(all, lists, kept);
    NilApart(all, lists, obj, nil, g0.Keys);
    NilNotGuardian(g0, all, lists, obj, nil, perm);
    ElsewhereSame(g0, g1, all, lists, nil.cell);
    forall c, v | c in perm && c in g && v in Kids(g[c]) ensures v == Zero || Settled(g, perm, v) {
      ElsewhereSame(g0, g1, all, lists, c);
      assert v == Zero || Settled(g0, perm, v);
      if v.Ref? && v.cell in g { assert g[v.cell] == g1[v.cell]; }
    }
  }

  /** nil is permanent, or is something that is never marked; a guardian is neither. */
  lemma NilNotGuardian(g0: map<Cell, Shape>, all: seq<Cell>, lists: map<Cell, Lists>, obj: map<Cell, Value>,
                       nil: Value, perm: set<Cell>)
    requires Settled(g0, perm, nil) && nil.Ref? && nil.cell in g0 && Listed(g0, all, lists, obj, nil) &&
      forall g :: g in all ==> g !in perm
    ensures nil.cell !in all
  {
    hide ShapeList;
  }

  /** The next heap is in order, with the guardians that survive and their new lists. */
  lemma NextInOrder(g0: map<Cell, Shape>, g1: map<Cell, Shape>, perm: set<Cell>, kept: set<Cell>, m: set<Cell>,
                    all: seq<Cell>,
                    lists: map<Cell, Lists>, obj: map<Cell, Value>, nil: Value)
    requires After1(g0, g1, perm, kept, m, all, lists, obj, nil) && kept !! Lost(all, lists, obj, m)
    ensures InOrder(NextShapes(g1, all, lists, kept), perm, Surviving(all, kept), NextLists(all, lists, obj, m), obj,
      nil)
  {
    NextWf(g0, g1, perm, kept, m, all, lists, obj, nil);
    NextSeparate(g0, g1, perm, kept, m, all, lists, obj, nil);
    NextListed(g0, g1, perm, kept, m, all, lists, obj, nil);
    NextPrivate(g0, g1, perm, kept, m, all, lists, obj, nil);
    NextMarks(g0, g1, perm, kept, m, all, lists, obj, nil);
    NextIn1(g1, all, lists, kept);
    forall g | g in Surviving(all, kept) ensures Distinct(Spine(ListsOf(NextLists(all, lists, obj, m), g))) {
      RunDistinct(ListsOf(lists, g), obj, m) by { assert Rearranged(g0, g1, all, lists, obj, nil, m); }
      NextSpine(all, lists, obj, m, kept, g);
    }
    hide Wf, Separate, Listed, Private, Settled, Closed, Spines, Distinct, Spine, Surviving, NextLists, NextShapes,
         NextHeap, Rearranged, ClosedButLost, Intact, Lost;
  }
}
