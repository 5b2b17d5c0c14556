/** A whole collection: mark from the roots, run the guardians, sweep. */
module GcCollect {
  import opened GcBlocks
  import opened GcHeap
  import opened GcReach
  import opened GcGuardians
  import opened GcResurrection
  import opened GcSurvival
  import opened GcFields
  import GcConses
  import GcClosures

  // ----- Guardians' lists are out of reach except through their guardian -----

  /** Reaching into a list means having reached its guardian; accessible lists are never reached. */
  ghost predicate OutOfReach(all: seq<Cell>, lists: map<Cell, Lists>, reached: set<Cell>)
  {
    forall g :: g in all ==>
      (forall c :: c in ListsOf(lists, g).acc ==> c !in reached) &&
        (g !in reached ==> forall c :: c in ListsOf(lists, g).inacc ==> c !in reached)
  }

  lemma {:induction false} ReachPrivate(g0: map<Cell, Shape>, vs: seq<Value>, n: nat, all: seq<Cell>, lists: map<Cell,
                                        Lists>, obj: map<Cell, Value>, nil: Value)
    requires Separate(all, lists, obj, nil, g0.Keys) && Listed(g0, all, lists, obj, nil) && Private(g0, all, lists)
    requires forall g :: g in all ==> Distinct(Spine(ListsOf(lists, g)))
    requires forall v :: v in vs && v.Ref? ==> v.cell !in Spines(all, lists)
    ensures OutOfReach(all, lists, ReachIn(g0, vs, n))
  {
    hide Listed, Private, Spines, Separate, Distinct;
    if n == 0 {
      forall g, c | g in all && c in Spine(ListsOf(lists, g)) ensures c !in Named(g0, vs) {
        SpineIn(all, lists, g);
      }
      NotNamed(all, lists, Named(g0, vs));
    } else {
      ReachPrivate(g0, vs, n - 1, all, lists, obj, nil);
      forall g, c | g in all && c in Spine(ListsOf(lists, g)) && c in ReachIn(g0, vs, n)
        ensures c in ListsOf(lists, g).inacc && g in ReachIn(g0, vs, n)
      {
        if c in ReachIn(g0, vs, n - 1) {
          StayOut(g, c, all, lists, ReachIn(g0, vs, n - 1));
        } else {
          var d :| d in ReachIn(g0, vs, n - 1) && d in g0 && c in g0 && Ref(c) in Kids(g0[d]);
          Enters(g0, d, c, g, all, lists, obj, nil, ReachIn(g0, vs, n - 1));
        }
      }
      InaccOnly(all, lists, obj, nil, g0.Keys, ReachIn(g0, vs, n));
    }
  }

  lemma NotNamed(all: seq<Cell>, lists: map<Cell, Lists>, reached: set<Cell>)
    requires forall g, c :: g in all && c in Spine(ListsOf(lists, g)) ==> c !in reached
    ensures OutOfReach(all, lists, reached)
  {
    forall g | g in all
      ensures forall c :: c in ListsOf(lists, g).acc ==> c !in reached
    {
      assert forall c :: c in ListsOf(lists, g).acc ==> c in Spine(ListsOf(lists, g));
    }
    forall g | g in all
      ensures forall c :: c in ListsOf(lists, g).inacc ==> c !in reached
    {
      assert forall c :: c in ListsOf(lists, g).inacc ==> c in Spine(ListsOf(lists, g));
    }
  }

  lemma StayOut(g: Cell, c: Cell, all: seq<Cell>, lists: map<Cell, Lists>, reached: set<Cell>)
    requires OutOfReach(all, lists, reached) && g in all && c in Spine(ListsOf(lists, g)) && c in reached
    ensures c in ListsOf(lists, g).inacc && g in reached
  {
    InEither(ListsOf(lists, g), c);
  }

  lemma InaccOnly(all: seq<Cell>, lists: map<Cell, Lists>, obj: map<Cell, Value>, nil: Value, heap: set<Cell>,
                  reached: set<Cell>)
    requires forall g :: g in all ==> Distinct(Spine(ListsOf(lists, g)))
    requires forall g, c :: g in all && c in Spine(ListsOf(lists, g)) && c in reached ==>
      c in ListsOf(lists, g).inacc && g in reached
    ensures OutOfReach(all, lists, reached)
  {
    hide Distinct;
    forall g | g in all ensures forall c :: c in ListsOf(lists, g).acc ==> c !in reached {
      DistinctSplit(ListsOf(lists, g));
      assert forall c :: c in ListsOf(lists, g).acc ==> c in Spine(ListsOf(lists, g));
    }
    forall g | g in all && g !in reached ensures forall c :: c in ListsOf(lists, g).inacc ==> c !in reached {
      assert forall c :: c in ListsOf(lists, g).inacc ==> c in Spine(ListsOf(lists, g));
    }
  }

  /** The step that enters a list or moves along it. */
  lemma Enters(g0: map<Cell, Shape>, d: Cell, c: Cell, g: Cell, all: seq<Cell>, lists: map<Cell, Lists>, obj: map<Cell,
               Value>, nil: Value, reached: set<Cell>)
    requires Separate(all, lists, obj, nil, g0.Keys) && Listed(g0, all, lists, obj, nil) && Private(g0, all, lists)
    requires forall x :: x in all ==> Distinct(Spine(ListsOf(lists, x)))
    requires OutOfReach(all, lists, reached) && d in reached && d in g0 && Ref(c) in Kids(g0[d]) && g in all &&
      c in Spine(ListsOf(lists, g))
    ensures c in ListsOf(lists, g).inacc && g in reached
  {
    hide Private, Distinct;
    SpineIn(all, lists, g);
    if d in all {
      var s := ListsOf(lists, d).inacc;
      assert Ref(c) == After(s, -1, nil);
      if s != [] { assert s[0] in Spine(ListsOf(lists, d)); }
    } else if d in Spines(all, lists) {
      var k :| k in all && d in Spine(ListsOf(lists, k));
      StayOut(k, d, all, lists, reached);
      var s := ListsOf(lists, k).inacc;
      var j :| 0 <= j < |s| && s[j] == d;
      assert ShapeList(g0, s, obj, nil);
      if j + 1 < |s| { assert s[j + 1] in Spine(ListsOf(lists, k)); }
    } else {
      Outside(g0, d, c, all, lists);
    }
  }

  lemma Outside(g0: map<Cell, Shape>, d: Cell, c: Cell, all: seq<Cell>, lists: map<Cell, Lists>)
    requires Private(g0, all, lists) && d in g0 && d !in all && d !in Spines(all, lists) && Ref(c) in Kids(g0[d])
    ensures c !in Spines(all, lists)
  {
  }

  /** Marks made from roots that do not name list pairs respect the guardians' privacy. */
  lemma MarksArePrivate(g0: map<Cell, Shape>, vs: seq<Value>, perm: set<Cell>, all: seq<Cell>, lists: map<Cell, Lists>,
                        obj: map<Cell, Value>, nil: Value)
    requires Separate(all, lists, obj, nil, g0.Keys) && Listed(g0, all, lists, obj, nil) && Private(g0, all, lists)
    requires forall g :: g in all ==> Distinct(Spine(ListsOf(lists, g)))
    requires forall v :: v in vs && v.Ref? ==> v.cell !in Spines(all, lists)
    requires perm !! Spines(all, lists)
    ensures PrivateMarks(all, lists, perm + MarkableOf(g0, Reach(g0, vs)))
  {
    hide Separate, Private, Distinct, Spines, Listed, Reach, MarkableOf, Spine;
    var m := perm + MarkableOf(g0, Reach(g0, vs));
    forall g, c | g in all && c in Spine(ListsOf(lists, g)) && c in m ensures c in ListsOf(lists, g).inacc && g in m {
      SpineIn(all, lists, g);
      ReachedOwner(g, c, g0, vs, all, lists, obj, nil);
    }
    InaccOnly(all, lists, obj, nil, g0.Keys, m);
  }

  lemma ReachedOwner(g: Cell, c: Cell, g0: map<Cell, Shape>, vs: seq<Value>, all: seq<Cell>, lists: map<Cell, Lists>,
                     obj: map<Cell, Value>, nil: Value)
    requires Separate(all, lists, obj, nil, g0.Keys) && Listed(g0, all, lists, obj, nil) && Private(g0, all, lists)
    requires forall x :: x in all ==> Distinct(Spine(ListsOf(lists, x)))
    requires forall v :: v in vs && v.Ref? ==> v.cell !in Spines(all, lists)
    requires g in all && c in Spine(ListsOf(lists, g)) && c in MarkableOf(g0, Reach(g0, vs))
    ensures c in ListsOf(lists, g).inacc && g in MarkableOf(g0, Reach(g0, vs))
  {
    hide Separate, Private, Distinct, Spines, Spine, OutOfReach, ReachIn;
    var n: nat :| c in ReachIn(g0, vs, n);
    ReachPrivate(g0, vs, n, all, lists, obj, nil);
    StayOut(g, c, all, lists, ReachIn(g0, vs, n));
    assert g in g0 && Reachable(g0, vs, g) && Markable(g0[g]);
  }

  // ----- Marking leaves the lists in order -----

  lemma ListBack(first: Value, s: seq<Cell>, obj: map<Cell, Value>, nil: Value, heap: set<Cell>)
    requires ShapeList(Shapes(heap), s, obj, nil) && first == After(s, -1, nil) && forall c :: c in heap ==> c.Proper()
    ensures List(first, s, nil) && forall c :: c in s ==> c in heap && c.car == Pointer(Obj(obj, c), false)
  {
    forall i | 0 <= i < |s|
      ensures s[i] in heap && s[i].IsPair() && s[i].cdr.Pointer? && s[i].cdr.v == After(s, i, nil) &&
        s[i].car == Pointer(Obj(obj, s[i]), false)
    {
      assert s[i] in Shapes(heap) && Shapes(heap)[s[i]] == s[i].Shape();
    }
  }

  lemma HasBack(x: Cell, l: Lists, obj: map<Cell, Value>, nil: Value, heap: set<Cell>)
    requires x in heap && (forall c :: c in heap ==> c.Proper()) && Distinct(Spine(l))
    requires Shapes(heap)[x] == Object(Guardian, [After(l.inacc, -1, nil)], After(l.acc, -1, nil))
    requires ShapeList(Shapes(heap), l.acc, obj, nil) && ShapeList(Shapes(heap), l.inacc, obj, nil)
    ensures Has(x, l, nil) && forall c :: c in Spine(l) ==> c.car == Pointer(Obj(obj, c), false)
  {
    assert x.Shape() == Shapes(heap)[x];
    hide Shapes, ShapeList, List, Distinct;
    ListBack(x.cdr.v, l.acc, obj, nil, heap);
    ListBack(x.slots[0], l.inacc, obj, nil, heap);
    assert [] + l.acc == l.acc && [] + l.acc + l.inacc == Spine(l);
  }

  lemma RunBegins(all: seq<Cell>, lists: map<Cell, Lists>, obj: map<Cell, Value>, nil: Value, heap: set<Cell>)
    requires HeapOk(heap) && Listed(Shapes(heap), all, lists, obj, nil)
    requires forall g :: g in all ==> Distinct(Spine(ListsOf(lists, g)))
    ensures HalfRun(all, 0, lists, obj, nil, MarkedSet(heap), heap)
  {
    hide Has, Spine, Shapes, ShapeList, Wf, Distinct;
    forall g | g in all
      ensures Has(g, ListsOf(lists, g), nil) &&
        forall c :: c in Spine(ListsOf(lists, g)) ==> c.car == Pointer(Obj(obj, c), false)
    {
      HasBack(g, ListsOf(lists, g), obj, nil, heap);
    }
    assert all[..0] == [];
  }

  /** The guardians, their lists and everything else before a collection. */
  ghost predicate World(all: seq<Cell>, lists: map<Cell, Lists>, obj: map<Cell, Value>, nil: Value, heap: set<Cell>)
    reads heap
  {
    && HeapOk(heap) && Separate(all, lists, obj, nil, heap) && nil.Ref? && nil.cell in heap
    && Listed(Shapes(heap), all, lists, obj, nil) && Private(Shapes(heap), all, lists)
    && (forall g :: g in all ==> Distinct(Spine(ListsOf(lists, g))))
    && Settled(Shapes(heap), MarkedSet(heap), nil) && Closed(Shapes(heap), MarkedSet(heap), MarkedSet(heap), Zero)
    && MarkedSet(heap) !! Spines(all, lists)
  }

  /** Marking from the roots. */
  method MarkPhase(r: Roots, nil: Value, ghost all: seq<Cell>, ghost lists: map<Cell, Lists>, ghost obj: map<Cell,
                   Value>, ghost heap: set<Cell>)
    requires World(all, lists, obj, nil, heap)
    requires forall v :: v in RootValues(r) ==> InBound(v, heap)
    requires forall v :: v in RootValues(r) && v.Ref? ==> v.cell !in Spines(all, lists)
    modifies heap`car, heap`cdr
    ensures Shapes(heap) == old(Shapes(heap)) && ReadyToRun(all, lists, obj, nil, heap)
    ensures MarkedSet(heap) == old(MarkedSet(heap)) + MarkableOf(Shapes(heap), Reach(Shapes(heap), RootValues(r)))
  {
    hide Separate, Listed, Private, Spines, Distinct, Wf, Closed, Reach, MarkableOf, HalfRun, Shapes, MarkedSet,
         RootValues, PrivateMarks;
    ghost var perm := MarkedSet(heap);
    MarkRoots(r, nil, heap);
    MarksArePrivate(Shapes(heap), RootValues(r), perm, all, lists, obj, nil);
    RunBegins(all, lists, obj, nil, heap);
    SettledStill(Shapes(heap), perm, MarkedSet(heap), nil);
  }

  // ----- Sweeping -----

  /** Which cells of a pool are part of the heap: those in use, none of them a guardian. */
  ghost predicate Pooled(cells: seq<Cell>, live: set<Cell>, all: seq<Cell>, heap: set<Cell>)
  {
    forall c :: c in cells ==> (c in heap <==> c in live) && c !in all
  }

  /** The pairs that are part of the heap are in use; none is a guardian. */
  ghost predicate Owned(cells: seq<Cell>, live: set<Cell>, all: seq<Cell>, heap: set<Cell>)
  {
    forall c :: c in cells ==> (c in heap ==> c in live) && c !in all
  }

  /** What the collector knows of the pools: pairs and closures in use make up part of the heap.  Pairs
      in use that nobody refers to need not count as part of it. */
  ghost predicate Pools(conses: GcConses.ConsPool, closures: GcClosures.ClosurePool, all: seq<Cell>, lists: map<Cell,
                        Lists>, heap: set<Cell>)
    reads conses, closures, conses.cells, conses.free, closures.cells, closures.free
  {
    && conses.Valid() && closures.Valid()
    && Owned(conses.cells, conses.Live(), all, heap) && Pooled(closures.cells, closures.Live(), all, heap)
    && (forall c :: c in conses.cells && c !in heap ==> !c.Marked())
    && (forall c :: c in conses.cells ==> c !in closures.cells)
    && (forall c :: c in closures.cells ==> c !in Spines(all, lists))
  }

  /** After marking and running the guardians, pairs are still pairs. */
  lemma StillPairs(cells: seq<Cell>, live: set<Cell>, g0: map<Cell, Shape>, g1: map<Cell, Shape>, all: seq<Cell>,
                   lists: map<Cell, Lists>,
                   obj: map<Cell, Value>, nil: Value, m: set<Cell>, heap: set<Cell>)
    requires HeapOk(heap) && g1 == Shapes(heap) && Rearranged(g0, g1, all, lists, obj, nil, m) &&
      Owned(cells, live, all, heap)
    requires forall c :: c in cells && c in heap ==> g0[c].Pair?
    requires forall c :: c in cells && c !in heap ==> c.IsPair() && c.Proper()
    ensures GcConses.AllPairs(cells)
  {
    hide Separate, Listed, Private, Wf, Closed, PrivateMarks, Distinct, Spines;
    forall c | c in cells ensures c.IsPair() && c.Proper() {
      if c in heap {
        assert g1[c] == c.Shape();
        if c in Spines(all, lists) {
          SpinePair(c, g1, all, lists, obj, nil, m);
        } else {
          Elsewhere(g0, g1, all, lists, c);
        }
      }
    }
  }

  lemma SpinePair(c: Cell, g1: map<Cell, Shape>, all: seq<Cell>, lists: map<Cell, Lists>, obj: map<Cell, Value>,
                  nil: Value, m: set<Cell>)
    requires Listed(g1, all, RunLists(all, lists, obj, m), obj, nil) && c in Spines(all, lists)
    ensures c in g1 && g1[c].Pair?
  {
    hide Listed, Spine, RunLists;
    var h :| h in all && c in Spine(ListsOf(lists, h));
    SpineShape(h, c, g1, all, lists, obj, nil, m);
  }

  lemma Elsewhere(g0: map<Cell, Shape>, g1: map<Cell, Shape>, all: seq<Cell>, lists: map<Cell, Lists>, c: Cell)
    requires SameElsewhere(g0, g1, all, lists) && c in g0 && c !in all && c !in Spines(all, lists)
    ensures c in g1 && g1[c] == g0[c]
  {
  }

  lemma StillClosures(cells: seq<Cell>, free: seq<Cell>, g0: map<Cell, Shape>, g1: map<Cell, Shape>, all: seq<Cell>,
                      lists: map<Cell, Lists>,
                      heap: set<Cell>)
    requires g0.Keys == heap && g1 == Shapes(heap) && SameElsewhere(g0, g1, all, lists) &&
      Pooled(cells, InUse(cells, free), all, heap)
    requires forall c :: c in cells ==> c !in Spines(all, lists)
    requires forall c :: c in cells && c in heap ==> g0[c].Object? && g0[c].kind.Closure? && |g0[c].slots| == 4
    requires forall c :: c in cells && c !in heap ==> c.IsPair()
    ensures GcClosures.Sorted(cells, free)
  {
    hide SameElsewhere, Spines;
    forall c | c in cells
      ensures if c in free then c.IsPair() else c.car.Header? && c.car.kind.Closure? && |c.slots| == 4
    {
      if c !in free {
        assert c in heap && g1[c] == c.Shape();
        Elsewhere(g0, g1, all, lists, c);
      }
    }
  }

  /** Both sweeps: the cells that stay are the marked ones, unmarked and with their contents. */
  method SweepPhase(conses: GcConses.ConsPool, closures: GcClosures.ClosurePool, ghost kept: set<Cell>)
    requires conses.Shaped() && GcConses.AllPairs(conses.cells)
    requires closures.Shaped() && GcClosures.Sorted(closures.cells, closures.free)
    requires forall c :: c in conses.cells ==> c !in closures.cells
    requires forall c :: c in conses.cells ==> (c.Marked() <==> c in kept)
    requires forall c :: c in closures.cells ==> (!c.IsPair() && c.Marked() <==> c in kept)
    modifies conses, closures, conses.cells, closures.cells
    ensures conses.Valid() && closures.Valid() && conses.cells == old(conses.cells) &&
      closures.cells == old(closures.cells)
    ensures conses.Live() == (set c | c in conses.cells && c in kept) &&
      closures.Live() == set c | c in closures.cells && c in kept
    ensures forall c :: c in conses.Live() || c in closures.Live() ==> !c.Marked() && c.Shape() == old(c.Shape())
    ensures closures.used == |closures.cells| - |closures.free|
  {
    hide Distinct, GcBlocks.Flat, InUse, GcBlocks.Blocks, GcConses.Threaded, GcClosures.Threaded, GcClosures.Sorted,
         GcConses.AllPairs;
    conses.Sweep();
    closures.Sweep();
  }

  // ----- The whole collection -----

  /** Before a collection: the pools' cells are what their kind says, in use or free. */
  lemma PoolShapes(conses: GcConses.ConsPool, closures: GcClosures.ClosurePool, all: seq<Cell>, lists: map<Cell,
                   Lists>, heap: set<Cell>)
    requires Pools(conses, closures, all, lists, heap)
    ensures forall c :: c in conses.cells && c in heap ==> Shapes(heap)[c].Pair?
    ensures forall c :: c in conses.cells && c !in heap ==> c.IsPair() && c.Proper() && !c.Marked()
    ensures forall c :: c in closures.cells && c in heap ==>
      var s := Shapes(heap)[c]; s.Object? && s.kind.Closure? && |s.slots| == 4
    ensures forall c :: c in closures.cells && c !in heap ==> c.IsPair()
    ensures conses.Shaped() && closures.Shaped()
    ensures Owned(conses.cells, conses.Live(), all, heap) &&
      Pooled(closures.cells, InUse(closures.cells, closures.free), all, heap)
    ensures (forall c :: c in conses.cells ==> c !in closures.cells) &&
      forall c :: c in closures.cells ==> c !in Spines(all, lists)
  {
    forall c | c in closures.cells && c !in heap ensures c in closures.free {}
  }

  /** Marking and running the guardians leave the pools' cells fit to be swept. */
  lemma BeforeSweep(conses: GcConses.ConsPool, closures: GcClosures.ClosurePool, live: set<Cell>, g0: map<Cell, Shape>,
                    all: seq<Cell>,
                    lists: map<Cell, Lists>, obj: map<Cell, Value>, nil: Value, m: set<Cell>, heap: set<Cell>)
    requires HeapOk(heap) && Rearranged(g0, Shapes(heap), all, lists, obj, nil, m)
    requires Owned(conses.cells, live, all, heap) &&
      Pooled(closures.cells, InUse(closures.cells, closures.free), all, heap)
    requires forall c :: c in conses.cells && c in heap ==> g0[c].Pair?
    requires forall c :: c in conses.cells && c !in heap ==> c.IsPair() && c.Proper() && !c.Marked()
    requires forall c :: c in closures.cells && c in heap ==>
      var s := g0[c]; s.Object? && s.kind.Closure? && |s.slots| == 4
    requires forall c :: c in closures.cells && c !in heap ==> c.IsPair()
    requires forall c :: c in closures.cells ==> c !in Spines(all, lists)
    ensures GcConses.AllPairs(conses.cells) && GcClosures.Sorted(closures.cells, closures.free)
    ensures forall c :: c in conses.cells ==> (c.Marked() <==> c in MarkedSet(heap))
    ensures forall c :: c in closures.cells ==> (!c.IsPair() && c.Marked() <==> c in MarkedSet(heap))
  {
    hide Separate, Listed, Private, Wf, Closed, PrivateMarks, Distinct, Spines, Shapes, InUse;
    StillPairs(conses.cells, live, g0, Shapes(heap), all, lists, obj, nil, m, heap);
    StillClosures(closures.cells, closures.free, g0, Shapes(heap), all, lists, heap);
    forall c | c in closures.cells ensures !c.IsPair() && c.Marked() <==> c in MarkedSet(heap) {
      if c in heap { InUseNot(closures.cells, closures.free, c, all, heap); }
    }
  }

  lemma InUseNot(cells: seq<Cell>, free: seq<Cell>, c: Cell, all: seq<Cell>, heap: set<Cell>)
    requires Pooled(cells, InUse(cells, free), all, heap) && GcClosures.Sorted(cells, free) && c in cells && c in heap
    ensures !c.IsPair()
  {
  }

  ghost function MarksOf(g0: map<Cell, Shape>, perm: set<Cell>, roots: seq<Value>): set<Cell>
  {
    perm + MarkableOf(g0, Reach(g0, roots))
  }

  /** What a collection keeps.  `m` is what the roots reach; the objects that are thereby out of reach
      change state, and what they reach is kept too.  All that a kept cell refers to is kept, except the
      pairs lost behind a torn list; when none is torn, nothing else is kept.  The lists of a guardian
      that survives are whole exactly when it was not torn. */
  ghost predicate Collected(g0: map<Cell, Shape>, perm: set<Cell>, roots: seq<Value>, kept: set<Cell>,
                            changed: seq<Value>, shapes: map<Cell, Shape>,
                            all: seq<Cell>, lists: map<Cell, Lists>, obj: map<Cell, Value>, nil: Value)
  {
    var m := MarksOf(g0, perm, roots);
    && Rearranged(g0, shapes, all, lists, obj, nil, m)
    && (set v | v in changed) == MovedObjects(all, lists, obj, m)
    && m + Accessible(all, lists) <= kept <= m + Accessible(all, lists) + Reach(shapes, changed)
    && (forall c :: c in kept ==> c in perm || (c in shapes && Markable(shapes[c])))
    && ClosedButLost(shapes, all, lists, obj, m, kept) && kept !! Lost(all, lists, obj, m)
    && (NoneTorn(all, lists, obj, m) ==>
        Closed(shapes, kept, kept, Zero) &&
          kept == m + Accessible(all, lists) + MarkableOf(shapes, Reach(shapes, changed)))
    && (forall g :: g in all && g in kept ==>
        (Intact(shapes, Run1(ListsOf(lists, g), obj, m), obj, kept) <==> !Torn(g, ListsOf(lists, g), obj, m)))
  }

  lemma NilIsSettled(all: seq<Cell>, lists: map<Cell, Lists>, obj: map<Cell, Value>, nil: Value, heap: set<Cell>)
    requires ReadyToRun(all, lists, obj, nil, heap)
    ensures Settled(Shapes(heap), MarkedSet(heap), nil)
  {
  }

  /** Only cells that can be marked are kept, apart from those marked for good. */
  lemma KeptMarkable(g0: map<Cell, Shape>, g1: map<Cell, Shape>, perm: set<Cell>, roots: seq<Value>, m: set<Cell>,
                     m2: set<Cell>,
                     all: seq<Cell>, lists: map<Cell, Lists>, obj: map<Cell, Value>, nil: Value, bound: set<Cell>)
    requires Rearranged(g0, g1, all, lists, obj, nil, m) && m == perm + MarkableOf(g0, Reach(g0, roots))
    requires Marking(g1, m + Accessible(all, lists), m2, bound, Zero)
    ensures forall c :: c in m2 ==> c in perm || (c in g1 && Markable(g1[c]))
  {
    hide Listed, Private, PrivateMarks, Closed, Distinct, Separate, Kept, Moved, RunLists, Spines;
    forall c | c in m2 && c !in perm ensures c in g1 && Markable(g1[c]) {
      if c in m {
        assert Markable(g0[c]);
      } else if c in Accessible(all, lists) {
        var h :| h in all && c in ListsOf(lists, h).acc;
        InSpineAcc(ListsOf(lists, h), c);
        SpineShape(h, c, g1, all, lists, obj, nil, m);
      }
    }
  }

  lemma InSpineAcc(l: Lists, c: Cell)
    requires c in l.acc
    ensures c in Spine(l)
  {
  }

  lemma MarkingInside(g: map<Cell, Shape>, before: set<Cell>, after: set<Cell>, bound: set<Cell>)
    requires Marking(g, before, after, bound, Zero)
    ensures before <= after <= before + bound
  {
  }

  method MarkAndRun(r: Roots, nil: Value, all: seq<Cell>, ghost lists: map<Cell, Lists>, ghost obj: map<Cell, Value>,
                    ghost heap: set<Cell>)
    returns (ghost changed: seq<Value>)
    requires World(all, lists, obj, nil, heap)
    requires forall v :: v in RootValues(r) ==> InBound(v, heap)
    requires forall v :: v in RootValues(r) && v.Ref? ==> v.cell !in Spines(all, lists)
    modifies heap
    ensures HeapOk(heap)
    ensures Collected(old(Shapes(heap)), old(MarkedSet(heap)), RootValues(r), MarkedSet(heap), changed, Shapes(heap),
      all, lists, obj, nil)
    ensures Rearranged(old(Shapes(heap)), Shapes(heap), all, lists, obj, nil, MarksOf(old(Shapes(heap)),
      old(MarkedSet(heap)), RootValues(r)))
  {
    hide World, Rearranged, Reach, MarkableOf, MovedObjects, Accessible, Intact, Torn, Run1, RootValues, HeapOk,
         ReadyToRun, Spines, Shapes, MarkedSet, Marking, AllSettled, Settled, ClosedButLost, NoneTorn, Lost, Closed;
    ghost var g0 := Shapes(heap);
    MarkPhase(r, nil, all, lists, obj, heap);
    ghost var m := MarkedSet(heap);
    NilIsSettled(all, lists, obj, nil, heap);
    changed := RunGuardians(all, nil, lists, obj, heap);
    ghost var g1, m2 := Shapes(heap), MarkedSet(heap);
    ChangedSettled(g1, m2, changed);
    KeptIsClosed(g0, g1, all, lists, obj, nil, m, m2, Reach(g1, changed));
    HeapWf(heap);
    if NoneTorn(all, lists, obj, m) { KeptIsExact(g1, all, lists, obj, m, m2, changed); }
    MarkingInside(g1, m + Accessible(all, lists), m2, Reach(g1, changed));
    KeptMarkable(g0, g1, old(MarkedSet(heap)), RootValues(r), m, m2, all, lists, obj, nil, Reach(g1, changed));
  }

  /** The collector: the pairs and closures in use afterwards are exactly those that were marked, with
      their marks cleared and their contents kept; the others are free; the counters add up.  No reference
      dangles: a field of a kept cell refers to nothing in the heap but kept cells, primitives, and what a torn
      guardian lost. */
  method Collect(r: Roots, nil: Value, all: seq<Cell>, conses: GcConses.ConsPool, closures: GcClosures.ClosurePool,
                 ghost lists: map<Cell, Lists>, ghost obj: map<Cell, Value>, ghost heap: set<Cell>)
    returns (ghost kept: set<Cell>, ghost changed: seq<Value>, ghost shapes: map<Cell, Shape>)
    requires World(all, lists, obj, nil, heap) && Pools(conses, closures, all, lists, heap)
    requires forall v :: v in RootValues(r) ==> InBound(v, heap)
    requires forall v :: v in RootValues(r) && v.Ref? ==> v.cell !in Spines(all, lists)
    modifies heap, conses, closures, conses.cells, closures.cells
    ensures Collected(old(Shapes(heap)), old(MarkedSet(heap)), RootValues(r), kept, changed, shapes, all, lists, obj,
      nil)
    ensures conses.Valid() && closures.Valid() && conses.cells == old(conses.cells) &&
      closures.cells == old(closures.cells)
    ensures conses.Live() == (set c | c in conses.cells && c in kept) &&
      closures.Live() == set c | c in closures.cells && c in kept
    ensures forall c :: c in conses.Live() || c in closures.Live() ==>
      !c.Marked() && c in shapes && c.Shape() == shapes[c]
    ensures closures.used + |closures.free| == |closures.cells|
    ensures Wf(shapes) && shapes.Keys == heap && kept <= heap
    ensures forall c :: c in heap && c !in conses.cells && c !in closures.cells ==>
      c.Proper() && c.Shape() == shapes[c] && (c.Marked() <==> c in kept)
    ensures var m := MarksOf(old(Shapes(heap)), old(MarkedSet(heap)), RootValues(r));
      forall c, v :: c in kept && Field(c, v) ==>
        Present(shapes, kept, Lost(all, lists, obj, m), v) &&
        (NoneTorn(all, lists, obj, m) ==> Present(shapes, kept, {}, v))
  {
    hide World, Pools, Rearranged, Collected, MarksOf, HeapOk, Spines, RootValues, GcConses.AllPairs,
         GcClosures.Sorted, Shapes, MarkedSet, InUse, Pooled, Owned, Wf;
    ghost var g0, live := Shapes(heap), conses.Live();
    PoolShapes(conses, closures, all, lists, heap);
    changed := MarkAndRun(r, nil, all, lists, obj, heap);
    shapes, kept := Shapes(heap), MarkedSet(heap);
    ghost var m := MarksOf(g0, old(MarkedSet(heap)), RootValues(r));
    BeforeSweep(conses, closures, live, g0, all, lists, obj, nil, m, heap);
    KeptInHeap(heap);
    SweepBoth(conses, closures, heap, kept, shapes);
    CollectedCloses(g0, old(MarkedSet(heap)), RootValues(r), kept, changed, shapes, all, lists, obj, nil);
    forall c, v | c in kept && Field(c, v)
      ensures Present(shapes, kept, Lost(all, lists, obj, m), v)
      ensures NoneTorn(all, lists, obj, m) ==> Present(shapes, kept, {}, v)
    {
      FieldsAre(c, v);
      KeptFields(shapes, all, lists, obj, m, kept, c, v);
    }
  }

  lemma CollectedCloses(g0: map<Cell, Shape>, perm: set<Cell>, roots: seq<Value>, kept: set<Cell>, changed: seq<Value>,
                        shapes: map<Cell, Shape>, all: seq<Cell>, lists: map<Cell, Lists>, obj: map<Cell, Value>,
                        nil: Value)
    requires Collected(g0, perm, roots, kept, changed, shapes, all, lists, obj, nil)
    ensures ClosedButLost(shapes, all, lists, obj, MarksOf(g0, perm, roots), kept)
  {
  }

  /** The sweeps touch nothing outside the pools. */
  method SweepBoth(conses: GcConses.ConsPool, closures: GcClosures.ClosurePool, ghost heap: set<Cell>,
                   ghost kept: set<Cell>, ghost shapes: map<Cell, Shape>)
    requires conses.Shaped() && GcConses.AllPairs(conses.cells)
    requires closures.Shaped() && GcClosures.Sorted(closures.cells, closures.free)
    requires forall c :: c in conses.cells ==> c !in closures.cells
    requires forall c :: c in conses.cells ==> (c.Marked() <==> c in kept)
    requires forall c :: c in closures.cells ==> (!c.IsPair() && c.Marked() <==> c in kept)
    requires shapes.Keys == heap && kept <= heap && forall c :: c in heap ==>
      c.Proper() && c.Shape() == shapes[c] && (c.Marked() <==> c in kept)
    modifies conses, closures, conses.cells, closures.cells
    ensures conses.Valid() && closures.Valid() && conses.cells == old(conses.cells) &&
      closures.cells == old(closures.cells)
    ensures conses.Live() == (set c | c in conses.cells && c in kept) &&
      closures.Live() == set c | c in closures.cells && c in kept
    ensures forall c :: c in conses.Live() || c in closures.Live() ==>
      !c.Marked() && c in shapes && c.Shape() == shapes[c]
    ensures closures.used == |closures.cells| - |closures.free|
    ensures forall c :: c in heap && c !in conses.cells && c !in closures.cells ==>
      c.Proper() && c.Shape() == shapes[c] && (c.Marked() <==> c in kept)
  {
    hide Distinct, GcBlocks.Flat, InUse, GcBlocks.Blocks, GcConses.Threaded, GcClosures.Threaded, GcClosures.Sorted,
         GcConses.AllPairs;
    label before:
    SweepPhase(conses, closures, kept);
    forall c | c in heap && c !in conses.cells && c !in closures.cells
      ensures c.Proper() && c.Shape() == shapes[c] && (c.Marked() <==> c in kept)
    {
      Unswept(conses, closures, c);
      assert c.car == old@before(c.car) && c.cdr == old@before(c.cdr) && c.slots == old@before(c.slots);
    }
  }

  /** A cell is not a pool. */
  lemma Unswept(conses: GcConses.ConsPool, closures: GcClosures.ClosurePool, c: Cell)
    ensures c as object != conses && c as object != closures
  {
  }

  lemma KeptInHeap(heap: set<Cell>)
    requires HeapOk(heap)
    ensures Shapes(heap).Keys == heap && Wf(Shapes(heap)) && MarkedSet(heap) <= heap
    ensures forall c :: c in heap ==>
      Shapes(heap)[c] == c.Shape() && c.Proper() && (c.Marked() <==> c in MarkedSet(heap))
  {
  }
}
