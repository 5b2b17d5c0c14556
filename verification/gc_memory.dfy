/** The collected memory as a whole: any sequence of allocations, pushes, pops and collections keeps it
    in order, and what each guardian reports follows its history. */
module GcMemory {
  import opened GcBlocks
  import opened GcHeap
  import opened GcReach
  import opened GcGuardians
  import opened GcResurrection
  import opened GcSurvival
  import opened GcFields
  import opened GcCollect
  import opened GcNext
  import opened GcChanges
  import GcConses
  import GcClosures
  import GcHistory

  /** Every cell of the heap is looked after by one of the sweeps, is marked for good or is never marked. */
  ghost predicate Places(g: map<Cell, Shape>, perm: set<Cell>, guardians: seq<Cell>, lists: map<Cell, Lists>,
                         objects: seq<Cell>,
                         conses: seq<Cell>, closures: seq<Cell>)
  {
    && (forall c :: c in g ==>
          c in perm || !Markable(g[c]) || c in conses || c in closures || c in guardians || c in objects)
    && Distinct(objects)
    && (forall c :: c in objects ==>
      c in g && g[c].Object? && Markable(g[c]) && c !in perm && c !in conses && c !in closures && c !in guardians)
    && (forall c :: c in perm ==> c in g && c !in conses && c !in closures && c !in guardians)
    && (forall c :: c in guardians ==> c !in conses && c !in closures)
    && (forall c :: c in Spines(guardians, lists) ==> c in conses)
  }

  /** The guardians' lists are what their histories say. */
  ghost predicate Recorded(guardians: seq<Cell>, lists: map<Cell, Lists>, obj: map<Cell, Value>, history: map<Cell,
                           seq<GcHistory.Op>>)
  {
    forall g :: g in guardians ==> g in history && Follows(ListsOf(lists, g), obj, history[g])
  }

  ghost predicate Follows(l: Lists, obj: map<Cell, Value>, ops: seq<GcHistory.Op>)
  {
    var s := GcHistory.Run(ops);
    s.acc == ObjectsOf(l.acc, obj) && s.inacc == ObjectsOf(l.inacc, obj)
  }

  lemma {:induction false} ObjectsSame(s: seq<Cell>, obj: map<Cell, Value>, obj1: map<Cell, Value>)
    requires forall c :: c in s ==> Obj(obj1, c) == Obj(obj, c)
    ensures ObjectsOf(s, obj1) == ObjectsOf(s, obj)
  {
    if s != [] { ObjectsSame(s[1..], obj, obj1); }
  }

  // ----- Histories follow the operations -----

  lemma RunMore(ops: seq<GcHistory.Op>, op: GcHistory.Op)
    ensures GcHistory.Run(ops + [op]) == GcHistory.Step(GcHistory.Run(ops), op)
  {
    assert (ops + [op])[..|ops|] == ops;
  }

  lemma FollowsPush(l: Lists, obj: map<Cell, Value>, ops: seq<GcHistory.Op>, c: Cell, v: Value)
    requires Follows(l, obj, ops) && c !in l.acc && c !in l.inacc
    ensures Follows(PushLists(l, c), obj[c := v], ops + [GcHistory.Pushed(v)])
  {
    hide ObjectsOf, GcHistory.Run;
    RunMore(ops, GcHistory.Pushed(v));
    ObjectsSame(l.acc, obj, obj[c := v]);
    ObjectsSame(l.inacc, obj, obj[c := v]);
    GcHistory.ObjectsOne(c, obj[c := v]);
    GcHistory.ObjectsConcat([c], l.acc, obj[c := v]);
  }

  lemma FollowsPop(l: Lists, obj: map<Cell, Value>, ops: seq<GcHistory.Op>)
    requires Follows(l, obj, ops) && l.inacc != []
    ensures Follows(PopLists(l), obj, ops + [GcHistory.Popped])
    ensures GcHistory.Run(ops + [GcHistory.Popped]).popped == GcHistory.Run(ops).popped + [Obj(obj, l.inacc[0])]
  {
    hide GcHistory.Run;
    RunMore(ops, GcHistory.Popped);
  }

  lemma FollowsNothing(l: Lists, obj: map<Cell, Value>, ops: seq<GcHistory.Op>)
    requires Follows(l, obj, ops) && l.inacc == []
    ensures Follows(l, obj, ops + [GcHistory.Popped])
  {
    hide GcHistory.Run;
    RunMore(ops, GcHistory.Popped);
  }

  ghost function Values(m: set<Cell>): set<Value>
  {
    set c | c in m :: Ref(c)
  }

  lemma FollowsRun(l: Lists, obj: map<Cell, Value>, ops: seq<GcHistory.Op>, m: set<Cell>)
    requires Follows(l, obj, ops) && forall c :: c in l.acc ==> Obj(obj, c).Ref?
    ensures Follows(Run1(l, obj, m), obj, ops + [GcHistory.Collected(Values(m))])
  {
    hide GcHistory.Run, ObjectsOf, Kept, Moved;
    RunMore(ops, GcHistory.Collected(Values(m)));
    GcHistory.RunIsStep(l.acc, obj, m, Values(m));
    GcHistory.ObjectsConcat(Moved(l.acc, obj, m), l.inacc, obj);
  }

  // ----- The pools after each operation -----

  lemma FreeUnmarked(conses: GcConses.ConsPool)
    requires conses.Valid()
    ensures forall c :: c in conses.free ==> !c.Marked()
  {
    hide GcBlocks.Flat, GcBlocks.Blocks, Distinct;
    forall c | c in conses.free ensures !c.Marked() {
      var i :| 0 <= i < |conses.free| && conses.free[i] == c;
      assert conses.free[i].car.Pointer? && conses.free[i].cdr == Pointer(NextIn(conses.free, i), false);
    }
  }

  lemma LiveFacts(cells: seq<Cell>, free: seq<Cell>, c: Cell)
    ensures c in InUse(cells, free) <==> c in cells && c !in free
  {
  }

  /** One more pair is in use, and perhaps there are more free ones. */
  lemma PoolsMore(conses: GcConses.ConsPool, closures: GcClosures.ClosurePool, all: seq<Cell>, lists: map<Cell, Lists>,
                  lists1: map<Cell, Lists>,
                  heap: set<Cell>, heap1: set<Cell>, cells: seq<Cell>, live: set<Cell>, c: Cell)
    requires conses.Valid() && closures.Valid() && conses.Live() == live + {c} && !c.Marked() && heap1 == heap + {c} &&
      c !in all
    requires Owned(cells, live, all, heap) && Pooled(closures.cells, closures.Live(), all, heap) &&
      live <= set d | d in cells
    requires forall d :: d in conses.cells && d !in cells ==> d !in heap && d !in all && d !in closures.cells
    requires forall d :: d in cells ==> d !in closures.cells
    requires forall d :: d in live && d !in heap ==> !d.Marked()
    requires c !in closures.cells && forall d :: d in closures.cells ==> d !in Spines(all, lists1)
    ensures Pools(conses, closures, all, lists1, heap1)
  {
    hide GcBlocks.Flat, GcBlocks.Blocks, Distinct, GcConses.Threaded, GcClosures.Threaded, GcClosures.Sorted,
         GcConses.AllPairs, Spines, InUse;
    FreeUnmarked(conses);
    forall d | d in conses.cells
      ensures (d in heap1 ==> d in conses.Live()) && d !in all && (d !in heap1 ==> !d.Marked())
    {
      LiveFacts(conses.cells, conses.free, d);
    }
  }

  /** After the sweeps. */
  lemma PoolsNext(conses: GcConses.ConsPool, closures: GcClosures.ClosurePool, all: seq<Cell>, all1: seq<Cell>,
                  lists: map<Cell, Lists>,
                  lists1: map<Cell, Lists>, g0: map<Cell, Shape>, g1: map<Cell, Shape>, kept: set<Cell>)
    requires conses.Valid() && closures.Valid() && (forall c :: c in conses.Live() ==> !c.Marked())
    requires conses.Live() == (set c | c in conses.cells && c in kept) &&
      closures.Live() == set c | c in closures.cells && c in kept
    requires SameElsewhere(g0, g1, all, lists) && kept <= g1.Keys
    requires forall c :: c in conses.cells ==> c !in all && c !in closures.cells && (c in g0 ==> g0[c].Pair?)
    requires forall c :: c in closures.cells ==>
      c !in all && c !in Spines(all, lists) && (c in g0 ==> g0[c].Object? && g0[c].kind.Closure?)
    requires Spines(all1, lists1) <= Spines(all, lists) && forall x :: x in all1 ==> x in all
    ensures Pools(conses, closures, all1, lists1, NextHeap(g1, all, lists, kept))
  {
    hide GcBlocks.Flat, GcBlocks.Blocks, Distinct, GcConses.Threaded, GcClosures.Threaded, GcClosures.Sorted,
         GcConses.AllPairs, Spines, InUse, DeadPairs;
    FreeUnmarked(conses);
    DeadIn(all, lists, kept);
    SameKeys(g0, g1, all, lists);
    forall c | c in conses.cells
      ensures c in NextHeap(g1, all, lists, kept) ==> c in conses.Live()
      ensures c !in NextHeap(g1, all, lists, kept) ==> !c.Marked()
    {
      LiveFacts(conses.cells, conses.free, c);
    }
  }

  /** Sweeping a list of objects that are not pairs: those marked stay, unmarked, in reverse order. */
  method SweepList(cells: seq<Cell>, ghost kept: set<Cell>) returns (left: seq<Cell>)
    requires Distinct(cells) && forall c :: c in cells ==> c.Proper() && !c.IsPair() && (c.Marked() <==> c in kept)
    modifies (set c | c in cells)`car
    ensures left == Surviving(cells, kept)
    ensures forall c :: c in cells ==> c.Proper() && c.Shape() == old(c.Shape()) && (c in kept ==> !c.Marked())
  {
    left := [];
    assert cells[..0] == [];
    for i := 0 to |cells|
      invariant left == Surviving(cells[..i], kept)
      invariant forall j :: 0 <= j < |cells| ==>
        cells[j].Proper() && !cells[j].IsPair() && cells[j].Shape() == old(cells[j].Shape())
      invariant forall j :: 0 <= j < i && cells[j] in kept ==> !cells[j].Marked()
      invariant forall j :: i <= j < |cells| ==> (cells[j].Marked() <==> cells[j] in kept)
    {
      var c := cells[i];
      assert c in cells;
      assert cells[..i + 1][..i] == cells[..i];
      if c.Marked() {
        c.car := Header(c.car.kind, false);
        left := [c] + left;
      } else {
        assert [] + left == left;
      }
    }
    assert cells[..|cells|] == cells;
  }

  lemma ClosureFree(closures: GcClosures.ClosurePool)
    requires closures.Valid()
    ensures forall d :: d in closures.free ==> d in closures.cells
  {
    hide GcBlocks.Flat, GcBlocks.Blocks, Distinct;
  }

  lemma PushedHeap(heap: set<Cell>, perm: set<Cell>, g: Cell, c: Cell, l: Lists, v: Value, nil: Value, g0: map<Cell,
                   Shape>)
    requires c !in heap && g in heap && g0.Keys == heap && perm <= heap && !c.Marked() && !g.Marked() && g !in perm
    requires forall d :: d in heap && d != g ==> d.Shape() == g0[d] && (d.Marked() <==> d in perm)
    requires c.Shape() == Pair(v, After(l.acc, -1, nil)) &&
      g.Shape() == Object(Guardian, [After(l.inacc, -1, nil)], Ref(c))
    ensures Shapes(heap + {c}) == PushShapes(g0, g, l, c, v, nil) && MarkedSet(heap + {c}) == perm
  {
  }

  lemma OnlyNil(g: map<Cell, Shape>, perm: set<Cell>, nil: Value)
    requires nil.Ref? && g == map[nil.cell := Object(Datum, [nil], Zero)] && perm == {nil.cell}
    ensures InOrder(g, perm, [], map[], map[], nil) && Places(g, perm, [], map[], [], [], [])
  {
    assert Spines([], map[]) == {};
  }

  // ----- After a push or a pop -----

  lemma PushedRecorded(guardians: seq<Cell>, lists: map<Cell, Lists>, obj: map<Cell, Value>, nil: Value,
                       heap: set<Cell>,
                       history: map<Cell, seq<GcHistory.Op>>, g: Cell, c: Cell, v: Value)
    requires Separate(guardians, lists, obj, nil, heap) && Recorded(guardians, lists, obj, history) &&
      g in guardians && c !in heap
    ensures Recorded(guardians, lists[g := PushLists(ListsOf(lists, g), c)], obj[c := v],
      history[g := history[g] + [GcHistory.Pushed(v)]])
  {
    hide Separate, Follows, PushLists, Spine, ListsOf;
    var l := PushLists(ListsOf(lists, g), c);
    var lists1, obj1, history1 := lists[g := l], obj[c := v], history[g := history[g] + [GcHistory.Pushed(v)]];
    forall x | x in guardians ensures x in history1 && Follows(ListsOf(lists1, x), obj1, history1[x]) {
      var lx := ListsOf(lists, x);
      OtherLists(lists, g, l, x);
      forall d | d in lx.acc || d in lx.inacc ensures d != c {
        InSpine(lx, d);
        ObjApart(x, d, guardians, lists, obj, nil, heap);
      }
      if x == g {
        FollowsPush(lx, obj, history[g], c, v);
      } else {
        FollowsSame(lx, obj, obj1, history[x]);
      }
    }
  }

  lemma FollowsSame(l: Lists, obj: map<Cell, Value>, obj1: map<Cell, Value>, ops: seq<GcHistory.Op>)
    requires Follows(l, obj, ops) && forall c :: c in l.acc || c in l.inacc ==> Obj(obj1, c) == Obj(obj, c)
    ensures Follows(l, obj1, ops)
  {
    hide GcHistory.Run;
    ObjectsSame(l.acc, obj, obj1);
    ObjectsSame(l.inacc, obj, obj1);
  }

  lemma PoppedRecorded(guardians: seq<Cell>, lists: map<Cell, Lists>, obj: map<Cell, Value>, history: map<Cell,
                       seq<GcHistory.Op>>, g: Cell)
    requires Recorded(guardians, lists, obj, history) && g in guardians
    ensures Recorded(guardians, PopListsIn(lists, g), obj, history[g := history[g] + [GcHistory.Popped]])
  {
    hide Follows, PopLists, ListsOf;
    var l := ListsOf(lists, g);
    var lists1, history1 := PopListsIn(lists, g), history[g := history[g] + [GcHistory.Popped]];
    forall x | x in guardians ensures x in history1 && Follows(ListsOf(lists1, x), obj, history1[x]) {
      if l.inacc != [] { OtherLists(lists, g, PopLists(l), x); }
      if x == g {
        if l.inacc == [] { FollowsNothing(l, obj, history[g]); } else { FollowsPop(l, obj, history[g]); }
      }
    }
  }

  /** A pair of the changed lists is an old one or the new one. */
  lemma ChangedSpines(all: seq<Cell>, lists: map<Cell, Lists>, g: Cell, l: Lists, extra: set<Cell>)
    requires g in all && forall c :: c in Spine(l) ==> c in Spine(ListsOf(lists, g)) || c in extra
    ensures Spines(all, lists[g := l]) <= Spines(all, lists) + extra
  {
    hide Spine, ListsOf, Spines;
    SpineIn(all, lists, g);
    forall c | c in Spines(all, lists[g := l]) ensures c in Spines(all, lists) + extra {
      SpinesChanged(all, lists, g, l, c);
      if exists x :: x in all && x != g && c in Spine(ListsOf(lists, x)) {
        var x :| x in all && x != g && c in Spine(ListsOf(lists, x));
        SpineIn(all, lists, x);
      }
    }
  }

  lemma PushedSpines(all: seq<Cell>, lists: map<Cell, Lists>, g: Cell, c: Cell)
    requires g in all
    ensures Spines(all, lists[g := PushLists(ListsOf(lists, g), c)]) <= Spines(all, lists) + {c}
  {
    hide Spine, ListsOf, Spines, PushLists;
    var l := PushLists(ListsOf(lists, g), c);
    forall d | d in Spine(l) ensures d in Spine(ListsOf(lists, g)) || d in {c} { PushedSpineOne(ListsOf(lists, g), c,
      d); }
    ChangedSpines(all, lists, g, l, {c});
  }

  lemma OrderFacts(g0: map<Cell, Shape>, marks: set<Cell>, all: seq<Cell>, lists: map<Cell, Lists>, obj: map<Cell,
                   Value>, nil: Value)
    requires InOrder(g0, marks, all, lists, obj, nil)
    ensures Separate(all, lists, obj, nil, g0.Keys) && Listed(g0, all, lists, obj, nil) &&
      forall x :: x in all ==> x in g0
  {
  }

  lemma PushInOrder(g0: map<Cell, Shape>, marks: set<Cell>, all: seq<Cell>, lists: map<Cell, Lists>, g: Cell, c: Cell,
                    v: Value,
                    obj: map<Cell, Value>, nil: Value)
    requires InOrder(g0, marks, all, lists, obj, nil) && g in all && c !in g0 && v.Ref? && Storable(g0, all, lists, v)
    requires marks <= g0.Keys && forall x :: x in all ==> x !in marks
    ensures var l := ListsOf(lists, g); InOrder(PushShapes(g0, g, l, c, v, nil), marks, all, lists[g := PushLists(l,
      c)], obj[c := v], nil)
  {
    hide InOrder, Changed, PushShapes, PushLists;
    var l := ListsOf(lists, g);
    PushChanges(g0, marks, all, lists, g, c, v, obj, nil);
    ChangedInOrder(g0, PushShapes(g0, g, l, c, v, nil), marks, all, lists, g, PushLists(l, c), obj, obj[c := v], nil);
  }

  lemma PushedPlaces(g0: map<Cell, Shape>, perm: set<Cell>, guardians: seq<Cell>, lists: map<Cell, Lists>,
                     objects: seq<Cell>,
                     cells: seq<Cell>, closures: seq<Cell>, obj: map<Cell, Value>, nil: Value, g: Cell, c: Cell,
                       v: Value, cells1: seq<Cell>)
    requires Places(g0, perm, guardians, lists, objects, cells, closures) && Listed(g0, guardians, lists, obj, nil)
    requires g in guardians && c !in g0 && c in cells1 && (forall d :: d in cells ==> d in cells1)
    requires forall d :: d in cells1 && d !in cells ==> d !in g0 && d !in closures
    requires forall x :: x in guardians ==> x in g0
    ensures var l := ListsOf(lists, g);
      Places(PushShapes(g0, g, l, c, v, nil), perm, guardians, lists[g := PushLists(l, c)], objects, cells1, closures)
  {
    hide Spine, ListsOf, Spines, PushLists, PushShapes, Listed, Distinct;
    var l := ListsOf(lists, g);
    GuardianIs(g0, guardians, lists, g, obj, nil);
    PushedShapes(g0, g, l, c, v, nil);
    PushedSpines(guardians, lists, g, c);
  }

  // ----- After a pop -----

  function PopListsIn(lists: map<Cell, Lists>, g: Cell): map<Cell, Lists>
  {
    if ListsOf(lists, g).inacc == [] then lists else lists[g := PopLists(ListsOf(lists, g))]
  }

  /** The pair that is taken off the list is no longer part of the heap. */
  ghost function PopHeap(heap: set<Cell>, l: Lists): set<Cell>
  {
    if l.inacc == [] then heap else heap - {l.inacc[0]}
  }

  lemma PoppedSpines(all: seq<Cell>, lists: map<Cell, Lists>, g: Cell)
    requires g in all
    ensures Spines(all, PopListsIn(lists, g)) <= Spines(all, lists)
  {
    hide Spines, ListsOf;
    var l := ListsOf(lists, g);
    if l.inacc != [] {
      forall c | c in Spine(PopLists(l)) ensures c in Spine(l) {}
      ChangedSpines(all, lists, g, PopLists(l), {});
    }
  }

  lemma PoppedWorld(g0: map<Cell, Shape>, heap: set<Cell>, perm: set<Cell>, guardians: seq<Cell>, lists: map<Cell,
                    Lists>, obj: map<Cell, Value>,
                    nil: Value, g: Cell)
    requires InOrder(g0, perm, guardians, lists, obj, nil) && g in guardians && g in heap
    requires g0.Keys == heap && perm <= heap && (forall x :: x in guardians ==> x !in perm)
    requires forall d :: d in heap && d != g ==> d.Shape() == g0[d] && (d.Marked() <==> d in perm) && d.Proper()
    requires g.car.Header? && g.car.kind.Guardian? && !g.car.mark && g.cdr.Pointer? &&
      g.cdr.v == After(ListsOf(lists, g).acc, -1, nil)
    requires g.slots == [After(ListsOf(PopListsIn(lists, g), g).inacc, -1, nil)]
    ensures var heap1 := PopHeap(heap, ListsOf(lists, g));
      World(guardians, PopListsIn(lists, g), obj, nil, heap1) && MarkedSet(heap1) == perm && perm <= heap1 &&
      forall d :: d in heap1 && d != g ==> d in g0 && Shapes(heap1)[d] == g0[d]
  {
    hide World, InOrder, Spines, Spine, PopLists;
    var l := ListsOf(lists, g);
    var heap1 := PopHeap(heap, l);
    OrderFacts(g0, perm, guardians, lists, obj, nil);
    GuardianIs(g0, guardians, lists, g, obj, nil);
    if l.inacc == [] {
      assert Shapes(heap) == g0;
      assert MarkedSet(heap) == perm;
    } else {
      OtherLists(lists, g, PopLists(l), g);
      PoppedMeans(l);
      InSpine(l, l.inacc[0]);
      PopChanges(g0, perm, guardians, lists, g, obj, nil);
      ChangedInOrder(g0, PopShapes(g0, g, l, nil), perm, guardians, lists, g, PopLists(l), obj, obj, nil);
      PermApart(g0, perm, guardians, lists, obj, nil, g, l.inacc[0]);
      assert Shapes(heap1) == PopShapes(g0, g, l, nil);
      assert MarkedSet(heap1) == perm;
    }
    WorldIsInOrder(guardians, PopListsIn(lists, g), obj, nil, heap1);
  }

  lemma PopIn(lists: map<Cell, Lists>, g: Cell)
    ensures var l := ListsOf(lists, g);
      ListsOf(PopListsIn(lists, g), g).inacc == if l.inacc == [] then [] else l.inacc[1..]
  {
  }

  lemma PoppedMeans(l: Lists)
    requires l.inacc != []
    ensures PopLists(l).acc == l.acc && PopLists(l).inacc == l.inacc[1..]
  {
  }

  lemma PermApart(g0: map<Cell, Shape>, perm: set<Cell>, all: seq<Cell>, lists: map<Cell, Lists>, obj: map<Cell,
                  Value>, nil: Value, g: Cell, c: Cell)
    requires InOrder(g0, perm, all, lists, obj, nil) && g in all && c in Spine(ListsOf(lists, g))
    ensures c !in perm && c != g && c !in all && c in g0
  {
    hide Wf, Listed, Private, Closed, Distinct;
    SpineIn(all, lists, g);
  }

  /** The popped pair is an ordinary unmarked pair. */
  lemma PoppedPair(g0: map<Cell, Shape>, perm: set<Cell>, guardians: seq<Cell>, lists: map<Cell, Lists>, obj: map<Cell,
                   Value>, nil: Value, g: Cell,
                   objects: seq<Cell>, cells: seq<Cell>, closures: seq<Cell>, heap: set<Cell>)
    requires Places(g0, perm, guardians, lists, objects, cells, closures) &&
      InOrder(g0, perm, guardians, lists, obj, nil) && g in guardians
    requires forall c :: c in cells ==> c !in closures
    ensures forall c :: c in heap && c !in PopHeap(heap, ListsOf(lists, g)) ==>
      c in cells && c !in closures && c !in perm && c != g
  {
    hide InOrder, Spines, Spine, ListsOf;
    var l := ListsOf(lists, g);
    if l.inacc != [] {
      InaccSpine(l, 0);
      SpineIn(guardians, lists, g);
      PermApart(g0, perm, guardians, lists, obj, nil, g, l.inacc[0]);
    }
  }

  lemma PoppedPools(conses: GcConses.ConsPool, closures: GcClosures.ClosurePool, all: seq<Cell>, lists: map<Cell,
                    Lists>, lists1: map<Cell, Lists>,
                    heap: set<Cell>, heap1: set<Cell>)
    requires conses.Valid() && closures.Valid() && Owned(conses.cells, conses.Live(), all, heap) &&
      Pooled(closures.cells, closures.Live(), all, heap)
    requires heap1 <= heap && (forall c :: c in heap && c !in heap1 ==> c !in closures.cells)
    requires forall c :: c in conses.cells && c !in heap1 ==> !c.Marked()
    requires forall c :: c in conses.cells ==> c !in closures.cells
    requires (forall c :: c in closures.cells ==> c !in Spines(all, lists)) && Spines(all, lists1) <= Spines(all, lists)
    ensures Pools(conses, closures, all, lists1, heap1)
  {
    hide GcConses.ConsPool.Valid, GcClosures.ClosurePool.Valid, InUse, Spines;
  }

  lemma PoppedPlaces(g0: map<Cell, Shape>, g1: map<Cell, Shape>, perm: set<Cell>, guardians: seq<Cell>,
                     lists: map<Cell, Lists>, objects: seq<Cell>,
                     cells: seq<Cell>, closures: seq<Cell>, g: Cell)
    requires Places(g0, perm, guardians, lists, objects, cells, closures) && g in guardians && g1.Keys <= g0.Keys &&
      perm <= g1.Keys
    requires (forall c :: c in g1 && c != g ==> g1[c] == g0[c]) && (forall c :: c in g0 && c !in g1 ==> c in cells)
    ensures Places(g1, perm, guardians, PopListsIn(lists, g), objects, cells, closures)
  {
    hide Spines, PopListsIn, Distinct;
    PoppedSpines(guardians, lists, g);
  }

  // ----- After a collection -----

  /** No guardian that stays has a torn list. */
  predicate StayWhole(all: seq<Cell>, lists: map<Cell, Lists>, obj: map<Cell, Value>, m: set<Cell>, kept: set<Cell>)
  {
    forall g :: g in all && g in kept ==> !Torn(g, ListsOf(lists, g), obj, m)
  }

  lemma CollectedNext(g0: map<Cell, Shape>, g1: map<Cell, Shape>, perm: set<Cell>, roots: seq<Value>, kept: set<Cell>,
                      changed: seq<Value>,
                      all: seq<Cell>, lists: map<Cell, Lists>, obj: map<Cell, Value>, nil: Value)
    requires InOrder(g0, perm, all, lists, obj, nil) &&
      Collected(g0, perm, roots, kept, changed, g1, all, lists, obj, nil) && Wf(g1)
    requires forall g :: g in all ==> g !in perm
    requires StayWhole(all, lists, obj, MarksOf(g0, perm, roots), kept)
    ensures var m := MarksOf(g0, perm, roots);
      After1(g0, g1, perm, kept, m, all, lists, obj, nil) &&
      InOrder(NextShapes(g1, all, lists, kept), perm, Surviving(all, kept), NextLists(all, lists, obj, m), obj, nil)
  {
    hide InOrder, Rearranged, Torn, Intact, Run1, Closed, ClosedButLost, Lost, NoneTorn, Accessible, MovedObjects,
         Reach, MarkableOf, Wf;
    var m := MarksOf(g0, perm, roots);
    assert perm <= m <= kept;
    NextInOrder(g0, g1, perm, kept, m, all, lists, obj, nil);
  }

  lemma ConsProper(conses: GcConses.ConsPool, c: Cell)
    requires conses.Valid() && c in conses.cells
    ensures c.Proper()
  {
    hide GcBlocks.Flat, GcBlocks.Blocks, Distinct, GcConses.Threaded;
  }

  lemma ClosureProper(closures: GcClosures.ClosurePool, c: Cell)
    requires closures.Valid() && c in closures.Live()
    ensures c.Proper()
  {
    hide GcBlocks.Flat, GcBlocks.Blocks, Distinct, GcClosures.Threaded;
  }

  lemma ConsFree(conses: GcConses.ConsPool)
    requires conses.Valid()
    ensures forall d :: d in conses.free ==> d in conses.cells
  {
    hide GcBlocks.Flat, GcBlocks.Blocks, Distinct, GcConses.Threaded, GcConses.AllPairs;
  }

  lemma StaysIn(g0: map<Cell, Shape>, g1: map<Cell, Shape>, perm: set<Cell>, all: seq<Cell>, lists: map<Cell, Lists>,
                obj: map<Cell, Value>, nil: Value,
                m: set<Cell>, kept: set<Cell>)
    requires After1(g0, g1, perm, kept, m, all, lists, obj, nil)
    ensures SameElsewhere(g0, g1, all, lists) && forall x :: x in Surviving(all, kept) ==> x in all
  {
    hide InOrder, Wf, ClosedButLost, Intact, SameElsewhere, Separate, Listed, Private, PrivateMarks, Closed, Distinct;
  }

  /** Guardians and other objects are still what they were when they are swept. */
  lemma SweptKinds(g0: map<Cell, Shape>, g1: map<Cell, Shape>, perm: set<Cell>, kept: set<Cell>, changed: seq<Value>,
                   roots: seq<Value>,
                   guardians: seq<Cell>, lists: map<Cell, Lists>, objects: seq<Cell>, cells: seq<Cell>,
                     closures: seq<Cell>, obj: map<Cell, Value>, nil: Value)
    requires Places(g0, perm, guardians, lists, objects, cells, closures) &&
      Collected(g0, perm, roots, kept, changed, g1, guardians, lists, obj, nil)
    ensures forall c :: c in guardians || c in objects ==> c in g1 && g1[c].Object? && c !in cells && c !in closures
    ensures Distinct(objects) && forall c :: c in objects ==> c !in guardians
  {
    hide Rearranged, Distinct, Spines, ClosedButLost, Closed, Intact, Torn, Run1, Lost, Accessible, Reach, MarkableOf,
         MarksOf, MovedObjects, NoneTorn;
    KeptPlaces(g0, g1, perm, kept, MarksOf(g0, perm, roots), guardians, lists, objects, cells, closures, obj, nil);
  }

  /** What of the heap was in which place. */
  lemma KeptPlaces(g0: map<Cell, Shape>, g1: map<Cell, Shape>, perm: set<Cell>, kept: set<Cell>, m: set<Cell>,
                   guardians: seq<Cell>,
                   lists: map<Cell, Lists>, objects: seq<Cell>, cells: seq<Cell>, closures: seq<Cell>, obj: map<Cell,
                     Value>, nil: Value)
    requires Places(g0, perm, guardians, lists, objects, cells, closures) &&
      Rearranged(g0, g1, guardians, lists, obj, nil, m)
    ensures forall c :: c in guardians ==> c in g1 && g1[c].Object? && Markable(g1[c])
    ensures forall c :: c in objects ==> c in g1 && g1[c].Object? && Markable(g1[c])
    ensures g1.Keys == g0.Keys && forall c :: c in g0 ==> (Markable(g1[c]) <==> Markable(g0[c]))
  {
    hide Separate, Private, PrivateMarks, Closed, Distinct, Spines, ShapeList, RunLists;
    forall c | c in objects ensures c in g1 && g1[c].Object? && Markable(g1[c]) {
      assert c !in Spines(guardians, lists);
      assert g1[c] == g0[c];
    }
  }

  lemma NextPlaces(g0: map<Cell, Shape>, g1: map<Cell, Shape>, perm: set<Cell>, kept: set<Cell>, m: set<Cell>,
                   guardians: seq<Cell>,
                   lists: map<Cell, Lists>, objects: seq<Cell>, cells: seq<Cell>, closures: seq<Cell>, obj: map<Cell,
                     Value>, nil: Value)
    requires Places(g0, perm, guardians, lists, objects, cells, closures) &&
      After1(g0, g1, perm, kept, m, guardians, lists, obj, nil)
    requires forall c :: c in kept ==> c in perm || (c in g1 && Markable(g1[c]))
    ensures Places(NextShapes(g1, guardians, lists, kept), perm, Surviving(guardians, kept), NextLists(guardians,
      lists, obj, m),
                   Surviving(objects, kept), cells, closures)
  {
    hide InOrder, Wf, ClosedButLost, Intact, Spines, Surviving, NextLists, DeadPairs, Rearranged, Distinct;
    KeptPlaces(g0, g1, perm, kept, m, guardians, lists, objects, cells, closures, obj, nil);
    NextSpines(guardians, lists, obj, m, kept);
    DeadIn(guardians, lists, kept);
    SurvivingDistinct(objects, kept);
    PermStays(g0, perm, guardians, lists, obj, nil);
    NextIn1(g1, guardians, lists, kept);
    forall c | c in Surviving(objects, kept) ensures c in objects && c in kept { SurvivingIn(objects, kept, c); }
    forall c | c in Surviving(guardians, kept) ensures c in guardians && c in kept { SurvivingIn(guardians, kept, c); }
    forall c | c in NextShapes(g1, guardians, lists, kept) && c !in perm && Markable(g1[c]) && c !in cells &&
      c !in closures
      ensures c in Surviving(guardians, kept) || c in Surviving(objects, kept)
    {
      SurvivingIn(objects, kept, c);
      SurvivingIn(guardians, kept, c);
    }
  }

  lemma PermStays(g0: map<Cell, Shape>, perm: set<Cell>, all: seq<Cell>, lists: map<Cell, Lists>, obj: map<Cell,
                  Value>, nil: Value)
    requires InOrder(g0, perm, all, lists, obj, nil)
    ensures perm !! Spines(all, lists)
  {
  }

  lemma NextRecorded(guardians: seq<Cell>, lists: map<Cell, Lists>, obj: map<Cell, Value>, nil: Value, heap: set<Cell>,
                     history: map<Cell, seq<GcHistory.Op>>, m: set<Cell>, kept: set<Cell>)
    requires Separate(guardians, lists, obj, nil, heap) && Recorded(guardians, lists, obj, history)
    ensures Recorded(Surviving(guardians, kept), NextLists(guardians, lists, obj, m), obj, NextHistory(guardians,
      history, m))
  {
    hide Separate, Follows, Spine, Surviving, ListsOf, NextLists;
    forall g | g in Surviving(guardians, kept)
      ensures g in NextHistory(guardians, history, m)
      ensures Follows(ListsOf(NextLists(guardians, lists, obj, m), g), obj, NextHistory(guardians, history, m)[g])
    {
      SurvivingIn(guardians, kept, g);
      NextSpine(guardians, lists, obj, m, kept, g);
      var l := ListsOf(lists, g);
      forall c | c in l.acc ensures Obj(obj, c).Ref? {
        InSpine(l, c);
        ObjApart(g, c, guardians, lists, obj, nil, heap);
      }
      FollowsRun(l, obj, history[g], m);
    }
  }

  /** The collection found `m` reachable. */
  ghost function NextHistory(guardians: seq<Cell>, history: map<Cell, seq<GcHistory.Op>>, m: set<Cell>): map<Cell,
                             seq<GcHistory.Op>>
  {
    map g | g in guardians && g in history :: history[g] + [GcHistory.Collected(Values(m))]
  }

  /** The heap once every sweep has cleared the marks of what it keeps. */
  lemma NextWorld(g0: map<Cell, Shape>, g1: map<Cell, Shape>, perm: set<Cell>, kept: set<Cell>, all: seq<Cell>,
                  all1: seq<Cell>, lists: map<Cell, Lists>,
                  lists1: map<Cell, Lists>, obj: map<Cell, Value>, nil: Value)
    requires InOrder(NextShapes(g1, all, lists, kept), perm, all1, lists1, obj, nil)
    requires forall c :: c in NextHeap(g1, all, lists, kept) ==>
      c.Proper() && c.Shape() == g1[c] && (c.Marked() <==> c in perm)
    requires perm <= NextHeap(g1, all, lists, kept)
    ensures var heap := NextHeap(g1, all, lists, kept);
      World(all1, lists1, obj, nil, heap) && MarkedSet(heap) == perm && Shapes(heap) == NextShapes(g1, all, lists, kept)
  {
    hide InOrder, World, NextHeap;
    NextIn1(g1, all, lists, kept);
    var heap := NextHeap(g1, all, lists, kept);
    assert Shapes(heap) == NextShapes(g1, all, lists, kept);
    assert MarkedSet(heap) == perm;
    WorldIsInOrder(all1, lists1, obj, nil, heap);
  }

  lemma PermNext(g0: map<Cell, Shape>, g1: map<Cell, Shape>, perm: set<Cell>, kept: set<Cell>, m: set<Cell>,
                 all: seq<Cell>, lists: map<Cell, Lists>,
                 obj: map<Cell, Value>, nil: Value)
    requires After1(g0, g1, perm, kept, m, all, lists, obj, nil) && perm <= g1.Keys
    ensures perm <= NextHeap(g1, all, lists, kept)
  {
    hide Wf, ClosedButLost, Intact, Rearranged, DeadPairs, Spines, Separate, Listed, Private, Closed;
    DeadIn(all, lists, kept);
  }

  // ----- After an allocation -----

  lemma AddedWorld(g0: map<Cell, Shape>, heap: set<Cell>, perm: set<Cell>, all: seq<Cell>, lists: map<Cell, Lists>,
                   obj: map<Cell, Value>, nil: Value,
                   g1: map<Cell, Shape>, all1: seq<Cell>, lists1: map<Cell, Lists>, c: Cell)
    requires InOrder(g1, perm, all1, lists1, obj, nil) && g0.Keys == heap && c !in heap && perm <= heap &&
      g1 == g0[c := c.Shape()]
    requires c.Proper() && !c.Marked() && forall d :: d in heap ==>
      d.Shape() == g0[d] && (d.Marked() <==> d in perm) && d.Proper()
    ensures World(all1, lists1, obj, nil, heap + {c}) && MarkedSet(heap + {c}) == perm && Shapes(heap + {c}) == g1
  {
    hide World, InOrder;
    assert Shapes(heap + {c}) == g1;
    assert MarkedSet(heap + {c}) == perm;
    WorldIsInOrder(all1, lists1, obj, nil, heap + {c});
  }

  lemma AddedPlaces(g0: map<Cell, Shape>, s: Shape, perm: set<Cell>, guardians: seq<Cell>, lists: map<Cell, Lists>,
                    objects: seq<Cell>,
                    cells: seq<Cell>, closures: seq<Cell>, c: Cell, cells1: seq<Cell>)
    requires Places(g0, perm, guardians, lists, objects, cells, closures) && c !in g0 && c in cells1 &&
      forall d :: d in cells ==> d in cells1
    requires forall d :: d in cells1 && d !in cells ==> d !in g0 && d !in closures
    requires forall x :: x in guardians ==> x in g0
    ensures Places(g0[c := s], perm, guardians, lists, objects, cells1, closures)
  {
    hide Spines, Distinct;
  }

  /** A new guardian watches nothing. */
  lemma NewRecorded(guardians: seq<Cell>, lists: map<Cell, Lists>, obj: map<Cell, Value>, history: map<Cell,
                    seq<GcHistory.Op>>, g: Cell)
    requires Recorded(guardians, lists, obj, history) && g !in guardians
    ensures Recorded([g] + guardians, lists[g := Lists([], [])], obj, history[g := []])
  {
    hide Follows, ListsOf;
    forall x | x in [g] + guardians ensures Follows(ListsOf(lists[g := Lists([], [])], x), obj, history[g := []][x]) {
      OtherLists(lists, g, Lists([], []), x);
      if x == g { FollowsNone(obj); }
    }
  }

  lemma FollowsNone(obj: map<Cell, Value>)
    ensures Follows(Lists([], []), obj, [])
  {
  }

  lemma NewPlaces(g0: map<Cell, Shape>, s: Shape, perm: set<Cell>, guardians: seq<Cell>, lists: map<Cell, Lists>,
                  objects: seq<Cell>,
                  cells: seq<Cell>, closures: seq<Cell>, g: Cell)
    requires Places(g0, perm, guardians, lists, objects, cells, closures) && g !in g0 && g !in cells &&
      g !in closures && g !in guardians
    ensures Places(g0[g := s], perm, [g] + guardians, lists[g := Lists([], [])], objects, cells, closures)
  {
    hide Spines, Distinct;
    NewSpines(guardians, lists, g);
  }

  lemma NewPools(conses: GcConses.ConsPool, closures: GcClosures.ClosurePool, all: seq<Cell>, lists: map<Cell, Lists>,
                 heap: set<Cell>, g: Cell)
    requires conses.Valid() && closures.Valid() && Owned(conses.cells, conses.Live(), all, heap) &&
      Pooled(closures.cells, closures.Live(), all, heap)
    requires forall c :: c in conses.cells && c !in heap ==> !c.Marked()
    requires forall c :: c in conses.cells ==> c !in closures.cells
    requires forall c :: c in closures.cells ==> c !in Spines(all, lists)
    requires g !in conses.cells && g !in closures.cells && g !in all
    ensures Pools(conses, closures, [g] + all, lists[g := Lists([], [])], heap + {g})
  {
    hide GcConses.ConsPool.Valid, GcClosures.ClosurePool.Valid, InUse, Spines;
    NewSpines(all, lists, g);
  }

  lemma EmptyPools(conses: GcConses.ConsPool, closures: GcClosures.ClosurePool, heap: set<Cell>)
    requires conses.Valid() && closures.Valid() && conses.cells == [] && closures.cells == []
    ensures Pools(conses, closures, [], map[], heap)
  {
    hide GcConses.ConsPool.Valid, GcClosures.ClosurePool.Valid;
  }

  lemma NilAlone(c: Cell)
    requires c.car == Header(Datum, true) && c.slots == [Ref(c)]
    ensures World([], map[], map[], Ref(c), {c}) && MarkedSet({c}) == {c} &&
      Places(Shapes({c}), {c}, [], map[], [], [], [])
  {
    hide InOrder, Places;
    assert Shapes({c}) == map[c := Object(Datum, [Ref(c)], Zero)];
    OnlyNil(Shapes({c}), {c}, Ref(c));
    assert MarkedSet({c}) == {c};
    WorldIsInOrder([], map[], map[], Ref(c), {c});
  }

  // ----- What the program put into its cells -----

  /** Every cell of the program, guardians and their pairs aside, holds what the program last put into it. */
  ghost predicate Faithful(g: map<Cell, Shape>, all: seq<Cell>, lists: map<Cell, Lists>, contents: map<Cell, Shape>)
  {
    forall c :: c in g && c !in all && c !in Spines(all, lists) ==> c in contents && g[c] == contents[c]
  }

  lemma NilFaithful(c: Cell)
    requires c.car == Header(Datum, true) && c.slots == [Ref(c)]
    ensures Faithful(Shapes({c}), [], map[], map[c := Object(Datum, [Ref(c)], Zero)])
  {
    assert Shapes({c})[c] == c.Shape();
  }

  lemma PushedFaithful(g0: map<Cell, Shape>, g1: map<Cell, Shape>, all: seq<Cell>, lists: map<Cell, Lists>, g: Cell,
                       c: Cell, contents: map<Cell, Shape>)
    requires Faithful(g0, all, lists, contents) && g in all && g1.Keys == g0.Keys + {c}
    requires forall d :: d in g0 && d != g ==> g1[d] == g0[d]
    ensures Faithful(g1, all, lists[g := PushLists(ListsOf(lists, g), c)], contents)
  {
    hide Spine, ListsOf, Spines, PushLists;
    var l := PushLists(ListsOf(lists, g), c);
    var lists1 := lists[g := l];
    forall d | d in g1 && d !in all && d !in Spines(all, lists1) ensures d in contents && g1[d] == contents[d] {
      PushedSpineOne(ListsOf(lists, g), c, d);
      SpinesChanged(all, lists, g, l, d);
      if d in Spines(all, lists) { SpinesOwner(all, lists, d); }
    }
  }

  lemma PoppedFaithful(g0: map<Cell, Shape>, g1: map<Cell, Shape>, all: seq<Cell>, lists: map<Cell, Lists>, g: Cell,
                       contents: map<Cell, Shape>)
    requires Faithful(g0, all, lists, contents) && g in all && g1.Keys == PopHeap(g0.Keys, ListsOf(lists, g))
    requires forall d :: d in g1 && d != g ==> g1[d] == g0[d]
    ensures Faithful(g1, all, PopListsIn(lists, g), contents)
  {
    hide ListsOf, Spines;
    var l := ListsOf(lists, g);
    if l.inacc != [] {
      forall d | d in g1 && d !in all && d !in Spines(all, PopListsIn(lists, g))
        ensures d in contents && g1[d] == contents[d]
      {
        PoppedSpineBack(l, d);
        hide Spine, PopLists;
        SpinesChanged(all, lists, g, PopLists(l), d);
        if d in Spines(all, lists) { SpinesOwner(all, lists, d); }
      }
    }
  }

  lemma PoppedSpineBack(l: Lists, d: Cell)
    requires l.inacc != []
    ensures d in Spine(l) ==> d == l.inacc[0] || d in Spine(PopLists(l))
  {
    if d in Spine(l) && d != l.inacc[0] {
      assert l.inacc == [l.inacc[0]] + l.inacc[1..];
    }
  }

  lemma NextFaithful(g0: map<Cell, Shape>, g1: map<Cell, Shape>, all: seq<Cell>, lists: map<Cell, Lists>,
                     obj: map<Cell, Value>, m: set<Cell>, kept: set<Cell>, contents: map<Cell, Shape>)
    requires Faithful(g0, all, lists, contents) && SameElsewhere(g0, g1, all, lists)
    requires forall x :: x in all ==> x in g0 && Markable(g0[x])
    ensures Faithful(NextShapes(g1, all, lists, kept), Surviving(all, kept), NextLists(all, lists, obj, m), contents)
  {
    hide Spines, DeadPairs, Surviving, NextLists;
    NextSpines(all, lists, obj, m, kept);
    forall c | c in NextHeap(g1, all, lists, kept) && c in all ensures c in Surviving(all, kept) {
      SurvivingIn(all, kept, c);
    }
  }

  lemma AddedFaithful(g0: map<Cell, Shape>, c: Cell, s: Shape, all: seq<Cell>, lists: map<Cell, Lists>,
                      contents: map<Cell, Shape>)
    requires Faithful(g0, all, lists, contents)
    ensures Faithful(g0[c := s], all, lists, contents[c := s])
  {
    hide Spines;
  }

  lemma NewFaithful(g0: map<Cell, Shape>, g: Cell, s: Shape, all: seq<Cell>, lists: map<Cell, Lists>,
                    contents: map<Cell, Shape>)
    requires Faithful(g0, all, lists, contents) && g !in all
    ensures Faithful(g0[g := s], [g] + all, lists[g := Lists([], [])], contents)
  {
    hide Spines;
    NewSpines(all, lists, g);
  }

  /** The roots of a collection are still there afterwards, and still the program's. */
  lemma RootsStay(g0: map<Cell, Shape>, g1: map<Cell, Shape>, perm: set<Cell>, roots: seq<Value>, all: seq<Cell>,
                  lists: map<Cell, Lists>, obj: map<Cell, Value>, m: set<Cell>, kept: set<Cell>, v: Value)
    requires SameElsewhere(g0, g1, all, lists) && MarksOf(g0, perm, roots) <= kept
    requires v in roots && v.Ref? && v.cell in g0 && v.cell !in Spines(all, lists)
    ensures v.cell in NextHeap(g1, all, lists, kept)
    ensures v.cell !in Spines(Surviving(all, kept), NextLists(all, lists, obj, m))
    ensures v.cell in all ==> v.cell in kept || !Markable(g0[v.cell])
  {
    hide Spines, DeadPairs, Surviving, NextLists, Reach;
    ReachRoot(g0, roots, v);
    DeadIn(all, lists, kept);
    NextSpines(all, lists, obj, m, kept);
  }

  /** What is known of the memory: the cells marked for good, the heap, the guardians' lists and what
      their pairs hold, their histories, and what the program put into its cells. */
  datatype Book = Book(perm: set<Cell>, heap: set<Cell>, lists: map<Cell, Lists>, obj: map<Cell, Value>,
    history: map<Cell, seq<GcHistory.Op>>, contents: map<Cell, Shape>)

  class Memory {
    const nil: Value
    const conses: GcConses.ConsPool
    const closures: GcClosures.ClosurePool
    var guardians: seq<Cell>
    var objects: seq<Cell>           // everything else that a sweep looks after
    ghost var book: Book

    /** The memory is as `b` says. */
    ghost predicate Fits(b: Book)
      reads this`guardians, this`objects, b.heap, conses, closures, conses.cells, conses.free, closures.cells,
        closures.free
    {
      && World(guardians, b.lists, b.obj, nil, b.heap) && MarkedSet(b.heap) == b.perm
      && Pools(conses, closures, guardians, b.lists, b.heap)
      && Places(Shapes(b.heap), b.perm, guardians, b.lists, objects, conses.cells, closures.cells)
      && Recorded(guardians, b.lists, b.obj, b.history)
    }

    ghost predicate Valid()
      reads this, book.heap, conses, closures, conses.cells, conses.free, closures.cells, closures.free
    {
      Fits(book) && Faithful(Shapes(book.heap), guardians, book.lists, book.contents)
    }

    /** A value the program can have: not a pair of a guardian's own lists. */
    ghost predicate Known(v: Value)
      reads this
    {
      v.Ref? ==> v.cell in book.heap && v.cell !in Spines(guardians, book.lists)
    }

    /** Nothing but nil. */
    constructor ()
      ensures Valid() && book.heap == {nil.cell} && guardians == []
    {
      var c := new Cell(Header(Datum, true), Pointer(Zero, false), []);
      c.slots := [Ref(c)];
      nil := Ref(c);
      conses := new GcConses.ConsPool();
      closures := new GcClosures.ClosurePool();
      guardians, objects := [], [];
      book := Book({c}, {c}, map[], map[], map[], map[c := Object(Datum, [Ref(c)], Zero)]);
      new;
      hide Fits, World, Places, Shapes, MarkedSet, Pools, GcConses.ConsPool.Valid, GcClosures.ClosurePool.Valid, InUse,
           Faithful;
      NilFaithful(c);
      NilAlone(c);
      EmptyPools(conses, closures, book.heap);
      Parts(book);
    }

    // ----- Facts -----

    /** What a guardian's lists look like in memory. */
    lemma GuardianHas(b: Book, g: Cell)
      requires Fits(b) && g in guardians
      ensures var l := ListsOf(b.lists, g);
        Has(g, l, nil) && g in b.heap && !g.Marked() && g.Proper() && nil.Ref? && nil.cell !in Spine(l) &&
        g.Shape() == Object(Guardian, [After(l.inacc, -1, nil)], After(l.acc, -1, nil)) &&
        g.car.Header? && g.cdr == Pointer(After(l.acc, -1, nil), g.cdr.mark) && g.slots == [After(l.inacc, -1, nil)]
      ensures g !in conses.cells && g !in closures.cells && g !in b.perm
      ensures forall c :: c in Spine(ListsOf(b.lists, g)) ==> c.car == Pointer(Obj(b.obj, c), false)
      ensures forall c :: c in Spine(ListsOf(b.lists, g)) ==>
        c in conses.cells && c in b.heap && c !in conses.free && c !in closures.cells
    {
      hide Has, Wf, Separate, Spine, Private, Closed, Distinct, ShapeList, GcBlocks.Flat;
      InHeap(guardians, b.lists, b.obj, nil, b.heap);
      SpineIn(guardians, b.lists, g);
      NilApart(guardians, b.lists, b.obj, nil, b.heap);
      HasBack(g, ListsOf(b.lists, g), b.obj, nil, b.heap);
      assert g.Marked() ==> g in MarkedSet(b.heap);
      forall c | c in Spine(ListsOf(b.lists, g)) ensures c !in conses.free {
        LiveFacts(conses.cells, conses.free, c);
      }
    }

    /** What the heap contains is in use. */
    lemma HeapFacts(b: Book)
      requires Fits(b)
      ensures forall c :: c in b.heap ==> c !in conses.free && (c.Marked() <==> c in b.perm) && c.Proper()
      ensures Shapes(b.heap).Keys == b.heap && forall c :: c in b.heap ==> Shapes(b.heap)[c] == c.Shape()
      ensures b.perm <= b.heap
      ensures InOrder(Shapes(b.heap), b.perm, guardians, b.lists, b.obj, nil)
      ensures forall c :: c in guardians ==> c !in b.perm && c in b.heap
    {
      hide Wf, Separate, Listed, Private, Closed, Distinct, Spines, GcBlocks.Flat, Settled;
      WorldIsInOrder(guardians, b.lists, b.obj, nil, b.heap);
      InHeap(guardians, b.lists, b.obj, nil, b.heap);
      forall c | c in b.heap ensures c !in conses.free { LiveFacts(conses.cells, conses.free, c); }
    }

    lemma PoolFacts(b: Book)
      requires Fits(b)
      ensures conses.Live() <= (set d | d in conses.cells) && forall d :: d in conses.Live() && d !in b.heap ==>
        !d.Marked()
      ensures forall d :: d in conses.cells ==> d !in closures.cells
      ensures forall d :: d in conses.free ==> d in conses.cells
      ensures forall d :: d in guardians ==> d !in conses.cells && d !in closures.cells
      ensures forall d :: d in closures.cells ==> d !in Spines(guardians, b.lists)
      ensures Owned(conses.cells, conses.Live(), guardians, b.heap) &&
        Pooled(closures.cells, closures.Live(), guardians, b.heap)
      ensures conses.Valid() && closures.Valid() && forall d :: d in closures.free ==> d in closures.cells
      ensures forall d :: d in conses.cells && d !in b.heap ==> !d.Marked()
    {
      hide World, Recorded, GcBlocks.Flat, Spines, Distinct, GcConses.Threaded, GcClosures.Threaded, GcClosures.Sorted,
           GcConses.AllPairs;
      forall d | d in conses.Live() ensures d in conses.cells { LiveFacts(conses.cells, conses.free, d); }
    }

    lemma Parts(b: Book)
      requires World(guardians, b.lists, b.obj, nil, b.heap) && MarkedSet(b.heap) == b.perm
      requires Pools(conses, closures, guardians, b.lists, b.heap)
      requires Places(Shapes(b.heap), b.perm, guardians, b.lists, objects, conses.cells, closures.cells)
      requires Recorded(guardians, b.lists, b.obj, b.history)
      ensures Fits(b)
    {
    }

    lemma Apart(b: Book)
      requires Fits(b)
      ensures Places(Shapes(b.heap), b.perm, guardians, b.lists, objects, conses.cells, closures.cells)
      ensures Recorded(guardians, b.lists, b.obj, b.history)
    {
    }

    // ----- Pushing -----

    /** The push itself, and all that it leaves alone. */
    method RawPush(g: Cell, v: Value, ghost b: Book, ghost l: Lists) returns (ghost c: Cell)
      requires Fits(b) && g in guardians && v.Ref? && l == ListsOf(b.lists, g)
      modifies g`cdr, conses, conses.free
      ensures c !in b.heap && c !in closures.cells && c in conses.cells
      ensures c.car == Pointer(v, false) && c.cdr == Pointer(After(l.acc, -1, nil), false) && g.cdr.Pointer? &&
        g.cdr.v == Ref(c)
      ensures forall d :: d in b.heap && d != g ==>
        d.car == old(d.car) && d.cdr == old(d.cdr) && d.slots == old(d.slots)
      ensures conses.Valid() && conses.Live() == old(conses.Live()) + {c}
      ensures forall d :: d in old(conses.cells) ==> d in conses.cells
      ensures forall d :: d in conses.cells && d !in old(conses.cells) ==> d !in b.heap && d !in closures.cells
      ensures forall d :: d in old(conses.Live()) && d !in b.heap ==> !d.Marked()
      ensures closures.Valid()
    {
      hide Fits, Has, GcBlocks.Flat, GcBlocks.Blocks, GcConses.Threaded, GcConses.AllPairs, Distinct, Subset, Spines,
           InOrder, GcClosures.Threaded, GcClosures.Sorted, Shapes, MarkedSet, Pooled, Owned, Spine;
      GuardianHas(b, g);
      HeapFacts(b);
      PoolFacts(b);
      InEach(l);
      ghost var free0, pool: object, other: object := conses.free, conses, closures;
      assert forall d :: d in b.heap ==> d !in free0 && d as object != pool;
      assert forall i :: 0 <= i < |closures.cells| ==>
        closures.cells[i] !in free0 && closures.cells[i] as object != pool && closures.cells[i] != g;
      assert forall i :: 0 <= i < |closures.free| ==> closures.free[i] in closures.cells;
      label before:
      ghost var more := GcHistory.Push(g, v, conses, nil, l);
      c := more.acc[0];
      LiveFacts(conses.cells, conses.free, c);
      assert old@before(closures.Valid());
      assert closures.Valid();
    }

    ghost function PushBook(b: Book, g: Cell, c: Cell, v: Value): Book
      requires g in b.history
    {
      Book(b.perm, b.heap + {c}, b.lists[g := PushLists(ListsOf(b.lists, g), c)], b.obj[c := v],
           b.history[g := b.history[g] + [GcHistory.Pushed(v)]], b.contents)
    }

    /** A push, and what is then known. */
    method PushCell(g: Cell, v: Value, ghost b: Book) returns (ghost c: Cell)
      requires Fits(b) && g in guardians && v.Ref? && v.cell in b.heap && v.cell !in Spines(guardians, b.lists)
      modifies g`cdr, conses, conses.free
      ensures g in b.history && c !in b.heap && Fits(PushBook(b, g, c, v))
      ensures forall d :: d in b.heap && d != g ==>
        d.car == old(d.car) && d.cdr == old(d.cdr) && d.slots == old(d.slots)
    {
      hide Fits, World, Places, GcBlocks.Flat, GcBlocks.Blocks, GcConses.Threaded, GcConses.AllPairs, Distinct, Subset,
           Spines, InOrder, GcClosures.Threaded, GcClosures.Sorted, Pooled, Owned, Spine, PushLists, PushShapes, Shapes,
           MarkedSet, InUse, ListsOf, Listed, Separate, Follows, GcConses.ConsPool.Valid, GcClosures.ClosurePool.Valid,
           GcConses.ConsPool.Live, GcClosures.ClosurePool.Live;
      Apart(b);
      ghost var l, g0 := ListsOf(b.lists, g), Shapes(b.heap);
      ghost var cells0, live0 := conses.cells, conses.Live();
      GuardianHas(b, g);
      HeapFacts(b);
      PoolFacts(b);
      OrderFacts(g0, b.perm, guardians, b.lists, b.obj, nil);
      c := RawPush(g, v, b, l);
      PushedWorld(g0, b.heap, b.perm, guardians, b.lists, b.obj, nil, g, c, v);
      PushedRecorded(guardians, b.lists, b.obj, nil, b.heap, b.history, g, c, v);
      PushedSpines(guardians, b.lists, g, c);
      PushedPlaces(g0, b.perm, guardians, b.lists, objects, cells0, closures.cells, b.obj, nil, g, c, v, conses.cells);
      ghost var b1 := PushBook(b, g, c, v);
      PoolsMore(conses, closures, guardians, b.lists, b1.lists, b.heap, b1.heap, cells0, live0, c);
      Parts(b1);
    }

    /** Fprimitive_guardian_push, anywhere in the program's life. */
    method Push(g: Cell, v: Value)
      requires Valid() && g in guardians && Known(v)
      modifies this`book, g`cdr, conses, conses.free
      ensures Valid() && g in old(book.history)
      ensures v.Ref? ==> exists c :: c !in old(book.heap) && book == PushBook(old(book), g, c, v)
      ensures !v.Ref? ==> book == old(book)
      ensures forall d :: d in old(book.heap) && d != g ==>
        d.car == old(d.car) && d.cdr == old(d.cdr) && d.slots == old(d.slots)
    {
      hide Fits, InOrder, Shapes, Faithful, Spines, Spine, ListsOf, PushLists, Places, Recorded;
      Apart(book);
      HeapFacts(book);
      HistoryOf(book, g);
      ghost var g0, b := Shapes(book.heap), book;
      if v.Ref? {
        label before:
        ghost var c := PushCell(g, v, b);
        assert forall d :: d in b.heap && d != g ==> d.Shape() == old@before(d.Shape());
        ShapesAre(b.heap + {c});
        PushedFaithful(g0, Shapes(b.heap + {c}), guardians, b.lists, g, c, b.contents);
        book := PushBook(b, g, c, v);
      }
    }

    /** A cell holds what the program last put into it. */
    ghost predicate Holds(c: Cell)
      reads this`book, c
    {
      c in book.contents && c.Shape() == book.contents[c]
    }

    lemma Holding(c: Cell)
      requires Valid() && c in book.heap && c !in guardians && c !in Spines(guardians, book.lists)
      ensures Holds(c)
    {
      hide Fits, Spines;
      ShapesAre(book.heap);
    }

    lemma HistoryOf(b: Book, g: Cell)
      requires Fits(b) && g in guardians
      ensures g in b.history
    {
      hide World, Pools, Places, Follows;
    }

    // ----- Popping -----

    ghost function PopBook(b: Book, g: Cell): Book
      requires g in b.history
    {
      Book(b.perm, PopHeap(b.heap, ListsOf(b.lists, g)), PopListsIn(b.lists, g), b.obj,
        b.history[g := b.history[g] + [GcHistory.Popped]], b.contents)
    }

    /** A pop, and what is then known. */
    method PopCell(g: Cell, ghost b: Book) returns (ret: Value)
      requires Fits(b) && g in guardians
      modifies g`slots
      ensures g in b.history && Fits(PopBook(b, g))
      ensures var l := ListsOf(b.lists, g); ret == if l.inacc == [] then nil else Obj(b.obj, l.inacc[0])
    {
      hide Fits, World, Places, GcBlocks.Flat, GcBlocks.Blocks, GcConses.Threaded, GcConses.AllPairs, Distinct, Subset,
           Spines, InOrder, PopHeap, GcClosures.Threaded, GcClosures.Sorted, Pooled, Owned, Spine, PopLists, PopListsIn,
           Shapes, MarkedSet, InUse, ListsOf, Listed, Separate, Follows, GcConses.ConsPool.Valid,
           GcClosures.ClosurePool.Valid, GcConses.ConsPool.Live, GcClosures.ClosurePool.Live, Has;
      Apart(b);
      ghost var l, g0 := ListsOf(b.lists, g), Shapes(b.heap);
      GuardianHas(b, g);
      HeapFacts(b);
      PoolFacts(b);
      InEach(l);
      PopIn(b.lists, g);
      ghost var cells, free, places := conses.cells, conses.free, Places(g0, b.perm, guardians, b.lists, objects,
        conses.cells, closures.cells);
      assert forall i :: 0 <= i < |cells| ==> cells[i] != g;
      assert forall i :: 0 <= i < |free| ==> free[i] in cells;
      assert forall i :: 0 <= i < |closures.cells| ==> closures.cells[i] != g;
      assert forall i :: 0 <= i < |closures.free| ==> closures.free[i] in closures.cells;
      label before:
      ghost var less;
      ret, less := GcHistory.Pop(g, nil, l);
      assert old@before(conses.Valid()) && old@before(closures.Valid());
      assert conses.Valid() && closures.Valid();
      assert forall d :: d in b.heap && d != g ==>
        d.car == old@before(d.car) && d.cdr == old@before(d.cdr) && d.slots == old@before(d.slots);
      PoppedFits(b, g, g0);
    }

    lemma PoppedFits(b: Book, g: Cell, g0: map<Cell, Shape>)
      requires g in guardians && InOrder(g0, b.perm, guardians, b.lists, b.obj, nil) && g0.Keys == b.heap &&
        b.perm <= b.heap && g in b.heap
      requires forall x :: x in guardians ==> x !in b.perm
      requires forall d :: d in b.heap && d != g ==> d.Shape() == g0[d] && (d.Marked() <==> d in b.perm) && d.Proper()
      requires g.car.Header? && g.car.kind.Guardian? && !g.car.mark && g.cdr.Pointer? &&
        g.cdr.v == After(ListsOf(b.lists, g).acc, -1, nil)
      requires g.slots == [After(ListsOf(PopListsIn(b.lists, g), g).inacc, -1, nil)]
      requires conses.Valid() && closures.Valid() && Owned(conses.cells, conses.Live(), guardians, b.heap)
      requires Pooled(closures.cells, closures.Live(), guardians, b.heap)
      requires forall c :: c in conses.cells && c !in b.heap ==> !c.Marked()
      requires forall c :: c in conses.cells ==> c !in closures.cells
      requires forall c :: c in closures.cells ==> c !in Spines(guardians, b.lists)
      requires Places(g0, b.perm, guardians, b.lists, objects, conses.cells, closures.cells)
      requires Recorded(guardians, b.lists, b.obj, b.history)
      ensures g in b.history && Fits(PopBook(b, g))
    {
      hide World, InOrder, Places, Owned, Pooled, Spines, Spine, PopListsIn, Shapes, MarkedSet, GcConses.ConsPool.Valid,
           GcClosures.ClosurePool.Valid, Follows, GcConses.ConsPool.Live, GcClosures.ClosurePool.Live, Fits, Listed,
           ListsOf;
      var b1 := PopBook(b, g);
      PoppedWorld(g0, b.heap, b.perm, guardians, b.lists, b.obj, nil, g);
      PoppedRecorded(guardians, b.lists, b.obj, b.history, g);
      PoppedSpines(guardians, b.lists, g);
      PoppedPair(g0, b.perm, guardians, b.lists, b.obj, nil, g, objects, conses.cells, closures.cells, b.heap);
      PoppedPools(conses, closures, guardians, b.lists, b1.lists, b.heap, b1.heap);
      PoppedPlaces(g0, Shapes(b1.heap), b.perm, guardians, b.lists, objects, conses.cells, closures.cells, g);
      Parts(b1);
    }

    /** Fprimitive_guardian_pop: reports the object that the guardian's history says is next.  It is still
        in the heap, with all that it refers to, and holds what the program last put into it. */
    method Pop(g: Cell) returns (ret: Value)
      requires Valid() && g in guardians
      modifies this`book, g`slots
      ensures Valid() && g in old(book.history) && book == PopBook(old(book), g)
      ensures var waiting, popped := GcHistory.Run(old(book.history)[g]).inacc, GcHistory.Run(book.history[g]).popped;
        if waiting == [] then ret == nil
        else ret == waiting[0] && popped == GcHistory.Run(old(book.history)[g]).popped + [ret] && ret.Ref? && Known(ret)
      ensures GcHistory.Run(old(book.history)[g]).inacc != [] ==> ret.cell in guardians || Holds(ret.cell)
    {
      hide Fits, InOrder, Shapes, Faithful, Spines, Spine, ListsOf, PopHeap, PopListsIn, GcHistory.Run, Follows;
      ghost var b, g0 := book, Shapes(book.heap);
      HeapFacts(b);
      PopTells(b, g);
      label before:
      ret := PopCell(g, b);
      assert forall d :: d in b.heap && d != g ==> d.Shape() == old@before(d.Shape());
      PopShrinks(b.heap, ListsOf(b.lists, g));
      ShapesAre(PopHeap(b.heap, ListsOf(b.lists, g)));
      PoppedFaithful(g0, Shapes(PopHeap(b.heap, ListsOf(b.lists, g))), guardians, b.lists, g, b.contents);
      book := PopBook(b, g);
      if GcHistory.Run(b.history[g]).inacc != [] && ret.cell !in guardians { Holding(ret.cell); }
    }

    lemma PopTells(b: Book, g: Cell)
      requires Fits(b) && g in guardians
      ensures g in b.history && Follows(ListsOf(b.lists, g), b.obj, b.history[g])
      ensures var l, waiting := ListsOf(b.lists, g), GcHistory.Run(b.history[g]).inacc;
        |waiting| == |l.inacc| &&
        (waiting != [] ==>
          var v, b1 := waiting[0], PopBook(b, g);
          v == Obj(b.obj, l.inacc[0]) && v.Ref? && v.cell in b1.heap && v.cell !in Spines(guardians, b1.lists) &&
          GcHistory.Run(b1.history[g]).popped == GcHistory.Run(b.history[g]).popped + [v])
    {
      hide World, Pools, Places, Spines, Spine, InOrder, GcHistory.Run, ListsOf;
      var l := ListsOf(b.lists, g);
      HeapFacts(b);
      OrderFacts(Shapes(b.heap), b.perm, guardians, b.lists, b.obj, nil);
      if l.inacc != [] {
        InaccSpine(l, 0);
        ObjApart(g, l.inacc[0], guardians, b.lists, b.obj, nil, b.heap);
        PoppedSpines(guardians, b.lists, g);
        FollowsPop(l, b.obj, b.history[g]);
      }
    }

    // ----- Collecting -----

    /** The sweeps of guardians and of all other objects. */
    method SweepObjects(ghost b: Book, ghost kept: set<Cell>, ghost shapes: map<Cell, Shape>)
      requires Distinct(guardians) && Distinct(objects) && shapes.Keys == b.heap
      requires forall c :: c in guardians || c in objects ==>
        c in b.heap && shapes[c].Object? && c !in conses.cells && c !in closures.cells
      requires forall c :: c in objects ==> c !in guardians
      requires forall c :: c in b.heap && c !in conses.cells && c !in closures.cells ==>
        c.Proper() && c.Shape() == shapes[c] && (c.Marked() <==> c in kept)
      requires conses.Valid() && closures.Valid() && (forall c :: c in closures.free ==> c in closures.cells) &&
        forall c :: c in conses.free ==> c in conses.cells
      modifies this`guardians, this`objects, (set c | c in guardians)`car, (set c | c in objects)`car
      ensures guardians == Surviving(old(guardians), kept) && objects == Surviving(old(objects), kept)
      ensures forall c :: c in b.heap && c !in conses.cells && c !in closures.cells ==>
        c.Proper() && c.Shape() == shapes[c] &&
          (if c in old(guardians) || c in old(objects) then c in kept ==> !c.Marked() else c.Marked() <==> c in kept)
      ensures conses.Valid() && closures.Valid()
    {
      hide Surviving, Distinct, GcConses.ConsPool.Valid, GcClosures.ClosurePool.Valid;
      assert forall i :: 0 <= i < |conses.cells| ==> conses.cells[i] !in guardians && conses.cells[i] !in objects;
      assert forall i :: 0 <= i < |conses.free| ==> conses.free[i] in conses.cells;
      assert forall i :: 0 <= i < |closures.cells| ==> closures.cells[i] !in guardians && closures.cells[i] !in objects;
      assert forall i :: 0 <= i < |closures.free| ==> closures.free[i] in closures.cells;
      label before:
      var left := SweepList(guardians, kept);
      var rest := SweepList(objects, kept);
      assert old@before(conses.Valid()) && old@before(closures.Valid());
      assert conses.Valid() && closures.Valid();
      guardians, objects := left, rest;
    }

    ghost function CollectBook(b: Book, all: seq<Cell>, shapes: map<Cell, Shape>, kept: set<Cell>, m: set<Cell>): Book
    {
      Book(b.perm, NextHeap(shapes, all, b.lists, kept), NextLists(all, b.lists, b.obj, m), b.obj,
           NextHistory(all, b.history, m), b.contents)
    }

    /** What a collection starts from. */
    lemma CollectFacts(b: Book)
      requires Fits(b)
      ensures World(guardians, b.lists, b.obj, nil, b.heap) && Pools(conses, closures, guardians, b.lists, b.heap) &&
        MarkedSet(b.heap) == b.perm
      ensures var g0 := Shapes(b.heap);
        g0.Keys == b.heap && InOrder(g0, b.perm, guardians, b.lists, b.obj, nil) && b.perm <= b.heap &&
        Places(g0, b.perm, guardians, b.lists, objects, conses.cells, closures.cells) &&
          Recorded(guardians, b.lists, b.obj, b.history) &&
        (forall c :: c in conses.cells ==> c !in guardians && c !in closures.cells && (c in g0 ==> g0[c].Pair?)) &&
        (forall c :: c in closures.cells ==>
          c !in guardians && c !in Spines(guardians, b.lists) && (c in g0 ==> g0[c].Object? && g0[c].kind.Closure?))
      ensures forall g :: g in guardians ==> g !in b.perm
      ensures Distinct(guardians)
    {
      hide InOrder, Spines, Wf, Listed, Private, Closed, Shapes, MarkedSet, GcConses.ConsPool.Valid,
           GcClosures.ClosurePool.Valid, InUse, Recorded, Follows;
      HeapFacts(b);
      PoolFacts(b);
      PoolShapes(conses, closures, guardians, b.lists, b.heap);
    }

    /** When the sweeps are done the next heap is unmarked and has its contents. */
    lemma SweptHeap(b: Book, g0: map<Cell, Shape>, all: seq<Cell>, objects0: seq<Cell>, shapes: map<Cell, Shape>,
                    kept: set<Cell>, m: set<Cell>)
      requires Places(g0, b.perm, all, b.lists, objects0, conses.cells, closures.cells) &&
        After1(g0, shapes, b.perm, kept, m, all, b.lists, b.obj, nil)
      requires forall c :: c in kept ==> c in b.perm || (c in shapes && Markable(shapes[c]))
      requires shapes.Keys == b.heap && g0.Keys == b.heap
      requires conses.Valid() && closures.Valid()
      requires conses.Live() == (set c | c in conses.cells && c in kept) &&
        closures.Live() == set c | c in closures.cells && c in kept
      requires forall c :: c in conses.Live() || c in closures.Live() ==>
        !c.Marked() && c in shapes && c.Shape() == shapes[c]
      requires forall c :: c in conses.cells && c in g0 ==> g0[c].Pair?
      requires forall c :: c in closures.cells && c in g0 ==> g0[c].Object? && g0[c].kind.Closure?
      requires forall c :: c in b.heap && c !in conses.cells && c !in closures.cells ==>
        c.Proper() && c.Shape() == shapes[c] &&
          (if c in all || c in objects0 then c in kept ==> !c.Marked() else c.Marked() <==> c in kept)
      ensures forall c :: c in NextHeap(shapes, all, b.lists, kept) ==>
        c.Proper() && c.Shape() == shapes[c] && (c.Marked() <==> c in b.perm)
    {
      hide InOrder, Wf, ClosedButLost, Intact, Spines, DeadPairs, Rearranged, GcBlocks.Flat, GcBlocks.Blocks,
           GcConses.Threaded, Distinct, Subset, InUse, GcClosures.Threaded, GcClosures.Sorted;
      KeptPlaces(g0, shapes, b.perm, kept, m, all, b.lists, objects0, conses.cells, closures.cells, b.obj, nil);
      forall c | c in NextHeap(shapes, all, b.lists, kept)
        ensures c.Proper() && c.Shape() == shapes[c] && (c.Marked() <==> c in b.perm)
      {
        if c in conses.cells {
          assert Markable(g0[c]) && c in conses.Live();
          ConsProper(conses, c);
        } else if c in closures.cells {
          assert Markable(g0[c]) && c in closures.Live();
          ClosureProper(closures, c);
        }
      }
    }

    /** The memory after a collection that tore no list of a guardian that stays. */
    lemma CollectedFits(b: Book, g0: map<Cell, Shape>, all: seq<Cell>, objects0: seq<Cell>, shapes: map<Cell, Shape>,
                        kept: set<Cell>, changed: seq<Value>,
                        roots: seq<Value>)
      requires InOrder(g0, b.perm, all, b.lists, b.obj, nil) && b.perm <= g0.Keys &&
        (forall g :: g in all ==> g !in b.perm)
      requires Collected(g0, b.perm, roots, kept, changed, shapes, all, b.lists, b.obj, nil) && Wf(shapes)
      requires StayWhole(all, b.lists, b.obj, MarksOf(g0, b.perm, roots), kept)
      requires Places(g0, b.perm, all, b.lists, objects0, conses.cells, closures.cells) &&
        Recorded(all, b.lists, b.obj, b.history)
      requires shapes.Keys == b.heap && g0.Keys == b.heap && kept <= b.heap
      requires conses.Valid() && closures.Valid()
      requires conses.Live() == (set c | c in conses.cells && c in kept) &&
        closures.Live() == set c | c in closures.cells && c in kept
      requires forall c :: c in conses.Live() || c in closures.Live() ==>
        !c.Marked() && c in shapes && c.Shape() == shapes[c]
      requires forall c :: c in conses.cells ==> c !in all && c !in closures.cells && (c in g0 ==> g0[c].Pair?)
      requires forall c :: c in closures.cells ==>
        c !in all && c !in Spines(all, b.lists) && (c in g0 ==> g0[c].Object? && g0[c].kind.Closure?)
      requires forall c :: c in b.heap && c !in conses.cells && c !in closures.cells ==>
        c.Proper() && c.Shape() == shapes[c] &&
          (if c in all || c in objects0 then c in kept ==> !c.Marked() else c.Marked() <==> c in kept)
      requires guardians == Surviving(all, kept) && objects == Surviving(objects0, kept)
      ensures Fits(CollectBook(b, all, shapes, kept, MarksOf(g0, b.perm, roots)))
      ensures Shapes(NextHeap(shapes, all, b.lists, kept)) == NextShapes(shapes, all, b.lists, kept)
      ensures SameElsewhere(g0, shapes, all, b.lists)
    {
      hide InOrder, Wf, After1, World, Places, Recorded, Surviving, NextLists, NextHeap, NextShapes, NextHistory,
           Spines, StayWhole, Fits, Pools, Rearranged, ClosedButLost, Closed, NoneTorn, Accessible, Reach, MarkableOf,
           MovedObjects, Lost, Intact, Torn, Run1, GcConses.ConsPool.Valid, GcClosures.ClosurePool.Valid,
           GcConses.ConsPool.Live, GcClosures.ClosurePool.Live, Shapes, MarkedSet, MarksOf;
      var m := MarksOf(g0, b.perm, roots);
      CollectedNext(g0, shapes, b.perm, roots, kept, changed, all, b.lists, b.obj, nil);
      SweptHeap(b, g0, all, objects0, shapes, kept, m);
      PermNext(g0, shapes, b.perm, kept, m, all, b.lists, b.obj, nil);
      NextWorld(g0, shapes, b.perm, kept, all, guardians, b.lists, NextLists(all, b.lists, b.obj, m), b.obj, nil);
      NextPlaces(g0, shapes, b.perm, kept, m, all, b.lists, objects0, conses.cells, closures.cells, b.obj, nil);
      NextSpines(all, b.lists, b.obj, m, kept);
      StaysIn(g0, shapes, b.perm, all, b.lists, b.obj, nil, m, kept);
      PoolsNext(conses, closures, all, guardians, b.lists, NextLists(all, b.lists, b.obj, m), g0, shapes, kept);
      OrderFacts(g0, b.perm, all, b.lists, b.obj, nil);
      NextRecorded(all, b.lists, b.obj, nil, b.heap, b.history, m, kept);
      Parts(CollectBook(b, all, shapes, kept, m));
    }

    /** Fgarbage_collect, anywhere in the program's life.  `m` is what it finds reachable; each guardian
        that stays reports accordingly, and the memory is in order again unless one of them was torn. */
    method Collect(r: Roots)
      returns (ghost kept: set<Cell>, ghost changed: seq<Value>, ghost shapes: map<Cell, Shape>)
      requires Valid() && forall v :: v in RootValues(r) ==> Known(v)
      modifies this`book, this`guardians, this`objects, book.heap, conses, closures, conses.cells, closures.cells
      ensures var b := old(book);
        Collected(old(Shapes(book.heap)), b.perm, RootValues(r), kept, changed, shapes, old(guardians), b.lists, b.obj,
                  nil)
      ensures guardians == Surviving(old(guardians), kept)
      ensures forall g :: g in old(guardians) && Ref(g) in RootValues(r) ==> g in guardians
      ensures var b, m := old(book), MarksOf(old(Shapes(book.heap)), old(book.perm), RootValues(r));
        StayWhole(old(guardians), b.lists, b.obj, m, kept) ==>
          Valid() && book == CollectBook(b, old(guardians), shapes, kept, m) &&
          forall v :: v in RootValues(r) ==> Known(v)
    {
      hide InOrder, Wf, World, Places, Recorded, Surviving, Spines, StayWhole, Fits, Pools, Collected, Owned, Pooled,
           Distinct, Shapes, MarkedSet, GcConses.ConsPool.Valid, GcClosures.ClosurePool.Valid, GcConses.ConsPool.Live,
           GcClosures.ClosurePool.Live, RootValues, MarksOf, Faithful, NextHeap, NextLists, SameElsewhere;
      ghost var b, g0, all, objects0 := book, Shapes(book.heap), guardians, objects;
      CollectFacts(b);
      kept, changed, shapes := GcCollect.Collect(r, nil, guardians, conses, closures, b.lists, b.obj, b.heap);
      SweptKinds(g0, shapes, b.perm, kept, changed, RootValues(r), all, b.lists, objects0, conses.cells,
        closures.cells, b.obj, nil);
      ClosureFree(closures);
      ConsFree(conses);
      SweepObjects(b, kept, shapes);
      CollectedParts(g0, b.perm, RootValues(r), kept, changed, shapes, all, b.lists, b.obj, nil);
      forall v | v in RootValues(r) && v.Ref?
        ensures v.cell in NextHeap(shapes, all, b.lists, kept) && (v.cell in all ==> v.cell in guardians)
        ensures v.cell !in Spines(guardians, NextLists(all, b.lists, b.obj, MarksOf(g0, b.perm, RootValues(r))))
      {
        RootsStay(g0, shapes, b.perm, RootValues(r), all, b.lists, b.obj, MarksOf(g0, b.perm, RootValues(r)), kept, v);
        SurvivingIn(all, kept, v.cell);
      }
      if StayWhole(all, b.lists, b.obj, MarksOf(g0, b.perm, RootValues(r)), kept) {
        CollectedFits(b, g0, all, objects0, shapes, kept, changed, RootValues(r));
        NextFaithful(g0, shapes, all, b.lists, b.obj, MarksOf(g0, b.perm, RootValues(r)), kept, b.contents);
        book := CollectBook(b, all, shapes, kept, MarksOf(g0, b.perm, RootValues(r)));
      }
    }

    /** Between operations no reference dangles: what a field of a cell refers to is a cell of the heap, and a
        pair or closure in use if it belongs to a pool. */
    lemma NothingDangles(c: Cell, v: Value)
      requires Valid() && c in book.heap && Field(c, v) && v.Ref?
      ensures v.cell in book.heap
      ensures v.cell in conses.cells ==> v.cell in conses.Live()
      ensures v.cell in closures.cells ==> v.cell in closures.Live()
    {
      hide GcConses.ConsPool.Valid, GcClosures.ClosurePool.Valid, GcConses.ConsPool.Live, GcClosures.ClosurePool.Live,
           Places, Recorded, Separate, Listed, Private, Distinct, Settled, Closed, Spines, Faithful;
      FieldsAre(c, v);
      assert Shapes(book.heap)[c] == c.Shape() && v in Kids(c.Shape());
    }

    lemma CollectedParts(g0: map<Cell, Shape>, perm: set<Cell>, roots: seq<Value>, kept: set<Cell>,
                         changed: seq<Value>, shapes: map<Cell, Shape>, all: seq<Cell>, lists: map<Cell, Lists>,
                         obj: map<Cell, Value>, nil: Value)
      requires Collected(g0, perm, roots, kept, changed, shapes, all, lists, obj, nil)
      ensures SameElsewhere(g0, shapes, all, lists) && MarksOf(g0, perm, roots) <= kept
      ensures forall x :: x in all ==> x in g0 && Markable(g0[x])
    {
      hide Separate, Private, PrivateMarks, Closed, Distinct, Spines, ShapeList, RunLists, SameElsewhere, ClosedButLost,
           Intact, Torn, Lost, NoneTorn;
    }

    // ----- Allocating -----

    ghost function NewBook(b: Book, g: Cell): Book
    {
      Book(b.perm, b.heap + {g}, b.lists[g := Lists([], [])], b.obj, b.history[g := []], b.contents)
    }

    lemma NewFits(b: Book, g0: map<Cell, Shape>, all: seq<Cell>, g: Cell)
      requires InOrder(g0, b.perm, all, b.lists, b.obj, nil) && g0.Keys == b.heap && b.perm <= b.heap &&
        g !in b.heap && guardians == [g] + all
      requires forall d :: d in b.heap ==> d.Shape() == g0[d] && (d.Marked() <==> d in b.perm) && d.Proper()
      requires g.Shape() == Object(Guardian, [nil], nil) && g.Proper() && !g.Marked()
      requires conses.Valid() && closures.Valid() && Owned(conses.cells, conses.Live(), all, b.heap)
      requires Pooled(closures.cells, closures.Live(), all, b.heap)
      requires forall c :: c in conses.cells && c !in b.heap ==> !c.Marked()
      requires forall c :: c in conses.cells ==> c !in closures.cells
      requires forall c :: c in closures.cells ==> c !in Spines(all, b.lists)
      requires g !in conses.cells && g !in closures.cells && g !in all
      requires Places(g0, b.perm, all, b.lists, objects, conses.cells, closures.cells) &&
        Recorded(all, b.lists, b.obj, b.history)
      ensures Fits(NewBook(b, g))
    {
      hide World, InOrder, Places, Owned, Pooled, Spines, Shapes, MarkedSet, GcConses.ConsPool.Valid,
           GcClosures.ClosurePool.Valid, Follows, GcConses.ConsPool.Live, GcClosures.ClosurePool.Live, Fits, ListsOf;
      var s := Object(Guardian, [nil], nil);
      NewGuardianInOrder(g0, b.perm, all, b.lists, b.obj, nil, g);
      AddedWorld(g0, b.heap, b.perm, all, b.lists, b.obj, nil, g0[g := s], guardians, NewBook(b, g).lists, g);
      NewRecorded(all, b.lists, b.obj, b.history, g);
      NewPlaces(g0, s, b.perm, all, b.lists, objects, conses.cells, closures.cells, g);
      NewPools(conses, closures, all, b.lists, b.heap, g);
      Parts(NewBook(b, g));
    }

    /** Fmake_primitive_guardian */
    method MakeGuardian() returns (g: Cell)
      requires Valid()
      modifies this`book, this`guardians
      ensures Valid() && fresh(g) && guardians == [g] + old(guardians) && book == NewBook(old(book), g)
    {
      hide Fits, World, Places, Recorded, Pools, Spines, InOrder, Shapes, MarkedSet, Owned, Pooled, Faithful,
           GcConses.ConsPool.Valid, GcClosures.ClosurePool.Valid, GcConses.ConsPool.Live, GcClosures.ClosurePool.Live;
      ghost var b, g0, all := book, Shapes(book.heap), guardians;
      Apart(b);
      HeapFacts(b);
      PoolFacts(b);
      g := new Cell(Header(Guardian, false), Pointer(nil, false), [nil]);
      guardians := [g] + guardians;
      NewFits(b, g0, all, g);
      NewFaithful(g0, g, g.Shape(), all, b.lists, b.contents);
      ShapesMore(b.heap, g0, g);
      book := NewBook(b, g);
    }

    ghost function PairBook(b: Book, c: Cell, s: Shape): Book
    {
      b.(heap := b.heap + {c}, contents := b.contents[c := s])
    }

    /** Taking a pair from the pool, and all that this leaves alone. */
    method RawCons(v: Value, w: Value, ghost b: Book) returns (c: Cell)
      requires Fits(b)
      modifies conses, conses.free
      ensures c !in b.heap && c !in closures.cells && c in conses.cells
      ensures c.Shape() == Pair(v, w) && !c.Marked() && c.Proper()
      ensures forall d :: d in b.heap ==> d.car == old(d.car) && d.cdr == old(d.cdr) && d.slots == old(d.slots)
      ensures conses.Valid() && conses.Live() == old(conses.Live()) + {c}
      ensures forall d :: d in old(conses.cells) ==> d in conses.cells
      ensures forall d :: d in conses.cells && d !in old(conses.cells) ==> d !in b.heap && d !in closures.cells
      ensures forall d :: d in old(conses.Live()) && d !in b.heap ==> !d.Marked()
      ensures closures.Valid()
    {
      hide Fits, Has, GcBlocks.Flat, GcBlocks.Blocks, GcConses.Threaded, GcConses.AllPairs, Distinct, Subset, Spines,
           InOrder, GcClosures.Threaded, GcClosures.Sorted, Shapes, MarkedSet, Pooled, Owned, Spine;
      HeapFacts(b);
      PoolFacts(b);
      ghost var free0, pool: object := conses.free, conses;
      assert forall d :: d in b.heap ==> d !in free0 && d as object != pool;
      assert forall i :: 0 <= i < |closures.cells| ==>
        closures.cells[i] !in free0 && closures.cells[i] as object != pool;
      assert forall i :: 0 <= i < |closures.free| ==> closures.free[i] in closures.cells;
      label before:
      c := conses.Cons(v, w);
      LiveFacts(conses.cells, conses.free, c);
      assert old@before(closures.Valid());
      assert closures.Valid();
    }

    /** Fcons, anywhere in the program's life. */
    method MakePair(v: Value, w: Value) returns (c: Cell)
      requires Valid() && Known(v) && Known(w)
      modifies this`book, conses, conses.free
      ensures Valid() && c !in old(book.heap) &&
        book == PairBook(old(book), c, Pair(v, w)) && Known(Ref(c)) && c.Shape() == Pair(v, w)
    {
      hide Fits, World, Places, Recorded, Pools, Spines, InOrder, Shapes, MarkedSet, Owned, Pooled,
           GcConses.ConsPool.Valid, GcClosures.ClosurePool.Valid, GcConses.ConsPool.Live, GcClosures.ClosurePool.Live,
           Listed, Separate, Faithful;
      ghost var b, g0 := book, Shapes(book.heap);
      ghost var cells0, live0 := conses.cells, conses.Live();
      Apart(b);
      HeapFacts(b);
      PoolFacts(b);
      OrderFacts(g0, b.perm, guardians, b.lists, b.obj, nil);
      NotInSpines(g0, guardians, b.lists, b.obj, nil);
      c := RawCons(v, w, b);
      AddInOrder(g0, b.perm, guardians, b.lists, b.obj, nil, c, Pair(v, w));
      AddedWorld(g0, b.heap, b.perm, guardians, b.lists, b.obj, nil, g0[c := Pair(v, w)], guardians, b.lists, c);
      AddedPlaces(g0, Pair(v, w), b.perm, guardians, b.lists, objects, cells0, closures.cells, c, conses.cells);
      PoolsMore(conses, closures, guardians, b.lists, b.lists, b.heap, b.heap + {c}, cells0, live0, c);
      Parts(PairBook(b, c, Pair(v, w)));
      AddedFaithful(g0, c, Pair(v, w), guardians, b.lists, b.contents);
      book := PairBook(b, c, Pair(v, w));
    }

    // ----- Assigning -----

    ghost function SetBook(b: Book, c: Cell, s: Shape): Book
    {
      b.(contents := b.contents[c := s])
    }

    /** What an assignment to a pair of the program's starts from. */
    lemma AssignFacts(b: Book, c: Cell)
      requires Fits(b) && c in conses.cells && c in b.heap
      ensures c.IsPair() && c.Proper() && !c.Marked() && c !in b.perm && c !in guardians && c !in conses.free
      ensures forall i :: 0 <= i < |conses.free| ==> conses.free[i] != c
      ensures forall i :: 0 <= i < |closures.cells| ==> closures.cells[i] != c
      ensures forall i :: 0 <= i < |closures.free| ==> closures.free[i] != c
    {
      hide World, Pools, Recorded, InOrder, GcBlocks.Flat, GcBlocks.Blocks, GcConses.Threaded, Distinct, Spines, Shapes,
           Owned, Pooled, InUse, GcClosures.ClosurePool.Valid;
      Apart(b);
      HeapFacts(b);
      PoolFacts(b);
      assert GcConses.AllPairs(conses.cells);
    }

    /** The memory after the assignment. */
    lemma Assigned(b: Book, g0: map<Cell, Shape>, c: Cell, s: Shape)
      requires InOrder(g0, b.perm, guardians, b.lists, b.obj, nil) && g0.Keys == b.heap && b.perm <= b.heap
      requires c in b.heap && c in conses.cells && c !in b.perm && c !in guardians && c !in Spines(guardians, b.lists)
      requires g0[c].Pair? && s.Pair? && c.Shape() == s && c.Proper() && !c.Marked()
      requires forall v :: v in Kids(s) ==> Storable(g0, guardians, b.lists, v)
      requires forall d :: d in b.heap && d != c ==> d.Shape() == g0[d] && (d.Marked() <==> d in b.perm) && d.Proper()
      requires Pools(conses, closures, guardians, b.lists, b.heap)
      requires Places(g0, b.perm, guardians, b.lists, objects, conses.cells, closures.cells)
      requires Recorded(guardians, b.lists, b.obj, b.history)
      requires Faithful(g0, guardians, b.lists, b.contents)
      ensures Fits(SetBook(b, c, s)) && Faithful(Shapes(b.heap), guardians, b.lists, SetBook(b, c, s).contents)
    {
      hide World, InOrder, Places, Recorded, Pools, Spines, Shapes, MarkedSet, Fits, Faithful;
      SetInOrder(g0, b.perm, guardians, b.lists, b.obj, nil, c, s);
      SetWorld(g0, b.heap, b.perm, guardians, b.lists, b.obj, nil, c, s);
      SetPlaces(g0, s, b.perm, guardians, b.lists, objects, conses.cells, closures.cells, c);
      AddedFaithful(g0, c, s, guardians, b.lists, b.contents);
      Parts(SetBook(b, c, s));
    }

    lemma Storing(b: Book, g0: map<Cell, Shape>, c: Cell, v: Value)
      requires Fits(b) && c in conses.cells && c in b.heap && c !in Spines(guardians, b.lists) && g0 == Shapes(b.heap)
      requires v.Ref? ==> v.cell in b.heap && v.cell !in Spines(guardians, b.lists)
      ensures Storable(g0, guardians, b.lists, v) && g0[c].Pair? && c.car.Pointer? && c.cdr.Pointer?
      ensures Storable(g0, guardians, b.lists, c.car.v) && Storable(g0, guardians, b.lists, c.cdr.v)
      ensures GcConses.AllPairs(conses.cells) && conses.Shaped() &&
        GcConses.Threaded(conses.freeList, conses.free) && conses.used + |conses.free| == conses.total
      ensures closures.Valid() && PoolRest(b)
    {
      hide World, Recorded, GcBlocks.Flat, GcBlocks.Blocks, GcConses.Threaded, Distinct, Spines, Owned, Pooled, InUse,
           GcClosures.ClosurePool.Valid, Separate, Listed, Closed, Settled, Places;
      HeapFacts(b);
      AssignFacts(b, c);
      assert g0[c] == Pair(c.car.v, c.cdr.v);
      assert c.car.v in Kids(g0[c]) && c.cdr.v in Kids(g0[c]);
    }

    /** What the pools promise besides being valid. */
    ghost predicate PoolRest(b: Book)
      reads this`guardians, conses, closures, conses.cells
    {
      && Owned(conses.cells, conses.Live(), guardians, b.heap) &&
        Pooled(closures.cells, closures.Live(), guardians, b.heap)
      && (forall c :: c in conses.cells && c !in b.heap ==> !c.Marked())
      && (forall c :: c in conses.cells ==> c !in closures.cells)
      && (forall c :: c in closures.cells ==> c !in Spines(guardians, b.lists))
    }

    lemma StillPools(b: Book)
      requires conses.Shaped() && GcConses.Threaded(conses.freeList, conses.free) &&
        conses.used + |conses.free| == conses.total && GcConses.AllPairs(conses.cells)
      requires closures.Valid() && PoolRest(b)
      ensures Pools(conses, closures, guardians, b.lists, b.heap)
    {
      hide Owned, Pooled, Spines, GcConses.ConsPool.Shaped, GcConses.Threaded, GcConses.AllPairs,
           GcClosures.ClosurePool.Valid, InUse;
    }

    /** The assignment itself, and all that it leaves alone. */
    method RawSetCar(c: Cell, v: Value, ghost b: Book)
      requires Fits(b) && c in conses.cells && c in b.heap && c !in Spines(guardians, b.lists) && PoolRest(b)
      requires conses.Shaped() && GcConses.Threaded(conses.freeList, conses.free) &&
        conses.used + |conses.free| == conses.total && GcConses.AllPairs(conses.cells) && closures.Valid()
      modifies c`car
      ensures c.Shape() == Pair(v, old(c.cdr.v)) && c.Proper() && !c.Marked()
      ensures forall d :: d in b.heap && d != c ==>
        d.Shape() == old(d.Shape()) && d.Marked() == old(d.Marked()) && d.Proper()
      ensures Pools(conses, closures, guardians, b.lists, b.heap)
    {
      hide Fits, Spines, Owned, Pooled, Pools, InUse, GcConses.Threaded, GcConses.ConsPool.Shaped, InOrder, Shapes,
           GcClosures.ClosurePool.Valid;
      HeapFacts(b);
      AssignFacts(b, c);
      label before:
      c.car := Pointer(v, false);
      assert old@before(GcConses.Threaded(conses.freeList, conses.free) && closures.Valid());
      assert GcConses.Threaded(conses.freeList, conses.free) && closures.Valid();
      assert forall d :: d in conses.cells && d != c ==> d.Marked() == old@before(d.Marked());
      StillPools(b);
    }

    /** Fset_car of a pair, anywhere in the program's life. */
    method SetCar(c: Cell, v: Value)
      requires Valid() && Known(Ref(c)) && c in conses.cells && Known(v)
      modifies this`book, c`car
      ensures Valid() && c.Shape() == Pair(v, old(c.cdr.v)) && book == SetBook(old(book), c, c.Shape())
    {
      hide Fits, World, Places, Recorded, Pools, Spines, InOrder, Shapes, MarkedSet, Owned, Pooled, Faithful, PoolRest,
           GcConses.Threaded, GcConses.AllPairs, GcConses.ConsPool.Shaped, GcClosures.ClosurePool.Valid, InUse;
      ghost var b, g0 := book, Shapes(book.heap);
      Apart(b);
      HeapFacts(b);
      AssignFacts(b, c);
      Storing(b, g0, c, v);
      RawSetCar(c, v, b);
      Assigned(b, g0, c, c.Shape());
      book := SetBook(b, c, c.Shape());
    }

    /** The assignment itself, and all that it leaves alone. */
    method RawSetCdr(c: Cell, v: Value, ghost b: Book)
      requires Fits(b) && c in conses.cells && c in b.heap && c !in Spines(guardians, b.lists) && PoolRest(b)
      requires conses.Shaped() && GcConses.Threaded(conses.freeList, conses.free) &&
        conses.used + |conses.free| == conses.total && GcConses.AllPairs(conses.cells) && closures.Valid()
      modifies c`cdr
      ensures c.Shape() == Pair(old(c.car.v), v) && c.Proper() && !c.Marked()
      ensures forall d :: d in b.heap && d != c ==>
        d.Shape() == old(d.Shape()) && d.Marked() == old(d.Marked()) && d.Proper()
      ensures Pools(conses, closures, guardians, b.lists, b.heap)
    {
      hide Fits, Spines, Owned, Pooled, Pools, InUse, GcConses.Threaded, GcConses.ConsPool.Shaped, InOrder, Shapes,
           GcClosures.ClosurePool.Valid;
      HeapFacts(b);
      AssignFacts(b, c);
      label before:
      c.cdr := Pointer(v, false);
      assert old@before(GcConses.Threaded(conses.freeList, conses.free) && closures.Valid());
      assert GcConses.Threaded(conses.freeList, conses.free) && closures.Valid();
      assert forall d :: d in conses.cells && d != c ==> d.Marked() == old@before(d.Marked());
      StillPools(b);
    }

    /** Fset_cdr of a pair, anywhere in the program's life. */
    method SetCdr(c: Cell, v: Value)
      requires Valid() && Known(Ref(c)) && c in conses.cells && Known(v)
      modifies this`book, c`cdr
      ensures Valid() && c.Shape() == Pair(old(c.car.v), v) && book == SetBook(old(book), c, c.Shape())
    {
      hide Fits, World, Places, Recorded, Pools, Spines, InOrder, Shapes, MarkedSet, Owned, Pooled, Faithful, PoolRest,
           GcConses.Threaded, GcConses.AllPairs, GcConses.ConsPool.Shaped, GcClosures.ClosurePool.Valid, InUse;
      ghost var b, g0 := book, Shapes(book.heap);
      Apart(b);
      HeapFacts(b);
      AssignFacts(b, c);
      Storing(b, g0, c, v);
      RawSetCdr(c, v, b);
      Assigned(b, g0, c, c.Shape());
      book := SetBook(b, c, c.Shape());
    }
  }

  lemma SetWorld(g0: map<Cell, Shape>, heap: set<Cell>, perm: set<Cell>, all: seq<Cell>, lists: map<Cell, Lists>,
                 obj: map<Cell, Value>, nil: Value, c: Cell, s: Shape)
    requires InOrder(g0[c := s], perm, all, lists, obj, nil) && g0.Keys == heap && perm <= heap && c in heap
    requires c.Shape() == s && c.Proper() && !c.Marked() && c !in perm
    requires forall d :: d in heap && d != c ==> d.Shape() == g0[d] && (d.Marked() <==> d in perm) && d.Proper()
    ensures World(all, lists, obj, nil, heap) && MarkedSet(heap) == perm && Shapes(heap) == g0[c := s]
  {
    hide World, InOrder;
    assert Shapes(heap) == g0[c := s];
    assert MarkedSet(heap) == perm;
    WorldIsInOrder(all, lists, obj, nil, heap);
  }

  lemma SetPlaces(g0: map<Cell, Shape>, s: Shape, perm: set<Cell>, guardians: seq<Cell>, lists: map<Cell, Lists>,
                  objects: seq<Cell>, cells: seq<Cell>, closures: seq<Cell>, c: Cell)
    requires Places(g0, perm, guardians, lists, objects, cells, closures) && c in g0 && c in cells
    ensures Places(g0[c := s], perm, guardians, lists, objects, cells, closures)
  {
    hide Spines, Distinct;
  }

  lemma ShapesAre(heap: set<Cell>)
    ensures Shapes(heap).Keys == heap && forall c :: c in heap ==> Shapes(heap)[c] == c.Shape()
  {
  }

  lemma ShapesMore(heap: set<Cell>, g0: map<Cell, Shape>, c: Cell)
    requires g0.Keys == heap && forall d :: d in heap ==> d.Shape() == g0[d]
    ensures Shapes(heap + {c}) == g0[c := c.Shape()] || c in heap
  {
  }

  lemma PopShrinks(heap: set<Cell>, l: Lists)
    ensures PopHeap(heap, l) <= heap
  {
  }

  lemma NotInSpines(g0: map<Cell, Shape>, all: seq<Cell>, lists: map<Cell, Lists>, obj: map<Cell, Value>, nil: Value)
    requires Separate(all, lists, obj, nil, g0.Keys)
    ensures Spines(all, lists) <= g0.Keys
  {
  }

  lemma InEach(l: Lists)
    ensures forall c :: c in l.acc ==> c in Spine(l)
    ensures forall c :: c in l.inacc ==> c in Spine(l)
  {
  }

  lemma PushedWorld(g0: map<Cell, Shape>, heap: set<Cell>, perm: set<Cell>, guardians: seq<Cell>, lists: map<Cell,
                    Lists>, obj: map<Cell, Value>,
                    nil: Value, g: Cell, c: Cell, v: Value)
    requires InOrder(g0, perm, guardians, lists, obj, nil) && g in guardians && c !in heap && v.Ref? &&
      Storable(g0, guardians, lists, v)
    requires g0.Keys == heap && perm <= heap && (forall x :: x in guardians ==> x !in perm) && g in heap
    requires forall d :: d in heap && d != g ==> d.Shape() == g0[d] && (d.Marked() <==> d in perm) && d.Proper()
    requires c.car == Pointer(v, false) && c.cdr == Pointer(After(ListsOf(lists, g).acc, -1, nil), false)
    requires g.car.Header? && g.car.kind.Guardian? && !g.car.mark && g.cdr.Pointer? && g.cdr.v == Ref(c)
    requires g.slots == [After(ListsOf(lists, g).inacc, -1, nil)]
    ensures var l := ListsOf(lists, g); var heap1 := heap + {c};
      World(guardians, lists[g := PushLists(l, c)], obj[c := v], nil, heap1) && MarkedSet(heap1) == perm &&
      Shapes(heap1) == PushShapes(g0, g, l, c, v, nil)
  {
    hide World, InOrder, PushShapes, PushLists, Spines;
    var l := ListsOf(lists, g);
    PushedHeap(heap, perm, g, c, l, v, nil, g0);
    PushInOrder(g0, perm, guardians, lists, g, c, v, obj, nil);
    WorldIsInOrder(guardians, lists[g := PushLists(l, c)], obj[c := v], nil, heap + {c});
  }
}
