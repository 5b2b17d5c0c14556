/** A concrete heap in which running the guardians leaves a surviving guardian with a broken list. */
module GcTorn {
  import opened GcHeap
  import opened GcReach
  import opened GcGuardians
  import opened GcResurrection
  import opened GcCollect

  /** `live` is marked and guards `x`, which refers to the unmarked guardian `dead`; `dead` guards `y`
      and still has `a` unread.  `px`, `py` and `pa` are the pairs of their lists. */
  datatype Cast = Cast(nil: Cell, live: Cell, dead: Cell, x: Cell, y: Cell, a: Cell, px: Cell, py: Cell, pa: Cell)

  predicate Different(t: Cast)
  {
    && t.nil !in {t.live, t.dead, t.x, t.y, t.a, t.px, t.py, t.pa} &&
      t.live !in {t.dead, t.x, t.y, t.a, t.px, t.py, t.pa}
    && t.dead !in {t.x, t.y, t.a, t.px, t.py, t.pa} && t.x !in {t.y, t.a, t.px, t.py, t.pa} &&
      t.y !in {t.a, t.px, t.py, t.pa}
    && t.a !in {t.px, t.py, t.pa} && t.px !in {t.py, t.pa} && t.py != t.pa
  }

  function TornHeap(t: Cast): map<Cell, Shape>
  {
    map[t.nil := Object(Datum, [Ref(t.nil)], Zero),
        t.live := Object(Guardian, [Ref(t.nil)], Ref(t.px)), t.dead := Object(Guardian, [Ref(t.pa)], Ref(t.py)),
        t.x := Pair(Ref(t.dead), Ref(t.nil)), t.y := Pair(Ref(t.nil), Ref(t.nil)), t.a := Pair(Ref(t.nil), Ref(t.nil)),
        t.px := Pair(Ref(t.x), Ref(t.nil)), t.py := Pair(Ref(t.y), Ref(t.nil)), t.pa := Pair(Ref(t.a), Ref(t.nil))]
  }

  function TornLists(t: Cast): map<Cell, Lists>
  {
    map[t.live := Lists([t.px], []), t.dead := Lists([t.py], [t.pa])]
  }

  function TornObjects(t: Cast): map<Cell, Value>
  {
    map[t.px := Ref(t.x), t.py := Ref(t.y), t.pa := Ref(t.a)]
  }

  function TornAll(t: Cast): seq<Cell>
  {
    [t.live, t.dead]
  }

  function TornMarks(t: Cast): set<Cell>
  {
    {t.nil, t.live}
  }

  lemma Facts(t: Cast)
    requires Different(t)
    ensures var all, lists, obj, m := TornAll(t), TornLists(t), TornObjects(t), TornMarks(t);
      && ListsOf(lists, t.live) == Lists([t.px], []) && ListsOf(lists, t.dead) == Lists([t.py], [t.pa])
      && Spine(ListsOf(lists, t.live)) == [t.px] && Spine(ListsOf(lists, t.dead)) == [t.py, t.pa]
      && (forall c :: c in Spines(all, lists) ==> c == t.px || c == t.py || c == t.pa)
      && Moved([t.px], obj, m) == [t.px] && Moved([t.py], obj, m) == [t.py]
      && (forall c :: c in Accessible(all, lists) ==> c == t.px || c == t.py)
  {
    var obj, m := TornObjects(t), TornMarks(t);
    assert [t.px][..0] == [] && [t.py][..0] == [];
    assert Moved([t.px], obj, m) == [t.px] + Moved([], obj, m);
    assert Moved([t.py], obj, m) == [t.py] + Moved([], obj, m);
  }

  /** The heap is in order and its guardian is torn. */
  lemma TornIsInOrder(t: Cast)
    requires Different(t)
    ensures var g0, all, lists, obj, m := TornHeap(t), TornAll(t), TornLists(t), TornObjects(t), TornMarks(t);
      && Separate(all, lists, obj, Ref(t.nil), g0.Keys) && Listed(g0, all, lists, obj, Ref(t.nil))
      && Private(g0, all, lists) && PrivateMarks(all, lists, m) && Torn(t.dead, ListsOf(lists, t.dead), obj, m)
  {
    hide Moved, Spines, Accessible, Spine, Listed, Separate, Private;
    Facts(t);
    TornIsListed(t);
    TornIsSeparate(t);
    TornIsPrivate(t);
  }

  lemma TornIsListed(t: Cast)
    requires Different(t)
    ensures Listed(TornHeap(t), TornAll(t), TornLists(t), TornObjects(t), Ref(t.nil))
  {
    hide Moved, Spines, Accessible, Spine;
    Facts(t);
  }

  lemma TornIsSeparate(t: Cast)
    requires Different(t)
    ensures Separate(TornAll(t), TornLists(t), TornObjects(t), Ref(t.nil), TornHeap(t).Keys)
  {
    hide Moved, Spines, Accessible, Spine;
    Facts(t);
  }

  lemma TornIsPrivate(t: Cast)
    requires Different(t)
    ensures Private(TornHeap(t), TornAll(t), TornLists(t))
  {
    hide Moved, Accessible, Spine;
    Facts(t);
  }

  lemma TornIsWf(t: Cast)
    requires Different(t)
    ensures Wf(TornHeap(t)) && Closed(TornHeap(t), TornMarks(t), TornMarks(t), Zero) &&
      Settled(TornHeap(t), TornMarks(t), Ref(t.nil))
  {
  }

  lemma TornIsReady(t: Cast, heap: set<Cell>)
    requires Different(t) && Shapes(heap) == TornHeap(t) && MarkedSet(heap) == TornMarks(t) && heap == TornHeap(t).Keys
    requires forall c :: c in heap ==> c.Proper()
    ensures ReadyToRun(TornAll(t), TornLists(t), TornObjects(t), Ref(t.nil), heap)
  {
    hide Moved, Spines, Accessible, Spine, Separate, Listed, Private, PrivateMarks, HalfRun, Wf, Closed, Shapes,
         MarkedSet;
    TornIsWf(t);
    TornIsInOrder(t);
    Facts(t);
    RunBegins(TornAll(t), TornLists(t), TornObjects(t), Ref(t.nil), heap);
  }

  method NewPair(car: Cell, cdr: Cell) returns (c: Cell)
    ensures fresh(c) && PairIs(c, car, cdr)
  {
    c := new Cell(Pointer(Ref(car), false), Pointer(Ref(cdr), false), []);
  }

  /** The cells hold what `TornHeap` says and carry its marks. */
  ghost predicate Built(t: Cast)
    reads TornHeap(t).Keys
  {
    forall c :: c in TornHeap(t) ==> c.Shape() == TornHeap(t)[c] && c.Proper() && (c.Marked() <==> c in TornMarks(t))
  }

  lemma BuiltMeans(t: Cast)
    requires Different(t) && Built(t)
    ensures Shapes(TornHeap(t).Keys) == TornHeap(t) && MarkedSet(TornHeap(t).Keys) == TornMarks(t)
  {
    hide Cell.Shape, Cell.Marked, Cell.Proper;
  }

  /** Ordinary pairs of the heap, and its three other cells. */
  ghost predicate PairIs(c: Cell, car: Cell, cdr: Cell)
    reads c
  {
    c.Shape() == Pair(Ref(car), Ref(cdr)) && !c.Marked() && c.Proper()
  }

  ghost predicate ObjectIs(c: Cell, s: Shape, mark: bool)
    reads c
  {
    c.Shape() == s && c.Marked() == mark && c.Proper()
  }

  lemma BuiltFrom(t: Cast)
    requires Different(t) && PairIs(t.x, t.dead, t.nil) && PairIs(t.y, t.nil, t.nil) && PairIs(t.a, t.nil, t.nil)
    requires PairIs(t.px, t.x, t.nil) && PairIs(t.py, t.y, t.nil) && PairIs(t.pa, t.a, t.nil)
    requires ObjectIs(t.nil, Object(Datum, [Ref(t.nil)], Zero), true)
    requires ObjectIs(t.live, Object(Guardian, [Ref(t.nil)], Ref(t.px)), true)
    requires ObjectIs(t.dead, Object(Guardian, [Ref(t.pa)], Ref(t.py)), false)
    ensures Built(t)
  {
    hide Cell.Shape, Cell.Marked, Cell.Proper;
  }

  lemma FreshCells(t: Cast)
    ensures TornHeap(t).Keys == {t.nil, t.live, t.dead, t.x, t.y, t.a, t.px, t.py, t.pa}
  {
  }

  method NewNil() returns (c: Cell)
    ensures fresh(c) && ObjectIs(c, Object(Datum, [Ref(c)], Zero), true)
  {
    c := new Cell(Header(Datum, true), Pointer(Zero, false), []);
    c.slots := [Ref(c)];
  }

  method NewGuardian(acc: Cell, inacc: Cell, mark: bool) returns (c: Cell)
    ensures fresh(c) && ObjectIs(c, Object(Guardian, [Ref(inacc)], Ref(acc)), mark)
  {
    c := new Cell(Header(Guardian, mark), Pointer(Ref(acc), false), [Ref(inacc)]);
  }

  method MakeTorn() returns (t: Cast)
    ensures Different(t) && Built(t) && fresh(TornHeap(t).Keys)
  {
    hide Built, TornHeap, TornMarks, PairIs, ObjectIs;
    var nil := NewNil();
    var y := NewPair(nil, nil);
    var a := NewPair(nil, nil);
    var py := NewPair(y, nil);
    var pa := NewPair(a, nil);
    var dead := NewGuardian(py, pa, false);
    var x := NewPair(dead, nil);
    var px := NewPair(x, nil);
    var live := NewGuardian(px, nil, true);
    t := Cast(nil, live, dead, x, y, a, px, py, pa);
    FreshCells(t);
    BuiltFrom(t);
  }

  /** Builds that heap and runs the guardians on it: `dead` is marked, its list runs through `pa`, and
      `pa`, which is not marked, is about to be freed. */
  method RunTorn() returns (t: Cast)
    ensures Different(t) && t.dead.Marked() && !t.pa.Marked()
    ensures t.dead.Shape() == Object(Guardian, [Ref(t.py)], Ref(t.nil)) && t.py.Shape() == Pair(Ref(t.y), Ref(t.pa))
  {
    hide Moved, Spines, Accessible, Spine, Separate, Listed, Private, PrivateMarks, HalfRun, Wf, Closed, ReadyToRun,
         Rearranged, Marking, AllSettled, Lost, MovedObjects, Reach, Settled, Intact, Built, Different, TornHeap,
         TornMarks, TornLists, TornObjects, TornAll;
    t := MakeTorn();
    ghost var heap := TornHeap(t).Keys;
    BuiltMeans(t);
    BuiltProper(t);
    TornIsReady(t, heap);
    var all := [t.live, t.dead];
    AllTorn(t);
    ghost var changed := RunGuardians(all, Ref(t.nil), TornLists(t), TornObjects(t), heap);
    TornLoses(t, Shapes(heap), MarkedSet(heap), changed);
    TornList(t, Shapes(heap));
    InTornHeap(t);
  }

  lemma BuiltProper(t: Cast)
    requires Built(t)
    ensures forall c :: c in TornHeap(t) ==> c.Proper()
  {
  }

  lemma AllTorn(t: Cast)
    ensures TornAll(t) == [t.live, t.dead]
  {
  }

  lemma InTornHeap(t: Cast)
    ensures t.dead in TornHeap(t) && t.py in TornHeap(t) && t.pa in TornHeap(t)
  {
  }

  /** The list the guardian is left with runs through the lost pair. */
  lemma TornList(t: Cast, g1: map<Cell, Shape>)
    requires Different(t) && Rearranged(TornHeap(t), g1, TornAll(t), TornLists(t), TornObjects(t), Ref(t.nil),
      TornMarks(t))
    ensures t.dead in g1 && g1[t.dead] == Object(Guardian, [Ref(t.py)], Ref(t.nil)) && t.py in g1 &&
      g1[t.py] == Pair(Ref(t.y), Ref(t.pa))
  {
    hide Spines, Accessible, Spine, Separate, Private, PrivateMarks, Closed, SameElsewhere, Kept, Moved;
    var lists, obj, m := TornLists(t), TornObjects(t), TornMarks(t);
    Facts(t);
    var next := ListsOf(RunLists(TornAll(t), lists, obj, m), t.dead);
    assert next == Run1(Lists([t.py], [t.pa]), obj, m);
    KeptNone(t);
    assert next.acc == [] && next.inacc == [t.py] + [t.pa];
    assert ShapeList(g1, next.inacc, obj, Ref(t.nil));
    assert next.inacc[0] == t.py;
  }

  lemma KeptNone(t: Cast)
    requires Different(t)
    ensures Kept([t.py], TornObjects(t), TornMarks(t)) == []
  {
    assert [t.py][..0] == [];
  }

  /** Whatever running the guardians makes of it, `dead` survives and the pair that holds `a` does not. */
  lemma TornLoses(t: Cast, g1: map<Cell, Shape>, marked: set<Cell>, changed: seq<Value>)
    requires Different(t)
    requires var g0, all, lists, obj, m := TornHeap(t), TornAll(t), TornLists(t), TornObjects(t), TornMarks(t);
      && Rearranged(g0, g1, all, lists, obj, Ref(t.nil), m) &&
        (set v | v in changed) == MovedObjects(all, lists, obj, m)
      && marked !! Lost(all, lists, obj, m) && m + Accessible(all, lists) <= marked
      && Marking(g1, m + Accessible(all, lists), marked, Reach(g1, changed), Zero) && AllSettled(g1, marked, changed)
    ensures t.dead in marked && t.pa !in marked
  {
    hide Moved, Spines, Accessible, Spine, Lost, Reach, Separate, Listed, Private, PrivateMarks;
    var g0, all, lists, obj, m := TornHeap(t), TornAll(t), TornLists(t), TornObjects(t), TornMarks(t);
    Facts(t);
    TornIsInOrder(t);
    LostHas(t.dead, t.pa, all, lists, obj, m);
    assert t.pa !in marked;
    assert Ref(t.x) in MovedObjects(all, lists, obj, m) by { assert t.px in Moved(ListsOf(lists, t.live).acc, obj,
      m) && Obj(obj, t.px) == Ref(t.x); }
    assert Ref(t.x) in changed by { assert Ref(t.x) in (set v | v in changed); }
    assert g1[t.x] == g0[t.x] == Pair(Ref(t.dead), Ref(t.nil));
    assert t.x in marked;
    assert Ref(t.dead) in Kids(g1[t.x]);
    assert Ref(t.dead) == Zero || Settled(g1, marked, Ref(t.dead));
  }
}
