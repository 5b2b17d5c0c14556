/** Running every guardian after marking: what moves, what is thereby marked, and when the lists of a
    surviving guardian are intact. */
module GcResurrection {
  import opened GcBlocks
  import opened GcHeap
  import opened GcReach
  import opened GcGuardians

  /** The pairs of a guardian's two lists. */
  datatype Lists = Lists(acc: seq<Cell>, inacc: seq<Cell>)

  function Spine(l: Lists): seq<Cell>
  {
    l.acc + l.inacc
  }

  /** The guardian's lists are as `l` says. */
  ghost predicate Has(g: Cell, l: Lists, nil: Value)
    reads g, l.acc, l.inacc
  {
    Splicing(g, g, [], l.acc, l.inacc, nil) && g.car.kind.Guardian?
  }

  function ListsOf(lists: map<Cell, Lists>, g: Cell): Lists
  {
    if g in lists then lists[g] else Lists([], [])
  }

  /** The pairs of every guardian's lists. */
  function Spines(all: seq<Cell>, lists: map<Cell, Lists>): set<Cell>
  {
    set g, c | g in all && c in Spine(ListsOf(lists, g)) :: c
  }

  /** What running a guardian does to its lists. */
  function Run1(l: Lists, obj: map<Cell, Value>, m: set<Cell>): Lists
  {
    Lists(Kept(l.acc, obj, m), Moved(l.acc, obj, m) + l.inacc)
  }

  function RunLists(all: seq<Cell>, lists: map<Cell, Lists>, obj: map<Cell, Value>, m: set<Cell>): map<Cell, Lists>
  {
    map g | g in all :: Run1(ListsOf(lists, g), obj, m)
  }

  function Due(run: bool, l: Lists, obj: map<Cell, Value>, m: set<Cell>): Lists
  {
    if run then Run1(l, obj, m) else l
  }

  /** Static facts about the lists: no pair is shared, no pair is itself guarded. */
  predicate Separate(all: seq<Cell>, lists: map<Cell, Lists>, obj: map<Cell, Value>, nil: Value, heap: set<Cell>)
  {
    && Distinct(all) && nil.Ref? && nil.cell !in Spines(all, lists)
    && (forall g :: g in all ==> g in heap && g !in Spines(all, lists))
    && (forall g, h, c :: g in all && h in all && g != h && c in Spine(ListsOf(lists, g)) ==>
      c !in Spine(ListsOf(lists, h)))
    && (forall c :: c in Spines(all, lists) ==>
      c in heap && Obj(obj, c).Ref? && Obj(obj, c).cell in heap && Obj(obj, c).cell !in Spines(all, lists))
  }

  /** Guardians already run have their new lists, the others still the old ones. */
  ghost predicate HalfRun(all: seq<Cell>, i: nat, lists: map<Cell, Lists>, obj: map<Cell, Value>, nil: Value,
                          m: set<Cell>, heap: set<Cell>)
    requires i <= |all|
    reads *
  {
    && (forall j :: 0 <= j < |all| ==> Has(all[j], Due(j < i, ListsOf(lists, all[j]), obj, m), nil))
    && (forall c :: c in Spines(all, lists) ==> c.car == Pointer(Obj(obj, c), false))
    && MarkedSet(heap) == m + Accessible(all[..i], lists)
  }

  function Accessible(all: seq<Cell>, lists: map<Cell, Lists>): set<Cell>
  {
    set g, c | g in all && c in ListsOf(lists, g).acc :: c
  }

  lemma Rewind(g: Cell, p: Cell, l: Lists, nil: Value)
    requires Splicing(g, p, l.acc, [], l.inacc, nil) && g.car.kind.Guardian?
    ensures Has(g, l, nil)
  {
    assert l.acc + [] == l.acc && [] + l.acc == l.acc;
  }

  lemma RunSpine(l: Lists, obj: map<Cell, Value>, m: set<Cell>)
    ensures forall c :: c in Spine(Run1(l, obj, m)) <==> c in Spine(l)
  {
  }

  lemma RunSpineOne(l: Lists, obj: map<Cell, Value>, m: set<Cell>, c: Cell)
    ensures c in Spine(Run1(l, obj, m)) <==> c in Spine(l)
  {
  }

  lemma SpineIn(all: seq<Cell>, lists: map<Cell, Lists>, g: Cell)
    requires g in all
    ensures forall c :: c in Spine(ListsOf(lists, g)) ==> c in Spines(all, lists)
  {
  }

  lemma StartRun(g: Cell, l: Lists, obj: map<Cell, Value>, nil: Value, m: set<Cell>)
    requires Has(g, l, nil) && nil.Ref? && nil.cell !in l.acc && g !in l.acc && Holds(l.acc, obj, m)
    ensures RunState(g, g, nil, l.acc, 0, l.inacc, obj, m, [], [], l.acc, l.inacc)
  {
    assert l.acc[..0] == [] && l.acc[0..] == l.acc && [] + l.inacc == l.inacc;
  }

  lemma HoldsNow(all: seq<Cell>, i: nat, lists: map<Cell, Lists>, obj: map<Cell, Value>, nil: Value, m: set<Cell>,
                 heap: set<Cell>)
    requires i < |all| && Separate(all, lists, obj, nil, heap) && HalfRun(all, i, lists, obj, nil, m, heap)
    ensures Holds(ListsOf(lists, all[i]).acc, obj, m)
    ensures nil.Ref? && nil.cell !in ListsOf(lists, all[i]).acc && all[i] !in ListsOf(lists, all[i]).acc
  {
    hide Has;
    var l := ListsOf(lists, all[i]);
    SpineIn(all, lists, all[i]);
    assert forall c :: c in l.acc ==> c in Spine(l);
    forall c | c in l.acc
      ensures Obj(obj, c).Ref? && Obj(obj, c).cell !in l.acc && (Obj(obj, c).cell in m <==> Obj(obj, c).cell.Marked())
    {
      var o := Obj(obj, c).cell;
      assert o !in Spines(all, lists);
      AccessibleIn(all, lists, i);
      assert o in MarkedSet(heap) <==> o.Marked();
    }
  }

  lemma AccessibleIn(all: seq<Cell>, lists: map<Cell, Lists>, i: nat)
    requires i <= |all|
    ensures Accessible(all[..i], lists) <= Spines(all, lists)
  {
    forall g, c | g in all[..i] && c in ListsOf(lists, g).acc ensures c in Spines(all, lists) {
      assert c in Spine(ListsOf(lists, g));
    }
  }

  lemma AccessibleMore(all: seq<Cell>, lists: map<Cell, Lists>, i: nat)
    requires i < |all|
    ensures Accessible(all[..i + 1], lists) == Accessible(all[..i], lists) + set c | c in ListsOf(lists, all[i]).acc
  {
    assert all[..i + 1] == all[..i] + [all[i]];
  }

  /** Two different guardians share nothing. */
  lemma Others(all: seq<Cell>, i: nat, j: nat, lists: map<Cell, Lists>, obj: map<Cell, Value>, nil: Value,
               heap: set<Cell>)
    requires Separate(all, lists, obj, nil, heap) && i < |all| && j < |all| && i != j
    ensures all[j] != all[i] && all[j] !in Spine(ListsOf(lists, all[i])) && all[i] !in Spine(ListsOf(lists, all[j]))
    ensures forall c :: c in Spine(ListsOf(lists, all[j])) ==> c !in Spine(ListsOf(lists, all[i]))
  {
    SpineIn(all, lists, all[i]);
    SpineIn(all, lists, all[j]);
  }

  lemma OthersApart(all: seq<Cell>, i: nat, j: nat, lists: map<Cell, Lists>, obj: map<Cell, Value>, nil: Value,
                    m: set<Cell>, heap: set<Cell>)
    requires Separate(all, lists, obj, nil, heap) && i < |all| && j < |all| && i != j
    ensures var due := Due(j < i, ListsOf(lists, all[j]), obj, m);
      && all[j] != all[i] && all[j] !in ListsOf(lists, all[i]).acc
      && (forall c :: c in due.acc ==> c != all[i] && c !in ListsOf(lists, all[i]).acc)
      && (forall c :: c in due.inacc ==> c != all[i] && c !in ListsOf(lists, all[i]).acc)
  {
    hide Separate;
    var due, l := Due(j < i, ListsOf(lists, all[j]), obj, m), ListsOf(lists, all[i]);
    Others(all, i, j, lists, obj, nil, heap);
    RunSpine(ListsOf(lists, all[j]), obj, m);
    assert forall c :: c in l.acc ==> c in Spine(l);
    assert forall c :: c in due.acc || c in due.inacc ==> c in Spine(due);
  }

  /** Runs the next guardian. */
  method RunNext(g: Cell, nil: Value, ghost all: seq<Cell>, ghost i: nat, ghost lists: map<Cell, Lists>,
                 ghost obj: map<Cell, Value>, ghost m: set<Cell>, ghost heap: set<Cell>)
    returns (changed: seq<Value>)
    requires i < |all| && g == all[i] && Separate(all, lists, obj, nil, heap) &&
      HalfRun(all, i, lists, obj, nil, m, heap)
    requires forall c :: c in heap ==> c.Proper()
    modifies g`cdr, g`slots, (set c | c in ListsOf(lists, g).acc)`cdr
    ensures HalfRun(all, i + 1, lists, obj, nil, m, heap)
    ensures changed == ObjectsOf(Moved(ListsOf(lists, all[i]).acc, obj, m), obj)
    ensures forall c :: c in heap ==> c.Proper()
  {
    hide Has, Separate, Kept, Moved, Splicing, RunState, Spines, Spine, Accessible;
    ghost var l := ListsOf(lists, g);
    HoldsNow(all, i, lists, obj, nil, m, heap);
    StartRun(g, l, obj, nil, m);
    HasKind(g, l, nil);
    changed := RunOne(g, nil, l.acc, l.inacc, obj, m);
    RewindRun(g, l, obj, m, nil);
    forall j | 0 <= j < |all| && j != i ensures Has(all[j], Due(j < i + 1, ListsOf(lists, all[j]), obj, m), nil) {
      ghost var due := Due(j < i, ListsOf(lists, all[j]), obj, m);
      assert old(Has(all[j], due, nil));
      OthersApart(all, i, j, lists, obj, nil, m, heap);
      assert Has(all[j], due, nil);
    }
    assert l == ListsOf(lists, all[i]);
    AccessibleMore(all, lists, i);
    SpineIn(all, lists, g);
    AccInSpine(l);
    InHeap(all, lists, obj, nil, heap);
    NextMarks(l.acc, old(MarkedSet(heap)), heap);
  }

  lemma InHeap(all: seq<Cell>, lists: map<Cell, Lists>, obj: map<Cell, Value>, nil: Value, heap: set<Cell>)
    requires Separate(all, lists, obj, nil, heap)
    ensures Spines(all, lists) <= heap && forall g :: g in all ==> g in heap && g !in Spines(all, lists)
  {
  }

  lemma AccInSpine(l: Lists)
    ensures forall c :: c in l.acc ==> c in Spine(l)
  {
  }

  lemma HasKind(g: Cell, l: Lists, nil: Value)
    requires Has(g, l, nil)
    ensures g.car.Header? && g.car.kind.Guardian? && g.cdr.Pointer?
  {
  }

  lemma RewindRun(g: Cell, l: Lists, obj: map<Cell, Value>, m: set<Cell>, nil: Value)
    requires g.car.Header? && g.car.kind.Guardian?
    requires Splicing(g, if Kept(l.acc, obj, m) == [] then g else Kept(l.acc, obj, m)[|Kept(l.acc, obj, m)| - 1],
                      Kept(l.acc, obj, m), [], Moved(l.acc, obj, m) + l.inacc, nil)
    ensures Has(g, Run1(l, obj, m), nil)
  {
    hide Kept, Moved, Splicing;
    var p := if Kept(l.acc, obj, m) == [] then g else Kept(l.acc, obj, m)[|Kept(l.acc, obj, m)| - 1];
    Rewind(g, p, Run1(l, obj, m), nil);
  }

  lemma NextMarks(acc: seq<Cell>, was: set<Cell>, heap: set<Cell>)
    requires was <= heap && (forall c :: c in acc ==> c in heap && c.Marked())
    requires forall c :: c in heap && c !in acc ==> (c in was <==> c.Marked())
    ensures MarkedSet(heap) == was + set c | c in acc
  {
  }

  /** Objects whose pair moves. */
  function MovedObjects(all: seq<Cell>, lists: map<Cell, Lists>, obj: map<Cell, Value>, m: set<Cell>): set<Value>
  {
    set g, c | g in all && c in Moved(ListsOf(lists, g).acc, obj, m) :: Obj(obj, c)
  }

  lemma {:induction false} ObjectsSet(s: seq<Cell>, obj: map<Cell, Value>)
    ensures (set v | v in ObjectsOf(s, obj)) == set c | c in s :: Obj(obj, c)
  {
    if s != [] {
      ObjectsSet(s[1..], obj);
      var rest := ObjectsOf(s[1..], obj);
      assert forall v :: v in ObjectsOf(s, obj) ==> v == Obj(obj, s[0]) || v in rest;
      assert forall v :: v in rest ==> v in ObjectsOf(s, obj);
      assert (set v | v in ObjectsOf(s, obj)) == {Obj(obj, s[0])} + set v | v in rest;
      assert (set c | c in s :: Obj(obj, c)) == {Obj(obj, s[0])} + set c | c in s[1..] :: Obj(obj, c);
    }
  }

  lemma MovedMore(all: seq<Cell>, i: nat, lists: map<Cell, Lists>, obj: map<Cell, Value>, m: set<Cell>)
    requires i < |all|
    ensures MovedObjects(all[..i + 1], lists, obj, m)
         == MovedObjects(all[..i], lists, obj, m) + set c | c in Moved(ListsOf(lists, all[i]).acc, obj, m) :: Obj(obj,
           c)
  {
    hide Moved;
    assert all[..i + 1] == all[..i] + [all[i]];
  }

  /** The first phase: every guardian's lists, nothing else. */
  method SpliceAll(all: seq<Cell>, nil: Value, ghost lists: map<Cell, Lists>, ghost obj: map<Cell, Value>,
                   ghost m: set<Cell>, ghost heap: set<Cell>)
    returns (changed: seq<Value>)
    requires Separate(all, lists, obj, nil, heap) && HalfRun(all, 0, lists, obj, nil, m, heap)
    requires forall c :: c in heap ==> c.Proper()
    modifies (set c | c in all)`cdr, (set c | c in all)`slots, Spines(all, lists)`cdr
    ensures HalfRun(all, |all|, lists, obj, nil, m, heap)
    ensures (set v | v in changed) == MovedObjects(all, lists, obj, m)
    ensures forall c :: c in heap ==> c.Proper()
  {
    hide HalfRun, Separate, MovedObjects, Moved, Spines;
    changed := [];
    NoneMoved(lists, obj, m);
    assert all[..0] == [];
    for i := 0 to |all|
      invariant HalfRun(all, i, lists, obj, nil, m, heap)
      invariant (set v | v in changed) == MovedObjects(all[..i], lists, obj, m)
      invariant forall c :: c in heap ==> c.Proper()
    {
      SpineIn(all, lists, all[i]);
      AccInSpine(ListsOf(lists, all[i]));
      assert all[i] in all;
      var more := RunNext(all[i], nil, all, i, lists, obj, m, heap);
      ObjectsSet(Moved(ListsOf(lists, all[i]).acc, obj, m), obj);
      MovedMore(all, i, lists, obj, m);
      assert (set v | v in more + changed) == (set v | v in changed) + set v | v in more;
      changed := more + changed;
    }
    assert all[..|all|] == all;
  }

  lemma NoneMoved(lists: map<Cell, Lists>, obj: map<Cell, Value>, m: set<Cell>)
    ensures MovedObjects([], lists, obj, m) == {}
  {
  }

  // ----- Shapes -----

  predicate ShapeList(g: map<Cell, Shape>, s: seq<Cell>, obj: map<Cell, Value>, nil: Value)
  {
    forall i :: 0 <= i < |s| ==> s[i] in g && g[s[i]] == Pair(Obj(obj, s[i]), After(s, i, nil))
  }

  /** In the heap `g` the guardians' lists are as `lists` says. */
  predicate Listed(g: map<Cell, Shape>, all: seq<Cell>, lists: map<Cell, Lists>, obj: map<Cell, Value>, nil: Value)
  {
    forall x :: x in all ==>
      && x in g && g[x] == Object(Guardian, [After(ListsOf(lists, x).inacc, -1, nil)], After(ListsOf(lists, x).acc, -1,
        nil))
      && ShapeList(g, ListsOf(lists, x).acc, obj, nil) && ShapeList(g, ListsOf(lists, x).inacc, obj, nil)
  }

  lemma ListShapes(first: Value, s: seq<Cell>, obj: map<Cell, Value>, nil: Value, heap: set<Cell>)
    requires List(first, s, nil) && (forall c :: c in s ==> c in heap && c.car == Pointer(Obj(obj, c), false))
    ensures ShapeList(Shapes(heap), s, obj, nil)
  {
    forall i | 0 <= i < |s| ensures s[i] in heap && Shapes(heap)[s[i]] == Pair(Obj(obj, s[i]), After(s, i, nil)) {
      assert s[i] in s;
    }
  }

  lemma HasShapes(x: Cell, l: Lists, obj: map<Cell, Value>, nil: Value, heap: set<Cell>)
    requires Has(x, l, nil) && x in heap && (forall c :: c in Spine(l) ==>
      c in heap && c.car == Pointer(Obj(obj, c), false))
    ensures Shapes(heap)[x] == Object(Guardian, [After(l.inacc, -1, nil)], After(l.acc, -1, nil))
    ensures ShapeList(Shapes(heap), l.acc, obj, nil) && ShapeList(Shapes(heap), l.inacc, obj, nil)
  {
    hide Distinct;
    assert [] + l.acc == l.acc;
    assert List(x.slots[0], l.inacc, nil) && x.slots == [x.slots[0]];
    hide Shapes, ShapeList;
    ListShapes(x.cdr.v, l.acc, obj, nil, heap);
    ListShapes(x.slots[0], l.inacc, obj, nil, heap);
    GuardianShape(x, heap);
  }

  lemma GuardianShape(x: Cell, heap: set<Cell>)
    requires x in heap && x.car.Header? && x.car.kind.Guardian? && x.cdr.Pointer?
    ensures Shapes(heap)[x] == Object(Guardian, x.slots, x.cdr.v)
  {
  }

  lemma ListedBefore(all: seq<Cell>, lists: map<Cell, Lists>, obj: map<Cell, Value>, nil: Value, m: set<Cell>,
                     heap: set<Cell>)
    requires Separate(all, lists, obj, nil, heap) && HalfRun(all, 0, lists, obj, nil, m, heap)
    ensures Listed(Shapes(heap), all, lists, obj, nil)
  {
    hide Has, Separate, Shapes, ShapeList, Spine;
    InHeap(all, lists, obj, nil, heap);
    forall x | x in all
      ensures x in Shapes(heap) &&
        Shapes(heap)[x] == Object(Guardian, [After(ListsOf(lists, x).inacc, -1, nil)], After(ListsOf(lists, x).acc, -1,
        nil))
      && ShapeList(Shapes(heap), ListsOf(lists, x).acc, obj, nil) &&
        ShapeList(Shapes(heap), ListsOf(lists, x).inacc, obj, nil)
    {
      var j :| 0 <= j < |all| && all[j] == x;
      SpineIn(all, lists, x);
      HasShapes(x, ListsOf(lists, x), obj, nil, heap);
    }
  }

  lemma ListedAfter(all: seq<Cell>, lists: map<Cell, Lists>, obj: map<Cell, Value>, nil: Value, m: set<Cell>,
                    heap: set<Cell>)
    requires Separate(all, lists, obj, nil, heap) && HalfRun(all, |all|, lists, obj, nil, m, heap)
    ensures Listed(Shapes(heap), all, RunLists(all, lists, obj, m), obj, nil)
  {
    hide Has, Separate, Shapes, ShapeList, Spine, Run1;
    InHeap(all, lists, obj, nil, heap);
    var next := RunLists(all, lists, obj, m);
    forall x | x in all
      ensures x in Shapes(heap) &&
        Shapes(heap)[x] == Object(Guardian, [After(ListsOf(next, x).inacc, -1, nil)], After(ListsOf(next, x).acc, -1,
        nil))
      && ShapeList(Shapes(heap), ListsOf(next, x).acc, obj, nil) &&
        ShapeList(Shapes(heap), ListsOf(next, x).inacc, obj, nil)
    {
      var j :| 0 <= j < |all| && all[j] == x;
      SpineIn(all, lists, x);
      RunSpine(ListsOf(lists, x), obj, m);
      assert ListsOf(next, x) == Run1(ListsOf(lists, x), obj, m);
      forall c | c in Spine(ListsOf(next, x)) ensures c in heap && c.car == Pointer(Obj(obj, c), false) {
        RunSpineOne(ListsOf(lists, x), obj, m, c);
      }
      HasShapes(x, ListsOf(next, x), obj, nil, heap);
    }
  }

  // ----- Which lists survive -----

  /** An unmarked guardian that both has something new to report and still has something unread. */
  predicate Torn(g: Cell, l: Lists, obj: map<Cell, Value>, m: set<Cell>)
  {
    g !in m && Moved(l.acc, obj, m) != [] && l.inacc != []
  }

  /** Cells outside the guardians and their lists are the same in both heaps. */
  predicate SameElsewhere(g0: map<Cell, Shape>, g1: map<Cell, Shape>, all: seq<Cell>, lists: map<Cell, Lists>)
  {
    && g0.Keys == g1.Keys
    && (forall c :: c in g0 && c !in all && c !in Spines(all, lists) ==> g1[c] == g0[c])
    && (forall c :: c in g0 ==> (Markable(g1[c]) <==> Markable(g0[c])))
  }

  /** Only a guardian leads into its own lists. */
  predicate Private(g0: map<Cell, Shape>, all: seq<Cell>, lists: map<Cell, Lists>)
  {
    forall c, v :: c in g0 && c !in all && c !in Spines(all, lists) && v in Kids(g0[c]) && v.Ref? ==>
      v.cell !in Spines(all, lists)
  }

  /** Marks have not leaked into a list whose guardian is unmarked, nor into an accessible list. */
  predicate PrivateMarks(all: seq<Cell>, lists: map<Cell, Lists>, m: set<Cell>)
  {
    forall g :: g in all ==>
      (forall c :: c in ListsOf(lists, g).acc ==> c !in m) &&
      (g !in m ==> forall c :: c in ListsOf(lists, g).inacc ==> c !in m)
  }

  /** Every pair of the guardian's lists is marked and what it holds is seen to. */
  ghost predicate Intact(g1: map<Cell, Shape>, l: Lists, obj: map<Cell, Value>, marked: set<Cell>)
  {
    forall c :: c in Spine(l) ==> c in marked && Settled(g1, marked, Obj(obj, c))
  }

  /** The pairs that get lost. */
  function Lost(all: seq<Cell>, lists: map<Cell, Lists>, obj: map<Cell, Value>, m: set<Cell>): set<Cell>
  {
    set g, c | g in all && Torn(g, ListsOf(lists, g), obj, m) && c in ListsOf(lists, g).inacc :: c
  }

  /** Following a list whose first pair is marked, as long as marked pairs have settled contents. */
  lemma {:induction false} ChainMarked(g: map<Cell, Shape>, s: seq<Cell>, obj: map<Cell, Value>, nil: Value,
                                       marked: set<Cell>, n: nat)
    requires ShapeList(g, s, obj, nil) && n <= |s| && (s != [] ==> s[0] in marked)
    requires forall c, v :: c in s && c in marked && v in Kids(g[c]) ==> Settled(g, marked, v)
    ensures forall i :: 0 <= i < n ==> s[i] in marked && Settled(g, marked, Obj(obj, s[i]))
  {
    if n > 0 {
      ChainMarked(g, s, obj, nil, marked, n - 1);
      if n > 1 {
        var c := s[n - 2];
        assert c in s && c in marked && After(s, n - 2, nil) in Kids(g[c]);
        assert Settled(g, marked, Ref(s[n - 1])) && Markable(g[s[n - 1]]);
      }
      assert s[n - 1] in s && Obj(obj, s[n - 1]) in Kids(g[s[n - 1]]);
    }
  }

  /** The heap before (`g0`) and after (`g1`) the lists were rearranged, `m` being what was marked. */
  ghost predicate Rearranged(g0: map<Cell, Shape>, g1: map<Cell, Shape>, all: seq<Cell>, lists: map<Cell, Lists>,
                             obj: map<Cell, Value>,
                             nil: Value, m: set<Cell>)
  {
    && Separate(all, lists, obj, nil, g0.Keys) && SameElsewhere(g0, g1, all, lists)
    && Listed(g0, all, lists, obj, nil) && Listed(g1, all, RunLists(all, lists, obj, m), obj, nil)
    && (forall g :: g in all ==> Distinct(Spine(ListsOf(lists, g))))
    && Closed(g0, m, m, Zero) && PrivateMarks(all, lists, m) && Private(g0, all, lists)
  }

  /** What was settled before stays settled. */
  lemma Still(g0: map<Cell, Shape>, g1: map<Cell, Shape>, all: seq<Cell>, lists: map<Cell, Lists>, m: set<Cell>,
              m2: set<Cell>, v: Value)
    requires SameElsewhere(g0, g1, all, lists) && m <= m2 && Settled(g0, m, v)
    ensures Settled(g1, m2, v)
  {
  }

  /** A marked guardian that is not torn keeps both lists whole. */
  lemma WholeIsIntact(g: Cell, g0: map<Cell, Shape>, g1: map<Cell, Shape>, all: seq<Cell>, lists: map<Cell, Lists>,
                      obj: map<Cell, Value>,
                      nil: Value, m: set<Cell>, m2: set<Cell>, bound: set<Cell>)
    requires Rearranged(g0, g1, all, lists, obj, nil, m) && Marking(g1, m + Accessible(all, lists), m2, bound, Zero)
    requires forall v :: v in MovedObjects(all, lists, obj, m) ==> Settled(g1, m2, v)
    requires g in all && g in m2 && !Torn(g, ListsOf(lists, g), obj, m)
    ensures Intact(g1, Run1(ListsOf(lists, g), obj, m), obj, m2)
  {
    hide Separate, Listed, SameElsewhere, Closed, Spines, Private;
    var l := ListsOf(lists, g);
    AccIntact(g, g0, g1, all, lists, obj, nil, m, m2, bound);
    InaccIntact(g, g0, g1, all, lists, obj, nil, m, m2, bound);
    forall c | c in Spine(Run1(l, obj, m)) ensures c in m2 && Settled(g1, m2, Obj(obj, c)) {
      RunSpine(l, obj, m);
    }
  }

  lemma AccIntact(g: Cell, g0: map<Cell, Shape>, g1: map<Cell, Shape>, all: seq<Cell>, lists: map<Cell, Lists>,
                  obj: map<Cell, Value>,
                  nil: Value, m: set<Cell>, m2: set<Cell>, bound: set<Cell>)
    requires Rearranged(g0, g1, all, lists, obj, nil, m) && Marking(g1, m + Accessible(all, lists), m2, bound, Zero)
    requires forall v :: v in MovedObjects(all, lists, obj, m) ==> Settled(g1, m2, v)
    requires g in all
    ensures forall c :: c in ListsOf(lists, g).acc ==> c in m2 && Settled(g1, m2, Obj(obj, c))
  {
    hide Separate, Listed, SameElsewhere, Closed, Spines, Private;
    forall c | c in ListsOf(lists, g).acc ensures c in m2 && Settled(g1, m2, Obj(obj, c)) {
      assert c in Accessible(all, lists);
      if !IsMarked(m, Obj(obj, c)) {
        assert c in Moved(ListsOf(lists, g).acc, obj, m);
        assert Obj(obj, c) in MovedObjects(all, lists, obj, m);
      }
    }
  }

  lemma InaccIntact(g: Cell, g0: map<Cell, Shape>, g1: map<Cell, Shape>, all: seq<Cell>, lists: map<Cell, Lists>,
                    obj: map<Cell, Value>,
                    nil: Value, m: set<Cell>, m2: set<Cell>, bound: set<Cell>)
    requires Rearranged(g0, g1, all, lists, obj, nil, m) && Marking(g1, m + Accessible(all, lists), m2, bound, Zero)
    requires g in all && g in m2 && !Torn(g, ListsOf(lists, g), obj, m)
    ensures forall c :: c in ListsOf(lists, g).inacc ==> c in m2 && Settled(g1, m2, Obj(obj, c))
  {
    hide Rearranged, Kept, Moved;
    if ListsOf(lists, g).inacc == [] {
    } else if g in m {
      ReachedIntact(g, g0, g1, all, lists, obj, nil, m, m2);
    } else {
      NewlyIntact(g, g0, g1, all, lists, obj, nil, m, m2, bound);
    }
  }

  /** The guardian was reached, and with it its list. */
  lemma ReachedIntact(g: Cell, g0: map<Cell, Shape>, g1: map<Cell, Shape>, all: seq<Cell>, lists: map<Cell, Lists>,
                      obj: map<Cell, Value>,
                      nil: Value, m: set<Cell>, m2: set<Cell>)
    requires Rearranged(g0, g1, all, lists, obj, nil, m) && g in all && g in m && m <= m2 &&
      ListsOf(lists, g).inacc != []
    ensures forall c :: c in ListsOf(lists, g).inacc ==> c in m2 && Settled(g1, m2, Obj(obj, c))
  {
    hide Separate, Spines, Private, PrivateMarks, SameElsewhere, RunLists;
    var s := ListsOf(lists, g).inacc;
    assert Ref(s[0]) in Kids(g0[g]) && Settled(g0, m, Ref(s[0])) && Markable(g0[s[0]]);
    forall c, v | c in s && c in m && v in Kids(g0[c]) ensures Settled(g0, m, v) {
      assert v == Zero || Settled(g0, m, v);
    }
    ChainMarked(g0, s, obj, nil, m, |s|);
    forall c | c in s ensures c in m2 && Settled(g1, m2, Obj(obj, c)) {
      var i :| 0 <= i < |s| && s[i] == c;
      Still(g0, g1, all, lists, m, m2, Obj(obj, c));
    }
  }

  /** Nothing moved, so its list hangs from it unchanged. */
  lemma NewlyIntact(g: Cell, g0: map<Cell, Shape>, g1: map<Cell, Shape>, all: seq<Cell>, lists: map<Cell, Lists>,
                    obj: map<Cell, Value>,
                    nil: Value, m: set<Cell>, m2: set<Cell>, bound: set<Cell>)
    requires Rearranged(g0, g1, all, lists, obj, nil, m) && Marking(g1, m + Accessible(all, lists), m2, bound, Zero)
    requires g in all && g in m2 && g !in m && Moved(ListsOf(lists, g).acc, obj, m) == [] &&
      ListsOf(lists, g).inacc != []
    ensures forall c :: c in ListsOf(lists, g).inacc ==> c in m2 && Settled(g1, m2, Obj(obj, c))
  {
    hide Kept, Moved, Separate, Private, PrivateMarks, SameElsewhere, Distinct, Spines;
    var s := ListsOf(lists, g).inacc;
    assert Run1(ListsOf(lists, g), obj, m).inacc == s;
    NotAccessible(g, all, lists, obj, nil, g0.Keys);
    InaccUnmarked(g, all, lists, m);
    UnmovedShape(g, g1, all, lists, obj, nil, m);
    assert Ref(s[0]) in Kids(g1[g]) && Settled(g1, m2, Ref(s[0])) && Markable(g1[s[0]]);
    hide Listed, ShapeList;
    forall c, v | c in s && c in m2 && v in Kids(g1[c]) ensures Settled(g1, m2, v) {
      ListIn(g1, s, obj, nil, c);
      assert v == Zero || Settled(g1, m2, v);
    }
    ChainMarked(g1, s, obj, nil, m2, |s|);
  }

  lemma ListIn(g1: map<Cell, Shape>, s: seq<Cell>, obj: map<Cell, Value>, nil: Value, c: Cell)
    requires ShapeList(g1, s, obj, nil) && c in s
    ensures c in g1
  {
  }

  lemma InaccUnmarked(g: Cell, all: seq<Cell>, lists: map<Cell, Lists>, m: set<Cell>)
    requires PrivateMarks(all, lists, m) && g in all && g !in m
    ensures forall c :: c in ListsOf(lists, g).inacc ==> c !in m
  {
  }

  lemma UnmovedShape(g: Cell, g1: map<Cell, Shape>, all: seq<Cell>, lists: map<Cell, Lists>, obj: map<Cell, Value>,
                     nil: Value, m: set<Cell>)
    requires Listed(g1, all, RunLists(all, lists, obj, m), obj, nil) && g in all &&
      Moved(ListsOf(lists, g).acc, obj, m) == []
    ensures g in g1 && ShapeList(g1, ListsOf(lists, g).inacc, obj, nil) &&
      Kids(g1[g]) == [After(ListsOf(lists, g).inacc, -1, nil)]
  {
    hide Kept, Moved;
    var l := ListsOf(lists, g);
    assert ListsOf(RunLists(all, lists, obj, m), g) == Run1(l, obj, m) && Run1(l, obj, m).inacc == l.inacc;
  }

  lemma DistinctSplit(l: Lists)
    requires Distinct(Spine(l))
    ensures forall c :: c in l.inacc ==> c !in l.acc
  {
    forall i, j | 0 <= i < |l.acc| && 0 <= j < |l.inacc| ensures l.acc[i] != l.inacc[j] {
      assert Spine(l)[i] == l.acc[i] && Spine(l)[|l.acc| + j] == l.inacc[j];
    }
  }

  /** Neither a guardian nor a pair of an inaccessible list is on an accessible list. */
  lemma NotAccessible(g: Cell, all: seq<Cell>, lists: map<Cell, Lists>, obj: map<Cell, Value>, nil: Value,
                      heap: set<Cell>)
    requires g in all && Separate(all, lists, obj, nil, heap) && Distinct(Spine(ListsOf(lists, g)))
    ensures g !in Accessible(all, lists) && forall c :: c in ListsOf(lists, g).inacc ==> c !in Accessible(all, lists)
  {
    AccessibleIn(all, lists, |all|);
    assert all[..|all|] == all;
    forall c | c in ListsOf(lists, g).inacc ensures c !in Accessible(all, lists) {
      assert c in Spine(ListsOf(lists, g));
      if c in Accessible(all, lists) {
        var h :| h in all && c in ListsOf(lists, h).acc;
        assert c in Spine(ListsOf(lists, h));
        DistinctSplit(ListsOf(lists, g));
      }
    }
  }

  /** Marking stays clear of the lost pairs: everything that led to them is already marked. */
  lemma LostBounds(g0: map<Cell, Shape>, g1: map<Cell, Shape>, all: seq<Cell>, lists: map<Cell, Lists>, obj: map<Cell,
                   Value>,
                   nil: Value, m: set<Cell>)
    requires Rearranged(g0, g1, all, lists, obj, nil, m) && Wf(g1)
    ensures Bounds(g1, m + Accessible(all, lists), g1.Keys - Lost(all, lists, obj, m))
  {
    hide Kept, Moved, Closed, PrivateMarks, Laid;
    var lost := Lost(all, lists, obj, m);
    forall c, v | c in g1 && c !in lost && c !in m + Accessible(all, lists) && v in Kids(g1[c]) && v.Ref?
      ensures v.cell !in lost
    {
      if c in all {
        GuardianKid(c, g0, g1, all, lists, obj, nil, m, v);
      } else if c in Spines(all, lists) {
        var h :| h in all && c in Spine(ListsOf(lists, h));
        PairKid(h, c, g0, g1, all, lists, obj, nil, m, v);
      } else {
        assert g1[c] == g0[c];
        LostIn(all, lists, obj, m);
      }
    }
  }

  lemma LostIn(all: seq<Cell>, lists: map<Cell, Lists>, obj: map<Cell, Value>, m: set<Cell>)
    ensures Lost(all, lists, obj, m) <= Spines(all, lists)
  {
    hide Torn;
    forall g, c | g in all && Torn(g, ListsOf(lists, g), obj, m) && c in ListsOf(lists, g).inacc
      ensures c in Spines(all, lists)
    {
      assert c in Spine(ListsOf(lists, g));
    }
  }

  /** A lost pair is on the inaccessible list of one torn guardian only. */
  lemma LostOwner(g: Cell, c: Cell, all: seq<Cell>, lists: map<Cell, Lists>, obj: map<Cell, Value>, nil: Value,
                  m: set<Cell>, heap: set<Cell>)
    requires Separate(all, lists, obj, nil, heap) && g in all && c in Spine(ListsOf(lists, g)) &&
      c in Lost(all, lists, obj, m)
    ensures Torn(g, ListsOf(lists, g), obj, m) && c in ListsOf(lists, g).inacc
  {
    hide Torn;
    var h :| h in all && Torn(h, ListsOf(lists, h), obj, m) && c in ListsOf(lists, h).inacc;
    assert c in Spine(ListsOf(lists, h));
  }

  lemma GuardianKid(g: Cell, g0: map<Cell, Shape>, g1: map<Cell, Shape>, all: seq<Cell>, lists: map<Cell, Lists>,
                    obj: map<Cell, Value>,
                    nil: Value, m: set<Cell>, v: Value)
    requires Rearranged(g0, g1, all, lists, obj, nil, m) && g in all && g in g1 && v in Kids(g1[g]) && v.Ref?
    ensures v.cell !in Lost(all, lists, obj, m)
  {
    hide Kept, Moved, Closed, PrivateMarks, Private, Spines, Lost, Listed, SameElsewhere, Separate, Distinct;
    GuardianHead(g, g1, all, lists, obj, nil, m);
    LostIn(all, lists, obj, m);
    NilApart(all, lists, obj, nil, g0.Keys);
    HeadNotLost(g, all, lists, obj, nil, m, g0.Keys);
  }

  lemma HeadNotLost(g: Cell, all: seq<Cell>, lists: map<Cell, Lists>, obj: map<Cell, Value>, nil: Value, m: set<Cell>,
                    heap: set<Cell>)
    requires Separate(all, lists, obj, nil, heap) && g in all && Distinct(Spine(ListsOf(lists, g)))
    ensures var s := Moved(ListsOf(lists, g).acc, obj, m) + ListsOf(lists, g).inacc; s != [] ==>
      s[0] !in Lost(all, lists, obj, m)
  {
    hide Kept, Moved, Spines, Lost, Torn, Distinct, Separate;
    var l := ListsOf(lists, g);
    var s := Moved(l.acc, obj, m) + l.inacc;
    if s != [] && s[0] in Lost(all, lists, obj, m) {
      assert s[0] in Spine(l) by { if Moved(l.acc, obj, m) != [] { assert s[0] == Moved(l.acc, obj, m)[0]; } }
      LostOwner(g, s[0], all, lists, obj, nil, m, heap);
      DistinctSplit(l);
      TornMoved(g, l, obj, m);
    }
  }

  lemma TornMoved(g: Cell, l: Lists, obj: map<Cell, Value>, m: set<Cell>)
    requires Torn(g, l, obj, m)
    ensures Moved(l.acc, obj, m) != [] && (Moved(l.acc, obj, m) + l.inacc)[0] in l.acc
  {
    assert (Moved(l.acc, obj, m) + l.inacc)[0] == Moved(l.acc, obj, m)[0];
  }

  lemma NilApart(all: seq<Cell>, lists: map<Cell, Lists>, obj: map<Cell, Value>, nil: Value, heap: set<Cell>)
    requires Separate(all, lists, obj, nil, heap)
    ensures nil.Ref? && nil.cell !in Spines(all, lists)
  {
  }

  lemma GuardianHead(g: Cell, g1: map<Cell, Shape>, all: seq<Cell>, lists: map<Cell, Lists>, obj: map<Cell, Value>,
                     nil: Value, m: set<Cell>)
    requires Listed(g1, all, RunLists(all, lists, obj, m), obj, nil) && g in all
    ensures g in g1 && Kids(g1[g]) == [After(Moved(ListsOf(lists, g).acc, obj, m) + ListsOf(lists, g).inacc, -1, nil)]
  {
    hide Kept, Moved, ShapeList;
  }

  lemma PairKid(h: Cell, c: Cell, g0: map<Cell, Shape>, g1: map<Cell, Shape>, all: seq<Cell>, lists: map<Cell, Lists>,
                obj: map<Cell, Value>,
                nil: Value, m: set<Cell>, v: Value)
    requires Rearranged(g0, g1, all, lists, obj, nil, m) && h in all && c in Spine(ListsOf(lists, h)) && c in g1
    requires c !in Lost(all, lists, obj, m) && c !in Accessible(all, lists) && v in Kids(g1[c]) && v.Ref?
    ensures v.cell !in Lost(all, lists, obj, m)
  {
    hide Kept, Moved, Closed, PrivateMarks, Private, Listed, SameElsewhere, Lost, Accessible;
    var l := ListsOf(lists, h);
    assert c in l.inacc by { if c in l.acc { AccIn(h, c, all, lists); } }
    var j :| 0 <= j < |l.inacc| && l.inacc[j] == c;
    InaccShape(h, j, g0, g1, all, lists, obj, nil, m);
    LostIn(all, lists, obj, m);
    SpineIn(all, lists, h);
    if v != Obj(obj, c) && j + 1 < |l.inacc| {
      assert v.cell == l.inacc[j + 1] && v.cell in Spine(l);
      if v.cell in Lost(all, lists, obj, m) {
        LostOwner(h, v.cell, all, lists, obj, nil, m, g0.Keys);
        LostHas(h, c, all, lists, obj, m);
      }
    }
  }

  lemma AccIn(h: Cell, c: Cell, all: seq<Cell>, lists: map<Cell, Lists>)
    requires h in all && c in ListsOf(lists, h).acc
    ensures c in Accessible(all, lists)
  {
  }

  lemma LostHas(h: Cell, c: Cell, all: seq<Cell>, lists: map<Cell, Lists>, obj: map<Cell, Value>, m: set<Cell>)
    requires h in all && Torn(h, ListsOf(lists, h), obj, m) && c in ListsOf(lists, h).inacc
    ensures c in Lost(all, lists, obj, m)
  {
    hide Torn;
  }

  /** Pairs that were inaccessible before keep their contents and their successors. */
  lemma InaccShape(h: Cell, j: nat, g0: map<Cell, Shape>, g1: map<Cell, Shape>, all: seq<Cell>, lists: map<Cell,
                   Lists>, obj: map<Cell, Value>,
                   nil: Value, m: set<Cell>)
    requires Rearranged(g0, g1, all, lists, obj, nil, m) && h in all && j < |ListsOf(lists, h).inacc|
    ensures var s := ListsOf(lists, h).inacc; s[j] in g1 && g1[s[j]] == Pair(Obj(obj, s[j]), After(s, j, nil))
  {
    hide Kept, Moved, Closed, PrivateMarks, Private, Separate, SameElsewhere, ShapeList;
    var l := ListsOf(lists, h);
    assert ListsOf(RunLists(all, lists, obj, m), h) == Run1(l, obj, m);
    assert ShapeList(g1, Moved(l.acc, obj, m) + l.inacc, obj, nil);
    ShapeTail(g1, Moved(l.acc, obj, m), l.inacc, obj, nil, j);
  }

  lemma ShapeTail(g: map<Cell, Shape>, x: seq<Cell>, y: seq<Cell>, obj: map<Cell, Value>, nil: Value, j: nat)
    requires ShapeList(g, x + y, obj, nil) && j < |y|
    ensures y[j] in g && g[y[j]] == Pair(Obj(obj, y[j]), After(y, j, nil))
  {
    var s := x + y;
    assert s[|x| + j] == y[j] && After(s, |x| + j, nil) == After(y, j, nil);
  }

  // ----- The whole run -----

  /** A collection's state when marking is done: the guardians' lists are in order and private. */
  ghost predicate ReadyToRun(all: seq<Cell>, lists: map<Cell, Lists>, obj: map<Cell, Value>, nil: Value,
                             heap: set<Cell>)
    reads *
  {
    && HeapOk(heap) && Separate(all, lists, obj, nil, heap) && HalfRun(all, 0, lists, obj, nil, MarkedSet(heap), heap)
    && nil.cell in heap && Settled(Shapes(heap), MarkedSet(heap), nil)
    && Closed(Shapes(heap), MarkedSet(heap), MarkedSet(heap), Zero)
    && Private(Shapes(heap), all, lists) && PrivateMarks(all, lists, MarkedSet(heap))
  }

  lemma DistinctSpines(all: seq<Cell>, lists: map<Cell, Lists>, obj: map<Cell, Value>, nil: Value, m: set<Cell>,
                       heap: set<Cell>)
    requires HalfRun(all, 0, lists, obj, nil, m, heap)
    ensures forall g :: g in all ==> Distinct(Spine(ListsOf(lists, g)))
  {
    forall g | g in all ensures Distinct(Spine(ListsOf(lists, g))) {
      var j :| 0 <= j < |all| && all[j] == g;
      HasDistinct(g, ListsOf(lists, g), nil);
    }
  }

  lemma HasDistinct(g: Cell, l: Lists, nil: Value)
    requires Has(g, l, nil)
    ensures Distinct(Spine(l))
  {
    hide List, Distinct;
    assert [] + l.acc + l.inacc == Spine(l);
  }

  /** Rearranging lists keeps the heap well formed. */
  lemma StillWf(g0: map<Cell, Shape>, g1: map<Cell, Shape>, all: seq<Cell>, lists: map<Cell, Lists>, obj: map<Cell,
                Value>, nil: Value, m: set<Cell>)
    requires Wf(g0) && Rearranged(g0, g1, all, lists, obj, nil, m) && nil.Ref? && nil.cell in g0
    ensures Wf(g1)
  {
    hide Kept, Moved, Closed, PrivateMarks, Private, Listed, Laid, Spines, Distinct, RunLists;
    forall c | c in g1 ensures Laid(g1[c]) && forall v :: v in Kids(g1[c]) && v.Ref? ==> v.cell in g1 {
      if c in all {
        GuardianWf(c, g1, all, lists, obj, nil, m);
      } else if c in Spines(all, lists) {
        SpineWf(c, g1, all, lists, obj, nil, m);
      } else {
        assert g1[c] == g0[c];
      }
    }
  }

  lemma GuardianWf(c: Cell, g1: map<Cell, Shape>, all: seq<Cell>, lists: map<Cell, Lists>, obj: map<Cell, Value>,
                   nil: Value, m: set<Cell>)
    requires Listed(g1, all, RunLists(all, lists, obj, m), obj, nil) && c in all && nil.Ref? && nil.cell in g1
    ensures c in g1 && Laid(g1[c]) && forall v :: v in Kids(g1[c]) && v.Ref? ==> v.cell in g1
  {
    hide Kept, Moved, RunLists;
    var s := ListsOf(RunLists(all, lists, obj, m), c).inacc;
    if s != [] { assert s[0] in g1; }
  }

  lemma SpineWf(c: Cell, g1: map<Cell, Shape>, all: seq<Cell>, lists: map<Cell, Lists>, obj: map<Cell, Value>,
                nil: Value, m: set<Cell>)
    requires Listed(g1, all, RunLists(all, lists, obj, m), obj, nil) && c in Spines(all, lists) && nil.Ref? &&
      nil.cell in g1
    requires Separate(all, lists, obj, nil, g1.Keys)
    ensures c in g1 && Laid(g1[c]) && forall v :: v in Kids(g1[c]) && v.Ref? ==> v.cell in g1
  {
    hide Kept, Moved, RunLists, Listed, Spine;
    var h :| h in all && c in Spine(ListsOf(lists, h));
    SpineShape(h, c, g1, all, lists, obj, nil, m);
  }

  /** Every pair of a list holds its object and leads to another pair of the heap or to `nil`. */
  lemma SpineShape(h: Cell, c: Cell, g1: map<Cell, Shape>, all: seq<Cell>, lists: map<Cell, Lists>, obj: map<Cell,
                   Value>, nil: Value, m: set<Cell>)
    requires Listed(g1, all, RunLists(all, lists, obj, m), obj, nil) && h in all && c in Spine(ListsOf(lists, h))
    ensures c in g1 && g1[c].Pair? && g1[c].car == Obj(obj, c)
    ensures g1[c].cdr == nil || (g1[c].cdr.Ref? && g1[c].cdr.cell in g1)
  {
    hide Kept, Moved, Run1, Spine;
    var next := RunLists(all, lists, obj, m);
    assert ListsOf(next, h) == Run1(ListsOf(lists, h), obj, m);
    RunSpineOne(ListsOf(lists, h), obj, m, c);
    InEither(ListsOf(next, h), c);
    var s := if c in ListsOf(next, h).acc then ListsOf(next, h).acc else ListsOf(next, h).inacc;
    var i :| 0 <= i < |s| && s[i] == c;
    assert ShapeList(g1, s, obj, nil);
    if i + 1 < |s| { assert s[i + 1] in g1; }
  }

  lemma InEither(l: Lists, c: Cell)
    requires c in Spine(l)
    ensures c in l.acc || c in l.inacc
  {
  }

  /** A surviving torn guardian has lost what it had not been asked for yet. */
  lemma TornIsNotIntact(g: Cell, g0: map<Cell, Shape>, g1: map<Cell, Shape>, all: seq<Cell>, lists: map<Cell, Lists>,
                        obj: map<Cell, Value>,
                        nil: Value, m: set<Cell>, m2: set<Cell>, bound: set<Cell>)
    requires Rearranged(g0, g1, all, lists, obj, nil, m) && Marking(g1, m + Accessible(all, lists), m2, bound, Zero)
    requires bound !! Lost(all, lists, obj, m) && g in all && Torn(g, ListsOf(lists, g), obj, m)
    ensures forall c :: c in ListsOf(lists, g).inacc ==> c !in m2
    ensures !Intact(g1, Run1(ListsOf(lists, g), obj, m), obj, m2)
  {
    hide Separate, Listed, SameElsewhere, Closed, Private, Kept, Moved, Lost;
    var l := ListsOf(lists, g);
    NotAccessible(g, all, lists, obj, nil, g0.Keys);
    forall c | c in l.inacc ensures c !in m2 {
      LostHas(g, c, all, lists, obj, m);
      assert c !in m;
    }
    assert l.inacc[0] in Run1(l, obj, m).inacc by { assert Run1(l, obj, m).inacc[|Moved(l.acc, obj,
      m)|] == l.inacc[0]; }
    assert l.inacc[0] in Spine(Run1(l, obj, m));
  }

  /** Same cars, and everything else the same elsewhere. */
  lemma Same(g0: map<Cell, Shape>, all: seq<Cell>, lists: map<Cell, Lists>, heap: set<Cell>)
    requires g0.Keys == heap
    requires forall c :: c in heap && c !in all && c !in Spines(all, lists) ==> c.Shape() == g0[c]
    requires forall c :: c in heap ==> (Markable(c.Shape()) <==> Markable(g0[c]))
    ensures SameElsewhere(g0, Shapes(heap), all, lists)
  {
  }

  /** The first phase as a change of the whole heap. */
  method Rearrange(all: seq<Cell>, nil: Value, ghost lists: map<Cell, Lists>, ghost obj: map<Cell, Value>,
                   ghost heap: set<Cell>)
    returns (changed: seq<Value>)
    requires ReadyToRun(all, lists, obj, nil, heap)
    modifies heap`cdr, heap`slots
    ensures HeapOk(heap) && Rearranged(old(Shapes(heap)), Shapes(heap), all, lists, obj, nil, old(MarkedSet(heap)))
    ensures MarkedSet(heap) == old(MarkedSet(heap)) + Accessible(all, lists)
    ensures (set v | v in changed) == MovedObjects(all, lists, obj, old(MarkedSet(heap)))
  {
    hide Separate, HalfRun, Has, Wf, Closed, Private, PrivateMarks, MovedObjects, Listed, SameElsewhere, Accessible,
         Spines, Distinct;
    ghost var g0, m := Shapes(heap), MarkedSet(heap);
    InHeap(all, lists, obj, nil, heap);
    ListedBefore(all, lists, obj, nil, m, heap);
    DistinctSpines(all, lists, obj, nil, m, heap);
    assert forall c :: c in heap ==> g0[c] == c.Shape();
    changed := SpliceAll(all, nil, lists, obj, m, heap);
    Same(g0, all, lists, heap);
    ListedAfter(all, lists, obj, nil, m, heap);
    StillWf(g0, Shapes(heap), all, lists, obj, nil, m) by { NilSeparate(all, lists, obj, nil, heap); }
    FinalMarks(all, lists, obj, nil, m, heap);
  }

  lemma NilSeparate(all: seq<Cell>, lists: map<Cell, Lists>, obj: map<Cell, Value>, nil: Value, heap: set<Cell>)
    requires Separate(all, lists, obj, nil, heap)
    ensures nil.Ref?
  {
  }

  lemma FinalMarks(all: seq<Cell>, lists: map<Cell, Lists>, obj: map<Cell, Value>, nil: Value, m: set<Cell>,
                   heap: set<Cell>)
    requires HalfRun(all, |all|, lists, obj, nil, m, heap)
    ensures MarkedSet(heap) == m + Accessible(all, lists)
  {
    assert all[..|all|] == all;
  }

  /** Guardians first tell live objects from dead ones by the marks as they are; only then are the
      objects that changed state marked.  The lists of a guardian that survives come out whole exactly
      when it was not torn: had it been unmarked, with something new to report and something still
      unread, the unread part hangs behind a pair that is already marked and is never reached. */
  method RunGuardians(all: seq<Cell>, nil: Value, ghost lists: map<Cell, Lists>, ghost obj: map<Cell, Value>,
                      ghost heap: set<Cell>)
    returns (ghost changed: seq<Value>)
    requires ReadyToRun(all, lists, obj, nil, heap)
    modifies heap`car, heap`cdr, heap`slots
    ensures HeapOk(heap) && Rearranged(old(Shapes(heap)), Shapes(heap), all, lists, obj, nil, old(MarkedSet(heap)))
    ensures (set v | v in changed) == MovedObjects(all, lists, obj, old(MarkedSet(heap)))
    ensures old(MarkedSet(heap)) + Accessible(all, lists) <= MarkedSet(heap)
    ensures Marking(Shapes(heap), old(MarkedSet(heap)) + Accessible(all, lists), MarkedSet(heap), Reach(Shapes(heap),
      changed), Zero)
    ensures AllSettled(Shapes(heap), MarkedSet(heap), changed)
    ensures MarkedSet(heap) !! Lost(all, lists, obj, old(MarkedSet(heap)))
    ensures forall g :: g in all && g in MarkedSet(heap) ==>
      (Intact(Shapes(heap), Run1(ListsOf(lists, g), obj, old(MarkedSet(heap))), obj, MarkedSet(heap))
       <==> !Torn(g, ListsOf(lists, g), obj, old(MarkedSet(heap))))
  {
    hide Separate, HalfRun, Has, Wf, Closed, Private, PrivateMarks, MovedObjects, Listed, SameElsewhere, Accessible,
         Rearranged, Bounds, Reach, Lost, Intact, Torn, Run1, MarkedSet, Shapes;
    ghost var g0, m := Shapes(heap), MarkedSet(heap);
    var objects := Rearrange(all, nil, lists, obj, heap);
    changed := objects;
    ghost var g1, m1 := Shapes(heap), MarkedSet(heap);
    ghost var bound := Reach(g1, changed) - Lost(all, lists, obj, m);
    RunBounds(g0, g1, all, lists, obj, nil, m, changed);
    NilSettled(g0, g1, all, lists, obj, nil, m, m1);
    MarkSlots(objects, nil, heap, bound);
    ghost var m2 := MarkedSet(heap);
    MarkingWithin(g1, m1, m2, bound, Reach(g1, changed));
    ChangedSettled(g1, m2, objects);
    LostUnmarked(g0, g1, all, lists, obj, nil, m, m2, bound);
    forall g | g in all && g in m2
      ensures Intact(g1, Run1(ListsOf(lists, g), obj, m), obj, m2) <==> !Torn(g, ListsOf(lists, g), obj, m)
    {
      if Torn(g, ListsOf(lists, g), obj, m) {
        TornIsNotIntact(g, g0, g1, all, lists, obj, nil, m, m2, bound);
      } else {
        WholeIsIntact(g, g0, g1, all, lists, obj, nil, m, m2, bound);
      }
    }
  }

  /** Nothing marks a lost pair. */
  lemma LostUnmarked(g0: map<Cell, Shape>, g1: map<Cell, Shape>, all: seq<Cell>, lists: map<Cell, Lists>,
                     obj: map<Cell, Value>, nil: Value,
                     m: set<Cell>, m2: set<Cell>, bound: set<Cell>)
    requires Rearranged(g0, g1, all, lists, obj, nil, m) && Marking(g1, m + Accessible(all, lists), m2, bound, Zero)
    requires bound !! Lost(all, lists, obj, m)
    ensures m2 !! Lost(all, lists, obj, m)
  {
    hide Separate, Listed, SameElsewhere, Closed, Private, Kept, Moved, Accessible;
    forall c | c in Lost(all, lists, obj, m) ensures c !in m2 {
      var g :| g in all && Torn(g, ListsOf(lists, g), obj, m) && c in ListsOf(lists, g).inacc;
      NotAccessible(g, all, lists, obj, nil, g0.Keys);
      assert c !in m;
    }
  }

  lemma MarkingWithin(g: map<Cell, Shape>, m1: set<Cell>, m2: set<Cell>, bound: set<Cell>, more: set<Cell>)
    requires Marking(g, m1, m2, bound, Zero) && bound <= more
    ensures m1 <= m2 && Marking(g, m1, m2, more, Zero)
  {
  }

  lemma ChangedSettled(g: map<Cell, Shape>, m: set<Cell>, vs: seq<Value>)
    requires AllSettled(g, m, vs)
    ensures forall v :: v in (set w | w in vs) ==> Settled(g, m, v)
  {
  }

  lemma NilSettled(g0: map<Cell, Shape>, g1: map<Cell, Shape>, all: seq<Cell>, lists: map<Cell, Lists>, obj: map<Cell,
                   Value>, nil: Value, m: set<Cell>, m1: set<Cell>)
    requires Rearranged(g0, g1, all, lists, obj, nil, m) && Settled(g0, m, nil) && m <= m1
    ensures Settled(g1, m1, nil)
  {
  }

  /** The objects that moved are in the heap, and marking from them stays among what they reach. */
  lemma RunBounds(g0: map<Cell, Shape>, g1: map<Cell, Shape>, all: seq<Cell>, lists: map<Cell, Lists>, obj: map<Cell,
                  Value>, nil: Value, m: set<Cell>, changed: seq<Value>)
    requires Rearranged(g0, g1, all, lists, obj, nil, m) && Wf(g1) &&
      (set v | v in changed) == MovedObjects(all, lists, obj, m)
    ensures forall v :: v in changed ==>
      InBound(v, g1.Keys) && InBound(v, Reach(g1, changed) - Lost(all, lists, obj, m))
    ensures Bounds(g1, m + Accessible(all, lists), Reach(g1, changed) - Lost(all, lists, obj, m))
  {
    hide Kept, Moved, Listed, Closed, Private, PrivateMarks, Reach, Lost;
    var lost := Lost(all, lists, obj, m);
    LostBounds(g0, g1, all, lists, obj, nil, m);
    ReachBounds(g1, changed, m);
    LostIn(all, lists, obj, m);
    forall v | v in changed ensures InBound(v, g1.Keys) && InBound(v, Reach(g1, changed) - lost) {
      assert v in (set w | w in changed);
      assert v in MovedObjects(all, lists, obj, m);
      var g, c :| g in all && c in Moved(ListsOf(lists, g).acc, obj, m) && v == Obj(obj, c);
      assert c in Spine(ListsOf(lists, g)) && c in Spines(all, lists);
      ReachRoot(g1, changed, v);
    }
    ReachKeys(g1, changed);
    BoundsMeet(g1, m, m + Accessible(all, lists), Reach(g1, changed), lost);
  }

  lemma ReachKeys(g: map<Cell, Shape>, vs: seq<Value>)
    ensures Reach(g, vs) <= g.Keys
  {
  }

  lemma BoundsMeet(g: map<Cell, Shape>, m: set<Cell>, m1: set<Cell>, reach: set<Cell>, lost: set<Cell>)
    requires Bounds(g, m, reach) && Bounds(g, m1, g.Keys - lost) && m <= m1 && reach <= g.Keys
    ensures Bounds(g, m1, reach - lost)
  {
  }
}
