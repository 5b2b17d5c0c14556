/** Pushing to a guardian, popping from one and allocating keep the heap in order. */
module GcChanges {
  import opened GcBlocks
  import opened GcHeap
  import opened GcGuardians
  import opened GcResurrection
  import opened GcNext
  import GcHistory

  /** `v` may be stored anywhere: it is in the heap and is not a pair of a guardian's list. */
  predicate Storable(g: map<Cell, Shape>, all: seq<Cell>, lists: map<Cell, Lists>, v: Value)
  {
    v.Ref? ==> v.cell in g && v.cell !in Spines(all, lists)
  }

  // ----- A new object -----

  lemma AddInOrder(g: map<Cell, Shape>, marks: set<Cell>, all: seq<Cell>, lists: map<Cell, Lists>, obj: map<Cell,
                   Value>, nil: Value, c: Cell, s: Shape)
    requires InOrder(g, marks, all, lists, obj, nil) && c !in g && c !in marks && Laid(s)
    requires forall v :: v in Kids(s) ==> Storable(g, all, lists, v)
    ensures InOrder(g[c := s], marks, all, lists, obj, nil)
  {
    hide Spines, Spine, Laid, Distinct;
    var g' := g[c := s];
    AddSeparate(all, lists, obj, nil, g.Keys, g'.Keys);
    AddListed(g, all, lists, obj, nil, c, s);
    forall d, v | d in marks && d in g' && v in Kids(g'[d]) ensures v == Zero || Settled(g', marks, v) {
      assert v == Zero || Settled(g, marks, v);
    }
  }

  lemma AddSeparate(all: seq<Cell>, lists: map<Cell, Lists>, obj: map<Cell, Value>, nil: Value, heap: set<Cell>,
                    more: set<Cell>)
    requires Separate(all, lists, obj, nil, heap) && heap <= more
    ensures Separate(all, lists, obj, nil, more)
  {
  }

  lemma AddListed(g: map<Cell, Shape>, all: seq<Cell>, lists: map<Cell, Lists>, obj: map<Cell, Value>, nil: Value,
                  c: Cell, s: Shape)
    requires Listed(g, all, lists, obj, nil) && c !in g
    ensures Listed(g[c := s], all, lists, obj, nil)
  {
    hide ShapeList;
    forall x | x in all
      ensures ShapeList(g[c := s], ListsOf(lists, x).acc, obj, nil) &&
        ShapeList(g[c := s], ListsOf(lists, x).inacc, obj, nil)
    {
      ListAdded(g, ListsOf(lists, x).acc, obj, nil, c, s);
      ListAdded(g, ListsOf(lists, x).inacc, obj, nil, c, s);
    }
  }

  lemma ListAdded(g: map<Cell, Shape>, l: seq<Cell>, obj: map<Cell, Value>, nil: Value, c: Cell, s: Shape)
    requires ShapeList(g, l, obj, nil) && c !in g
    ensures ShapeList(g[c := s], l, obj, nil)
  {
  }

  // ----- Assigning to a pair -----

  lemma SetInOrder(g: map<Cell, Shape>, marks: set<Cell>, all: seq<Cell>, lists: map<Cell, Lists>, obj: map<Cell,
                   Value>, nil: Value, c: Cell, s: Shape)
    requires InOrder(g, marks, all, lists, obj, nil) && c in g && c !in marks && g[c].Pair? && s.Pair?
    requires c !in all && c !in Spines(all, lists) && forall v :: v in Kids(s) ==> Storable(g, all, lists, v)
    ensures InOrder(g[c := s], marks, all, lists, obj, nil)
  {
    hide Spines, Spine, Distinct, Separate, ShapeList;
    var g' := g[c := s];
    assert g'.Keys == g.Keys;
    SetListed(g, all, lists, obj, nil, c, s);
    forall d, v | d in marks && d in g' && v in Kids(g'[d]) ensures v == Zero || Settled(g', marks, v) {
      assert v == Zero || Settled(g, marks, v);
    }
  }

  lemma SetListed(g: map<Cell, Shape>, all: seq<Cell>, lists: map<Cell, Lists>, obj: map<Cell, Value>, nil: Value,
                  c: Cell, s: Shape)
    requires Listed(g, all, lists, obj, nil) && c !in all && c !in Spines(all, lists)
    ensures Listed(g[c := s], all, lists, obj, nil)
  {
    hide ShapeList, Spines, Spine;
    forall x | x in all
      ensures ShapeList(g[c := s], ListsOf(lists, x).acc, obj, nil) &&
        ShapeList(g[c := s], ListsOf(lists, x).inacc, obj, nil)
    {
      SpineIn(all, lists, x);
      var l := ListsOf(lists, x);
      if c in l.acc || c in l.inacc { InSpine(l, c); }
      ListSet(g, l.acc, obj, nil, c, s);
      ListSet(g, l.inacc, obj, nil, c, s);
    }
  }

  lemma ListSet(g: map<Cell, Shape>, l: seq<Cell>, obj: map<Cell, Value>, nil: Value, c: Cell, s: Shape)
    requires ShapeList(g, l, obj, nil) && c !in l
    ensures ShapeList(g[c := s], l, obj, nil)
  {
  }

  // ----- Changing one guardian -----

  /** The lists of the other guardians. */
  lemma OtherLists(lists: map<Cell, Lists>, g: Cell, l: Lists, x: Cell)
    ensures ListsOf(lists[g := l], x) == if x == g then l else ListsOf(lists, x)
  {
  }

  lemma {:induction false} SpinesChanged(all: seq<Cell>, lists: map<Cell, Lists>, g: Cell, l: Lists, c: Cell)
    requires g in all
    ensures c in Spines(all, lists[g := l]) <==>
      c in Spine(l) || exists x :: x in all && x != g && c in Spine(ListsOf(lists, x))
  {
    hide Spine, ListsOf;
    if c in Spines(all, lists[g := l]) {
      var x :| x in all && c in Spine(ListsOf(lists[g := l], x));
      OtherLists(lists, g, l, x);
    }
    if c in Spine(l) { OtherLists(lists, g, l, g); assert c in Spine(ListsOf(lists[g := l], g)); }
    if exists x :: x in all && x != g && c in Spine(ListsOf(lists, x)) {
      var x :| x in all && x != g && c in Spine(ListsOf(lists, x));
      OtherLists(lists, g, l, x);
      assert c in Spine(ListsOf(lists[g := l], x));
    }
  }

  /** A change of one guardian's lists, its pairs being those it had, or one new pair `c`. */
  ghost predicate Changed(g0: map<Cell, Shape>, g1: map<Cell, Shape>, all: seq<Cell>, lists: map<Cell, Lists>, g: Cell,
                          l: Lists,
                          obj: map<Cell, Value>, obj1: map<Cell, Value>, nil: Value)
  {
    var old_ := ListsOf(lists, g);
    && g in all && g in g0 && g in g1
    && g1[g] == Object(Guardian, [After(l.inacc, -1, nil)], After(l.acc, -1, nil))
    && Distinct(Spine(l)) && ShapeList(g1, l.acc, obj1, nil) && ShapeList(g1, l.inacc, obj1, nil)
    && (forall c :: c in Spine(l) ==> c in g1 && c !in all && Obj(obj1, c).Ref? && Obj(obj1, c).cell in g1)
    && (forall c :: c in Spine(l) && c !in Spine(old_) ==>
      c !in g0 && Obj(obj1, c).cell in g0 && Obj(obj1, c).cell !in Spines(all, lists))
    && (forall c :: c in g0 && c !in Spine(old_) ==> c in g1 && (c != g ==> g1[c] == g0[c]))
    && (forall c :: c in g1 && c !in g0 ==> c in Spine(l))
    && (forall c :: c in g0 && c in Spine(old_) ==> (c in g1 <==> c in Spine(l)))
    && (forall c :: c in g0 ==> Obj(obj1, c) == Obj(obj, c))
  }

  lemma ChangedSeparate(g0: map<Cell, Shape>, g1: map<Cell, Shape>, marks: set<Cell>, all: seq<Cell>, lists: map<Cell,
                        Lists>, g: Cell, l: Lists,
                        obj: map<Cell, Value>, obj1: map<Cell, Value>, nil: Value)
    requires InOrder(g0, marks, all, lists, obj, nil) && Changed(g0, g1, all, lists, g, l, obj, obj1, nil)
    ensures Separate(all, lists[g := l], obj1, nil, g1.Keys)
  {
    hide Wf, Listed, Private, Closed, Distinct, ShapeList, Spine, ListsOf, Spines;
    var lists1 := lists[g := l];
    InHeap(all, lists, obj, nil, g0.Keys);
    NilApart(all, lists, obj, nil, g0.Keys);
    SpineIn(all, lists, g);
    forall c | c in Spines(all, lists1)
      ensures c != nil.cell && c !in all && c in g1 && Obj(obj1, c).Ref? && Obj(obj1, c).cell in g1 &&
        Obj(obj1, c).cell !in Spines(all, lists1)
    {
      SpinesChanged(all, lists, g, l, c);
      ChangedPair(g0, g1, marks, all, lists, g, l, obj, obj1, nil, c);
    }
    forall x, h, c | x in all && h in all && x != h && c in Spine(ListsOf(lists1, x))
      ensures c !in Spine(ListsOf(lists1, h))
    {
      OtherLists(lists, g, l, x);
      OtherLists(lists, g, l, h);
      ChangedApart(g0, g1, marks, all, lists, g, l, obj, obj1, nil, x, h, c);
    }
  }

  lemma ChangedApart(g0: map<Cell, Shape>, g1: map<Cell, Shape>, marks: set<Cell>, all: seq<Cell>, lists: map<Cell,
                     Lists>, g: Cell, l: Lists,
                     obj: map<Cell, Value>, obj1: map<Cell, Value>, nil: Value, x: Cell, h: Cell, c: Cell)
    requires InOrder(g0, marks, all, lists, obj, nil) && Changed(g0, g1, all, lists, g, l, obj, obj1, nil)
    requires x in all && h in all && x != h
    requires c in Spine(if x == g then l else ListsOf(lists, x))
    ensures c !in Spine(if h == g then l else ListsOf(lists, h))
  {
    hide Wf, Listed, Private, Closed, Distinct, ShapeList, Spine, ListsOf, Spines, Separate;
    if x == g {
      if c in Spine(ListsOf(lists, g)) {
        OwnPairs(all, lists, obj, nil, g0.Keys, x, h, c);
      } else if c in Spine(ListsOf(lists, h)) {
        ObjApart(h, c, all, lists, obj, nil, g0.Keys);
      }
    } else {
      ObjApart(x, c, all, lists, obj, nil, g0.Keys);
      OwnPairs(all, lists, obj, nil, g0.Keys, x, h, c);
    }
  }

  lemma ChangedPair(g0: map<Cell, Shape>, g1: map<Cell, Shape>, marks: set<Cell>, all: seq<Cell>, lists: map<Cell,
                    Lists>, g: Cell, l: Lists,
                    obj: map<Cell, Value>, obj1: map<Cell, Value>, nil: Value, c: Cell)
    requires InOrder(g0, marks, all, lists, obj, nil) && Changed(g0, g1, all, lists, g, l, obj, obj1, nil)
    requires c in Spine(l) || exists x :: x in all && x != g && c in Spine(ListsOf(lists, x))
    ensures c != nil.cell && c !in all && c in g1 && Obj(obj1, c).Ref? && Obj(obj1, c).cell in g1 &&
      Obj(obj1, c).cell !in Spines(all, lists[g := l])
  {
    hide Wf, Listed, Private, Closed, Distinct, ShapeList, Spine, ListsOf, Spines, Separate;
    NilApart(all, lists, obj, nil, g0.Keys);
    InHeap(all, lists, obj, nil, g0.Keys);
    if c in Spine(l) {
      if c in Spine(ListsOf(lists, g)) { ObjApart(g, c, all, lists, obj, nil, g0.Keys); }
    } else {
      var x :| x in all && x != g && c in Spine(ListsOf(lists, x));
      ObjApart(x, c, all, lists, obj, nil, g0.Keys);
      if c in Spine(ListsOf(lists, g)) { OwnPairs(all, lists, obj, nil, g0.Keys, x, g, c); }
      var o := Obj(obj, c).cell;
      if o in Spine(ListsOf(lists, g)) { SpineIn(all, lists, g); }
    }
    var o := Obj(obj1, c).cell;
    assert o in g0 && o !in Spines(all, lists);
    NotSpine(all, lists, g, l, o, g0);
  }

  lemma NotSpine(all: seq<Cell>, lists: map<Cell, Lists>, g: Cell, l: Lists, o: Cell, g0: map<Cell, Shape>)
    requires g in all && o in g0 && o !in Spines(all, lists)
    requires forall c :: c in Spine(l) && c !in Spine(ListsOf(lists, g)) ==> c !in g0
    ensures o !in Spines(all, lists[g := l])
  {
    hide Spine, ListsOf, Spines;
    SpinesChanged(all, lists, g, l, o);
    SpineIn(all, lists, g);
    if exists x :: x in all && x != g && o in Spine(ListsOf(lists, x)) {
      var x :| x in all && x != g && o in Spine(ListsOf(lists, x));
      SpineIn(all, lists, x);
    }
  }

  lemma ChangedListed(g0: map<Cell, Shape>, g1: map<Cell, Shape>, marks: set<Cell>, all: seq<Cell>, lists: map<Cell,
                      Lists>, g: Cell, l: Lists,
                      obj: map<Cell, Value>, obj1: map<Cell, Value>, nil: Value)
    requires InOrder(g0, marks, all, lists, obj, nil) && Changed(g0, g1, all, lists, g, l, obj, obj1, nil)
    ensures Listed(g1, all, lists[g := l], obj1, nil)
  {
    hide Wf, Private, Closed, Distinct, ShapeList, Spine, ListsOf, Spines, Separate;
    var lists1 := lists[g := l];
    forall x | x in all
      ensures x in g1 && g1[x] == Object(Guardian, [After(ListsOf(lists1, x).inacc, -1, nil)], After(ListsOf(lists1,
        x).acc, -1, nil))
      ensures ShapeList(g1, ListsOf(lists1, x).acc, obj1, nil) && ShapeList(g1, ListsOf(lists1, x).inacc, obj1, nil)
    {
      OtherLists(lists, g, l, x);
      if x != g {
        InHeap(all, lists, obj, nil, g0.Keys);
        SpineIn(all, lists, g);
        var lx := ListsOf(lists, x);
        forall c | c in lx.acc || c in lx.inacc
          ensures c in g0 && c in g1 && g1[c] == g0[c] && Obj(obj1, c) == Obj(obj, c)
        {
          InSpine(lx, c);
          ObjApart(x, c, all, lists, obj, nil, g0.Keys);
          OwnPairs(all, lists, obj, nil, g0.Keys, x, g, c);
          assert c != g;
        }
        assert ShapeList(g0, lx.acc, obj, nil) && ShapeList(g0, lx.inacc, obj, nil);
        assert forall c :: c in lx.acc ==> g1[c] == g0[c];
        ListKept(g0, g1, lx.acc, obj, obj1, nil);
        ListKept(g0, g1, lx.inacc, obj, obj1, nil);
      }
    }
  }

  lemma ListKept(g0: map<Cell, Shape>, g1: map<Cell, Shape>, s: seq<Cell>, obj: map<Cell, Value>, obj1: map<Cell,
                 Value>, nil: Value)
    requires ShapeList(g0, s, obj, nil) && forall c :: c in s ==>
      c in g0 && c in g1 && g1[c] == g0[c] && Obj(obj1, c) == Obj(obj, c)
    ensures ShapeList(g1, s, obj1, nil)
  {
  }

  /** A pair of some list is one of `g`'s or of another guardian's. */
  lemma OwnedBy(g0: map<Cell, Shape>, all: seq<Cell>, lists: map<Cell, Lists>, obj: map<Cell, Value>, nil: Value,
                g: Cell, c: Cell)
    requires c in Spines(all, lists)
    ensures c in Spine(ListsOf(lists, g)) || exists x :: x in all && x != g && c in Spine(ListsOf(lists, x))
  {
    hide Spine, ListsOf;
    SpinesOwner(all, lists, c);
  }

  /** Where the lists are not involved nothing refers to a pair that comes or goes. */
  lemma OutsideStays(g0: map<Cell, Shape>, g1: map<Cell, Shape>, marks: set<Cell>, all: seq<Cell>, lists: map<Cell,
                     Lists>, g: Cell, l: Lists,
                     obj: map<Cell, Value>, obj1: map<Cell, Value>, nil: Value, c: Cell)
    requires InOrder(g0, marks, all, lists, obj, nil) && Changed(g0, g1, all, lists, g, l, obj, obj1, nil)
    requires c in g1 && c !in all && c !in Spines(all, lists[g := l])
    ensures c in g0 && c !in Spines(all, lists) && g1[c] == g0[c]
    ensures forall v :: v in Kids(g1[c]) && v.Ref? ==> v.cell in g1 && v.cell !in Spines(all, lists[g := l])
  {
    hide Listed, Closed, Distinct, ShapeList, Spine, ListsOf, Spines, Separate, Laid;
    SpinesChanged(all, lists, g, l, c);
    assert c in g0;
    if c in Spines(all, lists) { OwnedBy(g0, all, lists, obj, nil, g, c); }
    SpineIn(all, lists, g);
    forall v | v in Kids(g1[c]) && v.Ref? ensures v.cell in g1 && v.cell !in Spines(all, lists[g := l]) {
      NotSpine(all, lists, g, l, v.cell, g0);
    }
  }

  lemma ChangedWf(g0: map<Cell, Shape>, g1: map<Cell, Shape>, marks: set<Cell>, all: seq<Cell>, lists: map<Cell,
                  Lists>, g: Cell, l: Lists,
                  obj: map<Cell, Value>, obj1: map<Cell, Value>, nil: Value)
    requires InOrder(g0, marks, all, lists, obj, nil) && Changed(g0, g1, all, lists, g, l, obj, obj1, nil)
    requires Listed(g1, all, lists[g := l], obj1, nil) && Separate(all, lists[g := l], obj1, nil, g1.Keys)
    ensures Wf(g1) && nil.Ref? && nil.cell in g1
  {
    hide Listed, Private, Closed, Distinct, ShapeList, Spine, ListsOf, Spines, Separate, Laid;
    NilApart(all, lists, obj, nil, g0.Keys);
    SpineIn(all, lists, g);
    forall c | c in g1 ensures Laid(g1[c]) && forall v :: v in Kids(g1[c]) && v.Ref? ==> v.cell in g1 {
      if c in all {
        GuardianHolds(c, g1, all, lists[g := l], obj1, nil);
      } else if c in Spines(all, lists[g := l]) {
        PairHolds(c, g1, all, lists[g := l], obj1, nil);
      } else {
        OutsideStays(g0, g1, marks, all, lists, g, l, obj, obj1, nil, c);
        assert Laid(g0[c]);
      }
    }
  }

  lemma GuardianHolds(c: Cell, g1: map<Cell, Shape>, all: seq<Cell>, lists: map<Cell, Lists>, obj: map<Cell, Value>,
                      nil: Value)
    requires Listed(g1, all, lists, obj, nil) && c in all && nil.Ref? && nil.cell in g1
    ensures c in g1 && Laid(g1[c]) && forall v :: v in Kids(g1[c]) && v.Ref? ==> v.cell in g1
  {
    var s := ListsOf(lists, c).inacc;
    if s != [] { assert s[0] in g1; }
  }

  lemma PairHolds(c: Cell, g1: map<Cell, Shape>, all: seq<Cell>, lists: map<Cell, Lists>, obj: map<Cell, Value>,
                  nil: Value)
    requires Listed(g1, all, lists, obj, nil) && Separate(all, lists, obj, nil, g1.Keys) && c in Spines(all, lists) &&
      nil.Ref? && nil.cell in g1
    ensures c in g1 && Laid(g1[c]) && forall v :: v in Kids(g1[c]) && v.Ref? ==> v.cell in g1
  {
    hide Spine, ListsOf, Spines, Separate;
    SpinesOwner(all, lists, c);
    var h :| h in all && c in Spine(ListsOf(lists, h));
    ObjApart(h, c, all, lists, obj, nil, g1.Keys);
    InEither(ListsOf(lists, h), c);
    var s := if c in ListsOf(lists, h).acc then ListsOf(lists, h).acc else ListsOf(lists, h).inacc;
    var i :| 0 <= i < |s| && s[i] == c;
    assert ShapeList(g1, s, obj, nil);
    if i + 1 < |s| { assert s[i + 1] in g1; }
  }

  lemma ChangedMarks(g0: map<Cell, Shape>, g1: map<Cell, Shape>, marks: set<Cell>, all: seq<Cell>, lists: map<Cell,
                     Lists>, g: Cell, l: Lists,
                     obj: map<Cell, Value>, obj1: map<Cell, Value>, nil: Value)
    requires InOrder(g0, marks, all, lists, obj, nil) && Changed(g0, g1, all, lists, g, l, obj, obj1, nil)
    requires marks <= g0.Keys && forall x :: x in all ==> x !in marks
    ensures Settled(g1, marks, nil) && Closed(g1, marks, marks, Zero) && marks !! Spines(all, lists[g := l])
  {
    hide Wf, Listed, Private, Distinct, ShapeList, Spine, ListsOf, Spines, Separate;
    NilApart(all, lists, obj, nil, g0.Keys);
    SpineIn(all, lists, g);
    forall c | c in marks ensures c !in Spines(all, lists[g := l]) { NotSpine(all, lists, g, l, c, g0); }
    NilNotGuardian(g0, all, lists, obj, nil, marks);
    forall c, v | c in marks && c in g1 && v in Kids(g1[c]) ensures v == Zero || Settled(g1, marks, v) {
      assert v == Zero || Settled(g0, marks, v);
      if v.Ref? && v.cell in g1 && v.cell !in marks &&
        v.cell in g0 { MarkableStays(g0, g1, all, lists, g, l, obj, obj1, nil, v.cell); }
      if v.Ref? && v.cell in g1 && v.cell !in g0 { OldKids(g0, marks, all, lists, obj, nil, c, v); }
    }
  }

  lemma OldKids(g0: map<Cell, Shape>, marks: set<Cell>, all: seq<Cell>, lists: map<Cell, Lists>, obj: map<Cell, Value>,
                nil: Value, c: Cell, v: Value)
    requires InOrder(g0, marks, all, lists, obj, nil) && c in g0 && v in Kids(g0[c]) && v.Ref?
    ensures v.cell in g0
  {
    hide Listed, Private, Distinct, Separate, Closed, Spines;
  }

  lemma MarkableStays(g0: map<Cell, Shape>, g1: map<Cell, Shape>, all: seq<Cell>, lists: map<Cell, Lists>, g: Cell,
                      l: Lists,
                      obj: map<Cell, Value>, obj1: map<Cell, Value>, nil: Value, c: Cell)
    requires Changed(g0, g1, all, lists, g, l, obj, obj1, nil) && c in g0 && c in g1 && Listed(g0, all, lists, obj, nil)
    requires !Markable(g0[c])
    ensures !Markable(g1[c])
  {
    hide Distinct, ListsOf, Spines;
    hide Spine, ShapeList;
    if c in Spine(ListsOf(lists, g)) { PairShape(g0, all, lists, g, obj, nil, c); }
  }

  lemma PairShape(g0: map<Cell, Shape>, all: seq<Cell>, lists: map<Cell, Lists>, g: Cell, obj: map<Cell, Value>,
                  nil: Value, c: Cell)
    requires Listed(g0, all, lists, obj, nil) && g in all && c in Spine(ListsOf(lists, g))
    ensures c in g0 && g0[c].Pair?
  {
    hide ListsOf, Spine;
    var l := ListsOf(lists, g);
    InEither(l, c);
    var s := if c in l.acc then l.acc else l.inacc;
    assert ShapeList(g0, s, obj, nil);
  }

  /** One guardian's lists have changed and the heap is still in order. */
  lemma ChangedInOrder(g0: map<Cell, Shape>, g1: map<Cell, Shape>, marks: set<Cell>, all: seq<Cell>, lists: map<Cell,
                       Lists>, g: Cell, l: Lists,
                       obj: map<Cell, Value>, obj1: map<Cell, Value>, nil: Value)
    requires InOrder(g0, marks, all, lists, obj, nil) && Changed(g0, g1, all, lists, g, l, obj, obj1, nil)
    requires marks <= g0.Keys && forall x :: x in all ==> x !in marks
    ensures InOrder(g1, marks, all, lists[g := l], obj1, nil)
  {
    ChangedSeparate(g0, g1, marks, all, lists, g, l, obj, obj1, nil);
    ChangedListed(g0, g1, marks, all, lists, g, l, obj, obj1, nil);
    ChangedWf(g0, g1, marks, all, lists, g, l, obj, obj1, nil);
    ChangedMarks(g0, g1, marks, all, lists, g, l, obj, obj1, nil);
    hide Wf, Listed, Closed, ShapeList, Spine, Spines, Separate, ListsOf, Settled, Kids, Laid;
    forall c, v | c in g1 && c !in all && c !in Spines(all, lists[g := l]) && v in Kids(g1[c]) && v.Ref?
      ensures v.cell !in Spines(all, lists[g := l])
    {
      OutsideStays(g0, g1, marks, all, lists, g, l, obj, obj1, nil, c);
    }
    forall x | x in all ensures Distinct(Spine(ListsOf(lists[g := l], x))) { OtherLists(lists, g, l, x); }
  }

  // ----- Push and pop -----

  function PushLists(l: Lists, c: Cell): Lists
  {
    Lists([c] + l.acc, l.inacc)
  }

  function PopLists(l: Lists): Lists
    requires l.inacc != []
  {
    Lists(l.acc, l.inacc[1..])
  }

  function PushShapes(g0: map<Cell, Shape>, g: Cell, l: Lists, c: Cell, v: Value, nil: Value): map<Cell, Shape>
  {
    g0[c := Pair(v, After(l.acc, -1, nil))][g := Object(Guardian, [After(l.inacc, -1, nil)], Ref(c))]
  }

  function PopShapes(g0: map<Cell, Shape>, g: Cell, l: Lists, nil: Value): map<Cell, Shape>
    requires l.inacc != []
  {
    (g0 - {l.inacc[0]})[g := Object(Guardian, [After(l.inacc[1..], -1, nil)], After(l.acc, -1, nil))]
  }

  /** A list with a new pair in front, everything else in the heap being as before but `g`. */
  lemma PushedList(g0: map<Cell, Shape>, g1: map<Cell, Shape>, s: seq<Cell>, c: Cell, v: Value, obj: map<Cell, Value>,
                   nil: Value)
    requires ShapeList(g0, s, obj, nil) && c !in g0 && (forall d :: d in s ==> d in g1 && g1[d] == g0[d])
    requires c in g1 && g1[c] == Pair(v, After(s, -1, nil))
    ensures ShapeList(g1, [c] + s, obj[c := v], nil)
  {
    var t := [c] + s;
    forall i | 0 <= i < |t| ensures t[i] in g1 && g1[t[i]] == Pair(Obj(obj[c := v], t[i]), After(t, i, nil)) {
      GcHistory.AfterCons(c, s, i, nil);
      if i > 0 { assert s[i - 1] in s && s[i - 1] in g0; }
    }
  }

  lemma OldList(g0: map<Cell, Shape>, g1: map<Cell, Shape>, s: seq<Cell>, c: Cell, v: Value, obj: map<Cell, Value>,
                nil: Value)
    requires ShapeList(g0, s, obj, nil) && c !in g0 && (forall d :: d in s ==> d in g1 && g1[d] == g0[d])
    ensures ShapeList(g1, s, obj[c := v], nil)
  {
    forall i | 0 <= i < |s| ensures s[i] in g1 && g1[s[i]] == Pair(Obj(obj[c := v], s[i]), After(s, i, nil)) {
      assert s[i] in s && s[i] in g0;
    }
  }

  lemma PushedShapes(g0: map<Cell, Shape>, g: Cell, l: Lists, c: Cell, v: Value, nil: Value)
    requires c !in g0 && g in g0
    ensures var g1 := PushShapes(g0, g, l, c, v, nil);
      g1.Keys == g0.Keys + {c} && (forall d :: d in g0 && d != g ==> g1[d] == g0[d]) &&
        g1[c] == Pair(v, After(l.acc, -1, nil)) &&
      g1[g] == Object(Guardian, [After(l.inacc, -1, nil)], Ref(c))
  {
  }

  lemma PushedSpine(l: Lists, c: Cell)
    requires Distinct(Spine(l)) && c !in Spine(l)
    ensures Distinct(Spine(PushLists(l, c))) && forall d :: d in Spine(PushLists(l, c)) <==> d == c || d in Spine(l)
  {
    GcHistory.DistinctCons(c, Spine(l));
    assert [c] + Spine(l) == Spine(PushLists(l, c));
  }

  lemma PushedSpineOne(l: Lists, c: Cell, d: Cell)
    ensures d in Spine(PushLists(l, c)) <==> d == c || d in Spine(l)
  {
  }

  lemma PushChanges(g0: map<Cell, Shape>, marks: set<Cell>, all: seq<Cell>, lists: map<Cell, Lists>, g: Cell, c: Cell,
                    v: Value,
                    obj: map<Cell, Value>, nil: Value)
    requires InOrder(g0, marks, all, lists, obj, nil) && g in all && c !in g0 && v.Ref? && Storable(g0, all, lists, v)
    ensures var l := ListsOf(lists, g);
      Changed(g0, PushShapes(g0, g, l, c, v, nil), all, lists, g, PushLists(l, c), obj, obj[c := v], nil)
  {
    hide Wf, Private, Closed, Spines, Separate, ListsOf, ShapeList, Distinct, Spine, PushShapes, Listed;
    var l := ListsOf(lists, g);
    var g1 := PushShapes(g0, g, l, c, v, nil);
    InHeap(all, lists, obj, nil, g0.Keys);
    SpineIn(all, lists, g);
    PushedShapes(g0, g, l, c, v, nil);
    GuardianIs(g0, all, lists, g, obj, nil);
    forall d | d in Spine(l) ensures d in g0 && d !in all && Obj(obj, d).Ref? && Obj(obj, d).cell in g0 {
      ObjApart(g, d, all, lists, obj, nil, g0.Keys);
    }
    PushedSpine(l, c);
    forall d | d in l.acc || d in l.inacc ensures d in g0 && d != g { InSpine(l, d); }
    PushedList(g0, g1, l.acc, c, v, obj, nil);
    OldList(g0, g1, l.inacc, c, v, obj, nil);
    var l1, obj1 := PushLists(l, c), obj[c := v];
    forall d | d in Spine(l1) ensures d in g1 && d !in all && Obj(obj1, d).Ref? && Obj(obj1, d).cell in g1 {
      if d == c {
        assert Obj(obj1, d) == v;
      } else {
        PushedSpineOne(l, c, d);
        assert Obj(obj1, d) == Obj(obj, d);
      }
    }
  }

  lemma GuardianIs(g0: map<Cell, Shape>, all: seq<Cell>, lists: map<Cell, Lists>, g: Cell, obj: map<Cell, Value>,
                   nil: Value)
    requires Listed(g0, all, lists, obj, nil) && g in all
    ensures var l := ListsOf(lists, g);
      g in g0 && g0[g] == Object(Guardian, [After(l.inacc, -1, nil)], After(l.acc, -1, nil)) &&
        ShapeList(g0, l.acc, obj, nil) && ShapeList(g0, l.inacc, obj, nil)
  {
  }

  lemma RestList(g0: map<Cell, Shape>, g1: map<Cell, Shape>, s: seq<Cell>, obj: map<Cell, Value>, nil: Value)
    requires s != [] && ShapeList(g0, s, obj, nil) && forall d :: d in s[1..] ==> d in g1 && g1[d] == g0[d]
    ensures ShapeList(g1, s[1..], obj, nil)
  {
    var t := s[1..];
    forall i | 0 <= i < |t| ensures t[i] in g1 && g1[t[i]] == Pair(Obj(obj, t[i]), After(t, i, nil)) {
      assert t[i] == s[i + 1] && After(t, i, nil) == After(s, i + 1, nil) && t[i] in t;
    }
  }

  lemma PopChanges(g0: map<Cell, Shape>, marks: set<Cell>, all: seq<Cell>, lists: map<Cell, Lists>, g: Cell,
                   obj: map<Cell, Value>, nil: Value)
    requires InOrder(g0, marks, all, lists, obj, nil) && g in all && ListsOf(lists, g).inacc != []
    ensures var l := ListsOf(lists, g); Changed(g0, PopShapes(g0, g, l, nil), all, lists, g, PopLists(l), obj, obj, nil)
  {
    hide Wf, Private, Closed, Spines, Separate, ListsOf, ShapeList, Distinct, Listed;
    var l := ListsOf(lists, g);
    var g1, p := PopShapes(g0, g, l, nil), l.inacc[0];
    InHeap(all, lists, obj, nil, g0.Keys);
    SpineIn(all, lists, g);
    GcHistory.DistinctWithout(l.acc, l.inacc);
    PoppedOnce(l);
    forall d | d in l.acc || d in l.inacc ensures d in g0 && d != g && d in Spine(l) { InSpine(l, d); }
    GuardianIs(g0, all, lists, g, obj, nil);
    ListKept(g0, g1, l.acc, obj, obj, nil);
    RestList(g0, g1, l.inacc, obj, nil);
    forall d | d in Spine(l)
      ensures d in g0 && d !in all && Obj(obj, d).Ref? && Obj(obj, d).cell in g0 && Obj(obj, d).cell != p
    {
      ObjApart(g, d, all, lists, obj, nil, g0.Keys);
      InSpine(l, p);
    }
  }

  lemma PoppedOnce(l: Lists)
    requires l.inacc != [] && Distinct(Spine(l))
    ensures l.inacc[0] !in Spine(PopLists(l)) && l.inacc[0] !in l.acc && l.inacc[0] !in l.inacc[1..]
    ensures forall d :: d in Spine(l) <==> d == l.inacc[0] || d in Spine(PopLists(l))
  {
    var x, y := l.acc, l.inacc;
    forall i | 0 <= i < |x| ensures x[i] != y[0] { assert Spine(l)[i] == x[i] && Spine(l)[|x|] == y[0]; }
    forall i | 1 <= i < |y| ensures y[i] != y[0] { assert Spine(l)[|x| + i] == y[i] && Spine(l)[|x|] == y[0]; }
    assert y == [y[0]] + y[1..];
  }

  // ----- A new guardian -----

  lemma NewSpines(all: seq<Cell>, lists: map<Cell, Lists>, g: Cell)
    requires g !in all
    ensures Spines([g] + all, lists[g := Lists([], [])]) == Spines(all, lists)
    ensures forall x :: x in all ==> ListsOf(lists[g := Lists([], [])], x) == ListsOf(lists, x)
    ensures Spine(ListsOf(lists[g := Lists([], [])], g)) == []
  {
    var all1, lists1 := [g] + all, lists[g := Lists([], [])];
    forall c | c in Spines(all1, lists1) ensures c in Spines(all, lists) {
      var x :| x in all1 && c in Spine(ListsOf(lists1, x));
      OtherLists(lists, g, Lists([], []), x);
    }
    forall c | c in Spines(all, lists) ensures c in Spines(all1, lists1) {
      var x :| x in all && c in Spine(ListsOf(lists, x));
      assert x in all1 && c in Spine(ListsOf(lists1, x));
    }
  }

  lemma NewGuardianInOrder(g0: map<Cell, Shape>, marks: set<Cell>, all: seq<Cell>, lists: map<Cell, Lists>,
                           obj: map<Cell, Value>, nil: Value, g: Cell)
    requires InOrder(g0, marks, all, lists, obj, nil) && g !in g0 && g !in marks
    ensures InOrder(g0[g := Object(Guardian, [nil], nil)], marks, [g] + all, lists[g := Lists([], [])], obj, nil)
  {
    var s := Object(Guardian, [nil], nil);
    var g1, all1, lists1 := g0[g := s], [g] + all, lists[g := Lists([], [])];
    InHeap(all, lists, obj, nil, g0.Keys);
    NilApart(all, lists, obj, nil, g0.Keys);
    NewSpines(all, lists, g);
    AddInOrder(g0, marks, all, lists, obj, nil, g, s);
    GcHistory.DistinctCons(g, all);
    NewSeparate(g0, marks, all, lists, obj, nil, g);
    hide Wf, Closed, Spines, Spine, ListsOf, Separate, Settled, Kids;
    forall x | x in all1
      ensures x in g1 && g1[x] == Object(Guardian, [After(ListsOf(lists1, x).inacc, -1, nil)], After(ListsOf(lists1,
        x).acc, -1, nil))
      ensures ShapeList(g1, ListsOf(lists1, x).acc, obj, nil) && ShapeList(g1, ListsOf(lists1, x).inacc, obj, nil)
      ensures Distinct(Spine(ListsOf(lists1, x)))
    {
      OtherLists(lists, g, Lists([], []), x);
    }
  }

  lemma NewSeparate(g0: map<Cell, Shape>, marks: set<Cell>, all: seq<Cell>, lists: map<Cell, Lists>, obj: map<Cell,
                    Value>, nil: Value, g: Cell)
    requires Separate(all, lists, obj, nil, g0.Keys) && g !in g0
    ensures Separate([g] + all, lists[g := Lists([], [])], obj, nil, g0.Keys + {g})
  {
    hide Spines, Spine, ListsOf;
    var all1, lists1 := [g] + all, lists[g := Lists([], [])];
    NewSpines(all, lists, g);
    GcHistory.DistinctCons(g, all);
    forall x, h, c | x in all1 && h in all1 && x != h && c in Spine(ListsOf(lists1, x))
      ensures c !in Spine(ListsOf(lists1, h))
    {
      OtherLists(lists, g, Lists([], []), x);
      OtherLists(lists, g, Lists([], []), h);
    }
  }
}
