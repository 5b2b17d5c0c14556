/** Heap cells as the collector sees them, and marking.  A pair keeps its mark in the low bit of its
    cdr word; every other object keeps it in its header word. */
module GcHeap {

  datatype Kind =
    | Symbol | String | StaticString | Number | Vector | Closure | Char | Subr | Special | Guardian
    | Datum       // also every type whose mark function marks all the values it holds

  datatype Value = Zero | Int(n: int) | Ref(cell: Cell)

  /** A machine word: a value, or the header of an object that is not a pair. */
  datatype Word = Pointer(v: Value, mark: bool) | Header(kind: Kind, mark: bool)

  /** What a cell holds, marks aside; `hidden` is a guardian's accessible list, which marking ignores. */
  datatype Shape = Pair(car: Value, cdr: Value) | Object(kind: Kind, slots: seq<Value>, hidden: Value)

  class Cell {
    var car: Word
    var cdr: Word            // a pair's cdr; in a guardian, its accessible list
    var slots: seq<Value>    // the values an object holds, in the order they are marked

    constructor (car: Word, cdr: Word, slots: seq<Value>)
      ensures this.car == car && this.cdr == cdr && this.slots == slots
    {
      this.car, this.cdr, this.slots := car, cdr, slots;
    }

    predicate IsPair()
      reads this
    {
      car.Pointer?
    }

    predicate Marked()
      reads this
    {
      if car.Pointer? then cdr.mark else car.mark
    }

    ghost function Shape(): Shape
      reads this
    {
      if car.Pointer? then Pair(car.v, if cdr.Pointer? then cdr.v else Zero) else Object(car.kind, slots,
        if car.kind.Guardian? && cdr.Pointer? then cdr.v else Zero)
    }

    /** The second word of a pair or a guardian is a pointer; the first word of a pair has no mark. */
    ghost predicate Proper()
      reads this
    {
      if car.Pointer? then cdr.Pointer? && !car.mark else car.kind.Guardian? ==> cdr.Pointer?
    }

    method SetMark()
      requires Proper()
      modifies this`car, this`cdr
      ensures Marked() && Proper() && Shape() == old(Shape())
    {
      if IsPair() {
        cdr := Pointer(cdr.v, true);
      } else {
        car := Header(car.kind, true);
      }
    }

  }

  // ----- The heap as a value -----

  /** Objects whose mark bit is ever set; the others live outside the collected heap. */
  predicate Markable(s: Shape)
  {
    s.Pair? || !(s.kind.Subr? || s.kind.Special? || s.kind.StaticString?)
  }

  function Kids(s: Shape): seq<Value>
  {
    if s.Pair? then [s.car, s.cdr] else s.slots
  }

  ghost function Shapes(heap: set<Cell>): (g: map<Cell, Shape>)
    reads heap
    ensures g.Keys == heap
  {
    map c | c in heap :: c.Shape()
  }

  ghost function MarkedSet(heap: set<Cell>): set<Cell>
    reads heap
  {
    set c | c in heap && c.Marked()
  }

  /** The fixed layouts the marker relies on: strings, numbers and primitives hold no values. */
  predicate Laid(s: Shape)
  {
    s.Object? ==>
      && (s.kind.Symbol? ==> |s.slots| == 2 && !s.slots[1].Int?)
      && (s.kind.Closure? ==> |s.slots| == 4)
      && (s.kind.Char? ==> |s.slots| == 1 && !s.slots[0].Int?)
      && (s.kind.Guardian? ==> |s.slots| == 1)
      && (s.kind.String? || s.kind.StaticString? || s.kind.Number? || s.kind.Subr? || s.kind.Special? ==>
          s.slots == [])
  }

  ghost predicate Wf(g: map<Cell, Shape>)
  {
    && (forall c :: c in g ==> Laid(g[c]))
    && (forall c, v :: c in g && v in Kids(g[c]) && v.Ref? ==> v.cell in g)
  }

  ghost predicate HeapOk(heap: set<Cell>)
    reads heap
  {
    Wf(Shapes(heap)) && forall c :: c in heap ==> c.Proper()
  }

  /** Nothing is left to do for `v`. */
  ghost predicate Settled(g: map<Cell, Shape>, marked: set<Cell>, v: Value)
  {
    v.Ref? && v.cell in g ==> v.cell in marked || !Markable(g[v.cell])
  }

  /** Everything the cells of `some` hold is settled, except perhaps `pending`. */
  ghost predicate Closed(g: map<Cell, Shape>, some: set<Cell>, marked: set<Cell>, pending: Value)
  {
    forall c, v :: c in some && c in g && v in Kids(g[c]) ==> v == pending || Settled(g, marked, v)
  }

  /** Marking that starts inside `bound` stays inside it. */
  ghost predicate Bounds(g: map<Cell, Shape>, marked: set<Cell>, bound: set<Cell>)
  {
    forall c, v :: c in bound && c in g && c !in marked && v in Kids(g[c]) && v.Ref? ==> v.cell in bound
  }

  ghost predicate InBound(v: Value, bound: set<Cell>)
  {
    v.Ref? ==> v.cell in bound
  }

  // ----- Marking -----

  /** Setting one mark adds one cell to the marked ones and changes no contents. */
  method SetMarkIn(c: Cell, ghost heap: set<Cell>)
    requires c in heap && HeapOk(heap)
    modifies c`car, c`cdr
    ensures HeapOk(heap) && Shapes(heap) == old(Shapes(heap)) && c.Marked()
    ensures MarkedSet(heap) == old(MarkedSet(heap)) + {c}
  {
    c.SetMark();
    assert forall d :: d in heap && d != c ==> d.Marked() == old(d.Marked()) && d.Shape() == old(d.Shape());
    assert Shapes(heap) == old(Shapes(heap));
  }

  lemma CountDrops(heap: set<Cell>, before: set<Cell>, after: set<Cell>, c: Cell)
    requires c in heap && c !in before && c in after && before <= after
    ensures |heap - after| < |heap - before|
  {
    var more := heap - before - {c};
    assert heap - after <= more;
    Smaller(heap - after, more);
    assert |more| == |heap - before| - 1;
  }

  lemma Smaller(x: set<Cell>, y: set<Cell>)
    requires x <= y
    ensures |x| <= |y|
  {
    if x != {} {
      var e :| e in x;
      Smaller(x - {e}, y - {e});
    }
  }

  /** What one marking step may do: everything newly marked lies within `bound` and is closed. */
  ghost predicate Marking(g: map<Cell, Shape>, before: set<Cell>, after: set<Cell>, bound: set<Cell>, pending: Value)
  {
    && before <= after && after - before <= bound && Closed(g, after - before, after, pending)
    && forall c :: c in after && c !in before ==> c in g && Markable(g[c])
  }

  lemma MarkingTrans(g: map<Cell, Shape>, a: set<Cell>, b: set<Cell>, c: set<Cell>, bound: set<Cell>, pending: Value)
    requires Marking(g, a, b, bound, pending) && Marking(g, b, c, bound, Zero)
    ensures Marking(g, a, c, bound, pending)
  {
    forall d, v | d in c - a && d in g && v in Kids(g[d]) ensures v == pending || Settled(g, c, v) {
      if d in b {
        assert v == pending || Settled(g, b, v);
      } else {
        assert v == Zero || Settled(g, c, v);
      }
    }
  }

  method MarkVal(v: Value, nil: Value, ghost heap: set<Cell>, ghost bound: set<Cell>)
    requires HeapOk(heap) && InBound(v, heap) && InBound(v, bound) && Bounds(Shapes(heap), MarkedSet(heap), bound)
    requires Settled(Shapes(heap), MarkedSet(heap), nil)
    modifies heap`car, heap`cdr
    ensures HeapOk(heap) && Shapes(heap) == old(Shapes(heap))
    ensures Marking(Shapes(heap), old(MarkedSet(heap)), MarkedSet(heap), bound, Zero)
    ensures Settled(Shapes(heap), MarkedSet(heap), v)
    decreases |heap - MarkedSet(heap)|, 3
  {
    if v.Ref? {
      if !v.cell.Marked() {
        MarkValue(v, nil, heap, bound);
      }
    }
  }

  ghost predicate AllSettled(g: map<Cell, Shape>, m: set<Cell>, vs: seq<Value>)
  {
    forall v :: v in vs ==> Settled(g, m, v)
  }

  lemma SettledConcat(g: map<Cell, Shape>, m: set<Cell>, xs: seq<Value>, ys: seq<Value>)
    requires AllSettled(g, m, xs) && AllSettled(g, m, ys)
    ensures AllSettled(g, m, xs + ys)
  {
  }

  lemma SettledGrow(g: map<Cell, Shape>, m: set<Cell>, m': set<Cell>, vs: seq<Value>)
    requires AllSettled(g, m, vs) && m <= m'
    ensures AllSettled(g, m', vs)
  {
  }

  lemma MarkingGrows(g: map<Cell, Shape>, a: set<Cell>, b: set<Cell>, bound: set<Cell>)
    requires Marking(g, a, b, bound, Zero)
    ensures a <= b
  {
  }

  lemma SettledNothing(g: map<Cell, Shape>, m: set<Cell>)
    ensures AllSettled(g, m, [])
  {
  }

  lemma SettledEach(g: map<Cell, Shape>, m: set<Cell>, vs: seq<Value>)
    requires AllSettled(g, m, vs)
    ensures forall v :: v in vs ==> Settled(g, m, v)
  {
  }

  /** Marks a run of values. */
  method MarkSlots(vs: seq<Value>, nil: Value, ghost heap: set<Cell>, ghost bound: set<Cell>)
    requires HeapOk(heap) && (forall v :: v in vs ==> InBound(v, heap) && InBound(v, bound)) &&
      Bounds(Shapes(heap), MarkedSet(heap), bound)
    requires Settled(Shapes(heap), MarkedSet(heap), nil)
    modifies heap`car, heap`cdr
    ensures HeapOk(heap) && Shapes(heap) == old(Shapes(heap))
    ensures Marking(Shapes(heap), old(MarkedSet(heap)), MarkedSet(heap), bound, Zero)
    ensures AllSettled(Shapes(heap), MarkedSet(heap), vs)
    decreases |heap - MarkedSet(heap)|, 4
  {
    hide Bounds, HeapOk, Closed, Marking, Shapes, MarkedSet, Settled, AllSettled, InBound;
    ghost var g, m0 := Shapes(heap), MarkedSet(heap);
    MarkingNone(g, m0, bound, Zero);
    SettledNothing(g, m0);
    assert vs[..0] == [];
    for i := 0 to |vs|
      invariant HeapOk(heap) && Shapes(heap) == g && Marking(g, m0, MarkedSet(heap), bound, Zero)
      invariant Bounds(g, MarkedSet(heap), bound) && Settled(g, MarkedSet(heap), nil)
      invariant AllSettled(g, MarkedSet(heap), vs[..i]) && m0 <= MarkedSet(heap)
    {
      ghost var m := MarkedSet(heap);
      Smaller(heap - m, heap - m0);
      MarkVal(vs[i], nil, heap, bound);
      MarkingGrows(g, m, MarkedSet(heap), bound);
      MarkingTrans(g, m0, m, MarkedSet(heap), bound, Zero);
      BoundsGrow(g, m, MarkedSet(heap), bound);
      SettledGrow(g, m, MarkedSet(heap), vs[..i]);
      SettledStill(g, m, MarkedSet(heap), nil);
      SettledOne(g, MarkedSet(heap), vs[i]);
      SettledConcat(g, MarkedSet(heap), vs[..i], [vs[i]]);
      assert vs[..i + 1] == vs[..i] + [vs[i]];
    }
    assert vs[..|vs|] == vs;
  }

  lemma SettledOne(g: map<Cell, Shape>, m: set<Cell>, v: Value)
    requires Settled(g, m, v)
    ensures AllSettled(g, m, [v])
  {
  }

  lemma BoundsGrow(g: map<Cell, Shape>, m: set<Cell>, m': set<Cell>, bound: set<Cell>)
    requires Bounds(g, m, bound) && m <= m'
    ensures Bounds(g, m', bound)
  {
  }

  lemma MarkingNone(g: map<Cell, Shape>, m: set<Cell>, bound: set<Cell>, pending: Value)
    ensures Marking(g, m, m, bound, pending)
  {
  }

  /** Marks one pair; `next` is what remains, its car when it ends a list, otherwise its cdr. */
  method MarkPair(c: Cell, nil: Value, ghost heap: set<Cell>, ghost bound: set<Cell>) returns (next: Value)
    requires HeapOk(heap) && c in heap && c in bound && !c.Marked() && c.IsPair() &&
      Bounds(Shapes(heap), MarkedSet(heap), bound)
    requires Settled(Shapes(heap), MarkedSet(heap), nil)
    modifies heap`car, heap`cdr
    ensures HeapOk(heap) && Shapes(heap) == old(Shapes(heap)) && c.Marked()
    ensures Marking(Shapes(heap), old(MarkedSet(heap)), MarkedSet(heap), bound, next)
    ensures InBound(next, heap) && InBound(next, bound)
    decreases |heap - MarkedSet(heap)|, 0
  {
    hide Bounds, Closed, Wf;
    ghost var g, m0 := Shapes(heap), MarkedSet(heap);
    var car, cdr := c.car.v, c.cdr.v;
    assert g[c] == Pair(car, cdr);
    KidsInBound(g, m0, bound, heap, c);
    SetMarkIn(c, heap);
    CountDrops(heap, m0, MarkedSet(heap), c);
    BoundsGrow(g, m0, MarkedSet(heap), bound);
    MarkingNone(g, MarkedSet(heap), bound, Zero);
    if cdr == nil {
      next := car;
    } else {
      MarkVal(car, nil, heap, bound);
      next := cdr;
    }
    OneMarked(g, m0, MarkedSet(heap), bound, c, next);
  }

  lemma SettledStill(g: map<Cell, Shape>, m: set<Cell>, m': set<Cell>, v: Value)
    requires Settled(g, m, v) && m <= m'
    ensures Settled(g, m', v)
  {
  }

  lemma ObjectFacts(c: Cell, heap: set<Cell>)
    requires HeapOk(heap) && c in heap && !c.IsPair() && Markable(c.Shape())
    ensures Kids(Shapes(heap)[c]) == c.slots && Shapes(heap)[c] == c.Shape()
    ensures c in MarkedSet(heap) <==> c.Marked()
    ensures Wf(Shapes(heap))
  {
  }

  lemma KidsInBound(g: map<Cell, Shape>, m: set<Cell>, bound: set<Cell>, heap: set<Cell>, c: Cell)
    requires Wf(g) && g.Keys == heap && c in heap && c in bound && c !in m && Bounds(g, m, bound)
    ensures forall v :: v in Kids(g[c]) ==> InBound(v, heap) && InBound(v, bound)
    ensures g[c].Pair? ==> g[c].car in Kids(g[c]) && g[c].cdr in Kids(g[c])
  {
  }

  /** A cell was marked, then everything it holds except perhaps `next` was seen to. */
  lemma OneMarked(g: map<Cell, Shape>, m0: set<Cell>, m: set<Cell>, bound: set<Cell>, c: Cell, next: Value)
    requires c in g && Markable(g[c]) && c in bound && Marking(g, m0 + {c}, m, bound, Zero)
    requires forall v :: v in Kids(g[c]) ==> v == next || Settled(g, m, v)
    ensures Marking(g, m0, m, bound, next)
  {
    forall d, v | d in m - m0 && d in g && v in Kids(g[d]) ensures v == next || Settled(g, m, v) {
      if d != c {
        assert v == Zero || Settled(g, m, v);
      }
    }
  }

  /** Marks an object and all it holds but the last value, which `next` is when there is a tail. */
  method MarkObject(c: Cell, tail: bool, nil: Value, ghost heap: set<Cell>,
                    ghost bound: set<Cell>) returns (next: Value)
    requires HeapOk(heap) && c in heap && c in bound && !c.Marked() && !c.IsPair() && Markable(c.Shape())
    requires tail ==> |c.slots| > 0
    requires Bounds(Shapes(heap), MarkedSet(heap), bound) && Settled(Shapes(heap), MarkedSet(heap), nil)
    modifies heap`car, heap`cdr
    ensures HeapOk(heap) && Shapes(heap) == old(Shapes(heap)) && c in MarkedSet(heap)
    ensures Marking(Shapes(heap), old(MarkedSet(heap)), MarkedSet(heap), bound, next)
    ensures InBound(next, heap) && InBound(next, bound)
    ensures next == if tail then c.slots[|c.slots| - 1] else Zero
    decreases |heap - MarkedSet(heap)|, 0
  {
    hide Bounds, Closed, Wf, Marking, Settled, AllSettled;
    ghost var g, m0 := Shapes(heap), MarkedSet(heap);
    var slots := c.slots;
    ObjectFacts(c, heap);
    hide Shapes, MarkedSet;
    KidsInBound(g, m0, bound, heap, c);
    SetMarkIn(c, heap);
    CountDrops(heap, m0, MarkedSet(heap), c);
    BoundsGrow(g, m0, MarkedSet(heap), bound);
    SettledStill(g, m0, MarkedSet(heap), nil);
    ghost var m1 := MarkedSet(heap);
    if tail {
      MarkSlots(slots[..|slots| - 1], nil, heap, bound);
      next := slots[|slots| - 1];
    } else {
      MarkSlots(slots, nil, heap, bound);
      next := Zero;
    }
    MarkingGrows(g, m1, MarkedSet(heap), bound);
    SlotsDone(g, MarkedSet(heap), slots, tail, next);
    OneMarked(g, m0, MarkedSet(heap), bound, c, next);
  }

  lemma SlotsDone(g: map<Cell, Shape>, m: set<Cell>, slots: seq<Value>, tail: bool, next: Value)
    requires if tail then |slots| > 0 && AllSettled(g, m, slots[..|slots| - 1]) &&
      next == slots[|slots| - 1] else AllSettled(g, m, slots)
    ensures forall v :: v in slots ==> v == next || Settled(g, m, v)
  {
    if tail {
      assert slots == slots[..|slots| - 1] + [next];
    }
  }

  /** One round of the marker: `next` is where it goes on, when it does. */
  method MarkOne(c: Cell, nil: Value, ghost heap: set<Cell>, ghost bound: set<Cell>) returns (next: Value)
    requires HeapOk(heap) && c in heap && c in bound && !c.Marked()
    requires Bounds(Shapes(heap), MarkedSet(heap), bound) && Settled(Shapes(heap), MarkedSet(heap), nil)
    modifies heap`car, heap`cdr
    ensures HeapOk(heap) && Shapes(heap) == old(Shapes(heap))
    ensures Marking(Shapes(heap), old(MarkedSet(heap)), MarkedSet(heap), bound, next)
    ensures Settled(Shapes(heap), MarkedSet(heap), Ref(c))
    ensures InBound(next, heap) && InBound(next, bound) && (!c.Marked() ==> next == Zero)
    decreases |heap - MarkedSet(heap)|, 1
  {
    next := Zero;
    if c.IsPair() {
      next := MarkPair(c, nil, heap, bound);
      return;
    }
    ghost var g := Shapes(heap);
    assert Laid(g[c]) && g[c].Object? && g[c].kind == c.car.kind && g[c].slots == c.slots;
    match c.car.kind
    case Symbol => next := MarkObject(c, true, nil, heap, bound);
    case Closure => next := MarkObject(c, true, nil, heap, bound);
    case Char => next := MarkObject(c, true, nil, heap, bound);
    case String => SetMarkIn(c, heap);
    case Number => SetMarkIn(c, heap);
    case StaticString =>
    case Subr =>
    case Special =>
    case Vector => next := MarkObject(c, false, nil, heap, bound);
    case Guardian => next := MarkObject(c, false, nil, heap, bound);
    case Datum => next := MarkObject(c, false, nil, heap, bound);
  }

  /** Marks everything reachable from an unmarked value: recursion, with a loop for the last value. */
  method MarkValue(val: Value, nil: Value, ghost heap: set<Cell>, ghost bound: set<Cell>)
    requires HeapOk(heap) && val != Zero && InBound(val, heap) && InBound(val, bound)
    requires Bounds(Shapes(heap), MarkedSet(heap), bound) && Settled(Shapes(heap), MarkedSet(heap), nil)
    requires val.Ref? ==> !val.cell.Marked()
    modifies heap`car, heap`cdr
    ensures HeapOk(heap) && Shapes(heap) == old(Shapes(heap))
    ensures Marking(Shapes(heap), old(MarkedSet(heap)), MarkedSet(heap), bound, Zero)
    ensures Settled(Shapes(heap), MarkedSet(heap), val)
    decreases |heap - MarkedSet(heap)|, 2
  {
    hide Bounds, Closed, HeapOk;
    ghost var g, m0 := Shapes(heap), MarkedSet(heap);
    MarkingNone(g, m0, bound, Zero);
    if val.Int? {
      return;
    }
    var cur := val;
    var again := true;
    MarkingNone(g, m0, bound, cur);
    while again
      invariant HeapOk(heap) && Shapes(heap) == g && Bounds(g, MarkedSet(heap), bound)
      invariant Settled(g, MarkedSet(heap), nil)
      invariant Marking(g, m0, MarkedSet(heap), bound, if again then cur else Zero)
      invariant again ==> cur.Ref? && cur.cell in heap && cur.cell in bound && !cur.cell.Marked()
      invariant Settled(g, MarkedSet(heap), val) || (again && cur == val)
      decreases |heap - MarkedSet(heap)|, again
    {
      ghost var m := MarkedSet(heap);
      Smaller(heap - m, heap - m0);
      var next := MarkOne(cur.cell, nil, heap, bound);
      MarkingNext(g, m0, m, MarkedSet(heap), bound, cur, next);
      BoundsGrow(g, m, MarkedSet(heap), bound);
      if cur.cell.Marked() { CountDrops(heap, m, MarkedSet(heap), cur.cell); }
      cur := next;
      again := cur.Ref? && !cur.cell.Marked();
      if !again { MarkingEnd(g, m0, MarkedSet(heap), bound, cur); }
      Smaller(heap - MarkedSet(heap), heap - m);
    }
  }

  lemma MarkingNext(g: map<Cell, Shape>, a: set<Cell>, b: set<Cell>, c: set<Cell>, bound: set<Cell>, was: Value,
                    pending: Value)
    requires Marking(g, a, b, bound, was) && Marking(g, b, c, bound, pending) && Settled(g, c, was)
    ensures Marking(g, a, c, bound, pending)
  {
    forall d, v | d in c - a && d in g && v in Kids(g[d]) ensures v == pending || Settled(g, c, v) {
      if d in b {
        assert v == was || Settled(g, b, v);
      } else {
        assert v == pending || Settled(g, c, v);
      }
    }
  }

  lemma MarkingEnd(g: map<Cell, Shape>, a: set<Cell>, b: set<Cell>, bound: set<Cell>, pending: Value)
    requires Marking(g, a, b, bound, pending) && Settled(g, b, pending)
    ensures Marking(g, a, b, bound, Zero)
  {
  }
}
