/** Reaching and keeping, in terms of the fields of the cells: the car and cdr of a pair and the values an object
    holds, whatever its type. */
module GcFields {
  import opened GcHeap
  import opened GcReach
  import opened GcGuardians
  import opened GcResurrection
  import opened GcSurvival

  /** `v` is in one of the fields of a cell with these contents. */
  predicate InField(s: Shape, v: Value)
  {
    match s
    case Pair(car, cdr) => v == car || v == cdr
    case Object(_, slots, _) => v in slots
  }

  /** ... of this cell. */
  ghost predicate Field(c: Cell, v: Value)
    reads c
  {
    if c.car.Pointer? then v == c.car.v || (c.cdr.Pointer? && v == c.cdr.v) else v in c.slots
  }

  lemma FieldsAre(c: Cell, v: Value)
    ensures Field(c, v) ==> InField(c.Shape(), v)
    ensures c.Proper() ==> (Field(c, v) <==> InField(c.Shape(), v))
  {
  }

  /** Primitives and static strings are not part of the collected heap. */
  predicate Immortal(s: Shape)
  {
    s.Object? && (s.kind.Subr? || s.kind.Special? || s.kind.StaticString?)
  }

  // ----- Reaching -----

  /** The roots are the static variables, the protected ones and arrays, what the types mark, and every part of every
      frame of the backtrace; nothing else. */
  lemma RootsAre(r: Roots, v: Value)
    ensures v in RootValues(r) <==>
      v in r.statics || v in r.singles || (exists i :: 0 <= i < |r.arrays| && v in r.arrays[i]) || v in r.types ||
      exists i :: 0 <= i < |r.frames| && var f := r.frames[i];
        v == f.fun || v == f.args || v == f.form || v == f.env || v == f.structure
  {
    ArraysAre(r.arrays, v);
    FramesAre(r.frames, v);
    forall i | 0 <= i < |r.frames|
      ensures v in FrameValues(r.frames[i]) <==> var f := r.frames[i];
        v == f.fun || v == f.args || v == f.form || v == f.env || v == f.structure
    {
    }
  }

  lemma {:induction false} ArraysAre(arrays: seq<seq<Value>>, v: Value)
    ensures v in ArrayValues(arrays) <==> exists i :: 0 <= i < |arrays| && v in arrays[i]
    decreases |arrays|
  {
    if i :| 0 <= i < |arrays| && v in arrays[i] { ArrayMember(arrays, i, v); }
    if arrays != [] {
      var n := |arrays| - 1;
      ArraysAre(arrays[..n], v);
      if v in ArrayValues(arrays[..n]) {
        var i :| 0 <= i < n && v in arrays[..n][i];
        assert v in arrays[i];
      } else if v in ArrayValues(arrays) {
        assert v in arrays[n];
      }
    }
  }

  lemma {:induction false} FramesAre(frames: seq<Frame>, v: Value)
    ensures v in FrameRoots(frames) <==> exists i :: 0 <= i < |frames| && v in FrameValues(frames[i])
    decreases |frames|
  {
    hide FrameValues;
    if i :| 0 <= i < |frames| && v in FrameValues(frames[i]) { FrameMember(frames, i, v); }
    if frames != [] {
      var n := |frames| - 1;
      FramesAre(frames[..n], v);
      if v in FrameRoots(frames[..n]) {
        var i :| 0 <= i < n && v in FrameValues(frames[..n][i]);
        assert v in FrameValues(frames[i]);
      } else if v in FrameRoots(frames) {
        assert v in FrameValues(frames[n]);
      }
    }
  }

  /** Reached are the roots and the cells in fields of reached cells, and nothing else. */
  lemma ReachedByFields(g: map<Cell, Shape>, roots: seq<Value>, c: Cell)
    requires c in g
    ensures c in Reach(g, roots) <==>
      Ref(c) in roots || exists d :: d in Reach(g, roots) && d in g && InField(g[d], Ref(c))
  {
    if Ref(c) in roots {
      assert c in ReachIn(g, roots, 0);
    } else if d :| d in Reach(g, roots) && d in g && InField(g[d], Ref(c)) {
      FieldReached(g, roots, d, Ref(c));
    }
    if c in Reach(g, roots) {
      var n: nat :| c in ReachIn(g, roots, n);
      ReachedFrom(g, roots, c, n);
    }
  }

  lemma FieldReached(g: map<Cell, Shape>, roots: seq<Value>, d: Cell, v: Value)
    requires d in Reach(g, roots) && d in g && InField(g[d], v) && v.Ref? && v.cell in g
    ensures v.cell in Reach(g, roots)
  {
    ReachStep(g, roots, d, v);
  }

  lemma {:induction false} ReachedFrom(g: map<Cell, Shape>, roots: seq<Value>, c: Cell, n: nat)
    requires c in g && c in ReachIn(g, roots, n)
    ensures Ref(c) in roots || exists d :: d in Reach(g, roots) && d in g && InField(g[d], Ref(c))
  {
    hide Reach, Reachable, InField;
    if n > 0 {
      if c in ReachIn(g, roots, n - 1) {
        ReachedFrom(g, roots, c, n - 1);
      } else {
        var d :| d in ReachIn(g, roots, n - 1) && d in g && Ref(c) in Kids(g[d]);
        ReachedIn(g, roots, d, n - 1);
        KidIsField(g[d], Ref(c));
      }
    }
  }

  lemma ReachedIn(g: map<Cell, Shape>, roots: seq<Value>, c: Cell, n: nat)
    requires c in g && c in ReachIn(g, roots, n)
    ensures c in Reach(g, roots)
  {
    hide ReachIn;
  }

  lemma KidIsField(s: Shape, v: Value)
    ensures v in Kids(s) <==> InField(s, v)
  {
  }

  // ----- Keeping -----

  /** What a field of a kept cell may hold: no reference to a cell of the heap that is not kept, apart from
      `lost` ones. */
  ghost predicate Present(g: map<Cell, Shape>, kept: set<Cell>, lost: set<Cell>, v: Value)
  {
    v.Ref? && v.cell in g ==> v.cell in kept || v.cell in lost || Immortal(g[v.cell])
  }

  lemma KeptFields(g: map<Cell, Shape>, all: seq<Cell>, lists: map<Cell, Lists>, obj: map<Cell, Value>, m: set<Cell>,
                   kept: set<Cell>, c: Cell, v: Value)
    requires ClosedButLost(g, all, lists, obj, m, kept) && c in kept && c in g && InField(g[c], v)
    ensures Present(g, kept, Lost(all, lists, obj, m), v)
    ensures NoneTorn(all, lists, obj, m) ==> Present(g, kept, {}, v)
  {
    hide Lost, NoneTorn;
    assert v in Kids(g[c]);
    assert KeptOrLost(g, all, lists, obj, m, kept, v);
    if NoneTorn(all, lists, obj, m) { NothingLost(all, lists, obj, m); }
  }

  /** The heap is in order whatever a pair, a vector or an object of a type with its own mark function holds. */
  lemma AnyContents(g: map<Cell, Shape>, c: Cell, car: Value, cdr: Value, kind: Kind, slots: seq<Value>)
    requires Wf(g) && (kind.Vector? || kind.Datum?)
    requires forall v :: (v == car || v == cdr || v in slots) && v.Ref? ==> v.cell in g
    ensures Wf(g[c := GcHeap.Shape.Pair(car, cdr)]) && Wf(g[c := Object(kind, slots, Zero)])
  {
  }
}
