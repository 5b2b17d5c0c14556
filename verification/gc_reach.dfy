/** Reachability, the roots of a collection, and the exactness of marking. */
module GcReach {
  import opened GcHeap

  /** Cells named by `vs`. */
  function Named(g: map<Cell, Shape>, vs: seq<Value>): set<Cell>
  {
    set c | c in g && Ref(c) in vs
  }

  /** Reachable from `vs` in at most `n` steps. */
  function ReachIn(g: map<Cell, Shape>, vs: seq<Value>, n: nat): set<Cell>
  {
    if n == 0 then Named(g, vs)
    else
      var near := ReachIn(g, vs, n - 1);
      near + set c, d | d in near && d in g && c in g && Ref(c) in Kids(g[d]) :: c
  }

  ghost predicate Reachable(g: map<Cell, Shape>, vs: seq<Value>, c: Cell)
  {
    exists n: nat :: c in ReachIn(g, vs, n)
  }

  ghost function Reach(g: map<Cell, Shape>, vs: seq<Value>): set<Cell>
  {
    set c | c in g && Reachable(g, vs, c)
  }

  lemma ReachRoot(g: map<Cell, Shape>, vs: seq<Value>, v: Value)
    requires v in vs && v.Ref? && v.cell in g
    ensures v.cell in Reach(g, vs)
  {
    assert v.cell in ReachIn(g, vs, 0);
  }

  lemma ReachStep(g: map<Cell, Shape>, vs: seq<Value>, c: Cell, v: Value)
    requires c in Reach(g, vs) && v in Kids(g[c]) && v.Ref? && v.cell in g
    ensures v.cell in Reach(g, vs)
  {
    var n: nat :| c in ReachIn(g, vs, n);
    assert v.cell in ReachIn(g, vs, n + 1);
  }

  /** Anything closed that contains the roots contains all that is reachable. */
  lemma {:induction false} ReachLeast(g: map<Cell, Shape>, vs: seq<Value>, n: nat, m: set<Cell>)
    requires Wf(g) && forall v :: v in vs ==> Settled(g, m, v)
    requires Closed(g, m, m, Zero)
    ensures forall c :: c in ReachIn(g, vs, n) ==> c in g && (c in m || !Markable(g[c]))
  {
    if n == 0 {
      forall c | c in Named(g, vs) ensures c in m || !Markable(g[c]) {
        assert Settled(g, m, Ref(c));
      }
    } else {
      ReachLeast(g, vs, n - 1, m);
      forall c, d | d in ReachIn(g, vs, n - 1) && d in g && c in g && Ref(c) in Kids(g[d])
        ensures c in m || !Markable(g[c])
      {
        assert Ref(c) == Zero || Settled(g, m, Ref(c));
      }
    }
  }

  lemma ReachBounds(g: map<Cell, Shape>, vs: seq<Value>, m: set<Cell>)
    requires Wf(g)
    ensures Bounds(g, m, Reach(g, vs))
  {
    forall c, v | c in Reach(g, vs) && v in Kids(g[c]) && v.Ref? ensures v.cell in Reach(g, vs) {
      ReachStep(g, vs, c, v);
    }
  }

  ghost function MarkableOf(g: map<Cell, Shape>, some: set<Cell>): set<Cell>
  {
    set c | c in some && c in g && Markable(g[c])
  }

  /** Marking every root from a closed set of marks adds exactly what is reachable. */
  lemma MarkingIsExact(g: map<Cell, Shape>, before: set<Cell>, after: set<Cell>, vs: seq<Value>)
    requires Wf(g) && Marking(g, before, after, Reach(g, vs), Zero) && Closed(g, before, before, Zero)
    requires forall v :: v in vs ==> Settled(g, after, v)
    ensures after == before + MarkableOf(g, Reach(g, vs))
    ensures Closed(g, after, after, Zero)
  {
    forall c, v | c in after && c in g && v in Kids(g[c]) ensures v == Zero || Settled(g, after, v) {
      if c in before {
        assert v == Zero || Settled(g, before, v);
      } else {
        assert v == Zero || Settled(g, after, v);
      }
    }
    forall c | c in MarkableOf(g, Reach(g, vs)) ensures c in after {
      var n: nat :| c in ReachIn(g, vs, n);
      ReachLeast(g, vs, n, after);
    }
  }

  // ----- Roots -----

  datatype Frame = Frame(fun: Value, args: Value, form: Value, env: Value, structure: Value)

  /** Static variables, protected variables, protected arrays, what the types mark themselves, and
      the Lisp backtrace. */
  datatype Roots = Roots(statics: seq<Value>, singles: seq<Value>, arrays: seq<seq<Value>>, types: seq<Value>,
    frames: seq<Frame>)

  function FrameValues(f: Frame): seq<Value>
  {
    [f.fun, f.args, f.form, f.env, f.structure]
  }

  function ArrayValues(arrays: seq<seq<Value>>): seq<Value>
  {
    if arrays == [] then [] else ArrayValues(arrays[..|arrays| - 1]) + arrays[|arrays| - 1]
  }

  function FrameRoots(frames: seq<Frame>): seq<Value>
  {
    if frames == [] then [] else FrameRoots(frames[..|frames| - 1]) + FrameValues(frames[|frames| - 1])
  }

  function RootValues(r: Roots): seq<Value>
  {
    r.statics + r.singles + ArrayValues(r.arrays) + r.types + FrameRoots(r.frames)
  }

  /** Marks one more run of roots. */
  method MarkRun(vs: seq<Value>, ghost done: seq<Value>, nil: Value, ghost heap: set<Cell>, ghost bound: set<Cell>,
                 ghost m0: set<Cell>)
    requires HeapOk(heap) && (forall v :: v in vs ==> InBound(v, heap) && InBound(v, bound))
    requires Bounds(Shapes(heap), MarkedSet(heap), bound) && Settled(Shapes(heap), MarkedSet(heap), nil)
    requires Marking(Shapes(heap), m0, MarkedSet(heap), bound, Zero) && AllSettled(Shapes(heap), MarkedSet(heap), done)
    modifies heap`car, heap`cdr
    ensures HeapOk(heap) && Shapes(heap) == old(Shapes(heap)) && old(MarkedSet(heap)) <= MarkedSet(heap)
    ensures Bounds(Shapes(heap), MarkedSet(heap), bound) && Settled(Shapes(heap), MarkedSet(heap), nil)
    ensures Marking(Shapes(heap), m0, MarkedSet(heap), bound, Zero) &&
      AllSettled(Shapes(heap), MarkedSet(heap), done + vs)
  {
    hide Marking, Bounds, HeapOk, Closed;
    ghost var g, m := Shapes(heap), MarkedSet(heap);
    MarkSlots(vs, nil, heap, bound);
    MarkingGrows(g, m, MarkedSet(heap), bound);
    MarkingTrans(g, m0, m, MarkedSet(heap), bound, Zero);
    BoundsGrow(g, m, MarkedSet(heap), bound);
    SettledGrow(g, m, MarkedSet(heap), done);
    SettledConcat(g, MarkedSet(heap), done, vs);
  }

  lemma ArrayMember(arrays: seq<seq<Value>>, i: nat, v: Value)
    requires i < |arrays| && v in arrays[i]
    ensures v in ArrayValues(arrays)
    decreases |arrays|
  {
    if i < |arrays| - 1 {
      ArrayMember(arrays[..|arrays| - 1], i, v);
    }
  }

  lemma FrameMember(frames: seq<Frame>, i: nat, v: Value)
    requires i < |frames| && v in FrameValues(frames[i])
    ensures v in FrameRoots(frames)
    decreases |frames|
  {
    if i < |frames| - 1 {
      FrameMember(frames[..|frames| - 1], i, v);
    }
  }

  /** The marking phase: each group of roots in turn. */
  method MarkRoots(r: Roots, nil: Value, ghost heap: set<Cell>)
    requires HeapOk(heap) && (forall v :: v in RootValues(r) ==> InBound(v, heap))
    requires Settled(Shapes(heap), MarkedSet(heap), nil) && Closed(Shapes(heap), MarkedSet(heap), MarkedSet(heap), Zero)
    modifies heap`car, heap`cdr
    ensures HeapOk(heap) && Shapes(heap) == old(Shapes(heap))
    ensures MarkedSet(heap) == old(MarkedSet(heap)) + MarkableOf(Shapes(heap), Reach(Shapes(heap), RootValues(r)))
    ensures Closed(Shapes(heap), MarkedSet(heap), MarkedSet(heap), Zero)
  {
    hide Marking, Bounds, HeapOk, Closed, Reach, InBound, Settled, AllSettled, MarkableOf, Shapes, MarkedSet;
    ghost var g, m0, all := Shapes(heap), MarkedSet(heap), RootValues(r);
    ghost var bound := Reach(g, all);
    RootsInBound(g, all, heap);
    HeapWf(heap);
    ReachBounds(g, all, m0);
    MarkingNone(g, m0, bound, Zero);
    ghost var done: seq<Value> := [];
    SettledNothing(g, m0);
    MarkRun(r.statics, done, nil, heap, bound, m0);
    assert done + r.statics == r.statics;
    done := r.statics;
    MarkRun(r.singles, done, nil, heap, bound, m0);
    done := done + r.singles;
    assert done + ArrayValues(r.arrays[..0]) == done;
    for i := 0 to |r.arrays|
      invariant HeapOk(heap) && Shapes(heap) == g && Bounds(g, MarkedSet(heap), bound) &&
        Settled(g, MarkedSet(heap), nil)
      invariant Marking(g, m0, MarkedSet(heap), bound, Zero) &&
        AllSettled(g, MarkedSet(heap), done + ArrayValues(r.arrays[..i]))
    {
      forall v | v in r.arrays[i] ensures v in all { ArrayMember(r.arrays, i, v); }
      MarkRun(r.arrays[i], done + ArrayValues(r.arrays[..i]), nil, heap, bound, m0);
      assert r.arrays[..i + 1][..i] == r.arrays[..i];
      assert done + ArrayValues(r.arrays[..i + 1]) == done + ArrayValues(r.arrays[..i]) + r.arrays[i];
    }
    assert r.arrays[..|r.arrays|] == r.arrays;
    done := done + ArrayValues(r.arrays);
    MarkRun(r.types, done, nil, heap, bound, m0);
    done := done + r.types;
    assert done + FrameRoots(r.frames[..0]) == done;
    for i := 0 to |r.frames|
      invariant HeapOk(heap) && Shapes(heap) == g && Bounds(g, MarkedSet(heap), bound) &&
        Settled(g, MarkedSet(heap), nil)
      invariant Marking(g, m0, MarkedSet(heap), bound, Zero) &&
        AllSettled(g, MarkedSet(heap), done + FrameRoots(r.frames[..i]))
    {
      forall v | v in FrameValues(r.frames[i]) ensures v in all { FrameMember(r.frames, i, v); }
      MarkRun(FrameValues(r.frames[i]), done + FrameRoots(r.frames[..i]), nil, heap, bound, m0);
      assert r.frames[..i + 1][..i] == r.frames[..i];
      assert done + FrameRoots(r.frames[..i + 1]) == done + FrameRoots(r.frames[..i]) + FrameValues(r.frames[i]);
    }
    assert r.frames[..|r.frames|] == r.frames;
    assert done + FrameRoots(r.frames) == all;
    SettledEach(g, MarkedSet(heap), all);
    MarkingIsExact(g, m0, MarkedSet(heap), all);
  }

  lemma HeapWf(heap: set<Cell>)
    requires HeapOk(heap)
    ensures Wf(Shapes(heap))
  {
  }

  lemma RootsInBound(g: map<Cell, Shape>, vs: seq<Value>, heap: set<Cell>)
    requires g.Keys == heap && forall v :: v in vs ==> InBound(v, heap)
    ensures forall v :: v in vs ==> InBound(v, heap) && InBound(v, Reach(g, vs))
  {
    forall v | v in vs && v.Ref? ensures v.cell in Reach(g, vs) {
      ReachRoot(g, vs, v);
    }
  }
}
