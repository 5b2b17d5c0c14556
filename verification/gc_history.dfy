/** Pushing to and popping from guardians, and what holds over any run of pushes, collections and
    pops. */
module GcHistory {
  import opened GcBlocks
  import opened GcHeap
  import opened GcGuardians
  import opened GcResurrection
  import GcConses

  // ----- The operations -----

  lemma ListCons(c: Cell, s: seq<Cell>, nil: Value)
    requires c.IsPair() && c.cdr.Pointer? && c.cdr.v == After(s, -1, nil) && List(After(s, -1, nil), s, nil)
    ensures List(Ref(c), [c] + s, nil)
  {
    var t := [c] + s;
    forall i | 0 <= i < |t| ensures t[i].IsPair() && t[i].cdr.Pointer? && t[i].cdr.v == After(t, i, nil) {
      AfterCons(c, s, i, nil);
      if i > 0 { assert s[i - 1].IsPair() && s[i - 1].cdr.Pointer? && s[i - 1].cdr.v == After(s, i - 1, nil); }
    }
  }

  lemma AfterCons(c: Cell, s: seq<Cell>, i: nat, nil: Value)
    requires i <= |s|
    ensures ([c] + s)[i] == if i == 0 then c else s[i - 1]
    ensures After([c] + s, i, nil) == After(s, i - 1, nil)
  {
  }

  lemma ListRest(s: seq<Cell>, nil: Value)
    requires s != [] && List(Ref(s[0]), s, nil)
    ensures s[0].IsPair() && s[0].cdr.Pointer? && List(s[0].cdr.v, s[1..], nil)
  {
    var t := s[1..];
    forall i | 0 <= i < |t| ensures t[i].IsPair() && t[i].cdr.Pointer? && t[i].cdr.v == After(t, i, nil) {
      assert t[i] == s[i + 1] && After(t, i, nil) == After(s, i + 1, nil);
    }
  }

  lemma DistinctCons(c: Cell, s: seq<Cell>)
    requires Distinct(s) && c !in s
    ensures Distinct([c] + s)
  {
    var t := [c] + s;
    forall i, j | 0 <= i < j < |t| ensures t[i] != t[j] {
      assert t[j] == s[j - 1] && t[j] in s;
      if i > 0 { assert t[i] == s[i - 1]; }
    }
  }

  lemma DistinctWithout(x: seq<Cell>, y: seq<Cell>)
    requires Distinct(x + y) && y != []
    ensures Distinct(x + y[1..])
  {
    var t := x + y[1..];
    forall i | 0 <= i < |t| ensures t[i] == (x + y)[if i < |x| then i else i + 1] {}
  }

  lemma HasMake(g: Cell, l: Lists, nil: Value)
    requires g.car.Header? && g.car.kind.Guardian? && g.cdr.Pointer? && |g.slots| == 1
    requires List(g.cdr.v, l.acc, nil) && List(g.slots[0], l.inacc, nil) && Distinct(l.acc + l.inacc)
    ensures Has(g, l, nil)
  {
    hide List, Distinct;
    assert [] + l.acc == l.acc && [] + l.acc + l.inacc == l.acc + l.inacc;
  }

  lemma HasLists(g: Cell, l: Lists, nil: Value)
    requires Has(g, l, nil)
    ensures g.car.Header? && g.car.kind.Guardian? && g.cdr.Pointer? && |g.slots| == 1
    ensures g.cdr.v == After(l.acc, -1, nil) && List(g.cdr.v, l.acc, nil) && List(g.slots[0], l.inacc, nil) &&
      Distinct(l.acc + l.inacc)
    ensures g.slots[0] == After(l.inacc, -1, nil)
    ensures forall i :: 0 <= i < |l.acc| ==> l.acc[i].IsPair() && l.acc[i] != g
    ensures forall i :: 0 <= i < |l.inacc| ==> l.inacc[i].IsPair() && l.inacc[i] != g
  {
    assert [] + l.acc == l.acc && [] + l.acc + l.inacc == l.acc + l.inacc;
    hide Distinct;
  }

  /** A new pair; a guardian whose list pairs are in use is not affected. */
  method NewPair(v: Value, cdr: Value, pool: GcConses.ConsPool, nil: Value, ghost g: Cell,
                 ghost l: Lists) returns (c: Cell)
    requires Has(g, l, nil) && pool.Valid() && g !in pool.free && (forall d :: d in l.acc ==> d !in pool.free) &&
      (forall d :: d in l.inacc ==> d !in pool.free)
    modifies pool, pool.free
    ensures c in old(pool.free) || fresh(c)
    ensures c.IsPair() && c.car == Pointer(v, false) && c.cdr == Pointer(cdr, false)
    ensures Has(g, l, nil) && pool.Valid() && c !in old(pool.Live()) && pool.Live() == old(pool.Live()) + {c}
    ensures forall d :: d in old(pool.cells) ==> d in pool.cells
    ensures forall d :: d in pool.cells ==> d in old(pool.cells) || fresh(d)
  {
    hide Has, GcBlocks.Flat, InUse, Subset, Distinct, GcConses.Threaded, GcConses.AllPairs, GcBlocks.Blocks;
    ghost var o: object := pool;
    assert g as object != o;
    assert forall i :: 0 <= i < |l.acc| ==> l.acc[i] as object != o && l.acc[i] !in pool.free;
    assert forall i :: 0 <= i < |l.inacc| ==> l.inacc[i] as object != o && l.inacc[i] !in pool.free;
    c := pool.Cons(v, cdr);
    PairFields(c, v, cdr);
    assert old(Has(g, l, nil));
    assert Has(g, l, nil);
  }

  /** Fprimitive_guardian_push: only cells are guarded. */
  method Push(g: Cell, v: Value, pool: GcConses.ConsPool, nil: Value, ghost l: Lists) returns (ghost more: Lists)
    requires Has(g, l, nil) && pool.Valid() && g !in pool.free && (forall d :: d in l.acc ==> d !in pool.free) &&
      (forall d :: d in l.inacc ==> d !in pool.free)
    modifies g`cdr, pool, pool.free
    ensures Has(g, more, nil)
    ensures v.Ref? ==> |more.acc| == |l.acc| + 1 && more.acc[1..] == l.acc && more.inacc == l.inacc
                       && more.acc[0].car == Pointer(v, false) && (more.acc[0] in old(pool.free) || fresh(more.acc[0]))
    ensures v.Ref? ==> var c := more.acc[0];
      more.acc == [c] + l.acc && c.cdr == Pointer(old(g.cdr.v), false) && g.cdr == Pointer(Ref(c), old(g.cdr.mark))
      && c !in old(pool.Live()) && pool.Live() == old(pool.Live()) + {c}
    ensures !v.Ref? ==> more == l && g.cdr == old(g.cdr) && pool.Live() == old(pool.Live())
    ensures pool.Valid() && (forall d :: d in old(pool.cells) ==> d in pool.cells)
    ensures forall d :: d in pool.cells ==> d in old(pool.cells) || fresh(d)
  {
    hide Has, Distinct, List;
    more := l;
    if v.Ref? {
      HasLists(g, l, nil);
      var c := NewPair(v, g.cdr.v, pool, nil, g, l);
      HasLists(g, l, nil);
      more := Lists([c] + l.acc, l.inacc);
      SetAccessible(g, c, nil, l);
    }
  }

  method SetAccessible(g: Cell, c: Cell, nil: Value, ghost l: Lists)
    requires Has(g, l, nil) && c !in l.acc && c !in l.inacc && c.IsPair() && c.cdr.Pointer? && c.cdr.v == g.cdr.v
    modifies g`cdr
    ensures Has(g, Lists([c] + l.acc, l.inacc), nil) && g.cdr == Pointer(Ref(c), old(g.cdr.mark))
  {
    hide Has, Distinct, List;
    HasLists(g, l, nil);
    ListCons(c, l.acc, nil);
    DistinctCons(c, l.acc + l.inacc);
    assert [c] + (l.acc + l.inacc) == [c] + l.acc + l.inacc;
    ghost var acc := [c] + l.acc;
    assert List(Ref(c), acc, nil) && List(g.slots[0], l.inacc, nil);
    assert forall i :: 0 <= i < |acc| ==> acc[i] != g;
    ghost var second := g.slots[0];
    label before:
    g.cdr := Pointer(Ref(c), g.cdr.mark);
    assert old@before(List(Ref(c), acc, nil)) && old@before(List(second, l.inacc, nil));
    assert List(Ref(c), acc, nil) && List(second, l.inacc, nil);
    HasMake(g, Lists(acc, l.inacc), nil);
  }

  lemma PairFields(c: Cell, car: Value, cdr: Value)
    requires c.Shape() == Pair(car, cdr) && c.Proper()
    ensures c.IsPair() && c.car == Pointer(car, false) && c.cdr.Pointer? && c.cdr.v == cdr && c.Marked() == c.cdr.mark
  {
  }

  /** Fprimitive_guardian_pop: the first object nobody has been told about, or nil. */
  method Pop(g: Cell, nil: Value, ghost l: Lists) returns (ret: Value, ghost less: Lists)
    requires Has(g, l, nil) && nil.Ref? && nil.cell !in l.inacc
    modifies g`slots
    ensures Has(g, less, nil) && less.acc == l.acc && g.slots == [After(less.inacc, -1, nil)]
    ensures l.inacc == [] ==> ret == nil && less == l
    ensures l.inacc != [] ==> l.inacc[0].car.Pointer? && ret == l.inacc[0].car.v && less.inacc == l.inacc[1..]
  {
    hide Has, Distinct;
    HasLists(g, l, nil);
    less := l;
    if g.slots[0] == nil {
      ret := nil;
      return;
    }
    var cell := g.slots[0].cell;
    ListRest(l.inacc, nil);
    ret := cell.car.v;
    g.slots := [cell.cdr.v];
    less := Lists(l.acc, l.inacc[1..]);
    DistinctWithout(l.acc, l.inacc);
    HasMake(g, less, nil);
  }

  // ----- Histories -----

  datatype Op = Pushed(v: Value) | Collected(reached: set<Value>) | Popped

  /** The objects a guardian watches, those it has yet to report and those it has reported. */
  datatype State = State(acc: seq<Value>, inacc: seq<Value>, popped: seq<Value>)

  function KeptValues(vs: seq<Value>, reached: set<Value>): seq<Value>
  {
    if vs == [] then []
    else
      var v := vs[|vs| - 1];
      KeptValues(vs[..|vs| - 1], reached) + (if v in reached then [v] else [])
  }

  function MovedValues(vs: seq<Value>, reached: set<Value>): seq<Value>
  {
    if vs == [] then []
    else
      var v := vs[|vs| - 1];
      (if v in reached then [] else [v]) + MovedValues(vs[..|vs| - 1], reached)
  }

  function Step(s: State, op: Op): State
  {
    match op
    case Pushed(v) => s.(acc := [v] + s.acc)
    case Collected(reached) => s.(acc := KeptValues(s.acc, reached), inacc := MovedValues(s.acc, reached) + s.inacc)
    case Popped => if s.inacc == [] then s else s.(inacc := s.inacc[1..], popped := s.popped + [s.inacc[0]])
  }

  function Run(ops: seq<Op>): State
  {
    if ops == [] then State([], [], []) else Step(Run(ops[..|ops| - 1]), ops[|ops| - 1])
  }

  function AllPushed(ops: seq<Op>): multiset<Value>
  {
    if ops == [] then multiset{}
    else
      var op := ops[|ops| - 1];
      AllPushed(ops[..|ops| - 1]) + (if op.Pushed? then multiset{op.v} else multiset{})
  }

  lemma {:induction false} SplitValues(vs: seq<Value>, reached: set<Value>)
    ensures multiset(KeptValues(vs, reached)) + multiset(MovedValues(vs, reached)) == multiset(vs)
  {
    if vs != [] {
      var t, v := vs[..|vs| - 1], vs[|vs| - 1];
      SplitValues(t, reached);
      assert vs == t + [v];
      MultisetConcat(t, [v]);
      MultisetConcat(KeptValues(t, reached), if v in reached then [v] else []);
      MultisetConcat(if v in reached then [] else [v], MovedValues(t, reached));
      hide KeptValues, MovedValues;
    }
  }

  lemma MultisetConcat(x: seq<Value>, y: seq<Value>)
    ensures multiset(x + y) == multiset(x) + multiset(y)
  {
  }

  lemma {:induction false} MovedMeans(vs: seq<Value>, reached: set<Value>, v: Value)
    ensures v in MovedValues(vs, reached) <==> v in vs && v !in reached
    ensures v in KeptValues(vs, reached) <==> v in vs && v in reached
  {
    if vs != [] {
      var t, w := vs[..|vs| - 1], vs[|vs| - 1];
      MovedMeans(t, reached, v);
      assert vs == t + [w];
    }
  }

  function Total(s: State): multiset<Value>
  {
    multiset(s.acc) + multiset(s.inacc) + multiset(s.popped)
  }

  lemma StepConserves(s: State, op: Op)
    ensures Total(Step(s, op)) == Total(s) + (if op.Pushed? then multiset{op.v} else multiset{})
  {
    match op
    case Pushed(v) => MultisetConcat([v], s.acc);
    case Collected(reached) =>
      SplitValues(s.acc, reached);
      MultisetConcat(MovedValues(s.acc, reached), s.inacc);
    case Popped =>
      if s.inacc != [] {
        assert s.inacc == [s.inacc[0]] + s.inacc[1..];
        MultisetConcat([s.inacc[0]], s.inacc[1..]);
        MultisetConcat(s.popped, [s.inacc[0]]);
      }
  }

  /** Every push is accounted for exactly once: watched, waiting to be reported, or reported. */
  lemma {:induction false} Conserved(ops: seq<Op>)
    ensures Total(Run(ops)) == AllPushed(ops)
  {
    hide Total, Step;
    if ops != [] {
      Conserved(ops[..|ops| - 1]);
      StepConserves(Run(ops[..|ops| - 1]), ops[|ops| - 1]);
    } else {
      NothingPushed();
    }
  }

  lemma NothingPushed()
    ensures Total(State([], [], [])) == multiset{}
  {
  }

  ghost predicate WasPushed(ops: seq<Op>, n: nat, v: Value)
    requires n <= |ops|
  {
    exists i :: 0 <= i < n && ops[i] == Pushed(v)
  }

  /** Some collection after a push of the object did not reach it. */
  ghost predicate FoundUnreachable(ops: seq<Op>, v: Value)
  {
    exists j :: 0 <= j < |ops| && ops[j].Collected? && v !in ops[j].reached && WasPushed(ops, j, v)
  }

  predicate Anywhere(s: State, v: Value)
  {
    v in s.acc || v in s.inacc || v in s.popped
  }

  /** Only what was pushed is in a list, and it stays in one. */
  lemma {:induction false} AnywherePushed(ops: seq<Op>, v: Value)
    ensures Anywhere(Run(ops), v) <==> WasPushed(ops, |ops|, v)
  {
    if ops != [] {
      var n := |ops| - 1;
      AnywherePushed(ops[..n], v);
      StepAnywhere(Run(ops[..n]), ops[n], v);
      assert WasPushed(ops[..n], n, v) <==> WasPushed(ops, n, v);
    }
  }

  lemma StepAnywhere(s: State, op: Op, v: Value)
    ensures Anywhere(Step(s, op), v) <==> Anywhere(s, v) || op == Pushed(v)
    ensures var t := Step(s, op); v in t.inacc || v in t.popped <==>
      v in s.inacc || v in s.popped || (op.Collected? && v in s.acc && v !in op.reached)
  {
    if op.Collected? { MovedMeans(s.acc, op.reached, v); }
    if op.Popped? && s.inacc != [] { assert s.inacc == [s.inacc[0]] + s.inacc[1..]; }
  }

  /** An object is waiting or reported if and only if some collection after its push found it unreachable. */
  lemma {:induction false} OnlyUnreachable(ops: seq<Op>, v: Value)
    ensures v in Run(ops).inacc || v in Run(ops).popped <==> FoundUnreachable(ops, v)
  {
    if ops != [] {
      hide Step, Anywhere, WasPushed;
      var n := |ops| - 1;
      OnlyUnreachable(ops[..n], v);
      StepAnywhere(Run(ops[..n]), ops[n], v);
      AnywherePushed(ops[..n], v);
      InPrefix(ops, v);
      AnywhereMeans(Run(ops[..n]), v);
    }
  }

  lemma AnywhereMeans(s: State, v: Value)
    ensures Anywhere(s, v) <==> v in s.acc || v in s.inacc || v in s.popped
  {
  }

  lemma InPrefix(ops: seq<Op>, v: Value)
    requires ops != []
    ensures var n := |ops| - 1;
      FoundUnreachable(ops, v) <==>
      FoundUnreachable(ops[..n], v) || (ops[n].Collected? && v !in ops[n].reached && WasPushed(ops[..n], n, v))
  {
    var n := |ops| - 1;
    forall j | 0 <= j <= n ensures WasPushed(ops[..n], j, v) <==> WasPushed(ops, j, v) {
      PushedInPrefix(ops, j, v);
    }
    if j :| 0 <= j < n && ops[..n][j].Collected? && v !in ops[..n][j].reached && WasPushed(ops[..n], j, v) {
      assert ops[j].Collected?;
    }
    if j :| 0 <= j < n && ops[j].Collected? && v !in ops[j].reached && WasPushed(ops, j, v) {
      assert ops[..n][j].Collected?;
    }
  }

  lemma PushedInPrefix(ops: seq<Op>, j: nat, v: Value)
    requires j < |ops|
    ensures WasPushed(ops[..|ops| - 1], j, v) <==> WasPushed(ops, j, v)
  {
    var p := ops[..|ops| - 1];
    if i :| 0 <= i < j && p[i] == Pushed(v) { assert ops[i] == Pushed(v); }
    if i :| 0 <= i < j && ops[i] == Pushed(v) { assert p[i] == Pushed(v); }
  }

  /** Running a guardian in the heap is the abstract collection step. */
  lemma {:induction false} RunIsStep(s: seq<Cell>, obj: map<Cell, Value>, m: set<Cell>, reached: set<Value>)
    requires forall c :: c in s ==> (Obj(obj, c) in reached <==> IsMarked(m, Obj(obj, c)))
    ensures ObjectsOf(Kept(s, obj, m), obj) == KeptValues(ObjectsOf(s, obj), reached)
    ensures ObjectsOf(Moved(s, obj, m), obj) == MovedValues(ObjectsOf(s, obj), reached)
  {
    if s == [] {
    } else {
      var c, t := s[|s| - 1], s[..|s| - 1];
      assert s == t + [c];
      RunIsStep(t, obj, m, reached);
      LastStep(t, c, obj, m, reached);
    }
  }

  lemma LastStep(t: seq<Cell>, c: Cell, obj: map<Cell, Value>, m: set<Cell>, reached: set<Value>)
    requires Obj(obj, c) in reached <==> IsMarked(m, Obj(obj, c))
    requires ObjectsOf(Kept(t, obj, m), obj) == KeptValues(ObjectsOf(t, obj), reached)
    requires ObjectsOf(Moved(t, obj, m), obj) == MovedValues(ObjectsOf(t, obj), reached)
    ensures ObjectsOf(Kept(t + [c], obj, m), obj) == KeptValues(ObjectsOf(t + [c], obj), reached)
    ensures ObjectsOf(Moved(t + [c], obj, m), obj) == MovedValues(ObjectsOf(t + [c], obj), reached)
  {
    hide Kept, Moved, KeptValues, MovedValues, ObjectsOf, IsMarked, Obj;
    LastPair(t, c, obj, m);
    LastValue(ObjectsOf(t, obj), Obj(obj, c), reached);
    ObjectsOne(c, obj);
    ObjectsConcat(t, [c], obj);
    ObjectsConcat(Kept(t, obj, m), [c], obj);
    ObjectsConcat([c], Moved(t, obj, m), obj);
  }

  lemma LastPair(t: seq<Cell>, c: Cell, obj: map<Cell, Value>, m: set<Cell>)
    ensures Kept(t + [c], obj, m) == if IsMarked(m, Obj(obj, c)) then Kept(t, obj, m) + [c] else Kept(t, obj, m)
    ensures Moved(t + [c], obj, m) == if IsMarked(m, Obj(obj, c)) then Moved(t, obj, m) else [c] + Moved(t, obj, m)
  {
    var s := t + [c];
    assert s[..|s| - 1] == t;
    assert Kept(t, obj, m) + [] == Kept(t, obj, m) && [] + Moved(t, obj, m) == Moved(t, obj, m);
  }

  lemma LastValue(vs: seq<Value>, v: Value, reached: set<Value>)
    ensures KeptValues(vs + [v], reached) == if v in reached then KeptValues(vs, reached) + [v] else KeptValues(vs,
      reached)
    ensures MovedValues(vs + [v], reached) == if v in reached then MovedValues(vs, reached) else [v] + MovedValues(vs,
      reached)
  {
    var s := vs + [v];
    assert s[..|s| - 1] == vs;
    assert KeptValues(vs, reached) + [] == KeptValues(vs, reached) &&
      [] + MovedValues(vs, reached) == MovedValues(vs, reached);
  }

  lemma ObjectsOne(c: Cell, obj: map<Cell, Value>)
    ensures ObjectsOf([c], obj) == [Obj(obj, c)]
  {
    assert [c][1..] == [];
  }

  lemma {:induction false} ObjectsConcat(s: seq<Cell>, t: seq<Cell>, obj: map<Cell, Value>)
    ensures ObjectsOf(s + t, obj) == ObjectsOf(s, obj) + ObjectsOf(t, obj)
  {
    if s == [] {
      assert [] + t == t;
    } else {
      assert (s + t)[1..] == s[1..] + t;
      ObjectsConcat(s[1..], t, obj);
    }
  }
}
