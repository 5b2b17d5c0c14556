/** Guardians: lists of objects to be told about when nothing else refers to them. */
module GcGuardians {
  import opened GcBlocks
  import opened GcHeap

  /** What the cell after position `i` of a list is; `nil` ends it. */
  function After(s: seq<Cell>, i: int, nil: Value): Value
    requires -1 <= i < |s|
  {
    if i + 1 < |s| then Ref(s[i + 1]) else nil
  }

  /** `first` is a proper list whose pairs are `s`. */
  ghost predicate List(first: Value, s: seq<Cell>, nil: Value)
    reads s
  {
    && first == After(s, -1, nil)
    && forall i :: 0 <= i < |s| ==> s[i].IsPair() && s[i].cdr.Pointer? && s[i].cdr.v == After(s, i, nil)
  }

  predicate IsMarked(m: set<Cell>, v: Value)
  {
    v.Ref? && v.cell in m
  }

  /** The object a pair of a guardian's list holds. */
  function Obj(obj: map<Cell, Value>, c: Cell): Value
  {
    if c in obj then obj[c] else Zero
  }

  /** Pairs whose object is among `m`. */
  function Kept(s: seq<Cell>, obj: map<Cell, Value>, m: set<Cell>): (r: seq<Cell>)
    ensures forall c :: c in r ==> c in s && IsMarked(m, Obj(obj, c))
    ensures forall c :: c in s ==> IsMarked(m, Obj(obj, c)) ==> c in r
  {
    if s == [] then []
    else
      var c := s[|s| - 1];
      Kept(s[..|s| - 1], obj, m) + (if IsMarked(m, Obj(obj, c)) then [c] else [])
  }

  /** The other pairs, last one first. */
  function Moved(s: seq<Cell>, obj: map<Cell, Value>, m: set<Cell>): (r: seq<Cell>)
    ensures forall c :: c in r ==> c in s && !IsMarked(m, Obj(obj, c))
    ensures forall c :: c in s ==> !IsMarked(m, Obj(obj, c)) ==> c in r
  {
    if s == [] then []
    else
      var c := s[|s| - 1];
      (if IsMarked(m, Obj(obj, c)) then [] else [c]) + Moved(s[..|s| - 1], obj, m)
  }

  function ObjectsOf(s: seq<Cell>, obj: map<Cell, Value>): (r: seq<Value>)
    ensures |r| == |s|
  {
    if s == [] then [] else [Obj(obj, s[0])] + ObjectsOf(s[1..], obj)
  }

  lemma KeptSnoc(s: seq<Cell>, k: nat, obj: map<Cell, Value>, m: set<Cell>)
    requires k < |s|
    ensures Kept(s[..k + 1], obj, m) == Kept(s[..k], obj, m) + (if IsMarked(m, Obj(obj, s[k])) then [s[k]] else [])
    ensures Moved(s[..k + 1], obj, m) == (if IsMarked(m, Obj(obj, s[k])) then [] else [s[k]]) + Moved(s[..k], obj, m)
  {
    assert s[..k + 1][..k] == s[..k];
  }

  /** The pairs of `s` hold `obj`, and `m` is which of those objects are marked; no object is itself
      one of the pairs. */
  ghost predicate Holds(s: seq<Cell>, obj: map<Cell, Value>, m: set<Cell>)
    reads s, Cells(s, obj)
  {
    && (forall c :: c in s ==> Obj(obj, c).Ref? && c.car == Pointer(Obj(obj, c), false) && Obj(obj, c).cell !in s)
    && (forall c :: c in s ==> (Obj(obj, c).cell in m <==> Obj(obj, c).cell.Marked()))
  }

  function Cells(s: seq<Cell>, obj: map<Cell, Value>): set<Cell>
  {
    set c | c in s && Obj(obj, c).Ref? :: Obj(obj, c).cell
  }

  /** The place `p` whose second word leads to the pairs of `g` still to be looked at: `kept` were
      seen and stay, `rest` are to come, `others` is the inaccessible list so far. */
  ghost predicate Splicing(g: Cell, p: Cell, kept: seq<Cell>, rest: seq<Cell>, others: seq<Cell>, nil: Value)
    reads g, kept, rest, others
  {
    && g.car.Header? && g.cdr.Pointer? && |g.slots| == 1
    && List(g.cdr.v, kept + rest, nil) && List(g.slots[0], others, nil) && Distinct(kept + rest + others)
    && p == if kept == [] then g else kept[|kept| - 1]
  }

  lemma SplicingFacts(g: Cell, p: Cell, kept: seq<Cell>, rest: seq<Cell>, others: seq<Cell>, nil: Value)
    requires Splicing(g, p, kept, rest, others, nil)
    ensures p.cdr.Pointer? && p.cdr.v == After(rest, -1, nil) && p in [g] + kept
    ensures rest != [] ==> rest[0].IsPair() && rest[0].cdr.Pointer? && rest[0] != p && rest[0] != g
  {
    var all := kept + rest + others;
    if kept != [] { assert (kept + rest)[|kept| - 1] == p == all[|kept| - 1]; }
    if rest != [] { assert (kept + rest)[|kept|] == rest[0] == all[|kept|]; }
  }

  lemma DistinctParts(kept: seq<Cell>, rest: seq<Cell>, others: seq<Cell>)
    requires Distinct(kept + rest + others) && rest != []
    ensures forall i :: 0 <= i < |kept| ==> kept[i] != rest[0]
    ensures forall i :: 0 < i < |rest| ==> rest[i] != rest[0]
    ensures forall i :: 0 <= i < |others| ==> others[i] != rest[0]
    ensures forall i :: 0 < i < |rest| && kept != [] ==> rest[i] != kept[|kept| - 1]
    ensures forall i :: 0 <= i < |others| && kept != [] ==> others[i] != kept[|kept| - 1]
    ensures forall i :: 0 <= i < |kept| - 1 ==> kept[i] != kept[|kept| - 1]
  {
    var all := kept + rest + others;
    forall i | 0 <= i < |kept| ensures all[i] == kept[i] {}
    forall i | 0 <= i < |rest| ensures all[|kept| + i] == rest[i] {}
    forall i | 0 <= i < |others| ensures all[|kept| + |rest| + i] == others[i] {}
  }

  lemma DistinctKeep(kept: seq<Cell>, rest: seq<Cell>, others: seq<Cell>)
    requires Distinct(kept + rest + others) && rest != []
    ensures Distinct((kept + [rest[0]]) + rest[1..] + others)
  {
    assert (kept + [rest[0]]) + rest[1..] + others == kept + rest + others;
  }

  lemma DistinctMove(kept: seq<Cell>, rest: seq<Cell>, others: seq<Cell>)
    requires Distinct(kept + rest + others) && rest != []
    ensures Distinct(kept + rest[1..] + ([rest[0]] + others))
  {
    var all, moved := kept + rest + others, kept + rest[1..] + ([rest[0]] + others);
    var n := |kept| + |rest| - 1;
    forall i | 0 <= i < |moved|
      ensures moved[i] == all[if i < |kept| then i else if i < n then i + 1 else if i == n then |kept| else i]
    {
    }
  }

  /** Moves the next pair to the front of the inaccessible list. */
  method Unlink(g: Cell, p: Cell, cell: Cell, nil: Value, ghost kept: seq<Cell>, ghost rest: seq<Cell>,
                ghost others: seq<Cell>)
    requires Splicing(g, p, kept, rest, others, nil) && rest != [] && cell == rest[0]
    modifies p`cdr, cell`cdr, g`slots
    ensures Splicing(g, p, kept, rest[1..], [cell] + others, nil)
    ensures p.cdr.Pointer? && p.cdr.mark == old(p.cdr.mark) && cell.cdr.Pointer?
  {
    SplicingFacts(g, p, kept, rest, others, nil);
    DistinctParts(kept, rest, others);
    DistinctMove(kept, rest, others);
    p.cdr := Pointer(cell.cdr.v, p.cdr.mark);
    cell.cdr := Pointer(g.slots[0], false);
    g.slots := [Ref(cell)];
    ghost var list := kept + rest[1..];
    forall i | 0 <= i < |list|
      ensures list[i].IsPair() && list[i].cdr.Pointer? && list[i].cdr.v == After(list, i, nil)
    {
      if i < |kept| { assert (kept + rest)[i] == list[i]; } else { assert (kept + rest)[i + 1] == list[i]; }
    }
    ghost var more := [cell] + others;
    forall i | 0 <= i < |more|
      ensures more[i].IsPair() && more[i].cdr.Pointer? && more[i].cdr.v == After(more, i, nil)
    {
    }
  }

  /** The first `k` pairs of `acc` have been dealt with: `kept` stay on the accessible list, `others`
      are on the inaccessible one, `rest` are to come. */
  ghost predicate RunState(g: Cell, p: Cell, nil: Value, acc: seq<Cell>, k: nat, inacc: seq<Cell>, obj: map<Cell,
                           Value>, m: set<Cell>,
                           changed: seq<Value>, kept: seq<Cell>, rest: seq<Cell>, others: seq<Cell>)
    reads g, acc, kept, rest, others, Cells(acc, obj)
  {
    && k <= |acc| && nil.Ref? && nil.cell !in acc && g !in acc && Holds(acc, obj, m)
    && kept == Kept(acc[..k], obj, m) && rest == acc[k..] && others == Moved(acc[..k], obj, m) + inacc
    && Splicing(g, p, kept, rest, others, nil)
    && (forall j :: 0 <= j < k ==> acc[j].Marked() && acc[j].IsPair() && acc[j].Proper())
    && changed == ObjectsOf(Moved(acc[..k], obj, m), obj)
  }

  /** The pair at `p` is the next one; an empty rest shows as `nil`. */
  lemma RunFacts(g: Cell, p: Cell, nil: Value, acc: seq<Cell>, k: nat, inacc: seq<Cell>, obj: map<Cell, Value>,
                 m: set<Cell>,
                 changed: seq<Value>, kept: seq<Cell>, rest: seq<Cell>, others: seq<Cell>)
    requires RunState(g, p, nil, acc, k, inacc, obj, m, changed, kept, rest, others)
    ensures k <= |acc| && p.cdr.Pointer? && (p.cdr.v == nil <==> k == |acc|) && (p == g || p in acc)
    ensures k < |acc| ==> p.cdr.v == Ref(acc[k]) && rest != [] && rest[0] == acc[k] && acc[k] != p && acc[k] != g
    ensures k < |acc| ==> acc[k].IsPair() && acc[k].cdr.Pointer? && acc[k].car == Pointer(Obj(obj, acc[k]), false)
    ensures k < |acc| ==> Obj(obj, acc[k]).Ref? && (IsMarked(m, Obj(obj, acc[k])) <==> Obj(obj, acc[k]).cell.Marked())
  {
    SplicingFacts(g, p, kept, rest, others, nil);
    if k < |acc| { assert acc[k..][0] == acc[k] && acc[k] in acc; }
  }

  /** Setting the mark of a pair of the list disturbs nothing. */
  method SetPairMark(g: Cell, p: Cell, cell: Cell, nil: Value, ghost kept: seq<Cell>, ghost rest: seq<Cell>,
                     ghost others: seq<Cell>)
    requires Splicing(g, p, kept, rest, others, nil) && cell.IsPair() && cell.cdr.Pointer?
    modifies cell`cdr
    ensures Splicing(g, p, kept, rest, others, nil) && cell.cdr.Pointer? && cell.Marked()
  {
    cell.cdr := Pointer(cell.cdr.v, true);
  }

  /** An unmarked object: its pair moves. */
  method StepMove(g: Cell, p: Cell, cell: Cell, nil: Value, changed0: seq<Value>, ghost acc: seq<Cell>, ghost k: nat,
                  ghost inacc: seq<Cell>,
                  ghost obj: map<Cell, Value>, ghost m: set<Cell>, ghost kept: seq<Cell>, ghost rest: seq<Cell>,
                    ghost others: seq<Cell>)
    returns (changed: seq<Value>)
    requires RunState(g, p, nil, acc, k, inacc, obj, m, changed0, kept, rest, others)
    requires k < |acc| && cell == acc[k] && !IsMarked(m, Obj(obj, cell))
    modifies p`cdr, cell`cdr, g`slots
    ensures RunState(g, p, nil, acc, k + 1, inacc, obj, m, changed, kept, rest[1..], [cell] + others)
    ensures p.cdr.Pointer? && p.cdr.mark == old(p.cdr.mark)
  {
    hide Distinct, Kept, Moved, List, Splicing;
    RunFacts(g, p, nil, acc, k, inacc, obj, m, changed0, kept, rest, others);
    KeptSnoc(acc, k, obj, m);
    Unlink(g, p, cell, nil, kept, rest, others);
    changed := [cell.car.v] + changed0;
    SetPairMark(g, p, cell, nil, kept, rest[1..], [cell] + others);
    assert acc[k..][1..] == acc[k + 1..];
    ghost var moved := Moved(acc[..k], obj, m);
    assert [cell] + (moved + inacc) == [cell] + moved + inacc;
    assert ([cell] + moved)[1..] == moved;
  }

  /** A marked object: its pair stays. */
  method StepKeep(g: Cell, p: Cell, cell: Cell, nil: Value, ghost changed: seq<Value>, ghost acc: seq<Cell>,
                  ghost k: nat, ghost inacc: seq<Cell>,
                  ghost obj: map<Cell, Value>, ghost m: set<Cell>, ghost kept: seq<Cell>, ghost rest: seq<Cell>,
                    ghost others: seq<Cell>)
    requires RunState(g, p, nil, acc, k, inacc, obj, m, changed, kept, rest, others)
    requires k < |acc| && cell == acc[k] && IsMarked(m, Obj(obj, cell))
    modifies cell`cdr
    ensures RunState(g, cell, nil, acc, k + 1, inacc, obj, m, changed, kept + [cell], rest[1..], others)
  {
    hide Distinct, Kept, Moved, List, Splicing;
    RunFacts(g, p, nil, acc, k, inacc, obj, m, changed, kept, rest, others);
    KeptSnoc(acc, k, obj, m);
    Advance(g, p, nil, kept, rest, others);
    SetPairMark(g, cell, cell, nil, kept + [cell], rest[1..], others);
    assert acc[k..][1..] == acc[k + 1..];
    ghost var moved := Moved(acc[..k], obj, m);
    assert [] + moved == moved;
  }

  lemma Advance(g: Cell, p: Cell, nil: Value, kept: seq<Cell>, rest: seq<Cell>, others: seq<Cell>)
    requires Splicing(g, p, kept, rest, others, nil) && rest != []
    ensures Splicing(g, rest[0], kept + [rest[0]], rest[1..], others, nil)
  {
    DistinctKeep(kept, rest, others);
    assert kept + rest == (kept + [rest[0]]) + rest[1..];
  }

  /** One guardian: pairs whose object is unmarked move to the inaccessible list, the others stay;
      every pair gets its mark, and the mark of the guardian's own word is preserved. */
  method RunOne(g: Cell, nil: Value, ghost acc: seq<Cell>, ghost inacc: seq<Cell>, ghost obj: map<Cell, Value>,
                ghost m: set<Cell>)
    returns (changed: seq<Value>)
    requires RunState(g, g, nil, acc, 0, inacc, obj, m, [], [], acc, inacc)
    modifies g`cdr, g`slots, (set c | c in acc)`cdr
    ensures Splicing(g, if Kept(acc, obj, m) == [] then g else Kept(acc, obj, m)[|Kept(acc, obj, m)| - 1],
                     Kept(acc, obj, m), [], Moved(acc, obj, m) + inacc, nil)
    ensures g.cdr.Pointer? && g.cdr.mark == old(g.cdr.mark)
    ensures forall c :: c in acc ==> c.Marked() && c.IsPair() && c.Proper()
    ensures changed == ObjectsOf(Moved(acc, obj, m), obj)
  {
    hide RunState;
    changed := [];
    var p := g;
    ghost var k, kept, rest, others := 0, [], acc, inacc;
    RunFacts(g, p, nil, acc, k, inacc, obj, m, changed, kept, rest, others);
    while p.cdr.v != nil
      invariant RunState(g, p, nil, acc, k, inacc, obj, m, changed, kept, rest, others)
      invariant g.cdr.Pointer? && g.cdr.mark == old(g.cdr.mark) && p.cdr.Pointer? && k <= |acc|
      invariant p.cdr.v == nil <==> k == |acc|
      decreases |acc| - k
    {
      RunFacts(g, p, nil, acc, k, inacc, obj, m, changed, kept, rest, others);
      var cell := p.cdr.v.cell;
      assert cell in acc;
      if !cell.car.v.cell.Marked() {
        changed := StepMove(g, p, cell, nil, changed, acc, k, inacc, obj, m, kept, rest, others);
        rest, others := rest[1..], [cell] + others;
      } else {
        StepKeep(g, p, cell, nil, changed, acc, k, inacc, obj, m, kept, rest, others);
        kept, rest := kept + [cell], rest[1..];
        p := cell;
      }
      k := k + 1;
      RunFacts(g, p, nil, acc, k, inacc, obj, m, changed, kept, rest, others);
    }
    RunEnds(g, p, nil, acc, inacc, obj, m, changed, kept, rest, others);
  }

  lemma RunEnds(g: Cell, p: Cell, nil: Value, acc: seq<Cell>, inacc: seq<Cell>, obj: map<Cell, Value>, m: set<Cell>,
                changed: seq<Value>, kept: seq<Cell>, rest: seq<Cell>, others: seq<Cell>)
    requires RunState(g, p, nil, acc, |acc|, inacc, obj, m, changed, kept, rest, others)
    ensures Splicing(g, if Kept(acc, obj, m) == [] then g else Kept(acc, obj, m)[|Kept(acc, obj, m)| - 1],
                     Kept(acc, obj, m), [], Moved(acc, obj, m) + inacc, nil)
    ensures changed == ObjectsOf(Moved(acc, obj, m), obj)
    ensures forall c :: c in acc ==> c.Marked() && c.IsPair() && c.Proper()
  {
    hide Kept, Moved, List, Distinct;
    assert acc[..|acc|] == acc && acc[|acc|..] == [];
  }
}
