/** The allocator of closures: a free list threaded through header words (a free closure therefore
    looks like a pair), and the sweep that tells free, dead and live closures apart. */
module GcClosures {
  import opened GcBlocks
  import opened GcHeap

  const CLOSURES_PER_BLOCK := 204

  /** Each cell of `s` leads to the next one. */
  ghost predicate Threaded(list: Value, s: seq<Cell>)
    reads s
  {
    && list == NextIn(s, -1)
    && forall i :: 0 <= i < |s| ==> s[i].car == Pointer(NextIn(s, i), false)
  }

  /** Cells in use are closures; the others are on the free list. */
  ghost predicate Sorted(cells: seq<Cell>, free: seq<Cell>)
    reads cells
  {
    forall c :: c in cells ==> if c in free then c.IsPair() else c.car.Header? && c.car.kind.Closure? && |c.slots| == 4
  }

  class ClosurePool {
    var blocks: seq<seq<Cell>>     // closure_block_list, newest first
    var freeList: Value            // closure_free_list
    var total: int                 // rep_allocated_closures
    var used: int                  // rep_used_closures, as of the last sweep
    ghost var cells: seq<Cell>
    ghost var free: seq<Cell>

    ghost predicate Shaped()
      reads this
    {
      && Blocks(blocks, CLOSURES_PER_BLOCK) && cells == Flat(blocks) && total == |cells| && Distinct(cells)
      && Distinct(free) && Subset(free, cells)
    }

    ghost predicate Valid()
      reads this, cells, free
    {
      Shaped() && Threaded(freeList, free) && Sorted(cells, free)
    }

    ghost function Live(): set<Cell>
      reads this
    {
      InUse(cells, free)
    }

    constructor ()
      ensures Valid() && Live() == {} && cells == [] && total == 0
    {
      blocks, freeList, total, used := [], Zero, 0, 0;
      cells, free := [], [];
    }

    /** A new block, all of it free. */
    method Refill()
      requires Valid() && freeList == Zero
      modifies this`blocks, this`cells, this`total, this`freeList, this`free
      ensures Valid() && Live() == old(Live()) && freeList != Zero && fresh(set c | c in free)
    {
      hide Distinct, Blocks, Flat, Threaded, InUse, Sorted, Subset, Apart;
      assert free == [] by { NoneFree(free); }
      var block := NewBlock(cells);
      BlockAdded(block, blocks, cells);
      blocks := [block] + blocks;
      cells, free := block + cells, block;
      total := total + CLOSURES_PER_BLOCK;
      freeList := Ref(block[0]);
    }

    /** Fmake_closure: a cell nobody was using, holding what was asked for; nothing else changes. */
    method MakeClosure(fun: Value, name: Value, env: Value, structure: Value) returns (c: Cell)
      requires Valid()
      modifies this, free
      ensures Valid() && c !in old(Live()) && Live() == old(Live()) + {c} && (c in old(free) || fresh(c))
      ensures c.Shape() == Object(Closure, [name, env, structure, fun], Zero) && !c.Marked()
      ensures forall d :: d in old(free) && d != c ==> d.car == old(d.car) && d.slots == old(d.slots)
    {
      hide Distinct, Blocks, Flat, Subset, Threaded, InUse;
      if freeList == Zero {
        Refill();
      }
      c := TakeFree();
      c.car := Header(Closure, false);
      c.slots := [name, env, structure, fun];
    }

    /** Takes the first cell off the list. */
    method TakeFree() returns (c: Cell)
      requires Valid() && freeList != Zero
      modifies this`freeList, this`free
      ensures c in old(free) && c in cells && c !in free && Shaped() && Threaded(freeList, free)
      ensures c !in old(Live()) && Live() == old(Live()) + {c}
      ensures forall d :: d in old(free) <==> d == c || d in free
    {
      hide Distinct, Blocks, Flat;
      FirstOff(free);
      UseFirst(cells, free);
      c := freeList.cell;
      freeList := c.car.v;
      free := free[1..];
    }

    /** After a sweep the live closures are exactly those that were in use and marked, unmarked and
        otherwise untouched; every other cell is on the free list exactly once. */
    method Sweep()
      requires Shaped() && Sorted(cells, free)
      modifies this`freeList, this`free, this`used, (set c | c in cells)`car
      ensures Valid() && cells == old(cells)
      ensures Live() == set c | c in cells && !old(c.IsPair()) && old(c.Marked())
      ensures forall c :: c in Live() ==> !c.Marked() && c.Shape() == old(c.Shape())
      ensures used == |cells| - |free|
    {
      hide Flat, Blocks, SweptTo, Distinct, Shapes, Threaded, Sorted, InUse, Subset, Survivors;
      ghost var all := cells;
      ghost var g, m := Shapes(set c | c in cells), Survivors(cells);
      var list: Value, count := Zero, 0;
      ghost var chain: seq<Cell> := [];
      ghost var k := 0;
      FlatNone(blocks);
      SweepBegins(all, free);
      Snapshot(all);
      for b := 0 to |blocks|
        invariant k == |Flat(blocks[..b])| && SweptTo(all, k, list, count, chain, g, m)
      {
        BlockIn(blocks, CLOSURES_PER_BLOCK, b);
        list, count, chain := SweepBlock(blocks[b], all, k, list, count, chain, g, m);
        k := k + CLOSURES_PER_BLOCK;
        FlatMore(blocks, b);
      }
      assert blocks[..|blocks|] == blocks;
      SweepEnds(all, list, count, chain, g, m);
      freeList := list;
      used := count;
      free := chain;
    }
  }

  /** A new block in front of the others. */
  lemma BlockAdded(block: seq<Cell>, blocks: seq<seq<Cell>>, cells: seq<Cell>)
    requires |block| == CLOSURES_PER_BLOCK && Blocks(blocks, CLOSURES_PER_BLOCK) && cells == Flat(blocks) &&
      Distinct(block) && Distinct(cells)
    requires Apart(block, cells) && Sorted(cells, []) && Threaded(Ref(block[0]), block)
    ensures Blocks([block] + blocks, CLOSURES_PER_BLOCK) && block + cells == Flat([block] + blocks) &&
      Distinct(block + cells)
    ensures InUse(block + cells, block) == InUse(cells, []) && Subset(block, block + cells) &&
      Sorted(block + cells, block)
  {
    assert ([block] + blocks)[1..] == blocks;
    forall i, j | 0 <= i < j < |block + cells| ensures (block + cells)[i] != (block + cells)[j] {
      if i < |block| <= j { assert block[i] in block && cells[j - |block|] in cells; }
    }
    forall c | c in block ensures c.IsPair() {
      var i :| 0 <= i < |block| && block[i] == c;
    }
  }

  lemma NoneFree(free: seq<Cell>)
    requires Threaded(Zero, free)
    ensures free == []
  {
  }

  method NewBlock(ghost others: seq<Cell>) returns (block: seq<Cell>)
    ensures |block| == CLOSURES_PER_BLOCK && Distinct(block) && Threaded(Ref(block[0]), block)
    ensures fresh(set c | c in block) && Apart(block, others)
  {
    block := [];
    while |block| < CLOSURES_PER_BLOCK
      invariant |block| <= CLOSURES_PER_BLOCK && Distinct(block)
      invariant fresh(set c | c in block) && Apart(block, others)
    {
      var c := new Cell(Pointer(Zero, false), Pointer(Zero, false), []);
      block := block + [c];
    }
    for i := 0 to CLOSURES_PER_BLOCK - 1
      invariant forall j :: 0 <= j < i ==> block[j].car == Pointer(NextIn(block, j), false)
      invariant fresh(set c | c in block)
    {
      assert block[i] in block;
      block[i].car := Pointer(Ref(block[i + 1]), false);
    }
    assert block[CLOSURES_PER_BLOCK - 1] in block;
    block[CLOSURES_PER_BLOCK - 1].car := Pointer(Zero, false);
  }

  // ----- Sweeping -----

  /** Closures in use whose mark is set. */
  ghost function Survivors(cells: seq<Cell>): set<Cell>
    reads cells
  {
    set c | c in cells && !c.IsPair() && c.Marked()
  }

  /** The first `k` cells of `all` have been swept; before that their contents were `g`, and `m`
      were to survive. */
  ghost predicate SweptTo(all: seq<Cell>, k: nat, list: Value, count: int, chain: seq<Cell>, g: map<Cell, Shape>,
                          m: set<Cell>)
    reads all, chain
  {
    && k <= |all| && Distinct(all) && Distinct(chain) && count + |chain| == k
    && (forall c :: c in all ==> c in g)
    && (forall c :: c in m && c in all ==> c.car.Header? && c.car.kind.Closure? && |c.slots| == 4)
    && (forall j :: 0 <= j < k ==> if all[j] in m then !all[j].Marked() &&
      all[j].Shape() == g[all[j]] else all[j] in chain)
    && (forall j :: k <= j < |all| ==>
      (all[j] in m) == (!all[j].IsPair() && all[j].Marked()) && all[j].Shape() == g[all[j]])
    && (forall c :: c in chain ==> c in all[..k] && c !in m)
    && list == NextIn(chain, -1)
    && forall i :: 0 <= i < |chain| ==> chain[i].car == Pointer(NextIn(chain, i), false)
  }

  lemma Snapshot(all: seq<Cell>)
    ensures forall c :: c in all ==>
      (c in Survivors(all) <==> !c.IsPair() && c.Marked()) && Shapes(set d | d in all)[c] == c.Shape()
  {
  }

  lemma SweepBegins(all: seq<Cell>, free: seq<Cell>)
    requires Distinct(all) && Sorted(all, free)
    ensures SweptTo(all, 0, Zero, 0, [], Shapes(set c | c in all), Survivors(all))
  {
  }

  /** What a finished sweep means. */
  lemma SweepEnds(all: seq<Cell>, list: Value, count: int, chain: seq<Cell>, g: map<Cell, Shape>, m: set<Cell>)
    requires SweptTo(all, |all|, list, count, chain, g, m)
    ensures Distinct(chain) && Subset(chain, all) && count + |chain| == |all| && Threaded(list, chain) &&
      Sorted(all, chain)
    ensures InUse(all, chain) == set c | c in all && c in m
    ensures forall c :: c in InUse(all, chain) ==> c in g && !c.Marked() && c.Shape() == g[c]
  {
    assert all[..|all|] == all;
    forall c | c in all ensures c in chain <==> c !in m {
    }
    forall c | c in chain ensures c.IsPair() {
      var i :| 0 <= i < |chain| && chain[i] == c;
    }
  }

  /** The cells of one block, in order. */
  method SweepBlock(block: seq<Cell>, ghost all: seq<Cell>, ghost k: nat, list0: Value, count0: int,
                    ghost chain0: seq<Cell>, ghost g: map<Cell, Shape>, ghost m: set<Cell>)
    returns (list: Value, count: int, ghost chain: seq<Cell>)
    requires |block| == CLOSURES_PER_BLOCK && SweptTo(all, k, list0, count0, chain0, g, m)
    requires k + |block| <= |all| && forall i :: 0 <= i < |block| ==> all[k + i] == block[i]
    modifies (set c | c in block)`car
    ensures SweptTo(all, k + |block|, list, count, chain, g, m)
  {
    hide SweptTo;
    list, count, chain := list0, count0, chain0;
    for i := 0 to CLOSURES_PER_BLOCK
      invariant SweptTo(all, k + i, list, count, chain, g, m)
    {
      assert block[i] in block;
      list, count, chain := SweepCell(block[i], all, k + i, list, count, chain, g, m);
    }
  }

  /** One cell: something already free looks like a pair and has no mark of its own. */
  method SweepCell(c: Cell, ghost all: seq<Cell>, ghost k: nat, list0: Value, count0: int, ghost chain0: seq<Cell>,
                   ghost g: map<Cell, Shape>, ghost m: set<Cell>)
    returns (list: Value, count: int, ghost chain: seq<Cell>)
    requires SweptTo(all, k, list0, count0, chain0, g, m) && k < |all| && c == all[k]
    modifies c`car
    ensures SweptTo(all, k + 1, list, count, chain, g, m)
  {
    list, count, chain := list0, count0, chain0;
    AtCell(all, k, list, count, chain, g, m);
    if c.IsPair() || !c.Marked() {
      FreeCell(c, all, k, list, count, chain, g, m);
      list := Ref(c);
      chain := [c] + chain;
    } else {
      KeepCell(c, all, k, list, count, chain, g, m);
      count := count + 1;
    }
  }

  lemma AtCell(all: seq<Cell>, k: nat, list: Value, count: int, chain: seq<Cell>, g: map<Cell, Shape>, m: set<Cell>)
    requires SweptTo(all, k, list, count, chain, g, m) && k < |all|
    ensures all[k] in m <==> !all[k].IsPair() && all[k].Marked()
  {
  }

  method FreeCell(c: Cell, ghost all: seq<Cell>, ghost k: nat, list: Value, ghost count: int, ghost chain: seq<Cell>,
                  ghost g: map<Cell, Shape>, ghost m: set<Cell>)
    requires SweptTo(all, k, list, count, chain, g, m) && k < |all| && c == all[k] && c !in m
    modifies c`car
    ensures SweptTo(all, k + 1, Ref(c), count, [c] + chain, g, m)
  {
    hide Cell.Shape;
    FreeingCell(all, k, list, count, chain, g, m);
    c.car := Pointer(list, false);
  }

  lemma FreeingCell(all: seq<Cell>, k: nat, list: Value, count: int, chain: seq<Cell>, g: map<Cell, Shape>,
                    m: set<Cell>)
    requires SweptTo(all, k, list, count, chain, g, m) && k < |all| && all[k] !in m
    ensures forall j :: 0 <= j < |all| && j != k ==> all[j] != all[k]
    ensures forall i :: 0 <= i < |chain| ==> chain[i] != all[k]
  {
    forall i | 0 <= i < |chain| ensures chain[i] != all[k] { assert chain[i] in chain; }
  }

  method KeepCell(c: Cell, ghost all: seq<Cell>, ghost k: nat, ghost list: Value, ghost count: int,
                  ghost chain: seq<Cell>, ghost g: map<Cell, Shape>, ghost m: set<Cell>)
    requires SweptTo(all, k, list, count, chain, g, m) && k < |all| && c == all[k] && c in m
    modifies c`car
    ensures SweptTo(all, k + 1, list, count + 1, chain, g, m)
  {
    hide Cell.Shape;
    HeldClosure(all, k, list, count, chain, g, m);
    ClosureShape(c);
    c.car := Header(c.car.kind, false);
    ClosureShape(c);
  }

  lemma HeldClosure(all: seq<Cell>, k: nat, list: Value, count: int, chain: seq<Cell>, g: map<Cell, Shape>,
                    m: set<Cell>)
    requires SweptTo(all, k, list, count, chain, g, m) && k < |all| && all[k] in m
    ensures all[k].car.Header? && all[k].car.kind.Closure?
    ensures forall j :: 0 <= j < |all| && j != k ==> all[j] != all[k]
    ensures forall i :: 0 <= i < |chain| ==> chain[i] != all[k]
  {
    forall i | 0 <= i < |chain| ensures chain[i] != all[k] { assert chain[i] in chain; }
  }

  lemma ClosureShape(c: Cell)
    requires c.car.Header? && c.car.kind.Closure?
    ensures c.Shape() == Object(Closure, c.slots, Zero)
  {
  }
}
