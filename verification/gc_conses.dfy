/** The allocator of pairs: blocks of cells, a free list threaded through their cdr words, counters
    that always add up, and the sweep that rebuilds the list. */
module GcConses {
  import opened GcBlocks
  import opened GcHeap

  const CONS_PER_BLOCK := 1022
  const CONS_SIZE := 16

  /** Each cell of `s` leads to the next one. */
  ghost predicate Threaded(list: Value, s: seq<Cell>)
    reads s
  {
    && list == NextIn(s, -1)
    && forall i :: 0 <= i < |s| ==> s[i].car.Pointer? && s[i].cdr == Pointer(NextIn(s, i), false)
  }

  /** Each cell of a new block but the first leads to the next. */
  ghost predicate Linked(block: seq<Cell>)
    reads block
  {
    forall i :: 1 <= i < |block| ==> block[i].cdr == Pointer(NextIn(block, i), false)
  }

  ghost predicate AllPairs(cells: seq<Cell>)
    reads cells
  {
    forall c :: c in cells ==> c.IsPair() && c.Proper()
  }

  class ConsPool {
    var blocks: seq<seq<Cell>>     // cons_block_list, newest first
    var freeList: Value            // cons_free_list
    var total: int             // rep_allocated_cons
    var used: int                  // rep_used_cons
    var dataAfterGc: int           // rep_data_after_gc
    ghost var cells: seq<Cell>     // every cell of every block
    ghost var free: seq<Cell>      // the free list, first to last

    ghost predicate Shaped()
      reads this
    {
      && Blocks(blocks, CONS_PER_BLOCK) && cells == Flat(blocks) && total == |cells| && Distinct(cells)
      && Distinct(free) && Subset(free, cells)
    }

    ghost predicate Valid()
      reads this, cells, free
    {
      && Shaped() && Threaded(freeList, free) && used + |free| == total
      && AllPairs(cells)
    }

    /** The cells in use. */
    ghost function Live(): set<Cell>
      reads this
    {
      InUse(cells, free)
    }

    constructor ()
      ensures Valid() && Live() == {} && cells == [] && total == 0
    {
      blocks, freeList, total, used, dataAfterGc := [], Zero, 0, 0, 0;
      cells, free := [], [];
    }

    /** rep_cons_free */
    method ConsFree(c: Cell)
      requires Valid() && c in Live()
      modifies this`freeList, this`used, this`free, c`cdr
      ensures Valid() && Live() == old(Live()) - {c} && cells == old(cells)
      ensures free == [c] + old(free)
    {
      c.cdr := Pointer(freeList, false);
      freeList := Ref(c);
      used := used - 1;
      free := [c] + free;
    }

    /** `c` has been taken off the list but is not yet counted as used. */
    ghost predicate Loose(c: Cell)
      reads this, cells, free
    {
      && Shaped() && Threaded(freeList, free) && used + |free| + 1 == total
      && AllPairs(cells)
      && c in cells && c !in free
    }

    /** A new block of cells; the first is returned and the others become the free list. */
    method RefillFreeList() returns (c: Cell)
      requires Valid() && free == []
      modifies this`blocks, this`cells, this`total, this`freeList, this`free
      ensures fresh(c) && Loose(c) && Live() == old(Live()) + {c}
      ensures forall d :: d in old(cells) ==> d in cells
      ensures forall d :: d in cells ==> d in old(cells) || fresh(d)
    {
      hide Distinct, Blocks, Flat, Threaded, InUse, AllPairs, Subset, Linked, Apart;
      var block := NewBlock(cells);
      ThreadBlock(block);
      BlockAdded(block, blocks, cells);
      ghost var live := InUse(cells, free);
      c := block[0];
      blocks := [block] + blocks;
      cells, free := block + cells, block[1..];
      total := total + CONS_PER_BLOCK;
      freeList := Ref(block[1]);
    }

    /** Takes the first cell off the list. */
    method TakeFree() returns (c: Cell)
      requires Valid() && freeList != Zero
      modifies this`freeList, this`free
      ensures c in old(free) && Loose(c) && Live() == old(Live()) + {c}
    {
      hide Distinct, Blocks, Flat, InUse;
      FirstOff(free);
      UseFirst(cells, free);
      c := freeList.cell;
      freeList := c.cdr.v;
      free := free[1..];
    }

    /** Fcons: a cell nobody was using, holding what was asked for; nothing else changes. */
    method Cons(car: Value, cdr: Value) returns (c: Cell)
      requires Valid()
      modifies this, free
      ensures Valid() && c !in old(Live()) && Live() == old(Live()) + {c} && (c in old(free) || fresh(c))
      ensures c.Shape() == Pair(car, cdr) && !c.Marked() && c.Proper()
      ensures used == old(used) + 1 && dataAfterGc == old(dataAfterGc) + CONS_SIZE
      ensures forall d :: d in old(free) && d != c ==> d.car == old(d.car) && d.cdr == old(d.cdr)
      ensures forall d :: d in old(cells) ==> d in cells
      ensures forall d :: d in cells ==> d in old(cells) || fresh(d)
    {
      hide Distinct, Blocks, Flat, Threaded;
      ghost var was := free;
      if freeList != Zero {
        c := TakeFree();
      } else {
        assert free == [] by { NoneFree(free); }
        c := RefillFreeList();
      }
      c.car := Pointer(car, false);
      c.cdr := Pointer(cdr, false);
      used := used + 1;
      dataAfterGc := dataAfterGc + CONS_SIZE;
    }

    /** After a sweep the live cells are exactly the marked ones, unmarked and otherwise untouched;
        every other cell is on the free list exactly once, and the counters add up. */
    method Sweep()
      requires Shaped() && AllPairs(cells)
      modifies this`freeList, this`free, this`used, (set c | c in cells)`cdr
      ensures Valid() && cells == old(cells)
      ensures Live() == set c | c in cells && old(c.Marked())
      ensures forall c :: c in Live() ==> !c.Marked() && c.Shape() == old(c.Shape())
    {
      hide Flat, Blocks, SweptTo, Distinct, Shapes, MarkedSet, Threaded, AllPairs, InUse, Subset;
      ghost var all := cells;
      ghost var g, m := Shapes(set c | c in cells), MarkedSet(set c | c in cells);
      var list: Value, count := Zero, 0;
      ghost var chain: seq<Cell> := [];
      ghost var k := 0;
      FlatNone(blocks);
      SweepBegins(all);
      Snapshot(all);
      for b := 0 to |blocks|
        invariant k == |Flat(blocks[..b])| && SweptTo(all, k, list, count, chain, g, m)
      {
        BlockIn(blocks, CONS_PER_BLOCK, b);
        list, count, chain := SweepBlock(blocks[b], all, k, list, count, chain, g, m);
        k := k + CONS_PER_BLOCK;
        BlockFull(blocks, b);
        FlatMore(blocks, b);
      }
      assert blocks[..|blocks|] == blocks;
      SweepEnds(all, list, count, chain, g, m);
      freeList := list;
      used := count;
      free := chain;
    }
  }

  /** A new block in front of the others, its first cell taken and the others free. */
  lemma BlockAdded(block: seq<Cell>, blocks: seq<seq<Cell>>, cells: seq<Cell>)
    requires |block| == CONS_PER_BLOCK && Blocks(blocks, CONS_PER_BLOCK) && cells == Flat(blocks) && Distinct(block) &&
      Distinct(cells)
    requires Apart(block, cells) && AllPairs(block) && AllPairs(cells) && Linked(block)
    ensures Blocks([block] + blocks, CONS_PER_BLOCK) && block + cells == Flat([block] + blocks) &&
      Distinct(block + cells) && AllPairs(block + cells)
    ensures InUse(block + cells, block[1..]) == InUse(cells, []) + {block[0]}
    ensures Distinct(block[1..]) && Subset(block[1..], block + cells) && Threaded(Ref(block[1]), block[1..])
    ensures block[0] in block + cells && block[0] !in block[1..]
  {
    assert ([block] + blocks)[1..] == blocks;
    forall i, j | 0 <= i < j < |block + cells| ensures (block + cells)[i] != (block + cells)[j] {
      if i < |block| <= j { assert block[i] in block && cells[j - |block|] in cells; }
    }
    FirstOff(block);
    RestThreaded(block);
    PairsConcat(block, cells);
    assert block == [block[0]] + block[1..];
  }

  lemma PairsConcat(x: seq<Cell>, y: seq<Cell>)
    requires AllPairs(x) && AllPairs(y)
    ensures AllPairs(x + y)
  {
  }

  lemma NoneFree(free: seq<Cell>)
    requires Threaded(Zero, free)
    ensures free == []
  {
  }

  lemma RestThreaded(block: seq<Cell>)
    requires |block| > 1 && AllPairs(block) && Linked(block)
    ensures Threaded(Ref(block[1]), block[1..])
  {
    forall i | 0 <= i < |block| - 1 ensures block[1..][i].cdr == Pointer(NextIn(block[1..], i), false) {
      assert block[1..][i] == block[i + 1];
    }
    forall i | 0 <= i < |block| - 1 ensures block[1..][i].car.Pointer? {
      assert block[1..][i] == block[i + 1] && block[i + 1] in block;
    }
  }

  lemma Snapshot(all: seq<Cell>)
    ensures forall c :: c in all ==>
      (c in MarkedSet(set d | d in all) <==> c.Marked()) && Shapes(set d | d in all)[c] == c.Shape()
  {
  }

  lemma BlockFull(blocks: seq<seq<Cell>>, b: nat)
    requires Blocks(blocks, CONS_PER_BLOCK) && b < |blocks|
    ensures |blocks[b]| == CONS_PER_BLOCK
  {
  }

  lemma SweepBegins(all: seq<Cell>)
    requires Distinct(all) && AllPairs(all)
    ensures SweptTo(all, 0, Zero, 0, [], Shapes(set c | c in all), MarkedSet(set c | c in all))
  {
  }

  /** What a finished sweep means. */
  lemma SweepEnds(all: seq<Cell>, list: Value, count: int, chain: seq<Cell>, g: map<Cell, Shape>, m: set<Cell>)
    requires SweptTo(all, |all|, list, count, chain, g, m)
    ensures Distinct(chain) && Subset(chain, all) && count + |chain| == |all| && Threaded(list, chain) && AllPairs(all)
    ensures InUse(all, chain) == set c | c in all && c in m
    ensures forall c :: c in InUse(all, chain) ==> c in g && !c.Marked() && c.Shape() == g[c]
  {
    assert all[..|all|] == all;
    forall c | c in all ensures c in chain <==> c !in m {
    }
  }

  method NewBlock(ghost others: seq<Cell>) returns (block: seq<Cell>)
    ensures |block| == CONS_PER_BLOCK && Distinct(block) && AllPairs(block)
    ensures fresh(set c | c in block) && Apart(block, others)
  {
    block := [];
    while |block| < CONS_PER_BLOCK
      invariant |block| <= CONS_PER_BLOCK && Distinct(block) && AllPairs(block)
      invariant forall c :: c in block ==> fresh(c) && c !in others
    {
      var c := new Cell(Pointer(Zero, false), Pointer(Zero, false), []);
      block := block + [c];
    }
  }

  /** Links the cells of a new block from the second on. */
  method ThreadBlock(block: seq<Cell>)
    requires |block| == CONS_PER_BLOCK && Distinct(block) && AllPairs(block)
    modifies (set c | c in block)`cdr
    ensures AllPairs(block) && Linked(block)
  {
    var i := 1;
    while i < CONS_PER_BLOCK - 1
      invariant 1 <= i <= CONS_PER_BLOCK - 1
      invariant forall c :: c in block ==> c.IsPair() && c.Proper()
      invariant forall j :: 1 <= j < i ==> block[j].cdr == Pointer(NextIn(block, j), false)
    {
      block[i].cdr := Pointer(Ref(block[i + 1]), false);
      i := i + 1;
    }
    block[CONS_PER_BLOCK - 1].cdr := Pointer(Zero, false);
  }

  /** The first `k` cells of `all` have been swept; before that their contents were `g`, and `m` of
      them were marked. */
  ghost predicate SweptTo(all: seq<Cell>, k: nat, list: Value, count: int, chain: seq<Cell>, g: map<Cell, Shape>,
                          m: set<Cell>)
    reads all, chain
  {
    && k <= |all| && Distinct(all) && Distinct(chain) && count + |chain| == k
    && (forall c :: c in all ==> c.IsPair() && c.Proper() && c in g)
    && (forall j :: 0 <= j < k ==> if all[j] in m then !all[j].Marked() &&
      all[j].Shape() == g[all[j]] else all[j] in chain)
    && (forall j :: k <= j < |all| ==> all[j].Marked() == (all[j] in m) && all[j].Shape() == g[all[j]])
    && (forall c :: c in chain ==> c in all[..k] && c !in m)
    && list == NextIn(chain, -1)
    && forall i :: 0 <= i < |chain| ==> chain[i].car.Pointer? && chain[i].cdr == Pointer(NextIn(chain, i), false)
  }

  /** The cells of one block, in order. */
  method SweepBlock(block: seq<Cell>, ghost all: seq<Cell>, ghost k: nat, list0: Value, count0: int,
                    ghost chain0: seq<Cell>, ghost g: map<Cell, Shape>, ghost m: set<Cell>)
    returns (list: Value, count: int, ghost chain: seq<Cell>)
    requires |block| == CONS_PER_BLOCK && SweptTo(all, k, list0, count0, chain0, g, m)
    requires k + |block| <= |all| && forall i :: 0 <= i < |block| ==> all[k + i] == block[i]
    modifies (set c | c in block)`cdr
    ensures SweptTo(all, k + |block|, list, count, chain, g, m)
  {
    hide SweptTo;
    list, count, chain := list0, count0, chain0;
    for i := 0 to CONS_PER_BLOCK
      invariant SweptTo(all, k + i, list, count, chain, g, m)
    {
      assert block[i] in block;
      list, count, chain := SweepCell(block[i], all, k + i, list, count, chain, g, m);
    }
  }

  /** One cell of the sweep. */
  method SweepCell(c: Cell, ghost all: seq<Cell>, ghost k: nat, list0: Value, count0: int, ghost chain0: seq<Cell>,
                   ghost g: map<Cell, Shape>, ghost m: set<Cell>)
    returns (list: Value, count: int, ghost chain: seq<Cell>)
    requires SweptTo(all, k, list0, count0, chain0, g, m) && k < |all| && c == all[k]
    modifies c`cdr
    ensures SweptTo(all, k + 1, list, count, chain, g, m)
  {
    list, count, chain := list0, count0, chain0;
    if !c.Marked() {
      c.cdr := Pointer(list, false);
      list := Ref(c);
      chain := [c] + chain;
    } else {
      c.cdr := Pointer(c.cdr.v, false);
      count := count + 1;
    }
  }
}
