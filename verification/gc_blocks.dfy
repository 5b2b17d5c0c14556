/** Blocks of cells and lists of free cells, shared by the allocators. */
module GcBlocks {
  import opened GcHeap

  /** What the cell after position `i` of a list is. */
  function NextIn(s: seq<Cell>, i: int): Value
    requires -1 <= i < |s|
  {
    if i + 1 < |s| then Ref(s[i + 1]) else Zero
  }

  predicate Distinct(s: seq<Cell>)
  {
    forall i, j :: 0 <= i < j < |s| ==> s[i] != s[j]
  }

  predicate Subset(s: seq<Cell>, cells: seq<Cell>)
  {
    forall c :: c in s ==> c in cells
  }

  /** The cells of `cells` that are not in `free`. */
  ghost function InUse(cells: seq<Cell>, free: seq<Cell>): set<Cell>
  {
    set c | c in cells && c !in free
  }

  /** All cells, block after block. */
  function Flat(blocks: seq<seq<Cell>>): seq<Cell>
  {
    if blocks == [] then [] else blocks[0] + Flat(blocks[1..])
  }

  /** The cell at index `i` of block `b`, counted through all blocks. */
  lemma {:induction false} FlatAt(blocks: seq<seq<Cell>>, b: nat, i: nat)
    requires b < |blocks| && i < |blocks[b]|
    ensures |Flat(blocks[..b])| + i < |Flat(blocks)| && Flat(blocks)[|Flat(blocks[..b])| + i] == blocks[b][i]
    decreases |blocks|
  {
    if b > 0 {
      FlatAt(blocks[1..], b - 1, i);
      assert blocks[1..][..b - 1] == blocks[..b][1..];
    }
  }

  lemma {:induction false} FlatMore(blocks: seq<seq<Cell>>, b: nat)
    requires b < |blocks|
    ensures |Flat(blocks[..b + 1])| == |Flat(blocks[..b])| + |blocks[b]|
    decreases |blocks|
  {
    if b > 0 {
      FlatMore(blocks[1..], b - 1);
      assert blocks[1..][..b - 1] == blocks[..b][1..] && blocks[1..][..b] == blocks[..b + 1][1..];
    }
  }

  lemma FirstOff(s: seq<Cell>)
    requires s != [] && Distinct(s)
    ensures Distinct(s[1..]) && s[0] !in s[1..]
    ensures forall c :: c in s <==> c == s[0] || c in s[1..]
    ensures NextIn(s, 0) == NextIn(s[1..], -1)
    ensures forall i :: 0 <= i < |s| - 1 ==> NextIn(s, i + 1) == NextIn(s[1..], i)
  {
  }

  lemma UseFirst(cells: seq<Cell>, free: seq<Cell>)
    requires free != [] && Distinct(free) && free[0] in cells
    ensures InUse(cells, free[1..]) == InUse(cells, free) + {free[0]}
  {
    FirstOff(free);
  }

  predicate Apart(x: seq<Cell>, y: seq<Cell>)
  {
    forall c :: c in x ==> c !in y
  }

  /** Every block has `size` cells. */
  predicate Blocks(blocks: seq<seq<Cell>>, size: nat)
  {
    forall b :: 0 <= b < |blocks| ==> |blocks[b]| == size
  }

  lemma FlatNone(blocks: seq<seq<Cell>>)
    ensures Flat(blocks[..0]) == []
  {
  }

  lemma BlockIn(blocks: seq<seq<Cell>>, size: nat, b: nat)
    requires Blocks(blocks, size) && b < |blocks| && size > 0
    ensures |blocks[b]| == size && |Flat(blocks[..b])| + size <= |Flat(blocks)|
    ensures forall i :: 0 <= i < size ==> Flat(blocks)[|Flat(blocks[..b])| + i] == blocks[b][i]
    ensures forall c :: c in blocks[b] ==> c in Flat(blocks)
  {
    hide Flat;
    assert |blocks[b]| == size;
    forall i | 0 <= i < size
      ensures |Flat(blocks[..b])| + i < |Flat(blocks)| && Flat(blocks)[|Flat(blocks[..b])| + i] == blocks[b][i]
    {
      FlatAt(blocks, b, i);
    }
    FlatAt(blocks, b, size - 1);
  }
}
