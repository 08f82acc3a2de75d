/** The slab allocator of utils/slab.c: blocks of equal cells, a list of the blocks that have a free
    cell, and a counter per block. */
module Slabs {
  import opened Lists

  /** What malloc hands out below its mmap threshold, less the header of a slab block and the
      margin that slab_buckets leaves. */
  const ROOM := 128 * 1024 - 40 - 100

  type BlockId = nat

  /** A cell: the block its leader points to, and its place in that block. */
  datatype Cell = Cell(block: BlockId, k: nat)

  /** slab_block_t: its free cells and its counter. */
  datatype Block = Block(cells: seq<Cell>, frees: int)

  /** A block's free list holds cells of that block, each once, and the counter counts them. */
  ghost predicate BlockOk(b: BlockId, block: Block, n: nat) {
    && NoDup(block.cells) && block.frees == |block.cells| <= n
    && forall c :: c in block.cells ==> c.block == b && c.k < n
  }

  /** Every cell of a block is either free or handed out. */
  ghost predicate Split(b: BlockId, block: Block, live: set<Cell>, n: nat) {
    forall k :: 0 <= k < n ==> (Cell(b, k) in block.cells <==> Cell(b, k) !in live)
  }

  ghost predicate Listed(list: seq<BlockId>, blocks: map<BlockId, Block>) {
    NoDup(list) && forall b :: b in list <==> b in blocks && blocks[b].frees > 0
  }

  /** Only the last block of the list may be free as a whole. */
  ghost predicate OneSpare(list: seq<BlockId>, blocks: map<BlockId, Block>, n: nat) {
    forall j :: 0 <= j < |list| - 1 && list[j] in blocks ==> blocks[list[j]].frees < n
  }

  ghost predicate CellsOk(blocks: map<BlockId, Block>, live: set<Cell>, n: nat) {
    && (forall b :: b in blocks ==> BlockOk(b, blocks[b], n) && Split(b, blocks[b], live, n))
    && (forall c :: c in live ==> c.block in blocks && c.k < n)
  }

  ghost predicate Inv(list: seq<BlockId>, blocks: map<BlockId, Block>, live: set<Cell>, n: nat) {
    n > 0 && CellsOk(blocks, live, n) && Listed(list, blocks) && OneSpare(list, blocks, n)
  }

  ghost predicate OneSpareBut(list: seq<BlockId>, blocks: map<BlockId, Block>, n: nat, b: BlockId) {
    forall j :: 0 <= j < |list| - 1 && list[j] in blocks && list[j] != b ==> blocks[list[j]].frees < n
  }

  /** A block with a free list as long as it has cells has nothing handed out. */
  lemma AllFree(b: BlockId, block: Block, live: set<Cell>, n: nat)
    requires BlockOk(b, block, n) && Split(b, block, live, n) && block.frees == n
    ensures forall k :: 0 <= k < n ==> Cell(b, k) !in live
  {
    var all := set k | 0 <= k < n :: Cell(b, k);
    var have := set c | c in block.cells;
    CellCount(b, n);
    SeqCount(block.cells);
    assert have <= all;
    SubsetFull(have, all);
    forall k | 0 <= k < n ensures Cell(b, k) !in live { assert Cell(b, k) in all; }
  }

  lemma {:induction false} CellCount(b: BlockId, n: nat)
    ensures |set k | 0 <= k < n :: Cell(b, k)| == n
  {
    if n > 0 {
      CellCount(b, n - 1);
      assert (set k | 0 <= k < n :: Cell(b, k)) == (set k | 0 <= k < n - 1 :: Cell(b, k)) + {Cell(b, n - 1)};
    }
  }

  lemma {:induction false} SeqCount<T>(q: seq<T>)
    requires NoDup(q)
    ensures |set x | x in q| == |q|
  {
    if q != [] {
      var t := q[1..];
      assert forall j :: 0 <= j < |t| ==> t[j] == q[j + 1];
      assert q[0] !in t;
      SeqCount(t);
      assert (set x | x in q) == (set x | x in t) + {q[0]};
    }
  }

  lemma {:induction false} SubsetFull<T>(a: set<T>, b: set<T>)
    requires a <= b && |a| == |b|
    ensures a == b
    decreases b
  {
    if x :| x in b && x !in a {
      CardLe(a, b - {x});
      assert false;
    }
  }

  /** Conversely, a block with nothing handed out has all its cells in its free list. */
  lemma NothingOut(b: BlockId, block: Block, live: set<Cell>, n: nat)
    requires BlockOk(b, block, n) && Split(b, block, live, n) && forall c :: c in live ==> c.block != b
    ensures block.frees == n
  {
    var all := set k | 0 <= k < n :: Cell(b, k);
    var have := set c | c in block.cells;
    CellCount(b, n);
    SeqCount(block.cells);
    CardLe(all, have);
  }

  lemma Emptied(blocks: map<BlockId, Block>, live: set<Cell>, n: nat, b: BlockId)
    requires CellsOk(blocks, live, n) && b in blocks
    ensures (forall c :: c in live ==> c.block != b) <==> blocks[b].frees == n
  {
    if forall c :: c in live ==> c.block != b { NothingOut(b, blocks[b], live, n); }
    if blocks[b].frees == n {
      AllFree(b, blocks[b], live, n);
      forall c | c in live ensures c.block != b { assert c == Cell(c.block, c.k); }
    }
  }

  /** At most one block without a live cell is kept. */
  lemma OneEmptyBlock(list: seq<BlockId>, blocks: map<BlockId, Block>, live: set<Cell>, n: nat, a: BlockId, b: BlockId)
    requires Inv(list, blocks, live, n) && a in blocks && b in blocks
    requires forall c :: c in live ==> c.block != a && c.block != b
    ensures a == b
  {
    Emptied(blocks, live, n, a);
    Emptied(blocks, live, n, b);
    hide CellsOk;
    var i :| 0 <= i < |list| && list[i] == a;
    var j :| 0 <= j < |list| && list[j] == b;
  }

  // ---------- steps ----------

  lemma FreshBlock(list: seq<BlockId>, blocks: map<BlockId, Block>, live: set<Cell>, n: nat, b: BlockId, block: Block)
    requires Inv(list, blocks, live, n) && list == [] && b !in blocks && BlockOk(b, block, n) && block.frees == n
    requires forall k :: 0 <= k < n ==> Cell(b, k) in block.cells
    ensures Inv([b], blocks[b := block], live, n)
  {
  }

  lemma Taken(list: seq<BlockId>, blocks: map<BlockId, Block>, live: set<Cell>, n: nat)
    requires Inv(list, blocks, live, n) && list != []
    ensures var b := list[0];
            && b in blocks && blocks[b].cells != []
            && var c := blocks[b].cells[0]; var block := Block(blocks[b].cells[1..], blocks[b].frees - 1);
               && c !in live && c.block == b
               && Inv(if block.frees == 0 then list[1..] else list, blocks[b := block], live + {c}, n)
  {
    var b := list[0];
    var block := Block(blocks[b].cells[1..], blocks[b].frees - 1);
    var c := blocks[b].cells[0];
    TakenBlock(b, blocks[b], live, n);
    hide BlockOk;
    TakenList(list, blocks, n, block);
    hide Listed, OneSpare;
    var blocks' := blocks[b := block];
    forall x | x in blocks' && x != b ensures Split(x, blocks'[x], live + {c}, n) {
      assert Split(x, blocks[x], live, n);
    }
  }

  lemma TakenList(list: seq<BlockId>, blocks: map<BlockId, Block>, n: nat, block: Block)
    requires Listed(list, blocks) && OneSpare(list, blocks, n) && list != [] && block.frees == blocks[list[0]].frees - 1
    ensures var b := list[0]; var list' := if block.frees == 0 then list[1..] else list;
            Listed(list', blocks[b := block]) && OneSpare(list', blocks[b := block], n)
  {
    assert forall j :: 0 <= j < |list[1..]| ==> list[1..][j] == list[j + 1];
    assert forall x :: x in list <==> x == list[0] || x in list[1..];
  }

  lemma TakenBlock(b: BlockId, block: Block, live: set<Cell>, n: nat)
    requires BlockOk(b, block, n) && Split(b, block, live, n) && block.frees > 0
    ensures var c := block.cells[0]; var block' := Block(block.cells[1..], block.frees - 1);
            c !in live && c.block == b && c.k < n && BlockOk(b, block', n) && Split(b, block', live + {c}, n)
  {
    var c, t := block.cells[0], block.cells[1..];
    assert forall j :: 0 <= j < |t| ==> t[j] == block.cells[j + 1];
    assert forall x :: x in block.cells <==> x == c || x in t;
    assert c == Cell(b, c.k);
  }

  lemma GivenBlock(b: BlockId, block: Block, live: set<Cell>, n: nat, c: Cell)
    requires BlockOk(b, block, n) && Split(b, block, live, n) && c in live && c.block == b && c.k < n
    ensures var block' := Block([c] + block.cells, block.frees + 1);
            BlockOk(b, block', n) && Split(b, block', live - {c}, n)
  {
    assert c == Cell(b, c.k);
    ConsFacts(block.cells, c);
    var have := set x | x in [c] + block.cells;
    SeqCount([c] + block.cells);
    CellCount(b, n);
    var all := set k | 0 <= k < n :: Cell(b, k);
    forall x | x in have ensures x in all { assert x == Cell(b, x.k); }
    CardLe(have, all);
  }

  /** The cell is back in its block, and the block is listed. */
  lemma Given(list: seq<BlockId>, blocks: map<BlockId, Block>, live: set<Cell>, n: nat, c: Cell)
    requires Inv(list, blocks, live, n) && c in live
    ensures c.block in blocks && 0 <= blocks[c.block].frees < n
    ensures var b := c.block; var block := Block([c] + blocks[b].cells, blocks[b].frees + 1);
            var blocks' := blocks[b := block]; var list' := if blocks[b].frees == 0 then [b] + list else list;
            CellsOk(blocks', live - {c}, n) && Listed(list', blocks') && b in list' && OneSpareBut(list', blocks', n, b)
  {
    var b := c.block;
    GivenBlock(b, blocks[b], live, n, c);
    var block := Block([c] + blocks[b].cells, blocks[b].frees + 1);
    var blocks' := blocks[b := block];
    hide BlockOk;
    forall x | x in blocks' && x != b ensures Split(x, blocks'[x], live - {c}, n) {
      assert Split(x, blocks[x], live, n);
    }
    if blocks[b].frees == 0 { ConsFacts(list, b); }
    var list' := if blocks[b].frees == 0 then [b] + list else list;
    forall j | 0 <= j < |list'| - 1 && list'[j] != b ensures blocks'[list'[j]].frees < n {
      var i := if blocks[b].frees == 0 then j - 1 else j;
      assert list'[j] == list[i] && list[i] in blocks;
    }
  }

  /** A block that is free as a whole and not the last of the list is released: nothing in it is
      handed out, and the list does not run empty. */
  lemma Released(list: seq<BlockId>, blocks: map<BlockId, Block>, live: set<Cell>, n: nat, b: BlockId)
    requires n > 0 && CellsOk(blocks, live, n) && Listed(list, blocks) && OneSpareBut(list, blocks, n, b)
    requires b in blocks && b in list && b != list[|list| - 1] && blocks[b].frees == n
    ensures Inv(Del(list, b), blocks - {b}, live, n) && Del(list, b) != []
    ensures forall c :: c in live ==> c.block != b
  {
    ReleasedCells(blocks, live, n, b);
    hide CellsOk;
    ReleasedList(list, blocks, n, b);
  }

  lemma ReleasedCells(blocks: map<BlockId, Block>, live: set<Cell>, n: nat, b: BlockId)
    requires CellsOk(blocks, live, n) && b in blocks && blocks[b].frees == n
    ensures CellsOk(blocks - {b}, live, n) && forall c :: c in live ==> c.block != b
  {
    AllFree(b, blocks[b], live, n);
    hide BlockOk, Split;
    forall c | c in live ensures c.block != b { assert c == Cell(c.block, c.k); }
  }

  lemma ReleasedList(list: seq<BlockId>, blocks: map<BlockId, Block>, n: nat, b: BlockId)
    requires Listed(list, blocks) && OneSpareBut(list, blocks, n, b) && b in list && b != list[|list| - 1]
    ensures Listed(Del(list, b), blocks - {b}) && OneSpare(Del(list, b), blocks - {b}, n) && Del(list, b) != []
  {
    DelFacts(list, b);
    var k := DelIs(list, b);
    hide Del, NoDup;
    var list' := Del(list, b);
    forall j | 0 <= j < |list'| - 1 ensures list'[j] in blocks && blocks[list'[j]].frees < n {
      var i := if j < k then j else j + 1;
      assert list'[j] == list[i] && list'[j] != b;
    }
  }

  lemma Kept(list: seq<BlockId>, blocks: map<BlockId, Block>, n: nat, b: BlockId)
    requires Listed(list, blocks) && b in list && (blocks[b].frees < n || b == list[|list| - 1])
    requires OneSpareBut(list, blocks, n, b)
    ensures OneSpare(list, blocks, n)
  {
  }

  lemma NextCell(b: BlockId, cells: seq<Cell>, k: nat, n: nat)
    requires BlockOk(b, Block(cells, k), n) && k < n && forall c :: c in cells ==> c.k < k
    ensures BlockOk(b, Block([Cell(b, k)] + cells, k + 1), n)
  {
    ConsFacts(cells, Cell(b, k));
  }

  /** The loop of slab_alloc that threads the cells of a new block. */
  method FreeCells(b: BlockId, n: nat) returns (cells: seq<Cell>)
    ensures BlockOk(b, Block(cells, n), n) && forall k :: 0 <= k < n ==> Cell(b, k) in cells
  {
    cells := [];
    for k := 0 to n
      invariant BlockOk(b, Block(cells, k), n)
      invariant forall j :: 0 <= j < k ==> Cell(b, j) in cells
      invariant forall c :: c in cells ==> c.k < k
    {
      NextCell(b, cells, k, n);
      cells := [Cell(b, k)] + cells;
    }
  }

  /** slab_t with one cell size. */
  class Slab {
    const n: nat
    var list: seq<BlockId>
    var blocks: map<BlockId, Block>
    ghost var live: set<Cell>

    ghost predicate Valid()
      reads this
    {
      Inv(list, blocks, live, n)
    }

    constructor (itemSize: nat)
      requires 0 < itemSize <= ROOM
      ensures Valid() && live == {} && n == ROOM / itemSize
    {
      n, list, blocks, live := ROOM / itemSize, [], map[], {};
    }

    /** slab_alloc; `memory` says whether malloc succeeds. The cell handed out is not in use. */
    method Alloc(memory: bool) returns (r: Option<Cell>)
      requires Valid()
      modifies this
      ensures Valid()
      ensures r.None? <==> old(list) == [] && !memory
      ensures r.None? ==> live == old(live)
      ensures r.Some? ==> r.value !in old(live) && live == old(live) + {r.value}
      ensures old(blocks).Keys <= blocks.Keys
    {
      hide Inv, BlockOk;
      if list == [] {
        if !memory {
          return None;
        }
        ghost var u := Unused(blocks.Keys);
        assert u !in blocks;
        var b: BlockId :| b !in blocks;
        var cells := FreeCells(b, n);
        FreshBlock(list, blocks, live, n, b, Block(cells, n));
        list, blocks := [b], blocks[b := Block(cells, n)];
      }
      Taken(list, blocks, live, n);
      var b := list[0];
      var c := blocks[b].cells[0];
      var frees := blocks[b].frees - 1;
      blocks := blocks[b := Block(blocks[b].cells[1..], frees)];
      if frees == 0 {
        list := list[1..];
      }
      live := live + {c};
      return Some(c);
    }

    /** slab_free. A block goes back to the system only when none of its cells is in use, and never
        the last block of the list. */
    method Free(c: Cell)
      requires Valid() && c in live
      modifies this
      ensures Valid() && live == old(live) - {c}
      ensures list != []
      ensures blocks.Keys == old(blocks).Keys || blocks.Keys == old(blocks).Keys - {c.block}
      ensures c.block !in blocks <==>
              (forall x :: x in live ==> x.block != c.block) && old(list) != [] && old(list)[|old(list)| - 1] != c.block
    {
      hide CellsOk, Listed, OneSpare, OneSpareBut, Del, NoDup;
      Given(list, blocks, live, n, c);
      var b := c.block;
      var was := blocks[b].frees;
      if was == 0 {
        list := [b] + list;
      }
      blocks := blocks[b := Block([c] + blocks[b].cells, was + 1)];
      live := live - {c};
      Emptied(blocks, live, n, b);
      if was + 1 == n && b != list[|list| - 1] {
        Released(list, blocks, live, n, b);
        list := Del(list, b);
        blocks := blocks - {b};
      } else {
        Kept(list, blocks, n, b);
      }
    }
  }
}
