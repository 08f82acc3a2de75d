/** Rebuilding a device at start-up (device_cut_free_block and device_load_post): items are cut
    from the front of the remaining space, left to right. While a device is being loaded its last
    free block may be empty and may be filed under an old size. */
module SpaceLoad {
  import opened SizeClass
  import opened Buckets
  import opened Layout
  import opened SpaceModel
  import opened SpaceSteps

  /** The state with an exhausted current block taken away. */
  ghost function Settle(c: Core, d: nat, cur: Handle): Core
    requires d in c.devs && cur in c.blocks
  {
    var dev := c.devs[d];
    if c.blocks[cur].size == 0 && dev.order != [] && dev.fblockNr > 0 then
      c.(devs := c.devs[d := dev.(order := dev.order[..|dev.order| - 1], fblockNr := dev.fblockNr - 1)],
         blocks := c.blocks - {cur})
    else
      c
  }

  /** Device d is being loaded and `cur` is the block after the last loaded item. */
  ghost predicate Loading(c: Core, d: nat, cur: Handle) {
    && d in c.devs && !c.devs[d].deleted && cur in c.blocks && c.blocks[cur].dev == d
    && c.blocks[cur].offset + c.blocks[cur].size == c.devs[d].capacity
    && c.devs[d].order != [] && c.devs[d].order[|c.devs[d].order| - 1] == FreeNode(cur)
    && c.devs[d].fblockNr > 0
    && Inv(Settle(c, d, cur))
  }

  /** All blocks but the current one are filed under their size. */
  ghost predicate AgreeBut(sizes: map<Handle, nat>, blocks: map<Handle, FBlock>, cur: Handle) {
    sizes.Keys == blocks.Keys && forall h :: h in blocks && h != cur ==> sizes[h] == blocks[h].size
  }

  /** A freshly added device is ready to be loaded. */
  lemma FreshLoading(c: Core, d: nat, cur: Handle)
    requires Inv(c) && d in c.devs && !c.devs[d].deleted && cur in c.blocks && c.devs[d].capacity > 0
    requires c.layout[d] == [Free(cur, 0, c.devs[d].capacity)]
    ensures Loading(c, d, cur)
  {
    hide BlockSize;
    var s := Free(cur, 0, c.devs[d].capacity);
    assert s in c.layout[d];
    assert Linked(s, d, c.blocks, c.placed);
    assert DevOk(c.devs[d], [s]);
    TallyOfOne(s);
    ListTwo(s, s);
  }

  /** What the front of the current block is cut into. */
  ghost function Cut(g: Handle, cur: Handle, id: ItemId, start: nat, gap: nat, bsize: nat, rest: nat): seq<Seg> {
    (if gap > 0 then [Free(g, start, gap)] else [])
    + [Item(id, start + gap, bsize)]
    + (if rest > 0 then [Free(cur, start + gap + bsize, rest)] else [])
  }

  ghost predicate Shape(w: seq<Seg>, g: Handle, cur: Handle, id: ItemId, gap: nat, bsize: nat, rest: nat) {
    && w != [] && Coalesced(w)
    && Nodes(w) == (if gap > 0 then [FreeNode(g)] else []) + [ItemNode(id)] + (if rest > 0 then [FreeNode(cur)] else [])
    && TallyOf(w) == Tally(gap + rest, bsize, 0, (if gap > 0 then 1 else 0) + (if rest > 0 then 1 else 0), 1, 0)
    && (forall h :: OwnsBlock(w, h) <==> (gap > 0 && h == g) || (rest > 0 && h == cur))
    && (forall i :: OwnsItem(w, i) <==> i == id)
  }

  lemma CutFacts(g: Handle, cur: Handle, id: ItemId, start: nat, gap: nat, bsize: nat, rest: nat)
    requires bsize > 0 && gap % SECTOR == 0 && bsize % SECTOR == 0 && rest % SECTOR == 0
    ensures Shape(Cut(g, cur, id, start, gap, bsize, rest), g, cur, id, gap, bsize, rest)
    ensures Tiles(Cut(g, cur, id, start, gap, bsize, rest), start, start + gap + bsize + rest)
  {
    var a := if gap > 0 then [Free(g, start, gap)] else [];
    var i := Item(id, start + gap, bsize);
    var b := if rest > 0 then [Free(cur, start + gap + bsize, rest)] else [];
    PartFacts(g, start, gap);
    PartFacts(cur, start + gap + bsize, rest);
    TilesOne(i);
    ListTwo(i, i);
    TallyOfOne(i);
    OwnsOne(i);
    hide Tiles, Nodes, TallyOf, OwnsBlock, OwnsItem;
    TilesJoin(a, [i], start, start + gap, start + gap + bsize);
    TilesJoin(a + [i], b, start, start + gap + bsize, start + gap + bsize + rest);
    NodesConcat(a, [i]);
    NodesConcat(a + [i], b);
    TallyConcat(a, [i]);
    TallyConcat(a + [i], b);
    OwnsConcat(a, [i]);
    OwnsConcat(a + [i], b);
  }

  lemma PartFacts(h: Handle, start: nat, n: nat)
    requires n % SECTOR == 0
    ensures var a := if n > 0 then [Free(h, start, n)] else [];
            && Tiles(a, start, start + n)
            && Nodes(a) == (if n > 0 then [FreeNode(h)] else [])
            && TallyOf(a) == Tally(n, 0, 0, if n > 0 then 1 else 0, 0, 0)
            && (forall g :: OwnsBlock(a, g) <==> n > 0 && g == h)
            && (forall i :: !OwnsItem(a, i))
  {
    var f := Free(h, start, n);
    if n > 0 {
      TilesOne(f);
      ListTwo(f, f);
      TallyOfOne(f);
      OwnsOne(f);
    }
  }

  /** The node of the current block closes the order list. */
  lemma LastNode(o: seq<Node>, n: Node, xs: seq<Node>)
    requires o != [] && o[|o| - 1] == n && n !in o[..|o| - 1]
    ensures n in o && Relink(o, n, xs) == o[..|o| - 1] + xs
  {
    RelinkAt(o[..|o| - 1], n, [], xs);
    assert o == o[..|o| - 1] + [n] + [];
    assert o[..|o| - 1] + xs + [] == o[..|o| - 1] + xs;
  }

  lemma CurrentLast(c: Core, d: nat, cur: Handle)
    requires Loading(c, d, cur) && c.blocks[cur].size > 0
    ensures FreeNode(cur) !in c.devs[d].order[..|c.devs[d].order| - 1]
    ensures c.blocks[cur].size % SECTOR == 0 && c.blocks[cur].offset % SECTOR == 0
  {
    hide BlockSize, Nodes, TallyOf, Coalesced, Tiles;
    var b := c.blocks[cur];
    assert BlockThere(c, cur);
    var s := Free(cur, b.offset, b.size);
    assert DevOk(c.devs[d], c.layout[d]);
    var A, B := Locate(c, d, s);
    TilesAligned(c.layout[d], 0, c.devs[d].capacity);
    hide Inv, DevOk;
    TilesSpan(B, s.End(), s.End());
    EmptySpan(B, s.End());
    EmptyNodes();
    assert c.devs[d].order == Nodes(A) + [FreeNode(cur)];
    assert c.devs[d].order[..|c.devs[d].order| - 1] == Nodes(A);
  }

  lemma EmptySpan(B: seq<Seg>, a: nat)
    requires Tiles(B, a, a)
    ensures B == []
  {
    if B != [] { TilesSpan(B[1..], B[0].End(), a); }
  }

  /** The state after an item was cut from the front of the current block. */
  ghost function AfterCut(c: Core, d: nat, cur: Handle, g: Handle, id: ItemId, offset: nat, length: nat): Core
    requires d in c.devs && cur in c.blocks && c.devs[d].order != []
    requires c.blocks[cur].offset <= offset && offset + BlockSize(length) <= c.blocks[cur].offset + c.blocks[cur].size
  {
    var b, dev, bsize := c.blocks[cur], c.devs[d], BlockSize(length);
    var gap := offset - b.offset;
    var front := dev.order[..|dev.order| - 1] + (if gap > 0 then [FreeNode(g)] else []);
    Core(c.devs[d := dev.(order := front + [ItemNode(id), FreeNode(cur)],
                          fblockNr := dev.fblockNr + (if gap > 0 then 1 else 0),
                          itemNr := dev.itemNr + 1, consumed := dev.consumed + bsize)],
         c.layout,
         (if gap > 0 then c.blocks[g := FBlock(d, b.offset, gap)] else c.blocks)
           [cur := FBlock(d, offset + bsize, b.size - gap - bsize)],
         c.placed[id := Place(d, offset, length)])
  }

  /** Seen without an exhausted current block, the cut replaces the block's segment. */
  lemma CutEffect(c: Core, d: nat, cur: Handle, g: Handle, id: ItemId, offset: nat, length: nat, w: seq<Seg>)
    requires d in c.devs && cur in c.blocks && c.blocks[cur].dev == d && g !in c.blocks && id !in c.placed
    requires c.devs[d].order != [] && c.devs[d].order[|c.devs[d].order| - 1] == FreeNode(cur) && c.devs[d].fblockNr > 0
    requires FreeNode(cur) !in c.devs[d].order[..|c.devs[d].order| - 1]
    requires c.blocks[cur].offset <= offset && offset + BlockSize(length) <= c.blocks[cur].offset + c.blocks[cur].size
    requires var gap := offset - c.blocks[cur].offset;
             Shape(w, g, cur, id, gap, BlockSize(length), c.blocks[cur].size - gap - BlockSize(length))
    ensures var b := c.blocks[cur];
            var c' := Settle(AfterCut(c, d, cur, g, id, offset, length), d, cur);
            var s := Free(cur, b.offset, b.size);
            && d in c'.devs && c'.devs == c.devs[d := c'.devs[d]] && c'.devs[d].deleted == c.devs[d].deleted
            && Replaced(c.devs[d], c'.devs[d], s, w)
  {
    hide BlockSize, Tiles, Nodes, TallyOf, Relink, OwnsBlock, OwnsItem, Coalesced, Cut, Replaced, Shape;
    var b, dev, gap, bsize := c.blocks[cur], c.devs[d], offset - c.blocks[cur].offset, BlockSize(length);
    CutDevice(dev, g, cur, id, b.offset, gap, bsize, b.size - gap - bsize, w);
    var c' := Settle(AfterCut(c, d, cur, g, id, offset, length), d, cur);
    assert c'.devs[d] == CutDev(dev, g, cur, id, gap, bsize, b.size - gap - bsize);
  }

  /** The device record after the cut, seen without an exhausted current block. */
  ghost function CutDev(dev: Device, g: Handle, cur: Handle, id: ItemId, gap: nat, bsize: nat, rest: nat): Device
    requires dev.order != [] && dev.fblockNr > 0
  {
    var order := dev.order[..|dev.order| - 1] + (if gap > 0 then [FreeNode(g)] else []) + [ItemNode(id), FreeNode(cur)];
    var fblockNr := dev.fblockNr + (if gap > 0 then 1 else 0);
    dev.(order := if rest == 0 then order[..|order| - 1] else order, fblockNr := if rest == 0 then fblockNr - 1
        else fblockNr,
         itemNr := dev.itemNr + 1, consumed := dev.consumed + bsize)
  }

  lemma CutDevice(dev: Device, g: Handle, cur: Handle, id: ItemId, start: nat, gap: nat, bsize: nat, rest: nat,
      w: seq<Seg>)
    requires dev.order != [] && dev.order[|dev.order| - 1] == FreeNode(cur) && dev.fblockNr > 0
             && FreeNode(cur) !in dev.order[..|dev.order| - 1]
    requires Shape(w, g, cur, id, gap, bsize, rest)
    ensures Replaced(dev, CutDev(dev, g, cur, id, gap, bsize, rest), Free(cur, start, gap + bsize + rest), w)
  {
    hide Tiles, Nodes, TallyOf, Relink, OwnsBlock, OwnsItem, Coalesced;
    LastNode(dev.order, FreeNode(cur), Nodes(w));
    CutOrder(dev.order[..|dev.order| - 1], g, id, cur, gap, rest);
  }

  lemma CutMoves(c: Core, c': Core, d: nat, cur: Handle, g: Handle, id: ItemId, gap: nat, bsize: nat, rest: nat,
      w: seq<Seg>)
    requires cur in c.blocks && g !in c.blocks && id !in c.placed && g != cur
    requires forall h :: OwnsBlock(w, h) <==> (gap > 0 && h == g) || (rest > 0 && h == cur)
    requires forall i :: OwnsItem(w, i) <==> i == id
    requires forall h :: h != g && h != cur ==>
             (h in c'.blocks <==> h in c.blocks) && (h in c.blocks ==> c'.blocks[h] == c.blocks[h])
    requires g in c'.blocks <==> gap > 0
    requires cur in c'.blocks <==> rest > 0
    requires id in c'.placed && c'.placed == c.placed[id := c'.placed[id]]
    ensures Moves(c, c', [Free(cur, c.blocks[cur].offset, c.blocks[cur].size)], w)
  {
    hide OwnsBlock, OwnsItem;
    OwnsOne(Free(cur, c.blocks[cur].offset, c.blocks[cur].size));
  }

  /** device_cut_free_block keeps the device loadable. */
  lemma CutFront(c: Core, d: nat, cur: Handle, g: Handle, id: ItemId, offset: nat, length: nat) returns (L: seq<Seg>)
    requires Loading(c, d, cur) && g !in c.blocks && id !in c.placed && 1 <= length <= FOUR_GB && offset % SECTOR == 0
    requires c.blocks[cur].offset <= offset && offset + BlockSize(length) <= c.blocks[cur].offset + c.blocks[cur].size
    ensures Loading(AfterCut(c, d, cur, g, id, offset, length).(layout := c.layout[d := L]), d, cur)
  {
    hide BlockSize, Tiles, Nodes, TallyOf, DevOk, Relink, OwnsBlock, OwnsItem, StartsFree, EndsFree, Coalesced;
    var b := c.blocks[cur];
    var w := CutShape(c, d, cur, g, id, offset, length);
    assert Inv(c);
    assert BlockThere(c, cur);
    hide Inv, Moves, Replaced, Cut;
    var s := Free(cur, b.offset, b.size);
    CutEffect(c, d, cur, g, id, offset, length, w);
    CutRecords(c, d, cur, g, id, offset, length, w);
    hide Loading, Settle, AfterCut;
    var c' := Settle(AfterCut(c, d, cur, g, id, offset, length), d, cur);
    L := Replace(c, c', d, s, w);
    CutStillLoading(c, d, cur, g, id, offset, length, L);
  }

  lemma CutShape(c: Core, d: nat, cur: Handle, g: Handle, id: ItemId, offset: nat, length: nat) returns (w: seq<Seg>)
    requires Loading(c, d, cur) && 1 <= length <= FOUR_GB && offset % SECTOR == 0
    requires c.blocks[cur].offset <= offset && offset + BlockSize(length) <= c.blocks[cur].offset + c.blocks[cur].size
    ensures var b, gap := c.blocks[cur], offset - c.blocks[cur].offset;
            var rest := b.size - gap - BlockSize(length);
            && b.size > 0
            && FreeNode(cur) !in c.devs[d].order[..|c.devs[d].order| - 1]
            && w == Cut(g, cur, id, b.offset, gap, BlockSize(length), rest)
            && Shape(w, g, cur, id, gap, BlockSize(length), rest)
            && Tiles(w, b.offset, b.offset + b.size)
  {
    BlockSizeFacts(length);
    hide *;
    var b, gap := c.blocks[cur], offset - c.blocks[cur].offset;
    CurrentLast(c, d, cur);
    CutSectors(b.offset, b.size, offset, BlockSize(length));
    w := Cut(g, cur, id, b.offset, gap, BlockSize(length), b.size - gap - BlockSize(length));
    CutFacts(g, cur, id, b.offset, gap, BlockSize(length), b.size - gap - BlockSize(length));
  }

  lemma CutStillLoading(c: Core, d: nat, cur: Handle, g: Handle, id: ItemId, offset: nat, length: nat, L: seq<Seg>)
    requires Loading(c, d, cur)
    requires c.blocks[cur].offset <= offset && offset + BlockSize(length) <= c.blocks[cur].offset + c.blocks[cur].size
    requires Inv(Settle(AfterCut(c, d, cur, g, id, offset, length), d, cur).(layout := c.layout[d := L]))
    ensures Loading(AfterCut(c, d, cur, g, id, offset, length).(layout := c.layout[d := L]), d, cur)
  {
    hide Inv, BlockSize;
    var c' := AfterCut(c, d, cur, g, id, offset, length);
    assert Settle(c', d, cur).(layout := c.layout[d := L]) == Settle(c'.(layout := c.layout[d := L]), d, cur);
  }

  lemma CutRecords(c: Core, d: nat, cur: Handle, g: Handle, id: ItemId, offset: nat, length: nat, w: seq<Seg>)
    requires d in c.devs && cur in c.blocks && c.blocks[cur].dev == d && g !in c.blocks && id !in c.placed
    requires c.devs[d].order != [] && c.devs[d].fblockNr > 0 && 1 <= length <= FOUR_GB
    requires c.blocks[cur].offset <= offset && offset + BlockSize(length) <= c.blocks[cur].offset + c.blocks[cur].size
    requires var b, gap := c.blocks[cur], offset - c.blocks[cur].offset;
             var rest := b.size - gap - BlockSize(length);
             && w == Cut(g, cur, id, b.offset, gap, BlockSize(length), rest)
             && Shape(w, g, cur, id, gap, BlockSize(length), rest)
    ensures var c' := Settle(AfterCut(c, d, cur, g, id, offset, length), d, cur);
            && Moves(c, c', [Free(cur, c.blocks[cur].offset, c.blocks[cur].size)], w)
            && (forall x :: x in w ==> Linked(x, d, c'.blocks, c'.placed))
            && (forall x :: x in w && x.Item? ==> x.id in c'.placed && 1 <= c'.placed[x.id].length <= FOUR_GB)
  {
    hide BlockSize, OwnsBlock, OwnsItem, Cut, Moves, Linked;
    var b, gap := c.blocks[cur], offset - c.blocks[cur].offset;
    var rest := b.size - gap - BlockSize(length);
    var c' := Settle(AfterCut(c, d, cur, g, id, offset, length), d, cur);
    CutLinked(c', d, g, cur, id, b.offset, gap, length, rest);
    CutMoves(c, c', d, cur, g, id, gap, BlockSize(length), rest, w);
  }

  lemma CutSectors(start: nat, size: nat, offset: nat, bsize: nat)
    requires start % SECTOR == 0 && size % SECTOR == 0 && offset % SECTOR == 0 && bsize % SECTOR == 0
    requires start <= offset && offset + bsize <= start + size
    ensures (offset - start) % SECTOR == 0 && (size - (offset - start) - bsize) % SECTOR == 0
  {
    SectorSums(offset, start);
    SectorSums(size, offset - start);
    SectorSums(size - (offset - start), bsize);
  }

  lemma CutOrder(front: seq<Node>, g: Handle, id: ItemId, cur: Handle, gap: nat, rest: nat)
    ensures var f := front + (if gap > 0 then [FreeNode(g)] else []);
            var o := f + [ItemNode(id), FreeNode(cur)];
            && o[|o| - 1] == FreeNode(cur)
            && (if rest == 0 then o[..|o| - 1] else o)
               == front + ((if gap > 0 then [FreeNode(g)] else []) + [ItemNode(id)]
                   + (if rest > 0 then [FreeNode(cur)] else []))
  {
  }

  lemma CutLinked(c: Core, d: nat, g: Handle, cur: Handle, id: ItemId, start: nat, gap: nat, length: nat, rest: nat)
    requires gap > 0 ==> g in c.blocks && c.blocks[g] == FBlock(d, start, gap)
    requires rest > 0 ==> cur in c.blocks && c.blocks[cur] == FBlock(d, start + gap + BlockSize(length), rest)
    requires id in c.placed && c.placed[id] == Place(d, start + gap, length)
    ensures forall x :: x in Cut(g, cur, id, start, gap, BlockSize(length), rest) ==> Linked(x, d, c.blocks, c.placed)
    ensures forall x :: x in Cut(g, cur, id, start, gap, BlockSize(length), rest) && x.Item? ==> x.id == id
  {
    hide BlockSize;
  }

  /** device_load_post: with an exhausted block dropped or the last block filed anew, the
      device is in order again. */
  lemma Loaded(c: Core, d: nat, cur: Handle)
    requires Loading(c, d, cur)
    ensures c.blocks[cur].size > 0 ==> Inv(c) && c.blocks[cur].size >= SECTOR
    ensures c.blocks[cur].size == 0 ==>
              var dev := c.devs[d];
              Inv(c.(devs := c.devs[d := dev.(order := dev.order[..|dev.order| - 1], fblockNr := dev.fblockNr - 1)],
                     blocks := c.blocks - {cur}))
  {
    hide BlockSize, DevOk;
    if c.blocks[cur].size > 0 {
      BlockSectors(c, cur);
    }
  }
}
