/** The steps of device.c on values. Each lemma takes the state as the code leaves it and
    supplies the new division of the device, showing that the invariant still holds. */
module SpaceSteps {
  import opened SizeClass
  import opened Buckets
  import opened Layout
  import opened SpaceModel

  /** Position of a node in an order list, or its length when the node is not linked. */
  function Pos(o: seq<Node>, n: Node): (k: nat)
    ensures k <= |o|
    ensures k < |o| ==> o[k] == n
    ensures n in o ==> k < |o|
  {
    if o == [] then 0 else if o[0] == n then 0 else 1 + Pos(o[1..], n)
  }

  /** Put `xs` where `n` was linked: [n, x] is list_add, [x, n] list_add_tail and [] list_del. */
  function Relink(o: seq<Node>, n: Node, xs: seq<Node>): seq<Node>
    requires n in o
  {
    o[..Pos(o, n)] + xs + o[Pos(o, n) + 1..]
  }

  lemma {:induction false} PosAt(A: seq<Node>, n: Node, B: seq<Node>)
    requires n !in A
    ensures Pos(A + [n] + B, n) == |A|
  {
    if A != [] {
      PosAt(A[1..], n, B);
      assert (A + [n] + B)[1..] == A[1..] + [n] + B;
    }
  }

  lemma RelinkAt(A: seq<Node>, n: Node, B: seq<Node>, xs: seq<Node>)
    requires n !in A
    ensures n in A + [n] + B
    ensures Relink(A + [n] + B, n, xs) == A + xs + B
  {
    PosAt(A, n, B);
    assert (A + [n] + B)[|A|] == n;
  }

  /** Cut a list of segments at position k. */
  lemma SplitAt(L: seq<Seg>, cap: nat, k: nat) returns (A: seq<Seg>, B: seq<Seg>)
    requires Tiles(L, 0, cap) && k < |L|
    ensures A == L[..k] && L == A + [L[k]] + B
    ensures L[k].size > 0 && L[k].size % SECTOR == 0
    ensures Tiles(A, 0, L[k].offset) && Tiles([L[k]], L[k].offset, L[k].End()) && Tiles(B, L[k].End(), cap)
    ensures Nodes(L) == Nodes(A) + NodeOf(L[k]) + Nodes(B)
  {
    hide NodeOf;
    var s := L[k];
    A, B := L[..k], L[k + 1..];
    assert L == A + ([s] + B) && L == A + [s] + B;
    var m := TilesSplit(A, [s] + B, 0, cap);
    assert ([s] + B)[0] == s && ([s] + B)[1..] == B && [s][1..] == [];
    NodesConcat(A + [s], B);
    NodesConcat(A, [s]);
    assert Nodes([s]) == NodeOf(s);
  }

  /** A node is linked once: no earlier segment has the same name. */
  lemma LinkedOnce(c: Core, d: nat, A: seq<Seg>, s: Seg, B: seq<Seg>)
    requires Inv(c) && d in c.devs && c.layout[d] == A + [s] + B && Tiles(A, 0, s.offset) && !s.Hole?
    ensures NodeOf(s)[0] !in Nodes(A)
  {
    hide BlockSize, DevOk, Nodes;
    if NodeOf(s)[0] in Nodes(A) {
      var t := NodesFind(A, NodeOf(s)[0]);
      assert t in c.layout[d] && s in c.layout[d];
      assert Linked(t, d, c.blocks, c.placed) && Linked(s, d, c.blocks, c.placed);
      TilesSpan(A, 0, s.offset);
    }
  }

  /** Cut a device at one of its segments. */
  lemma Locate(c: Core, d: nat, s: Seg) returns (A: seq<Seg>, B: seq<Seg>)
    requires Inv(c) && d in c.devs && s in c.layout[d]
    ensures c.layout[d] == A + [s] + B
    ensures Tiles(A, 0, s.offset) && Tiles([s], s.offset, s.End()) && Tiles(B, s.End(), c.devs[d].capacity)
    ensures s.size > 0 && s.size % SECTOR == 0
    ensures c.devs[d].order == Nodes(A) + NodeOf(s) + Nodes(B)
    ensures !s.Hole? ==> NodeOf(s)[0] !in Nodes(A)
    ensures DevOk(c.devs[d], A + [s] + B)
  {
    hide NodeOf, Nodes, Tiles, TallyOf, Coalesced, BlockSize;
    var L := c.layout[d];
    assert DevOk(c.devs[d], L);
    var k :| 0 <= k < |L| && L[k] == s;
    A, B := SplitAt(L, c.devs[d].capacity, k);
    if !s.Hole? { LinkedOnce(c, d, A, s, B); }
  }

  /** A device where segment `s` gave way to the segments `w`. */
  ghost predicate Replaced(dev: Device, dev': Device, s: Seg, w: seq<Seg>)
    requires !s.Hole?
  {
    && NodeOf(s)[0] in dev.order
    && dev'.order == Relink(dev.order, NodeOf(s)[0], Nodes(w))
    && dev'.capacity == dev.capacity && (dev.deleted ==> dev'.deleted)
    && dev'.fblockNr + TallyOne(s).frees == dev.fblockNr + TallyOf(w).frees
    && (!dev'.deleted ==>
          var t, t' := TallyOne(s), TallyOf(w);
          && dev'.consumed + t.item + t.hole == dev.consumed + t'.item + t'.hole
          && dev'.badblock + t.hole == dev.badblock + t'.hole
          && dev'.itemNr + t.items + t.holes == dev.itemNr + t'.items + t'.holes)
  }

  /** Replace one segment by others spanning the same bytes. On a device in service, free
      segments may only appear at the edges where a free segment was. */
  lemma Replace(c: Core, c': Core, d: nat, s: Seg, w: seq<Seg>) returns (L: seq<Seg>)
    requires Inv(c) && d in c.devs && s in c.layout[d] && !s.Hole?
    requires w != [] && Tiles(w, s.offset, s.End())
    requires d in c'.devs && c'.devs == c.devs[d := c'.devs[d]]
    requires Replaced(c.devs[d], c'.devs[d], s, w)
    requires !c'.devs[d].deleted ==> Coalesced(w) && (s.Free? || !(StartsFree(w) || EndsFree(w)))
    requires forall x :: x in w ==> Linked(x, d, c'.blocks, c'.placed)
    requires forall x :: x in w && x.Item? ==> x.id in c'.placed && 1 <= c'.placed[x.id].length <= FOUR_GB
    requires Moves(c, c', [s], w)
    ensures Inv(c'.(layout := c.layout[d := L]))
  {
    hide NodeOf, Nodes, Tiles, TallyOf, Coalesced, BlockSize, DevOk, Relink, Linked, Inv, OwnsBlock, OwnsItem,
      StartsFree, EndsFree;
    var A, B := Locate(c, d, s);
    L := A + w + B;
    RelinkSeg(A, s, B, w);
    if !c'.devs[d].deleted { CoalescedAround(c.devs[d], A, s, B); }
    TallyOfOne(s);
    DevWindow(c.devs[d], c'.devs[d], A, [s], w, B, s.offset, s.End());
    Rewrite(c, c'.(layout := c.layout[d := L]), d, A, [s], w, B, s.offset, s.End());
  }

  lemma RelinkSeg(A: seq<Seg>, s: Seg, B: seq<Seg>, w: seq<Seg>)
    requires !s.Hole? && NodeOf(s)[0] !in Nodes(A)
    ensures NodeOf(s)[0] in Nodes(A) + NodeOf(s) + Nodes(B)
    ensures Relink(Nodes(A) + NodeOf(s) + Nodes(B), NodeOf(s)[0], Nodes(w)) == Nodes(A) + Nodes(w) + Nodes(B)
  {
    RelinkAt(Nodes(A), NodeOf(s)[0], Nodes(B), Nodes(w));
    assert NodeOf(s) == [NodeOf(s)[0]];
  }

  lemma TallyOfOne(s: Seg)
    ensures TallyOf([s]) == TallyOne(s)
  {
    assert [s][1..] == [];
  }

  /** Neighbours of a free segment are not free on a device in service. */
  lemma CoalescedAround(dev: Device, A: seq<Seg>, s: Seg, B: seq<Seg>)
    requires DevOk(dev, A + [s] + B) && !dev.deleted
    ensures s.Free? ==> !EndsFree(A) && !StartsFree(B)
  {
    hide Tiles, Nodes, TallyOf;
    CoalescedConcat(A, [s]);
    CoalescedConcat(A + [s], B);
    EndsFreeConcat(A, [s]);
  }

  lemma TilesOne(s: Seg)
    requires s.size > 0 && s.size % SECTOR == 0
    ensures Tiles([s], s.offset, s.End())
  {
    assert [s][1..] == [];
  }

  /** Two segments side by side. */
  lemma TilesTwo(s: Seg, t: Seg)
    requires s.size > 0 && s.size % SECTOR == 0 && t.size > 0 && t.size % SECTOR == 0 && t.offset == s.End()
    ensures Tiles([s, t], s.offset, t.End())
  {
    TilesOne(s);
    TilesOne(t);
    TilesJoin([s], [t], s.offset, s.End(), t.End());
    assert [s] + [t] == [s, t];
  }

  lemma ListTwo(s: Seg, t: Seg)
    ensures TallyOf([s, t]) == TallyOne(s).Plus(TallyOne(t))
    ensures Nodes([s]) == NodeOf(s)
    ensures Nodes([s, t]) == NodeOf(s) + NodeOf(t)
  {
    assert [s, t] == [s] + [t];
    TallyConcat([s], [t]);
    TallyOfOne(s);
    TallyOfOne(t);
    NodesConcat([s], [t]);
    assert [s][1..] == [] && [t][1..] == [];
  }

  lemma OwnsOne(s: Seg)
    ensures forall g :: OwnsBlock([s], g) <==> s.Free? && s.h == g
    ensures forall i :: OwnsItem([s], i) <==> s.Item? && s.id == i
  {
    assert s in [s];
  }

  lemma OwnsTwo(s: Seg, t: Seg)
    ensures forall g :: OwnsBlock([s, t], g) <==> OwnsBlock([s], g) || OwnsBlock([t], g)
    ensures forall i :: OwnsItem([s, t], i) <==> OwnsItem([s], i) || OwnsItem([t], i)
  {
    assert s in [s, t] && t in [s, t] && s in [s] && t in [t];
  }

  /** device_get_free_block, block bigger than needed: the rear becomes the item. */
  lemma CutRear(c: Core, h: Handle, id: ItemId, length: nat, dev': Device) returns (L: seq<Seg>)
    requires Inv(c) && h in c.blocks && id !in c.placed && 1 <= length <= FOUR_GB
             && c.blocks[h].size > BlockSize(length)
    requires c.blocks[h].dev in c.devs && FreeNode(h) in c.devs[c.blocks[h].dev].order
    requires var dev := c.devs[c.blocks[h].dev];
             !dev.deleted && dev' == dev.(order := Relink(dev.order, FreeNode(h), [FreeNode(h), ItemNode(id)]),
                                          itemNr := dev.itemNr + 1, consumed := dev.consumed + BlockSize(length))
    ensures var b, bsize := c.blocks[h], BlockSize(length);
            Inv(Core(c.devs[b.dev := dev'], c.layout[b.dev := L],
                     c.blocks[h := b.(size := b.size - bsize)],
                     c.placed[id := Place(b.dev, b.offset + b.size - bsize, length)]))
  {
    hide BlockSize, Tiles, Nodes, TallyOf, DevOk, Relink, OwnsBlock, OwnsItem, StartsFree, EndsFree;
    var b, bsize := c.blocks[h], BlockSize(length);
    assert BlockThere(c, h);
    hide Inv;
    var s, f := Free(h, b.offset, b.size), Free(h, b.offset, b.size - bsize);
    var i := Item(id, b.offset + b.size - bsize, bsize);
    SizesCut(c, h, length);
    TilesTwo(f, i);
    ListTwo(f, i);
    assert Nodes([f, i]) == [FreeNode(h), ItemNode(id)];
    OwnsOne(s);
    OwnsOne(f);
    OwnsOne(i);
    OwnsTwo(f, i);
    var c' := Core(c.devs[b.dev := dev'], c.layout, c.blocks[h := b.(size := b.size - bsize)],
                   c.placed[id := Place(b.dev, b.offset + b.size - bsize, length)]);
    L := Replace(c, c', b.dev, s, [f, i]);
  }

  lemma BlockSectors(c: Core, h: Handle)
    requires Inv(c) && h in c.blocks
    ensures c.blocks[h].size % SECTOR == 0 && c.blocks[h].size >= SECTOR
    ensures c.blocks[h].dev in c.devs && FreeNode(h) in c.devs[c.blocks[h].dev].order
  {
    hide BlockSize, Tiles, Nodes, TallyOf;
    assert BlockThere(c, h);
    var b := c.blocks[h];
    var A, B := Locate(c, b.dev, Free(h, b.offset, b.size));
  }

  lemma SizesCut(c: Core, h: Handle, length: nat)
    requires Inv(c) && h in c.blocks && 1 <= length <= FOUR_GB && c.blocks[h].size >= BlockSize(length)
    ensures c.blocks[h].size % SECTOR == 0 && BlockSize(length) % SECTOR == 0 && BlockSize(length) > 0
    ensures (c.blocks[h].size - BlockSize(length)) % SECTOR == 0
  {
    hide BlockSize, Tiles, Nodes, TallyOf;
    BlockSizeFacts(length);
    BlockSectors(c, h);
    hide Inv;
    SectorSums(c.blocks[h].size, BlockSize(length));
  }

  /** device_get_free_block, exact fit: the free block becomes the item. */
  lemma TakeWhole(c: Core, h: Handle, id: ItemId, length: nat, dev': Device) returns (L: seq<Seg>)
    requires Inv(c) && h in c.blocks && id !in c.placed && 1 <= length <= FOUR_GB
             && c.blocks[h].size == BlockSize(length)
    requires c.blocks[h].dev in c.devs && FreeNode(h) in c.devs[c.blocks[h].dev].order
    requires var dev := c.devs[c.blocks[h].dev];
             !dev.deleted && dev' == dev.(order := Relink(dev.order, FreeNode(h), [ItemNode(id)]),
                                          itemNr := dev.itemNr + 1, consumed := dev.consumed + BlockSize(length),
                                          fblockNr := dev'.fblockNr)
    requires dev'.fblockNr + 1 == c.devs[c.blocks[h].dev].fblockNr
    ensures var b := c.blocks[h];
            Inv(Core(c.devs[b.dev := dev'], c.layout[b.dev := L], c.blocks - {h},
                     c.placed[id := Place(b.dev, b.offset, length)]))
  {
    hide BlockSize, Tiles, Nodes, TallyOf, DevOk, Relink, OwnsBlock, OwnsItem, StartsFree, EndsFree;
    var b := c.blocks[h];
    assert BlockThere(c, h);
    hide Inv;
    var s, i := Free(h, b.offset, b.size), Item(id, b.offset, b.size);
    SizesCut(c, h, length);
    TilesOne(i);
    ListTwo(i, i);
    TallyOfOne(i);
    OwnsOne(s);
    OwnsOne(i);
    var c' := Core(c.devs[b.dev := dev'], c.layout, c.blocks - {h}, c.placed[id := Place(b.dev, b.offset, length)]);
    L := Replace(c, c', b.dev, s, [i]);
  }

  /** An item leaves the order list without its block being recycled: a retired bad block,
      or any item of a deleted device. */
  lemma RetireItem(c: Core, id: ItemId, dev': Device) returns (L: seq<Seg>)
    requires Inv(c) && id in c.placed && c.placed[id].dev in c.devs
    requires ItemNode(id) in c.devs[c.placed[id].dev].order
    requires var dev := c.devs[c.placed[id].dev];
             && dev' == dev.(order := Relink(dev.order, ItemNode(id), []), badblock := dev'.badblock,
                  deleted := dev'.deleted)
             && (dev.deleted ==> dev'.deleted)
             && (!dev'.deleted ==> dev'.badblock == dev.badblock + BlockSize(c.placed[id].length))
    ensures var p := c.placed[id]; Inv(Core(c.devs[p.dev := dev'], c.layout[p.dev := L], c.blocks, c.placed - {id}))
  {
    hide BlockSize, Tiles, Nodes, TallyOf, DevOk, Relink, OwnsBlock, OwnsItem, StartsFree, EndsFree;
    var p := c.placed[id];
    assert ItemThere(c, id);
    hide Inv;
    var s, o := Item(id, p.offset, BlockSize(p.length)), Hole(p.offset, BlockSize(p.length));
    BlockSizeFacts(p.length);
    TilesOne(o);
    ListTwo(o, o);
    TallyOfOne(o);
    EdgesOfOne(o);
    OwnsOne(s);
    OwnsOne(o);
    var c' := Core(c.devs[p.dev := dev'], c.layout, c.blocks, c.placed - {id});
    hide Coalesced, Linked;
    assert Linked(o, p.dev, c'.blocks, c'.placed) by { LinkedHole(o, p.dev, c'.blocks, c'.placed); }
    assert Moves(c, c', [s], [o]);
    L := Replace(c, c', p.dev, s, [o]);
  }

  lemma LinkedHole(o: Seg, d: nat, blocks: map<Handle, FBlock>, placed: map<ItemId, Place>)
    requires o.Hole?
    ensures Linked(o, d, blocks, placed)
  {
  }

  /** A free block of a deleted device is dropped. */
  lemma DropFree(c: Core, h: Handle, dev': Device) returns (L: seq<Seg>)
    requires Inv(c) && h in c.blocks && c.blocks[h].dev in c.devs
    requires FreeNode(h) in c.devs[c.blocks[h].dev].order
    requires var dev := c.devs[c.blocks[h].dev];
             dev.deleted && dev' == dev.(order := Relink(dev.order, FreeNode(h), []), fblockNr := dev'.fblockNr)
             && dev'.fblockNr + 1 == dev.fblockNr
    ensures var b := c.blocks[h]; Inv(Core(c.devs[b.dev := dev'], c.layout[b.dev := L], c.blocks - {h}, c.placed))
  {
    hide BlockSize, Tiles, Nodes, TallyOf, DevOk, Relink, OwnsBlock, OwnsItem, StartsFree, EndsFree;
    var b := c.blocks[h];
    assert BlockThere(c, h);
    BlockSectors(c, h);
    hide Inv;
    var s, o := Free(h, b.offset, b.size), Hole(b.offset, b.size);
    TilesOne(o);
    ListTwo(o, o);
    TallyOfOne(o);
    OwnsOne(s);
    OwnsOne(o);
    L := Replace(c, Core(c.devs[b.dev := dev'], c.layout, c.blocks - {h}, c.placed), b.dev, s, [o]);
  }

  /** The test of device_return_free_block looks at the previous entry of the order list;
      across a retired block it finds a free block that does not touch the item. */
  lemma PrevNeighbour(c: Core, d: nat, A: seq<Seg>, s: Seg, B: seq<Seg>)
    requires Inv(c) && d in c.devs && c.layout[d] == A + [s] + B && Tiles(A, 0, s.offset)
    ensures var N := Nodes(A);
            EndsFree(A) <==> N != [] && N[|N| - 1].FreeNode? && N[|N| - 1].h in c.blocks
                             && c.blocks[N[|N| - 1].h].offset + c.blocks[N[|N| - 1].h].size == s.offset
    ensures EndsFree(A) ==> Nodes(A)[|Nodes(A)| - 1] == FreeNode(A[|A| - 1].h)
                            && Linked(A[|A| - 1], d, c.blocks, c.placed) && A[|A| - 1].End() == s.offset
  {
    hide BlockSize, DevOk, Nodes;
    if A != [] {
      var z := A[|A| - 1];
      assert A == A[..|A| - 1] + [z];
      NodesConcat(A[..|A| - 1], [z]);
      ListTwo(z, z);
      var m := TilesSplit(A[..|A| - 1], [z], 0, s.offset);
      assert z in c.layout[d] && Linked(z, d, c.blocks, c.placed);
      assert [z][1..] == [];
      var N := Nodes(A);
      if N != [] && N[|N| - 1].FreeNode? {
        var t := NodesFind(A, N[|N| - 1]);
        assert t in c.layout[d] && Linked(t, d, c.blocks, c.placed);
        if t.End() == s.offset {
          TilesSpan(A, 0, s.offset);
          TilesUnique(A, 0, s.offset, t, z);
        }
      }
    } else {
      EmptyNodes();
    }
  }

  lemma EmptyNodes()
    ensures Nodes([]) == []
  {
  }

  lemma NextNeighbour(c: Core, d: nat, A: seq<Seg>, s: Seg, B: seq<Seg>)
    requires Inv(c) && d in c.devs && c.layout[d] == A + [s] + B && Tiles(B, s.End(), c.devs[d].capacity)
    ensures var N := Nodes(B);
            StartsFree(B) <==> N != [] && N[0].FreeNode? && N[0].h in c.blocks && c.blocks[N[0].h].offset == s.End()
    ensures StartsFree(B) ==> Nodes(B)[0] == FreeNode(B[0].h) && Linked(B[0], d, c.blocks, c.placed)
                              && B[0].offset == s.End()
  {
    hide BlockSize, DevOk, Nodes;
    if B != [] {
      var z := B[0];
      assert B == [z] + B[1..];
      NodesConcat([z], B[1..]);
      ListTwo(z, z);
      assert z in c.layout[d] && Linked(z, d, c.blocks, c.placed);
      var N := Nodes(B);
      if N != [] && N[0].FreeNode? {
        var t := NodesFind(B, N[0]);
        assert t in c.layout[d] && Linked(t, d, c.blocks, c.placed);
        if t.offset == s.End() {
          TilesSpan(B, s.End(), c.devs[d].capacity);
          TilesUnique(B, s.End(), c.devs[d].capacity, t, z);
        }
      }
    } else {
      EmptyNodes();
    }
  }

  /** The free block before a position, if it touches it. */
  ghost function FreeTail(A: seq<Seg>): (x: seq<Seg>)
    ensures |x| <= 1 && |x| <= |A|
  {
    if EndsFree(A) then A[|A| - 1..] else []
  }

  ghost function FreeHead(B: seq<Seg>): (y: seq<Seg>)
    ensures |y| <= 1 && |y| <= |B|
  {
    if StartsFree(B) then B[..1] else []
  }

  ghost function Bytes(L: seq<Seg>): nat {
    TallyOf(L).free
  }

  /** What is left of the lists around an item when its free neighbours are taken off. */
  lemma Trim(A: seq<Seg>, s: Seg, B: seq<Seg>, cap: nat)
    requires Tiles(A, 0, s.offset) && Tiles([s], s.offset, s.End()) && Tiles(B, s.End(), cap) && s.Item?
    ensures var x, y := FreeTail(A), FreeHead(B);
            var A0, B0 := A[..|A| - |x|], B[|y|..];
            && A + [s] + B == A0 + (x + [s] + y) + B0
            && Bytes(x) <= s.offset
            && Tiles(A0, 0, s.offset - Bytes(x)) && Tiles(B0, s.End() + Bytes(y), cap)
            && Tiles(x + [s] + y, s.offset - Bytes(x), s.End() + Bytes(y))
            && TallyOf(x + [s] + y) == Tally(Bytes(x) + Bytes(y), s.size, 0, |x| + |y|, 1, 0)
            && Nodes(A) == Nodes(A0) + Nodes(x) && Nodes(B) == Nodes(y) + Nodes(B0)
  {
    hide Tiles, Nodes, TallyOf, StartsFree, EndsFree, Bytes, FreeHead, FreeTail;
    TrimLeft(A, s.offset);
    TrimRight(B, s.End(), cap);
    var x, y := FreeTail(A), FreeHead(B);
    var A0, B0 := A[..|A| - |x|], B[|y|..];
    assert A == A0 + x && B == y + B0;
    assert A + [s] + B == A0 + (x + [s] + y) + B0;
    NodesConcat(A0, x);
    NodesConcat(y, B0);
    TilesJoin(x, [s], s.offset - Bytes(x), s.offset, s.End());
    TilesJoin(x + [s], y, s.offset - Bytes(x), s.End(), s.End() + Bytes(y));
    TallyOfOne(s);
    TallyConcat(x, [s]);
    TallyConcat(x + [s], y);
  }

  lemma TrimAligned(A: seq<Seg>, s: Seg, B: seq<Seg>, cap: nat)
    requires Tiles(A, 0, s.offset) && Tiles([s], s.offset, s.End()) && Tiles(B, s.End(), cap)
    ensures (Bytes(FreeTail(A)) + s.size + Bytes(FreeHead(B))) % SECTOR == 0
  {
    hide *;
    TrimLeft(A, s.offset);
    TrimRight(B, s.End(), cap);
    OneSector(s);
    SectorSums(Bytes(FreeTail(A)), s.size);
    SectorSums(Bytes(FreeTail(A)) + s.size, Bytes(FreeHead(B)));
  }

  lemma OneSector(s: Seg)
    requires Tiles([s], s.offset, s.End())
    ensures s.size % SECTOR == 0 && s.size > 0
  {
  }

  lemma TrimLeft(A: seq<Seg>, m: nat)
    requires Tiles(A, 0, m)
    ensures var x := FreeTail(A);
            && |x| <= 1 && |x| <= |A| && Bytes(x) <= m && Bytes(x) % SECTOR == 0
            && A == A[..|A| - |x|] + x
            && Tiles(A[..|A| - |x|], 0, m - Bytes(x)) && Tiles(x, m - Bytes(x), m)
            && TallyOf(x) == Tally(Bytes(x), 0, 0, |x|, 0, 0)
  {
    if EndsFree(A) {
      hide Tiles, TallyOf, Nodes;
      var k := |A| - 1;
      var z := A[k];
      assert A[k..] == [z] && A[..|A| - |[z]|] == A[..k];
      var A0, _ := SplitAt(A, m, k);
      LastEnds(A, m);
      TallyOfOne(z);
    } else {
      assert A[..|A|] == A;
    }
  }

  lemma LastEnds(A: seq<Seg>, m: nat)
    requires Tiles(A, 0, m) && A != []
    ensures A[|A| - 1].End() == m
  {
    var z := A[|A| - 1];
    assert A == A[..|A| - 1] + [z];
    var q := TilesSplit(A[..|A| - 1], [z], 0, m);
    assert [z][1..] == [];
  }

  lemma TrimRight(B: seq<Seg>, m: nat, cap: nat)
    requires Tiles(B, m, cap)
    ensures var y := FreeHead(B);
            && |y| <= 1 && |y| <= |B| && Bytes(y) % SECTOR == 0
            && B == y + B[|y|..]
            && Tiles(y, m, m + Bytes(y)) && Tiles(B[|y|..], m + Bytes(y), cap)
            && TallyOf(y) == Tally(Bytes(y), 0, 0, |y|, 0, 0)
  {
    if StartsFree(B) {
      assert B[..1] == [B[0]] && B == [B[0]] + B[1..];
      TallyOfOne(B[0]);
      TilesOne(B[0]);
    }
  }

  /** The free block an item's block becomes when it is given back, merged with its neighbours. */
  ghost function Merged(A: seq<Seg>, s: Seg, B: seq<Seg>, h: Handle): Seg
    requires Bytes(FreeTail(A)) <= s.offset
  {
    Free(h, s.offset - Bytes(FreeTail(A)), Bytes(FreeTail(A)) + s.size + Bytes(FreeHead(B)))
  }

  /** device_return_free_block: the item and the free blocks it touches become one free block. */
  lemma Recycle(c: Core, c': Core, d: nat, A: seq<Seg>, s: Seg, B: seq<Seg>, h: Handle) returns (L: seq<Seg>)
    requires Inv(c) && d in c.devs && !c.devs[d].deleted && c.layout[d] == A + [s] + B && s.Item?
    requires Tiles(A, 0, s.offset) && Tiles([s], s.offset, s.End()) && Tiles(B, s.End(), c.devs[d].capacity)
    requires Bytes(FreeTail(A)) <= s.offset
    requires if EndsFree(A) then h == A[|A| - 1].h else if StartsFree(B) then h == B[0].h else h !in c.blocks
    requires d in c'.devs && c'.devs == c.devs[d := c'.devs[d]]
    requires var x, y, dev, dev' := FreeTail(A), FreeHead(B), c.devs[d], c'.devs[d];
             && dev'.order == Nodes(A[..|A| - |x|]) + [FreeNode(h)] + Nodes(B[|y|..])
             && dev'.fblockNr + |x| + |y| == dev.fblockNr + 1
             && dev'.itemNr + 1 == dev.itemNr && dev'.consumed + s.size == dev.consumed
             && dev' == dev.(order := dev'.order, fblockNr := dev'.fblockNr, itemNr := dev'.itemNr,
                  consumed := dev'.consumed)
    requires c'.placed == c.placed - {s.id}
    requires var f := Merged(A, s, B, h);
             && h in c'.blocks && c'.blocks[h] == FBlock(d, f.offset, f.size)
             && forall g :: g != h ==> (g in c'.blocks <==> g in c.blocks && !(StartsFree(B) && B[0].h == g))
                                       && (g in c'.blocks ==> c'.blocks[g] == c.blocks[g])
    ensures L == A[..|A| - |FreeTail(A)|] + [Merged(A, s, B, h)] + B[|FreeHead(B)|..]
    ensures Inv(c'.(layout := c.layout[d := L]))
  {
    hide Tiles, Nodes, TallyOf, DevOk, BlockSize, Coalesced, OwnsBlock, OwnsItem, StartsFree, EndsFree;
    assert DevOk(c.devs[d], A + [s] + B);
    hide Inv;
    var x, y := FreeTail(A), FreeHead(B);
    var A0, B0, w, f := A[..|A| - |x|], B[|y|..], x + [s] + y, Merged(A, s, B, h);
    L := A0 + [f] + B0;
    Trim(A, s, B, c.devs[d].capacity);
    MergedDev(c.devs[d], c'.devs[d], A, s, B, h);
    MergedMoves(c, c', d, A, s, B, h);
    Rewrite(c, c'.(layout := c.layout[d := L]), d, A0, w, [f], B0, f.offset, f.End());
  }

  lemma MergedDev(dev: Device, dev': Device, A: seq<Seg>, s: Seg, B: seq<Seg>, h: Handle)
    requires DevOk(dev, A + [s] + B) && !dev.deleted && s.Item? && Bytes(FreeTail(A)) <= s.offset
    requires Tiles(A, 0, s.offset) && Tiles([s], s.offset, s.End()) && Tiles(B, s.End(), dev.capacity)
    requires var x, y := FreeTail(A), FreeHead(B);
             && dev'.order == Nodes(A[..|A| - |x|]) + [FreeNode(h)] + Nodes(B[|y|..])
             && dev'.fblockNr + |x| + |y| == dev.fblockNr + 1
             && dev'.itemNr + 1 == dev.itemNr && dev'.consumed + s.size == dev.consumed
             && dev' == dev.(order := dev'.order, fblockNr := dev'.fblockNr, itemNr := dev'.itemNr,
                  consumed := dev'.consumed)
    ensures DevOk(dev', A[..|A| - |FreeTail(A)|] + [Merged(A, s, B, h)] + B[|FreeHead(B)|..])
  {
    hide Tiles, Nodes, TallyOf, DevOk, Coalesced, StartsFree, EndsFree;
    var x, y := FreeTail(A), FreeHead(B);
    var A0, B0, w, f := A[..|A| - |x|], B[|y|..], x + [s] + y, Merged(A, s, B, h);
    Trim(A, s, B, dev.capacity);
    TrimAligned(A, s, B, dev.capacity);
    OneSector(s);
    TilesOne(f);
    TallyOfOne(f);
    ListTwo(f, f);
    TrimmedEdges(dev, A, s, B);
    EdgesOfOne(f);
    DevWindow(dev, dev', A0, w, [f], B0, f.offset, f.End());
  }

  lemma EdgesOfOne(f: Seg)
    ensures Coalesced([f]) && StartsFree([f]) == EndsFree([f]) == f.Free?
  {
  }

  /** Only the item, its free neighbours and the merged block change their records. */
  lemma MergedMoves(c: Core, c': Core, d: nat, A: seq<Seg>, s: Seg, B: seq<Seg>, h: Handle)
    requires s.Item? && Bytes(FreeTail(A)) <= s.offset
    requires if EndsFree(A) then h == A[|A| - 1].h else if StartsFree(B) then h == B[0].h else h !in c.blocks
    requires c'.placed == c.placed - {s.id}
    requires var f := Merged(A, s, B, h);
             && h in c'.blocks && c'.blocks[h] == FBlock(d, f.offset, f.size)
             && forall g :: g != h ==> (g in c'.blocks <==> g in c.blocks && !(StartsFree(B) && B[0].h == g))
                                       && (g in c'.blocks ==> c'.blocks[g] == c.blocks[g])
    ensures Moves(c, c', FreeTail(A) + [s] + FreeHead(B), [Merged(A, s, B, h)])
    ensures forall x :: x in [Merged(A, s, B, h)] ==> Linked(x, d, c'.blocks, c'.placed)
  {
    hide TallyOf, BlockSize, OwnsBlock, OwnsItem, FreeTail, FreeHead;
    var x, y, f := FreeTail(A), FreeHead(B), Merged(A, s, B, h);
    OwnsOne(f);
    OwnsOne(s);
    OwnsConcat(x, [s]);
    OwnsConcat(x + [s], y);
    OwnsEdges(A, B);
    hide Bytes;
  }

  lemma OwnsConcat(a: seq<Seg>, b: seq<Seg>)
    ensures forall g :: OwnsBlock(a + b, g) <==> OwnsBlock(a, g) || OwnsBlock(b, g)
    ensures forall i :: OwnsItem(a + b, i) <==> OwnsItem(a, i) || OwnsItem(b, i)
  {
  }

  lemma OwnsEdges(A: seq<Seg>, B: seq<Seg>)
    ensures forall g :: OwnsBlock(FreeTail(A), g) <==> EndsFree(A) && A[|A| - 1].h == g
    ensures forall g :: OwnsBlock(FreeHead(B), g) <==> StartsFree(B) && B[0].h == g
    ensures forall i :: !OwnsItem(FreeTail(A), i) && !OwnsItem(FreeHead(B), i)
  {
    if EndsFree(A) {
      assert FreeTail(A) == [A[|A| - 1]];
      OwnsOne(A[|A| - 1]);
    }
    if StartsFree(B) {
      assert FreeHead(B) == [B[0]];
      OwnsOne(B[0]);
    }
  }

  /** On a device in service nothing free is left next to the merged block. */
  lemma TrimmedEdges(dev: Device, A: seq<Seg>, s: Seg, B: seq<Seg>)
    requires DevOk(dev, A + [s] + B) && !dev.deleted
    ensures !EndsFree(A[..|A| - |FreeTail(A)|]) && !StartsFree(B[|FreeHead(B)|..])
  {
    hide Tiles, Nodes, TallyOf;
    CoalescedConcat(A, [s]);
    CoalescedConcat(A + [s], B);
  }
}
