/** The state of device.c as values: devices, their division into segments, the free-block
    records and the placement of items, with the invariant that ties them together. */
module SpaceModel {
  import opened SizeClass
  import opened Buckets
  import opened Layout

  /** ohc_free_block_t */
  datatype FBlock = FBlock(dev: nat, offset: nat, size: nat)

  /** Where an item lies: its device index, offset and length fields. */
  datatype Place = Place(dev: nat, offset: nat, length: nat)

  /** ohc_device_t; `used` counts in-flight requests, `fdOpen` is fd != -1. */
  datatype Device = Device(
    capacity: nat, order: seq<Node>,
    consumed: nat, badblock: nat, itemNr: nat, fblockNr: nat,
    deleted: bool, used: nat, fdOpen: bool)

  datatype Core = Core(
    devs: map<nat, Device>,
    layout: map<nat, seq<Seg>>,
    blocks: map<Handle, FBlock>,
    placed: map<ItemId, Place>)

  /** One device. A deleted device is only drained, so nothing is promised of its counters
      but the number of free blocks. */
  ghost predicate DevOk(dev: Device, L: seq<Seg>) {
    && Tiles(L, 0, dev.capacity)
    && dev.order == Nodes(L)
    && dev.fblockNr == TallyOf(L).frees
    && (!dev.deleted ==> Counted(dev, TallyOf(L)) && Coalesced(L))
  }

  /** `consumed` keeps retired blocks, and so does item_nr: the C code decrements neither
      when a bad block is retired. */
  ghost predicate Counted(dev: Device, t: Tally) {
    dev.consumed == t.item + t.hole && dev.badblock == t.hole && dev.itemNr == t.items + t.holes
  }

  /** A segment and the record it stands for agree. */
  ghost predicate Linked(s: Seg, d: nat, blocks: map<Handle, FBlock>, placed: map<ItemId, Place>) {
    match s
    case Free(h, o, n) => h in blocks && blocks[h] == FBlock(d, o, n)
    case Item(i, o, n) => i in placed && placed[i].dev == d && placed[i].offset == o && BlockSize(placed[i].length) == n
    case Hole(_, _) => true
  }

  ghost predicate BlockThere(c: Core, h: Handle)
    requires h in c.blocks
  {
    var b := c.blocks[h];
    b.dev in c.layout && Free(h, b.offset, b.size) in c.layout[b.dev]
  }

  ghost predicate ItemThere(c: Core, i: ItemId)
    requires i in c.placed
  {
    var p := c.placed[i];
    1 <= p.length <= FOUR_GB && p.dev in c.layout && Item(i, p.offset, BlockSize(p.length)) in c.layout[p.dev]
  }

  ghost predicate Inv(c: Core) {
    && c.layout.Keys == c.devs.Keys
    && (forall d :: d in c.devs ==> DevOk(c.devs[d], c.layout[d]))
    && (forall d, s :: d in c.layout && s in c.layout[d] ==> Linked(s, d, c.blocks, c.placed))
    && (forall h :: h in c.blocks ==> BlockThere(c, h))
    && (forall i :: i in c.placed ==> ItemThere(c, i))
  }

  /** The bucket index files every free block under its current size. */
  ghost predicate Agree(sizes: map<Handle, nat>, blocks: map<Handle, FBlock>) {
    sizes.Keys == blocks.Keys && forall h :: h in blocks ==> sizes[h] == blocks[h].size
  }

  ghost predicate OwnsBlock(w: seq<Seg>, h: Handle) {
    exists s :: s in w && s.Free? && s.h == h
  }

  ghost predicate OwnsItem(w: seq<Seg>, i: ItemId) {
    exists s :: s in w && s.Item? && s.id == i
  }

  /** Only the records of the replaced segments change. */
  ghost predicate Moves(c: Core, c': Core, w: seq<Seg>, w': seq<Seg>) {
    && (forall h :: h in c.blocks && !OwnsBlock(w, h) ==> h in c'.blocks && c'.blocks[h] == c.blocks[h])
    && (forall h :: h in c'.blocks && !OwnsBlock(w', h) ==>
         h in c.blocks && !OwnsBlock(w, h) && c'.blocks[h] == c.blocks[h])
    && (forall i :: i in c.placed && !OwnsItem(w, i) ==> i in c'.placed && c'.placed[i] == c.placed[i])
    && (forall i :: i in c'.placed && !OwnsItem(w', i) ==>
         i in c.placed && !OwnsItem(w, i) && c'.placed[i] == c.placed[i])
  }

  /** Segments outside a window of the tiling are not inside it. */
  lemma Outside(A: seq<Seg>, w: seq<Seg>, B: seq<Seg>, lo: nat, hi: nat, end: nat, s: Seg, t: Seg)
    requires Tiles(A, 0, lo) && Tiles(w, lo, hi) && Tiles(B, hi, end)
    requires (s in A || s in B) && t in w
    ensures s.offset != t.offset
  {
    TilesSpan(A, 0, lo);
    TilesSpan(w, lo, hi);
    TilesSpan(B, hi, end);
  }

  /** Every operation of the allocator replaces a window of one device by another that spans the
      same bytes; this is the one step all of them share. */
  lemma Rewrite(c: Core, c': Core, d: nat, A: seq<Seg>, w: seq<Seg>, w': seq<Seg>, B: seq<Seg>, lo: nat, hi: nat)
    requires Inv(c) && d in c.devs && c.layout[d] == A + w + B
    requires Tiles(A, 0, lo) && Tiles(w, lo, hi) && Tiles(B, hi, c.devs[d].capacity)
    requires c'.layout == c.layout[d := A + w' + B]
    requires d in c'.devs && c'.devs == c.devs[d := c'.devs[d]]
    requires DevOk(c'.devs[d], A + w' + B)
    requires forall s :: s in w' ==> Linked(s, d, c'.blocks, c'.placed)
    requires forall s :: s in w' && s.Item? ==> s.id in c'.placed && 1 <= c'.placed[s.id].length <= FOUR_GB
    requires Moves(c, c', w, w')
    ensures Inv(c')
  {
    hide Tiles, BlockSize, DevOk, Nodes, TallyOf;
    forall e | e in c'.devs ensures DevOk(c'.devs[e], c'.layout[e]) {}
    forall e, s | e in c'.layout && s in c'.layout[e] ensures Linked(s, e, c'.blocks, c'.placed) {
      if e != d {
        assert Linked(s, e, c.blocks, c.placed);
        OtherDevice(c, d, e, s, A, w, B);
      } else if s !in w' {
        StaysLinked(c, c', d, A, w, w', B, lo, hi, s);
      }
    }
    forall h | h in c'.blocks ensures BlockThere(c', h) {
      if OwnsBlock(w', h) {
        var s :| s in w' && s.Free? && s.h == h;
        assert Linked(s, d, c'.blocks, c'.placed);
        assert s in A + w' + B;
      } else {
        assert BlockThere(c, h);
        var b := c.blocks[h];
        assert Free(h, b.offset, b.size) !in w;
      }
    }
    forall i | i in c'.placed ensures ItemThere(c', i) {
      if OwnsItem(w', i) {
        var s :| s in w' && s.Item? && s.id == i;
        assert Linked(s, d, c'.blocks, c'.placed);
        assert s in A + w' + B;
      } else {
        assert ItemThere(c, i);
        var p := c.placed[i];
        assert Item(i, p.offset, BlockSize(p.length)) !in w;
      }
    }
  }

  lemma OtherDevice(c: Core, d: nat, e: nat, s: Seg, A: seq<Seg>, w: seq<Seg>, B: seq<Seg>)
    requires Inv(c) && d in c.devs && e in c.devs && d != e && c.layout[d] == A + w + B && s in c.layout[e]
    ensures s.Free? ==> !OwnsBlock(w, s.h)
    ensures s.Item? ==> !OwnsItem(w, s.id)
  {
    hide Tiles, BlockSize, DevOk;
    assert Linked(s, e, c.blocks, c.placed);
    forall t | t in w ensures Linked(t, d, c.blocks, c.placed) {
      assert t in c.layout[d];
    }
  }

  lemma StaysLinked(c: Core, c': Core, d: nat, A: seq<Seg>, w: seq<Seg>, w': seq<Seg>, B: seq<Seg>, lo: nat, hi: nat,
      s: Seg)
    requires Inv(c) && d in c.devs && c.layout[d] == A + w + B
    requires Tiles(A, 0, lo) && Tiles(w, lo, hi) && Tiles(B, hi, c.devs[d].capacity)
    requires Moves(c, c', w, w')
    requires s in A || s in B
    ensures Linked(s, d, c'.blocks, c'.placed)
  {
    hide Tiles, BlockSize, DevOk;
    assert s in c.layout[d];
    assert Linked(s, d, c.blocks, c.placed);
    forall t | t in w ensures Linked(t, d, c.blocks, c.placed) && s.offset != t.offset {
      assert t in c.layout[d];
      Outside(A, w, B, lo, hi, c.devs[d].capacity, s, t);
    }
  }

  /** Effect of a window on the per-device part of the invariant. */
  lemma DevWindow(dev: Device, dev': Device, A: seq<Seg>, w: seq<Seg>, w': seq<Seg>, B: seq<Seg>, lo: nat, hi: nat)
    requires DevOk(dev, A + w + B)
    requires Tiles(A, 0, lo) && Tiles(w', lo, hi) && Tiles(B, hi, dev.capacity)
    requires dev'.capacity == dev.capacity && (dev.deleted ==> dev'.deleted)
    requires dev'.order == Nodes(A) + Nodes(w') + Nodes(B)
    requires dev'.fblockNr + TallyOf(w).frees == dev.fblockNr + TallyOf(w').frees
    requires !dev'.deleted ==>
               var t, t' := TallyOf(w), TallyOf(w');
               && dev'.consumed + t.item + t.hole == dev.consumed + t'.item + t'.hole
               && dev'.badblock + t.hole == dev.badblock + t'.hole
               && dev'.itemNr + t.items + t.holes == dev.itemNr + t'.items + t'.holes
    requires !dev'.deleted ==> w' != [] && Coalesced(w')
    requires !dev'.deleted ==> !(EndsFree(A) && StartsFree(w')) && !(EndsFree(w') && StartsFree(B))
    ensures DevOk(dev', A + w' + B)
  {
    hide Tiles, Nodes, TallyOf, Coalesced, EndsFree, StartsFree;
    TilesJoin(A, w', 0, lo, hi);
    TilesJoin(A + w', B, 0, hi, dev.capacity);
    NodesConcat(A, w');
    NodesConcat(A + w', B);
    TallyConcat(A, w);
    TallyConcat(A + w, B);
    TallyConcat(A, w');
    TallyConcat(A + w', B);
    if !dev'.deleted {
      CoalescedConcat(A, w);
      CoalescedConcat(A + w, B);
      CoalescedConcat(A, w');
      CoalescedConcat(A + w', B);
      EndsFreeConcat(A, w');
    }
  }

  lemma EndsFreeConcat(A: seq<Seg>, w: seq<Seg>)
    requires w != []
    ensures EndsFree(A + w) == EndsFree(w)
  {
  }

  /** Live items never overlap, and they lie inside their device on sector boundaries. */
  lemma PlacesDisjoint(c: Core, i: ItemId, j: ItemId)
    requires Inv(c) && i in c.placed && j in c.placed
    ensures var p := c.placed[i]; p.dev in c.devs && p.offset + BlockSize(p.length) <= c.devs[p.dev].capacity
                                  && p.offset % SECTOR == 0
    ensures i != j && c.placed[i].dev == c.placed[j].dev ==>
              var p, q := c.placed[i], c.placed[j];
              p.offset + BlockSize(p.length) <= q.offset || q.offset + BlockSize(q.length) <= p.offset
  {
    hide BlockSize;
    var p, q := c.placed[i], c.placed[j];
    assert ItemThere(c, i) && ItemThere(c, j);
    var s, t := Item(i, p.offset, BlockSize(p.length)), Item(j, q.offset, BlockSize(q.length));
    assert DevOk(c.devs[p.dev], c.layout[p.dev]);
    hide Inv, Tiles, TallyOf, Nodes, Coalesced;
    TilesSpan(c.layout[p.dev], 0, c.devs[p.dev].capacity);
    TilesAligned(c.layout[p.dev], 0, c.devs[p.dev].capacity);
    if i != j && p.dev == q.dev && s.offset < t.End() && t.offset < s.End() {
      TilesUnique(c.layout[p.dev], 0, c.devs[p.dev].capacity, s, t);
    }
  }

  /** The books of a device in service balance. */
  lemma Books(c: Core, d: nat)
    requires Inv(c) && d in c.devs && !c.devs[d].deleted
    ensures var dev, t := c.devs[d], TallyOf(c.layout[d]);
            && t.free + t.item + dev.badblock == dev.capacity
            && dev.consumed == t.item + dev.badblock
            && t.free == dev.capacity - dev.consumed
  {
    TilesSpan(c.layout[d], 0, c.devs[d].capacity);
  }

  /** The bytes an entry of the order list stands for. */
  ghost predicate Extent(c: Core, d: nat, n: Node, offset: nat, size: nat) {
    match n
    case FreeNode(h) => h in c.blocks && c.blocks[h] == FBlock(d, offset, size)
    case ItemNode(i) => i in c.placed && c.placed[i].dev == d && c.placed[i].offset == offset
                        && BlockSize(c.placed[i].length) == size
  }

  lemma {:induction false} NodesSorted(L: seq<Seg>, a: nat, b: nat, i: nat, j: nat) returns (s: Seg, t: Seg)
    requires Tiles(L, a, b) && i < j < |Nodes(L)|
    ensures s in L && t in L && NodeOf(s) == [Nodes(L)[i]] && NodeOf(t) == [Nodes(L)[j]] && s.End() <= t.offset
  {
    if L[0].Hole? {
      s, t := NodesSorted(L[1..], L[0].End(), b, i, j);
    } else if i == 0 {
      s := L[0];
      t := NodesFind(L[1..], Nodes(L)[j]);
      TilesSpan(L[1..], L[0].End(), b);
    } else {
      s, t := NodesSorted(L[1..], L[0].End(), b, i - 1, j - 1);
    }
  }

  /** The order list of every device is strictly sorted by offset and its entries do not overlap. */
  lemma OrderSorted(c: Core, d: nat, i: nat, j: nat) returns (o1: nat, n1: nat, o2: nat, n2: nat)
    requires Inv(c) && d in c.devs && i < j < |c.devs[d].order|
    ensures Extent(c, d, c.devs[d].order[i], o1, n1) && Extent(c, d, c.devs[d].order[j], o2, n2)
    ensures n1 > 0 && n2 > 0 && o1 + n1 <= o2 && o2 + n2 <= c.devs[d].capacity
    ensures o1 % SECTOR == 0 && n1 % SECTOR == 0 && o2 % SECTOR == 0 && n2 % SECTOR == 0
  {
    hide BlockSize, Nodes, Tiles, TallyOf, Coalesced;
    var L, cap := c.layout[d], c.devs[d].capacity;
    assert DevOk(c.devs[d], L);
    var s, t := NodesSorted(L, 0, cap, i, j);
    assert Linked(s, d, c.blocks, c.placed) && Linked(t, d, c.blocks, c.placed);
    TilesSpan(L, 0, cap);
    TilesAligned(L, 0, cap);
    o1, n1, o2, n2 := s.offset, s.size, t.offset, t.size;
  }

  /** Every byte of a device is free, or in an item's block, or was retired. */
  lemma EveryByte(c: Core, d: nat, x: nat)
    requires Inv(c) && d in c.devs && x < c.devs[d].capacity
    ensures (exists h :: h in c.blocks && c.blocks[h].dev == d
              && c.blocks[h].offset <= x < c.blocks[h].offset + c.blocks[h].size)
            || (exists i :: i in c.placed && c.placed[i].dev == d
                            && c.placed[i].offset <= x < c.placed[i].offset + BlockSize(c.placed[i].length))
            || (exists s :: s in c.layout[d] && s.Hole? && s.offset <= x < s.End())
  {
    hide BlockSize;
    TilesCover(c.layout[d], 0, c.devs[d].capacity, x);
    var s :| s in c.layout[d] && s.offset <= x < s.End();
    assert Linked(s, d, c.blocks, c.placed);
  }

  /** Maximal coalescing: on a device in service no free block ends where another begins. */
  lemma NeverTouching(c: Core, h: Handle, g: Handle)
    requires Inv(c) && h in c.blocks && g in c.blocks && c.blocks[h].dev == c.blocks[g].dev
    requires c.blocks[h].dev in c.devs && !c.devs[c.blocks[h].dev].deleted
    ensures c.blocks[h].offset + c.blocks[h].size != c.blocks[g].offset
  {
    hide BlockSize, Nodes, Tiles, TallyOf;
    assert BlockThere(c, h) && BlockThere(c, g);
    var b, q := c.blocks[h], c.blocks[g];
    var L, cap := c.layout[b.dev], c.devs[b.dev].capacity;
    assert DevOk(c.devs[b.dev], L);
    hide Inv;
    var i :| 0 <= i < |L| && L[i] == Free(h, b.offset, b.size);
    var j :| 0 <= j < |L| && L[j] == Free(g, q.offset, q.size);
    TilesSpan(L, 0, cap);
    if b.offset + b.size == q.offset {
      if j < i { TilesOrdered(L, 0, cap, j, i); }
      if i + 1 < j {
        TilesOrdered(L, 0, cap, i, i + 1);
        TilesOrdered(L, 0, cap, i + 1, j);
      }
    }
  }
}
