/** Devices and free blocks (device.c): the operations, updating the order lists, the free-block
    records and the bucket index in place. */
module Devices {
  import opened Lists
  import opened SizeClass
  import opened Buckets
  import opened Layout
  import opened SpaceModel
  import opened SpaceSteps
  import opened SpaceLoad

  const LOOP_LIMIT: nat := 1000

  lemma BlockNotEmpty(length: nat)
    requires 1 <= length <= FOUR_GB
    ensures BlockSize(length) > 0
  {
    hide BlockSize, IndexUp, IndexDown;
    BlockSizeFacts(length);
  }

  /** What the rest of the program sees of a device does not change. */
  ghost predicate SameStatus(devs: map<nat, Device>, devs': map<nat, Device>) {
    devs'.Keys == devs.Keys
    && forall d :: d in devs ==>
         devs'[d].capacity == devs[d].capacity && devs'[d].deleted == devs[d].deleted
         && devs'[d].used == devs[d].used && devs'[d].fdOpen == devs[d].fdOpen
  }

  /** Entry `n` was taken out of the order list of device d, the others keep their places. */
  ghost predicate Unqueued(devs: map<nat, Device>, devs': map<nat, Device>, d: nat, n: Node) {
    d in devs && d in devs' && n in devs[d].order && devs'[d].order == Relink(devs[d].order, n, [])
  }

  class Space {
    var devices: map<nat, Device>
    var blocks: map<Handle, FBlock>
    var placed: map<ItemId, Place>
    const buckets: IpBucket
    ghost var layout: map<nat, seq<Seg>>

    ghost function View(): Core
      reads this
    {
      Core(devices, layout, blocks, placed)
    }

    ghost predicate Valid()
      reads this, buckets
    {
      buckets.Valid() && Inv(View()) && Agree(buckets.sizes, blocks)
    }

    /** Between taking a block from its bucket and using it. */
    ghost predicate Detached(h: Handle)
      reads this, buckets
    {
      buckets.Valid() && Inv(View()) && h in blocks && h !in buckets.sizes
          && Agree(buckets.sizes[h := blocks[h].size], blocks)
    }

    constructor ()
      ensures Valid() && fresh(buckets) && devices == map[] && placed == map[]
    {
      devices, blocks, placed, layout := map[], map[], map[], map[];
      buckets := new IpBucket();
    }

    /** device_add: a new device is one free block. */
    method AddDevice(d: nat, capacity: nat)
      requires Valid() && d !in devices && capacity % SECTOR == 0
      modifies this, buckets
      ensures Valid() && placed == old(placed)
      ensures d in devices && devices == old(devices)[d := devices[d]]
      ensures var dev := devices[d]; dev.capacity == capacity && !dev.deleted && dev.fdOpen && dev.used == 0
      ensures capacity > 0 ==> exists h :: h in blocks && d in layout && layout[d] == [Free(h, 0, capacity)]
    {
      hide Inv, BlockSize, Filed;
      ghost var g := Unused(blocks.Keys);
      if capacity == 0 {
        AddedEmpty(View(), d);
        devices := devices[d := Device(0, [], 0, 0, 0, 0, false, 0, true)];
        layout := layout[d := []];
      } else {
        assert g !in blocks;
        var h :| h !in blocks;
        AddedDevice(View(), d, capacity, h);
        blocks := blocks[h := FBlock(d, 0, capacity)];
        devices := devices[d := Device(capacity, [FreeNode(h)], 0, 0, 0, 1, false, 0, true)];
        layout := layout[d := [Free(h, 0, capacity)]];
        buckets.Add(h, capacity);
      }
    }

    /** device_fblock_delete for a block whose device is deleted. */
    method DropBlock(h: Handle)
      requires Detached(h) && blocks[h].dev in devices && devices[blocks[h].dev].deleted
      modifies this, buckets
      ensures Valid() && placed == old(placed) && blocks == old(blocks) - {h} && SameStatus(old(devices), devices)
      ensures Unqueued(old(devices), devices, old(blocks)[h].dev, FreeNode(h))
    {
      hide Inv, BlockSize, Filed, Relink;
      BlockSectors(View(), h);
      HasFree(View(), h);
      var d := blocks[h].dev;
      var dev := devices[d];
      var dev' := dev.(fblockNr := dev.fblockNr - 1, order := Relink(dev.order, FreeNode(h), []));
      ghost var L := DropFree(View(), h, dev');
      devices, layout, blocks := devices[d := dev'], layout[d := L], blocks - {h};
    }

    /** device_fblock_delete, unlinking the block from its bucket as well. */
    method DeleteBlock(h: Handle)
      requires Valid() && h in blocks && blocks[h].dev in devices && devices[blocks[h].dev].deleted
      modifies this, buckets
      ensures Valid() && placed == old(placed) && blocks == old(blocks) - {h} && SameStatus(old(devices), devices)
      ensures Unqueued(old(devices), devices, old(blocks)[h].dev, FreeNode(h))
    {
      hide Inv, BlockSize, Filed, SameStatus, Unqueued;
      buckets.Del(h);
      DropBlock(h);
    }

    /** device_get_free_block, the block is bigger than needed: cut from the rear. */
    method CutFrom(h: Handle, id: ItemId, length: nat)
      requires Detached(h) && blocks[h].dev in devices && !devices[blocks[h].dev].deleted
      requires id !in placed && 1 <= length <= FOUR_GB && blocks[h].size > BlockSize(length)
      modifies this, buckets
      ensures Valid() && SameStatus(old(devices), devices)
      ensures var b := old(blocks)[h]; placed == old(placed)[id :=
                Place(b.dev, b.offset + b.size - BlockSize(length), length)]
    {
      hide Inv, BlockSize, Filed, Relink;
      BlockSectors(View(), h);
      var fblock, bsize := blocks[h], BlockSize(length);
      var device := devices[fblock.dev];
      var device' := device.(order := Relink(device.order, FreeNode(h), [FreeNode(h), ItemNode(id)]),
                             itemNr := device.itemNr + 1, consumed := device.consumed + bsize);
      ghost var L := CutRear(View(), h, id, length, device');
      placed := placed[id := Place(fblock.dev, fblock.offset + fblock.size - bsize, length)];
      blocks := blocks[h := fblock.(size := fblock.size - bsize)];
      devices, layout := devices[fblock.dev := device'], layout[fblock.dev := L];
      BlockSectors(View(), h);
      buckets.Add(h, fblock.size - bsize);
    }

    /** device_get_free_block, the block fits exactly: take it whole. */
    method TakeAll(h: Handle, id: ItemId, length: nat)
      requires Detached(h) && blocks[h].dev in devices && !devices[blocks[h].dev].deleted
      requires id !in placed && 1 <= length <= FOUR_GB && blocks[h].size == BlockSize(length)
      modifies this, buckets
      ensures Valid() && SameStatus(old(devices), devices)
      ensures var b := old(blocks)[h]; placed == old(placed)[id := Place(b.dev, b.offset, length)]
    {
      hide Inv, BlockSize, Filed, Relink;
      BlockSectors(View(), h);
      HasFree(View(), h);
      var fblock, bsize := blocks[h], BlockSize(length);
      var device := devices[fblock.dev];
      var device' := device.(order := Relink(device.order, FreeNode(h), [ItemNode(id)]),
          fblockNr := device.fblockNr - 1,
                             itemNr := device.itemNr + 1, consumed := device.consumed + bsize);
      ghost var L := TakeWhole(View(), h, id, length, device');
      placed := placed[id := Place(fblock.dev, fblock.offset, length)];
      blocks := blocks - {h};
      devices, layout := devices[fblock.dev := device'], layout[fblock.dev := L];
    }

    /** device_get_free_block once a block is chosen; the last branch is the "oops" exit. */
    method TakeFrom(h: Handle, id: ItemId, length: nat) returns (bsize: nat)
      requires Detached(h) && blocks[h].dev in devices && !devices[blocks[h].dev].deleted
      requires id !in placed && 1 <= length <= FOUR_GB && blocks[h].size >= BlockSize(length)
      modifies this, buckets
      ensures Valid() && SameStatus(old(devices), devices) && bsize == BlockSize(length) > 0
      ensures var b := old(blocks)[h]; placed == old(placed)[id := Place(b.dev, b.offset + b.size - bsize, length)]
    {
      hide Inv, BlockSize, Filed, Agree, SameStatus, IndexUp, IndexDown;
      BlockNotEmpty(length);
      bsize := BlockSize(length);
      if blocks[h].size > bsize {
        CutFrom(h, id, length);
      } else if blocks[h].size == bsize {
        TakeAll(h, id, length);
      } else {
        assert false;
      }
    }

    /** One round of device_get_free_block: a block of a deleted device is dropped on the way. */
    method Attempt(id: ItemId, length: nat) returns (bsize: nat, again: bool)
      requires Valid() && id !in placed && 1 <= length <= FOUR_GB
      modifies this, buckets
      ensures Valid() && SameStatus(old(devices), devices)
      ensures bsize == 0 ==> placed == old(placed)
      ensures again ==> bsize == 0 && !NoneDeleted(devices)
                        && blocks.Keys <= old(blocks).Keys && forall h :: h in blocks ==> blocks[h] == old(blocks)[h]
      ensures !again ==> (bsize == 0 <==> forall h :: h in old(blocks) ==> old(blocks)[h].size < BlockSize(length))
      ensures bsize != 0 ==> bsize == BlockSize(length) && Allocated(old(blocks), old(placed), placed, id, length)
                             && placed[id].dev in devices && !devices[placed[id].dev].deleted
      ensures bsize != 0 && (exists h :: h in old(blocks) && old(blocks)[h].size == bsize) ==>
                exists h :: h in old(blocks) && old(blocks)[h] == FBlock(placed[id].dev, placed[id].offset, bsize)
    {
      hide Inv, BlockSize, Filed, IndexDown;
      var r := buckets.Get(length);
      if r.None? {
        return 0, false;
      }
      var h := r.value;
      assert h in blocks;
      assert Detached(h);
      HasFree(View(), h);
      if devices[blocks[h].dev].deleted {
        DropBlock(h);
        return 0, true;
      }
      bsize := TakeFrom(h, id, length);
      again := false;
      if g :| g in old(blocks) && old(blocks)[g].size == bsize {
        assert old(blocks)[h].size == bsize;
      }
    }

    /** device_get_free_block. With no deleted device, failure means that no free block is large
        enough, and an exact fit is used whenever there is one. */
    method GetFreeBlock(id: ItemId, length: nat) returns (bsize: nat)
      requires Valid() && id !in placed && 1 <= length <= FOUR_GB
      modifies this, buckets
      ensures Valid() && SameStatus(old(devices), devices)
      ensures bsize == 0 ==> placed == old(placed)
      ensures bsize != 0 ==> bsize == BlockSize(length) && Allocated(old(blocks), old(placed), placed, id, length)
                             && placed[id].dev in devices && !devices[placed[id].dev].deleted
      ensures NoneDeleted(devices) ==>
                (bsize == 0 <==> forall h :: h in old(blocks) ==> old(blocks)[h].size < BlockSize(length))
      ensures NoneDeleted(devices) && bsize != 0 && (exists h :: h in old(blocks) && old(blocks)[h].size == bsize) ==>
                exists h :: h in old(blocks) && old(blocks)[h] == FBlock(placed[id].dev, placed[id].offset, bsize)
    {
      hide Inv, BlockSize, Filed, Agree;
      bsize := 0;
      var try := 0;
      while true
        invariant bsize == 0 && try <= LOOP_LIMIT && Valid() && placed == old(placed)
                  && SameStatus(old(devices), devices)
        invariant blocks.Keys <= old(blocks).Keys && forall h :: h in blocks ==> blocks[h] == old(blocks)[h]
        invariant NoneDeleted(devices) ==> blocks == old(blocks)
        decreases LOOP_LIMIT - try
      {
        var again;
        bsize, again := Attempt(id, length);
        if !again || try >= LOOP_LIMIT {
          return;
        }
        try := try + 1;
      }
    }

    /** An item leaves the order list without its block being recycled; see RetireItem. */
    method Retire(id: ItemId, badblock: nat, deleted: bool)
      requires Valid() && id in placed && placed[id].dev in devices
      requires devices[placed[id].dev].deleted ==> deleted
      requires !deleted ==> badblock == devices[placed[id].dev].badblock + BlockSize(placed[id].length)
      modifies this
      ensures Valid() && placed == old(placed) - {id}
      ensures var d := old(placed)[id].dev;
              d in devices && devices == old(devices)[d := devices[d]]
              && devices[d] == old(devices)[d].(order := devices[d].order, badblock := badblock, deleted := deleted)
      ensures Unqueued(old(devices), devices, old(placed)[id].dev, ItemNode(id))
    {
      hide Inv, BlockSize, Filed, Relink;
      InOrder(View(), id);
      var d := placed[id].dev;
      var device := devices[d];
      var device' := device.(order := Relink(device.order, ItemNode(id), []), badblock := badblock, deleted := deleted);
      ghost var L := RetireItem(View(), id, device');
      placed, devices, layout := placed - {id}, devices[d := device'], layout[d := L];
    }

    /** Common end of the merging branches of device_return_free_block: block `h` now spans the
        returned bytes, and `gone`, if any, was absorbed into it. */
    method Absorb(id: ItemId, h: Handle, block: FBlock, gone: Option<Handle>, order: seq<Node>,
                  ghost A: seq<Seg>, ghost s: Seg, ghost B: seq<Seg>)
      requires Valid() && id in placed && placed[id].dev in devices && !devices[placed[id].dev].deleted
      requires s == Item(id, placed[id].offset, BlockSize(placed[id].length)) && layout[placed[id].dev] == A + [s] + B
      requires Tiles(A, 0, s.offset) && Tiles([s], s.offset, s.End())
               && Tiles(B, s.End(), devices[placed[id].dev].capacity)
      requires Bytes(FreeTail(A)) <= s.offset
      requires if EndsFree(A) then h == A[|A| - 1].h else if StartsFree(B) then h == B[0].h else h !in blocks
      requires gone == if EndsFree(A) && StartsFree(B) then Some(B[0].h) else None
      requires EndsFree(A) && StartsFree(B) ==> h != B[0].h
      requires block == FBlock(placed[id].dev, Merged(A, s, B, h).offset, Merged(A, s, B, h).size)
      requires order == Nodes(A[..|A| - |FreeTail(A)|]) + [FreeNode(h)] + Nodes(B[|FreeHead(B)|..])
      modifies this, buckets
      ensures Valid() && placed == old(placed) - {id} && SameStatus(old(devices), devices)
      ensures h in blocks && blocks[h] == block
    {
      hide Inv, BlockSize, Filed, Nodes, Tiles, TallyOf, Agree, SameStatus;
      var d, bsize := placed[id].dev, BlockSize(placed[id].length);
      var device := devices[d];
      NeighbourFacts(View(), d, A, s, B);
      var fblockNr := device.fblockNr + (if h in blocks then 0 else 1) - (if gone.Some? then 1 else 0);
      var device' := device.(order := order, fblockNr := fblockNr,
                             itemNr := device.itemNr - 1, consumed := device.consumed - bsize);
      ghost var c := View();
      StatusKept(devices, d, device');
      blocks := (if gone.Some? then blocks - {gone.value} else blocks)[h := block];
      placed, devices := placed - {id}, devices[d := device'];
      ghost var L := Recycle(c, View(), d, A, s, B, h);
      layout := layout[d := L];
      BlockSectors(View(), h);
      AgreeMerged(buckets.sizes, c.blocks, h, block, gone);
      if gone.Some? {
        buckets.Del(gone.value);
      }
      buckets.Update(h, block.size);
    }

    /** device_return_free_block on a device in service: merge with the neighbours. */
    method Coalesce(id: ItemId)
      requires Valid() && id in placed && placed[id].dev in devices && !devices[placed[id].dev].deleted
      modifies this, buckets
      ensures Valid() && placed == old(placed) - {id} && SameStatus(old(devices), devices)
      ensures Covered(blocks, old(placed)[id])
    {
      hide Inv, BlockSize, Filed, Nodes, Tiles, TallyOf, Pos, Agree, SameStatus, Moves, FreeTail, FreeHead;
      InOrder(View(), id);
      var p := placed[id];
      var order := devices[p.dev].order;
      var bsize := BlockSize(p.length);
      ghost var s := Item(id, p.offset, bsize);
      ghost var A, B := Locate(View(), p.dev, s);
      NeighbourFacts(View(), p.dev, A, s, B);
      Around(View(), p.dev, A, s, B);
      var k := Pos(order, ItemNode(id));
      var forward := k > 0 && order[k - 1].FreeNode? && order[k - 1].h in blocks
                     && blocks[order[k - 1].h].offset + blocks[order[k - 1].h].size == p.offset;
      var backward := k + 1 < |order| && order[k + 1].FreeNode? && order[k + 1].h in blocks
                      && blocks[order[k + 1].h].offset == p.offset + bsize;
      if forward && backward {
        var prev, next := order[k - 1].h, order[k + 1].h;
        var block := blocks[prev].(size := blocks[prev].size + bsize + blocks[next].size);
        Absorb(id, prev, block, Some(next), order[..k] + order[k + 2..], A, s, B);
      } else if forward {
        var prev := order[k - 1].h;
        var block := blocks[prev].(size := blocks[prev].size + bsize);
        Absorb(id, prev, block, None, order[..k] + order[k + 1..], A, s, B);
      } else if backward {
        var next := order[k + 1].h;
        var block := FBlock(p.dev, blocks[next].offset - bsize, blocks[next].size + bsize);
        assert order[..k] + order[k + 1..] == Nodes(A[..|A| - |FreeTail(A)|]) + [FreeNode(next)]
               + Nodes(B[|FreeHead(B)|..]) by {
          SeqAssoc(order[..k], [FreeNode(next)], Nodes(B[|FreeHead(B)|..]));
        }
        Absorb(id, next, block, None, order[..k] + order[k + 1..], A, s, B);
      } else {
        ghost var g := Unused(blocks.Keys);
        assert g !in blocks;
        var h :| h !in blocks;
        Absorb(id, h, FBlock(p.dev, p.offset, bsize), None, order[..k] + [FreeNode(h)] + order[k + 1..], A, s, B);
      }
    }

    /** device_return_free_block. `percent` is the configured device_badblock_percent. */
    method ReturnFreeBlock(id: ItemId, badblock: bool, percent: nat) returns (bsize: nat)
      requires Valid() && id in placed
      modifies this, buckets
      ensures Valid() && placed == old(placed) - {id} && bsize == BlockSize(old(placed)[id].length)
      ensures var d := old(placed)[id].dev;
              && d in old(devices)
              && (!badblock || old(devices)[d].deleted ==> SameStatus(old(devices), devices))
              && (badblock && !old(devices)[d].deleted ==>
                    var bad := old(devices)[d].badblock + bsize;
                    && d in devices && devices == old(devices)[d := devices[d]]
                    && devices[d] == old(devices)[d].(order := devices[d].order, badblock := bad,
                         deleted := devices[d].deleted)
                    && (old(devices)[d].capacity > 0 ==> (devices[d].deleted
                         <==> bad * 100 / old(devices)[d].capacity > percent)))
              && (!badblock && !old(devices)[d].deleted ==> Covered(blocks, old(placed)[id]))
              && (old(devices)[d].deleted ==> Unqueued(old(devices), devices, d, ItemNode(id)))
    {
      hide Inv, BlockSize, Filed, Nodes, Tiles, TallyOf, Pos, Agree, Unqueued;
      InOrder(View(), id);
      var p := placed[id];
      var device := devices[p.dev];
      bsize := BlockSize(p.length);
      if device.deleted {
        Retire(id, device.badblock, true);
        return;
      }
      if badblock {
        var bad := device.badblock + bsize;
        Retire(id, bad, bad * 100 / device.capacity > percent);
        return;
      }

      Coalesce(id);
    }

    /** device_delete: the device is only drained from now on. */
    method MarkDeleted(d: nat)
      requires Valid() && d in devices
      modifies this`devices
      ensures Valid() && devices == old(devices)[d := old(devices)[d].(deleted := true)]
    {
      hide Inv, BlockSize, Filed;
      StatusOnly(View(), d, devices[d].(deleted := true));
      devices := devices[d := devices[d].(deleted := true)];
    }

    /** An in-flight request takes hold of a device (`used++`), or lets go of it (`used--`). */
    method Hold(d: nat)
      requires Valid() && d in devices
      modifies this`devices
      ensures Valid() && devices == old(devices)[d := old(devices)[d].(used := old(devices)[d].used + 1)]
    {
      hide Inv, BlockSize, Filed;
      StatusOnly(View(), d, devices[d].(used := devices[d].used + 1));
      devices := devices[d := devices[d].(used := devices[d].used + 1)];
    }

    method Release(d: nat)
      requires Valid() && d in devices && devices[d].used > 0
      modifies this`devices
      ensures Valid() && devices == old(devices)[d := old(devices)[d].(used := old(devices)[d].used - 1)]
    {
      hide Inv, BlockSize, Filed;
      StatusOnly(View(), d, devices[d].(used := devices[d].used - 1));
      devices := devices[d := devices[d].(used := devices[d].used - 1)];
    }

    method CloseFd(d: nat)
      requires Valid() && d in devices
      modifies this`devices
      ensures Valid() && devices == old(devices)[d := old(devices)[d].(fdOpen := false)]
    {
      hide Inv, BlockSize, Filed;
      StatusOnly(View(), d, devices[d].(fdOpen := false));
      devices := devices[d := devices[d].(fdOpen := false)];
    }

    /** End of device_destroy: with an empty order list nothing refers to the device any more. */
    method Forget(d: nat)
      requires Valid() && d in devices && devices[d].order == []
      modifies this`devices, this`layout
      ensures Valid() && devices == old(devices) - {d}
      ensures (forall i :: i in placed ==> placed[i].dev != d) && (forall h :: h in blocks ==> blocks[h].dev != d)
    {
      hide Inv, BlockSize, Filed;
      Forgotten(View(), d);
      devices, layout := devices - {d}, layout - {d};
    }

    /** The bucket index and the state of a device that is being loaded. */
    ghost predicate LoadValid(d: nat, cur: Handle)
      reads this, buckets
    {
      buckets.Valid() && Loading(View(), d, cur) && AgreeBut(buckets.sizes, blocks, cur)
    }

    /** device_cut_free_block past its check: a gap becomes a free block, the item follows. */
    method CutAt(d: nat, id: ItemId, offset: nat, length: nat, ghost cur: Handle)
      requires LoadValid(d, cur) && id !in placed && 1 <= length <= FOUR_GB && offset % SECTOR == 0
      requires blocks[cur].offset <= offset && offset + BlockSize(length) <= blocks[cur].offset + blocks[cur].size
      requires BlockSize(length) > 0
      modifies this, buckets
      ensures LoadValid(d, cur) && SameStatus(old(devices), devices)
              && placed == old(placed)[id := Place(d, offset, length)]
      ensures var b, bsize := old(blocks)[cur], BlockSize(length);
              blocks[cur] == FBlock(d, offset + bsize, b.offset + b.size - (offset + bsize))
    {
      hide Inv, BlockSize, Filed, AgreeBut, SameStatus, Settle;
      var device, bsize := devices[d], BlockSize(length);
      var last := |device.order| - 1;
      var current := device.order[last].h;
      var b := blocks[current];
      var gap := offset - b.offset;
      ghost var c := View();
      ghost var u := Unused(blocks.Keys);
      assert u !in blocks;
      var g :| g !in blocks;
      ghost var L := CutFront(c, d, cur, g, id, offset, length);
      ghost var c' := AfterCut(c, d, cur, g, id, offset, length);
      GapSectors(c, d, cur, offset);
      AgreeCut(buckets.sizes, blocks, cur, g, gap, FBlock(d, b.offset, gap),
          FBlock(d, offset + bsize, b.size - gap - bsize));
      var front := device.order[..last] + (if gap > 0 then [FreeNode(g)] else []);
      var device' := device.(order := front + [ItemNode(id), FreeNode(current)],
                             fblockNr := device.fblockNr + (if gap > 0 then 1 else 0),
                             itemNr := device.itemNr + 1, consumed := device.consumed + bsize);
      assert c'.devs == devices[d := device'];
      StatusKept(devices, d, device');
      if gap > 0 {
        blocks := blocks[g := FBlock(d, b.offset, gap)];
        buckets.Add(g, gap);
      }
      blocks := blocks[current := FBlock(d, offset + bsize, b.size - gap - bsize)];
      assert c'.blocks == blocks;
      placed, devices, layout := placed[id := Place(d, offset, length)], devices[d := device'], layout[d := L];
    }

    /** device_cut_free_block: refused exactly when the item does not fit behind the loaded ones. */
    method CutFreeBlock(d: nat, id: ItemId, offset: nat, length: nat, ghost cur: Handle) returns (bsize: nat)
      requires LoadValid(d, cur) && id !in placed && 1 <= length <= FOUR_GB && offset % SECTOR == 0
      modifies this, buckets
      ensures LoadValid(d, cur) && SameStatus(old(devices), devices)
      ensures var b := old(blocks)[cur];
              bsize == 0 <==> offset < b.offset || b.size < (offset - b.offset) + BlockSize(length)
      ensures bsize == 0 ==> placed == old(placed) && blocks == old(blocks)
      ensures bsize != 0 ==> bsize == BlockSize(length) && placed == old(placed)[id := Place(d, offset, length)]
                             && blocks[cur] == FBlock(d, offset + bsize,
                                  old(blocks)[cur].offset + old(blocks)[cur].size - (offset + bsize))
    {
      hide Inv, BlockSize, Filed, AgreeBut, SameStatus, Settle;
      BlockNotEmpty(length);
      var order := devices[d].order;
      var b := blocks[order[|order| - 1].h];
      bsize := BlockSize(length);
      if offset < b.offset || b.size < bsize + (offset - b.offset) {
        SameStatusSelf(devices);
        bsize := 0;
      } else {
        CutAt(d, id, offset, length, cur);
      }
    }

    /** device_load_post: file the remaining space, or drop the block when nothing remains. */
    method LoadPost(d: nat, ghost cur: Handle)
      requires LoadValid(d, cur)
      modifies this, buckets
      ensures Valid() && placed == old(placed) && SameStatus(old(devices), devices)
    {
      hide Inv, BlockSize, Filed, Settle;
      Loaded(View(), d, cur);
      var device := devices[d];
      var last := |device.order| - 1;
      var current := device.order[last].h;
      if blocks[current].size == 0 {
        blocks := blocks - {current};
        devices := devices[d := device.(order := device.order[..last], fblockNr := device.fblockNr - 1)];
        buckets.Del(current);
      } else {
        buckets.Update(current, blocks[current].size);
      }
    }
  }

  lemma SameStatusSelf(devs: map<nat, Device>)
    ensures SameStatus(devs, devs)
  {
  }

  lemma GapSectors(c: Core, d: nat, cur: Handle, offset: nat)
    requires Loading(c, d, cur) && c.blocks[cur].size > 0 && offset % SECTOR == 0 && c.blocks[cur].offset <= offset
    ensures offset > c.blocks[cur].offset ==> offset - c.blocks[cur].offset >= SECTOR
  {
    hide Inv, Settle;
    CurrentLast(c, d, cur);
    SectorSums(offset, c.blocks[cur].offset);
  }

  lemma AgreeCut(sizes: map<Handle, nat>, blocks: map<Handle, FBlock>, cur: Handle, g: Handle, gap: nat, bg: FBlock,
      bc: FBlock)
    requires AgreeBut(sizes, blocks, cur) && cur in blocks && g !in blocks && bg.size == gap
    ensures g !in sizes
    ensures AgreeBut(sizes, blocks[cur := bc], cur)
    ensures AgreeBut(sizes[g := gap], blocks[g := bg][cur := bc], cur)
  {
  }

  /** Flags and the use count of a device are not part of its layout. */
  lemma StatusOnly(c: Core, d: nat, dev': Device)
    requires Inv(c) && d in c.devs
    requires dev' == c.devs[d].(deleted := dev'.deleted, used := dev'.used, fdOpen := dev'.fdOpen)
             && (c.devs[d].deleted ==> dev'.deleted)
    ensures Inv(c.(devs := c.devs[d := dev']))
  {
    hide BlockSize, Tiles, Nodes, TallyOf, Coalesced, Linked;
    var c' := c.(devs := c.devs[d := dev']);
    assert DevOk(c.devs[d], c.layout[d]);
    forall h | h in c'.blocks ensures BlockThere(c', h) { assert BlockThere(c, h); }
    forall i | i in c'.placed ensures ItemThere(c', i) { assert ItemThere(c, i); }
  }

  lemma Forgotten(c: Core, d: nat)
    requires Inv(c) && d in c.devs && c.devs[d].order == []
    ensures Inv(c.(devs := c.devs - {d}, layout := c.layout - {d}))
    ensures (forall i :: i in c.placed ==> c.placed[i].dev != d) && (forall h :: h in c.blocks ==> c.blocks[h].dev != d)
  {
    hide BlockSize, Tiles, Nodes, TallyOf, Coalesced, Linked, DevOk;
    var c' := c.(devs := c.devs - {d}, layout := c.layout - {d});
    forall h | h in c'.blocks ensures BlockThere(c', h) && c.blocks[h].dev != d {
      BlockSectors(c, h);
      assert BlockThere(c, h);
    }
    forall i | i in c'.placed ensures ItemThere(c', i) && c.placed[i].dev != d {
      InOrder(c, i);
      assert ItemThere(c, i);
    }
  }

  lemma StatusKept(devs: map<nat, Device>, d: nat, dev': Device)
    requires d in devs && dev'.capacity == devs[d].capacity && dev'.deleted == devs[d].deleted
    requires dev'.used == devs[d].used && dev'.fdOpen == devs[d].fdOpen
    ensures SameStatus(devs, devs[d := dev'])
  {
  }

  lemma AgreeMerged(sizes: map<Handle, nat>, blocks: map<Handle, FBlock>, h: Handle, block: FBlock,
      gone: Option<Handle>)
    requires Agree(sizes, blocks)
    ensures gone.None? ==> Agree(sizes[h := block.size], blocks[h := block])
    ensures gone.Some? ==> Agree((sizes - {gone.value})[h := block.size], (blocks - {gone.value})[h := block])
  {
  }

  /** The bytes of an item belong to a free block. */
  ghost predicate Covered(blocks: map<Handle, FBlock>, p: Place) {
    exists h :: h in blocks && blocks[h].dev == p.dev && blocks[h].offset <= p.offset
                && p.offset + BlockSize(p.length) <= blocks[h].offset + blocks[h].size
  }

  /** The order list names live items and recorded free blocks only, each once. */
  lemma OrderEntries(c: Core, d: nat, k: nat)
    requires Inv(c) && d in c.devs && k < |c.devs[d].order|
    ensures match c.devs[d].order[k]
            case ItemNode(i) => i in c.placed && c.placed[i].dev == d
            case FreeNode(h) => h in c.blocks && c.blocks[h].dev == d
  {
    hide BlockSize, Nodes, Tiles, TallyOf, Coalesced;
    assert DevOk(c.devs[d], c.layout[d]);
    var s := NodesFind(c.layout[d], c.devs[d].order[k]);
    assert Linked(s, d, c.blocks, c.placed);
  }

  lemma OrderDistinct(c: Core, d: nat, j: nat, k: nat)
    requires Inv(c) && d in c.devs && j < k < |c.devs[d].order|
    ensures c.devs[d].order[j] != c.devs[d].order[k]
  {
    hide Inv, BlockSize;
    var o1, n1, o2, n2 := OrderSorted(c, d, j, k);
  }

  /** A live item stands in the order list of its device. */
  lemma InOrder(c: Core, id: ItemId)
    requires Inv(c) && id in c.placed
    ensures c.placed[id].dev in c.devs && ItemNode(id) in c.devs[c.placed[id].dev].order
    ensures Item(id, c.placed[id].offset, BlockSize(c.placed[id].length)) in c.layout[c.placed[id].dev]
    ensures c.devs[c.placed[id].dev].capacity > 0
  {
    hide BlockSize, Nodes, Tiles, TallyOf;
    assert ItemThere(c, id);
    var p := c.placed[id];
    var s := Item(id, p.offset, BlockSize(p.length));
    var A, B := Locate(c, p.dev, s);
    TilesSpan(B, s.End(), c.devs[p.dev].capacity);
  }

  /** The counters cover an item and its free neighbours, and the neighbours are recorded. */
  lemma NeighbourFacts(c: Core, d: nat, A: seq<Seg>, s: Seg, B: seq<Seg>)
    requires Inv(c) && d in c.devs && !c.devs[d].deleted && c.layout[d] == A + [s] + B && s.Item?
    requires Tiles(A, 0, s.offset) && Tiles([s], s.offset, s.End()) && Tiles(B, s.End(), c.devs[d].capacity)
    ensures c.devs[d].fblockNr >= |FreeTail(A)| + |FreeHead(B)| && c.devs[d].itemNr >= 1 && c.devs[d].consumed >= s.size
    ensures Bytes(FreeTail(A)) <= s.offset
    ensures EndsFree(A) ==>
            && Linked(A[|A| - 1], d, c.blocks, c.placed) && Bytes(FreeTail(A)) == A[|A| - 1].size
            && A[|A| - 1].End() == s.offset
    ensures StartsFree(B) ==>
            Linked(B[0], d, c.blocks, c.placed) && Bytes(FreeHead(B)) == B[0].size && B[0].offset == s.End()
    ensures EndsFree(A) && StartsFree(B) ==> A[|A| - 1].h != B[0].h
    ensures !EndsFree(A) ==> Bytes(FreeTail(A)) == 0
    ensures !StartsFree(B) ==> Bytes(FreeHead(B)) == 0
  {
    hide BlockSize, Nodes, Tiles, TallyOf, Coalesced;
    assert DevOk(c.devs[d], A + [s] + B);
    if EndsFree(A) { assert A[|A| - 1] in c.layout[d] && Linked(A[|A| - 1], d, c.blocks, c.placed); }
    if StartsFree(B) { assert B[0] in c.layout[d] && Linked(B[0], d, c.blocks, c.placed); }
    hide Inv;
    PrevBytes(A, s.offset);
    NextBytes(B, s.End(), c.devs[d].capacity);
    Trim(A, s, B, c.devs[d].capacity);
    var x, y := FreeTail(A), FreeHead(B);
    TallyConcat(A[..|A| - |x|], x + [s] + y);
    TallyConcat(A[..|A| - |x|] + (x + [s] + y), B[|y|..]);
    OneSector(s);
  }

  lemma PrevBytes(A: seq<Seg>, m: nat)
    requires Tiles(A, 0, m)
    ensures EndsFree(A) ==> Bytes(FreeTail(A)) == A[|A| - 1].size && A[|A| - 1].End() == m
    ensures !EndsFree(A) ==> Bytes(FreeTail(A)) == 0
  {
    if EndsFree(A) {
      assert FreeTail(A) == [A[|A| - 1]];
      TallyOfOne(A[|A| - 1]);
      LastEnds(A, m);
    }
  }

  lemma NextBytes(B: seq<Seg>, m: nat, cap: nat)
    requires Tiles(B, m, cap)
    ensures StartsFree(B) ==> Bytes(FreeHead(B)) == B[0].size && B[0].offset == m
    ensures !StartsFree(B) ==> Bytes(FreeHead(B)) == 0
  {
    if StartsFree(B) {
      assert FreeHead(B) == [B[0]];
      TallyOfOne(B[0]);
    }
  }

  /** The item's neighbours in the order list decide the merge exactly as the segments do. */
  lemma Around(c: Core, d: nat, A: seq<Seg>, s: Seg, B: seq<Seg>)
    requires Inv(c) && d in c.devs && c.layout[d] == A + [s] + B && s.Item?
    requires Tiles(A, 0, s.offset) && Tiles([s], s.offset, s.End()) && Tiles(B, s.End(), c.devs[d].capacity)
    requires c.devs[d].order == Nodes(A) + [ItemNode(s.id)] + Nodes(B) && ItemNode(s.id) !in Nodes(A)
    ensures var o, k := c.devs[d].order, Pos(c.devs[d].order, ItemNode(s.id));
            var x, y := FreeTail(A), FreeHead(B);
            && k < |o| && k == |Nodes(A)| && |o| == |Nodes(A)| + 1 + |Nodes(B)|
            && (EndsFree(A) <==> k > 0 && o[k - 1].FreeNode? && o[k - 1].h in c.blocks
                                 && c.blocks[o[k - 1].h].offset + c.blocks[o[k - 1].h].size == s.offset)
            && (EndsFree(A) ==>
                 o[k - 1] == FreeNode(A[|A| - 1].h) && o[..k] == Nodes(A[..|A| - |x|]) + [FreeNode(A[|A| - 1].h)])
            && (!EndsFree(A) ==> o[..k] == Nodes(A[..|A| - |x|]))
            && (StartsFree(B) <==> k + 1 < |o| && o[k + 1].FreeNode? && o[k + 1].h in c.blocks
                                   && c.blocks[o[k + 1].h].offset == s.End())
            && (StartsFree(B) ==> o[k + 1] == FreeNode(B[0].h) && o[k + 2..] == Nodes(B[|y|..])
                                  && o[k + 1..] == [FreeNode(B[0].h)] + Nodes(B[|y|..]))
            && (!StartsFree(B) ==> o[k + 1..] == Nodes(B[|y|..]))
  {
    hide BlockSize, Nodes, Tiles, TallyOf, Coalesced, DevOk, Linked, Pos, FreeHead, FreeTail, EndsFree, StartsFree;
    PrevNeighbour(c, d, A, s, B);
    NextNeighbour(c, d, A, s, B);
    hide Inv;
    PosAt(Nodes(A), ItemNode(s.id), Nodes(B));
    SeqAround(Nodes(A), ItemNode(s.id), Nodes(B), c.devs[d].order);
    EdgeNodes(A, B);
  }

  lemma SeqAround(P: seq<Node>, n: Node, Q: seq<Node>, o: seq<Node>)
    requires o == P + [n] + Q
    ensures |o| == |P| + 1 + |Q| && o[..|P|] == P && o[|P| + 1..] == Q
    ensures P != [] ==> o[|P| - 1] == P[|P| - 1] && o[..|P|] == P[..|P| - 1] + [P[|P| - 1]]
    ensures Q != [] ==> o[|P| + 1] == Q[0] && o[|P| + 2..] == Q[1..] && o[|P| + 1..] == [Q[0]] + Q[1..]
  {
  }

  lemma EdgeNodes(A: seq<Seg>, B: seq<Seg>)
    ensures EndsFree(A) ==> Nodes(A) != [] && Nodes(A)[..|Nodes(A)| - 1] == Nodes(A[..|A| - |FreeTail(A)|])
    ensures !EndsFree(A) ==> A[..|A| - |FreeTail(A)|] == A
    ensures StartsFree(B) ==> Nodes(B) != [] && Nodes(B)[1..] == Nodes(B[|FreeHead(B)|..])
    ensures !StartsFree(B) ==> B[|FreeHead(B)|..] == B
  {
    hide Nodes;
    if EndsFree(A) {
      var z := A[|A| - 1];
      assert FreeTail(A) == [z] && A == A[..|A| - 1] + [z];
      NodesConcat(A[..|A| - 1], [z]);
      ListTwo(z, z);
    }
    if StartsFree(B) {
      assert FreeHead(B) == [B[0]] && B == [B[0]] + B[1..];
      NodesConcat([B[0]], B[1..]);
      ListTwo(B[0], B[0]);
    }
  }

  /** The new item was cut from the rear of a block that was free; no other placement changed. */
  ghost predicate Allocated(blocks: map<Handle, FBlock>, placed: map<ItemId, Place>, placed': map<ItemId, Place>,
                            id: ItemId, length: nat)
  {
    && id in placed' && placed' == placed[id := placed'[id]] && placed'[id].length == length
    && exists h :: h in blocks && blocks[h].dev == placed'[id].dev && blocks[h].offset <= placed'[id].offset
                   && placed'[id].offset + BlockSize(length) == blocks[h].offset + blocks[h].size
  }

  ghost predicate NoneDeleted(devs: map<nat, Device>) {
    forall d :: d in devs ==> !devs[d].deleted
  }

  lemma HasFree(c: Core, h: Handle)
    requires Inv(c) && h in c.blocks
    ensures c.blocks[h].dev in c.devs && c.devs[c.blocks[h].dev].fblockNr > 0
  {
    hide BlockSize, Nodes, Tiles, TallyOf;
    assert BlockThere(c, h);
    var b := c.blocks[h];
    var s := Free(h, b.offset, b.size);
    var A, B := Locate(c, b.dev, s);
    hide Inv;
    TallyConcat(A + [s], B);
    TallyConcat(A, [s]);
    TallyOfOne(s);
  }

  lemma AddedEmpty(c: Core, d: nat)
    requires Inv(c) && d !in c.devs
    ensures Inv(c.(devs := c.devs[d := Device(0, [], 0, 0, 0, 0, false, 0, true)], layout := c.layout[d := []]))
  {
    hide BlockSize;
    TilesNone();
    hide Tiles, Nodes, TallyOf, Linked;
    var c' := c.(devs := c.devs[d := Device(0, [], 0, 0, 0, 0, false, 0, true)], layout := c.layout[d := []]);
    forall g | g in c'.blocks ensures BlockThere(c', g) { assert BlockThere(c, g); }
    forall i | i in c'.placed ensures ItemThere(c', i) { assert ItemThere(c, i); }
  }

  lemma AddedDevice(c: Core, d: nat, capacity: nat, h: Handle)
    requires Inv(c) && d !in c.devs && h !in c.blocks && capacity % SECTOR == 0 && capacity > 0
    ensures Inv(c.(devs := c.devs[d := Device(capacity, [FreeNode(h)], 0, 0, 0, 1, false, 0, true)],
                   layout := c.layout[d := [Free(h, 0, capacity)]],
                   blocks := c.blocks[h := FBlock(d, 0, capacity)]))
  {
    hide BlockSize, Tiles, Nodes, TallyOf, DevOk;
    var s, dev := Free(h, 0, capacity), Device(capacity, [FreeNode(h)], 0, 0, 0, 1, false, 0, true);
    NewDevOk(dev, s);
    var c' := c.(devs := c.devs[d := dev], layout := c.layout[d := [s]],
        blocks := c.blocks[h := FBlock(d, 0, capacity)]);
    forall e, t | e in c'.layout && t in c'.layout[e] ensures Linked(t, e, c'.blocks, c'.placed) {
      if e != d {
        assert Linked(t, e, c.blocks, c.placed);
      }
    }
    forall g | g in c'.blocks ensures BlockThere(c', g) {
      if g != h { assert BlockThere(c, g); }
    }
    forall i | i in c'.placed ensures ItemThere(c', i) { assert ItemThere(c, i); }
  }

  lemma NewDevOk(dev: Device, s: Seg)
    requires s.Free? && s.offset == 0 && s.size == dev.capacity && dev.capacity > 0 && dev.capacity % SECTOR == 0
    requires dev == Device(dev.capacity, [FreeNode(s.h)], 0, 0, 0, 1, false, 0, true)
    ensures DevOk(dev, [s])
  {
    TilesOne(s);
    TallyOfOne(s);
    ListTwo(s, s);
  }

  lemma TilesNone()
    ensures Tiles([], 0, 0) && Nodes([]) == [] && TallyOf([]) == Tally(0, 0, 0, 0, 0, 0) && Coalesced([])
  {
  }
}
