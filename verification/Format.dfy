/** Dumping the items of a device and loading them again: format.c with server_load_fm_item. The
    file is the header, one record per item, and the bodies, which stay where they are. */
module Formats {
  import opened Lists
  import opened SizeClass
  import opened Life
  import opened LifeInv
  import opened LifeRuns
  import opened CacheModel
  import opened Responses
  import opened Caches
  import opened Checksums
  import SpaceLoad
  import opened Destroys
  import Buckets
  import Layout
  import SpaceModel
  import Devices

  const INFO_SIZE := 32 + 2 * SERVERS_LIMIT
  const RECORD_SIZE := 40

  /** ohc_format_item_t */
  datatype Record = Record(id: nat, offset: nat, length: nat, expire: int, headersLen: nat, server: nat)

  datatype File = File(super: Superblock, ports: seq<bv16>, records: seq<Record>)

  function RecordOf(it: Item): Record {
    Record(it.key.id, it.place.offset, it.place.length, it.expire, it.headersLen, it.key.server)
  }

  /** Where the bodies that survive a dump begin: format_store_device writes the metadata over the
      front of the device. */
  function Override(n: nat): nat {
    INFO_SIZE + RECORD_SIZE * n
  }

  // ---------- what a dump looks like ----------

  ghost predicate RecordOk(r: Record, capacity: nat) {
    1 <= r.length <= FOUR_GB && r.offset % SECTOR == 0 && r.offset + BlockSize(r.length) <= capacity
        && Shaped(r.length, r.headersLen)
  }

  /** The records of a device: in address order, without overlap, inside the device. */
  ghost predicate Loadable(records: seq<Record>, capacity: nat) {
    && (forall k :: 0 <= k < |records| ==> RecordOk(records[k], capacity))
    && (forall j, k :: 0 <= j < k < |records| ==> records[j].offset + BlockSize(records[j].length) <= records[k].offset)
  }

  /** The item is on device d, valid, and its server dumps. */
  ghost predicate Dumped(c: Cache, d: nat, dumps: set<nat>, i: ItemId)
    reads c, c.space
  {
    i in c.items && c.items[i].place.dev == d && c.ItemServable(i) && c.items[i].key.server in dumps
  }

  /** `ids` are the dumped items among the first n entries of the order list, in that order. */
  ghost predicate Collected(c: Cache, d: nat, dumps: set<nat>, n: nat, ids: seq<ItemId>, records: seq<Record>,
      at: seq<nat>)
    reads c, c.space
  {
    && d in c.space.devices && n <= |c.space.devices[d].order|
    && |ids| == |records| == |at|
    && (forall k :: 0 <= k < |ids| ==> Dumped(c, d, dumps, ids[k]) && records[k] == RecordOf(c.items[ids[k]]))
    && (forall k :: 0 <= k < |ids| ==> at[k] < n && c.space.devices[d].order[at[k]] == Layout.ItemNode(ids[k]))
    && (forall j, k :: 0 <= j < k < |ids| ==> at[j] < at[k])
    && (forall m, i :: 0 <= m < n && c.space.devices[d].order[m] == Layout.ItemNode(i) && Dumped(c, d, dumps, i)
         ==> i in ids)
  }

  lemma CollectedNone(c: Cache, d: nat, dumps: set<nat>)
    requires d in c.space.devices
    ensures Collected(c, d, dumps, 0, [], [], [])
  {
  }

  /** One entry of the order list: dumped or skipped. */
  lemma CollectedNext(c: Cache, d: nat, dumps: set<nat>, n: nat, ids: seq<ItemId>, records: seq<Record>, at: seq<nat>)
    requires Collected(c, d, dumps, n, ids, records, at) && n < |c.space.devices[d].order|
    ensures var e := c.space.devices[d].order[n];
            if e.ItemNode? && Dumped(c, d, dumps, e.id)
            then Collected(c, d, dumps, n + 1, ids + [e.id], records + [RecordOf(c.items[e.id])], at + [n])
            else Collected(c, d, dumps, n + 1, ids, records, at)
  {
    hide Dumped, RecordOf;
  }

  lemma ItemSectors(core: SpaceModel.Core, i: ItemId)
    requires SpaceModel.Inv(core) && i in core.placed
    ensures var p := core.placed[i];
            && 1 <= p.length <= FOUR_GB && p.dev in core.devs && p.offset % SECTOR == 0
            && p.offset + BlockSize(p.length) <= core.devs[p.dev].capacity
  {
    hide BlockSize, Layout.Tiles, Layout.Nodes, Layout.TallyOf;
    assert SpaceModel.ItemThere(core, i);
    var p := core.placed[i];
    assert SpaceModel.DevOk(core.devs[p.dev], core.layout[p.dev]);
    Layout.TilesSpan(core.layout[p.dev], 0, core.devs[p.dev].capacity);
    Layout.TilesAligned(core.layout[p.dev], 0, core.devs[p.dev].capacity);
  }

  /** A dump of a valid cache can be loaded again. */
  lemma CollectedLoadable(c: Cache, d: nat, dumps: set<nat>, n: nat, ids: seq<ItemId>, records: seq<Record>,
      at: seq<nat>)
    requires c.Valid() && Collected(c, d, dumps, n, ids, records, at)
    ensures Loadable(records, c.space.devices[d].capacity)
    ensures NoDup(ids)
  {
    hide InvBut, LruOk, Shaped, DevView, CountView, SpaceModel.Inv, BlockSize, Cache.ItemServable;
    SpaceInv(c.space);
    hide Devices.Space.Valid;
    var core := c.space.View();
    forall k | 0 <= k < |records| ensures RecordOk(records[k], c.space.devices[d].capacity) {
      assert Dumped(c, d, dumps, ids[k]);
      ItemSectors(core, ids[k]);
    }
    forall j, k | 0 <= j < k < |records|
      ensures records[j].offset + BlockSize(records[j].length) <= records[k].offset && ids[j] != ids[k]
    {
      var o1, n1, o2, n2 := SpaceModel.OrderSorted(core, d, at[j], at[k]);
    }
  }

  lemma CollectedAll(c: Cache, d: nat, dumps: set<nat>, ids: seq<ItemId>, records: seq<Record>, at: seq<nat>)
    requires c.Valid() && d in c.space.devices && Collected(c, d, dumps, |c.space.devices[d].order|, ids, records, at)
    ensures forall i :: Dumped(c, d, dumps, i) <==> i in ids
  {
    hide InvBut, LruOk, AllShaped, DevView, CountView, SpaceModel.Inv, BlockSize, Cache.ItemServable;
    SpaceInv(c.space);
    hide Devices.Space.Valid;
    forall i | Dumped(c, d, dumps, i) ensures i in ids {
      Devices.InOrder(c.space.View(), i);
      var m :| 0 <= m < |c.space.devices[d].order| && c.space.devices[d].order[m] == Layout.ItemNode(i);
    }
  }

  /** With no request in flight no two items have the same key. */
  lemma KeysDiffer(st: State, i: ItemId, j: ItemId)
    requires Inv(st) && st.reqs == map[] && i in st.items && j in st.items && i != j
    ensures st.items[i].key != st.items[j].key
  {
    hide BlockSize, Placed, Images, Sends, DevUse, Counted, Logged;
    assert Getters(st.reqs, i) == {} && Putters(st.reqs, i) == {};
    assert Getters(st.reqs, j) == {} && Putters(st.reqs, j) == {};
  }

  /** The loop of format_store_device. */
  method Collect(c: Cache, d: nat, dumps: set<nat>)
    returns (records: seq<Record>, ghost ids: seq<ItemId>, ghost at: seq<nat>)
    requires c.Valid() && d in c.space.devices
    ensures Collected(c, d, dumps, |c.space.devices[d].order|, ids, records, at)
  {
    hide Cache.Valid, Collected, RecordOf;
    records, ids, at := [], [], [];
    var order := c.space.devices[d].order;
    CollectedNone(c, d, dumps);
    for n := 0 to |order|
      invariant Collected(c, d, dumps, n, ids, records, at)
    {
      CollectedNext(c, d, dumps, n, ids, records, at);
      EntryFacts(c, d, n);
      match order[n]
      case FreeNode(_) =>
      case ItemNode(i) =>
        if c.ItemServable(i) && c.items[i].key.server in dumps {
          records, ids, at := records + [RecordOf(c.items[i])], ids + [i], at + [n];
        }
    }
  }

  /** format_store_device: a record for every valid item of a dumping server, in address order,
      under a header that will pass the test; an error when there is none. */
  method Store(c: Cache, d: nat, ports: seq<bv16>, dumps: set<nat>, pad: bv64)
    returns (file: Option<File>, ghost ids: seq<ItemId>)
    requires c.Valid() && d in c.space.devices && |ports| == SERVERS_LIMIT
    ensures NoDup(ids) && forall i :: Dumped(c, d, dumps, i) <==> i in ids
    ensures file.None? <==> ids == []
    ensures file.Some? ==>
              var f := file.value;
              && f.super.magic == MAGIC && f.super.version == VERSION && f.super.itemNr == |f.records|
                 && f.ports == ports
              && Sealed(f.super, f.ports)
              && |ids| == |f.records|
              && (forall k :: 0 <= k < |ids| ==> ids[k] in c.items && f.records[k] == RecordOf(c.items[ids[k]]))
              && Loadable(f.records, c.space.devices[d].capacity)
  {
    hide Cache.Valid, Collected, RecordOf, Sealed, Loadable, Dumped, SuperWords, PortWords, Xor, X;
    var records: seq<Record>;
    ghost var at: seq<nat>;
    records, ids, at := Collect(c, d, dumps);
    CollectedAll(c, d, dumps, ids, records, at);
    CollectedLoadable(c, d, dumps, |c.space.devices[d].order|, ids, records, at);
    CollectedRecords(c, d, dumps, |c.space.devices[d].order|, ids, records, at);
    if |records| == 0 {
      return None, ids;
    }
    var super := Superblock(MAGIC, VERSION, pad, 0, |records|);
    SealHolds(super, ports);
    var sum := Checksum(SuperWords(super));
    var portSum := Checksum(PortWords(ports));
    file := Some(File(super.(checksum := X(X(sum, portSum), FEED)), ports, records));
  }

  lemma CollectedRecords(c: Cache, d: nat, dumps: set<nat>, n: nat, ids: seq<ItemId>, records: seq<Record>,
      at: seq<nat>)
    requires Collected(c, d, dumps, n, ids, records, at)
    ensures |ids| == |records| && forall k :: 0 <= k < |ids| ==>
            ids[k] in c.items && records[k] == RecordOf(c.items[ids[k]])
  {
  }

  // ---------- loading ----------

  /** The state with item `it` entered as if it had been stored before. */
  ghost function Entered(v: State, i: ItemId, it: Item): State
    requires it.key.server in v.counts
  {
    var n := v.counts[it.key.server];
    v.(items := v.items[i := it], hash := v.hash[it.key := ItemEntry(i)],
       counts := v.counts[it.key.server :=
                            n.(consumed := n.consumed + BlockSize(it.place.length),
                                content := n.content + it.place.length, itemNr := n.itemNr + 1)],
       log := v.log + [(it.key, i)])
  }

  /** Writing what is there already changes nothing. */
  lemma SameBytes(disk: seq<Byte>, o: nat, n: nat)
    requires o + n <= |disk|
    ensures WriteAt(disk, o, Slice(disk, o, n)) == disk
  {
  }

  lemma WriteSame(v: State, r: ReqId, i: ItemId, it: Item)
    requires r !in v.reqs && it.place.dev in v.devs && it.place.dev in v.disk && it.key.server in v.counts
             && !it.putting
    requires it.place.offset + it.place.length <= |v.disk[it.place.dev]|
             && it.image == Slice(v.disk[it.place.dev], it.place.offset, it.place.length)
    ensures var v1 := StartPut(v, r, i, it.(putting := true, image := []));
            CanWrite(v1, r, it.image)
            && Write(v1, r, it.image) == v1.(items := v1.items[i := it.(putting := true)],
                 reqs := v1.reqs[r := Put(i, it.place.length, false)])
  {
    hide BlockSize;
    SameBytes(v.disk[it.place.dev], it.place.offset, it.place.length);
    assert |it.image| == it.place.length && [] + it.image == it.image;
    hide WriteAt, Slice;
    var v1 := StartPut(v, r, i, it.(putting := true, image := []));
    assert v1.disk[it.place.dev := v1.disk[it.place.dev]] == v1.disk;
  }

  lemma FinishSame(v: State, r: ReqId, i: ItemId, it: Item)
    requires r !in v.reqs && it.place.dev in v.devs && it.key.server in v.counts && !it.putting && !it.deleted
    ensures var v1 := StartPut(v, r, i, it.(putting := true, image := []));
            var v2 := v1.(items := v1.items[i := it.(putting := true)],
                        reqs := v1.reqs[r := Put(i, it.place.length, false)]);
            CanFinalize(v2, r) && Finalize(v2, r) == Entered(v, i, it)
  {
    hide BlockSize;
    var v1 := StartPut(v, r, i, it.(putting := true, image := []));
    var v2 := v1.(items := v1.items[i := it.(putting := true)], reqs := v1.reqs[r := Put(i, it.place.length, false)]);
    var w := Entered(v, i, it);
    assert v2.reqs - {r} == v.reqs;
    assert v2.devs[it.place.dev := v.devs[it.place.dev]] == v.devs;
    assert v2.items[i := it] == w.items;
  }

  /** Loading an item amounts to a store whose bytes were on the device already. */
  lemma LoadSteps(v: State, core: SpaceModel.Core, i: ItemId, it: Item)
    requires Inv(v) && SpaceModel.Inv(core) && v.devs == DevView(core.devs)
    requires i !in v.items && i in core.placed && core.placed == PlaceView(v.items)[i := it.place]
    requires it.key !in v.hash && it.key.server in v.counts
    requires !it.putting && !it.deleted && !it.badblock && it.used == 0
    requires it.place.dev in v.devs && !v.devs[it.place.dev].deleted && it.place.dev in v.disk
    requires it.place.offset + it.place.length <= |v.disk[it.place.dev]|
             && it.image == Slice(v.disk[it.place.dev], it.place.offset, it.place.length)
    ensures Inv(Entered(v, i, it)) && Reaches(v, Entered(v, i, it))
  {
    hide Inv, SpaceModel.Inv, Reaches, StartPut, Write, Finalize, BlockSize, PlaceView, DevView, Slice, Entered,
      CanWrite, CanFinalize;
    var r := Unused(v.reqs.Keys);
    assert r !in v.reqs;
    var it0 := it.(putting := true, image := []);
    CommitGood(v, core, r, i, it0);
    var v1 := StartPut(v, r, i, it0);
    WriteSame(v, r, i, it);
    var v2 := Write(v1, r, it.image);
    LoadStep(v1, DoWrite(r, it.image), v2);
    FinishSame(v, r, i, it);
    LoadStep(v2, DoFinalize(r), Entered(v, i, it));
    ReachesTrans(v, v1, v2);
    ReachesTrans(v, v2, Entered(v, i, it));
  }

  lemma LoadStep(v: State, s: Step, w: State)
    requires Inv(v) && Enabled(v, s) && w == Apply(v, s)
    ensures Inv(w) && Reaches(v, w)
  {
    hide Inv, Reaches, Enabled, Apply;
    StepKeeps(v, s);
    ReachesStep(v, s);
  }

  /** A cache with device d half loaded; `cur` is the space behind the last loaded item. */
  ghost predicate Loading(c: Cache, d: nat, cur: Buckets.Handle)
    reads c, c.space, c.space.buckets
  {
    && c.space.LoadValid(d, cur) && Inv(c.View()) && c.space.placed == PlaceView(c.items)
    && LruOk(c.items, c.hash, c.servers, c.shared) && AllShaped(c.items)
  }

  /** The item that a record becomes. */
  function LoadedItem(r: Record, s: nat, d: nat, disk: seq<Byte>): Item
    requires r.offset + r.length <= |disk|
  {
    Item(Key(s, r.id), SpaceModel.Place(d, r.offset, r.length), r.headersLen, r.expire, 0, false, false, false, 0,
        Slice(disk, r.offset, r.length))
  }

  /** The allocator's state while loading, as far as the life cycle sees it. */
  lemma SettledCore(core: SpaceModel.Core, d: nat, cur: Buckets.Handle)
    requires SpaceLoad.Loading(core, d, cur)
    ensures var core' := SpaceLoad.Settle(core, d, cur);
            SpaceModel.Inv(core') && core'.placed == core.placed && DevView(core'.devs) == DevView(core.devs)
    ensures d in core.devs && !core.devs[d].deleted && cur in core.blocks
    ensures core.blocks[cur].offset + core.blocks[cur].size == core.devs[d].capacity
  {
    hide SpaceModel.Inv;
  }

  lemma LoadCore(c: Cache, d: nat, cur: Buckets.Handle)
    requires c.space.LoadValid(d, cur)
    ensures SpaceLoad.Loading(c.space.View(), d, cur)
  {
    hide SpaceLoad.Loading, SpaceLoad.AgreeBut, Buckets.Filed;
  }

  lemma FitsDisk(st: State, d: nat, o: nat, length: nat)
    requires Inv(st) && d in st.devs && 1 <= length <= FOUR_GB && o + BlockSize(length) <= st.devs[d].capacity
    ensures d in st.disk && o + length <= |st.disk[d]|
  {
    hide Hashed, Held, Images, Sends, DevUse, Counted, Logged, Overlap;
    BlockSizeIsLeastClass(length);
  }

  /** server_load_fm_item: refused exactly when the record lies before what was loaded already. */
  method LoadItem(c: Cache, d: nat, r: Record, s: nat, ghost cur: Buckets.Handle) returns (ok: bool, ghost i: ItemId)
    requires Loading(c, d, cur) && d in c.space.devices && RecordOk(r, c.space.devices[d].capacity)
    requires s in c.servers && Key(s, r.id) !in c.hash && cur in c.space.blocks
    modifies c, c.space, c.space.buckets
    ensures Loading(c, d, cur) && cur in c.space.blocks && Reaches(old(c.View()), c.View())
    ensures ok <==> r.offset >= old(c.space.blocks)[cur].offset
    ensures !ok ==> c.items == old(c.items) && c.hash == old(c.hash)
    ensures c.disk == old(c.disk) && SameConf(old(c.servers), c.servers)
            && Devices.SameStatus(old(c.space.devices), c.space.devices) && c.now == old(c.now)
    ensures ok ==> && d in c.disk && r.offset + r.length <= |c.disk[d]|
                   && i !in old(c.items) && c.items == old(c.items)[i := LoadedItem(r, s, d, c.disk[d])]
                   && c.hash == old(c.hash)[Key(s, r.id) := ItemEntry(i)]
                   && c.space.blocks[cur].offset == r.offset + BlockSize(r.length)
  {
    hide InvBut, LruOk, Shaped, DevView, CountView, PlaceView, SameConf, BlockSize, AllShaped, Reaches,
      SpaceModel.Inv, SpaceLoad.Loading, Devices.Space.LoadValid, Devices.SameStatus, Slice;
    ghost var v := c.View();
    ReachesSelf(v);
    SameConfSelf(c.servers);
    LoadCore(c, d, cur);
    SettledCore(c.space.View(), d, cur);
    DevViewAt(c.space.devices, d);
    CountViewAt(c.servers, s);
    FitsDisk(v, d, r.offset, r.length);
    ghost var u := Unused(c.items.Keys);
    assert u !in c.items;
    var j: ItemId :| j !in c.items;
    i := j;
    PlaceKeys(c.items);
    var bsize := c.space.CutFreeBlock(d, j, r.offset, r.length, cur);
    SameStatusView(old(c.space.devices), c.space.devices);
    Devices.BlockNotEmpty(r.length);
    if bsize == 0 {
      ok := false;
      return;
    }
    var it := LoadedItem(r, s, d, c.disk[d]);
    LoadCore(c, d, cur);
    SettledCore(c.space.View(), d, cur);
    LoadSteps(v, SpaceLoad.Settle(c.space.View(), d, cur), j, it);
    c.Link(j, it);
    c.log := c.log + [(it.key, j)];
    assert c.View() == Entered(v, j, it);
    ok := true;
  }

  lemma PlaceKeys(items: map<ItemId, Item>)
    ensures PlaceView(items).Keys == items.Keys
  {
  }

  // ---------- the load loop ----------

  /** What the load loop consults: the end of the metadata, the clock, the dumped ports and the
      servers that listen on a port now. */
  datatype Env = Env(override: nat, now: int, ports: seq<bv16>, byPort: map<bv16, nat>)

  predicate Keeps(e: Env, r: Record) {
    r.offset >= e.override && r.expire > e.now && r.server < |e.ports| && e.ports[r.server] in e.byPort
  }

  function KeyOf(e: Env, r: Record): Key
    requires Keeps(e, r)
  {
    Key(e.byPort[e.ports[r.server]], r.id)
  }

  /** The records that are to come back. */
  function Kept(e: Env, records: seq<Record>): (kept: seq<Record>)
    ensures forall r :: r in kept <==> r in records && Keeps(e, r)
  {
    if records == [] then []
    else
      var n := |records| - 1;
      assert forall r :: r in records <==> r in records[..n] || r == records[n];
      Kept(e, records[..n]) + (if Keeps(e, records[n]) then [records[n]] else [])
  }

  /** Keys of kept records are new and differ from each other. */
  ghost predicate NewKeys(e: Env, records: seq<Record>, hash: map<Key, Entry>) {
    && (forall k :: 0 <= k < |records| && Keeps(e, records[k]) ==> KeyOf(e, records[k]) !in hash)
    && (forall j, k :: 0 <= j < k < |records| && Keeps(e, records[j]) && Keeps(e, records[k])
         ==> KeyOf(e, records[j]) != KeyOf(e, records[k]))
  }

  /** `b` is `a` and, under the new names `ids`, the items of `kept`. */
  ghost predicate Restored(a: map<ItemId, Item>, b: map<ItemId, Item>, e: Env, kept: seq<Record>, ids: seq<ItemId>,
      d: nat, disk: seq<Byte>) {
    && |ids| == |kept|
    && (forall i :: i in b <==> i in a || i in ids)
    && (forall i :: i in a ==> i in b && b[i] == a[i])
    && (forall k :: 0 <= k < |ids| ==> ids[k] !in a && Keeps(e, kept[k]) && kept[k].offset + kept[k].length <= |disk|
                                       && ids[k] in b
                                          && b[ids[k]] == LoadedItem(kept[k], KeyOf(e, kept[k]).server, d, disk))
    && NoDup(ids)
  }

  lemma RestoredNext(a: map<ItemId, Item>, b: map<ItemId, Item>, e: Env, kept: seq<Record>, ids: seq<ItemId>, d: nat,
      disk: seq<Byte>, r: Record, i: ItemId)
    requires Restored(a, b, e, kept, ids, d, disk) && i !in b && Keeps(e, r) && r.offset + r.length <= |disk|
    ensures Restored(a, b[i := LoadedItem(r, KeyOf(e, r).server, d, disk)], e, kept + [r], ids + [i], d, disk)
  {
    hide Keeps, LoadedItem, KeyOf;
    assert NoDup(ids + [i]) by { hide Restored; }
  }

  /** Every key in the hash was there before or belongs to one of the first k records. */
  ghost predicate KeysFrom(e: Env, records: seq<Record>, k: nat, was: map<Key, Entry>, hash: map<Key, Entry>) {
    && k <= |records|
    && forall key :: key in hash ==>
         key in was || exists j :: 0 <= j < k && Keeps(e, records[j]) && KeyOf(e, records[j]) == key
  }

  lemma KeyIsNew(e: Env, records: seq<Record>, k: nat, was: map<Key, Entry>, hash: map<Key, Entry>)
    requires NewKeys(e, records, was) && KeysFrom(e, records, k, was, hash) && k < |records| && Keeps(e, records[k])
    ensures KeyOf(e, records[k]) !in hash
  {
    hide Keeps, KeyOf;
  }

  lemma KeysNext(e: Env, records: seq<Record>, k: nat, was: map<Key, Entry>, hash: map<Key, Entry>, i: ItemId)
    requires KeysFrom(e, records, k, was, hash) && k < |records|
    ensures KeysFrom(e, records, k + 1, was, hash)
    ensures Keeps(e, records[k]) ==> KeysFrom(e, records, k + 1, was, hash[KeyOf(e, records[k]) := ItemEntry(i)])
  {
    hide Keeps, KeyOf;
    forall key | key in hash
      ensures key in was || exists j :: 0 <= j < k + 1 && Keeps(e, records[j]) && KeyOf(e, records[j]) == key
    {
      if key !in was {
        var j :| 0 <= j < k && Keeps(e, records[j]) && KeyOf(e, records[j]) == key;
      }
    }
  }

  /** The space being cut begins before all records that are still to come. */
  ghost predicate Ahead(records: seq<Record>, k: nat, at: nat) {
    forall j :: k <= j < |records| ==> at <= records[j].offset
  }

  lemma AheadNext(records: seq<Record>, capacity: nat, k: nat, at: nat)
    requires Loadable(records, capacity) && k < |records| && Ahead(records, k, at)
    ensures Ahead(records, k + 1, at) && Ahead(records, k + 1, records[k].offset + BlockSize(records[k].length))
    ensures RecordOk(records[k], capacity) && at <= records[k].offset
  {
    hide BlockSize, RecordOk;
  }

  lemma KeptNext(e: Env, records: seq<Record>, k: nat)
    requires k < |records|
    ensures Kept(e, records[..k + 1]) == if Keeps(e, records[k]) then Kept(e, records[..k]) + [records[k]]
            else Kept(e, records[..k])
  {
    hide Keeps;
    assert records[..k + 1][..k] == records[..k];
  }

  /** The loop of format_load_device. Each record that is to be kept is loaded: the error branch of
      device_cut_free_block is never taken. */
  method LoadRecords(c: Cache, d: nat, e: Env, records: seq<Record>, ghost cur: Buckets.Handle)
    returns (ghost ids: seq<ItemId>)
    requires Loading(c, d, cur) && d in c.space.devices && d in c.disk && cur in c.space.blocks
    requires Loadable(records, c.space.devices[d].capacity) && Ahead(records, 0, c.space.blocks[cur].offset)
    requires NewKeys(e, records, c.hash) && forall p :: p in e.byPort ==> e.byPort[p] in c.servers
    modifies c, c.space, c.space.buckets
    ensures Loading(c, d, cur) && Reaches(old(c.View()), c.View())
    ensures c.disk == old(c.disk) && SameConf(old(c.servers), c.servers) && c.now == old(c.now)
    ensures d in c.disk && Restored(old(c.items), c.items, e, Kept(e, records), ids, d, c.disk[d])
  {
    hide Loading, Loadable, Ahead, NewKeys, KeysFrom, Restored, Kept, Reaches, SameConf, Keeps, KeyOf, RecordOk,
      LoadedItem, DevView, CountView, BlockSize, Devices.SameStatus;
    ids := [];
    ghost var cap, v0 := c.space.devices[d].capacity, c.View();
    LoadStart(c.items, e, d, c.disk[d], records, c.hash);
    ReachesSelf(v0);
    SameConfSelf(c.servers);
    assert records[..0] == [];
    for k := 0 to |records|
      invariant Loading(c, d, cur) && cur in c.space.blocks && Reaches(v0, c.View())
      invariant d in c.space.devices && c.space.devices[d].capacity == cap
      invariant c.disk == old(c.disk) && SameConf(old(c.servers), c.servers) && c.now == old(c.now)
      invariant Ahead(records, k, c.space.blocks[cur].offset) && KeysFrom(e, records, k, old(c.hash), c.hash)
      invariant Restored(old(c.items), c.items, e, Kept(e, records[..k]), ids, d, c.disk[d])
    {
      var r := records[k];
      AheadNext(records, cap, k, c.space.blocks[cur].offset);
      KeptNext(e, records, k);
      KeysNext(e, records, k, old(c.hash), c.hash, 0);
      if Keeps(e, r) {
        ghost var v, servers, items := c.View(), c.servers, c.items;
        KeyIsNew(e, records, k, old(c.hash), c.hash);
        var s := ServerFor(e, r);
        SameConfKeys(old(c.servers), c.servers);
        ghost var hash, devices := c.hash, c.space.devices;
        var ok, i := LoadItem(c, d, r, s, cur);
        StatusAt(devices, c.space.devices, d);
        KeysNext(e, records, k, old(c.hash), hash, i);
        RestoredNext(old(c.items), items, e, Kept(e, records[..k]), ids, d, c.disk[d], r, i);
        ReachesTrans(v0, v, c.View());
        SameConfTrans(old(c.servers), servers, c.servers);
        ids := ids + [i];
      }
    }
    assert records[..|records|] == records;
  }

  function ServerFor(e: Env, r: Record): (s: nat)
    requires Keeps(e, r)
    ensures KeyOf(e, r) == Key(s, r.id) && exists p :: p in e.byPort && e.byPort[p] == s
  {
    e.byPort[e.ports[r.server]]
  }

  lemma LoadStart(items: map<ItemId, Item>, e: Env, d: nat, disk: seq<Byte>, records: seq<Record>,
      hash: map<Key, Entry>)
    ensures Restored(items, items, e, Kept(e, []), [], d, disk)
    ensures KeysFrom(e, records, 0, hash, hash)
  {
  }

  lemma StatusAt(a: map<nat, SpaceModel.Device>, b: map<nat, SpaceModel.Device>, d: nat)
    requires Devices.SameStatus(a, b) && d in a
    ensures d in b && b[d].capacity == a[d].capacity
  {
  }

  // ---------- the whole load ----------

  /** The header that format_load_device accepts. */
  predicate Accepted(f: File) {
    f.super.magic == MAGIC && f.super.version == VERSION && Sealed(f.super, f.ports)
  }

  /** Device d is fresh: one free block covers it. */
  ghost predicate Blank(c: Cache, d: nat, h: Buckets.Handle)
    reads c, c.space
  {
    && d in c.space.devices && !c.space.devices[d].deleted && c.space.devices[d].capacity > 0
    && d in c.space.layout && h in c.space.blocks
       && c.space.layout[d] == [Layout.Free(h, 0, c.space.devices[d].capacity)]
  }

  /** A fresh device can be loaded. */
  lemma BlankLoads(c: Cache, d: nat, h: Buckets.Handle)
    requires c.Valid() && Blank(c, d, h)
    ensures Loading(c, d, h) && c.space.blocks[h].offset == 0 && d in c.disk
  {
    hide InvBut, LruOk, AllShaped, CountView, PlaceView, SpaceModel.Inv;
    SpaceInv(c.space);
    SpaceLoad.FreshLoading(c.space.View(), d, h);
    FreshOffset(c.space.View(), d, h);
    DevViewAt(c.space.devices, d);
    DiskSize(c.View(), d);
    hide SpaceLoad.Loading, DevView;
  }

  lemma FreshOffset(core: SpaceModel.Core, d: nat, h: Buckets.Handle)
    requires SpaceModel.Inv(core) && d in core.devs && core.layout[d] == [Layout.Free(h, 0, core.devs[d].capacity)]
    ensures h in core.blocks && core.blocks[h].offset == 0
  {
    hide BlockSize, Layout.Tiles, Layout.Nodes, Layout.TallyOf;
    assert core.layout[d][0] in core.layout[d];
    assert SpaceModel.Linked(core.layout[d][0], d, core.blocks, core.placed);
  }

  /** What format_load_device leaves in the place of magic and version: "FeiLiWuShi". */
  const CLEARED: bv64 := 0x537557694c696546
  const CLEARED_VERSION: bv64 := 0x6968

  /** format_load_device for a file with as many records as its header says. */
  method Load(c: Cache, d: nat, file: File, byPort: map<bv16, nat>, ghost h: Buckets.Handle)
    returns (ok: bool, after: File, ghost ids: seq<ItemId>)
    requires c.Valid() && Blank(c, d, h) && file.super.itemNr == |file.records|
    requires Loadable(file.records, c.space.devices[d].capacity)
    requires NewKeys(Env(Override(|file.records|), c.now, file.ports, byPort), file.records, c.hash)
    requires forall p :: p in byPort ==> byPort[p] in c.servers
    modifies c, c.space, c.space.buckets
    ensures c.Valid() && Reaches(old(c.View()), c.View()) && SameConf(old(c.servers), c.servers)
    ensures ok <==> Accepted(file)
    ensures !ok ==> c.View() == old(c.View()) && after == file
    ensures ok ==> !Accepted(after) && c.disk == old(c.disk) && d in c.disk
    ensures ok ==> var e := Env(Override(|file.records|), old(c.now), file.ports, byPort);
                   Restored(old(c.items), c.items, e, Kept(e, file.records), ids, d, c.disk[d])
  {
    hide Cache.Valid, Loading, Loadable, Ahead, NewKeys, Restored, Kept, Reaches, SameConf, Sealed, SuperWords,
      PortWords, Xor, Blank;
    ids, after := [], file;
    SameConfSelf(c.servers);
    ReachesSelf(c.View());
    if file.super.magic != MAGIC || file.super.version != VERSION {
      return false, after, ids;
    }
    var sum := Checksum(SuperWords(file.super) + PortWords(file.ports));
    SealedIs(file.super, file.ports);
    if sum != FEED {
      return false, after, ids;
    }
    BlankLoads(c, d, h);
    BlankAt(c, d, h);
    AllAhead(file.records);
    var e := Env(INFO_SIZE + file.super.itemNr * RECORD_SIZE, c.now, file.ports, byPort);
    ghost var v := c.View();
    ids := LoadRecords(c, d, e, file.records, h);
    EndLoad(c, d, h);
    after := file.(super := file.super.(magic := CLEARED, version := CLEARED_VERSION));
    ok := true;
  }

  lemma SealedIs(sb: Superblock, ports: seq<bv16>)
    ensures Sealed(sb, ports) <==> Xor(SuperWords(sb) + PortWords(ports)) == FEED
  {
  }

  lemma BlankAt(c: Cache, d: nat, h: Buckets.Handle)
    requires Blank(c, d, h)
    ensures d in c.space.devices && h in c.space.blocks
  {
  }

  lemma AllAhead(records: seq<Record>)
    ensures Ahead(records, 0, 0)
  {
  }

  /** device_load_post: the cache is in order again. */
  method EndLoad(c: Cache, d: nat, ghost cur: Buckets.Handle)
    requires Loading(c, d, cur)
    modifies c.space, c.space.buckets
    ensures c.Valid() && c.View() == old(c.View())
  {
    hide InvBut, LruOk, AllShaped, DevView, CountView, PlaceView, SpaceModel.Inv, Devices.Space.LoadValid,
      Devices.Space.Valid, Devices.SameStatus;
    c.space.LoadPost(d, cur);
    SameStatusView(old(c.space.devices), c.space.devices);
  }

  // ---------- the round trip ----------

  /** The metadata does not reach the bodies behind it. */
  lemma BodySurvives(disk: seq<Byte>, meta: seq<Byte>, o: nat, n: nat)
    requires |meta| <= o && o + n <= |disk|
    ensures Slice(WriteAt(disk, 0, meta), o, n) == Slice(disk, o, n)
  {
  }

  /** Different dumped servers are different servers now. */
  ghost predicate PortsApart(ports: seq<bv16>, byPort: map<bv16, nat>) {
    forall s, t | 0 <= s < |ports| && 0 <= t < |ports| && ports[s] in byPort && ports[t] in byPort ::
      byPort[ports[s]] == byPort[ports[t]] ==> s == t
  }

  ghost predicate RecordsOf(items: map<ItemId, Item>, ids: seq<ItemId>, records: seq<Record>) {
    |ids| == |records| && NoDup(ids) && forall k :: 0 <= k < |ids| ==>
        ids[k] in items && records[k] == RecordOf(items[ids[k]])
  }

  /** What was dumped with no request in flight has keys that an empty hash can take. */
  lemma StoredKeys(st: State, ids: seq<ItemId>, records: seq<Record>, e: Env)
    requires Inv(st) && st.reqs == map[] && RecordsOf(st.items, ids, records) && PortsApart(e.ports, e.byPort)
    ensures NewKeys(e, records, map[])
  {
    hide Inv;
    forall j, k | 0 <= j < k < |records| && Keeps(e, records[j]) && Keeps(e, records[k])
      ensures KeyOf(e, records[j]) != KeyOf(e, records[k])
    {
      KeysDiffer(st, ids[j], ids[k]);
      assert records[j] == RecordOf(st.items[ids[j]]) && records[k] == RecordOf(st.items[ids[k]]);
    }
  }

  /** The loaded item is the dumped one: same id, place, sizes, expiry and body, on the server that
      has its port now. */
  ghost predicate CameBack(it: Item, it': Item, e: Env, d: nat) {
    && it.key.server < |e.ports| && e.ports[it.key.server] in e.byPort
    && it'.key == Key(e.byPort[e.ports[it.key.server]], it.key.id)
    && it'.place == SpaceModel.Place(d, it.place.offset, it.place.length)
    && it'.headersLen == it.headersLen && it'.expire == it.expire && it'.image == it.image
    && !it'.putting && !it'.deleted && !it'.badblock && it'.used == 0
  }

  /** The body of an item that nobody is storing. */
  lemma WholeBody(st: State, i: ItemId)
    requires Inv(st) && st.reqs == map[] && i in st.items
    ensures var it := st.items[i];
            && it.place.dev in st.disk && it.place.offset + it.place.length <= |st.disk[it.place.dev]|
            && it.image == Slice(st.disk[it.place.dev], it.place.offset, it.place.length)
  {
    hide BlockSize, Placed, Hashed, Sends, DevUse, Counted, Logged;
    assert Putters(st.reqs, i) == {};
    assert OnDisk(st.items[i], st.disk);
  }

  lemma OneBack(st: State, i: ItemId, d: nat, e: Env, d': nat, meta: seq<Byte>)
    requires Inv(st) && st.reqs == map[] && i in st.items && st.items[i].place.dev == d && d in st.disk
             && |meta| <= |st.disk[d]|
    requires e.override == |meta| && Keeps(e, RecordOf(st.items[i]))
    ensures var r, disk := RecordOf(st.items[i]), WriteAt(st.disk[d], 0, meta);
            r.offset + r.length <= |disk| && CameBack(st.items[i], LoadedItem(r, KeyOf(e, r).server, d', disk), e, d')
  {
    WholeBody(st, i);
    hide Inv;
    BodySurvives(st.disk[d], meta, st.items[i].place.offset, st.items[i].place.length);
    hide Slice, WriteAt;
  }

  /** Dump and load: the loaded items are exactly the dumped ones that lie behind the metadata, have
      not expired and whose server is still there. `b` is what Load makes of `a`. */
  lemma RoundTrip(st: State, ids: seq<ItemId>, records: seq<Record>, d: nat, meta: seq<Byte>, e: Env,
                  a: map<ItemId, Item>, b: map<ItemId, Item>, ids': seq<ItemId>, d': nat)
    requires Inv(st) && st.reqs == map[] && RecordsOf(st.items, ids, records) && d in st.disk
    requires forall k :: 0 <= k < |ids| ==> st.items[ids[k]].place.dev == d
    requires |meta| == e.override == Override(|records|) <= |st.disk[d]|
    requires Restored(a, b, e, Kept(e, records), ids', d', WriteAt(st.disk[d], 0, meta))
    ensures forall k :: 0 <= k < |ids| && Keeps(e, records[k]) ==>
              exists i :: i in ids' && i in b && CameBack(st.items[ids[k]], b[i], e, d')
    ensures forall i :: i in b && i !in a ==>
              exists k :: 0 <= k < |ids| && Keeps(e, records[k]) && CameBack(st.items[ids[k]], b[i], e, d')
  {
    hide Inv, CameBack, LoadedItem, Keeps, KeyOf, Kept, RecordOf, WriteAt;
    var kept := Kept(e, records);
    forall k | 0 <= k < |ids| && Keeps(e, records[k])
      ensures exists i :: i in ids' && i in b && CameBack(st.items[ids[k]], b[i], e, d')
    {
      assert records[k] in records;
      var m :| 0 <= m < |kept| && kept[m] == records[k];
      OneBack(st, ids[k], d, e, d', meta);
      assert ids'[m] in ids' && ids'[m] in b;
    }
    forall i | i in b && i !in a
      ensures exists k :: 0 <= k < |ids| && Keeps(e, records[k]) && CameBack(st.items[ids[k]], b[i], e, d')
    {
      var m :| 0 <= m < |ids'| && ids'[m] == i;
      assert kept[m] in kept;
      var k :| 0 <= k < |records| && records[k] == kept[m];
      OneBack(st, ids[k], d, e, d', meta);
    }
  }

  /** The same, said of items. */
  ghost predicate AllBack(st: State, ids: seq<ItemId>, b: map<ItemId, Item>, e: Env, d: nat) {
    forall i :: i in ids && i in st.items && Keeps(e, RecordOf(st.items[i])) ==>
      exists j :: j in b && CameBack(st.items[i], b[j], e, d)
  }

  ghost predicate NoneElse(st: State, ids: seq<ItemId>, a: map<ItemId, Item>, b: map<ItemId, Item>, e: Env, d: nat) {
    forall j :: j in b && j !in a ==>
      exists i :: i in ids && i in st.items && Keeps(e, RecordOf(st.items[i])) && CameBack(st.items[i], b[j], e, d)
  }

  lemma RoundTripItems(st: State, ids: seq<ItemId>, records: seq<Record>, d: nat, meta: seq<Byte>, e: Env,
                       a: map<ItemId, Item>, b: map<ItemId, Item>, ids': seq<ItemId>, d': nat)
    requires Inv(st) && st.reqs == map[] && RecordsOf(st.items, ids, records) && d in st.disk
    requires forall k :: 0 <= k < |ids| ==> st.items[ids[k]].place.dev == d
    requires |meta| == e.override == Override(|records|) <= |st.disk[d]|
    requires Restored(a, b, e, Kept(e, records), ids', d', WriteAt(st.disk[d], 0, meta))
    ensures AllBack(st, ids, b, e, d') && NoneElse(st, ids, a, b, e, d')
  {
    hide Inv, CameBack, Keeps, Kept, RecordOf, WriteAt, Restored;
    RoundTrip(st, ids, records, d, meta, e, a, b, ids', d');
    forall i | i in ids && i in st.items && Keeps(e, RecordOf(st.items[i]))
      ensures exists j :: j in b && CameBack(st.items[i], b[j], e, d')
    {
      var k :| 0 <= k < |ids| && ids[k] == i;
      assert records[k] == RecordOf(st.items[ids[k]]);
    }
    forall j | j in b && j !in a
      ensures exists i :: i in ids && i in st.items
                          && Keeps(e, RecordOf(st.items[i])) && CameBack(st.items[i], b[j], e, d')
    {
      var k :| 0 <= k < |ids| && Keeps(e, records[k]) && CameBack(st.items[ids[k]], b[j], e, d');
      assert ids[k] in ids && records[k] == RecordOf(st.items[ids[k]]);
    }
  }

  lemma DeviceSize(c: Cache, d: nat)
    requires c.Valid() && d in c.space.devices
    ensures d in c.disk && |c.disk[d]| == c.space.devices[d].capacity && |c.disk[d]| % SECTOR == 0
  {
    hide InvBut, LruOk, AllShaped, CountView, PlaceView, SpaceModel.Inv, DevView;
    SpaceInv(c.space);
    hide Devices.Space.Valid;
    DevViewAt(c.space.devices, d);
    DiskSize(c.View(), d);
    CapacitySectors(c.space.View(), d);
  }

  lemma DiskSize(st: State, d: nat)
    requires Inv(st) && d in st.devs
    ensures d in st.disk && |st.disk[d]| == st.devs[d].capacity
  {
    hide Hashed, Held, Images, Sends, DevUse, Counted, Logged, Overlap, BlockSize;
  }

  lemma CapacitySectors(core: SpaceModel.Core, d: nat)
    requires SpaceModel.Inv(core) && d in core.devs
    ensures core.devs[d].capacity % SECTOR == 0
  {
    hide BlockSize, Layout.Tiles, Layout.Nodes, Layout.TallyOf, Layout.Coalesced;
    assert SpaceModel.DevOk(core.devs[d], core.layout[d]);
    Layout.TilesSpan(core.layout[d], 0, core.devs[d].capacity);
    Layout.TilesAligned(core.layout[d], 0, core.devs[d].capacity);
  }

  lemma AllOn(c: Cache, d: nat, dumps: set<nat>, ids: seq<ItemId>)
    requires forall i :: Dumped(c, d, dumps, i) <==> i in ids
    ensures forall k :: 0 <= k < |ids| ==> ids[k] in c.items && c.items[ids[k]].place.dev == d
  {
    forall k | 0 <= k < |ids| ensures ids[k] in c.items && c.items[ids[k]].place.dev == d {
      assert ids[k] in ids;
      assert Dumped(c, d, dumps, ids[k]);
    }
  }

  /** A device that was just added. */
  lemma FreshBlank(c: Cache, d: nat, size: nat) returns (h: Buckets.Handle)
    requires c.Valid() && d in c.View().devs && c.View().devs[d] == Dev(size, false, 0, true) && size > 0
    requires exists h :: h in c.space.blocks && d in c.space.layout && c.space.layout[d] == [Layout.Free(h, 0, size)]
    ensures Blank(c, d, h) && c.space.devices[d].capacity == size
  {
    hide Cache.Valid, CountView;
    h :| h in c.space.blocks && d in c.space.layout && c.space.layout[d] == [Layout.Free(h, 0, size)];
    DevViewAt(c.space.devices, d);
  }

  /** The program stops and starts again: device d of cache c, which serves no request any more, is
      dumped, and a fresh cache c' loads it as device d'. `encode` gives the bytes of a header with
      its records. The dump is accepted whenever there is something to dump and room for it; the
      items that come back are exactly the dumped ones that lie behind the metadata, have not
      expired and whose port is still served. */
  method StopAndStart(c: Cache, d: nat, ports: seq<bv16>, dumps: set<nat>, pad: bv64, encode: File -> seq<Byte>,
                      c': Cache, d': nat, byPort: map<bv16, nat>)
    returns (ok: bool, ghost ids: seq<ItemId>, ghost e: Env)
    requires c.Valid() && d in c.space.devices && |ports| == SERVERS_LIMIT && c.reqs == map[]
    requires forall f :: |encode(f)| == Override(|f.records|)
    requires c'.Valid() && c'.hash == map[] && d' !in c'.space.devices
             && forall p :: p in byPort ==> byPort[p] in c'.servers
    requires c' != c && c'.space != c.space && c'.space.buckets != c.space.buckets && PortsApart(ports, byPort)
    modifies c', c'.space, c'.space.buckets
    ensures c'.Valid() && Reaches(old(c'.View()), c'.View())
    ensures ok <==> ids != [] && d in c.disk && Override(|ids|) <= |c.disk[d]|
    ensures NoDup(ids) && forall i :: old(Dumped(c, d, dumps, i)) <==> i in ids
    ensures e == Env(Override(|ids|), old(c'.now), ports, byPort)
    ensures ok ==>
            AllBack(old(c.View()), ids, c'.items, e, d') && NoneElse(old(c.View()), ids, old(c'.items), c'.items, e, d')
    ensures !ok ==> c'.View() == old(c'.View())
  {
    hide Cache.Valid, Dumped, RecordOf, Sealed, Loadable, Reaches, DevView, CountView, PortsApart, AllBack, NoneElse,
      NewKeys, Restored, Kept, Blank, WriteAt, Inv, SameConf;
    var file;
    file, ids := Store(c, d, ports, dumps, pad);
    e := Env(Override(|ids|), c'.now, ports, byPort);
    DeviceSize(c, d);
    ReachesSelf(c'.View());
    if file.None? {
      return false, ids, e;
    }
    var f := file.value;
    if Override(|f.records|) > |c.disk[d]| {
      return false, ids, e;
    }
    var meta := encode(f);
    ghost var st, v := c.View(), c'.View();
    ViewInv(c);
    AllOn(c, d, dumps, ids);
    StoredKeys(st, ids, f.records, e);
    Destroys.AddDevice(c', d', WriteAt(c.disk[d], 0, meta));
    ghost var w := c'.View();
    ghost var h := FreshBlank(c', d', |c.disk[d]|);
    var after;
    ghost var ids';
    ok, after, ids' := Load(c', d', f, byPort, h);
    ReachesTrans(v, w, c'.View());
    RoundTripItems(st, ids, f.records, d, meta, e, old(c'.items), c'.items, ids', d');
  }
}
