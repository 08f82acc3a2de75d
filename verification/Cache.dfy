/** The cache object: the handlers of server.c and the disk side of request.c, updating the items,
    the hash, the LRU lists, the counters and the devices in place. Every method is tied to the
    transition system of Life: what it does is a finite sequence of steps. */
module Caches {
  import opened Lists
  import opened SizeClass
  import opened Life
  import opened LifeInv
  import opened LifeDelete
  import opened LifeRuns
  import opened CacheModel
  import opened Responses
  import Layout
  import Buckets
  import SpaceSteps
  import LifeSteps
  import SpaceModel
  import Devices

  /** A bad block may take its device out of service; nothing else happens to devices. */
  ghost predicate Kicked(devs: map<nat, Dev>, devs': map<nat, Dev>, it: Item) {
    devs' == devs
    || (it.badblock && it.place.dev in devs && devs' == devs[it.place.dev := devs[it.place.dev].(deleted := true)])
  }

  /** The configuration of the servers stays as it is. */
  ghost predicate SameConf(a: map<nat, Server>, b: map<nat, Server>) {
    a.Keys == b.Keys
    && forall s :: s in a ==> b[s].conf == a[s].conf && b[s].clear == a[s].clear && b[s].deleted == a[s].deleted
  }

  lemma OwnerServer(st: State, i: ItemId)
    requires InvBut(st, {i}) && i in st.items
    ensures st.items[i].key.server in st.counts && st.items[i].place.dev in st.devs
  {
    hide BlockSize, Hashed, Held, Images, Sends, DevUse, CountOk, Logged, Overlap;
  }

  lemma HashMarkers(st: State, i: ItemId)
    requires InvBut(st, {i}) && i in st.items && !st.items[i].deleted
    ensures st.items[i].key in st.hash && !st.hash[st.items[i].key].Passby?
  {
    hide BlockSize, Placed, Held, Images, Sends, DevUse, Counted, Logged;
  }

  lemma KickKeeps(st: State, devs': map<nat, Dev>, it: Item)
    requires Inv(st) && Kicked(st.devs, devs', it)
    ensures Inv(st.(devs := devs'))
    ensures Reaches(st, st.(devs := devs'))
  {
    hide Inv, BlockSize, Apply, Reaches;
    if devs' == st.devs {
      assert st.(devs := devs') == st;
      ReachesSelf(st);
    } else {
      var d := it.place.dev;
      FdClosed(st, d);
      DevStatusKeeps(st, d, st.devs[d].(deleted := true));
      KickStep(st, d);
    }
  }

  lemma KickStep(st: State, d: nat)
    requires d in st.devs
    ensures Reaches(st, st.(devs := st.devs[d := st.devs[d].(deleted := true)]))
  {
    hide Reaches;
    ReachesStep(st, DoDeleteDevice(d));
  }

  /** The LRU lists after a deletion: the item is unlinked when it is gone, and only then. */
  ghost predicate Unlisted(a: map<nat, Server>, b: map<nat, Server>, sa: seq<ItemId>, sb: seq<ItemId>, i: ItemId,
      gone: bool) {
    && sb == (if gone then Del(sa, i) else sa)
    && forall s :: s in a && s in b ==>
        b[s].lru == (if gone then Del(a[s].lru, i) else a[s].lru) && b[s].passbyLru == a[s].passbyLru
  }

  lemma UnlistedSelf(a: map<nat, Server>, sa: seq<ItemId>, i: ItemId)
    ensures Unlisted(a, a, sa, sa, i, false)
  {
  }

  lemma UnlistedDel(items: map<ItemId, Item>, hash: map<Key, Entry>, a: map<nat, Server>, sa: seq<ItemId>, i: ItemId,
      v: Server)
    requires LruOk(items, hash, a, sa) && i in items && v.lru == Del(a[items[i].key.server].lru, i)
    requires v.passbyLru == a[items[i].key.server].passbyLru
    ensures Unlisted(a, a[items[i].key.server := v], sa, Del(sa, i), i, true)
  {
    hide NoDup, Del, MarkerLru;
    forall s | s in a && s != items[i].key.server ensures Del(a[s].lru, i) == a[s].lru {
      DelAbsent(a[s].lru, i);
    }
  }

  /** The order list after a deletion from a device that is being drained. */
  ghost predicate Delisted(devs: map<nat, SpaceModel.Device>, devs': map<nat, SpaceModel.Device>, i: ItemId, it: Item,
      gone: bool) {
    if !gone then devs' == devs
    else it.place.dev in devs && devs[it.place.dev].deleted ==>
           Devices.Unqueued(devs, devs', it.place.dev, Layout.ItemNode(i))
  }

  /** Every item begins with a header line that fits in front of its body. */
  ghost predicate AllShaped(items: map<ItemId, Item>) {
    forall i :: i in items ==> Shaped(items[i].place.length, items[i].headersLen)
  }

  lemma ShapedKept(items: map<ItemId, Item>, i: ItemId, it: Item)
    requires AllShaped(items)
    ensures AllShaped(items - {i})
    ensures Shaped(it.place.length, it.headersLen) ==> AllShaped(items[i := it])
  {
    hide Shaped;
  }

  lemma ShapedSame(items: map<ItemId, Item>, i: ItemId, it: Item)
    requires AllShaped(items) && i in items && it.place == items[i].place && it.headersLen == items[i].headersLen
    ensures AllShaped(items[i := it])
  {
    hide Shaped;
  }

  ghost predicate IsHeld(items: map<ItemId, Item>, i: ItemId) {
    i in items && (items[i].used != 0 || items[i].putting)
  }

  /** From position `k` on, only items in use are left in the list. */
  ghost predicate HeldFrom(items: map<ItemId, Item>, q: seq<ItemId>, k: int) {
    forall j :: 0 <= k <= j < |q| ==> IsHeld(items, q[j])
  }

  /** One step of an eviction loop keeps that property, one position further to the front. */
  lemma HeldStep(a: map<ItemId, Item>, b: map<ItemId, Item>, q: seq<ItemId>, q': seq<ItemId>, k: nat)
    requires NoDup(q) && 0 < k <= |q| && HeldFrom(a, q, k) && OthersKept(a, b, q[k - 1]) && q[k - 1] in a
    requires q' == if IsHeld(a, q[k - 1]) then q else Del(q, q[k - 1])
    requires IsHeld(a, q[k - 1]) ==> IsHeld(b, q[k - 1])
    ensures k - 1 <= |q'| && HeldFrom(b, q', k - 1) && q'[..k - 1] == q[..k - 1]
  {
    hide Del;
    DelAt(q, k - 1);
    forall j | k - 1 <= j < |q'| ensures IsHeld(b, q'[j]) {
      var m := if IsHeld(a, q[k - 1]) then j else j + 1;
      assert q'[j] == q[m];
      if m >= k { assert IsHeld(a, q[m]); }
    }
  }

  /** The first k entries of the list are untouched; behind them only items in use are left. */
  ghost predicate Trimmed(items: map<ItemId, Item>, q: seq<ItemId>, q': seq<ItemId>, k: nat) {
    k <= |q| && k <= |q'| && q'[..k] == q[..k] && HeldFrom(items, q', k)
  }

  lemma TrimmedAt(items: map<ItemId, Item>, q: seq<ItemId>, q': seq<ItemId>, k: nat)
    requires k <= |q| && k <= |q'| && q'[..k] == q[..k] && HeldFrom(items, q', k)
    ensures Trimmed(items, q, q', k)
  {
  }

  lemma PrefixStep(q0: seq<ItemId>, q: seq<ItemId>, q': seq<ItemId>, k: nat)
    requires 0 < k <= |q0| && k <= |q| && k - 1 <= |q'| && q[..k] == q0[..k] && q'[..k - 1] == q[..k - 1]
    ensures q'[..k - 1] == q0[..k - 1]
  {
    assert q[..k][..k - 1] == q[..k - 1] && q0[..k][..k - 1] == q0[..k - 1];
  }

  lemma HeldNone(items: map<ItemId, Item>, q: seq<ItemId>)
    ensures HeldFrom(items, q, |q|)
  {
  }

  lemma UnlistedAt(a: map<nat, Server>, b: map<nat, Server>, sa: seq<ItemId>, sb: seq<ItemId>, i: ItemId, gone: bool,
      s: nat)
    requires Unlisted(a, b, sa, sb, i, gone)
    ensures s in a && s in b ==>
            b[s].lru == (if gone then Del(a[s].lru, i) else a[s].lru) && b[s].passbyLru == a[s].passbyLru
    ensures sb == (if gone then Del(sa, i) else sa)
  {
    hide Del;
  }

  lemma ListsNoDup(items: map<ItemId, Item>, hash: map<Key, Entry>, servers: map<nat, Server>, shared: seq<ItemId>)
    requires LruOk(items, hash, servers, shared)
    ensures NoDup(shared) && forall s :: s in servers ==> NoDup(servers[s].lru)
  {
    hide NoDup;
  }

  lemma SameConfUpdate(a: map<nat, Server>, s: nat, v: Server)
    requires s in a && v.conf == a[s].conf && v.clear == a[s].clear && v.deleted == a[s].deleted
    ensures SameConf(a, a[s := v]) && SameConf(a, a)
  {
  }

  /** server_item_delete on an item nobody holds, spelt out. */
  lemma GoneEffect(v: State, i: ItemId)
    requires i in v.items && v.items[i].key.server in v.counts && v.items[i].used == 0 && !v.items[i].putting
    ensures var it := v.items[i];
            var n := v.counts[it.key.server];
            ItemDelete(v, i) == v.(
              hash := if it.deleted then v.hash else v.hash - {it.key}, items := v.items - {i},
              counts := v.counts[it.key.server := Counts(n.consumed - BlockSize(it.place.length),
                                                         n.content - it.place.length, n.itemNr - 1, n.passbyNr)])
  {
    hide BlockSize;
  }

  lemma MarkEffect(v: State, i: ItemId)
    requires i in v.items && v.items[i].key.server in v.counts && (v.items[i].used != 0 || v.items[i].putting)
    ensures var it := v.items[i];
            ItemDelete(v, i) == v.(hash := if it.deleted then v.hash else v.hash - {it.key},
                                   items := v.items[i := it.(deleted := true)])
  {
    hide BlockSize;
  }

  lemma KickedSelf(devs: map<nat, Dev>, it: Item)
    ensures Kicked(devs, devs, it)
  {
  }

  /** What device_return_free_block does to the devices, seen from here. */
  lemma ReturnedView(a: map<nat, SpaceModel.Device>, b: map<nat, SpaceModel.Device>, it: Item)
    requires it.place.dev in a
    requires !it.badblock || a[it.place.dev].deleted ==> Devices.SameStatus(a, b)
    requires it.badblock && !a[it.place.dev].deleted ==>
               var d := it.place.dev;
               d in b && b == a[d := b[d]]
               && b[d].capacity == a[d].capacity && b[d].used == a[d].used && b[d].fdOpen == a[d].fdOpen
    ensures Kicked(DevView(a), DevView(b), it)
  {
    var d := it.place.dev;
    if !it.badblock || a[d].deleted {
      SameStatusView(a, b);
    } else {
      DevViewUpdate(a, d, b[d]);
      assert DevView(b) == DevView(a)[d := Dev(b[d].capacity, b[d].deleted, b[d].used, b[d].fdOpen)];
      if !b[d].deleted { assert DevView(b) == DevView(a); }
    }
  }

  lemma SamePlaces(items: map<ItemId, Item>, i: ItemId, it: Item)
    requires i in items && it.place == items[i].place
    ensures PlaceView(items[i := it]) == PlaceView(items)
  {
  }

  lemma EmptyStart(v: State, servers: map<nat, Server>)
    requires v.items == map[] && v.hash == map[] && v.reqs == map[] && v.log == [] && v.disk == map[] && v.devs == map[]
    requires v.counts == CountView(servers)
    requires forall s :: s in servers ==>
             servers[s].counts == Counts(0, 0, 0, 0) && servers[s].lru == [] && servers[s].passbyLru == []
    ensures Inv(v) && LruOk(v.items, v.hash, servers, [])
  {
    hide Inv;
    StartIsGood(v);
  }

  /** Only item i may have changed or gone. */
  ghost predicate OthersKept(a: map<ItemId, Item>, b: map<ItemId, Item>, i: ItemId) {
    a.Keys - {i} <= b.Keys <= a.Keys && forall j :: j in a && j != i && j in b ==> b[j] == a[j]
  }

  lemma DeleteStep(v: State, i: ItemId)
    requires i in v.items && v.items[i].key.server in v.counts
    ensures Reaches(v, ItemDelete(v, i))
  {
    hide Reaches, ItemDelete;
    ReachesStep(v, DoDelete(i));
  }

  lemma DeleteEffect(v: State, i: ItemId)
    requires i in v.items && v.items[i].key.server in v.counts
    ensures var w := ItemDelete(v, i);
            && OthersKept(v.items, w.items, i) && w.hash.Keys <= v.hash.Keys
            && w.hash == (if v.items[i].deleted then v.hash else v.hash - {v.items[i].key})
            && w.reqs == v.reqs && w.log == v.log && w.disk == v.disk && w.devs == v.devs
               && w.counts.Keys == v.counts.Keys
            && (IsHeld(v.items, i) <==> i in w.items) && (i in w.items ==> w.items[i] == v.items[i].(deleted := true))
  {
    hide BlockSize, ItemDelete;
    if IsHeld(v.items, i) {
      MarkEffect(v, i);
    } else {
      GoneEffect(v, i);
    }
  }

  /** Deleting an item only takes things away. */
  lemma DeleteEvicts(v: State, v': State, i: ItemId)
    requires Inv(v) && i in v.items && v.items[i].key.server in v.counts
    requires v' == ItemDelete(v, i).(devs := v'.devs) && Kicked(v.devs, v'.devs, v.items[i])
    ensures Evicted(v, v')
    ensures OthersKept(v.items, v'.items, i)
    ensures v'.hash == if v.items[i].deleted then v.hash else v.hash - {v.items[i].key}
    ensures IsHeld(v.items, i) <==> i in v'.items
    ensures i in v'.items ==> v'.items[i] == v.items[i].(deleted := true)
  {
    hide BlockSize, Reaches, InvBut, ItemDelete;
    var w := ItemDelete(v, i);
    DeleteStep(v, i);
    DeleteEffect(v, i);
    InvButAny(v, i);
    DeleteKeeps(v, i);
    KickKeeps(w, v'.devs, v.items[i]);
    ReachesTrans(v, w, v');
  }

  lemma DropEvicts(v: State, k: Key)
    requires k in v.hash && v.hash[k].Passby? && k.server in v.counts
    ensures Evicted(v, DropPassby(v, k))
  {
    hide BlockSize, Reaches;
    ReachesStep(v, DoDropPassby(k));
  }

  lemma CountViewAt(servers: map<nat, Server>, s: nat)
    requires s in servers
    ensures s in CountView(servers) && CountView(servers)[s] == servers[s].counts
    ensures CountView(servers).Keys == servers.Keys
  {
  }

  lemma CountViewSame(servers: map<nat, Server>, s: nat, v: Server)
    requires s in servers && v.counts == servers[s].counts
    ensures CountView(servers[s := v]) == CountView(servers)
  {
  }

  lemma SameConfKeys(a: map<nat, Server>, b: map<nat, Server>)
    requires SameConf(a, b)
    ensures a.Keys == b.Keys && forall s :: s in a ==> b[s].conf == a[s].conf && b[s].clear == a[s].clear
  {
  }

  lemma SameConfSelf(a: map<nat, Server>)
    ensures SameConf(a, a)
  {
  }

  lemma PlacedOn(st: State, i: ItemId)
    requires Inv(st) && i in st.items
    ensures st.items[i].place.dev in st.devs
  {
    hide BlockSize, Hashed, Held, Images, Sends, DevUse, Counted, Logged, Overlap;
  }

  lemma SameConfTrans(a: map<nat, Server>, b: map<nat, Server>, c: map<nat, Server>)
    requires SameConf(a, b) && SameConf(b, c)
    ensures SameConf(a, c)
  {
  }

  lemma LruMember(items: map<ItemId, Item>, hash: map<Key, Entry>, servers: map<nat, Server>, shared: seq<ItemId>,
      s: nat, i: ItemId)
    requires LruOk(items, hash, servers, shared)
    ensures i in shared ==> i in items && items[i].key.server in servers
    ensures s in servers && i in servers[s].lru ==> i in items && items[i].key.server == s
    ensures i in items ==> items[i].key.server in servers
  {
    hide NoDup, MarkerLru;
  }

  lemma MarkerMember(items: map<ItemId, Item>, hash: map<Key, Entry>, servers: map<nat, Server>, shared: seq<ItemId>,
      s: nat, k: Key)
    requires LruOk(items, hash, servers, shared) && s in servers && k in servers[s].passbyLru
    ensures k in hash && hash[k].Passby? && k.server == s
  {
    hide NoDup, ItemLru;
  }

  /** Unlinking the last marker of a server's list. */
  lemma LastMarker(items: map<ItemId, Item>, hash: map<Key, Entry>, servers: map<nat, Server>, shared: seq<ItemId>,
      s: nat)
    requires LruOk(items, hash, servers, shared) && s in servers && servers[s].passbyLru != []
    ensures var q := servers[s].passbyLru; Del(q, q[|q| - 1]) == q[..|q| - 1]
  {
    hide Del, ItemLru;
    var q := servers[s].passbyLru;
    DelAt(q, |q| - 1);
    assert q[..|q| - 1] + q[|q|..] == q[..|q| - 1];
  }

  lemma DevViewAt(devs: map<nat, SpaceModel.Device>, d: nat)
    ensures DevView(devs).Keys == devs.Keys
    ensures d in devs ==> DevView(devs)[d] == Dev(devs[d].capacity, devs[d].deleted, devs[d].used, devs[d].fdOpen)
  {
  }

  /** An entry of the hash is a live, undeleted item. */
  lemma FoundItem(st: State, k: Key)
    requires Inv(st) && k in st.hash && st.hash[k].ItemEntry?
    ensures st.hash[k].item in st.items && st.items[st.hash[k].item].key == k && !st.items[st.hash[k].item].deleted
    ensures k.server in st.counts && st.items[st.hash[k].item].place.dev in st.devs
  {
    hide BlockSize, Held, Images, Sends, DevUse, CountOk, Logged, Overlap;
  }

  lemma EvictedReaches(a: State, b: State)
    requires Evicted(a, b)
    ensures Reaches(a, b)
  {
    hide Reaches;
  }

  lemma HitStep(st: State, r: ReqId, i: ItemId, plan: seq<Range>)
    requires Enabled(st, DoHit(r, i, plan))
    ensures Reaches(st, Hit(st, r, i, plan))
  {
    hide Reaches, Hit;
    ReachesStep(st, DoHit(r, i, plan));
  }

  lemma FinalizeDevs(st: State, r: ReqId)
    requires CanFinalize(st, r)
    ensures Finalize(st, r).devs == LetGo(st, r).devs
    ensures var i := st.reqs[r].item;
            var cond := st.reqs[r].diskError || st.items[i].deleted
                        || (st.items[i].putting && st.reqs[r].processed < st.items[i].place.length);
            Finalize(st, r) == if cond then ItemDelete(LetGo(st, r), i) else LetGo(st, r)
  {
    hide BlockSize, ItemDelete;
    DeleteReqs(LetGo(st, r), st.reqs[r].item);
  }

  lemma FinalizeStep(st: State, r: ReqId, devs': map<nat, Dev>, it: Item)
    requires Inv(st) && CanFinalize(st, r) && Kicked(Finalize(st, r).devs, devs', it)
    ensures Reaches(st, Finalize(st, r).(devs := devs'))
  {
    hide Reaches, Inv, Finalize, Kicked;
    ReachesStep(st, DoFinalize(r));
    FinalizeKeeps(st, r);
    KickKeeps(Finalize(st, r), devs', it);
    ReachesTrans(st, Finalize(st, r), Finalize(st, r).(devs := devs'));
  }

  /** What recv and pwrite came back with, one entry per round of the body loop. */
  datatype Recv =
    | Data(bytes: seq<Byte>, diskOk: bool, torn: seq<Byte>)
    | WouldBlock
    | Broken

  datatype BodyResult = Complete | Again | TooLong | Lost | DiskError

  /** The bytes of the body that arrived in order. */
  ghost function Arrived(events: seq<Recv>): seq<Byte> {
    if events == [] then []
    else Arrived(events[..|events| - 1]) + (if events[|events| - 1].Data? then events[|events| - 1].bytes else [])
  }

  lemma ArrivedNext(events: seq<Recv>, k: nat)
    requires k < |events| && events[k].Data?
    ensures Arrived(events[..k + 1]) == Arrived(events[..k]) + events[k].bytes
  {
    assert events[..k + 1][..k] == events[..k];
  }

  /** In every reachable state a PUT may write anything that does not exceed its item. */
  lemma MayWrite(st: State, r: ReqId, data: seq<Byte>)
    requires Inv(st) && r in st.reqs && st.reqs[r].Put? && !st.reqs[r].diskError
    requires st.reqs[r].item in st.items && st.reqs[r].processed + |data| <= st.items[st.reqs[r].item].place.length
    ensures CanWrite(st, r, data)
  {
    hide BlockSize, Hashed, Held, Sends, DevUse, Counted, Logged, Slice;
    assert OnDisk(st.items[st.reqs[r].item], st.disk);
  }

  lemma WriteStep(st: State, r: ReqId, data: seq<Byte>)
    requires CanWrite(st, r, data)
    ensures Reaches(st, Write(st, r, data)) && Reaches(st, WriteFail(st, r, data))
  {
    hide Reaches, Write, WriteFail;
    ReachesStep(st, DoWrite(r, data));
    ReachesStep(st, DoWriteFail(r, data));
  }

  lemma SendReaches(st: State, r: ReqId, n: nat)
    requires CanSend(st, r, n)
    ensures Reaches(st, Send(st, r, n))
  {
    hide Reaches, Send;
    ReachesStep(st, DoSend(r, n));
  }

  /** In every reachable state a GET may read the rest of its current range. */
  lemma MaySend(st: State, r: ReqId, n: nat)
    requires Inv(st) && r in st.reqs && st.reqs[r].Get? && st.reqs[r].at < |st.reqs[r].plan|
    requires st.reqs[r].done + n <= st.reqs[r].plan[st.reqs[r].at].len
    ensures CanSend(st, r, n)
  {
    Holding(st, r);
    hide BlockSize, Hashed, Held, DevUse, Counted, Logged, Slice, Expected;
    var q := st.reqs[r];
    assert OnDisk(st.items[q.item], st.disk) && SentOk(q, st.items[q.item].image);
  }

  lemma OthersSelf(items: map<ItemId, Item>, i: ItemId)
    ensures OthersKept(items, items, i)
  {
  }

  /** The entries of an order list that are items are live. */
  lemma NodeLive(c: SpaceModel.Core, items: map<ItemId, Item>, d: nat, k: nat)
    requires SpaceModel.Inv(c) && d in c.devs && k < |c.devs[d].order| && c.placed == PlaceView(items)
    ensures c.devs[d].order[k].ItemNode? ==> c.devs[d].order[k].id in items
  {
    hide SpaceModel.Inv;
    Devices.OrderEntries(c, d, k);
  }

  lemma StillLive(a: map<ItemId, Item>, b: map<ItemId, Item>, gone: Layout.Node, n: Layout.Node)
    requires n != gone && (n.ItemNode? ==> n.id in a)
    requires if gone.ItemNode? then OthersKept(a, b, gone.id) else b == a
    ensures n.ItemNode? ==> n.id in b
  {
  }

  lemma SizesOf(c: SpaceModel.Core, sizes: map<Buckets.Handle, nat>)
    requires SpaceModel.Inv(c) && SpaceModel.Agree(sizes, c.blocks)
    ensures sizes.Keys == c.blocks.Keys && forall h :: h in sizes ==> sizes[h] == c.blocks[h].size && sizes[h] >= SECTOR
  {
    hide SpaceModel.Inv;
    forall h | h in sizes ensures sizes[h] >= SECTOR { SpaceSteps.BlockSectors(c, h); }
  }

  lemma PassbyStep(st: State, k: Key, e: int)
    requires k !in st.hash && k.server in st.counts
    ensures Reaches(st, StorePassby(st, k, e))
  {
    hide Reaches, StorePassby;
    ReachesStep(st, DoPassby(k, e));
  }

  /** Results of server_request_put_handler: stored, declined with a reason (the body is read but
      not kept), or failed for lack of space. */
  datatype PutResult = Stored | TooBigItem1 | TooBigItem2 | Expired | StoredPassby | Exists | NoSpace

  /** What the size and expiry checks of server_request_put_handler say; Stored means they pass. */
  function Screen(conf: Conf, contentLength: nat, headersLen: nat, expire: int): PutResult {
    if conf.itemMaxSize != 0 && contentLength > conf.itemMaxSize then TooBigItem1
    else if conf.capacity != 0 && contentLength + headersLen > conf.capacity then TooBigItem2
    else if conf.expireForce == 0 && expire == 0 && conf.expireDefault == 0 then Expired
    else Stored
  }

  /** When the stored item expires; 0 stands for a request that names no expiry. */
  function Expiry(conf: Conf, now: int, expire: int): int {
    if conf.expireForce != 0 then conf.expireForce + now
    else if expire == 0 then conf.expireDefault + now
    else expire
  }

  lemma ShapedPositive(length: nat, headersLen: nat)
    requires Shaped(length, headersLen)
    ensures 1 <= length
  {
    hide Header200;
  }

  lemma StartPutEffect(v: State, r: ReqId, i: ItemId, it: Item)
    requires it.place.dev in v.devs && it.key.server in v.counts
    ensures var w := StartPut(v, r, i, it);
            w.items == v.items[i := it] && w.hash == v.hash[it.key := ItemEntry(i)]
                && w.reqs == v.reqs[r := Put(i, 0, false)]
            && w.log == v.log + [(it.key, i)]
  {
    hide BlockSize;
  }

  lemma AllottedPlace(c: Cache, i: ItemId, length: nat)
    requires c.Allotted(i, length)
    ensures i in c.space.placed && c.space.placed[i].length == length && i !in c.items
  {
    hide InvBut, LruOk, AllShaped, Devices.Space.Valid, DevView, CountView, PlaceView;
  }

  /** A block just placed lies in its device and overlaps no live item. */
  lemma FreshPlace(c: SpaceModel.Core, items: map<ItemId, Item>, i: ItemId)
    requires SpaceModel.Inv(c) && i !in items && i in c.placed && c.placed == PlaceView(items)[i := c.placed[i]]
    requires forall j :: j in items ==> 1 <= items[j].place.length
    ensures var p := c.placed[i];
            1 <= p.length <= FOUR_GB && p.dev in c.devs && p.offset + BlockSize(p.length) <= c.devs[p.dev].capacity
            && forall j :: j in items ==> !Overlap(p, items[j].place)
  {
    hide BlockSize, SpaceModel.Inv;
    PlaceLength(c, i);
    SpaceModel.PlacesDisjoint(c, i, i);
    forall j | j in items ensures !Overlap(c.placed[i], items[j].place) {
      assert j in c.placed && c.placed[j] == items[j].place;
      SpaceModel.PlacesDisjoint(c, i, j);
    }
  }

  lemma PlaceLength(c: SpaceModel.Core, i: ItemId)
    requires SpaceModel.Inv(c) && i in c.placed
    ensures 1 <= c.placed[i].length <= FOUR_GB
  {
    hide BlockSize, SpaceModel.DevOk, SpaceModel.Linked;
    assert SpaceModel.ItemThere(c, i);
  }

  lemma SpaceInv(sp: Devices.Space)
    requires sp.Valid()
    ensures SpaceModel.Inv(sp.View())
  {
    hide SpaceModel.Inv;
  }

  lemma PutStep(st: State, r: ReqId, i: ItemId, it: Item)
    requires r !in st.reqs && i !in st.items && it.key !in st.hash && it.key.server in st.counts
    requires it.putting && !it.deleted && !it.badblock && it.used == 0 && it.image == []
    requires PlaceOk(st, it.place) && !st.devs[it.place.dev].deleted
    requires forall j :: j in st.items ==> !Overlap(it.place, st.items[j].place)
    ensures Reaches(st, StartPut(st, r, i, it))
  {
    hide Reaches, StartPut, BlockSize, Overlap;
    ReachesStep(st, DoPut(r, i, it));
  }

  /** A new item in an allotted block is a good step. */
  lemma CommitGood(v: State, c: SpaceModel.Core, r: ReqId, i: ItemId, it: Item)
    requires Inv(v) && SpaceModel.Inv(c) && v.devs == DevView(c.devs)
    requires i !in v.items && i in c.placed && c.placed == PlaceView(v.items)[i := it.place]
    requires r !in v.reqs && it.key !in v.hash && it.key.server in v.counts
    requires it.putting && !it.deleted && !it.badblock && it.used == 0 && it.image == []
    requires it.place.dev in v.devs && !v.devs[it.place.dev].deleted
    ensures Inv(StartPut(v, r, i, it)) && Reaches(v, StartPut(v, r, i, it))
  {
    hide InvBut, SpaceModel.Inv, Reaches, StartPut, BlockSize, Overlap, PlaceView;
    LengthsPositive(v);
    FreshPlace(c, v.items, i);
    LifeSteps.PutKeeps(v, r, i, it);
    PutStep(v, r, i, it);
  }

  lemma LruCommit(items: map<ItemId, Item>, hash: map<Key, Entry>, servers: map<nat, Server>, shared: seq<ItemId>,
                  i: ItemId, it: Item, own: bool, v: Server)
    requires LruOk(items, hash, servers, shared) && i !in items && it.key.server in servers && it.key !in hash
    requires v.passbyLru == servers[it.key.server].passbyLru
    requires v.lru == if own then [i] + servers[it.key.server].lru else servers[it.key.server].lru
    ensures LruOk(items[i := it], hash[it.key := ItemEntry(i)], servers[it.key.server := v],
                  if own then shared else [i] + shared)
  {
    hide LruOk;
    LruPush(items, hash, servers, shared, i, it, own, v);
    LruHash(items[i := it], hash, hash[it.key := ItemEntry(i)], servers[it.key.server := v],
      if own then shared else [i] + shared);
  }

  lemma ViewInv(c: Cache)
    requires c.Valid()
    ensures Inv(c.View())
  {
    hide InvBut, LruOk, AllShaped, DevView, CountView, PlaceView, Devices.Space.Valid;
  }

  lemma EvictedLess(a: State, b: State)
    requires Evicted(a, b)
    ensures b.items.Keys <= a.items.Keys && b.hash.Keys <= a.hash.Keys && b.reqs == a.reqs && b.log == a.log
  {
    hide Reaches;
  }

  lemma LengthsPositive(st: State)
    requires Inv(st)
    ensures forall j :: j in st.items ==> 1 <= st.items[j].place.length
  {
    hide BlockSize, Hashed, Held, Images, Sends, DevUse, Counted, Logged, Overlap;
  }

  class Cache {
    const space: Devices.Space
    const badblockPercent: nat
    var items: map<ItemId, Item>
    var hash: map<Key, Entry>
    var reqs: map<ReqId, Req>
    var disk: map<nat, seq<Byte>>
    var servers: map<nat, Server>
    var shared: seq<ItemId>
    var now: int
    ghost var log: seq<(Key, ItemId)>

    ghost function View(): State
      reads this, space
    {
      State(items, hash, reqs, DevView(space.devices), disk, CountView(servers), log)
    }

    /** The object invariant; `pend` as in LifeInv. */
    ghost predicate Pending(pend: set<ItemId>)
      reads this, space, space.buckets
    {
      space.Valid() && InvBut(View(), pend) && space.placed == PlaceView(items) && LruOk(items, hash, servers, shared)
      && AllShaped(items)
    }

    ghost predicate Valid()
      reads this, space, space.buckets
    {
      Pending({})
    }

    /** An empty cache with the given servers and no device yet. */
    constructor (confs: map<nat, Conf>, percent: nat, time: int)
      ensures Valid() && fresh(space) && fresh(space.buckets)
      ensures items == map[] && reqs == map[] && hash == map[] && servers.Keys == confs.Keys
      ensures forall s :: s in confs ==> servers[s].conf == confs[s]
    {
      hide InvBut, BlockSize, LruOk, Devices.Space.Valid;
      space := new Devices.Space();
      badblockPercent := percent;
      items, hash, reqs, disk, shared, now, log := map[], map[], map[], map[], [], time, [];
      servers := map s | s in confs :: Server(confs[s], Counts(0, 0, 0, 0), 0, false, [], []);
      new;
      EmptyStart(View(), servers);
    }

    /** server_item_delete, also for an item whose request has just let go of it. */
    method Remove(i: ItemId)
      requires Pending({i}) && i in items && items[i].key.server in servers
      modifies this, space, space.buckets
      ensures Valid() && SameConf(old(servers), servers) && now == old(now)
              && Unlisted(old(servers), servers, old(shared), shared, i, !IsHeld(old(items), i))
      ensures View() == ItemDelete(old(View()), i).(devs := View().devs)
      ensures Kicked(old(View()).devs, View().devs, old(items)[i])
      ensures Delisted(old(space.devices), space.devices, i, old(items)[i], !IsHeld(old(items), i))
    {
      hide InvBut, BlockSize, LruOk, AllShaped, Devices.Space.Valid, DevView, PlaceView, CountView, SameConf, Kicked,
        ItemDelete, Unlisted, Delisted, SpaceModel.Inv;
      ghost var v := View();
      OwnerServer(v, i);
      DeleteKeeps(v, i);
      var it := items[i];
      if !it.deleted {
        HashMarkers(v, i);
        LruHash(items, hash, hash - {it.key}, servers, shared);
        hash := hash - {it.key};
      }
      if it.used != 0 || it.putting {
        Mark(i, v);
      } else {
        RemoveNow(i, v);
      }
    }

    /** The item is out of the hash; `v` is the state before. */
    ghost predicate Unhashed(i: ItemId, v: State)
      reads this, space, space.buckets
    {
      && space.Valid() && space.placed == PlaceView(items) && LruOk(items, hash, servers, shared) && AllShaped(items)
      && i in items && items[i].key.server in servers && View() == v.(hash := hash) && items[i].key.server in v.counts
      && hash == (if items[i].deleted then v.hash else v.hash - {items[i].key})
      && Inv(ItemDelete(v, i))
    }

    /** server_item_delete for an item that a request holds: it is only marked. */
    method Mark(i: ItemId, ghost v: State)
      requires Unhashed(i, v) && IsHeld(items, i)
      modifies this`items
      ensures Valid() && Unlisted(servers, servers, shared, shared, i, false) && SameConf(servers, servers)
      ensures View() == ItemDelete(v, i).(devs := View().devs) && Kicked(v.devs, View().devs, old(items)[i])
      ensures Delisted(old(space.devices), space.devices, i, old(items)[i], false)
    {
      hide InvBut, BlockSize, LruOk, AllShaped, Devices.Space.Valid, DevView, PlaceView, CountView, SameConf, Kicked,
        ItemDelete, Unlisted, SpaceModel.Inv;
      var it := items[i].(deleted := true);
      MarkEffect(v, i);
      LruSame(items, items[i := it], hash, servers, shared);
      SamePlaces(items, i, it);
      SameConfSelf(servers);
      KickedSelf(v.devs, items[i]);
      UnlistedSelf(servers, shared, i);
      ShapedSame(items, i, it);
      items := items[i := it];
    }

    /** An item that nobody holds leaves its LRU list and the counters; `bsize` is the size of the
        block it had. */
    method Unlink(i: ItemId, bsize: nat)
      requires LruOk(items, hash, servers, shared) && AllShaped(items) && i in items && items[i].key.server in servers
      modifies this`items, this`servers, this`shared
      ensures LruOk(items, hash, servers, shared) && AllShaped(items) && SameConf(old(servers), servers)
      ensures Unlisted(old(servers), servers, old(shared), shared, i, true) && items == old(items) - {i}
      ensures PlaceView(items) == PlaceView(old(items)) - {i}
      ensures var it := old(items)[i]; var n := old(servers)[it.key.server].counts;
              CountView(servers) == CountView(old(servers))[it.key.server :=
                Counts(n.consumed - bsize, n.content - it.place.length, n.itemNr - 1, n.passbyNr)]
    {
      hide LruOk, Del, AllShaped, SameConf, Unlisted, PlaceView, CountView;
      var it := items[i];
      var s := it.key.server;
      var n := servers[s].counts;
      var counts := Counts(n.consumed - bsize, n.content - it.place.length, n.itemNr - 1, n.passbyNr);
      var server' := servers[s].(lru := Del(servers[s].lru, i), counts := counts);
      LruDrop(items, hash, servers, shared, i, server');
      UnlistedDel(items, hash, servers, shared, i, server');
      ShapedKept(items, i, it);
      CountViewUpdate(servers, s, server');
      PlaceViewUpdate(items, i, it);
      SameConfUpdate(servers, s, server');
      shared, servers, items := Del(shared, i), servers[s := server'], items - {i};
    }

    /** Second half of server_item_delete: nobody holds the item. */
    method RemoveNow(i: ItemId, ghost v: State)
      requires Unhashed(i, v) && !IsHeld(items, i)
      modifies this, space, space.buckets
      ensures Valid() && SameConf(old(servers), servers) && now == old(now)
      ensures Unlisted(old(servers), servers, old(shared), shared, i, true)
      ensures View() == ItemDelete(v, i).(devs := View().devs) && Kicked(v.devs, View().devs, old(items)[i])
      ensures Delisted(old(space.devices), space.devices, i, old(items)[i], true)
    {
      hide InvBut, BlockSize, LruOk, AllShaped, Devices.Space.Valid, DevView, SameConf, Kicked, ItemDelete, Unlisted,
        CountView, Devices.SameStatus, Devices.Covered, Devices.Unqueued, Reaches, SpaceModel.Inv;
      GoneEffect(v, i);
      CountViewAt(servers, items[i].key.server);
      var it := items[i];
      ghost var devices := space.devices;
      var bsize := space.ReturnFreeBlock(i, it.badblock, badblockPercent);
      hide PlaceView;
      ReturnedView(devices, space.devices, it);
      assert Delisted(devices, space.devices, i, it, true);
      hide Delisted;
      Unlink(i, bsize);
      KickKeeps(ItemDelete(v, i), View().devs, it);
    }

    /** server_item_delete as the handlers and the eviction loops call it. */
    method Delete(i: ItemId)
      requires Valid() && i in items
      modifies this, space, space.buckets
      ensures Valid() && SameConf(old(servers), servers) && now == old(now)
              && Unlisted(old(servers), servers, old(shared), shared, i, !IsHeld(old(items), i))
      ensures Evicted(old(View()), View())
      ensures OthersKept(old(items), items, i)
      ensures hash == if old(items)[i].deleted then old(hash) else old(hash) - {old(items)[i].key}
      ensures IsHeld(old(items), i) <==> i in items
      ensures IsHeld(old(items), i) ==> items[i] == old(items)[i].(deleted := true)
      ensures Delisted(old(space.devices), space.devices, i, old(items)[i], !IsHeld(old(items), i))
    {
      hide InvBut, BlockSize, LruOk, AllShaped, Devices.Space.Valid, DevView, PlaceView, SameConf, Kicked,
        ItemDelete, Evicted, OthersKept, Unlisted, Delisted;
      ghost var v := View();
      InvButAny(v, i);
      LruMember(items, hash, servers, shared, 0, i);
      Remove(i);
      DeleteEvicts(v, View(), i);
    }

    /** server_passby_item_delete */
    method DeletePassby(k: Key)
      requires Valid() && k in hash && hash[k].Passby? && k.server in servers
      modifies this
      ensures Valid() && SameConf(old(servers), servers) && now == old(now)
      ensures items == old(items) && hash == old(hash) - {k}
      ensures k.server in servers && servers[k.server].passbyLru == Del(old(servers)[k.server].passbyLru, k)
      ensures servers[k.server].lru == old(servers)[k.server].lru && shared == old(shared)
      ensures Evicted(old(View()), View())
    {
      hide InvBut, BlockSize, LruOk, AllShaped, Devices.Space.Valid, DevView, PlaceView, SameConf, Evicted,
        CountView, Del;
      ghost var v := View();
      var n := servers[k.server].counts;
      var server' := servers[k.server].(passbyLru := Del(servers[k.server].passbyLru, k),
          counts := n.(passbyNr := n.passbyNr - 1));
      LruDropMarker(items, hash, servers, shared, k, server');
      SameConfUpdate(servers, k.server, server');
      CountViewUpdate(servers, k.server, server');
      CountViewAt(servers, k.server);
      DropPassbyKeeps(v, k);
      DropEvicts(v, k);
      hash := hash - {k};
      servers := servers[k.server := server'];
      assert View() == DropPassby(v, k);
    }

    /** server_item_valid */
    predicate ItemValid(i: ItemId)
      reads this, space
      requires i in items && items[i].key.server in servers && items[i].place.dev in space.devices
    {
      var it := items[i];
      && !space.devices[it.place.dev].deleted
      && !servers[it.key.server].deleted
      && it.clear == servers[it.key.server].clear
      && it.expire > now
    }

    /** First loop of server_item_expire: the least recently used items go first. The first `cut`
        items of the list stay as they are; of those behind, only items in use are left. The loop
        ends at a valid item once `target` bytes are freed, at the limit, or at the front. */
    method ExpireItems(s: nat, target: int) returns (count: nat, ghost cut: nat)
      requires Valid() && s in servers
      modifies this, space, space.buckets
      ensures Valid() && SameConf(old(servers), servers) && now == old(now) && s in servers
      ensures Evicted(old(View()), View())
      ensures cut <= |old(servers)[s].lru| && Trimmed(items, old(servers)[s].lru, servers[s].lru, cut)
      ensures servers[s].passbyLru == old(servers)[s].passbyLru
      ensures cut > 0 ==> count >= Devices.LOOP_LIMIT
                          || (old(servers)[s].counts.consumed - servers[s].counts.consumed >= target
                               && ItemServable(servers[s].lru[cut - 1]))
    {
      hide InvBut, BlockSize, LruOk, AllShaped, Devices.Space.Valid, DevView, CountView, PlaceView, SameConf,
        Evicted, OthersKept, HeldFrom, Unlisted;
      var before := servers[s].counts.consumed;
      count := 0;
      EvictedSelf(View());
      SameConfSelf(servers);
      var idx := |servers[s].lru|;
      HeldNone(items, servers[s].lru);
      while idx > 0
        invariant Valid() && SameConf(old(servers), servers) && now == old(now) && s in servers
        invariant Evicted(old(View()), View())
        invariant 0 <= idx <= |old(servers)[s].lru| && idx <= |servers[s].lru|
        invariant HeldFrom(items, servers[s].lru, idx) && servers[s].lru[..idx] == old(servers)[s].lru[..idx]
        invariant servers[s].passbyLru == old(servers)[s].passbyLru
        decreases idx
      {
        var i := servers[s].lru[idx - 1];
        LruMember(items, hash, servers, shared, s, i);
        PlacedOn(View(), i);
        DevViewAt(space.devices, 0);
        if before - servers[s].counts.consumed >= target && ItemValid(i) {
          TrimmedAt(items, old(servers)[s].lru, servers[s].lru, idx);
          return count, idx;
        }
        ghost var v, old', items', shared' := View(), servers, items, shared;
        ListsNoDup(items, hash, servers, shared);
        Delete(i);
        EvictedTrans(old(View()), v, View());
        SameConfTrans(old(servers), old', servers);
        SameConfKeys(old', servers);
        UnlistedAt(old', servers, shared', shared, i, !IsHeld(items', i), s);
        HeldStep(items', items, old'[s].lru, servers[s].lru, idx);
        PrefixStep(old(servers)[s].lru, old'[s].lru, servers[s].lru, idx);
        idx := idx - 1;
        if count >= Devices.LOOP_LIMIT {
          break;
        }
        count := count + 1;
      }
      TrimmedAt(items, old(servers)[s].lru, servers[s].lru, idx);
      cut := idx;
    }

    /** server_item_expire: items first, then the oldest markers, until one is met that is neither
        expired nor too many. The two loops share the limit. */
    method ItemExpire(s: nat, target: int) returns (ghost cut: nat, ghost count: nat)
      requires Valid() && s in servers
      modifies this, space, space.buckets
      ensures Valid() && SameConf(old(servers), servers) && now == old(now) && s in servers
      ensures Evicted(old(View()), View())
      ensures cut <= |old(servers)[s].lru| && Trimmed(items, old(servers)[s].lru, servers[s].lru, cut)
      ensures var q := servers[s].passbyLru;
              && q <= old(servers)[s].passbyLru
              && (q != [] ==> count >= Devices.LOOP_LIMIT
                              || (servers[s].conf.passbyEnable
                                   && servers[s].counts.passbyNr < servers[s].conf.passbyLimitNr
                                  && q[|q| - 1] in hash && hash[q[|q| - 1]].Passby? && hash[q[|q| - 1]].expire > now))
    {
      hide InvBut, BlockSize, LruOk, AllShaped, Devices.Space.Valid, DevView, CountView, PlaceView, SameConf,
        Evicted, Trimmed, Del;
      var n: nat;
      n, cut := ExpireItems(s, target);
      SameConfKeys(old(servers), servers);
      var idx := |servers[s].passbyLru|;
      while idx > 0
        invariant Valid() && SameConf(old(servers), servers) && now == old(now) && s in servers
        invariant Evicted(old(View()), View())
        invariant Trimmed(items, old(servers)[s].lru, servers[s].lru, cut)
        invariant 0 <= idx == |servers[s].passbyLru| && servers[s].passbyLru <= old(servers)[s].passbyLru
        decreases idx
      {
        var k := servers[s].passbyLru[idx - 1];
        MarkerMember(items, hash, servers, shared, s, k);
        LastMarker(items, hash, servers, shared, s);
        var conf := servers[s].conf;
        if conf.passbyEnable && servers[s].counts.passbyNr < conf.passbyLimitNr && hash[k].expire > now {
          return cut, n;
        }
        ghost var v, old' := View(), servers;
        DeletePassby(k);
        EvictedTrans(old(View()), v, View());
        SameConfTrans(old(servers), old', servers);
        SameConfKeys(old', servers);
        idx := idx - 1;
        if n >= Devices.LOOP_LIMIT {
          break;
        }
        n := n + 1;
      }
      count := n;
    }

    /** server_shared_expire; `size` and `count` are the loop's own counters. */
    method SharedExpire(target: int) returns (ghost size: int, ghost count: nat, ghost cut: nat)
      requires Valid()
      modifies this, space, space.buckets
      ensures Valid() && SameConf(old(servers), servers) && now == old(now)
      ensures Evicted(old(View()), View())
      ensures cut <= |old(shared)| && Trimmed(items, old(shared), shared, cut)
      ensures cut > 0 ==> count >= Devices.LOOP_LIMIT || (size >= target && ItemServable(shared[cut - 1]))
    {
      hide InvBut, BlockSize, LruOk, AllShaped, Devices.Space.Valid, DevView, CountView, PlaceView, SameConf,
        Evicted, OthersKept, HeldFrom, Unlisted;
      var freed, n := 0, 0;
      EvictedSelf(View());
      SameConfSelf(servers);
      var idx := |shared|;
      HeldNone(items, shared);
      while idx > 0
        invariant Valid() && SameConf(old(servers), servers) && now == old(now)
        invariant Evicted(old(View()), View())
        invariant 0 <= idx <= |old(shared)| && idx <= |shared|
        invariant HeldFrom(items, shared, idx) && shared[..idx] == old(shared)[..idx]
        decreases idx
      {
        var i := shared[idx - 1];
        LruMember(items, hash, servers, shared, 0, i);
        PlacedOn(View(), i);
        DevViewAt(space.devices, 0);
        if freed >= target && ItemValid(i) {
          TrimmedAt(items, old(shared), shared, idx);
          return freed, n, idx;
        }
        freed := freed + items[i].place.length;
        ghost var v, old', items', shared' := View(), servers, items, shared;
        ListsNoDup(items, hash, servers, shared);
        Delete(i);
        EvictedTrans(old(View()), v, View());
        SameConfTrans(old(servers), old', servers);
        UnlistedAt(old', servers, shared', shared, i, !IsHeld(items', i), 0);
        HeldStep(items', items, shared', shared, idx);
        PrefixStep(old(shared), shared', shared, idx);
        idx := idx - 1;
        if n >= Devices.LOOP_LIMIT {
          break;
        }
        n := n + 1;
      }
      TrimmedAt(items, old(shared), shared, idx);
      size, count, cut := freed, n, idx;
    }

    /** A hit in server_request_get_handler: take hold of the item and move it to the front. */
    method Acquire(r: ReqId, i: ItemId, plan: seq<Range>)
      requires Valid() && r !in reqs && i in items && items[i].key.server in servers
               && items[i].place.dev in space.devices
      requires Enabled(View(), DoHit(r, i, plan))
      modifies this, space`devices
      ensures Valid() && SameConf(old(servers), servers) && now == old(now)
      ensures View() == Hit(old(View()), r, i, plan)
      ensures Fronted(old(servers), servers, old(shared), shared, old(items)[i].key.server, i)
    {
      hide InvBut, BlockSize, LruOk, Del, Shaped, Devices.Space.Valid, DevView, CountView, PlaceView, SameConf,
        Enabled, SpaceModel.Inv;
      ghost var v := View();
      LifeSteps.HitKeeps(v, r, i, plan);
      var it := items[i];
      var d, s := it.place.dev, it.key.server;
      DevViewAt(space.devices, d);
      space.Hold(d);
      DevViewUpdate(old(space.devices), d, space.devices[d]);
      var it' := it.(used := it.used + 1);
      var own := servers[s].conf.capacity != 0;
      var server' := servers[s].(lru := (if own then [i] else []) + Del(servers[s].lru, i));
      LruTouch(items, hash, servers, shared, i, it', own, server');
      CountViewSame(servers, s, server');
      SamePlaces(items, i, it');
      SameConfUpdate(servers, s, server');
      ShapedKept(items, i, it');
      shared := (if own then [] else [i]) + Del(shared, i);
      servers := servers[s := server'];
      items := items[i := it'];
      reqs := reqs[r := Get(i, plan, 0, 0, [], false)];
    }

    /** Moves a marker to the front of its list. */
    method TouchMarker(k: Key)
      requires Valid() && k in hash && hash[k].Passby? && k.server in servers
      modifies this`servers
      ensures Valid() && SameConf(old(servers), servers) && View() == old(View())
      ensures k.server in servers && servers[k.server].passbyLru == [k] + Del(old(servers)[k.server].passbyLru, k)
    {
      hide InvBut, BlockSize, LruOk, Del, AllShaped, Devices.Space.Valid, DevView, CountView, PlaceView, SameConf;
      var server' := servers[k.server].(passbyLru := [k] + Del(servers[k.server].passbyLru, k));
      LruTouchMarker(items, hash, servers, shared, k, server');
      SameConfUpdate(servers, k.server, server');
      CountViewSame(servers, k.server, server');
      servers := servers[k.server := server'];
    }

    /** server_request_get_handler: a hit exactly when the key names an item that is completely
        stored and still valid. The plan of the response depends on what the request wants. */
    method GetHandler(r: ReqId, key: Key, want: Want) returns (hit: bool)
      requires Valid() && r !in reqs && key.server in servers && WantOk(want)
      modifies this, space, space.buckets
      ensures Valid() && SameConf(old(servers), servers) && now == old(now)
      ensures hit <==> key in old(hash) && old(hash)[key].ItemEntry? && old(hash)[key].item in old(items)
                       && !old(items)[old(hash)[key].item].putting && old(ItemServable(hash[key].item))
      ensures hit ==> var i := old(hash)[key].item;
                      var it := old(items)[i];
                      Shaped(it.place.length, it.headersLen)
                      && View() == Hit(old(View()), r, i, Plan(want, it.place.length, it.headersLen))
                      && Fronted(old(servers), servers, old(shared), shared, key.server, i)
      ensures !hit ==> if key in old(hash) && old(hash)[key].ItemEntry? && old(hash)[key].item in old(items)
                          && !old(items)[old(hash)[key].item].putting
                       then hash == old(hash) - {key} && OthersKept(old(items), items, old(hash)[key].item)
                            && Evicted(old(View()), View())
                       else View() == old(View())
      ensures Reaches(old(View()), View())
    {
      hide InvBut, BlockSize, LruOk, Shaped, Devices.Space.Valid, DevView, CountView, PlaceView, SameConf, Evicted,
        Plan, Hit, OthersKept, Unlisted, Fronted;
      EvictedSelf(View());
      EvictedReaches(View(), View());
      SameConfSelf(servers);
      if key !in hash {
        return false;
      }
      if hash[key].Passby? {
        TouchMarker(key);
        return false;
      }
      var i := hash[key].item;
      FoundItem(View(), key);
      DevViewAt(space.devices, items[i].place.dev);
      if items[i].deleted || items[i].putting {
        return false;
      }
      if !ItemValid(i) {
        ghost var v := View();
        Delete(i);
        EvictedReaches(v, View());
        return false;
      }
      var plan := Plan(want, items[i].place.length, items[i].headersLen);
      HitStep(View(), r, i, plan);
      Acquire(r, i, plan);
      return true;
    }

    /** server_item_valid for an item that may be gone. */
    predicate ItemServable(i: ItemId)
      reads this, space
    {
      i in items && items[i].key.server in servers && items[i].place.dev in space.devices && ItemValid(i)
    }

    /** server_request_delete_handler */
    method DeleteHandler(key: Key) returns (found: bool)
      requires Valid() && key.server in servers
      modifies this, space, space.buckets
      ensures Valid() && SameConf(old(servers), servers) && now == old(now)
      ensures found <==> key in old(hash)
      ensures hash == old(hash) - {key}
      ensures found && old(hash)[key].ItemEntry? ==> OthersKept(old(items), items, old(hash)[key].item)
      ensures !found || old(hash)[key].Passby? ==> items == old(items)
      ensures Evicted(old(View()), View())
    {
      hide InvBut, BlockSize, LruOk, AllShaped, Devices.Space.Valid, DevView, CountView, PlaceView, SameConf,
        Evicted, OthersKept, Unlisted;
      EvictedSelf(View());
      SameConfSelf(servers);
      if key !in hash {
        return false;
      }
      if hash[key].Passby? {
        DeletePassby(key);
      } else {
        FoundItem(View(), key);
        Delete(hash[key].item);
      }
      return true;
    }

    /** First half of server_request_finalize: the request lets go of its item. */
    method LetGoItem(r: ReqId)
      requires Valid() && r in reqs && CanFinalize(View(), r)
      modifies this`reqs, this`items, space`devices
      ensures Pending({old(reqs)[r].item}) && View() == LetGo(old(View()), r)
    {
      hide InvBut, BlockSize, LruOk, AllShaped, Shaped, Devices.Space.Valid, DevView, CountView, PlaceView,
        SpaceModel.Inv;
      LetGoKeeps(View(), r);
      var q := reqs[r];
      var i := q.item;
      var it := items[i];
      DevViewAt(space.devices, it.place.dev);
      reqs := reqs - {r};
      space.Release(it.place.dev);
      DevViewUpdate(old(space.devices), it.place.dev, space.devices[it.place.dev]);
      var it' := if it.putting then it.(putting := false) else it.(used := it.used - 1);
      if q.diskError {
        it' := it'.(badblock := true);
      }
      LruSame(items, items[i := it'], hash, servers, shared);
      SamePlaces(items, i, it');
      ShapedSame(items, i, it');
      items := items[i := it'];
    }

    /** server_request_finalize: an item that was deleted meanwhile, had a disk error, or was not
        stored completely goes now. */
    method FinalizeRequest(r: ReqId)
      requires Valid() && r in reqs
      modifies this, space, space.buckets
      ensures Valid() && SameConf(old(servers), servers) && now == old(now)
      ensures CanFinalize(old(View()), r)
      ensures View() == Finalize(old(View()), r).(devs := View().devs)
      ensures Kicked(Finalize(old(View()), r).devs, View().devs, LetGo(old(View()), r).items[old(reqs)[r].item])
      ensures Reaches(old(View()), View())
    {
      hide InvBut, BlockSize, LruOk, AllShaped, Devices.Space.Valid, DevView, CountView, PlaceView, SameConf, Kicked,
        Unlisted, ItemDelete, Finalize;
      ghost var v := View();
      Holding(v, r);
      FinalizeKeeps(v, r);
      FinalizeDevs(v, r);
      var q := reqs[r];
      var i := q.item;
      var unfinished := items[i].putting && q.processed < items[i].place.length;
      var gone := q.diskError || items[i].deleted || unfinished;
      SameConfSelf(servers);
      LetGoItem(r);
      ghost var it := items[i];
      LruMember(items, hash, servers, shared, 0, i);
      if gone {
        Remove(i);
      } else {
        KickedSelf(View().devs, it);
      }
      FinalizeStep(v, r, View().devs, it);
    }

    /** request_write_disk for a request that stores its item; on a failing pwrite `torn` is
        what reached the disk. */
    method WriteDisk(r: ReqId, data: seq<Byte>, ok: bool, torn: seq<Byte>)
      requires Valid() && CanWrite(View(), r, data) && |torn| <= |data|
      modifies this`disk, this`items, this`reqs
      ensures Valid()
      ensures ok ==> View() == Write(old(View()), r, data)
      ensures !ok ==> CanWrite(old(View()), r, torn) && View() == WriteFail(old(View()), r, torn)
      ensures Reaches(old(View()), View())
    {
      hide InvBut, BlockSize, LruOk, Shaped, Devices.Space.Valid, DevView, CountView, PlaceView, WriteAt;
      ghost var v := View();
      var q := reqs[r];
      var it := items[q.item];
      var d := it.place.dev;
      if ok {
        LifeSteps.WriteKeeps(v, r, data);
        WriteStep(v, r, data);
        var it' := it.(image := it.image + data);
        LruSame(items, items[q.item := it'], hash, servers, shared);
        SamePlaces(items, q.item, it');
        ShapedKept(items, q.item, it');
        disk := disk[d := WriteAt(disk[d], it.place.offset + q.processed, data)];
        items := items[q.item := it'];
        reqs := reqs[r := Put(q.item, q.processed + |data|, false)];
      } else {
        LifeSteps.WriteKeeps(v, r, torn);
        WriteStep(v, r, torn);
        disk := disk[d := WriteAt(disk[d], it.place.offset + q.processed, torn)];
        reqs := reqs[r := Put(q.item, q.processed, true)];
      }
    }

    /** request_send_file when sendfile moved n bytes. */
    method SendFile(r: ReqId, n: nat)
      requires Valid() && r in reqs && reqs[r].Get? && reqs[r].at < |reqs[r].plan|
               && reqs[r].done + n <= reqs[r].plan[reqs[r].at].len
      modifies this`reqs
      ensures Valid() && CanSend(old(View()), r, n) && View() == Send(old(View()), r, n)
      ensures Reaches(old(View()), View())
    {
      hide InvBut, BlockSize, LruOk, AllShaped, Devices.Space.Valid, DevView, CountView, PlaceView, Slice;
      ghost var v := View();
      MaySend(v, r, n);
      LifeSteps.SendKeeps(v, r, n);
      SendReaches(v, r, n);
      var q := reqs[r];
      var it := items[q.item];
      var z := q.plan[q.at];
      var bytes := Slice(disk[it.place.dev], it.place.offset + z.start + q.done, n);
      if q.done + n == z.len {
        reqs := reqs[r := q.(at := q.at + 1, done := 0, sent := q.sent + bytes)];
      } else {
        reqs := reqs[r := q.(done := q.done + n, sent := q.sent + bytes)];
      }
    }

    /** request_put_read_request_body for a request that stores its item: whatever arrives, only
        bytes that fit into the item are written, each directly behind the ones before. */
    method PutBody(r: ReqId, events: seq<Recv>) returns (res: BodyResult, used: nat)
      requires Valid() && r in reqs && reqs[r].Put? && !reqs[r].diskError
      requires forall k :: 0 <= k < |events| && events[k].Data? ==> |events[k].torn| <= |events[k].bytes|
      modifies this`disk, this`items, this`reqs
      ensures Valid() && Reaches(old(View()), View())
      ensures used <= |events|
      ensures r in reqs && reqs[r].Put? && reqs[r].item == old(reqs)[r].item && reqs[r].item in items
              && reqs[r].item in old(items)
      ensures items[reqs[r].item].place == old(items)[reqs[r].item].place
      ensures items[reqs[r].item].headersLen == old(items)[reqs[r].item].headersLen
      ensures res == Complete <==> reqs[r].processed >= items[reqs[r].item].place.length && !reqs[r].diskError
      ensures res == DiskError <==> reqs[r].diskError
      ensures res != DiskError ==> items[reqs[r].item].image == old(items)[reqs[r].item].image + Arrived(events[..used])
    {
      hide InvBut, BlockSize, LruOk, AllShaped, Devices.Space.Valid, DevView, CountView, PlaceView, Reaches,
        SpaceModel.Inv;
      Holding(View(), r);
      ReachesSelf(View());
      var i := reqs[r].item;
      used := 0;
      while reqs[r].processed < items[i].place.length
        invariant Valid() && Reaches(old(View()), View())
        invariant used <= |events| && r in reqs && reqs[r].Put? && !reqs[r].diskError && reqs[r].item == i && i in items
        invariant items[i].place == old(items)[i].place && items[i].headersLen == old(items)[i].headersLen
        invariant items[i].image == old(items)[i].image + Arrived(events[..used])
        decreases |events| - used
      {
        if used == |events| || events[used].WouldBlock? {
          return Again, used;
        }
        if events[used].Broken? {
          return Lost, used;
        }
        var e := events[used];
        if |e.bytes| > items[i].place.length - reqs[r].processed {
          return TooLong, used;
        }
        ghost var v := View();
        MayWrite(v, r, e.bytes);
        WriteDisk(r, e.bytes, e.diskOk, e.torn);
        ReachesTrans(old(View()), v, View());
        if !e.diskOk {
          return DiskError, used;
        }
        ArrivedNext(events, used);
        used := used + 1;
      }
      res := Complete;
    }

    /** server_passby_store: with the filter on and the server full enough, the first store of a
        key only leaves a marker. */
    method PassbyStore(key: Key) returns (stored: bool)
      requires Valid() && key !in hash && key.server in servers
      modifies this`hash, this`servers
      ensures Valid() && SameConf(old(servers), servers)
      ensures var s := old(servers)[key.server];
              stored <==>
                  && s.conf.passbyEnable && s.counts.itemNr >= s.conf.passbyBeginItemNr
                  && s.counts.consumed >= s.conf.passbyBeginConsumed
      ensures stored ==>
              && key.server in old(View()).counts
              && View() == StorePassby(old(View()), key, now + servers[key.server].conf.passbyExpire)
      ensures !stored ==> View() == old(View())
      ensures stored ==>
              key.server in servers && servers[key.server].passbyLru == [key] + old(servers)[key.server].passbyLru
      ensures Reaches(old(View()), View())
    {
      hide InvBut, BlockSize, LruOk, AllShaped, Devices.Space.Valid, DevView, CountView, PlaceView, SameConf,
        Reaches, SpaceModel.Inv;
      var server := servers[key.server];
      var conf, n := server.conf, server.counts;
      SameConfSelf(servers);
      ReachesSelf(View());
      if !conf.passbyEnable || n.itemNr < conf.passbyBeginItemNr || n.consumed < conf.passbyBeginConsumed {
        return false;
      }
      var server' := server.(passbyLru := [key] + server.passbyLru, counts := n.(passbyNr := n.passbyNr + 1));
      CountViewAt(servers, key.server);
      CountViewUpdate(servers, key.server, server');
      PassbyKeeps(View(), key, now + conf.passbyExpire);
      PassbyStep(View(), key, now + conf.passbyExpire);
      LruPushMarker(items, hash, servers, shared, key, now + conf.passbyExpire, server');
      SameConfUpdate(servers, key.server, server');
      SameConfKeys(servers, servers[key.server := server']);
      hash := hash[key := Passby(now + conf.passbyExpire)];
      servers := servers[key.server := server'];
      return true;
    }

    /** device_delete_item: delete the item at a neighbouring entry unless it is in use. */
    method DeleteNeighbour(n: Layout.Node)
      requires Valid() && (n.ItemNode? ==> n.id in items)
      modifies this, space, space.buckets
      ensures Valid() && SameConf(old(servers), servers) && now == old(now)
      ensures Evicted(old(View()), View())
      ensures n.ItemNode? ==> OthersKept(old(items), items, n.id)
      ensures n.FreeNode? ==> items == old(items)
    {
      hide InvBut, BlockSize, LruOk, AllShaped, Devices.Space.Valid, DevView, CountView, PlaceView, SameConf,
        Evicted, Unlisted, OthersKept;
      EvictedSelf(View());
      SameConfSelf(servers);
      if n.ItemNode? {
        OthersSelf(items, n.id);
        if !items[n.id].putting && items[n.id].used == 0 {
          Delete(n.id);
        }
      }
    }

    /** One round of device_free_block_extend around free block h. */
    method DeleteAround(h: Buckets.Handle)
      requires Valid() && h in space.blocks
      modifies this, space, space.buckets
      ensures Valid() && SameConf(old(servers), servers) && now == old(now)
      ensures Evicted(old(View()), View())
    {
      hide InvBut, BlockSize, LruOk, AllShaped, DevView, CountView, PlaceView, SameConf, Evicted, OthersKept,
        SpaceModel.Inv, Buckets.Filed, SpaceModel.Agree, SpaceSteps.Pos;
      ghost var c, v := space.View(), View();
      EvictedSelf(v);
      SameConfSelf(servers);
      SpaceSteps.BlockSectors(c, h);
      var d := space.blocks[h].dev;
      if space.devices[d].deleted {
        space.DeleteBlock(h);
        SameStatusView(old(space.devices), space.devices);
        return;
      }
      var order := space.devices[d].order;
      var k := SpaceSteps.Pos(order, Layout.FreeNode(h));
      var next := if k + 1 < |order| then order[k + 1] else Layout.FreeNode(h);
      if k > 0 {
        NodeLive(c, items, d, k - 1);
        if k + 1 < |order| {
          NodeLive(c, items, d, k + 1);
          Devices.OrderDistinct(c, d, k - 1, k + 1);
        }
        ghost var before := items;
        DeleteNeighbour(order[k - 1]);
        if k + 1 < |order| { StillLive(before, items, order[k - 1], next); }
      } else if k + 1 < |order| {
        NodeLive(c, items, d, k + 1);
      }
      ghost var w, mid := View(), servers;
      DeleteNeighbour(next);
      EvictedTrans(v, w, View());
      SameConfTrans(old(servers), mid, servers);
    }

    /** device_free_block_extend: make room by deleting the neighbours of a large free block.
        It reports success exactly when it stopped at a block that is large enough; a block that
        is large enough at the start is found at once. */
    method Extend(length: nat) returns (ok: bool)
      requires Valid() && 1 <= length <= FOUR_GB
      modifies this, space, space.buckets
      ensures Valid() && SameConf(old(servers), servers) && now == old(now)
      ensures Evicted(old(View()), View())
      ensures ok ==> exists h :: h in space.blocks && space.blocks[h].size >= BlockSize(length)
      ensures (exists h :: h in old(space.blocks) && old(space.blocks)[h].size >= BlockSize(length)) ==>
                ok && View() == old(View())
    {
      hide InvBut, BlockSize, LruOk, AllShaped, DevView, CountView, PlaceView, SameConf, Evicted, OthersKept,
        SpaceModel.Inv, Buckets.Filed;
      EvictedSelf(View());
      SameConfSelf(servers);
      var target, last, n := BlockSize(length), 0, 0;
      while n < Devices.LOOP_LIMIT
        invariant Valid() && SameConf(old(servers), servers) && now == old(now)
        invariant Evicted(old(View()), View())
        invariant n > 0 ==> !exists h :: h in old(space.blocks) && old(space.blocks)[h].size >= BlockSize(length)
        invariant n == 0 ==> View() == old(View()) && space.blocks == old(space.blocks)
        decreases Devices.LOOP_LIMIT - n
      {
        var top := space.buckets.Biggest();
        if top.None? {
          return false;
        }
        var h := top.value;
        SizesOf(space.View(), space.buckets.sizes);
        Buckets.BiggestDecides(space.buckets.sizes, h, length);
        if space.blocks[h].size >= target {
          return true;
        }
        if space.blocks[h].size == last {
          return false;
        }
        last := space.blocks[h].size;
        ghost var v, old' := View(), servers;
        DeleteAround(h);
        EvictedTrans(old(View()), v, View());
        SameConfTrans(old(servers), old', servers);
        n := n + 1;
      }
      return false;
    }

    /** A block was found for item i, which is not stored yet. */
    ghost predicate Allotted(i: ItemId, length: nat)
      reads this, space, space.buckets
    {
      && space.Valid() && InvBut(View(), {}) && LruOk(items, hash, servers, shared) && AllShaped(items)
      && i !in items && i in space.placed && space.placed == PlaceView(items)[i := space.placed[i]]
      && space.placed[i].length == length
      && space.placed[i].dev in space.devices && !space.devices[space.placed[i].dev].deleted
    }

    /** device_get_free_block for item i. */
    method TryBlock(i: ItemId, length: nat) returns (bsize: nat)
      requires Valid() && i !in items && 1 <= length <= FOUR_GB
      modifies space, space.buckets
      ensures View() == old(View())
      ensures bsize == 0 ==> Valid()
      ensures bsize != 0 ==> Allotted(i, length)
    {
      hide InvBut, BlockSize, LruOk, AllShaped, Devices.Space.Valid, DevView, CountView, Devices.SameStatus,
        Devices.NoneDeleted;
      bsize := space.GetFreeBlock(i, length);
      hide PlaceView;
      SameStatusView(old(space.devices), space.devices);
    }

    /** The allocation loop of server_request_put_handler: expire and extend in the source's order
        until a block is found or the tries are used up. */
    method Allocate(s: nat, i: ItemId, length: nat) returns (bsize: nat)
      requires Valid() && s in servers && i !in items && 1 <= length <= FOUR_GB
      modifies this, space, space.buckets
      ensures SameConf(old(servers), servers) && now == old(now)
      ensures Evicted(old(View()), View())
      ensures bsize == 0 ==> Valid()
      ensures bsize != 0 ==> Allotted(i, length)
    {
      hide InvBut, BlockSize, LruOk, AllShaped, Devices.Space.Valid, DevView, CountView, PlaceView, SameConf,
        Evicted;
      EvictedSelf(View());
      SameConfSelf(servers);
      var try := 0;
      while true
        invariant Valid() && SameConf(old(servers), servers) && now == old(now) && s in servers && i !in items
        invariant Evicted(old(View()), View())
        invariant try <= 15
        decreases 15 - try
      {
        bsize := TryBlock(i, length);
        if bsize != 0 {
          return;
        }
        ghost var v, srv := View(), servers;
        if try < 2 && servers[s].lru != [] && servers[s].counts.consumed + length * 2 > servers[s].conf.capacity {
          try := try + 1;
          ghost var cut, count := ItemExpire(s, length * 2);
        } else if try + 1 < 5 && shared != [] {
          try := try + 2;
          ghost var size, count, cut := SharedExpire(length * 2);
        } else if try + 2 < 9 && servers[s].lru != [] {
          try := try + 3;
          ghost var cut, count := ItemExpire(s, length * 2);
        } else if try + 3 < 12 {
          try := try + 4;
          var ok := Extend(length);
        } else {
          return 0;
        }
        EvictedTrans(old(View()), v, View());
        EvictedLess(v, View());
        SameConfTrans(old(servers), srv, servers);
        SameConfKeys(srv, servers);
      }
    }

    /** The new item goes to the head of its LRU list, into the hash and into the counters. */
    method Link(i: ItemId, it: Item)
      requires LruOk(items, hash, servers, shared) && AllShaped(items) && i !in items
      requires it.key !in hash && it.key.server in servers && Shaped(it.place.length, it.headersLen)
      modifies this`items, this`hash, this`servers, this`shared
      ensures LruOk(items, hash, servers, shared) && AllShaped(items) && SameConf(old(servers), servers)
      ensures it.key.server in servers && AtHead(servers, shared, it.key.server, i)
      ensures items == old(items)[i := it] && hash == old(hash)[it.key := ItemEntry(i)]
      ensures PlaceView(items) == PlaceView(old(items))[i := it.place]
      ensures var n := old(servers)[it.key.server].counts;
              CountView(servers) == CountView(old(servers))[it.key.server :=
                n.(consumed := n.consumed + BlockSize(it.place.length), content := n.content + it.place.length,
                    itemNr := n.itemNr + 1)]
    {
      hide LruOk, Shaped, CountView, PlaceView, SameConf, BlockSize, AllShaped;
      var s := it.key.server;
      var n, own := servers[s].counts, servers[s].conf.capacity != 0;
      var server' := servers[s].(lru := (if own then [i] + servers[s].lru else servers[s].lru),
                                 counts := n.(consumed := n.consumed + BlockSize(it.place.length),
                                     content := n.content + it.place.length,
                                              itemNr := n.itemNr + 1));
      LruCommit(items, hash, servers, shared, i, it, own, server');
      CountViewUpdate(servers, s, server');
      PlaceViewUpdate(items, i, it);
      SameConfUpdate(servers, s, server');
      ShapedKept(items, i, it);
      shared := if own then shared else [i] + shared;
      items, hash, servers := items[i := it], hash[it.key := ItemEntry(i)], servers[s := server'];
    }

    /** server_request_put_handler once a block was found: the item is entered everywhere. */
    method Commit(r: ReqId, i: ItemId, it: Item)
      requires Allotted(i, it.place.length) && it.place == space.placed[i] && it.key !in hash && r !in reqs
      requires it.key.server in servers && Shaped(it.place.length, it.headersLen)
      requires it.putting && !it.deleted && !it.badblock && it.used == 0 && it.image == []
      modifies this, space`devices
      ensures Valid() && SameConf(old(servers), servers) && now == old(now)
      ensures it.place.dev in old(View()).devs && it.key.server in old(View()).counts
      ensures View() == StartPut(old(View()), r, i, it)
      ensures it.key.server in servers && AtHead(servers, shared, it.key.server, i)
      ensures Reaches(old(View()), View())
    {
      hide InvBut, LruOk, Shaped, Devices.Space.Valid, DevView, CountView, PlaceView, SameConf, BlockSize, Overlap,
        AllShaped, Reaches, SpaceModel.Inv;
      ghost var v := View();
      SpaceInv(space);
      DevViewAt(space.devices, it.place.dev);
      CountViewAt(servers, it.key.server);
      CommitGood(v, space.View(), r, i, it);
      space.Hold(it.place.dev);
      DevViewUpdate(old(space.devices), it.place.dev, space.devices[it.place.dev]);
      Link(i, it);
      reqs := reqs[r := Put(i, 0, false)];
      log := log + [(it.key, i)];
    }

    /** The "check exist" part of server_request_put_handler: a marker, or an item the new one may
        replace, leaves the hash; a POST does not replace a valid item; the first store of a key
        may leave only a marker. `go` says that the item is to be stored. */
    method MakeWay(key: Key, isPut: bool) returns (go: bool)
      requires Valid() && key.server in servers
      modifies this, space, space.buckets
      ensures Valid() && SameConf(old(servers), servers) && now == old(now)
      ensures go <==> !old(Occupied(key, isPut)) && (key in old(hash) || !old(Screened(key.server)))
      ensures old(Occupied(key, isPut)) ==> key in old(hash)
      ensures go ==> Evicted(old(View()), View()) && key !in hash
      ensures !go && key in old(hash) ==> View() == old(View())
      ensures !go && key !in old(hash) ==>
              && key.server in old(View()).counts
              && View() == StorePassby(old(View()), key, now + servers[key.server].conf.passbyExpire)
      ensures Reaches(old(View()), View())
    {
      hide InvBut, BlockSize, LruOk, AllShaped, Devices.Space.Valid, DevView, CountView, PlaceView, SameConf,
        Evicted, OthersKept, Unlisted, Reaches, StorePassby;
      EvictedSelf(View());
      EvictedReaches(View(), View());
      SameConfSelf(servers);
      if key !in hash {
        var stored := PassbyStore(key);
        return !stored;
      }
      if hash[key].ItemEntry? {
        FoundItem(View(), key);
        DevViewAt(space.devices, items[hash[key].item].place.dev);
        if !isPut && ItemValid(hash[key].item) {
          return false;
        }
      }
      ghost var v := View();
      var found := DeleteHandler(key);
      EvictedReaches(v, View());
      return true;
    }

    /** The key names a valid item and the request is a POST. */
    predicate Occupied(key: Key, isPut: bool)
      reads this, space
    {
      !isPut && key in hash && hash[key].ItemEntry? && ItemServable(hash[key].item)
    }

    /** The filter of first stores is on for server s. */
    predicate Screened(s: nat)
      reads this
    {
      s in servers && servers[s].conf.passbyEnable
      && servers[s].counts.itemNr >= servers[s].conf.passbyBeginItemNr
         && servers[s].counts.consumed >= servers[s].conf.passbyBeginConsumed
    }

    /** The storing part of server_request_put_handler. */
    method Store(r: ReqId, key: Key, length: nat, headersLen: nat, expire: int) returns (stored: bool)
      requires Valid() && r !in reqs && key.server in servers && key !in hash && Shaped(length, headersLen)
               && length <= FOUR_GB
      modifies this, space, space.buckets
      ensures Valid() && SameConf(old(servers), servers) && now == old(now)
      ensures stored ==>
              && r in reqs && Entered(r, key, length, headersLen, expire) && reqs == old(reqs)[r := reqs[r]]
              && log == old(log) + [(key, reqs[r].item)]
      ensures !stored ==> Evicted(old(View()), View())
      ensures Reaches(old(View()), View())
    {
      hide InvBut, BlockSize, LruOk, AllShaped, Devices.Space.Valid, DevView, CountView, PlaceView, SameConf,
        Reaches, Evicted, StartPut, Allotted;
      ShapedPositive(length, headersLen);
      ghost var u := Unused(items.Keys);
      assert u !in items;
      var i: ItemId :| i !in items;
      var bsize := Allocate(key.server, i, length);
      EvictedReaches(old(View()), View());
      EvictedLess(old(View()), View());
      if bsize == 0 {
        return false;
      }
      SameConfKeys(old(servers), servers);
      AllottedPlace(this, i, length);
      var it := Item(key, space.placed[i], headersLen, expire, servers[key.server].clear, true, false, false, 0, []);
      ghost var v, srv := View(), servers;
      Commit(r, i, it);
      StartPutEffect(v, r, i, it);
      SameConfKeys(srv, servers);
      ReachesTrans(old(View()), v, View());
      SameConfTrans(old(servers), srv, servers);
      return true;
    }

    /** Request r is storing a new item under `key`, which the hash names. */
    ghost predicate Entered(r: ReqId, key: Key, length: nat, headersLen: nat, expire: int)
      reads this
    {
      && r in reqs && reqs[r] == Put(reqs[r].item, 0, false)
      && key in hash && hash[key] == ItemEntry(reqs[r].item)
      && key.server in servers && reqs[r].item in items && AtHead(servers, shared, key.server, reqs[r].item)
      && var it := items[reqs[r].item];
         it == Item(key, it.place, headersLen, expire, servers[key.server].clear, true, false, false, 0, [])
             && it.place.length == length
    }

    /** server_request_put_handler: which requests are declined, and why, is decided by the
        configuration, the clock and the hash alone; every other request stores its item or finds
        no space. */
    method PutHandler(r: ReqId, key: Key, isPut: bool, contentLength: nat, headersLen: nat, expire: int)
      returns (res: PutResult)
      requires Valid() && r !in reqs && key.server in servers
      requires Shaped(contentLength + headersLen, headersLen) && contentLength + headersLen < FOUR_GB
      modifies this, space, space.buckets
      ensures Valid() && SameConf(old(servers), servers) && now == old(now)
      ensures var first := Screen(old(servers)[key.server].conf, contentLength, headersLen, expire);
              if first != Stored then res == first
              else if old(Occupied(key, isPut)) then res == Exists
              else if key !in old(hash) && old(Screened(key.server)) then res == StoredPassby
              else res == Stored || res == NoSpace
      ensures res == Stored ==>
              && r in reqs
              && Entered(r, key, contentLength + headersLen, headersLen, Expiry(servers[key.server].conf, now, expire))
              && reqs == old(reqs)[r := reqs[r]] && log == old(log) + [(key, reqs[r].item)]
      ensures res == StoredPassby ==>
              && key.server in old(View()).counts
              && View() == StorePassby(old(View()), key, now + servers[key.server].conf.passbyExpire)
      ensures res == NoSpace ==> Evicted(old(View()), View())
      ensures res !in {Stored, StoredPassby, NoSpace} ==> View() == old(View())
      ensures Reaches(old(View()), View())
    {
      hide InvBut, BlockSize, LruOk, AllShaped, Devices.Space.Valid, DevView, CountView, PlaceView, SameConf,
        Reaches, Evicted, StorePassby, Shaped, Occupied, Screened, Entered, SpaceModel.Inv;
      ReachesSelf(View());
      SameConfSelf(servers);
      var conf := servers[key.server].conf;
      var first := Screen(conf, contentLength, headersLen, expire);
      if first != Stored {
        return first;
      }
      var existed := key in hash;
      var go := MakeWay(key, isPut);
      if !go {
        return if existed then Exists else StoredPassby;
      }
      ghost var v, srv := View(), servers;
      SameConfKeys(old(servers), servers);
      EvictedLess(old(View()), v);
      var stored := Store(r, key, contentLength + headersLen, headersLen, Expiry(conf, now, expire));
      ReachesTrans(old(View()), v, View());
      SameConfKeys(srv, servers);
      SameConfTrans(old(servers), srv, servers);
      if !stored {
        EvictedTrans(old(View()), v, View());
        return NoSpace;
      }
      return Stored;
    }
  }
}
