/** Values the cache object is made of beside the life-cycle state: servers with their LRU lists,
    and the views that connect the object to the transition system. */
module CacheModel {
  import opened Lists
  import opened Life
  import opened LifeRuns
  import Devices
  import SpaceModel

  /** Configuration of a server that the handlers consult. */
  datatype Conf = Conf(
    capacity: nat, itemMaxSize: nat, expireDefault: int, expireForce: int,
    passbyEnable: bool, passbyBeginItemNr: int, passbyBeginConsumed: int, passbyLimitNr: int, passbyExpire: int)

  /** ohc_server_t */
  datatype Server = Server(
    conf: Conf, counts: Counts, clear: nat, deleted: bool,
    lru: seq<ItemId>, passbyLru: seq<Key>)

  // ---------- views ----------

  ghost function DevView(devs: map<nat, SpaceModel.Device>): map<nat, Dev> {
    map d | d in devs :: Dev(devs[d].capacity, devs[d].deleted, devs[d].used, devs[d].fdOpen)
  }

  ghost function CountView(servers: map<nat, Server>): map<nat, Counts> {
    map s | s in servers :: servers[s].counts
  }

  ghost function PlaceView(items: map<ItemId, Item>): map<ItemId, Place> {
    map i | i in items :: items[i].place
  }

  lemma SameStatusView(a: map<nat, SpaceModel.Device>, b: map<nat, SpaceModel.Device>)
    requires Devices.SameStatus(a, b)
    ensures DevView(b) == DevView(a)
  {
  }

  lemma DevViewUpdate(a: map<nat, SpaceModel.Device>, d: nat, dev: SpaceModel.Device)
    ensures DevView(a[d := dev]) == DevView(a)[d := Dev(dev.capacity, dev.deleted, dev.used, dev.fdOpen)]
  {
  }

  lemma CountViewUpdate(a: map<nat, Server>, s: nat, v: Server)
    ensures CountView(a[s := v]) == CountView(a)[s := v.counts]
  {
  }

  lemma PlaceViewUpdate(items: map<ItemId, Item>, i: ItemId, it: Item)
    ensures PlaceView(items[i := it]) == PlaceView(items)[i := it.place]
    ensures PlaceView(items - {i}) == PlaceView(items) - {i}
  {
  }

  // ---------- LRU lists ----------

  /** Every live item stands in its server's LRU list or in the shared one; nothing else does. */
  ghost predicate ItemLru(items: map<ItemId, Item>, servers: map<nat, Server>, shared: seq<ItemId>) {
    && NoDup(shared)
    && (forall i :: i in shared ==> i in items)
    && (forall s :: s in servers ==> NoDup(servers[s].lru))
    && (forall s, i :: s in servers && i in servers[s].lru ==> i in items && items[i].key.server == s && i !in shared)
    && (forall i :: i in items ==>
         items[i].key.server in servers && (i in servers[items[i].key.server].lru || i in shared))
  }

  /** Every marker stands in its server's marker list; nothing else does. */
  ghost predicate MarkerLru(hash: map<Key, Entry>, servers: map<nat, Server>) {
    && (forall s :: s in servers ==> NoDup(servers[s].passbyLru))
    && (forall s, k :: s in servers && k in servers[s].passbyLru ==> k in hash && hash[k].Passby? && k.server == s)
    && (forall k :: k in hash && hash[k].Passby? ==> k.server in servers && k in servers[k.server].passbyLru)
  }

  ghost predicate LruOk(items: map<ItemId, Item>, hash: map<Key, Entry>, servers: map<nat, Server>,
      shared: seq<ItemId>) {
    ItemLru(items, servers, shared) && MarkerLru(hash, servers)
  }

  /** Same keys, so the same lists are right. */
  lemma LruSame(items: map<ItemId, Item>, items': map<ItemId, Item>, hash: map<Key, Entry>, servers: map<nat, Server>,
      shared: seq<ItemId>)
    requires LruOk(items, hash, servers, shared) && items'.Keys == items.Keys
    requires forall i :: i in items ==> items'[i].key == items[i].key
    ensures LruOk(items', hash, servers, shared)
  {
    hide NoDup;
  }

  /** Entries of items do not matter to the marker lists. */
  lemma LruHash(items: map<ItemId, Item>, hash: map<Key, Entry>, hash': map<Key, Entry>, servers: map<nat, Server>,
      shared: seq<ItemId>)
    requires LruOk(items, hash, servers, shared)
    requires forall k :: (k in hash && hash[k].Passby?) <==> (k in hash' && hash'[k].Passby?)
    ensures LruOk(items, hash', servers, shared)
  {
    hide NoDup;
  }

  /** A dead item leaves the list it stands in. */
  lemma LruDrop(items: map<ItemId, Item>, hash: map<Key, Entry>, servers: map<nat, Server>, shared: seq<ItemId>,
      i: ItemId, v: Server)
    requires LruOk(items, hash, servers, shared) && i in items
    requires v.lru == Del(servers[items[i].key.server].lru, i) && v.passbyLru == servers[items[i].key.server].passbyLru
    ensures LruOk(items - {i}, hash, servers[items[i].key.server := v], Del(shared, i))
  {
    hide NoDup, Del;
    DelFacts(shared, i);
    DelFacts(servers[items[i].key.server].lru, i);
    MarkersKept(hash, servers, items[i].key.server, v);
    hide MarkerLru;
  }

  lemma MarkersKept(hash: map<Key, Entry>, servers: map<nat, Server>, s: nat, v: Server)
    requires MarkerLru(hash, servers) && s in servers && v.passbyLru == servers[s].passbyLru
    ensures MarkerLru(hash, servers[s := v])
  {
    hide NoDup;
  }

  lemma ItemsKept(items: map<ItemId, Item>, servers: map<nat, Server>, shared: seq<ItemId>, s: nat, v: Server)
    requires ItemLru(items, servers, shared) && s in servers && v.lru == servers[s].lru
    ensures ItemLru(items, servers[s := v], shared)
  {
    hide NoDup;
  }

  /** A new item, or one just used, goes to the front of a list. */
  lemma LruPush(items: map<ItemId, Item>, hash: map<Key, Entry>, servers: map<nat, Server>, shared: seq<ItemId>,
                i: ItemId, it: Item, own: bool, v: Server)
    requires LruOk(items, hash, servers, shared) && i !in items && it.key.server in servers
    requires v.passbyLru == servers[it.key.server].passbyLru
    requires v.lru == if own then [i] + servers[it.key.server].lru else servers[it.key.server].lru
    ensures LruOk(items[i := it], hash, servers[it.key.server := v], if own then shared else [i] + shared)
  {
    MarkersKept(hash, servers, it.key.server, v);
    hide MarkerLru;
    if own {
      OwnPush(items, servers, shared, i, it, v);
    } else {
      SharedPush(items, servers, shared, i, it, v);
    }
  }

  lemma OwnPush(items: map<ItemId, Item>, servers: map<nat, Server>, shared: seq<ItemId>, i: ItemId, it: Item,
      v: Server)
    requires ItemLru(items, servers, shared) && i !in items && it.key.server in servers
             && v.lru == [i] + servers[it.key.server].lru
    ensures ItemLru(items[i := it], servers[it.key.server := v], shared)
  {
    hide NoDup;
    ConsFacts(servers[it.key.server].lru, i);
    var servers' := servers[it.key.server := v];
    forall s, j | s in servers' && j in servers'[s].lru
      ensures j in items[i := it] && items[i := it][j].key.server == s && j !in shared
    {
      if j != i { assert j in servers[s].lru; }
    }
  }

  lemma SharedPush(items: map<ItemId, Item>, servers: map<nat, Server>, shared: seq<ItemId>, i: ItemId, it: Item,
      v: Server)
    requires ItemLru(items, servers, shared) && i !in items && it.key.server in servers
             && v.lru == servers[it.key.server].lru
    ensures ItemLru(items[i := it], servers[it.key.server := v], [i] + shared)
  {
    hide NoDup;
    ConsFacts(shared, i);
  }

  lemma LruPushMarker(items: map<ItemId, Item>, hash: map<Key, Entry>, servers: map<nat, Server>, shared: seq<ItemId>,
      k: Key, e: int, v: Server)
    requires LruOk(items, hash, servers, shared) && k !in hash && k.server in servers
    requires v.lru == servers[k.server].lru && v.passbyLru == [k] + servers[k.server].passbyLru
    ensures LruOk(items, hash[k := Passby(e)], servers[k.server := v], shared)
  {
    hide NoDup;
    ConsFacts(servers[k.server].passbyLru, k);
    ItemsKept(items, servers, shared, k.server, v);
    hide ItemLru;
  }

  lemma LruDropMarker(items: map<ItemId, Item>, hash: map<Key, Entry>, servers: map<nat, Server>, shared: seq<ItemId>,
      k: Key, v: Server)
    requires LruOk(items, hash, servers, shared) && k in hash && hash[k].Passby?
    requires v.lru == servers[k.server].lru && v.passbyLru == Del(servers[k.server].passbyLru, k)
    ensures LruOk(items, hash - {k}, servers[k.server := v], shared)
  {
    hide NoDup, Del;
    DelFacts(servers[k.server].passbyLru, k);
    ItemsKept(items, servers, shared, k.server, v);
    hide ItemLru;
  }

  /** The list a server keeps its items in: its own if it has a capacity, else the shared one. */
  lemma LruTouch(items: map<ItemId, Item>, hash: map<Key, Entry>, servers: map<nat, Server>, shared: seq<ItemId>,
                 i: ItemId, it: Item, own: bool, v: Server)
    requires LruOk(items, hash, servers, shared) && i in items && it.key == items[i].key && it.key.server in servers
    requires v.passbyLru == servers[it.key.server].passbyLru
    requires v.lru == (if own then [i] else []) + Del(servers[it.key.server].lru, i)
    ensures LruOk(items[i := it], hash, servers[it.key.server := v], (if own then [] else [i]) + Del(shared, i))
  {
    hide NoDup, Del, LruOk;
    var s := it.key.server;
    var w := servers[s].(lru := Del(servers[s].lru, i));
    LruDrop(items, hash, servers, shared, i, w);
    LruPush(items - {i}, hash, servers[s := w], Del(shared, i), i, it, own, v);
    assert (items - {i})[i := it] == items[i := it];
    assert servers[s := w][s := v] == servers[s := v];
    if own {
      assert [] + Del(shared, i) == Del(shared, i);
    } else {
      assert [] + Del(servers[s].lru, i) == Del(servers[s].lru, i);
    }
  }

  lemma LruTouchMarker(items: map<ItemId, Item>, hash: map<Key, Entry>, servers: map<nat, Server>, shared: seq<ItemId>,
      k: Key, v: Server)
    requires LruOk(items, hash, servers, shared) && k in hash && hash[k].Passby? && k.server in servers
    requires v.lru == servers[k.server].lru && v.passbyLru == [k] + Del(servers[k.server].passbyLru, k)
    ensures LruOk(items, hash, servers[k.server := v], shared)
  {
    hide NoDup, Del, LruOk;
    var w := servers[k.server].(passbyLru := Del(servers[k.server].passbyLru, k));
    LruDropMarker(items, hash, servers, shared, k, w);
    LruPushMarker(items, hash - {k}, servers[k.server := w], shared, k, hash[k].expire, v);
    assert (hash - {k})[k := Passby(hash[k].expire)] == hash;
    assert servers[k.server := w][k.server := v] == servers[k.server := v];
  }

  // ---------- eviction ----------

  /** b comes from a by deleting things: nothing new, and no request is touched. */
  ghost predicate Evicted(a: State, b: State) {
    && Reaches(a, b)
    && b.items.Keys <= a.items.Keys && b.hash.Keys <= a.hash.Keys
    && b.reqs == a.reqs && b.log == a.log && b.disk == a.disk
    && b.devs.Keys == a.devs.Keys && b.counts.Keys == a.counts.Keys
    && forall d :: d in a.devs ==>
         b.devs[d].used == a.devs[d].used && b.devs[d].fdOpen == a.devs[d].fdOpen
             && (a.devs[d].deleted ==> b.devs[d].deleted)
  }

  /** Item i of server s goes to the head of the list it belongs in; nothing else moves. */
  ghost predicate Fronted(a: map<nat, Server>, b: map<nat, Server>, sa: seq<ItemId>, sb: seq<ItemId>, s: nat,
      i: ItemId) {
    && s in a && s in b
    && b[s].lru == (if a[s].conf.capacity != 0 then [i] else []) + Del(a[s].lru, i)
    && sb == (if a[s].conf.capacity != 0 then [] else [i]) + Del(sa, i)
    && forall t :: t in a && t in b && t != s ==> b[t].lru == a[t].lru
  }

  /** Item i is the most recently used one of its list. */
  predicate AtHead(servers: map<nat, Server>, shared: seq<ItemId>, s: nat, i: ItemId)
    requires s in servers
  {
    var q := if servers[s].conf.capacity != 0 then servers[s].lru else shared;
    q != [] && q[0] == i
  }

  lemma EvictedSelf(a: State)
    ensures Evicted(a, a)
  {
    hide Reaches;
    ReachesSelf(a);
  }

  lemma EvictedTrans(a: State, b: State, c: State)
    requires Evicted(a, b) && Evicted(b, c)
    ensures Evicted(a, c)
  {
    hide Reaches;
    ReachesTrans(a, b, c);
  }
}
