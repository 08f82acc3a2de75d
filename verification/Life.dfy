/** The life cycle of cached items (server.c with the request flow of request.c) as a transition
    system. A step is one action of the master thread or of a worker on one request; any
    interleaving is a run. Items carry, as history, the bytes their PUT has written. */
module Life {
  import opened SizeClass
  import SpaceModel

  newtype Byte = x: int | 0 <= x < 256
  type ItemId = nat
  type ReqId = nat
  type Place = SpaceModel.Place

  /** A hash id within one server's table. */
  datatype Key = Key(server: nat, id: nat)

  /** ohc_item_t, with `image`: the bytes written so far by the PUT that created it. */
  datatype Item = Item(
    key: Key, place: Place, headersLen: nat, expire: int, clear: nat,
    putting: bool, deleted: bool, badblock: bool, used: nat, image: seq<Byte>)

  /** What a hash node is: an item, or a body-less marker. */
  datatype Entry = ItemEntry(item: ItemId) | Passby(expire: int)

  /** A stretch of an item to be sent. */
  datatype Range = Range(start: nat, len: nat)

  /** In-flight requests that hold an item. A GET sends the ranges of its plan in turn:
      `at` is the current range, `done` is process_size within it. */
  datatype Req =
    | Put(item: ItemId, processed: nat, diskError: bool)
    | Get(item: ItemId, plan: seq<Range>, at: nat, done: nat, sent: seq<Byte>, diskError: bool)

  datatype Dev = Dev(capacity: nat, deleted: bool, used: nat, fdOpen: bool)

  /** s.consumed, s.content, s.item_nr and s.passby_item_nr */
  datatype Counts = Counts(consumed: int, content: int, itemNr: int, passbyNr: int)

  datatype State = State(
    items: map<ItemId, Item>,
    hash: map<Key, Entry>,
    reqs: map<ReqId, Req>,
    devs: map<nat, Dev>,
    disk: map<nat, seq<Byte>>,
    counts: map<nat, Counts>,
    log: seq<(Key, ItemId)>)

  // ---------- bytes ----------

  function Slice(s: seq<Byte>, o: nat, n: nat): seq<Byte>
    requires o + n <= |s|
  {
    s[o..o + n]
  }

  function WriteAt(s: seq<Byte>, o: nat, data: seq<Byte>): (r: seq<Byte>)
    requires o + |data| <= |s|
    ensures |r| == |s|
  {
    s[..o] + data + s[o + |data|..]
  }

  /** The bytes a plan denotes within an item's image. */
  function Expected(plan: seq<Range>, image: seq<Byte>): seq<Byte>
    requires forall k :: 0 <= k < |plan| ==> plan[k].start + plan[k].len <= |image|
  {
    if plan == [] then []
    else
      var z := plan[|plan| - 1];
      Expected(plan[..|plan| - 1], image) + Slice(image, z.start, z.len)
  }

  // ---------- operations ----------

  /** server_item_delete: out of the hash at once, gone for good when nobody holds it. */
  function ItemDelete(st: State, i: ItemId): State
    requires i in st.items && st.items[i].key.server in st.counts
  {
    var it := st.items[i];
    var hash := if it.deleted then st.hash else st.hash - {it.key};
    if it.used != 0 || it.putting then
      st.(hash := hash, items := st.items[i := it.(deleted := true)])
    else
      var n := st.counts[it.key.server];
      st.(hash := hash, items := st.items - {i},
          counts := st.counts[it.key.server :=
                                n.(consumed := n.consumed - BlockSize(it.place.length),
                                   content := n.content - it.place.length, itemNr := n.itemNr - 1)])
  }

  /** What server_request_finalize refers to is there and the counts it decrements are
      positive. Proved to hold of every request in every reachable state. */
  ghost predicate CanFinalize(st: State, r: ReqId) {
    && r in st.reqs && st.reqs[r].item in st.items
    && var it := st.items[st.reqs[r].item];
       && it.place.dev in st.devs && it.key.server in st.counts && st.devs[it.place.dev].used > 0
       && (st.reqs[r].Put? ==> it.putting) && (st.reqs[r].Get? ==> !it.putting && it.used > 0)
  }

  /** First half of server_request_finalize: the request lets go of its item. */
  function LetGo(st: State, r: ReqId): State
    requires CanFinalize(st, r)
  {
    var i := st.reqs[r].item;
    var it := st.items[i];
    var d := it.place.dev;
    var it' := if it.putting then it.(putting := false) else it.(used := it.used - 1);
    st.(reqs := st.reqs - {r},
        items := st.items[i := if st.reqs[r].diskError then it'.(badblock := true) else it'],
        devs := st.devs[d := st.devs[d].(used := st.devs[d].used - 1)])
  }

  /** server_request_finalize */
  function Finalize(st: State, r: ReqId): State
    requires CanFinalize(st, r)
  {
    var i := st.reqs[r].item;
    var unfinished := st.items[i].putting && st.reqs[r].processed < st.items[i].place.length;
    var st' := LetGo(st, r);
    if st.reqs[r].diskError || st.items[i].deleted || unfinished then ItemDelete(st', i) else st'
  }

  /** server_request_put_handler once a block was found. */
  function StartPut(st: State, r: ReqId, i: ItemId, it: Item): State
    requires it.place.dev in st.devs && it.key.server in st.counts
  {
    var d, n := it.place.dev, st.counts[it.key.server];
    st.(items := st.items[i := it], hash := st.hash[it.key := ItemEntry(i)], reqs := st.reqs[r := Put(i, 0, false)],
        devs := st.devs[d := st.devs[d].(used := st.devs[d].used + 1)],
        counts := st.counts[it.key.server :=
                              n.(consumed := n.consumed + BlockSize(it.place.length),
                                 content := n.content + it.place.length, itemNr := n.itemNr + 1)],
        log := st.log + [(it.key, i)])
  }

  /** request_write_disk: `data` goes behind what was already processed. */
  function Write(st: State, r: ReqId, data: seq<Byte>): State
    requires CanWrite(st, r, data)
  {
    var q := st.reqs[r];
    var it := st.items[q.item];
    var d := it.place.dev;
    st.(reqs := st.reqs[r := Put(q.item, q.processed + |data|, false)],
        items := st.items[q.item := it.(image := it.image + data)],
        disk := st.disk[d := WriteAt(st.disk[d], it.place.offset + q.processed, data)])
  }

  /** A failing pwrite: some bytes may have reached the disk, and the item is given up. */
  function WriteFail(st: State, r: ReqId, data: seq<Byte>): State
    requires CanWrite(st, r, data)
  {
    var q := st.reqs[r];
    var it := st.items[q.item];
    var d := it.place.dev;
    st.(reqs := st.reqs[r := Put(q.item, q.processed, true)],
        disk := st.disk[d := WriteAt(st.disk[d], it.place.offset + q.processed, data)])
  }

  /** The length checks of request_put_read_request_body keep every write inside the item. */
  ghost predicate CanWrite(st: State, r: ReqId, data: seq<Byte>) {
    && r in st.reqs && st.reqs[r].Put? && !st.reqs[r].diskError && st.reqs[r].item in st.items
    && var it := st.items[st.reqs[r].item];
       && it.place.dev in st.disk
       && st.reqs[r].processed + |data| <= it.place.length
       && it.place.offset + it.place.length <= |st.disk[it.place.dev]|
  }

  /** server_request_get_handler on a hit. */
  function Hit(st: State, r: ReqId, i: ItemId, plan: seq<Range>): State
    requires i in st.items && st.items[i].place.dev in st.devs
  {
    var it := st.items[i];
    var d := it.place.dev;
    st.(items := st.items[i := it.(used := it.used + 1)], reqs := st.reqs[r := Get(i, plan, 0, 0, [], false)],
        devs := st.devs[d := st.devs[d].(used := st.devs[d].used + 1)])
  }

  ghost predicate CanSend(st: State, r: ReqId, n: nat) {
    && r in st.reqs && st.reqs[r].Get? && st.reqs[r].item in st.items && st.reqs[r].at < |st.reqs[r].plan|
    && var q, it := st.reqs[r], st.items[st.reqs[r].item];
       && it.place.dev in st.disk
       && q.done + n <= q.plan[q.at].len
       && it.place.offset + q.plan[q.at].start + q.done + n <= |st.disk[it.place.dev]|
  }

  /** request_send_file: n more bytes of the current range, read from the device. */
  function Send(st: State, r: ReqId, n: nat): State
    requires CanSend(st, r, n)
  {
    var q := st.reqs[r];
    var it := st.items[q.item];
    var z := q.plan[q.at];
    var bytes := Slice(st.disk[it.place.dev], it.place.offset + z.start + q.done, n);
    var q' := if q.done + n == z.len then q.(at := q.at + 1, done := 0, sent := q.sent + bytes)
              else q.(done := q.done + n, sent := q.sent + bytes);
    st.(reqs := st.reqs[r := q'])
  }

  // ---------- the transition relation ----------

  datatype Step =
    | DoPassby(key: Key, expire: int)
    | DoDropPassby(key: Key)
    | DoPut(r: ReqId, i: ItemId, it: Item)
    | DoWrite(r: ReqId, data: seq<Byte>)
    | DoWriteFail(r: ReqId, data: seq<Byte>)
    | DoHit(r: ReqId, i: ItemId, plan: seq<Range>)
    | DoSend(r: ReqId, n: nat)
    | DoReadFail(r: ReqId)
    | DoFinalize(r: ReqId)
    | DoDelete(i: ItemId)
    | DoDeleteDevice(d: nat)
    | DoCloseFd(d: nat)
    | DoRemoveDevice(d: nat)
    | DoAddDevice(d: nat, data: seq<Byte>)

  ghost predicate Overlap(p: Place, q: Place) {
    p.dev == q.dev && p.offset < q.offset + BlockSize(q.length) && q.offset < p.offset + BlockSize(p.length)
  }

  ghost predicate PlaceOk(st: State, p: Place) {
    1 <= p.length <= FOUR_GB && p.dev in st.devs && p.offset + BlockSize(p.length) <= st.devs[p.dev].capacity
  }

  ghost predicate Enabled(st: State, s: Step) {
    match s
    case DoPassby(key, _) => key !in st.hash && key.server in st.counts
    case DoDropPassby(key) => key in st.hash && st.hash[key].Passby? && key.server in st.counts
    case DoPut(r, i, it) =>
      && r !in st.reqs && i !in st.items && it.key !in st.hash && it.key.server in st.counts
      && it.putting && !it.deleted && !it.badblock && it.used == 0 && it.image == []
      && PlaceOk(st, it.place) && !st.devs[it.place.dev].deleted
      && (forall j :: j in st.items ==> !Overlap(it.place, st.items[j].place))
    case DoWrite(r, data) => CanWrite(st, r, data)
    case DoWriteFail(r, data) => CanWrite(st, r, data)
    case DoHit(r, i, plan) =>
      && r !in st.reqs && i in st.items && st.items[i].key in st.hash && st.hash[st.items[i].key] == ItemEntry(i)
      && !st.items[i].putting && !st.items[i].deleted && st.items[i].place.dev in st.devs
         && !st.devs[st.items[i].place.dev].deleted
      && (forall k :: 0 <= k < |plan| ==> plan[k].start + plan[k].len <= st.items[i].place.length)
    case DoSend(r, n) => CanSend(st, r, n)
    case DoReadFail(r) => r in st.reqs && st.reqs[r].Get?
    case DoFinalize(r) => CanFinalize(st, r)
    case DoDelete(i) => i in st.items && st.items[i].key.server in st.counts
    case DoDeleteDevice(d) => d in st.devs
    case DoCloseFd(d) => d in st.devs && st.devs[d].deleted && st.devs[d].used == 0
    case DoRemoveDevice(d) => d in st.devs && st.devs[d].deleted && !st.devs[d].fdOpen
                              && forall i :: i in st.items ==> st.items[i].place.dev != d
    case DoAddDevice(d, _) => d !in st.devs
  }
}
