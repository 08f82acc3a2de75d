/** The invariant of the item life cycle, one predicate per concern. `pend` names the item whose
    request has just let go of it, between the two halves of server_request_finalize. */
module LifeInv {
  import opened Lists
  import opened SizeClass
  import opened Life

  // ---------- sums over maps ----------

  ghost function Sum(m: map<ItemId, nat>): nat {
    if m == map[] then 0 else var k :| k in m; m[k] + Sum(m - {k})
  }

  lemma {:induction false} SumRemove(m: map<ItemId, nat>, i: ItemId)
    requires i in m
    ensures Sum(m) == m[i] + Sum(m - {i})
    decreases |m|
  {
    var k :| k in m && Sum(m) == m[k] + Sum(m - {k});
    if k != i {
      SumRemove(m - {k}, i);
      SumRemove(m - {i}, k);
      assert m - {k} - {i} == m - {i} - {k};
    }
  }

  // ---------- placement ----------

  ghost predicate Placed(items: map<ItemId, Item>, devs: map<nat, Dev>, disk: map<nat, seq<Byte>>) {
    && disk.Keys == devs.Keys
    && (forall d :: d in devs ==> |disk[d]| == devs[d].capacity)
    && (forall i :: i in items ==>
          var p := items[i].place;
          1 <= p.length <= FOUR_GB && p.dev in devs && p.offset + BlockSize(p.length) <= devs[p.dev].capacity)
    && (forall i, j :: i in items && j in items && i != j ==> !Overlap(items[i].place, items[j].place))
  }

  // ---------- the hash holds exactly the undeleted items and the markers ----------

  ghost predicate Hashed(items: map<ItemId, Item>, hash: map<Key, Entry>) {
    && (forall k :: k in hash && hash[k].ItemEntry? ==>
          hash[k].item in items && items[hash[k].item].key == k && !items[hash[k].item].deleted)
    && (forall i :: i in items && !items[i].deleted ==> items[i].key in hash && hash[items[i].key] == ItemEntry(i))
  }

  // ---------- who holds what ----------

  ghost function Getters(reqs: map<ReqId, Req>, i: ItemId): set<ReqId> {
    set r | r in reqs && reqs[r].Get? && reqs[r].item == i
  }

  ghost function Putters(reqs: map<ReqId, Req>, i: ItemId): set<ReqId> {
    set r | r in reqs && reqs[r].Put? && reqs[r].item == i
  }

  ghost function Users(items: map<ItemId, Item>, reqs: map<ReqId, Req>, d: nat): set<ReqId> {
    set r | r in reqs && reqs[r].item in items && items[reqs[r].item].place.dev == d
  }

  ghost predicate Held(items: map<ItemId, Item>, reqs: map<ReqId, Req>, pend: set<ItemId>) {
    && (forall r :: r in reqs ==> reqs[r].item in items)
    && (forall i :: i in items ==> items[i].used == |Getters(reqs, i)|)
    && (forall i :: i in items ==> |Putters(reqs, i)| == if items[i].putting then 1 else 0)
    && (forall i :: i in items && items[i].putting ==> items[i].used == 0)
    && (forall i :: i in items && i !in pend && items[i].deleted ==> items[i].used > 0 || items[i].putting)
  }

  // ---------- what is on disk ----------

  ghost predicate OnDisk(it: Item, disk: map<nat, seq<Byte>>) {
    && |it.image| <= it.place.length && it.place.dev in disk
    && it.place.offset + it.place.length <= |disk[it.place.dev]|
    && Slice(disk[it.place.dev], it.place.offset, |it.image|) == it.image
  }

  ghost predicate Images(items: map<ItemId, Item>, reqs: map<ReqId, Req>, disk: map<nat, seq<Byte>>,
      pend: set<ItemId>) {
    && (forall i :: i in items ==> OnDisk(items[i], disk))
    && (forall i :: i in items && !items[i].putting && (i !in pend || items[i].used > 0)
         ==> |items[i].image| == items[i].place.length)
    && (forall r :: r in reqs && reqs[r].Put? && reqs[r].item in items
         ==> reqs[r].processed == |items[reqs[r].item].image|)
  }

  // ---------- what GETs have sent ----------

  ghost predicate Within(plan: seq<Range>, n: nat) {
    forall k :: 0 <= k < |plan| ==> plan[k].start + plan[k].len <= n
  }

  /** A GET has sent exactly the part of its plan that it has gone through. */
  ghost predicate SentOk(q: Req, image: seq<Byte>)
    requires q.Get?
  {
    && Within(q.plan, |image|) && q.at <= |q.plan|
    && (q.at < |q.plan| ==> q.done <= q.plan[q.at].len)
    && (q.at == |q.plan| ==> q.done == 0)
    && q.sent == Expected(q.plan[..q.at], image)
                 + (if q.at < |q.plan| then Slice(image, q.plan[q.at].start, q.done) else [])
  }

  ghost predicate Sends(items: map<ItemId, Item>, reqs: map<ReqId, Req>) {
    forall r :: r in reqs && reqs[r].Get? && reqs[r].item in items ==>
      |items[reqs[r].item].image| == items[reqs[r].item].place.length && SentOk(reqs[r], items[reqs[r].item].image)
  }

  // ---------- devices ----------

  ghost predicate DevUse(items: map<ItemId, Item>, reqs: map<ReqId, Req>, devs: map<nat, Dev>) {
    && (forall d :: d in devs ==> devs[d].used == |Users(items, reqs, d)|)
    && (forall d :: d in devs && !devs[d].fdOpen ==> devs[d].deleted && devs[d].used == 0)
  }

  // ---------- counters ----------

  ghost function BlockBytes(items: map<ItemId, Item>, s: nat): map<ItemId, nat> {
    map i | i in items && items[i].key.server == s :: BlockSize(items[i].place.length)
  }

  ghost function Lengths(items: map<ItemId, Item>, s: nat): map<ItemId, nat> {
    map i | i in items && items[i].key.server == s :: items[i].place.length
  }

  ghost function Markers(hash: map<Key, Entry>, s: nat): set<Key> {
    set k | k in hash && hash[k].Passby? && k.server == s
  }

  ghost predicate CountOk(items: map<ItemId, Item>, hash: map<Key, Entry>, s: nat, n: Counts) {
    && n.consumed == Sum(BlockBytes(items, s))
    && n.content == Sum(Lengths(items, s))
    && n.itemNr == |BlockBytes(items, s)|
    && n.passbyNr == |Markers(hash, s)|
  }

  ghost predicate Counted(items: map<ItemId, Item>, hash: map<Key, Entry>, counts: map<nat, Counts>) {
    && (forall i :: i in items ==> items[i].key.server in counts)
    && (forall k :: k in hash ==> k.server in counts)
    && (forall s :: s in counts ==> CountOk(items, hash, s, counts[s]))
  }

  // ---------- the latest store ----------

  ghost function Latest(log: seq<(Key, ItemId)>, k: Key): Option<ItemId> {
    if log == [] then None
    else if log[|log| - 1].0 == k then Some(log[|log| - 1].1)
    else Latest(log[..|log| - 1], k)
  }

  ghost predicate Logged(hash: map<Key, Entry>, log: seq<(Key, ItemId)>) {
    forall k :: k in hash && hash[k].ItemEntry? ==> Latest(log, k) == Some(hash[k].item)
  }

  // ---------- all together ----------

  ghost predicate InvBut(st: State, pend: set<ItemId>) {
    && Placed(st.items, st.devs, st.disk)
    && Hashed(st.items, st.hash)
    && Held(st.items, st.reqs, pend)
    && Images(st.items, st.reqs, st.disk, pend)
    && Sends(st.items, st.reqs)
    && DevUse(st.items, st.reqs, st.devs)
    && Counted(st.items, st.hash, st.counts)
    && Logged(st.hash, st.log)
  }

  ghost predicate Inv(st: State) {
    InvBut(st, {})
  }

  /** Same items, as far as keys and places are concerned. */
  ghost predicate SameFace(items: map<ItemId, Item>, items': map<ItemId, Item>) {
    items'.Keys == items.Keys
    && forall i :: i in items ==> items'[i].key == items[i].key && items'[i].place == items[i].place
  }

  lemma SameFaceKeeps(items: map<ItemId, Item>, items': map<ItemId, Item>, devs: map<nat, Dev>,
                      disk: map<nat, seq<Byte>>, reqs: map<ReqId, Req>)
    requires SameFace(items, items')
    ensures Placed(items, devs, disk) ==> Placed(items', devs, disk)
    ensures forall d :: Users(items', reqs, d) == Users(items, reqs, d)
  {
    hide BlockSize;
  }

  lemma SameFaceBytes(items: map<ItemId, Item>, items': map<ItemId, Item>, s: nat)
    requires SameFace(items, items')
    ensures BlockBytes(items', s) == BlockBytes(items, s) && Lengths(items', s) == Lengths(items, s)
  {
    hide BlockSize;
  }

  lemma SameFaceCounts(items: map<ItemId, Item>, items': map<ItemId, Item>, hash: map<Key, Entry>,
      counts: map<nat, Counts>)
    requires SameFace(items, items') && Counted(items, hash, counts)
    ensures Counted(items', hash, counts)
  {
    hide BlockBytes, Lengths, Sum, Markers;
    forall s | s in counts ensures CountOk(items', hash, s, counts[s]) {
      assert CountOk(items, hash, s, counts[s]);
      SameFaceBytes(items, items', s);
    }
  }
}
