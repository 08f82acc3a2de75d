/** The other steps of the item life cycle keep the invariant. */
module LifeSteps {
  import opened Lists
  import opened SizeClass
  import opened Life
  import opened LifeInv
  import opened LifeDelete

  // ---------- a new item ----------

  lemma AddHeld(items: map<ItemId, Item>, reqs: map<ReqId, Req>, r: ReqId, i: ItemId, it: Item)
    requires Held(items, reqs, {}) && r !in reqs && i !in items && it.putting && !it.deleted && it.used == 0
    ensures Held(items[i := it], reqs[r := Put(i, 0, false)], {})
  {
    var reqs' := reqs[r := Put(i, 0, false)];
    forall j | j in items ensures Getters(reqs', j) == Getters(reqs, j) && Putters(reqs', j) == Putters(reqs, j) {}
    assert Getters(reqs', i) == {} && Putters(reqs', i) == {r};
    hide Getters, Putters;
  }

  lemma AddImages(items: map<ItemId, Item>, reqs: map<ReqId, Req>, disk: map<nat, seq<Byte>>, r: ReqId, i: ItemId,
      it: Item)
    requires Images(items, reqs, disk, {}) && Sends(items, reqs) && r !in reqs && i !in items && it.putting
             && it.image == []
    requires it.place.dev in disk && it.place.offset + it.place.length <= |disk[it.place.dev]|
    requires forall q :: q in reqs ==> reqs[q].item in items
    ensures Images(items[i := it], reqs[r := Put(i, 0, false)], disk, {})
            && Sends(items[i := it], reqs[r := Put(i, 0, false)])
  {
    hide SentOk;
    assert OnDisk(it, disk);
    hide OnDisk;
  }

  lemma AddUsers(items: map<ItemId, Item>, reqs: map<ReqId, Req>, r: ReqId, i: ItemId, it: Item, e: nat)
    requires r !in reqs && i !in items && forall q :: q in reqs ==> reqs[q].item in items
    ensures |Users(items[i := it], reqs[r := Put(i, 0, false)], e)|
            == |Users(items, reqs, e)| + (if e == it.place.dev then 1 else 0)
  {
    var items' := items[i := it];
    assert Users(items', reqs, e) == Users(items, reqs, e);
    UsersPlus(items', reqs, r, Put(i, 0, false), e);
  }

  lemma UsersPlus(items: map<ItemId, Item>, reqs: map<ReqId, Req>, r: ReqId, q: Req, e: nat)
    requires r !in reqs && q.item in items
    ensures |Users(items, reqs[r := q], e)| == |Users(items, reqs, e)| + (if e == items[q.item].place.dev then 1 else 0)
  {
    var U, U' := Users(items, reqs, e), Users(items, reqs[r := q], e);
    assert r !in U;
    if e == items[q.item].place.dev { assert U' == U + {r}; } else { assert U' == U; }
  }

  lemma AddUse(items: map<ItemId, Item>, reqs: map<ReqId, Req>, devs: map<nat, Dev>, r: ReqId, i: ItemId, it: Item)
    requires DevUse(items, reqs, devs) && r !in reqs && i !in items && it.place.dev in devs
             && !devs[it.place.dev].deleted
    requires forall q :: q in reqs ==> reqs[q].item in items
    ensures var d := it.place.dev;
            DevUse(items[i := it], reqs[r := Put(i, 0, false)], devs[d := devs[d].(used := devs[d].used + 1)])
  {
    hide Users;
    forall e | e in devs
      ensures |Users(items[i := it], reqs[r := Put(i, 0, false)], e)|
              == |Users(items, reqs, e)| + (if e == it.place.dev then 1 else 0)
    {
      AddUsers(items, reqs, r, i, it, e);
    }
  }

  lemma AddMarkers(hash: map<Key, Entry>, k: Key, i: ItemId, s: nat)
    requires k !in hash
    ensures Markers(hash[k := ItemEntry(i)], s) == Markers(hash, s)
  {
  }

  lemma AddCounts(items: map<ItemId, Item>, hash: map<Key, Entry>, counts: map<nat, Counts>, i: ItemId, it: Item)
    requires Counted(items, hash, counts) && i !in items && it.key !in hash && it.key.server in counts
    ensures var n := counts[it.key.server];
            Counted(items[i := it], hash[it.key := ItemEntry(i)],
                    counts[it.key.server := n.(consumed := n.consumed + BlockSize(it.place.length),
                                               content := n.content + it.place.length, itemNr := n.itemNr + 1)])
  {
    hide BlockSize, Sum, BlockBytes, Lengths, Markers;
    var s, items', hash' := it.key.server, items[i := it], hash[it.key := ItemEntry(i)];
    forall z | z in counts ensures z != s ==> CountOk(items', hash', z, counts[z]) {
      if z != s { AddCountOther(items, hash, i, it, z, counts[z]); }
    }
    AddCountSame(items, hash, i, it, counts[s]);
  }

  lemma AddCountOther(items: map<ItemId, Item>, hash: map<Key, Entry>, i: ItemId, it: Item, z: nat, n: Counts)
    requires CountOk(items, hash, z, n) && i !in items && it.key !in hash && it.key.server != z
    ensures CountOk(items[i := it], hash[it.key := ItemEntry(i)], z, n)
  {
    hide BlockSize, Sum, BlockBytes, Lengths, Markers;
    AddMarkers(hash, it.key, i, z);
    BytesWithout(items[i := it], i, z);
    assert items[i := it] - {i} == items;
  }

  lemma AddCountSame(items: map<ItemId, Item>, hash: map<Key, Entry>, i: ItemId, it: Item, n: Counts)
    requires CountOk(items, hash, it.key.server, n) && i !in items && it.key !in hash
    ensures CountOk(items[i := it], hash[it.key := ItemEntry(i)], it.key.server,
                    n.(consumed := n.consumed + BlockSize(it.place.length), content := n.content + it.place.length,
                        itemNr := n.itemNr + 1))
  {
    hide BlockSize, Sum, BlockBytes, Lengths, Markers;
    var s, items' := it.key.server, items[i := it];
    AddMarkers(hash, it.key, i, s);
    BytesWithout(items', i, s);
    assert items' - {i} == items;
    SumRemove(BlockBytes(items', s), i);
    SumRemove(Lengths(items', s), i);
    CardRemove(BlockBytes(items', s), i);
  }

  lemma AddHashed(items: map<ItemId, Item>, hash: map<Key, Entry>, log: seq<(Key, ItemId)>, i: ItemId, it: Item)
    requires Hashed(items, hash) && Logged(hash, log) && i !in items && it.key !in hash && !it.deleted
    ensures Hashed(items[i := it], hash[it.key := ItemEntry(i)])
    ensures Logged(hash[it.key := ItemEntry(i)], log + [(it.key, i)])
  {
    assert (log + [(it.key, i)])[..|log|] == log;
  }

  lemma AddPlaced(items: map<ItemId, Item>, devs: map<nat, Dev>, disk: map<nat, seq<Byte>>, i: ItemId, it: Item)
    requires Placed(items, devs, disk) && i !in items && it.place.dev in devs
    requires 1 <= it.place.length <= FOUR_GB
             && it.place.offset + BlockSize(it.place.length) <= devs[it.place.dev].capacity
    requires forall j :: j in items ==> !Overlap(it.place, items[j].place)
    ensures Placed(items[i := it], devs, disk)
    ensures it.place.dev in disk && it.place.offset + it.place.length <= |disk[it.place.dev]|
  {
    BlockSizeFacts(it.place.length);
    hide BlockSize;
  }

  lemma HeldItems(st: State)
    requires Inv(st)
    ensures forall q :: q in st.reqs ==> st.reqs[q].item in st.items
  {
    hide Placed, Hashed, Images, Sends, DevUse, Counted, Logged, Getters, Putters;
  }

  lemma PutKeeps(st: State, r: ReqId, i: ItemId, it: Item)
    requires Inv(st) && r !in st.reqs && i !in st.items && it.key !in st.hash && it.key.server in st.counts
    requires it.putting && !it.deleted && it.used == 0 && it.image == []
    requires PlaceOk(st, it.place) && !st.devs[it.place.dev].deleted
    requires forall j :: j in st.items ==> !Overlap(it.place, st.items[j].place)
    ensures Inv(StartPut(st, r, i, it))
  {
    hide BlockSize, Placed, Hashed, Held, Images, Sends, DevUse, Counted, Logged, Overlap;
    HeldItems(st);
    var d := it.place.dev;
    AddPlaced(st.items, st.devs, st.disk, i, it);
    LetGoPlaced(st.items[i := it], st.devs, st.disk, st.devs[d := st.devs[d].(used := st.devs[d].used + 1)]);
    AddHashed(st.items, st.hash, st.log, i, it);
    AddHeld(st.items, st.reqs, r, i, it);
    AddImages(st.items, st.reqs, st.disk, r, i, it);
    AddUse(st.items, st.reqs, st.devs, r, i, it);
    AddCounts(st.items, st.hash, st.counts, i, it);
  }

  // ---------- writing the body ----------

  lemma SliceWritten(s: seq<Byte>, o: nat, image: seq<Byte>, data: seq<Byte>)
    requires o + |image| + |data| <= |s| && Slice(s, o, |image|) == image
    ensures Slice(WriteAt(s, o + |image|, data), o, |image| + |data|) == image + data
    ensures Slice(WriteAt(s, o + |image|, data), o, |image|) == image
  {
  }

  lemma SliceElsewhere(s: seq<Byte>, w: nat, data: seq<Byte>, o: nat, n: nat)
    requires w + |data| <= |s| && o + n <= |s| && (w + |data| <= o || o + n <= w)
    ensures Slice(WriteAt(s, w, data), o, n) == Slice(s, o, n)
  {
  }

  /** A write inside one item's block leaves every other item's bytes alone. */
  lemma OthersOnDisk(items: map<ItemId, Item>, devs: map<nat, Dev>, disk: map<nat, seq<Byte>>, i: ItemId, at: nat,
      data: seq<Byte>, j: ItemId)
    requires Placed(items, devs, disk) && i in items && j in items && i != j && OnDisk(items[j], disk)
    requires at + |data| <= items[i].place.length
             && items[i].place.offset + items[i].place.length <= |disk[items[i].place.dev]|
    ensures var p := items[i].place; OnDisk(items[j], disk[p.dev := WriteAt(disk[p.dev], p.offset + at, data)])
  {
    var p, q := items[i].place, items[j].place;
    assert !Overlap(p, q);
    BlockSizeFacts(p.length);
    BlockSizeFacts(q.length);
    hide BlockSize, Placed;
    if p.dev == q.dev { SliceElsewhere(disk[p.dev], p.offset + at, data, q.offset, |items[j].image|); }
  }

  lemma WritePlaced(items: map<ItemId, Item>, devs: map<nat, Dev>, disk: map<nat, seq<Byte>>, d: nat, s: seq<Byte>)
    requires Placed(items, devs, disk) && d in disk && |s| == |disk[d]|
    ensures Placed(items, devs, disk[d := s])
  {
    hide BlockSize, Overlap;
  }

  lemma PutterOnly(reqs: map<ReqId, Req>, items: map<ItemId, Item>, r: ReqId, q: ReqId)
    requires Held(items, reqs, {}) && r in reqs && q in reqs && reqs[r].Put? && reqs[r].item == reqs[q].item
    ensures q == r
  {
    var i := reqs[r].item;
    assert r in Putters(reqs, i);
    assert q in Getters(reqs, i) || q in Putters(reqs, i);
    if q != r && reqs[q].Put? { CardLe({q, r}, Putters(reqs, i)); }
  }

  /** The same requests hold the same items. */
  lemma SameHolders(items: map<ItemId, Item>, items': map<ItemId, Item>, reqs: map<ReqId, Req>, r: ReqId, q': Req)
    requires Held(items, reqs, {}) && r in reqs && q'.item == reqs[r].item && (q'.Get? <==> reqs[r].Get?)
    requires items'.Keys == items.Keys
    requires forall i :: i in items ==>
             && items'[i].used == items[i].used && items'[i].putting == items[i].putting
             && items'[i].deleted == items[i].deleted
    ensures Held(items', reqs[r := q'], {})
  {
    var reqs' := reqs[r := q'];
    forall j ensures Getters(reqs', j) == Getters(reqs, j) && Putters(reqs', j) == Putters(reqs, j) {}
    hide Getters, Putters;
  }

  lemma SameUsers(items: map<ItemId, Item>, items': map<ItemId, Item>, reqs: map<ReqId, Req>, devs: map<nat, Dev>,
      r: ReqId, q': Req)
    requires DevUse(items, reqs, devs) && r in reqs && q'.item == reqs[r].item && SameFace(items, items')
    ensures DevUse(items', reqs[r := q'], devs)
  {
    forall d ensures Users(items', reqs[r := q'], d) == Users(items, reqs, d) {}
    hide Users;
  }

  lemma OwnOnDisk(it: Item, disk: map<nat, seq<Byte>>, data: seq<Byte>)
    requires OnDisk(it, disk) && |it.image| + |data| <= it.place.length
    ensures var disk' := disk[it.place.dev := WriteAt(disk[it.place.dev], it.place.offset + |it.image|, data)];
            OnDisk(it, disk') && OnDisk(it.(image := it.image + data), disk')
  {
    SliceWritten(disk[it.place.dev], it.place.offset, it.image, data);
  }

  /** Bytes on disk after a write to the block of one item. */
  lemma WriteOnDisk(st: State, r: ReqId, data: seq<Byte>)
    requires Inv(st) && CanWrite(st, r, data)
    ensures forall j :: j in st.items ==> OnDisk(st.items[j], Write(st, r, data).disk)
    ensures var it := st.items[st.reqs[r].item]; OnDisk(it.(image := it.image + data), Write(st, r, data).disk)
  {
    hide BlockSize, Placed, Hashed, Held, Sends, DevUse, Counted, Logged, OnDisk, WriteAt;
    var q := st.reqs[r];
    OwnOnDisk(st.items[q.item], st.disk, data);
    forall j | j in st.items ensures OnDisk(st.items[j], Write(st, r, data).disk) {
      if j != q.item { OthersOnDisk(st.items, st.devs, st.disk, q.item, q.processed, data, j); }
    }
  }

  lemma WriteImages(st: State, r: ReqId, data: seq<Byte>)
    requires Inv(st) && CanWrite(st, r, data)
    ensures var st' := Write(st, r, data); Images(st'.items, st'.reqs, st'.disk, {}) && Sends(st'.items, st'.reqs)
    ensures var st' := WriteFail(st, r, data); Images(st'.items, st'.reqs, st'.disk, {}) && Sends(st'.items, st'.reqs)
  {
    hide BlockSize, Placed, Hashed, DevUse, Counted, Logged, SentOk, OnDisk;
    Holding(st, r);
    WriteOnDisk(st, r, data);
    forall z | z in st.reqs && st.reqs[z].item == st.reqs[r].item
      ensures z == r
    { PutterOnly(st.reqs, st.items, r, z); }
    hide Held, WriteAt;
  }

  lemma WriteKeeps(st: State, r: ReqId, data: seq<Byte>)
    requires Inv(st) && CanWrite(st, r, data)
    ensures Inv(Write(st, r, data)) && Inv(WriteFail(st, r, data))
  {
    hide BlockSize, Placed, Hashed, Held, Images, Sends, DevUse, Counted, Logged;
    WriteImages(st, r, data);
    var q, a, b := st.reqs[r], Write(st, r, data), WriteFail(st, r, data);
    var d := st.items[q.item].place.dev;
    WritePlaced(st.items, st.devs, st.disk, d, a.disk[d]);
    WritePlaced(st.items, st.devs, st.disk, d, b.disk[d]);
    SameFaceKeeps(st.items, a.items, st.devs, a.disk, st.reqs);
    SameHashed(st.items, a.items, st.hash);
    SameFaceCounts(st.items, a.items, st.hash, st.counts);
    SameHolders(st.items, a.items, st.reqs, r, a.reqs[r]);
    SameHolders(st.items, b.items, st.reqs, r, b.reqs[r]);
    SameUsers(st.items, a.items, st.reqs, st.devs, r, a.reqs[r]);
    SameUsers(st.items, b.items, st.reqs, st.devs, r, b.reqs[r]);
  }

  lemma SameHashed(items: map<ItemId, Item>, items': map<ItemId, Item>, hash: map<Key, Entry>)
    requires Hashed(items, hash) && items'.Keys == items.Keys
    requires forall i :: i in items ==> items'[i].key == items[i].key && items'[i].deleted == items[i].deleted
    ensures Hashed(items', hash)
  {
  }

  // ---------- a hit ----------

  lemma HitSets(reqs: map<ReqId, Req>, r: ReqId, q: Req, j: ItemId)
    requires r !in reqs && q.Get?
    ensures |Getters(reqs[r := q], j)| == |Getters(reqs, j)| + (if j == q.item then 1 else 0)
    ensures Putters(reqs[r := q], j) == Putters(reqs, j)
  {
    var G, G' := Getters(reqs, j), Getters(reqs[r := q], j);
    if j == q.item { assert G' == G + {r}; } else { assert G' == G; }
  }

  lemma HitHeld(items: map<ItemId, Item>, reqs: map<ReqId, Req>, r: ReqId, i: ItemId, q: Req)
    requires Held(items, reqs, {}) && r !in reqs && i in items && !items[i].putting && q.Get? && q.item == i
    ensures Held(items[i := items[i].(used := items[i].used + 1)], reqs[r := q], {})
  {
    hide Getters, Putters;
    forall j | j in items
      ensures |Getters(reqs[r := q], j)| == |Getters(reqs, j)| + (if j == q.item then 1 else 0)
              && Putters(reqs[r := q], j) == Putters(reqs, j)
    {
      HitSets(reqs, r, q, j);
    }
  }

  lemma HitUse(items: map<ItemId, Item>, items': map<ItemId, Item>, reqs: map<ReqId, Req>, devs: map<nat, Dev>,
      r: ReqId, i: ItemId, q: Req)
    requires DevUse(items, reqs, devs) && r !in reqs && i in items && q.item == i && SameFace(items, items')
    requires items[i].place.dev in devs && !devs[items[i].place.dev].deleted
    ensures var d := items[i].place.dev; DevUse(items', reqs[r := q], devs[d := devs[d].(used := devs[d].used + 1)])
  {
    hide Users, BlockSize;
    SameFaceKeeps(items, items', map[], map[], reqs);
    forall e | e in devs
      ensures |Users(items', reqs[r := q], e)| == |Users(items, reqs, e)| + (if e == items[i].place.dev then 1 else 0)
    {
      UsersPlus(items', reqs, r, q, e);
    }
  }

  lemma HitImages(items: map<ItemId, Item>, reqs: map<ReqId, Req>, disk: map<nat, seq<Byte>>, r: ReqId, i: ItemId,
      plan: seq<Range>)
    requires Images(items, reqs, disk, {}) && Sends(items, reqs) && r !in reqs && i in items && !items[i].putting
    requires Within(plan, items[i].place.length)
    ensures var items' := items[i := items[i].(used := items[i].used + 1)];
            var reqs' := reqs[r := Get(i, plan, 0, 0, [], false)];
            Images(items', reqs', disk, {}) && Sends(items', reqs')
  {
    var q := Get(i, plan, 0, 0, [], false);
    assert SentOk(q, items[i].image);
    hide SentOk;
    assert forall j :: j in items ==> OnDisk(items[j], disk);
    assert OnDisk(items[i].(used := items[i].used + 1), disk);
    hide OnDisk;
  }

  lemma HitKeeps(st: State, r: ReqId, i: ItemId, plan: seq<Range>)
    requires Inv(st) && Enabled(st, DoHit(r, i, plan))
    ensures Inv(Hit(st, r, i, plan))
  {
    hide BlockSize, Placed, Hashed, Held, Images, Sends, DevUse, Counted, Logged;
    var st', q := Hit(st, r, i, plan), Get(i, plan, 0, 0, [], false);
    HitHeld(st.items, st.reqs, r, i, q);
    HitUse(st.items, st'.items, st.reqs, st.devs, r, i, q);
    HitImages(st.items, st.reqs, st.disk, r, i, plan);
    SameFaceKeeps(st.items, st'.items, st.devs, st.disk, st.reqs);
    LetGoPlaced(st'.items, st.devs, st.disk, st'.devs);
    SameHashed(st.items, st'.items, st.hash);
    SameFaceCounts(st.items, st'.items, st.hash, st.counts);
  }

  // ---------- sending ----------

  lemma SliceSlice(s: seq<Byte>, o: nat, image: seq<Byte>, a: nat, n: nat)
    requires o + |image| <= |s| && Slice(s, o, |image|) == image && a + n <= |image|
    ensures Slice(s, o + a, n) == Slice(image, a, n)
  {
    var t := s[o..o + |image|];
    assert forall k :: 0 <= k < |t| ==> t[k] == s[o + k];
    assert t[a..a + n] == s[o + a..o + a + n];
  }

  lemma SliceJoin(image: seq<Byte>, a: nat, m: nat, n: nat)
    requires a + m + n <= |image|
    ensures Slice(image, a, m) + Slice(image, a + m, n) == Slice(image, a, m + n)
  {
  }

  lemma ExpectedNext(plan: seq<Range>, at: nat, image: seq<Byte>)
    requires Within(plan, |image|) && at < |plan|
    ensures Expected(plan[..at + 1], image) == Expected(plan[..at], image) + Slice(image, plan[at].start, plan[at].len)
  {
    assert plan[..at + 1][..at] == plan[..at];
  }

  lemma SeqPlus(a: seq<Byte>, b: seq<Byte>, c: seq<Byte>)
    ensures (a + b) + c == a + (b + c)
    ensures a + [] == a
  {
  }

  /** One call of request_send_file extends what was sent by the next bytes of the image. */
  lemma SendStep(q: Req, image: seq<Byte>, n: nat, bytes: seq<Byte>)
    requires q.Get? && SentOk(q, image) && q.at < |q.plan| && q.done + n <= q.plan[q.at].len
    requires bytes == Slice(image, q.plan[q.at].start + q.done, n)
    ensures SentOk(if q.done + n == q.plan[q.at].len then q.(at := q.at + 1, done := 0, sent := q.sent + bytes)
                   else q.(done := q.done + n, sent := q.sent + bytes), image)
  {
    var z, pre := q.plan[q.at], q.plan[..q.at];
    SliceJoin(image, z.start, q.done, n);
    SeqPlus(Expected(pre, image), Slice(image, z.start, q.done), bytes);
    assert q.sent + bytes == Expected(pre, image) + Slice(image, z.start, q.done + n);
    if q.done + n == z.len {
      ExpectedNext(q.plan, q.at, image);
      SendEnd(q, image, q.sent + bytes);
    }
  }

  lemma SendEnd(q: Req, image: seq<Byte>, sent: seq<Byte>)
    requires q.Get? && Within(q.plan, |image|) && q.at < |q.plan| && sent == Expected(q.plan[..q.at + 1], image)
    ensures SentOk(q.(at := q.at + 1, done := 0, sent := sent), image)
  {
    hide Expected;
    SeqPlus(sent, [], []);
  }

  lemma SendKeeps(st: State, r: ReqId, n: nat)
    requires Inv(st) && CanSend(st, r, n)
    ensures Inv(Send(st, r, n))
  {
    hide BlockSize, Placed, Hashed, Held, DevUse, Counted, Logged, SentOk;
    Holding(st, r);
    var q, it := st.reqs[r], st.items[st.reqs[r].item];
    var st' := Send(st, r, n);
    assert SentOk(q, it.image);
    assert OnDisk(it, st.disk);
    PlanFits(q, it.image);
    SliceSlice(st.disk[it.place.dev], it.place.offset, it.image, q.plan[q.at].start + q.done, n);
    SendStep(q, it.image, n, Slice(it.image, q.plan[q.at].start + q.done, n));
    hide OnDisk;
    SameHolders(st.items, st.items, st.reqs, r, st'.reqs[r]);
    SameUsers(st.items, st.items, st.reqs, st.devs, r, st'.reqs[r]);
  }

  lemma PlanFits(q: Req, image: seq<Byte>)
    requires q.Get? && SentOk(q, image) && q.at < |q.plan|
    ensures q.plan[q.at].start + q.plan[q.at].len <= |image|
  {
  }
}
