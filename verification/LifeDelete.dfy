/** Deferred deletion keeps the invariant: server_item_delete and server_request_finalize.
    Each part of the invariant has its own small lemma. */
module LifeDelete {
  import opened SizeClass
  import opened Life
  import opened LifeInv

  /** Taking an item's key out of the hash touches nothing else. */
  lemma Unhash(items: map<ItemId, Item>, hash: map<Key, Entry>, i: ItemId, hash': map<Key, Entry>)
    requires Hashed(items, hash) && i in items
    requires hash' == if items[i].deleted then hash else hash - {items[i].key}
    ensures forall s :: Markers(hash', s) == Markers(hash, s)
    ensures forall k :: k in hash' ==> k in hash && hash'[k] == hash[k]
    ensures Hashed(items[i := items[i].(deleted := true)], hash')
    ensures Hashed(items - {i}, hash')
  {
  }

  lemma LoggedLess(hash: map<Key, Entry>, hash': map<Key, Entry>, log: seq<(Key, ItemId)>)
    requires Logged(hash, log) && forall k :: k in hash' ==> k in hash && hash'[k] == hash[k]
    ensures Logged(hash', log)
  {
  }

  lemma CountedLess(items: map<ItemId, Item>, hash: map<Key, Entry>, hash': map<Key, Entry>, counts: map<nat, Counts>)
    requires Counted(items, hash, counts) && forall k :: k in hash' ==> k in hash
    requires forall s :: Markers(hash', s) == Markers(hash, s)
    ensures Counted(items, hash', counts)
  {
    hide Sum, BlockBytes, Lengths, Markers;
  }

  // ---------- held: marked only ----------

  lemma MarkHeld(items: map<ItemId, Item>, reqs: map<ReqId, Req>, i: ItemId)
    requires Held(items, reqs, {i}) && i in items && (items[i].used != 0 || items[i].putting)
    ensures Held(items[i := items[i].(deleted := true)], reqs, {})
  {
    hide Getters, Putters;
  }

  lemma MarkImages(items: map<ItemId, Item>, reqs: map<ReqId, Req>, disk: map<nat, seq<Byte>>, i: ItemId)
    requires Images(items, reqs, disk, {i}) && i in items && (items[i].used != 0 || items[i].putting)
    ensures Images(items[i := items[i].(deleted := true)], reqs, disk, {})
  {
  }

  lemma MarkSends(items: map<ItemId, Item>, reqs: map<ReqId, Req>, i: ItemId)
    requires Sends(items, reqs) && i in items
    ensures Sends(items[i := items[i].(deleted := true)], reqs)
  {
    hide SentOk;
  }

  /** server_item_delete while the item is held: it stays, marked deleted. */
  lemma MarkKeeps(st: State, i: ItemId)
    requires InvBut(st, {i}) && i in st.items && (st.items[i].used != 0 || st.items[i].putting)
    requires st.items[i].key.server in st.counts
    ensures Inv(ItemDelete(st, i))
  {
    hide BlockSize, Placed, Hashed, Held, Images, Sends, Counted, Logged, Markers, Users;
    var st' := ItemDelete(st, i);
    Unhash(st.items, st.hash, i, st'.hash);
    LoggedLess(st.hash, st'.hash, st.log);
    SameFaceKeeps(st.items, st'.items, st.devs, st.disk, st.reqs);
    SameFaceCounts(st.items, st'.items, st.hash, st.counts);
    CountedLess(st'.items, st.hash, st'.hash, st.counts);
    MarkHeld(st.items, st.reqs, i);
    MarkImages(st.items, st.reqs, st.disk, i);
    MarkSends(st.items, st.reqs, i);
  }

  // ---------- not held: gone ----------

  lemma Unheld(items: map<ItemId, Item>, reqs: map<ReqId, Req>, i: ItemId, pend: set<ItemId>)
    requires Held(items, reqs, pend) && i in items && items[i].used == 0 && !items[i].putting
    ensures forall r :: r in reqs ==> reqs[r].item != i
  {
    assert Getters(reqs, i) == {} && Putters(reqs, i) == {};
    forall r | r in reqs ensures reqs[r].item != i {
      assert r in Getters(reqs, reqs[r].item) || r in Putters(reqs, reqs[r].item);
    }
  }

  lemma GoneHeld(items: map<ItemId, Item>, reqs: map<ReqId, Req>, i: ItemId)
    requires Held(items, reqs, {i}) && forall r :: r in reqs ==> reqs[r].item != i
    ensures Held(items - {i}, reqs, {})
  {
    hide Getters, Putters;
  }

  lemma GoneImages(items: map<ItemId, Item>, reqs: map<ReqId, Req>, disk: map<nat, seq<Byte>>, i: ItemId)
    requires Images(items, reqs, disk, {i}) && Sends(items, reqs)
    ensures Images(items - {i}, reqs, disk, {}) && Sends(items - {i}, reqs)
  {
    hide SentOk, OnDisk;
  }

  lemma GonePlaced(items: map<ItemId, Item>, reqs: map<ReqId, Req>, devs: map<nat, Dev>, disk: map<nat, seq<Byte>>,
      i: ItemId)
    requires Placed(items, devs, disk) && DevUse(items, reqs, devs) && forall r :: r in reqs ==> reqs[r].item != i
    ensures Placed(items - {i}, devs, disk) && DevUse(items - {i}, reqs, devs)
  {
    hide BlockSize, Overlap;
    forall d ensures Users(items - {i}, reqs, d) == Users(items, reqs, d) {}
    hide Users;
  }

  lemma BytesWithout(items: map<ItemId, Item>, i: ItemId, s: nat)
    requires i in items
    ensures items[i].key.server != s ==>
            BlockBytes(items - {i}, s) == BlockBytes(items, s) && Lengths(items - {i}, s) == Lengths(items, s)
    ensures items[i].key.server == s ==>
              && i in BlockBytes(items, s) && BlockBytes(items, s)[i] == BlockSize(items[i].place.length)
              && i in Lengths(items, s) && Lengths(items, s)[i] == items[i].place.length
              && BlockBytes(items - {i}, s) == BlockBytes(items, s) - {i}
                 && Lengths(items - {i}, s) == Lengths(items, s) - {i}
  {
    hide BlockSize;
  }

  lemma CardRemove(m: map<ItemId, nat>, i: ItemId)
    requires i in m
    ensures |m - {i}| == |m| - 1
  {
    assert (m - {i}).Keys == m.Keys - {i};
  }

  lemma GoneCounts(items: map<ItemId, Item>, hash: map<Key, Entry>, counts: map<nat, Counts>, i: ItemId)
    requires Counted(items, hash, counts) && i in items
    ensures var it := items[i];
            var n := counts[it.key.server];
            Counted(items - {i}, hash,
                    counts[it.key.server := n.(consumed := n.consumed - BlockSize(it.place.length),
                                               content := n.content - it.place.length, itemNr := n.itemNr - 1)])
  {
    hide BlockSize, Sum, BlockBytes, Lengths, Markers;
    var s := items[i].key.server;
    forall z | z in counts ensures z != s ==> CountOk(items - {i}, hash, z, counts[z]) {
      assert CountOk(items, hash, z, counts[z]);
      BytesWithout(items, i, z);
    }
    BytesWithout(items, i, s);
    SumRemove(BlockBytes(items, s), i);
    SumRemove(Lengths(items, s), i);
    CardRemove(BlockBytes(items, s), i);
    assert CountOk(items, hash, s, counts[s]);
  }

  /** server_item_delete when nobody holds the item: its block and its share of the counters go. */
  lemma GoneKeeps(st: State, i: ItemId)
    requires InvBut(st, {i}) && i in st.items && st.items[i].used == 0 && !st.items[i].putting
    requires st.items[i].key.server in st.counts
    ensures Inv(ItemDelete(st, i))
  {
    hide BlockSize, Placed, Hashed, Held, Images, Sends, DevUse, Counted, Logged, Markers, Users;
    var st' := ItemDelete(st, i);
    Unhash(st.items, st.hash, i, st'.hash);
    LoggedLess(st.hash, st'.hash, st.log);
    Unheld(st.items, st.reqs, i, {i});
    GoneHeld(st.items, st.reqs, i);
    GoneImages(st.items, st.reqs, st.disk, i);
    GonePlaced(st.items, st.reqs, st.devs, st.disk, i);
    CountedLess(st.items, st.hash, st'.hash, st.counts);
    GoneCounts(st.items, st'.hash, st.counts, i);
  }

  /** server_item_delete, in every situation. */
  lemma DeleteKeeps(st: State, i: ItemId)
    requires InvBut(st, {i}) && i in st.items && st.items[i].key.server in st.counts
    ensures Inv(ItemDelete(st, i))
  {
    hide *;
    if st.items[i].used != 0 || st.items[i].putting { MarkKeeps(st, i); } else { GoneKeeps(st, i); }
  }

  // ---------- a request lets go of its item ----------

  ghost predicate SameFlags(items: map<ItemId, Item>, items': map<ItemId, Item>) {
    SameFace(items, items') && forall i :: i in items ==>
        items'[i].deleted == items[i].deleted && items'[i].image == items[i].image
  }

  lemma SameFlagsKeeps(items: map<ItemId, Item>, items': map<ItemId, Item>, hash: map<Key, Entry>,
      disk: map<nat, seq<Byte>>,
                       reqs: map<ReqId, Req>)
    requires SameFlags(items, items')
    ensures Hashed(items, hash) ==> Hashed(items', hash)
    ensures Sends(items, reqs) ==> Sends(items', reqs)
    ensures (forall i :: i in items ==> OnDisk(items[i], disk)) ==> forall i :: i in items' ==> OnDisk(items'[i], disk)
  {
    hide SentOk;
  }

  /** In every reachable state each request can be finalized: what it holds is still there, the
      counts agree, and a PUT's item is being put while a GET's item is complete. */
  lemma Holding(st: State, r: ReqId)
    requires Inv(st) && r in st.reqs
    ensures CanFinalize(st, r)
    ensures st.reqs[r].Put? ==> st.items[st.reqs[r].item].used == 0
  {
    hide BlockSize, Hashed, Images, Sends, Logged, CountOk, Overlap;
    var i := st.reqs[r].item;
    assert r in Getters(st.reqs, i) || r in Putters(st.reqs, i);
    assert r in Users(st.items, st.reqs, st.items[i].place.dev);
    if st.reqs[r].Get? { assert r in Getters(st.reqs, i); } else { assert r in Putters(st.reqs, i); }
  }

  lemma LetGoHeld(items: map<ItemId, Item>, reqs: map<ReqId, Req>, r: ReqId, it': Item)
    requires Held(items, reqs, {}) && r in reqs && reqs[r].item in items
    requires var it := items[reqs[r].item];
             && it'.deleted == it.deleted
             && (reqs[r].Put? ==> it.putting && it.used == 0 && !it'.putting && it'.used == 0)
             && (reqs[r].Get? ==> !it.putting && it.used > 0 && !it'.putting && it'.used == it.used - 1)
    ensures Held(items[reqs[r].item := it'], reqs - {r}, {reqs[r].item})
  {
    var i := reqs[r].item;
    forall j | j in items
      ensures |Getters(reqs -
    {r}, j)| == |Getters(reqs, j)| - (if j == i && reqs[r].Get? then 1 else 0)
      ensures |Putters(reqs - {r}, j)| == |Putters(reqs, j)| - (if j == i && reqs[r].Put? then 1 else 0)
    {
      LetGoSets(reqs, r, j);
    }
    hide Getters, Putters;
  }

  lemma LetGoSets(reqs: map<ReqId, Req>, r: ReqId, j: ItemId)
    requires r in reqs
    ensures |Getters(reqs - {r}, j)| == |Getters(reqs, j)| - (if j == reqs[r].item && reqs[r].Get? then 1 else 0)
    ensures |Putters(reqs - {r}, j)| == |Putters(reqs, j)| - (if j == reqs[r].item && reqs[r].Put? then 1 else 0)
  {
    assert Getters(reqs - {r}, j) == Getters(reqs, j) - {r};
    assert Putters(reqs - {r}, j) == Putters(reqs, j) - {r};
  }

  lemma LetGoUse(items: map<ItemId, Item>, reqs: map<ReqId, Req>, devs: map<nat, Dev>, r: ReqId)
    requires DevUse(items, reqs, devs) && r in reqs && reqs[r].item in items && items[reqs[r].item].place.dev in devs
    requires devs[items[reqs[r].item].place.dev].used > 0
    ensures var d := items[reqs[r].item].place.dev;
            DevUse(items, reqs - {r}, devs[d := devs[d].(used := devs[d].used - 1)])
  {
    var d := items[reqs[r].item].place.dev;
    forall e ensures |Users(items, reqs - {r}, e)| == |Users(items, reqs, e)| - (if e == d then 1 else 0) {
      assert Users(items, reqs - {r}, e) == Users(items, reqs, e) - {r};
    }
    hide Users;
  }

  lemma LetGoImages(items: map<ItemId, Item>, items': map<ItemId, Item>, reqs: map<ReqId, Req>,
      disk: map<nat, seq<Byte>>, r: ReqId)
    requires Images(items, reqs, disk, {}) && Sends(items, reqs) && r in reqs && reqs[r].item in items
             && SameFlags(items, items')
    requires forall j :: j in items && j != reqs[r].item ==> items'[j] == items[j]
    requires items'[reqs[r].item].used > 0 ==> !items[reqs[r].item].putting
    ensures Images(items', reqs - {r}, disk, {reqs[r].item}) && Sends(items', reqs - {r})
  {
    hide SentOk, OnDisk;
    SameFlagsKeeps(items, items', map[], disk, reqs);
  }

  lemma LetGoPlaced(items: map<ItemId, Item>, devs: map<nat, Dev>, disk: map<nat, seq<Byte>>, devs': map<nat, Dev>)
    requires Placed(items, devs, disk) && devs'.Keys == devs.Keys
             && forall d :: d in devs ==> devs'[d].capacity == devs[d].capacity
    ensures Placed(items, devs', disk)
  {
    hide BlockSize, Overlap;
  }

  lemma LetGoKeeps(st: State, r: ReqId)
    requires Inv(st) && CanFinalize(st, r)
    ensures InvBut(LetGo(st, r), {st.reqs[r].item})
  {
    hide BlockSize, Placed, Hashed, Held, Images, Sends, Counted, Logged, Users;
    Holding(st, r);
    var st', i := LetGo(st, r), st.reqs[r].item;
    assert SameFlags(st.items, st'.items);
    hide SameFlags;
    LetGoHeld(st.items, st.reqs, r, st'.items[i]);
    LetGoImages(st.items, st'.items, st.reqs, st.disk, r);
    SameFlagsKeeps(st.items, st'.items, st.hash, st.disk, st'.reqs);
    LetGoUse(st.items, st.reqs, st.devs, r);
    SameFaceKeeps(st.items, st'.items, st'.devs, st.disk, st'.reqs);
    LetGoPlaced(st.items, st.devs, st.disk, st'.devs);
    SameFaceCounts(st.items, st'.items, st.hash, st.counts);
  }

  /** server_request_finalize keeps the invariant: an item that was not completely stored, had a
      disk error, or was deleted meanwhile goes as soon as its last holder lets go. */
  lemma FinalizeKeeps(st: State, r: ReqId)
    requires Inv(st) && CanFinalize(st, r)
    ensures Inv(Finalize(st, r))
  {
    hide BlockSize, Placed, Hashed, Sends, DevUse, Counted, Logged, ItemDelete;
    LetGoKeeps(st, r);
    Holding(st, r);
    var st', i := LetGo(st, r), st.reqs[r].item;
    if st.reqs[r].diskError || st.items[i].deleted || (st.reqs[r].Put?
         && st.reqs[r].processed < st.items[i].place.length) {
      DeleteKeeps(st', i);
    } else {
      Settled(st', i);
    }
  }

  /** Nothing is pending for a complete, undeleted item. */
  lemma Settled(st: State, i: ItemId)
    requires InvBut(st, {i}) && i in st.items && !st.items[i].deleted && |st.items[i].image| == st.items[i].place.length
    ensures Inv(st)
  {
    hide BlockSize, Placed, Hashed, Sends, DevUse, Counted, Logged, OnDisk, Getters, Putters;
  }
}
