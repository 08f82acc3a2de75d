/** Devices coming and going: device_add, device_delete and device_destroy of device.c, as the
    configuration reload and the routine call them on the cache. */
module Destroys {
  import opened Life
  import opened LifeInv
  import opened LifeRuns
  import opened CacheModel
  import opened Caches
  import SizeClass
  import SpaceModel
  import SpaceSteps
  import Layout
  import Devices

  /** Entries before position k are items that requests hold. */
  ghost predicate HeldUpTo(items: map<ItemId, Item>, order: seq<Layout.Node>, k: nat) {
    k <= |order| && forall j :: 0 <= j < k ==> order[j].ItemNode? && IsHeld(items, order[j].id)
  }

  /** Items go away only when nobody holds them; the others change at most by being marked. */
  ghost predicate Thinned(a: map<ItemId, Item>, b: map<ItemId, Item>) {
    && b.Keys <= a.Keys
    && (forall i :: i in b ==> b[i] == a[i].(deleted := b[i].deleted))
    && (forall i :: IsHeld(a, i) ==> i in b)
  }

  ghost predicate AnyHeld(items: map<ItemId, Item>, d: nat) {
    exists i :: IsHeld(items, i) && items[i].place.dev == d
  }

  lemma ThinnedTrans(a: map<ItemId, Item>, b: map<ItemId, Item>, c: map<ItemId, Item>)
    requires Thinned(a, b) && Thinned(b, c)
    ensures Thinned(a, c)
  {
    forall i | IsHeld(a, i) ensures i in c { assert IsHeld(b, i); }
  }

  lemma ThinnedDelete(a: map<ItemId, Item>, b: map<ItemId, Item>, i: ItemId)
    requires i in a && OthersKept(a, b, i) && (IsHeld(a, i) <==> i in b)
             && (IsHeld(a, i) ==> b[i] == a[i].(deleted := true))
    ensures Thinned(a, b)
  {
  }

  lemma ThinnedHeld(a: map<ItemId, Item>, b: map<ItemId, Item>, d: nat)
    requires Thinned(a, b)
    ensures AnyHeld(a, d) <==> AnyHeld(b, d)
  {
    if AnyHeld(a, d) {
      var i :| IsHeld(a, i) && a[i].place.dev == d;
      assert IsHeld(b, i) && b[i].place.dev == d;
    }
    if AnyHeld(b, d) {
      var i :| IsHeld(b, i) && b[i].place.dev == d;
      assert IsHeld(a, i) && a[i].place.dev == d;
    }
  }

  /** The position of an entry in a list without repetition. */
  lemma {:induction false} PosOf(o: seq<Layout.Node>, k: nat)
    requires k < |o| && forall j :: 0 <= j < k ==> o[j] != o[k]
    ensures SpaceSteps.Pos(o, o[k]) == k
  {
    if k > 0 {
      var t := o[1..];
      assert t[k - 1] == o[k] && forall j :: 0 <= j < k - 1 ==> t[j] == o[j + 1];
      PosOf(t, k - 1);
    }
  }

  /** One round of the loop of device_destroy. */
  lemma Advance(a: map<ItemId, Item>, b: map<ItemId, Item>, o: seq<Layout.Node>, o': seq<Layout.Node>, k: nat)
    requires HeldUpTo(a, o, k) && k < |o| && Thinned(a, b)
    requires forall j :: 0 <= j < k ==> o[j] != o[k]
    requires if o[k].ItemNode? && IsHeld(a, o[k].id) then o' == o else o' == SpaceSteps.Relink(o, o[k], [])
    ensures if o' == o then HeldUpTo(b, o', k + 1) else HeldUpTo(b, o', k) && |o'| == |o| - 1
    ensures o' == o <==> o[k].ItemNode? && IsHeld(a, o[k].id)
  {
    hide SpaceSteps.Pos;
    PosOf(o, k);
    forall j | 0 <= j < k ensures o'[j].ItemNode? && IsHeld(b, o'[j].id) {
      assert o'[j] == o[j] && IsHeld(a, o[j].id);
    }
    assert SpaceSteps.Relink(o, o[k], []) == o[..k] + o[k + 1..];
  }

  /** All entries of the list are held items, or there is none: who holds what decides which. */
  lemma ListDecides(c: Cache, d: nat)
    requires c.Valid() && d in c.space.devices
    ensures AnyHeld(c.items, d) ==> c.space.devices[d].order != []
    ensures HeldUpTo(c.items, c.space.devices[d].order, |c.space.devices[d].order|) && c.space.devices[d].order != []
            ==> AnyHeld(c.items, d)
  {
    hide InvBut, LruOk, AllShaped, DevView, CountView, SpaceModel.Inv;
    SpaceInv(c.space);
    hide Devices.Space.Valid;
    if AnyHeld(c.items, d) {
      var i :| IsHeld(c.items, i) && c.items[i].place.dev == d;
      Devices.InOrder(c.space.View(), i);
    }
    if HeldUpTo(c.items, c.space.devices[d].order, |c.space.devices[d].order|) && c.space.devices[d].order != [] {
      var n := c.space.devices[d].order[0];
      Devices.OrderEntries(c.space.View(), d, 0);
      assert IsHeld(c.items, n.id) && c.items[n.id].place.dev == d;
    }
  }

  lemma EmptyUnused(c: Cache, d: nat)
    requires c.Valid() && d in c.space.devices && c.space.devices[d].order == []
    ensures forall i :: i in c.items ==> c.items[i].place.dev != d
  {
    hide InvBut, LruOk, AllShaped, DevView, CountView, SpaceModel.Inv;
    SpaceInv(c.space);
    hide Devices.Space.Valid;
    forall i | i in c.items ensures c.items[i].place.dev != d {
      Devices.InOrder(c.space.View(), i);
    }
  }

  lemma EntryFacts(c: Cache, d: nat, k: nat)
    requires c.Valid() && d in c.space.devices && k < |c.space.devices[d].order|
    ensures var o := c.space.devices[d].order;
            && (forall j :: 0 <= j < k ==> o[j] != o[k])
            && match o[k]
               case ItemNode(i) => i in c.items && c.items[i].place.dev == d
               case FreeNode(h) => h in c.space.blocks && c.space.blocks[h].dev == d
  {
    hide InvBut, LruOk, AllShaped, DevView, CountView, SpaceModel.Inv;
    SpaceInv(c.space);
    hide Devices.Space.Valid;
    Devices.OrderEntries(c.space.View(), d, k);
    forall j | 0 <= j < k ensures c.space.devices[d].order[j] != c.space.devices[d].order[k] {
      Devices.OrderDistinct(c.space.View(), d, j, k);
    }
  }

  /** Deleting what the entry at position k stands for. */
  method DropEntry(c: Cache, d: nat, k: nat)
    requires c.Valid() && d in c.space.devices && c.space.devices[d].deleted && k < |c.space.devices[d].order|
    modifies c, c.space, c.space.buckets
    ensures c.Valid() && SameConf(old(c.servers), c.servers) && c.now == old(c.now) && Evicted(old(c.View()), c.View())
    ensures d in c.space.devices && c.space.devices[d].deleted && Thinned(old(c.items), c.items)
    ensures var n := old(c.space.devices)[d].order[k];
            if n.ItemNode? && IsHeld(old(c.items), n.id) then c.space.devices[d].order == old(c.space.devices)[d].order
            else Devices.Unqueued(old(c.space.devices), c.space.devices, d, n)
  {
    hide InvBut, LruOk, AllShaped, DevView, CountView, PlaceView, SpaceModel.Inv, Devices.Space.Valid, SameConf,
      Evicted, Thinned, Unlisted, OthersKept, Reaches, Devices.Unqueued;
    ghost var v := c.View();
    EntryFacts(c, d, k);
    DevViewAt(c.space.devices, d);
    match c.space.devices[d].order[k]
    case FreeNode(h) =>
      c.space.DeleteBlock(h);
      SameStatusView(old(c.space.devices), c.space.devices);
      DevViewAt(c.space.devices, d);
      EvictedSelf(v);
      SameConfSelf(c.servers);
      ThinnedSelf(c.items);
    case ItemNode(i) =>
      ghost var items := c.items;
      c.Delete(i);
      EvictedDev(v, c.View(), d);
      DevViewAt(c.space.devices, d);
      ThinnedDelete(items, c.items, i);
  }

  lemma ThinnedSelf(a: map<ItemId, Item>)
    ensures Thinned(a, a)
  {
  }

  lemma EvictedDev(a: State, b: State, d: nat)
    requires Evicted(a, b) && d in a.devs
    ensures d in b.devs && (a.devs[d].deleted ==> b.devs[d].deleted)
  {
    hide Reaches;
  }

  /** The loop of device_destroy: at most LOOP_LIMIT + 1 entries are visited, each is deleted, and
      those that stay are items somebody holds. */
  method Drain(c: Cache, d: nat)
    requires c.Valid() && d in c.space.devices && c.space.devices[d].deleted
    modifies c, c.space, c.space.buckets
    ensures c.Valid() && SameConf(old(c.servers), c.servers) && c.now == old(c.now) && Evicted(old(c.View()), c.View())
    ensures d in c.space.devices && c.space.devices[d].deleted && Thinned(old(c.items), c.items)
    ensures var o := c.space.devices[d].order;
            |old(c.space.devices)[d].order| <= Devices.LOOP_LIMIT + 1 ==> HeldUpTo(c.items, o, |o|)
  {
    hide InvBut, LruOk, AllShaped, DevView, CountView, PlaceView, SpaceModel.Inv, Devices.Space.Valid, SameConf,
      Evicted, Thinned, HeldUpTo, SpaceSteps.Relink, IsHeld;
    EvictedSelf(c.View());
    SameConfSelf(c.servers);
    ThinnedSelf(c.items);
    NoneYet(c.items, c.space.devices[d].order);
    var k, count := 0, 0;
    while k < |c.space.devices[d].order|
      invariant c.Valid() && SameConf(old(c.servers), c.servers) && c.now == old(c.now)
                && Evicted(old(c.View()), c.View())
      invariant d in c.space.devices && c.space.devices[d].deleted && Thinned(old(c.items), c.items)
      invariant k <= |c.space.devices[d].order| && HeldUpTo(c.items, c.space.devices[d].order, k)
      invariant count + |c.space.devices[d].order| - k == |old(c.space.devices)[d].order| && count <= Devices.LOOP_LIMIT
      decreases |c.space.devices[d].order| - k
    {
      ghost var v, items, servers := c.View(), c.items, c.servers;
      var order := c.space.devices[d].order;
      EntryFacts(c, d, k);
      DropEntry(c, d, k);
      EvictedTrans(old(c.View()), v, c.View());
      SameConfTrans(old(c.servers), servers, c.servers);
      ThinnedTrans(old(c.items), items, c.items);
      Advance(items, c.items, order, c.space.devices[d].order, k);
      UpToBound(c.items, c.space.devices[d].order, if c.space.devices[d].order == order then k + 1 else k);
      if c.space.devices[d].order == order {
        k := k + 1;
      }
      if count >= Devices.LOOP_LIMIT {
        break;
      }
      count := count + 1;
    }
  }

  lemma NoneYet(items: map<ItemId, Item>, order: seq<Layout.Node>)
    ensures HeldUpTo(items, order, 0)
  {
  }

  lemma UpToBound(items: map<ItemId, Item>, order: seq<Layout.Node>, k: nat)
    requires HeldUpTo(items, order, k)
    ensures k <= |order|
  {
  }

  /** The file of a deleted device is closed as soon as no request uses the device. */
  method CloseFile(c: Cache, d: nat)
    requires c.Valid() && d in c.space.devices && c.space.devices[d].deleted
    modifies c.space`devices
    ensures c.Valid() && Reaches(old(c.View()), c.View())
    ensures c.space.devices == old(c.space.devices)[d := old(c.space.devices)[d].(fdOpen :=
              old(c.space.devices)[d].used != 0)]
  {
    hide InvBut, LruOk, AllShaped, DevView, CountView, PlaceView, SpaceModel.Inv, Devices.Space.Valid, Reaches;
    ghost var v := c.View();
    DevViewAt(c.space.devices, d);
    FdClosed(v, d);
    ReachesSelf(v);
    if c.space.devices[d].used == 0 && c.space.devices[d].fdOpen {
      var dev := c.space.devices[d].(fdOpen := false);
      DevViewUpdate(c.space.devices, d, dev);
      CloseStep(v, d);
      c.space.CloseFd(d);
      assert c.View() == v.(devs := v.devs[d := v.devs[d].(fdOpen := false)]);
    } else {
      assert c.space.devices == c.space.devices[d := c.space.devices[d].(fdOpen := c.space.devices[d].used != 0)];
    }
  }

  lemma CloseStep(v: State, d: nat)
    requires Inv(v) && d in v.devs && v.devs[d].deleted && v.devs[d].used == 0
    ensures var w := v.(devs := v.devs[d := v.devs[d].(fdOpen := false)]);
            Inv(w) && Reaches(v, w)
  {
    hide Inv, Reaches;
    StepKeeps(v, DoCloseFd(d));
    ReachesStep(v, DoCloseFd(d));
  }

  lemma RemoveStep(v: State, d: nat)
    requires Inv(v) && d in v.devs && v.devs[d].deleted && !v.devs[d].fdOpen
             && forall i :: i in v.items ==> v.items[i].place.dev != d
    ensures var w := v.(devs := v.devs - {d}, disk := v.disk - {d});
            Inv(w) && Reaches(v, w)
  {
    hide Inv, Reaches;
    StepKeeps(v, DoRemoveDevice(d));
    ReachesStep(v, DoRemoveDevice(d));
  }

  lemma AddStep(v: State, d: nat, data: seq<Byte>)
    requires Inv(v) && d !in v.devs
    ensures var w := v.(devs := v.devs[d := Dev(|data|, false, 0, true)], disk := v.disk[d := data]);
            Inv(w) && Reaches(v, w)
  {
    hide Inv, Reaches;
    StepKeeps(v, DoAddDevice(d, data));
    ReachesStep(v, DoAddDevice(d, data));
  }

  lemma NobodyUses(v: State, d: nat)
    requires Inv(v) && d in v.devs && forall i :: i in v.items ==> v.items[i].place.dev != d
    ensures v.devs[d].used == 0
  {
    hide Placed, Hashed, Held, Images, Sends, Counted, Logged;
    assert Users(v.items, v.reqs, d) == {};
  }

  lemma DevViewLess(devs: map<nat, SpaceModel.Device>, d: nat)
    ensures DevView(devs - {d}) == DevView(devs) - {d}
  {
  }

  /** The end of device_destroy: the index slot is freed. */
  method FreeSlot(c: Cache, d: nat)
    requires c.Valid() && d in c.space.devices && c.space.devices[d].deleted && c.space.devices[d].order == []
    requires c.space.devices[d].fdOpen ==> c.space.devices[d].used != 0
    modifies c`disk, c.space`devices, c.space`layout
    ensures c.Valid() && Reaches(old(c.View()), c.View())
    ensures c.space.devices == old(c.space.devices) - {d}
    ensures (forall i :: i in c.items ==> c.items[i].place.dev != d)
            && (forall h :: h in c.space.blocks ==> c.space.blocks[h].dev != d)
  {
    hide InvBut, LruOk, AllShaped, DevView, CountView, PlaceView, SpaceModel.Inv, Devices.Space.Valid, Reaches;
    ghost var v := c.View();
    EmptyUnused(c, d);
    DevViewAt(c.space.devices, d);
    NobodyUses(v, d);
    RemoveStep(v, d);
    DevViewLess(c.space.devices, d);
    c.space.Forget(d);
    c.disk := c.disk - {d};
  }

  /** device_add: a fresh device with `data` on its file. */
  method AddDevice(c: Cache, d: nat, data: seq<Byte>)
    requires c.Valid() && d !in c.space.devices && |data| % SizeClass.SECTOR == 0
    modifies c`disk, c.space, c.space.buckets
    ensures c.Valid() && Reaches(old(c.View()), c.View())
    ensures c.View() == old(c.View()).(devs := old(c.View()).devs[d := Dev(|data|, false, 0, true)],
              disk := old(c.disk)[d := data])
    ensures |data| > 0 ==>
              exists h :: h in c.space.blocks && d in c.space.layout && c.space.layout[d] == [Layout.Free(h, 0, |data|)]
  {
    hide InvBut, LruOk, AllShaped, DevView, CountView, PlaceView, SpaceModel.Inv, Devices.Space.Valid, Reaches;
    ghost var v := c.View();
    DevViewAt(c.space.devices, d);
    AddStep(v, d, data);
    c.space.AddDevice(d, |data|);
    DevViewUpdate(old(c.space.devices), d, c.space.devices[d]);
    c.disk := c.disk[d := data];
  }

  /** device_delete: from now on the device is only drained. */
  method DeleteDevice(c: Cache, d: nat)
    requires c.Valid() && d in c.space.devices
    modifies c.space`devices
    ensures c.Valid() && Reaches(old(c.View()), c.View())
    ensures c.space.devices == old(c.space.devices)[d := old(c.space.devices)[d].(deleted := true)]
    ensures forall i :: i in c.items && c.items[i].place.dev == d ==> !c.ItemServable(i)
  {
    hide InvBut, LruOk, AllShaped, DevView, CountView, PlaceView, SpaceModel.Inv, Devices.Space.Valid, Reaches;
    ghost var v := c.View();
    DevViewAt(c.space.devices, d);
    FdClosed(v, d);
    DeleteStep(v, d);
    c.space.MarkDeleted(d);
    DevViewUpdate(old(c.space.devices), d, c.space.devices[d]);
  }

  lemma DeleteStep(v: State, d: nat)
    requires Inv(v) && d in v.devs
    ensures var w := v.(devs := v.devs[d := v.devs[d].(deleted := true)]);
            Inv(w) && Reaches(v, w)
  {
    hide Inv, Reaches;
    StepKeeps(v, DoDeleteDevice(d));
    ReachesStep(v, DoDeleteDevice(d));
  }

  /** device_destroy, called for a deleted device until it is gone. Its file is open afterwards
      exactly while a request is using the device; its slot is freed only when no item and no free
      block refers to it; and if the list fits in one round, it is gone exactly when no request
      held an item of it. */
  method Destroy(c: Cache, d: nat) returns (gone: bool)
    requires c.Valid() && d in c.space.devices && c.space.devices[d].deleted
    modifies c, c.space, c.space.buckets
    ensures c.Valid() && SameConf(old(c.servers), c.servers) && c.now == old(c.now)
    ensures Thinned(old(c.items), c.items)
    ensures gone <==> d !in c.space.devices
    ensures gone ==>
            && (forall i :: i in c.items ==> c.items[i].place.dev != d)
            && (forall h :: h in c.space.blocks ==> c.space.blocks[h].dev != d)
    ensures !gone ==> (c.space.devices[d].fdOpen <==> c.space.devices[d].used != 0)
    ensures |old(c.space.devices)[d].order| <= Devices.LOOP_LIMIT + 1 ==> (gone <==> !AnyHeld(old(c.items), d))
    ensures Reaches(old(c.View()), c.View())
  {
    hide InvBut, LruOk, AllShaped, DevView, CountView, PlaceView, SpaceModel.Inv, Devices.Space.Valid, SameConf,
      Evicted, Thinned, HeldUpTo, Reaches, AnyHeld;
    Drain(c, d);
    EvictedReaches(old(c.View()), c.View());
    ListDecides(c, d);
    ThinnedHeld(old(c.items), c.items, d);
    ghost var v := c.View();
    CloseFile(c, d);
    ghost var w := c.View();
    ReachesTrans(old(c.View()), v, w);
    gone := c.space.devices[d].order == [];
    if gone {
      FreeSlot(c, d);
      ReachesTrans(old(c.View()), w, c.View());
    }
  }
}
