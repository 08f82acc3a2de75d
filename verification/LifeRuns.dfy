/** Whole runs of the item life cycle: what holds in every reachable state, whatever the
    interleaving of PUT, GET, DELETE, eviction, disk writes, sends, disk errors and device removal. */
module LifeRuns {
  import opened Lists
  import opened SizeClass
  import opened Life
  import opened LifeInv
  import opened LifeDelete
  import opened LifeSteps

  // ---------- the small steps ----------

  function StorePassby(st: State, k: Key, expire: int): State
    requires k.server in st.counts
  {
    var n := st.counts[k.server];
    st.(hash := st.hash[k := Passby(expire)], counts := st.counts[k.server := n.(passbyNr := n.passbyNr + 1)])
  }

  function DropPassby(st: State, k: Key): State
    requires k.server in st.counts
  {
    var n := st.counts[k.server];
    st.(hash := st.hash - {k}, counts := st.counts[k.server := n.(passbyNr := n.passbyNr - 1)])
  }

  lemma MarkerPlus(hash: map<Key, Entry>, k: Key, expire: int, s: nat)
    requires k !in hash
    ensures |Markers(hash[k := Passby(expire)], s)| == |Markers(hash, s)| + (if k.server == s then 1 else 0)
  {
    var M, M' := Markers(hash, s), Markers(hash[k := Passby(expire)], s);
    if k.server == s { assert M' == M + {k}; } else { assert M' == M; }
  }

  lemma PassbyKeeps(st: State, k: Key, expire: int)
    requires Inv(st) && k !in st.hash && k.server in st.counts
    ensures Inv(StorePassby(st, k, expire))
  {
    hide BlockSize, Placed, Hashed, Held, Images, Sends, DevUse, Counted, Logged;
    PassbyHashed(st.items, st.hash, st.log, k, expire);
    PassbyCounts(st.items, st.hash, st.counts, k, expire);
  }

  lemma PassbyHashed(items: map<ItemId, Item>, hash: map<Key, Entry>, log: seq<(Key, ItemId)>, k: Key, expire: int)
    requires k !in hash
    ensures Hashed(items, hash) <==> Hashed(items, hash[k := Passby(expire)])
    ensures Logged(hash, log) <==> Logged(hash[k := Passby(expire)], log)
  {
    hide Latest;
    var hash' := hash[k := Passby(expire)];
    assert forall j :: j in hash ==> hash'[j] == hash[j];
  }

  lemma PassbyCounts(items: map<ItemId, Item>, hash: map<Key, Entry>, counts: map<nat, Counts>, k: Key, expire: int)
    requires k !in hash && k.server in counts && Counted(items, hash, counts)
    ensures var n := counts[k.server];
            Counted(items, hash[k := Passby(expire)], counts[k.server := n.(passbyNr := n.passbyNr + 1)])
  {
    hide BlockBytes, Lengths, Markers, Sum;
    forall s | s in counts
      ensures |Markers(hash[k := Passby(expire)], s)| == |Markers(hash, s)| + (if k.server == s then 1 else 0)
    {
      MarkerPlus(hash, k, expire, s);
    }
  }

  lemma UnPassbyCounts(items: map<ItemId, Item>, hash: map<Key, Entry>, counts: map<nat, Counts>, k: Key, expire: int)
    requires k !in hash && k.server in counts && Counted(items, hash[k := Passby(expire)], counts)
    ensures var n := counts[k.server]; Counted(items, hash, counts[k.server := n.(passbyNr := n.passbyNr - 1)])
  {
    hide BlockBytes, Lengths, Markers, Sum;
    forall s | s in counts
      ensures |Markers(hash[k := Passby(expire)], s)| == |Markers(hash, s)| + (if k.server == s then 1 else 0)
    {
      MarkerPlus(hash, k, expire, s);
    }
    forall j | j in hash ensures j.server in counts { assert j in hash[k := Passby(expire)]; }
  }

  lemma DropPassbyKeeps(st: State, k: Key)
    requires Inv(st) && k in st.hash && st.hash[k].Passby? && k.server in st.counts
    ensures Inv(DropPassby(st, k))
  {
    hide BlockSize, Placed, Hashed, Held, Images, Sends, DevUse, Counted, Logged;
    var h, e := st.hash - {k}, st.hash[k].expire;
    assert h[k := Passby(e)] == st.hash;
    PassbyHashed(st.items, h, st.log, k, e);
    UnPassbyCounts(st.items, h, st.counts, k, e);
  }

  lemma ReadFailKeeps(st: State, r: ReqId)
    requires Inv(st) && r in st.reqs && st.reqs[r].Get?
    ensures Inv(st.(reqs := st.reqs[r := st.reqs[r].(diskError := true)]))
  {
    hide BlockSize, Placed, Hashed, Held, DevUse, Counted, Logged, OnDisk;
    var q := st.reqs[r];
    var q' := Get(q.item, q.plan, q.at, q.done, q.sent, true);
    SameHolders(st.items, st.items, st.reqs, r, q');
    SameUsers(st.items, st.items, st.reqs, st.devs, r, q');
  }

  lemma DevStatusKeeps(st: State, d: nat, dev: Dev)
    requires Inv(st) && d in st.devs && dev.capacity == st.devs[d].capacity && dev.used == st.devs[d].used
    requires !dev.fdOpen ==> dev.deleted && dev.used == 0
    ensures Inv(st.(devs := st.devs[d := dev]))
  {
    hide BlockSize, Placed, Hashed, Held, Images, Sends, Counted, Logged, Users;
    LetGoPlaced(st.items, st.devs, st.disk, st.devs[d := dev]);
  }

  lemma RemoveDeviceKeeps(st: State, d: nat)
    requires Inv(st) && d in st.devs && forall i :: i in st.items ==> st.items[i].place.dev != d
    ensures Inv(st.(devs := st.devs - {d}, disk := st.disk - {d}))
  {
    hide BlockSize, Hashed, Held, Sends, Counted, Logged, Users, Overlap;
  }

  lemma AddDeviceKeeps(st: State, d: nat, data: seq<Byte>)
    requires Inv(st) && d !in st.devs
    ensures Inv(st.(devs := st.devs[d := Dev(|data|, false, 0, true)], disk := st.disk[d := data]))
  {
    hide BlockSize, Hashed, Held, Sends, Counted, Logged, Overlap, Slice;
    NoUsers(st, d);
  }

  lemma NoUsers(st: State, d: nat)
    requires Placed(st.items, st.devs, st.disk) && d !in st.devs
    ensures Users(st.items, st.reqs, d) == {}
  {
    hide BlockSize, Overlap;
  }

  // ---------- one step ----------

  function Apply(st: State, s: Step): State
    requires Enabled(st, s)
  {
    hide BlockSize, Overlap;
    match s
    case DoPassby(k, expire) => StorePassby(st, k, expire)
    case DoDropPassby(k) => DropPassby(st, k)
    case DoPut(r, i, it) => StartPut(st, r, i, it)
    case DoWrite(r, data) => Write(st, r, data)
    case DoWriteFail(r, data) => WriteFail(st, r, data)
    case DoHit(r, i, plan) => Hit(st, r, i, plan)
    case DoSend(r, n) => Send(st, r, n)
    case DoReadFail(r) => st.(reqs := st.reqs[r := st.reqs[r].(diskError := true)])
    case DoFinalize(r) => Finalize(st, r)
    case DoDelete(i) => ItemDelete(st, i)
    case DoDeleteDevice(d) => st.(devs := st.devs[d := st.devs[d].(deleted := true)])
    case DoCloseFd(d) => st.(devs := st.devs[d := st.devs[d].(fdOpen := false)])
    case DoRemoveDevice(d) => st.(devs := st.devs - {d}, disk := st.disk - {d})
    case DoAddDevice(d, data) => st.(devs := st.devs[d := Dev(|data|, false, 0, true)], disk := st.disk[d := data])
  }

  lemma InvButAny(st: State, i: ItemId)
    requires Inv(st)
    ensures InvBut(st, {i})
  {
    hide BlockSize, Placed, Hashed, Sends, DevUse, Counted, Logged, OnDisk, Getters, Putters;
  }

  /** Every step keeps the invariant. */
  lemma StepKeeps(st: State, s: Step)
    requires Inv(st) && Enabled(st, s)
    ensures Inv(Apply(st, s))
  {
    hide Inv, BlockSize, Finalize, ItemDelete, StartPut, Write, WriteFail, Hit, Send, StorePassby, DropPassby,
      Overlap, CanWrite, CanSend, CanFinalize, PlaceOk;
    match s
    case DoPassby(k, expire) => PassbyKeeps(st, k, expire);
    case DoDropPassby(k) => DropPassbyKeeps(st, k);
    case DoPut(r, i, it) => PutKeeps(st, r, i, it);
    case DoWrite(r, data) => WriteKeeps(st, r, data);
    case DoWriteFail(r, data) => WriteKeeps(st, r, data);
    case DoHit(r, i, plan) => HitKeeps(st, r, i, plan);
    case DoSend(r, n) => SendKeeps(st, r, n);
    case DoReadFail(r) => ReadFailKeeps(st, r);
    case DoFinalize(r) => FinalizeKeeps(st, r);
    case DoDelete(i) => InvButAny(st, i); DeleteKeeps(st, i);
    case DoDeleteDevice(d) => FdClosed(st, d); DevStatusKeeps(st, d, st.devs[d].(deleted := true));
    case DoCloseFd(d) => DevStatusKeeps(st, d, st.devs[d].(fdOpen := false));
    case DoRemoveDevice(d) => RemoveDeviceKeeps(st, d);
    case DoAddDevice(d, data) => AddDeviceKeeps(st, d, data);
  }

  lemma FdClosed(st: State, d: nat)
    requires Inv(st) && d in st.devs
    ensures !st.devs[d].fdOpen ==> st.devs[d].deleted && st.devs[d].used == 0 && Users(st.items, st.reqs, d) == {}
  {
    hide BlockSize, Placed, Hashed, Held, Images, Sends, Counted, Logged;
  }

  // ---------- runs ----------

  ghost predicate Next(st: State, st': State) {
    exists s :: Enabled(st, s) && st' == Apply(st, s)
  }

  /** A run from a good state; the states that server start-up produces are such states. */
  ghost predicate IsRun(run: seq<State>) {
    run != [] && Inv(run[0]) && forall k :: 0 < k < |run| ==> Next(run[k - 1], run[k])
  }

  lemma {:induction false} RunInv(run: seq<State>, k: nat)
    requires IsRun(run) && k < |run|
    ensures Inv(run[k])
  {
    hide Inv, Apply, Enabled;
    if k > 0 {
      RunInv(run, k - 1);
      assert Next(run[k - 1], run[k]);
      var s :| Enabled(run[k - 1], s) && run[k] == Apply(run[k - 1], s);
      StepKeeps(run[k - 1], s);
    }
  }

  /** An empty cache with fresh devices is a good state. */
  lemma StartIsGood(st: State)
    requires st.items == map[] && st.hash == map[] && st.reqs == map[] && st.log == []
    requires st.disk.Keys == st.devs.Keys
    requires forall d :: d in st.devs ==>
             |st.disk[d]| == st.devs[d].capacity && st.devs[d].used == 0 && st.devs[d].fdOpen
    requires forall s :: s in st.counts ==> st.counts[s] == Counts(0, 0, 0, 0)
    ensures Inv(st)
  {
    forall s ensures BlockBytes(st.items, s) == map[] && Lengths(st.items, s) == map[] && Markers(st.hash, s) == {} {}
    forall d ensures Users(st.items, st.reqs, d) == {} {}
  }

  // ---------- several steps at once ----------

  ghost predicate Path(st: State, steps: seq<Step>, st': State)
    decreases |steps|
  {
    if steps == [] then st == st'
    else Enabled(st, steps[0]) && Path(Apply(st, steps[0]), steps[1..], st')
  }

  /** st' comes from st by some steps. */
  ghost predicate Reaches(st: State, st': State) {
    exists steps :: Path(st, steps, st')
  }

  lemma {:induction false} PathInv(st: State, steps: seq<Step>, st': State)
    requires Inv(st) && Path(st, steps, st')
    ensures Inv(st')
    decreases |steps|
  {
    hide Inv, Apply, Enabled;
    if steps != [] {
      StepKeeps(st, steps[0]);
      PathInv(Apply(st, steps[0]), steps[1..], st');
    }
  }

  lemma ReachesInv(st: State, st': State)
    requires Inv(st) && Reaches(st, st')
    ensures Inv(st')
  {
    hide Inv, Path;
    var steps :| Path(st, steps, st');
    PathInv(st, steps, st');
  }

  /** What the cache's methods do, call after call, is a run. */
  lemma {:induction false} ReachesRun(run: seq<State>, st': State) returns (run': seq<State>)
    requires IsRun(run) && Reaches(run[|run| - 1], st')
    ensures IsRun(run') && run <= run' && run'[|run'| - 1] == st'
  {
    hide Inv, Path;
    var steps :| Path(run[|run| - 1], steps, st');
    run' := PathRun(run, steps, st');
  }

  lemma {:induction false} PathRun(run: seq<State>, steps: seq<Step>, st': State) returns (run': seq<State>)
    requires IsRun(run) && Path(run[|run| - 1], steps, st')
    ensures IsRun(run') && run <= run' && run'[|run'| - 1] == st'
    decreases |steps|
  {
    hide Inv, Apply, Enabled;
    if steps == [] {
      run' := run;
    } else {
      var st := run[|run| - 1];
      var mid := Apply(st, steps[0]);
      var longer := run + [mid];
      assert Next(st, mid);
      forall k | 0 < k < |longer| ensures Next(longer[k - 1], longer[k]) {
        if k < |run| { assert Next(run[k - 1], run[k]); }
      }
      run' := PathRun(longer, steps[1..], st');
    }
  }

  lemma ReachesSelf(st: State)
    ensures Reaches(st, st)
  {
    assert Path(st, [], st);
  }

  lemma ReachesStep(st: State, s: Step)
    requires Enabled(st, s)
    ensures Reaches(st, Apply(st, s))
  {
    hide Apply, Enabled;
    assert Path(Apply(st, s), [s][1..], Apply(st, s));
    assert Path(st, [s], Apply(st, s));
  }

  lemma {:induction false} PathConcat(a: State, p: seq<Step>, b: State, q: seq<Step>, c: State)
    requires Path(a, p, b) && Path(b, q, c)
    ensures Path(a, p + q, c)
    decreases |p|
  {
    hide Apply, Enabled;
    if p == [] {
      assert p + q == q;
    } else {
      PathConcat(Apply(a, p[0]), p[1..], b, q, c);
      assert (p + q)[1..] == p[1..] + q;
    }
  }

  lemma ReachesTrans(a: State, b: State, c: State)
    requires Reaches(a, b) && Reaches(b, c)
    ensures Reaches(a, c)
  {
    hide Path;
    var p :| Path(a, p, b);
    var q :| Path(b, q, c);
    PathConcat(a, p, b, q, c);
  }

  // ---------- the theorems ----------

  /** The bytes a GET has sent are, at every moment of every run, the corresponding bytes of what
      the PUT of that item wrote; when its plan is done it has sent all of them. The item is
      complete: |image| is its full length. */
  lemma ServedBytes(run: seq<State>, k: nat, r: ReqId)
    requires IsRun(run) && k < |run| && r in run[k].reqs && run[k].reqs[r].Get?
    ensures var q := run[k].reqs[r];
            && q.item in run[k].items
            && var it := run[k].items[q.item];
               && !it.putting && |it.image| == it.place.length && Within(q.plan, |it.image|)
               && q.at <= |q.plan| && (q.at < |q.plan| ==> q.done <= q.plan[q.at].len)
               && q.sent == Expected(q.plan[..q.at], it.image)
                            + (if q.at < |q.plan| then Slice(it.image, q.plan[q.at].start, q.done) else [])
               && (q.at == |q.plan| ==> q.sent == Expected(q.plan, it.image))
  {
    hide IsRun, Inv, Expected, Slice;
    RunInv(run, k);
    Holding(run[k], r);
    SentSoFar(run[k], r);
    var q := run[k].reqs[r];
    if q.at == |q.plan| { assert q.plan[..q.at] == q.plan; }
  }

  lemma SentSoFar(st: State, r: ReqId)
    requires Inv(st) && r in st.reqs && st.reqs[r].Get? && st.reqs[r].item in st.items
    ensures var it := st.items[st.reqs[r].item]; |it.image| == it.place.length && SentOk(st.reqs[r], it.image)
  {
    hide BlockSize, Placed, Hashed, Held, Images, DevUse, Counted, Logged, SentOk;
  }

  /** Only a write of the request that holds an item adds to its image, and only at the end. */
  lemma ImageHistory(st: State, s: Step, i: ItemId)
    requires Enabled(st, s) && i in st.items && i in Apply(st, s).items
    ensures var image, image' := st.items[i].image, Apply(st, s).items[i].image;
            if s.DoWrite? && st.reqs[s.r].item == i then image' == image + s.data else image' == image
    ensures Apply(st, s).items[i].key == st.items[i].key && Apply(st, s).items[i].place == st.items[i].place
    ensures Apply(st, s).items[i].headersLen == st.items[i].headersLen
    ensures st.items[i].deleted ==> Apply(st, s).items[i].deleted
    ensures !st.items[i].putting ==> !Apply(st, s).items[i].putting
  {
    hide BlockSize, Overlap, WriteAt, Expected, Slice, ItemDelete, Finalize;
    match s
    case DoFinalize(r) => FinalizeItems(st, r, i);
    case DoDelete(j) => DeletedItems(st, j, i);
    case _ =>
  }

  lemma DeletedItems(st: State, j: ItemId, i: ItemId)
    requires j in st.items && st.items[j].key.server in st.counts && i in st.items && i in ItemDelete(st, j).items
    ensures var it := st.items[i]; ItemDelete(st, j).items[i] == if i == j then it.(deleted := true) else it
  {
    hide BlockSize;
  }

  lemma FinalizeItems(st: State, r: ReqId, i: ItemId)
    requires CanFinalize(st, r) && i in st.items && i in Finalize(st, r).items
    ensures var it, it' := st.items[i], Finalize(st, r).items[i];
            it'.image == it.image && it'.key == it.key && it'.place == it.place && it'.headersLen == it.headersLen
            && (it.deleted ==> it'.deleted) && (!it.putting ==> !it'.putting)
  {
    hide BlockSize, ItemDelete;
    var st', j := LetGo(st, r), st.reqs[r].item;
    if i in ItemDelete(st', j).items { DeletedItems(st', j, i); }
  }

  /** While a GET holds an item, neither the item nor its bytes change. */
  lemma {:induction false} HeldItemStable(run: seq<State>, j: nat, k: nat, r: ReqId, i: ItemId)
    requires IsRun(run) && j <= k < |run|
    requires forall m :: j <= m <= k ==> r in run[m].reqs && run[m].reqs[r].Get? && run[m].reqs[r].item == i
    ensures i in run[j].items && i in run[k].items
    ensures run[k].items[i].image == run[j].items[i].image && run[k].items[i].place == run[j].items[i].place
    decreases k
  {
    hide Inv, Apply, Enabled;
    RunInv(run, k);
    Holding(run[k], r);
    if j < k {
      HeldItemStable(run, j, k - 1, r, i);
      RunInv(run, k - 1);
      assert Next(run[k - 1], run[k]);
      var s :| Enabled(run[k - 1], s) && run[k] == Apply(run[k - 1], s);
      ImageHistory(run[k - 1], s, i);
      if s.DoWrite? && Enabled(run[k - 1], s) { NotWriting(run[k - 1], s, r); }
    }
  }

  lemma NotWriting(st: State, s: Step, r: ReqId)
    requires Inv(st) && s.DoWrite? && Enabled(st, s) && r in st.reqs && st.reqs[r].Get?
    ensures s.r in st.reqs && st.reqs[s.r].item != st.reqs[r].item
  {
    Holding(st, r);
    Holding(st, s.r);
  }

  // ---------- from the bytes a client sent to the image ----------

  /** What request r wrote along the way, in order. */
  function Written(steps: seq<Step>, r: ReqId): seq<Byte> {
    if steps == [] then []
    else (if steps[0].DoWrite? && steps[0].r == r then steps[0].data else []) + Written(steps[1..], r)
  }

  /** A request keeps its item until it is finalized. */
  lemma StillHolds(st: State, s: Step, r: ReqId)
    requires Inv(st) && Enabled(st, s) && r in st.reqs && s != DoFinalize(r)
    ensures r in Apply(st, s).reqs && Apply(st, s).reqs[r].item == st.reqs[r].item
    ensures Apply(st, s).reqs[r].Put? == st.reqs[r].Put?
    ensures st.reqs[r].Get? ==> Apply(st, s).reqs[r].plan == st.reqs[r].plan
    ensures st.reqs[r].item in st.items && st.reqs[r].item in Apply(st, s).items
  {
    StepKeeps(st, s);
    Holding(st, r);
    KeepsRequest(st, s, r);
    hide Inv, Apply, Enabled;
    Holding(Apply(st, s), r);
  }

  lemma KeepsRequest(st: State, s: Step, r: ReqId)
    requires Enabled(st, s) && r in st.reqs && s != DoFinalize(r)
    ensures r in Apply(st, s).reqs && Apply(st, s).reqs[r].item == st.reqs[r].item
            && Apply(st, s).reqs[r].Put? == st.reqs[r].Put?
    ensures st.reqs[r].Get? ==> Apply(st, s).reqs[r].plan == st.reqs[r].plan
  {
    hide BlockSize, Overlap, WriteAt, Expected, Slice, ItemDelete, Finalize;
    match s
    case DoFinalize(q) => FinalizeReqs(st, q);
    case DoDelete(i) => DeleteReqs(st, i);
    case _ =>
  }

  /** While request r stores item i, the image grows by what r writes, and by nothing else. */
  lemma StoredStep(st: State, s: Step, r: ReqId)
    requires Inv(st) && Enabled(st, s) && r in st.reqs && st.reqs[r].Put? && s != DoFinalize(r)
    ensures var i := st.reqs[r].item;
            && i in st.items && i in Apply(st, s).items
            && Apply(st, s).items[i].image == st.items[i].image + Written([s], r)
            && Apply(st, s).items[i].place == st.items[i].place && Apply(st, s).items[i].key == st.items[i].key
  {
    hide Inv, Apply, Enabled;
    if s.DoWrite? { WriterHolds(st, s); }
    StillHolds(st, s, r);
    var i := st.reqs[r].item;
    ImageHistory(st, s, i);
    WrittenOne(s, r);
    hide Written;
    if s.DoWrite? && st.reqs[s.r].item == i { OnlyPutter(st, r, s.r); }
    assert st.items[i].image + [] == st.items[i].image;
  }

  lemma WriterHolds(st: State, s: Step)
    requires s.DoWrite? && Enabled(st, s)
    ensures s.r in st.reqs && st.reqs[s.r].Put?
  {
  }

  lemma WrittenOne(s: Step, r: ReqId)
    ensures Written([s], r) == if s.DoWrite? && s.r == r then s.data else []
  {
    assert [s][1..] == [] && Written([], r) == [];
    var d := if s.DoWrite? && s.r == r then s.data else [];
    assert d + [] == d;
  }

  lemma OnlyPutter(st: State, r: ReqId, q: ReqId)
    requires Inv(st) && r in st.reqs && st.reqs[r].Put? && q in st.reqs && st.reqs[q].item == st.reqs[r].item
    ensures q == r
  {
    hide Placed, Hashed, Images, Sends, DevUse, Counted, Logged, Held;
    PutterOnly(st.reqs, st.items, r, q);
  }

  ghost predicate NotFinalized(steps: seq<Step>, r: ReqId) {
    forall k :: 0 <= k < |steps| ==> steps[k] != DoFinalize(r)
  }

  lemma {:induction false} StoredBytes(st: State, steps: seq<Step>, st': State, r: ReqId)
    requires Inv(st) && Path(st, steps, st') && r in st.reqs && st.reqs[r].Put? && NotFinalized(steps, r)
    ensures var i := st.reqs[r].item;
            && r in st'.reqs && st'.reqs[r].Put? && st'.reqs[r].item == i && i in st.items && i in st'.items
            && st'.items[i].image == st.items[i].image + Written(steps, r)
            && st'.items[i].place == st.items[i].place && st'.items[i].key == st.items[i].key
    decreases |steps|
  {
    hide Inv, Apply, Enabled;
    if steps == [] {
      Holding(st, r);
      assert st.items[st.reqs[r].item].image + [] == st.items[st.reqs[r].item].image;
    } else {
      var s, rest, mid := steps[0], steps[1..], Apply(st, steps[0]);
      assert forall k :: 0 <= k < |rest| ==> rest[k] == steps[k + 1];
      StepKeeps(st, s);
      StillHolds(st, s, r);
      StoredStep(st, s, r);
      StoredBytes(mid, rest, st', r);
      WrittenSplit(steps, r);
      hide Written;
      var a := st.items[st.reqs[r].item].image;
      assert a + Written([s], r) + Written(rest, r) == a + (Written([s], r) + Written(rest, r));
    }
  }

  lemma WrittenSplit(steps: seq<Step>, r: ReqId)
    requires steps != []
    ensures Written(steps, r) == Written([steps[0]], r) + Written(steps[1..], r)
  {
    WrittenOne(steps[0], r);
  }

  /** Item i is there, and not being stored, in every state along the way. */
  ghost predicate Lasts(st: State, steps: seq<Step>, i: ItemId)
    decreases |steps|
  {
    i in st.items && (steps != [] ==> Enabled(st, steps[0]) && Lasts(Apply(st, steps[0]), steps[1..], i))
  }

  lemma QuietStep(st: State, s: Step, i: ItemId)
    requires Inv(st) && Enabled(st, s) && i in st.items && i in Apply(st, s).items && !st.items[i].putting
    ensures Apply(st, s).items[i].image == st.items[i].image && !Apply(st, s).items[i].putting
  {
    hide Inv, Apply, Enabled;
    if s.DoWrite? {
      WriterHolds(st, s);
      Holding(st, s.r);
    }
    ImageHistory(st, s, i);
  }

  /** Once an item is stored its image never changes. */
  lemma {:induction false} QuietImage(st: State, steps: seq<Step>, st': State, i: ItemId)
    requires Inv(st) && Path(st, steps, st') && Lasts(st, steps, i) && !st.items[i].putting
    ensures i in st'.items && st'.items[i].image == st.items[i].image && !st'.items[i].putting && Inv(st')
    decreases |steps|
  {
    hide Inv, Apply, Enabled;
    if steps != [] {
      StepKeeps(st, steps[0]);
      QuietStep(st, steps[0], i);
      QuietImage(Apply(st, steps[0]), steps[1..], st', i);
    }
  }

  /** Request r is accepted as the store of item i, and the steps that follow do not finalize it. */
  ghost predicate Storing(st: State, r: ReqId, i: ItemId, it: Item, steps: seq<Step>, mid: State) {
    Enabled(st, DoPut(r, i, it)) && Path(Apply(st, DoPut(r, i, it)), steps, mid) && NotFinalized(steps, r)
  }

  /** The store is finalized, and item i lasts. */
  ghost predicate Keeping(mid: State, r: ReqId, i: ItemId, later: seq<Step>, st': State) {
    Enabled(mid, DoFinalize(r)) && Path(Apply(mid, DoFinalize(r)), later, st')
        && Lasts(Apply(mid, DoFinalize(r)), later, i)
  }

  /** From the store to the answer: request r is accepted as the store of item i, writes, and is
      finalized; whatever happens before and after, a GET that finds item i sends the bytes that r
      wrote, in order, as its plan selects them. */
  lemma ServedIsWritten(st: State, r: ReqId, i: ItemId, it: Item, steps: seq<Step>, mid: State, later: seq<Step>,
      st': State, g: ReqId)
    requires Inv(st) && Storing(st, r, i, it, steps, mid) && Keeping(mid, r, i, later, st')
    requires g in st'.reqs && st'.reqs[g].Get? && st'.reqs[g].item == i
    ensures var bytes, q := Written(steps, r), st'.reqs[g];
            && |bytes| == it.place.length && SentOk(q, bytes)
            && (q.at == |q.plan| ==> q.sent == Expected(q.plan, bytes))
  {
    hide Inv, Apply, Enabled, Expected, Slice, Written, Path, NotFinalized, Lasts;
    var st1 := Apply(st, DoPut(r, i, it));
    PutBegins(st, r, i, it);
    StepKeeps(st, DoPut(r, i, it));
    LastsHere(Apply(mid, DoFinalize(r)), later, i);
    StoredBytes(st1, steps, mid, r);
    PathInv(st1, steps, mid);
    assert [] + Written(steps, r) == Written(steps, r);
    StepKeeps(mid, DoFinalize(r));
    Finalizing(mid, r, i);
    QuietImage(Apply(mid, DoFinalize(r)), later, st', i);
    Holding(st', g);
    SentSoFar(st', g);
    QuietPlace(Apply(mid, DoFinalize(r)), later, st', i);
    var q := st'.reqs[g];
    if q.at == |q.plan| { assert q.plan[..q.at] == q.plan; }
  }

  lemma LastsHere(st: State, steps: seq<Step>, i: ItemId)
    requires Lasts(st, steps, i)
    ensures i in st.items
  {
    hide Apply, Enabled;
  }

  lemma PutBegins(st: State, r: ReqId, i: ItemId, it: Item)
    requires Enabled(st, DoPut(r, i, it))
    ensures var st1 := Apply(st, DoPut(r, i, it));
            && r in st1.reqs && st1.reqs[r] == Put(i, 0, false) && i in st1.items && st1.items[i] == it
               && it.image == []
  {
    hide BlockSize, Overlap;
  }

  lemma Finalizing(st: State, r: ReqId, i: ItemId)
    requires Inv(st) && Enabled(st, DoFinalize(r)) && st.reqs[r].Put? && st.reqs[r].item == i
             && i in Apply(st, DoFinalize(r)).items
    ensures i in st.items && Apply(st, DoFinalize(r)).items[i].image == st.items[i].image
    ensures !Apply(st, DoFinalize(r)).items[i].putting && Apply(st, DoFinalize(r)).items[i].place == st.items[i].place
  {
    hide Inv, BlockSize, ItemDelete;
    FinalizeItems(st, r, i);
    if i in ItemDelete(LetGo(st, r), i).items { DeletedItems(LetGo(st, r), i, i); }
  }

  lemma {:induction false} QuietPlace(st: State, steps: seq<Step>, st': State, i: ItemId)
    requires Path(st, steps, st') && Lasts(st, steps, i)
    ensures i in st'.items && st'.items[i].place == st.items[i].place
    decreases |steps|
  {
    hide Apply, Enabled;
    if steps != [] {
      ImageHistory(st, steps[0], i);
      QuietPlace(Apply(st, steps[0]), steps[1..], st', i);
    }
  }

  /** Nothing is added to a complete image. */
  lemma FullStep(st: State, s: Step, i: ItemId)
    requires Inv(st) && Enabled(st, s) && i in st.items && i in Apply(st, s).items
             && |st.items[i].image| == st.items[i].place.length
    ensures var it, it' := st.items[i], Apply(st, s).items[i];
            it'.image == it.image && it'.place == it.place && it'.headersLen == it.headersLen
  {
    hide Inv, Apply, Enabled;
    if s.DoWrite? { WriteRoom(st, s); }
    ImageHistory(st, s, i);
    assert st.items[i].image + [] == st.items[i].image;
  }

  lemma WriteRoom(st: State, s: Step)
    requires Inv(st) && s.DoWrite? && Enabled(st, s)
    ensures s.r in st.reqs && st.reqs[s.r].item in st.items
    ensures var it := st.items[st.reqs[s.r].item]; |it.image| + |s.data| <= it.place.length
  {
    hide Placed, Hashed, Held, Sends, DevUse, Counted, Logged, OnDisk;
  }

  lemma {:induction false} FullImage(st: State, steps: seq<Step>, st': State, i: ItemId)
    requires Inv(st) && Path(st, steps, st') && Lasts(st, steps, i) && |st.items[i].image| == st.items[i].place.length
    ensures Inv(st') && i in st'.items
    ensures var it, it' := st.items[i], st'.items[i];
            it'.image == it.image && it'.place == it.place && it'.headersLen == it.headersLen
    decreases |steps|
  {
    hide Inv, Apply, Enabled;
    if steps != [] {
      StepKeeps(st, steps[0]);
      FullStep(st, steps[0], i);
      FullImage(Apply(st, steps[0]), steps[1..], st', i);
    }
  }

  /** While a GET is under way its item lasts and its plan does not change. */
  lemma {:induction false} GetLasts(st: State, steps: seq<Step>, st': State, g: ReqId)
    requires Inv(st) && Path(st, steps, st') && g in st.reqs && st.reqs[g].Get? && NotFinalized(steps, g)
    ensures Lasts(st, steps, st.reqs[g].item)
    ensures g in st'.reqs && st'.reqs[g].Get? && st'.reqs[g].item == st.reqs[g].item
            && st'.reqs[g].plan == st.reqs[g].plan
    decreases |steps|
  {
    hide Inv, Apply, Enabled;
    Holding(st, g);
    if steps != [] {
      var rest := steps[1..];
      assert forall k :: 0 <= k < |rest| ==> rest[k] == steps[k + 1];
      StepKeeps(st, steps[0]);
      StillHolds(st, steps[0], g);
      GetLasts(Apply(st, steps[0]), rest, st', g);
    }
  }

  /** A GET finds item i, and the steps that follow do not finalize it. */
  ghost predicate Getting(mid: State, g: ReqId, i: ItemId, plan: seq<Range>, after: seq<Step>, st': State) {
    Enabled(mid, DoHit(g, i, plan)) && Path(Apply(mid, DoHit(g, i, plan)), after, st') && NotFinalized(after, g)
  }

  /** A complete item is found and sent: whatever the interleaving, a GET whose plan is done has sent
      what its plan selects of the image. */
  lemma CompleteServed(st: State, before: seq<Step>, mid: State, g: ReqId, i: ItemId, plan: seq<Range>,
      after: seq<Step>, st': State)
    requires Inv(st) && i in st.items && |st.items[i].image| == st.items[i].place.length
    requires Path(st, before, mid) && Lasts(st, before, i) && Getting(mid, g, i, plan, after, st')
    ensures i in mid.items && mid.items[i].headersLen == st.items[i].headersLen
            && mid.items[i].place == st.items[i].place
    ensures g in st'.reqs && st'.reqs[g].Get?
    ensures st'.reqs[g].at == |st'.reqs[g].plan| ==>
            Within(plan, |st.items[i].image|) && st'.reqs[g].sent == Expected(plan, st.items[i].image)
  {
    hide Inv, Apply, Enabled, Path, Lasts, NotFinalized, Expected;
    FullImage(st, before, mid, i);
    HitBegins(mid, g, i, plan);
    StepKeeps(mid, DoHit(g, i, plan));
    var hit := Apply(mid, DoHit(g, i, plan));
    GetLasts(hit, after, st', g);
    FullImage(hit, after, st', i);
    Holding(st', g);
    SentSoFar(st', g);
    var q := st'.reqs[g];
    if q.at == |q.plan| { assert q.plan[..q.at] == q.plan; }
  }

  lemma HitBegins(st: State, g: ReqId, i: ItemId, plan: seq<Range>)
    requires Enabled(st, DoHit(g, i, plan))
    ensures var hit := Apply(st, DoHit(g, i, plan));
            && i in st.items && i in hit.items && hit.items[i] == st.items[i].(used := st.items[i].used + 1)
            && g in hit.reqs && hit.reqs[g] == Get(i, plan, 0, 0, [], false)
  {
  }

  /** Latest store wins: a hit yields the item of the most recent accepted store for its key. */
  lemma LatestStoreWins(run: seq<State>, k: nat, r: ReqId, i: ItemId, plan: seq<Range>)
    requires IsRun(run) && k < |run| && Enabled(run[k], DoHit(r, i, plan))
    ensures Latest(run[k].log, run[k].items[i].key) == Some(i)
    ensures |run[k].items[i].image| == run[k].items[i].place.length
  {
    hide IsRun, Inv, Latest, BlockSize;
    RunInv(run, k);
    FoundIsLatest(run[k], i);
  }

  lemma FoundIsLatest(st: State, i: ItemId)
    requires Inv(st) && i in st.items && !st.items[i].putting
    requires st.items[i].key in st.hash && st.hash[st.items[i].key] == ItemEntry(i)
    ensures Latest(st.log, st.items[i].key) == Some(i)
    ensures |st.items[i].image| == st.items[i].place.length
  {
    hide BlockSize, Placed, Hashed, Held, Sends, DevUse, Counted, OnDisk, Latest;
  }

  /** A block is given back only when no request holds the item any more. */
  lemma BlockReturnedUnheld(st: State, s: Step, i: ItemId)
    requires Inv(st) && Enabled(st, s) && i in st.items && i !in Apply(st, s).items
    ensures forall r :: r in Apply(st, s).reqs ==> Apply(st, s).reqs[r].item != i
    ensures s.DoDelete? || s.DoFinalize?
  {
    hide Inv, BlockSize, Overlap;
    StepKeeps(st, s);
    HeldItems(Apply(st, s));
  }

  /** Once a device is deleted no request newly gets hold of one of its items, and while its file
      is closed nobody holds any. */
  lemma Retirement(run: seq<State>, k: nat, d: nat)
    requires IsRun(run) && k + 1 < |run| && d in run[k].devs && run[k].devs[d].deleted && d in run[k + 1].devs
    ensures run[k + 1].devs[d].deleted
    ensures Users(run[k + 1].items, run[k + 1].reqs, d) <= Users(run[k].items, run[k].reqs, d)
    ensures !run[k].devs[d].fdOpen ==> Users(run[k].items, run[k].reqs, d) == {} && !run[k + 1].devs[d].fdOpen
  {
    hide Inv, Apply, Enabled;
    RunInv(run, k);
    RunInv(run, k + 1);
    FdClosed(run[k], d);
    assert Next(run[k], run[k + 1]);
    var s :| Enabled(run[k], s) && run[k + 1] == Apply(run[k], s);
    NoNewUsers(run[k], s, d);
  }

  /** Requests appear only by a store or a hit, on a device in service. */
  lemma NewRequests(st: State, s: Step, r: ReqId)
    requires Enabled(st, s) && r in Apply(st, s).reqs
    ensures if r in st.reqs && !(s.DoPut? && s.r == r) && !(s.DoHit? && s.r == r)
            then Apply(st, s).reqs[r].item == st.reqs[r].item
            else (s.DoPut? || s.DoHit?) && s.r == r && r !in st.reqs && Apply(st, s).reqs[r].item == s.i
                 && s.i in Apply(st, s).items
                 && var d := Apply(st, s).items[s.i].place.dev; d in st.devs && !st.devs[d].deleted
  {
    hide BlockSize, Overlap, WriteAt, Expected, Slice, ItemDelete;
    match s
    case DoFinalize(q) => FinalizeReqs(st, q);
    case DoDelete(i) => DeleteReqs(st, i);
    case _ =>
  }

  lemma DeleteReqs(st: State, i: ItemId)
    requires i in st.items && st.items[i].key.server in st.counts
    ensures ItemDelete(st, i).reqs == st.reqs && ItemDelete(st, i).devs == st.devs
  {
    hide BlockSize;
  }

  lemma FinalizeReqs(st: State, r: ReqId)
    requires CanFinalize(st, r)
    ensures Finalize(st, r).reqs == st.reqs - {r}
    ensures forall d :: d in st.devs ==>
            && d in Finalize(st, r).devs
            && Finalize(st, r).devs[d].deleted == st.devs[d].deleted
            && Finalize(st, r).devs[d].fdOpen == st.devs[d].fdOpen
  {
    hide BlockSize, ItemDelete;
    DeleteReqs(LetGo(st, r), st.reqs[r].item);
  }

  lemma DeletedStays(st: State, s: Step, d: nat)
    requires Enabled(st, s) && d in st.devs && st.devs[d].deleted && d in Apply(st, s).devs
    ensures Apply(st, s).devs[d].deleted && (!st.devs[d].fdOpen ==> !Apply(st, s).devs[d].fdOpen)
  {
    hide BlockSize, Overlap, WriteAt, Expected, Slice, ItemDelete;
    match s
    case DoFinalize(q) => FinalizeReqs(st, q);
    case DoDelete(i) => DeleteReqs(st, i);
    case _ =>
  }

  lemma NoNewUsers(st: State, s: Step, d: nat)
    requires Inv(st) && Enabled(st, s) && d in st.devs && st.devs[d].deleted && d in Apply(st, s).devs
    ensures Apply(st, s).devs[d].deleted && (!st.devs[d].fdOpen ==> !Apply(st, s).devs[d].fdOpen)
    ensures Users(Apply(st, s).items, Apply(st, s).reqs, d) <= Users(st.items, st.reqs, d)
  {
    DeletedStays(st, s, d);
    HeldItems(st);
    hide Inv, Apply, Enabled;
    var st' := Apply(st, s);
    forall r | r in Users(st'.items, st'.reqs, d) ensures r in Users(st.items, st.reqs, d) {
      NewRequests(st, s, r);
      var i := st'.reqs[r].item;
      if r in st.reqs { ImageHistory(st, s, i); }
    }
  }

  /** A removed device has no item left, so the index slot can be used again. */
  lemma RemovedDeviceUnused(run: seq<State>, k: nat, i: ItemId)
    requires IsRun(run) && k < |run| && i in run[k].items
    ensures run[k].items[i].place.dev in run[k].devs
  {
    RunInv(run, k);
    hide BlockSize, Hashed, Held, Images, Sends, DevUse, Counted, Logged, Overlap;
  }
}
