/** The master and worker threads of worker.c, with event.c and the hand-over side of request.c, as
    a transition system. A step is what one thread does between two points where another thread
    can interfere: a pipe read or write with the field updates around it, or one counter update.
    Requests are passed by pointer through two pipes per worker, without locks. */
module Workers {
  import opened Lists

  type ReqId = nat

  /** Requests are read from a pipe in batches of this size. */
  const BATCH := 50

  /** ohc_worker_t: the pipes (dispatch, ret), the lists (working, blocked), the array a thread is
      reading into (batch: the worker's, recycle: the master's), how many requests the master has
      handled of what it read but not yet subtracted, request_nr, and whether quit_time is set. */
  datatype Worker = Worker(
    dispatch: seq<ReqId>, batch: seq<ReqId>, working: seq<ReqId>, blocked: seq<ReqId>, ret: seq<ReqId>,
        recycle: seq<ReqId>,
    handled: nat, nr: int, quit: bool, gone: bool)

  /** Where the master is: between events, between the write to a pipe and request_nr++, or inside
      worker_request_recycle. */
  datatype Pc = Idle | Counting(w: nat) | Recycling(w: nat)

  /** event_handler: nothing yet, reading the request header, one of the functions that serve a
      request at a worker, request_finalize, or request_do_finalize. */
  datatype Handler = Unset | ReadHeader | Serve | Finalize | DoFinalize

  datatype State = State(
    master: seq<ReqId>, workers: seq<Worker>, ring: seq<nat>, pc: Pc,
    live: set<ReqId>, connections: int, thread: map<ReqId, Option<nat>>, events: set<ReqId>, broken: set<ReqId>,
    handler: map<ReqId, Handler>)

  function Fresh(): Worker {
    Worker([], [], [], [], [], [], 0, 0, false, false)
  }

  /** How often r stands in a list. */
  ghost function Cnt(q: seq<ReqId>, r: ReqId): nat {
    multiset(q)[r]
  }

  /** How often r stands in a worker's pipes, lists and batches, and how many requests these hold. */
  ghost function Own(w: Worker, r: ReqId): nat {
    Cnt(w.dispatch, r) + Cnt(w.batch, r) + Cnt(w.working, r) + Cnt(w.blocked, r) + Cnt(w.ret, r) + Cnt(w.recycle, r)
  }

  function Size(w: Worker): nat {
    |w.dispatch| + |w.batch| + |w.working| + |w.blocked| + |w.ret| + |w.recycle|
  }

  ghost function Total(ws: seq<Worker>, r: ReqId): nat {
    if ws == [] then 0 else Total(ws[..|ws| - 1], r) + Own(ws[|ws| - 1], r)
  }

  function Reversed(q: seq<ReqId>): seq<ReqId> {
    if q == [] then [] else Reversed(q[1..]) + [q[0]]
  }

  lemma {:induction false} ReversedConcat(a: seq<ReqId>, b: seq<ReqId>)
    ensures Reversed(a + b) == Reversed(b) + Reversed(a)
  {
    if a == [] {
      assert a + b == b;
    } else {
      ReversedConcat(a[1..], b);
      assert (a + b)[1..] == a[1..] + b;
    }
  }

  /** One batch: each request to the head of the list. */
  method AddAll(reqs: seq<ReqId>, list: seq<ReqId>) returns (list': seq<ReqId>)
    ensures list' == Reversed(reqs) + list
  {
    list' := list;
    for i := 0 to |reqs|
      invariant list' == Reversed(reqs[..i]) + list
    {
      assert reqs[..i + 1] == reqs[..i] + [reqs[i]];
      ReversedConcat(reqs[..i], [reqs[i]]);
      assert Reversed([reqs[i]]) == [reqs[i]];
      list' := [reqs[i]] + list';
    }
    assert reqs[..|reqs|] == reqs;
  }

  /** worker_do_request_read on a pipe that nobody writes to meanwhile: batch after batch until a
      short one. Nothing stays behind in the pipe, also when the last batch was a full one, and
      `count` is what worker_request_recycle subtracts. */
  method DoRead(pipe: seq<ReqId>, list: seq<ReqId>) returns (list': seq<ReqId>, count: nat)
    ensures list' == Reversed(pipe) + list && count == |pipe|
  {
    hide Reversed;
    list', count := list, 0;
    var full := true;
    NoneRead(pipe, list);
    while full
      invariant count <= |pipe| && list' == Reversed(pipe[..count]) + list && (!full ==> count == |pipe|)
      decreases full, |pipe| - count
    {
      var k := if |pipe| - count < BATCH then |pipe| - count else BATCH;
      var reqs := pipe[count..count + k];
      ReversedConcat(pipe[..count], reqs);
      assert pipe[..count + k] == pipe[..count] + reqs;
      list' := AddAll(reqs, list');
      count := count + k;
      full := k == BATCH;
    }
    assert pipe[..|pipe|] == pipe;
  }

  lemma NoneRead(pipe: seq<ReqId>, list: seq<ReqId>)
    ensures Reversed(pipe[..0]) + list == list
  {
  }

  // ---------- steps ----------

  /** A worker hands a request back when it is done with it (`cut`: its connection failed or timed
      out) or when request_clean sweeps it (`clean`); `ok` is the outcome of the pipe write. */
  datatype Step =
    | Accept(r: ReqId)
    | Listen(r: ReqId)
    | Dispatch(r: ReqId, ok: bool)
    | Count
    | Receive(w: nat, k: nat)
    | Take(w: nat)
    | Wait(w: nat, r: ReqId)
    | Return(w: nat, r: ReqId, ok: bool, cut: bool, clean: bool)
    | Recycle(w: nat, k: nat)
    | Finish(w: nat, keep: bool)
    | Subtract(w: nat)
    | Close(r: ReqId, keep: bool)
    | Create
    | Delete
    | Exit(w: nat)

  /** The worker that worker_delete removes: the one after the current one. */
  function Victim(ring: seq<nat>): nat
    requires ring != []
  {
    if |ring| > 1 then ring[1] else ring[0]
  }

  /** worker_create puts a new worker behind the current one. */
  function Inserted(ring: seq<nat>, n: nat): seq<nat> {
    if ring == [] then [n] else [ring[0], n] + ring[1..]
  }

  predicate Runs(st: State, w: nat) {
    w < |st.workers| && !st.workers[w].gone
  }

  /** Steps that a worker takes, or that the master takes on the return pipe of a worker. */
  predicate Inner(s: Step) {
    s.Receive? || s.Take? || s.Wait? || s.Return? || s.Recycle? || s.Subtract? || s.Exit?
  }

  predicate Ready(w: Worker, s: Step)
    requires Inner(s)
  {
    match s
    case Receive(_, k) => w.batch == [] && k <= BATCH && k <= |w.dispatch|
    case Take(_) => w.batch != []
    case Wait(_, r) => r in w.working
    // blocked requests have no event: only request_clean comes upon them. It sweeps the working
    // list once the time to quit has come
    case Return(_, r, _, _, clean) => if clean then r in w.blocked || (w.quit && r in w.working) else r in w.working
    case Recycle(_, k) => w.recycle == [] && k <= BATCH && k <= |w.ret|
    case Subtract(_) => w.recycle == []
    case Exit(_) => w.quit && w.nr == 0
  }

  predicate Enabled(st: State, s: Step) {
    if Inner(s) then
      && Runs(st, s.w) && Ready(st.workers[s.w], s)
      // the master enters worker_request_recycle only when epoll says that there is something to read
      && (s.Recycle? ==> (st.pc.Idle? && s.k > 0) || st.pc == Recycling(s.w))
      && (s.Subtract? ==> st.pc == Recycling(s.w))
    else
      match s
      case Accept(r) => st.pc.Idle? && r !in st.live
      case Listen(r) => st.pc.Idle? && r in st.master
      case Dispatch(r, _) => st.pc.Idle? && r in st.master && st.ring != [] && st.ring[0] < |st.workers|
      case Count => st.pc.Counting? && st.pc.w < |st.workers|
      case Finish(w, keep) =>
        st.pc == Recycling(w) && Runs(st, w) && st.workers[w].recycle != []
            && (keep ==> st.workers[w].recycle[0] !in st.broken)
      case Close(r, keep) => st.pc.Idle? && r in st.master && (keep ==> r !in st.broken)
      // current_worker is set when the first worker is made and never reset
      case Create => st.pc.Idle? && (st.ring == [] ==> st.workers == [])
      case Delete => st.pc.Idle? && st.ring != [] && Victim(st.ring) < |st.workers|
  }

  /** request_do_finalize: kept alive and listening again, or closed and freed. */
  function Finalized(st: State, r: ReqId, keep: bool): State {
    if keep then
      st.(master := [r] + Del(st.master, r), events := st.events + {r}, handler := st.handler[r := ReadHeader])
    else
      st.(master := Del(st.master, r), live := st.live - {r}, connections := st.connections - 1,
          events := st.events - {r}, broken := st.broken - {r}, handler := st.handler - {r})
  }

  /** One request of the master's batch goes to the master list. */
  function PickUp(st: State, i: nat): State
    requires i < |st.workers| && st.workers[i].recycle != []
  {
    var w := st.workers[i];
    st.(workers := st.workers[i := w.(recycle := w.recycle[1..], handled := w.handled + 1)],
        master := [w.recycle[0]] + st.master)
  }

  /** worker_do_request_write at a worker: into the return pipe, or into the blocked list. */
  function HandedBack(w: Worker, r: ReqId, ok: bool): Worker {
    var w' := w.(working := Del(w.working, r), blocked := Del(w.blocked, r));
    if ok then w'.(ret := w.ret + [r]) else w'.(blocked := [r] + w'.blocked)
  }

  /** The worker after such a step. */
  function Changed(w: Worker, s: Step): Worker
    requires Inner(s) && Ready(w, s)
  {
    match s
    case Receive(_, k) => w.(batch := w.dispatch[..k], dispatch := w.dispatch[k..])
    case Take(_) => w.(batch := w.batch[1..], working := [w.batch[0]] + w.working)
    case Wait(_, _) => w
    case Return(_, r, ok, _, _) => HandedBack(w, r, ok)
    case Recycle(_, k) => w.(recycle := w.ret[..k], ret := w.ret[k..])
    case Subtract(_) => w.(nr := w.nr - w.handled, handled := 0)
    case Exit(_) => w.(gone := true)
  }

  /** request_clean takes a request for one that is cut off by quitting unless its handler is
      request_finalize. */
  predicate CutOff(handler: map<ReqId, Handler>, r: ReqId) {
    r in handler ==> handler[r] != Finalize
  }

  /** What such a step does to the request it is about. */
  function InnerApply(st: State, s: Step): State
    requires Inner(s) && Enabled(st, s)
  {
    var w := st.workers[s.w];
    var st' := st.(workers := st.workers[s.w := Changed(w, s)],
                   pc := if s.Recycle? then Recycling(s.w) else if s.Subtract? then Idle else st.pc);
    if s.Wait? then st'.(events := st.events + {s.r}, handler := st.handler[s.r := Serve])
    else if s.Return? then
      st'.(events := st.events - {s.r}, thread := (if s.ok then st.thread[s.r := None] else st.thread),
           broken := (if s.cut || (s.clean && CutOff(st.handler, s.r)) then st.broken + {s.r} else st.broken),
           handler := st.handler[s.r := DoFinalize])
    else st'
  }

  function Apply(st: State, s: Step): State
    requires Enabled(st, s)
  {
    if Inner(s) then InnerApply(st, s)
    else
      match s
      case Accept(r) =>
        st.(master := [r] + st.master, live := st.live + {r}, connections := st.connections + 1,
            thread := st.thread[r := None], events := st.events - {r}, broken := st.broken - {r},
            handler := st.handler[r := Unset])
      case Listen(r) => st.(events := st.events + {r}, handler := st.handler[r := ReadHeader])
      case Dispatch(r, ok) =>
        var t := st.ring[0];
        var w := st.workers[t];
        var st' := st.(ring := st.ring[1..] + [t], events := st.events - {r}, handler := st.handler[r := Serve]);
        if ok then st'.(master := Del(st.master, r), workers := st.workers[t := w.(dispatch := w.dispatch + [r])],
                        thread := st.thread[r := Some(t)], pc := Counting(t))
        else st'.(master := [r] + Del(st.master, r))
      case Count =>
        var t := st.pc.w;
        st.(workers := st.workers[t := st.workers[t].(nr := st.workers[t].nr + 1)], pc := Idle)
      case Finish(i, keep) => Finalized(PickUp(st, i), st.workers[i].recycle[0], keep)
      case Close(r, keep) => Finalized(st, r, keep)
      case Create =>
        var n := |st.workers|;
        st.(workers := st.workers + [Fresh()], ring := Inserted(st.ring, n))
      case Delete =>
        var v := Victim(st.ring);
        st.(workers := st.workers[v := st.workers[v].(quit := true)], ring := Del(st.ring, v))
  }

  // ---------- the invariant ----------

  /** Every live request is in exactly one place, and nothing else is anywhere. */
  ghost predicate Conserved(st: State) {
    && (forall r :: Cnt(st.master, r) + Total(st.workers, r) == if r in st.live then 1 else 0)
    && st.connections == |st.live|
  }

  /** request_nr counts the requests of the worker: those in its pipes, lists and batches and those
      handled but not subtracted; right after a dispatch it is one behind. */
  ghost predicate NrOk(w: Worker, i: nat, pc: Pc) {
    && w.nr + (if pc == Counting(i) then 1 else 0) == Size(w) + w.handled
    && (pc == Counting(i) ==> !w.quit && !w.gone)
    && (if pc == Recycling(i) then !w.gone && w.handled + |w.recycle| > 0 else w.recycle == [] && w.handled == 0)
  }

  ghost predicate Counted(st: State) {
    (st.pc.Idle? || st.pc.w < |st.workers|) && forall i :: 0 <= i < |st.workers| ==> NrOk(st.workers[i], i, st.pc)
  }

  /** The ring holds exactly the workers that were not deleted; a worker that is gone was deleted
      and holds nothing. */
  ghost predicate RingOk(st: State) {
    && NoDup(st.ring)
    && (forall i :: i in st.ring <==> 0 <= i < |st.workers| && !st.workers[i].quit)
    && (forall i :: 0 <= i < |st.workers| && st.workers[i].gone ==> st.workers[i].quit && Size(st.workers[i]) == 0)
  }

  /** worker_thread names the worker a request is at; a request in a pipe, in a batch or blocked has
      no event and no timer registered. */
  ghost predicate Local(w: Worker, i: nat, thread: map<ReqId, Option<nat>>, events: set<ReqId>) {
    && (forall r :: r in w.dispatch || r in w.batch || r in w.working || r in w.blocked ==>
         r in thread && thread[r] == Some(i))
    && (forall r :: r in w.ret || r in w.recycle ==> r in thread && thread[r] == None)
    && (forall r :: r in w.dispatch || r in w.batch || r in w.blocked || r in w.ret || r in w.recycle ==> r !in events)
  }

  ghost predicate Placed(st: State) {
    && (forall r :: r in st.master ==> r in st.thread && st.thread[r] == None)
    && (forall i :: 0 <= i < |st.workers| ==> Local(st.workers[i], i, st.thread, st.events))
    && st.events <= st.live && st.broken <= st.live
  }

  /** No live request is without handler, and request_finalize never becomes one. */
  ghost predicate Handled(st: State) {
    st.live <= st.handler.Keys && forall r :: r in st.handler ==> st.handler[r] != Finalize
  }

  ghost predicate Inv(st: State) {
    Conserved(st) && Counted(st) && RingOk(st) && Placed(st) && Handled(st)
  }

  // ---------- counting ----------

  lemma CntIn(q: seq<ReqId>, r: ReqId)
    ensures r in q <==> Cnt(q, r) > 0
    ensures q == [] ==> Cnt(q, r) == 0
  {
  }

  lemma CntPush(q: seq<ReqId>, r: ReqId)
    ensures forall x :: Cnt([r] + q, x) == Cnt(q, x) + if x == r then 1 else 0
    ensures forall x :: Cnt(q + [r], x) == Cnt(q, x) + if x == r then 1 else 0
  {
  }

  lemma CntSplit(q: seq<ReqId>, k: nat)
    requires k <= |q|
    ensures forall x :: Cnt(q[..k], x) + Cnt(q[k..], x) == Cnt(q, x)
  {
    assert q == q[..k] + q[k..];
  }

  lemma CntHead(q: seq<ReqId>)
    requires q != []
    ensures forall x :: Cnt(q, x) == Cnt(q[1..], x) + if x == q[0] then 1 else 0
  {
    assert q == [q[0]] + q[1..];
  }

  lemma {:induction false} CntDel(q: seq<ReqId>, r: ReqId)
    ensures forall x :: Cnt(Del(q, r), x) == Cnt(q, x) - if x == r && r in q then 1 else 0
    ensures |Del(q, r)| == |q| - if r in q then 1 else 0
  {
    hide Cnt;
    if q != [] {
      var t := q[1..];
      assert q == [q[0]] + t;
      CntPush(t, q[0]);
      if q[0] != r {
        CntDel(t, r);
        CntPush(Del(t, r), q[0]);
      }
    }
  }

  lemma {:induction false} TotalAt(ws: seq<Worker>, i: nat, w: Worker, r: ReqId)
    requires i < |ws|
    ensures Total(ws[i := w], r) + Own(ws[i], r) == Total(ws, r) + Own(w, r)
  {
    hide Own;
    var n := |ws| - 1;
    if i < n {
      TotalAt(ws[..n], i, w, r);
      assert ws[i := w][..n] == ws[..n][i := w];
    } else {
      assert ws[i := w][..n] == ws[..n];
    }
  }

  lemma {:induction false} OwnWithin(ws: seq<Worker>, i: nat, j: nat, r: ReqId)
    requires i < |ws| && j < |ws|
    ensures Own(ws[i], r) <= Total(ws, r) && (i != j ==> Own(ws[i], r) + Own(ws[j], r) <= Total(ws, r))
  {
    hide Own;
    var n := |ws| - 1;
    var front := ws[..n];
    if i < n && j < n {
      OwnWithin(front, i, j, r);
    } else if i < n {
      OwnWithin(front, i, i, r);
    } else if j < n {
      OwnWithin(front, j, j, r);
    }
  }

  /** Being somewhere excludes being anywhere else. */
  lemma OnePlace(st: State, i: nat, r: ReqId)
    requires Conserved(st) && i < |st.workers|
    ensures Own(st.workers[i], r) + Cnt(st.master, r) <= 1
    ensures Own(st.workers[i], r) > 0 || r in st.master ==> r in st.live
    ensures forall j :: 0 <= j < |st.workers| && j != i && Own(st.workers[i], r) > 0 ==> Own(st.workers[j], r) == 0
    ensures forall j :: 0 <= j < |st.workers| && r in st.master ==> Own(st.workers[j], r) == 0
  {
    hide Own, Cnt;
    CntIn(st.master, r);
    OwnWithin(st.workers, i, i, r);
    forall j | 0 <= j < |st.workers|
      ensures (j != i && Own(st.workers[i], r) > 0 ==> Own(st.workers[j], r) == 0)
              && (r in st.master ==> Own(st.workers[j], r) == 0)
    {
      OwnWithin(st.workers, i, j, r);
      OwnWithin(st.workers, j, j, r);
    }
  }

  // ---------- conservation ----------

  /** Changing one worker and the master list without losing or adding a request. */
  lemma MoveConserves(st: State, st': State, i: nat)
    requires Conserved(st) && i < |st.workers| == |st'.workers| && st'.workers == st.workers[i := st'.workers[i]]
    requires st'.live == st.live && st'.connections == st.connections
    requires forall r :: Cnt(st'.master, r) + Own(st'.workers[i], r) == Cnt(st.master, r) + Own(st.workers[i], r)
    ensures Conserved(st')
  {
    hide Own, Cnt;
    forall r ensures Cnt(st'.master, r) + Total(st'.workers, r) == if r in st'.live then 1 else 0 {
      TotalAt(st.workers, i, st'.workers[i], r);
    }
  }

  lemma ReceiveOwn(w: Worker, k: nat)
    requires w.batch == [] && k <= |w.dispatch|
    ensures var w' := w.(batch := w.dispatch[..k], dispatch := w.dispatch[k..]);
            Size(w') == Size(w) && forall x :: Own(w', x) == Own(w, x)
  {
    CntSplit(w.dispatch, k);
    forall x ensures Cnt(w.batch, x) == 0 { CntIn(w.batch, x); }
    hide Cnt;
  }

  lemma TakeOwn(w: Worker)
    requires w.batch != []
    ensures var w' := w.(batch := w.batch[1..], working := [w.batch[0]] + w.working);
            Size(w') == Size(w) && forall x :: Own(w', x) == Own(w, x)
  {
    CntHead(w.batch);
    CntPush(w.working, w.batch[0]);
    hide Cnt;
  }

  lemma ReturnOwn(w: Worker, r: ReqId)
    requires Own(w, r) <= 1 && (r in w.working || r in w.blocked)
    ensures var a, b := HandedBack(w, r, true), HandedBack(w, r, false);
            Size(a) == Size(w) && Size(b) == Size(w) && forall x :: Own(a, x) == Own(w, x) && Own(b, x) == Own(w, x)
  {
    CntDel(w.working, r);
    CntDel(w.blocked, r);
    CntPush(w.ret, r);
    CntPush(Del(w.blocked, r), r);
    CntIn(w.working, r);
    CntIn(w.blocked, r);
    hide Cnt, Del;
  }

  lemma RecycleOwn(w: Worker, k: nat)
    requires w.recycle == [] && k <= |w.ret|
    ensures var w' := w.(recycle := w.ret[..k], ret := w.ret[k..]);
            Size(w') == Size(w) && forall x :: Own(w', x) == Own(w, x)
  {
    CntSplit(w.ret, k);
    forall x ensures Cnt(w.recycle, x) == 0 { CntIn(w.recycle, x); }
    hide Cnt;
  }

  lemma FinishOwn(w: Worker)
    requires w.recycle != []
    ensures var w' := w.(recycle := w.recycle[1..], handled := w.handled + 1);
            Size(w') == Size(w) - 1 && forall x :: Own(w, x) == Own(w', x) + if x == w.recycle[0] then 1 else 0
  {
    CntHead(w.recycle);
    hide Cnt;
  }

  /** What happens inside one worker's pipes, lists and batches keeps its requests. */
  lemma ChangedOwn(w: Worker, s: Step)
    requires Inner(s) && Ready(w, s) && (s.Return? ==> Own(w, s.r) <= 1)
    ensures Size(Changed(w, s)) == Size(w) && forall x :: Own(Changed(w, s), x) == Own(w, x)
  {
    if s.Receive? {
      ReceiveOwn(w, s.k);
    } else if s.Take? {
      TakeOwn(w);
    } else if s.Return? {
      ReturnOwn(w, s.r);
    } else if s.Recycle? {
      RecycleOwn(w, s.k);
    } else {
      SameOwn(w, Changed(w, s));
    }
  }

  lemma FinalizedConserves(st: State, r: ReqId, keep: bool)
    requires Conserved(st) && r in st.master
    ensures Conserved(Finalized(st, r, keep))
  {
    CntIn(st.master, r);
    CntDel(st.master, r);
    CntPush(Del(st.master, r), r);
    hide Del, Cnt, Total;
    assert Cnt(st.master, r) + Total(st.workers, r) == if r in st.live then 1 else 0;
  }

  lemma DispatchConserves(st: State, r: ReqId, ok: bool)
    requires Conserved(st) && Enabled(st, Dispatch(r, ok))
    ensures Conserved(Apply(st, Dispatch(r, ok)))
  {
    var t := st.ring[0];
    CntDel(st.master, r);
    CntPush(st.workers[t].dispatch, r);
    CntPush(Del(st.master, r), r);
    hide Del, Cnt;
    MoveConserves(st, Apply(st, Dispatch(r, ok)), t);
  }

  lemma PickUpConserves(st: State, i: nat)
    requires Conserved(st) && i < |st.workers| && st.workers[i].recycle != []
    ensures Conserved(PickUp(st, i)) && st.workers[i].recycle[0] in PickUp(st, i).master
  {
    FinishOwn(st.workers[i]);
    CntPush(st.master, st.workers[i].recycle[0]);
    hide Cnt, Own, Total;
    MoveConserves(st, PickUp(st, i), i);
  }

  lemma FinishConserves(st: State, i: nat, keep: bool)
    requires Conserved(st) && Enabled(st, Finish(i, keep))
    ensures Conserved(Apply(st, Finish(i, keep)))
  {
    hide Conserved, Finalized, PickUp;
    PickUpConserves(st, i);
    FinalizedConserves(PickUp(st, i), st.workers[i].recycle[0], keep);
  }

  lemma CreateConserves(st: State)
    requires Conserved(st) && Enabled(st, Create)
    ensures Conserved(Apply(st, Create))
  {
    var ws := st.workers + [Fresh()];
    assert ws[..|st.workers|] == st.workers;
    hide Conserved;
    forall r ensures Total(ws, r) == Total(st.workers, r) { CntIn([], r); }
  }

  lemma InnerOwn(st: State, s: Step)
    requires Conserved(st) && Inner(s) && Enabled(st, s)
    ensures var w := st.workers[s.w]; Size(Changed(w, s)) == Size(w) && forall x :: Own(Changed(w, s), x) == Own(w, x)
  {
    hide Own, Size, Changed;
    if s.Return? { OnePlace(st, s.w, s.r); }
    ChangedOwn(st.workers[s.w], s);
  }

  lemma InnerConserves(st: State, s: Step)
    requires Conserved(st) && Inner(s) && Enabled(st, s)
    ensures Conserved(InnerApply(st, s))
  {
    InnerOwn(st, s);
    hide Own, Cnt, Changed, Ready, Total;
    MoveConserves(st, InnerApply(st, s), s.w);
  }

  /** request_nr or the quit flag of one worker changes. */
  lemma FlagConserves(st: State, st': State, i: nat)
    requires Conserved(st) && i < |st.workers| == |st'.workers| && st'.workers == st.workers[i := st'.workers[i]]
    requires var w' := st'.workers[i]; w' == st.workers[i].(nr := w'.nr, quit := w'.quit)
    requires st'.live == st.live && st'.connections == st.connections && st'.master == st.master
    ensures Conserved(st')
  {
    SameOwn(st.workers[i], st'.workers[i]);
    hide Own, Cnt;
    MoveConserves(st, st', i);
  }

  lemma AcceptConserves(st: State, r: ReqId)
    requires Conserved(st) && Enabled(st, Accept(r))
    ensures Conserved(Apply(st, Accept(r)))
  {
    CntPush(st.master, r);
    hide Cnt, Total;
  }

  lemma StepConserves(st: State, s: Step)
    requires Conserved(st) && Enabled(st, s)
    ensures Conserved(Apply(st, s))
  {
    if Inner(s) {
      InnerConserves(st, s);
    } else {
      hide Own, Cnt, Total, Del;
      match s
      case Accept(r) => AcceptConserves(st, r);
      case Listen(_) =>
      case Dispatch(r, ok) => DispatchConserves(st, r, ok);
      case Count => hide Conserved; FlagConserves(st, Apply(st, s), st.pc.w);
      case Finish(i, keep) => FinishConserves(st, i, keep);
      case Close(r, keep) => hide Conserved; FinalizedConserves(st, r, keep);
      case Create => CreateConserves(st);
      case Delete => hide Conserved; FlagConserves(st, Apply(st, s), Victim(st.ring));
    }
  }

  lemma SameOwn(w: Worker, w': Worker)
    requires w' == w.(nr := w'.nr, quit := w'.quit, handled := w'.handled, gone := w'.gone)
    ensures Size(w') == Size(w) && forall x :: Own(w', x) == Own(w, x)
  {
    hide Cnt;
  }

  // ---------- request_nr ----------

  /** One worker changes, and the master is at most at that worker, before and after. */
  lemma MoveCounts(st: State, st': State, i: nat)
    requires Counted(st) && i < |st.workers| == |st'.workers| && st'.workers == st.workers[i := st'.workers[i]]
    requires NrOk(st'.workers[i], i, st'.pc)
    requires st'.pc == st.pc || ((st.pc.Idle? || st.pc.w == i) && (st'.pc.Idle? || st'.pc.w == i))
    ensures Counted(st')
  {
    hide Size;
  }

  lemma ChangedNr(w: Worker, s: Step, i: nat, pc: Pc, pc': Pc)
    requires Inner(s) && Ready(w, s) && !w.gone && NrOk(w, i, pc) && Size(Changed(w, s)) == Size(w)
    requires pc' == if s.Recycle? then Recycling(i) else if s.Subtract? then Idle else pc
    requires s.Recycle? ==> (pc.Idle? && s.k > 0) || pc == Recycling(i)
    requires s.Subtract? ==> pc == Recycling(i)
    ensures NrOk(Changed(w, s), i, pc')
  {
    hide Del;
  }

  lemma StepCounts(st: State, s: Step)
    requires Conserved(st) && Counted(st) && RingOk(st) && Enabled(st, s)
    ensures Counted(Apply(st, s))
  {
    if Inner(s) {
      assert NrOk(st.workers[s.w], s.w, st.pc);
      InnerOwn(st, s);
      ChangedNr(st.workers[s.w], s, s.w, st.pc, Apply(st, s).pc);
      hide NrOk, Changed, Ready, Own, Conserved, RingOk;
      MoveCounts(st, InnerApply(st, s), s.w);
    } else {
      OuterCounts(st, s);
    }
  }

  lemma OuterCounts(st: State, s: Step)
    requires Conserved(st) && Counted(st) && RingOk(st) && Enabled(st, s) && !Inner(s)
    ensures Counted(Apply(st, s))
  {
    var st' := Apply(st, s);
    hide Conserved;
    match s
    case Dispatch(r, ok) => assert NrOk(st.workers[st.ring[0]], st.ring[0], st.pc); hide NrOk; DispatchNr(st, r, ok);
    case Count => assert NrOk(st.workers[st.pc.w], st.pc.w, st.pc); MoveCounts(st, st', st.pc.w);
    case Finish(i, keep) => FinishNr(st, i, keep);
    case Create => CreateNr(st);
    case Delete => assert NrOk(st.workers[Victim(st.ring)], Victim(st.ring), st.pc); MoveCounts(st, st',
                     Victim(st.ring));
    case _ => hide NrOk;
  }

  lemma DispatchNr(st: State, r: ReqId, ok: bool)
    requires Counted(st) && RingOk(st) && Enabled(st, Dispatch(r, ok))
    ensures Counted(Apply(st, Dispatch(r, ok)))
  {
    hide Del, NoDup;
    var t := st.ring[0];
    assert NrOk(st.workers[t], t, st.pc) && t in st.ring;
    if ok { MoveCounts(st, Apply(st, Dispatch(r, ok)), t); }
  }

  lemma FinishNr(st: State, i: nat, keep: bool)
    requires Counted(st) && Enabled(st, Finish(i, keep))
    ensures Counted(Apply(st, Finish(i, keep)))
  {
    hide Del;
    assert NrOk(st.workers[i], i, st.pc);
    MoveCounts(st, Apply(st, Finish(i, keep)), i);
  }

  lemma CreateNr(st: State)
    requires Counted(st) && Enabled(st, Create)
    ensures Counted(Apply(st, Create))
  {
    var st' := Apply(st, Create);
    assert forall i :: 0 <= i < |st.workers| ==> st'.workers[i] == st.workers[i];
  }

  // ---------- the ring ----------

  lemma StepRing(st: State, s: Step)
    requires Conserved(st) && Counted(st) && RingOk(st) && Enabled(st, s)
    ensures RingOk(Apply(st, s))
  {
    if Inner(s) {
      InnerRing(st, s);
    } else {
      OuterRing(st, s);
    }
  }

  lemma InnerRing(st: State, s: Step)
    requires Conserved(st) && Counted(st) && RingOk(st) && Inner(s) && Enabled(st, s)
    ensures RingOk(InnerApply(st, s))
  {
    assert NrOk(st.workers[s.w], s.w, st.pc);
    InnerOwn(st, s);
    ExitEmpty(st.workers[s.w], s, s.w, st.pc);
    hide Changed, Ready, Own, Conserved, Counted, NrOk, Size;
    RingChange(st, InnerApply(st, s), s.w);
  }

  lemma RingChange(st: State, st': State, i: nat)
    requires RingOk(st) && i < |st.workers| == |st'.workers| && st'.workers == st.workers[i := st'.workers[i]]
             && st'.ring == st.ring
    requires st'.workers[i].quit == st.workers[i].quit
    requires st'.workers[i].gone ==> st'.workers[i].quit && Size(st'.workers[i]) == 0
    ensures RingOk(st')
  {
    hide NoDup, Size;
  }

  /** A worker leaves only when it holds nothing. */
  lemma ExitEmpty(w: Worker, s: Step, i: nat, pc: Pc)
    requires Inner(s) && Ready(w, s) && NrOk(w, i, pc)
    ensures Changed(w, s).quit == w.quit
    ensures s.Exit? ==> Size(w) == 0 && w.quit
    ensures Changed(w, s).gone ==> w.gone || s.Exit?
  {
    hide Del;
  }

  lemma OuterRing(st: State, s: Step)
    requires Counted(st) && RingOk(st) && Enabled(st, s) && !Inner(s)
    ensures RingOk(Apply(st, s))
  {
    match s
    case Dispatch(r, ok) => DispatchRing(st, r, ok);
    case Create => CreateRing(st);
    case Delete => DeleteRing(st);
    case Count => assert NrOk(st.workers[st.pc.w], st.pc.w, st.pc); hide NoDup,
                  Counted; RingChange(st, Apply(st, s), st.pc.w);
    case Finish(i, _) => hide NoDup, Counted, Del; RingChange(st, Apply(st, s), i);
    case _ => hide NoDup, Del, Counted;
  }

  lemma DeleteRing(st: State)
    requires RingOk(st) && Enabled(st, Delete)
    ensures RingOk(Apply(st, Delete))
  {
    DelFacts(st.ring, Victim(st.ring));
    hide NoDup, Del;
    assert Size(Apply(st, Delete).workers[Victim(st.ring)]) == Size(st.workers[Victim(st.ring)]);
    hide Size;
  }

  lemma DispatchRing(st: State, r: ReqId, ok: bool)
    requires RingOk(st) && Enabled(st, Dispatch(r, ok))
    ensures RingOk(Apply(st, Dispatch(r, ok)))
  {
    RotateOk(st.ring);
    hide NoDup, Del;
    assert st.ring[0] in st.ring;
  }

  lemma RotateOk(ring: seq<nat>)
    requires NoDup(ring) && ring != []
    ensures NoDup(ring[1..] + [ring[0]]) && forall x :: x in ring[1..] + [ring[0]] <==> x in ring
  {
    var t := ring[1..];
    assert forall j :: 0 <= j < |t| ==> t[j] == ring[j + 1];
    assert ring == [ring[0]] + t;
  }

  lemma CreateRing(st: State)
    requires RingOk(st) && Enabled(st, Create)
    ensures RingOk(Apply(st, Create))
  {
    var n := |st.workers|;
    assert n !in st.ring;
    AddedRing(st.ring, n);
    hide NoDup, Inserted;
    var st' := Apply(st, Create);
    assert st'.ring == Inserted(st.ring, n);
    forall i: nat ensures i in st'.ring <==> i < |st'.workers| && !st'.workers[i].quit {
      assert i < n ==> st'.workers[i] == st.workers[i];
      assert st'.workers[n] == Fresh();
    }
  }

  lemma AddedRing(ring: seq<nat>, n: nat)
    requires NoDup(ring) && n !in ring
    ensures NoDup(Inserted(ring, n)) && forall x :: x in Inserted(ring, n) <==> x in ring || x == n
  {
    if ring != [] {
      var t := ring[1..];
      assert forall j :: 0 <= j < |t| ==> t[j] == ring[j + 1];
      assert ring == [ring[0]] + t;
    }
  }

  // ---------- threads and events ----------

  /** Flags change for request r only. */
  ghost predicate OnlyFor(st: State, st': State, r: ReqId) {
    && (forall x :: x != r && x in st.thread ==> x in st'.thread && st'.thread[x] == st.thread[x])
    && (forall x :: x != r && x in st'.events ==> x in st.events)
  }

  lemma Absent(w: Worker, r: ReqId)
    requires Own(w, r) == 0
    ensures r !in w.dispatch && r !in w.batch && r !in w.working && r !in w.blocked && r !in w.ret && r !in w.recycle
  {
    CntIn(w.dispatch, r); CntIn(w.batch, r); CntIn(w.working, r); CntIn(w.blocked, r); CntIn(w.ret, r); CntIn(w.recycle,
        r);
    hide Cnt;
  }

  /** A worker that does not have r does not notice. */
  lemma ElsewhereLocal(st: State, st': State, r: ReqId, j: nat)
    requires j < |st.workers| && Local(st.workers[j], j, st.thread, st.events) && OnlyFor(st, st', r)
             && Own(st.workers[j], r) == 0
    ensures Local(st.workers[j], j, st'.thread, st'.events)
  {
    Absent(st.workers[j], r);
  }

  lemma OnceIn(w: Worker, r: ReqId)
    requires Own(w, r) <= 1
    ensures r in w.working || r in w.blocked ==> r !in w.dispatch && r !in w.batch && r !in w.ret && r !in w.recycle
    ensures r in w.working ==> r !in w.blocked
    ensures r !in Del(w.working, r) && r !in Del(w.blocked, r)
  {
    CntIn(w.dispatch, r); CntIn(w.batch, r); CntIn(w.working, r); CntIn(w.blocked, r); CntIn(w.ret, r); CntIn(w.recycle,
        r);
    CntDel(w.working, r);
    CntDel(w.blocked, r);
    CntIn(Del(w.working, r), r);
    CntIn(Del(w.blocked, r), r);
    hide Cnt, Del;
  }

  /** Worker i changes, and beyond it flags of r, which no other worker has. */
  lemma MovePlaced(st: State, st': State, i: nat, r: ReqId)
    requires Placed(st) && i < |st.workers| == |st'.workers| && st'.workers == st.workers[i := st'.workers[i]]
    requires Local(st'.workers[i], i, st'.thread, st'.events) && OnlyFor(st, st', r)
    requires forall j :: 0 <= j < |st.workers| && j != i ==> Own(st.workers[j], r) == 0
    requires forall x :: x in st'.master ==> x in st'.thread && st'.thread[x] == None
    requires st'.events <= st'.live && st'.broken <= st'.live
    ensures Placed(st')
  {
    hide Local, Own, OnlyFor;
    forall j | 0 <= j < |st'.workers| ensures Local(st'.workers[j], j, st'.thread, st'.events) {
      if j != i { ElsewhereLocal(st, st', r, j); }
    }
  }

  /** r left the working and blocked lists for the return pipe, or for the blocked list. */
  ghost predicate Moved(w: Worker, w': Worker, r: ReqId, ok: bool) {
    && w'.dispatch == w.dispatch && w'.batch == w.batch && w'.recycle == w.recycle
    && (forall x :: x in w'.working ==> x in w.working && x != r)
    && (forall x :: x in w'.blocked ==> (x in w.blocked && x != r) || (x == r && !ok))
    && (forall x :: x in w'.ret ==> x in w.ret || (x == r && ok))
    && r !in w.dispatch && r !in w.batch && r !in w.recycle && r !in w.ret
  }

  lemma ReturnMoved(w: Worker, r: ReqId, ok: bool)
    requires Own(w, r) <= 1 && (r in w.working || r in w.blocked)
    ensures Moved(w, HandedBack(w, r, ok), r, ok)
  {
    OnceIn(w, r);
    DelOthers(w.working, r);
    DelOthers(w.blocked, r);
    hide Own, Del;
  }

  lemma MovedLocal(w: Worker, w': Worker, i: nat, r: ReqId, ok: bool,
      thread: map<ReqId, Option<nat>>, events: set<ReqId>)
    requires Moved(w, w', r, ok) && Local(w, i, thread, events) && r in thread && thread[r] == Some(i)
    ensures Local(w', i, if ok then thread[r := None] else thread, events - {r})
  {
  }

  lemma ReturnLocal(w: Worker, i: nat, r: ReqId, ok: bool, thread: map<ReqId, Option<nat>>, events: set<ReqId>)
    requires Own(w, r) <= 1 && (r in w.working || r in w.blocked) && Local(w, i, thread, events)
    ensures Local(HandedBack(w, r, ok), i, if ok then thread[r := None] else thread, events - {r})
  {
    ReturnMoved(w, r, ok);
    hide Own, HandedBack, Moved;
    MovedLocal(w, HandedBack(w, r, ok), i, r, ok, thread, events);
  }

  lemma WaitLocal(w: Worker, i: nat, r: ReqId, thread: map<ReqId, Option<nat>>, events: set<ReqId>)
    requires Own(w, r) <= 1 && r in w.working && Local(w, i, thread, events)
    ensures Local(w, i, thread, events + {r})
  {
    OnceIn(w, r);
    hide Own, Del;
  }

  lemma PlainLocal(w: Worker, s: Step, i: nat, thread: map<ReqId, Option<nat>>, events: set<ReqId>)
    requires Inner(s) && Ready(w, s) && !s.Wait? && !s.Return? && Local(w, i, thread, events)
    ensures Local(Changed(w, s), i, thread, events)
  {
  }

  lemma ReturnSame(w: Worker, s: Step)
    requires s.Return? && Ready(w, s)
    ensures Changed(w, s) == HandedBack(w, s.r, s.ok)
  {
  }

  lemma InnerPlaced(st: State, s: Step)
    requires Conserved(st) && Placed(st) && Inner(s) && Enabled(st, s)
    ensures Placed(InnerApply(st, s))
  {
    if s.Wait? {
      WaitPlaced(st, s);
    } else if s.Return? {
      ReturnPlaced(st, s);
    } else {
      assert Local(st.workers[s.w], s.w, st.thread, st.events);
      PlainLocal(st.workers[s.w], s, s.w, st.thread, st.events);
      hide Changed, Conserved, Local, Ready;
    }
  }

  /** A request at a worker is live, at no other worker and not in the master list. */
  lemma AtWorker(st: State, i: nat, r: ReqId)
    requires Conserved(st) && i < |st.workers| && (r in st.workers[i].working || r in st.workers[i].blocked)
    ensures Own(st.workers[i], r) <= 1 && r in st.live && r !in st.master
    ensures forall j :: 0 <= j < |st.workers| && j != i ==> Own(st.workers[j], r) == 0
  {
    OnePlace(st, i, r);
    Present(st.workers[i], r);
    CntIn(st.master, r);
    hide Own, Cnt, Conserved;
  }

  lemma WaitPlaced(st: State, s: Step)
    requires Conserved(st) && Placed(st) && s.Wait? && Enabled(st, s)
    ensures Placed(InnerApply(st, s))
  {
    var w := st.workers[s.w];
    assert Local(w, s.w, st.thread, st.events);
    AtWorker(st, s.w, s.r);
    WaitSame(w, s);
    hide Own, Changed, Conserved, Local;
    WaitLocal(w, s.w, s.r, st.thread, st.events);
    MovePlaced(st, InnerApply(st, s), s.w, s.r);
  }

  lemma ReturnPlaced(st: State, s: Step)
    requires Conserved(st) && Placed(st) && s.Return? && Enabled(st, s)
    ensures Placed(InnerApply(st, s))
  {
    var w := st.workers[s.w];
    assert Local(w, s.w, st.thread, st.events);
    AtWorker(st, s.w, s.r);
    ReturnSame(w, s);
    hide Own, Changed, Conserved, Local;
    ReturnLocal(w, s.w, s.r, s.ok, st.thread, st.events);
    MovePlaced(st, InnerApply(st, s), s.w, s.r);
  }

  lemma WaitSame(w: Worker, s: Step)
    requires s.Wait? && Ready(w, s)
    ensures Changed(w, s) == w
  {
  }

  lemma Present(w: Worker, r: ReqId)
    ensures r in w.working || r in w.blocked || r in w.recycle ==> Own(w, r) > 0
  {
    CntIn(w.working, r); CntIn(w.blocked, r); CntIn(w.recycle, r);
    hide Cnt;
  }

  lemma NotLive(st: State, r: ReqId, j: nat)
    requires Conserved(st) && j < |st.workers| && r !in st.live
    ensures Own(st.workers[j], r) == 0 && r !in st.master
  {
    hide Own, Cnt;
    OwnWithin(st.workers, j, j, r);
    CntIn(st.master, r);
  }

  /** No worker has r: all of them stay as they are. */
  lemma MasterPlaced(st: State, st': State, r: ReqId)
    requires Placed(st) && st'.workers == st.workers && OnlyFor(st, st', r)
    requires forall j :: 0 <= j < |st.workers| ==> Own(st.workers[j], r) == 0
    requires forall x :: x in st'.master ==> x in st'.thread && st'.thread[x] == None
    requires st'.events <= st'.live && st'.broken <= st'.live
    ensures Placed(st')
  {
    hide Local, Own, OnlyFor;
    forall j | 0 <= j < |st'.workers| ensures Local(st'.workers[j], j, st'.thread, st'.events) {
      ElsewhereLocal(st, st', r, j);
    }
  }

  lemma AcceptPlaced(st: State, r: ReqId)
    requires Conserved(st) && Placed(st) && Enabled(st, Accept(r))
    ensures Placed(Apply(st, Accept(r)))
  {
    hide Local, Own;
    forall j | 0 <= j < |st.workers| ensures Own(st.workers[j], r) == 0 { NotLive(st, r, j); }
    MasterPlaced(st, Apply(st, Accept(r)), r);
  }

  /** A request in the master list is at no worker. */
  lemma AtMaster(st: State, r: ReqId)
    requires Conserved(st) && r in st.master
    ensures r in st.live && forall j :: 0 <= j < |st.workers| ==> Own(st.workers[j], r) == 0
  {
    hide Own, Cnt;
    CntIn(st.master, r);
    forall j | 0 <= j < |st.workers| ensures Own(st.workers[j], r) == 0 { OnePlace(st, j, r); }
    assert Cnt(st.master, r) + Total(st.workers, r) == if r in st.live then 1 else 0;
  }

  lemma FinalizedPlaced(st: State, r: ReqId, keep: bool)
    requires Conserved(st) && Placed(st) && r in st.master
    ensures Placed(Finalized(st, r, keep))
  {
    AtMaster(st, r);
    DelOthers(st.master, r);
    hide Local, Own, Conserved, Del;
    MasterPlaced(st, Finalized(st, r, keep), r);
  }

  lemma DispatchLocal(w: Worker, t: nat, r: ReqId, thread: map<ReqId, Option<nat>>, events: set<ReqId>)
    requires Own(w, r) == 0 && Local(w, t, thread, events)
    ensures Local(w.(dispatch := w.dispatch + [r]), t, thread[r := Some(t)], events - {r})
  {
    Absent(w, r);
    hide Own;
  }

  lemma DispatchPlaced(st: State, r: ReqId, ok: bool)
    requires Conserved(st) && Placed(st) && Enabled(st, Dispatch(r, ok))
    ensures Placed(Apply(st, Dispatch(r, ok)))
  {
    hide Own, Conserved, Del, Local;
    var st' := Apply(st, Dispatch(r, ok));
    var t := st.ring[0];
    AtMaster(st, r);
    GoneFromMaster(st, t, r);
    assert Local(st.workers[t], t, st.thread, st.events);
    if ok {
      DispatchLocal(st.workers[t], t, r, st.thread, st.events);
      MovePlaced(st, st', t, r);
    } else {
      MasterPlaced(st, st', r);
    }
  }

  lemma GoneFromMaster(st: State, t: nat, r: ReqId)
    requires Conserved(st) && t < |st.workers|
    ensures r !in Del(st.master, r) && forall x :: x in Del(st.master, r) ==> x in st.master
  {
    OnePlace(st, t, r);
    DelOthers(st.master, r);
    CntDel(st.master, r);
    CntIn(Del(st.master, r), r);
    CntIn(st.master, r);
    hide Own, Conserved, Del, Cnt;
  }

  lemma PickUpPlaced(st: State, i: nat)
    requires Conserved(st) && Placed(st) && i < |st.workers| && st.workers[i].recycle != []
    ensures Placed(PickUp(st, i))
  {
    assert Local(st.workers[i], i, st.thread, st.events);
    assert st.workers[i].recycle[0] in st.workers[i].recycle;
    assert Local(PickUp(st, i).workers[i], i, st.thread, st.events);
    hide Local, Conserved;
  }

  lemma StepPlaced(st: State, s: Step)
    requires Conserved(st) && Placed(st) && Enabled(st, s)
    ensures Placed(Apply(st, s))
  {
    if Inner(s) {
      InnerPlaced(st, s);
    } else {
      OuterPlaced(st, s);
    }
  }

  lemma OuterPlaced(st: State, s: Step)
    requires Conserved(st) && Placed(st) && Enabled(st, s) && !Inner(s)
    ensures Placed(Apply(st, s))
  {
    match s
    case Accept(r) => AcceptPlaced(st, r);
    case Listen(r) => AtMaster(st, r); hide Local, Own, Conserved; MasterPlaced(st, Apply(st, s), r);
    case Dispatch(r, ok) => DispatchPlaced(st, r, ok);
    case Count => SameLocal(st, Apply(st, s), st.pc.w);
    case Finish(i, keep) =>
      PickUpPlaced(st, i);
      PickUpConserves(st, i);
      hide Placed, Conserved, PickUp, Finalized;
      FinalizedPlaced(PickUp(st, i), st.workers[i].recycle[0], keep);
    case Close(r, keep) => hide Placed, Conserved, Finalized; FinalizedPlaced(st, r, keep);
    case Create => hide Conserved; CreatePlaced(st);
    case Delete => SameLocal(st, Apply(st, s), Victim(st.ring));
  }

  lemma SameLocal(st: State, st': State, i: nat)
    requires Placed(st) && i < |st.workers| == |st'.workers| && st'.workers == st.workers[i := st'.workers[i]]
    requires var w' := st'.workers[i]; w' == st.workers[i].(nr := w'.nr, quit := w'.quit)
    requires st'.master == st.master && st'.thread == st.thread && st'.events == st.events && st'.live == st.live
             && st'.broken == st.broken
    ensures Placed(st')
  {
    assert Local(st.workers[i], i, st.thread, st.events);
    assert Local(st'.workers[i], i, st.thread, st.events);
    hide Local;
  }

  lemma CreatePlaced(st: State)
    requires Placed(st) && Enabled(st, Create)
    ensures Placed(Apply(st, Create))
  {
    var ws := Apply(st, Create).workers;
    assert Local(Fresh(), |st.workers|, st.thread, st.events);
    hide Local, Inserted;
    assert forall i :: 0 <= i < |st.workers| ==> ws[i] == st.workers[i];
  }

  lemma StepHandled(st: State, s: Step)
    requires Handled(st) && Enabled(st, s)
    ensures Handled(Apply(st, s))
  {
    hide Del, Changed, Ready, Inserted;
  }

  // ---------- runs ----------

  lemma StepKeeps(st: State, s: Step)
    requires Inv(st) && Enabled(st, s)
    ensures Inv(Apply(st, s))
  {
    hide Conserved, Counted, RingOk, Placed, Handled, Apply, Enabled;
    StepHandled(st, s);
    StepConserves(st, s);
    StepCounts(st, s);
    StepRing(st, s);
    StepPlaced(st, s);
  }

  ghost predicate Next(st: State, st': State) {
    exists s :: Enabled(st, s) && st' == Apply(st, s)
  }

  /** The threads start with no request and no worker. */
  ghost predicate Start(st: State) {
    st == State([], [], [], Idle, {}, 0, map[], {}, {}, map[])
  }

  ghost predicate IsRun(run: seq<State>) {
    run != [] && Start(run[0]) && forall k :: 0 < k < |run| ==> Next(run[k - 1], run[k])
  }

  lemma StartInv(st: State)
    requires Start(st)
    ensures Inv(st)
  {
    forall r ensures Cnt([], r) == 0 { CntIn([], r); }
    hide Cnt;
  }

  lemma {:induction false} RunInv(run: seq<State>, k: nat)
    requires IsRun(run) && k < |run|
    ensures Inv(run[k])
  {
    hide Inv, Apply, Enabled, Start;
    if k == 0 {
      StartInv(run[0]);
    } else {
      RunInv(run, k - 1);
      assert Next(run[k - 1], run[k]);
      var s :| Enabled(run[k - 1], s) && run[k] == Apply(run[k - 1], s);
      StepKeeps(run[k - 1], s);
    }
  }

  // ---------- the theorems ----------

  /** In every reachable state each live request is in exactly one place and connections_total is
      the number of live requests; in a pipe, a batch or the blocked list it has no event. */
  lemma SingleOwner(run: seq<State>, k: nat, r: ReqId)
    requires IsRun(run) && k < |run|
    ensures Cnt(run[k].master, r) + Total(run[k].workers, r) == if r in run[k].live then 1 else 0
    ensures run[k].connections == |run[k].live|
    ensures forall i :: 0 <= i < |run[k].workers| ==> Local(run[k].workers[i], i, run[k].thread, run[k].events)
  {
    hide IsRun, Cnt, Total, Local, Counted, RingOk;
    RunInv(run, k);
  }

  /** A worker destroys itself only when nothing is in its pipes, lists and batches, and the master
      is not handling what it returned and will not dispatch to it. */
  lemma ExitSafe(run: seq<State>, k: nat, w: nat)
    requires IsRun(run) && k < |run| && Enabled(run[k], Exit(w))
    ensures Size(run[k].workers[w]) == 0 && run[k].workers[w].handled == 0
    ensures w !in run[k].ring && run[k].pc != Counting(w) && run[k].pc != Recycling(w)
  {
    hide IsRun;
    RunInv(run, k);
    hide Conserved, Placed, NoDup;
    assert NrOk(run[k].workers[w], w, run[k].pc);
  }

  /** ... and it stays that way: after that no request ever comes near it. */
  lemma {:induction false} GoneForever(run: seq<State>, j: nat, k: nat, w: nat)
    requires IsRun(run) && j <= k < |run| && w < |run[j].workers| && run[j].workers[w].gone
    ensures w < |run[k].workers| && run[k].workers[w].gone && Size(run[k].workers[w]) == 0 && w !in run[k].ring
    decreases k
  {
    hide IsRun, Apply, Enabled, Size;
    RunInv(run, k);
    hide Conserved, Counted, Placed, NoDup;
    if j < k {
      GoneForever(run, j, k - 1, w);
      NextIn(run, k);
      var s :| Enabled(run[k - 1], s) && run[k] == Apply(run[k - 1], s);
      GoneStays(run[k - 1], s, w);
    }
  }

  lemma NextIn(run: seq<State>, k: nat)
    requires IsRun(run) && 0 < k < |run|
    ensures Next(run[k - 1], run[k])
  {
    hide Next, Start;
  }

  lemma GoneStays(st: State, s: Step, w: nat)
    requires Enabled(st, s) && w < |st.workers| && st.workers[w].gone
    ensures w < |Apply(st, s).workers| && Apply(st, s).workers[w].gone
  {
    hide Del;
  }

  ghost predicate Blocked(st: State, r: ReqId) {
    exists i :: 0 <= i < |st.workers| && r in st.workers[i].blocked
  }

  /** What takes the keepalive state from a request: a failing connection, or request_clean. */
  ghost predicate Spoils(s: Step, r: ReqId) {
    s.Return? && s.r == r && (s.cut || s.clean)
  }

  /** connection_broken is set by errors, and also by request_clean for every request it sweeps,
      a blocked one whose connection is in order included: no handler is ever request_finalize. */
  lemma BrokenExactly(st: State, s: Step, r: ReqId)
    requires Inv(st) && Enabled(st, s) && r in st.live && r in Apply(st, s).live
    ensures r in Apply(st, s).broken <==> r in st.broken || Spoils(s, r)
  {
    hide Conserved, Counted, RingOk, Local, Del, Changed, Inserted;
  }

  ghost predicate Path(st: State, steps: seq<Step>, st': State)
    decreases |steps|
  {
    if steps == [] then st == st'
    else Enabled(st, steps[0]) && Path(Apply(st, steps[0]), steps[1..], st')
  }

  /** The request stays connected along the way. */
  ghost predicate Stays(st: State, steps: seq<Step>, r: ReqId)
    decreases |steps|
  {
    r in st.live && (steps != [] ==> Enabled(st, steps[0]) && Stays(Apply(st, steps[0]), steps[1..], r))
  }

  /** While a request stays connected its connection counts as broken exactly when it was cut or
      swept; so it can be kept alive exactly when neither happened. */
  lemma {:induction false} KeepaliveExactly(st: State, steps: seq<Step>, st': State, r: ReqId)
    requires Inv(st) && Path(st, steps, st') && Stays(st, steps, r)
    ensures r in st'.broken <==> r in st.broken || exists k :: 0 <= k < |steps| && Spoils(steps[k], r)
    decreases |steps|
  {
    hide Inv, Enabled, Apply, Spoils;
    if steps != [] {
      var rest := steps[1..];
      StepKeeps(st, steps[0]);
      BrokenExactly(st, steps[0], r);
      KeepaliveExactly(Apply(st, steps[0]), rest, st', r);
      assert forall k :: 0 <= k < |rest| ==> rest[k] == steps[k + 1];
      if k :| 0 <= k < |steps| && Spoils(steps[k], r) && k > 0 {
        assert Spoils(rest[k - 1], r);
      }
    }
  }

  // ---------- a request that loses its keepalive state ----------

  /** One worker, and request 7 under way with the given handler. */
  function Case(master: seq<ReqId>, w: Worker, pc: Pc, thread: Option<nat>, broken: set<ReqId>, h: Handler): State {
    State(master, [w], [0], pc, {7}, 1, map[7 := thread], {}, broken, map[7 := h])
  }

  const CASE_STEPS: seq<Step> :=
    [Create, Accept(7), Dispatch(7, true), Count, Receive(0, 1), Take(0),
     Return(0, 7, false, false, false), Return(0, 7, true, false, true), Recycle(0, 1)]

  function CaseState(k: nat): State
    requires k <= 9
  {
    var w := Fresh();
    match k
    case 0 => State([], [], [], Idle, {}, 0, map[], {}, {}, map[])
    case 1 => State([], [w], [0], Idle, {}, 0, map[], {}, {}, map[])
    case 2 => Case([7], w, Idle, None, {}, Unset)
    case 3 => Case([], w.(dispatch := [7]), Counting(0), Some(0), {}, Serve)
    case 4 => Case([], w.(dispatch := [7], nr := 1), Idle, Some(0), {}, Serve)
    case 5 => Case([], w.(batch := [7], nr := 1), Idle, Some(0), {}, Serve)
    case 6 => Case([], w.(working := [7], nr := 1), Idle, Some(0), {}, Serve)
    case 7 => Case([], w.(blocked := [7], nr := 1), Idle, Some(0), {}, DoFinalize)
    case 8 => Case([], w.(ret := [7], nr := 1), Idle, None, {7}, DoFinalize)
    case 9 => Case([], w.(recycle := [7], nr := 1), Recycling(0), None, {7}, DoFinalize)
  }

  lemma CaseStart(k: nat)
    requires k < 2
    ensures Enabled(CaseState(k), CASE_STEPS[k]) && CaseState(k + 1) == Apply(CaseState(k), CASE_STEPS[k])
  {
    if k == 0 {
      assert [] + [Fresh()] == [Fresh()] && Inserted([], 0) == [0];
    } else {
      assert [7] + [] == [7];
    }
  }

  lemma CaseDispatch()
    ensures Enabled(CaseState(2), Dispatch(7, true)) && CaseState(3) == Apply(CaseState(2), Dispatch(7, true))
  {
    var w := Fresh();
    assert Del([7], 7) == [] && [0][1..] + [0] == [0] && w.dispatch + [7] == [7];
    assert [w][0 := w.(dispatch := [7])] == [w.(dispatch := [7])];
  }

  lemma CaseCount()
    ensures Enabled(CaseState(3), Count) && CaseState(4) == Apply(CaseState(3), Count)
  {
    var w := Fresh().(dispatch := [7]);
    assert [w][0 := w.(nr := 1)] == [w.(nr := 1)];
  }

  lemma CaseWork(k: nat)
    requires 4 <= k < 6
    ensures Enabled(CaseState(k), CASE_STEPS[k]) && CaseState(k + 1) == Apply(CaseState(k), CASE_STEPS[k])
  {
    var w := Fresh().(nr := 1);
    assert [7][..1] == [7] && [7][1..] == [] && [7] + [] == [7];
    if k == 4 {
      assert Changed(w.(dispatch := [7]), Receive(0, 1)) == w.(batch := [7]);
    } else {
      assert Changed(w.(batch := [7]), Take(0)) == w.(working := [7]);
    }
    hide Changed;
  }

  lemma CaseReturn(k: nat)
    requires 6 <= k < 8
    ensures Enabled(CaseState(k), CASE_STEPS[k]) && CaseState(k + 1) == Apply(CaseState(k), CASE_STEPS[k])
  {
    CaseHanded();
    hide HandedBack, Del;
  }

  lemma CaseHanded()
    ensures var w := Fresh().(nr := 1);
            && HandedBack(w.(working := [7]), 7, false) == w.(blocked := [7])
            && HandedBack(w.(blocked := [7]), 7, true) == w.(ret := [7])
  {
    assert Del([7], 7) == [];
  }

  lemma CaseRecycle()
    ensures Enabled(CaseState(8), Recycle(0, 1)) && CaseState(9) == Apply(CaseState(8), Recycle(0, 1))
  {
    var w := Fresh().(nr := 1);
    assert Changed(w.(ret := [7]), Recycle(0, 1)) == w.(recycle := [7]) by { assert [7][..1] == [7] && [7][1..] == []; }
    hide Changed;
  }

  /** A blocked request with an intact connection: the pipe was full when its worker returned it,
      the next sweep returns it, and the master must close it. */
  lemma BlockedLosesKeepalive() returns (run: seq<State>)
    ensures IsRun(run) && |run| == |CASE_STEPS| + 1
    ensures forall k :: 0 <= k < |CASE_STEPS| ==>
            Enabled(run[k], CASE_STEPS[k]) && run[k + 1] == Apply(run[k], CASE_STEPS[k])
    ensures forall k :: 0 <= k < |CASE_STEPS| && CASE_STEPS[k].Return? ==> !CASE_STEPS[k].cut
    ensures 7 in run[9].live && Enabled(run[9], Finish(0, false)) && !Enabled(run[9], Finish(0, true))
  {
    run := seq(10, k requires 0 <= k < 10 => CaseState(k));
    CaseEnd();
    assert forall k :: 0 <= k < 10 ==> run[k] == CaseState(k);
    hide Apply, Enabled, CaseState;
    forall k | 0 <= k < 9 ensures Enabled(run[k], CASE_STEPS[k])
        && run[k + 1] == Apply(run[k], CASE_STEPS[k]) { CaseStep(k); }
    forall k | 0 < k < 10 ensures Next(run[k - 1], run[k]) { CaseStep(k - 1); }
  }

  lemma CaseStep(k: nat)
    requires k < 9
    ensures Enabled(CaseState(k), CASE_STEPS[k]) && CaseState(k + 1) == Apply(CaseState(k), CASE_STEPS[k])
  {
    hide Apply, Enabled, CaseState;
    if k < 2 {
      CaseStart(k);
    } else if k < 4 {
      CaseDispatch();
      CaseCount();
    } else if k < 6 {
      CaseWork(k);
    } else if k < 8 {
      CaseReturn(k);
    } else {
      CaseRecycle();
    }
  }

  lemma CaseEnd()
    ensures Start(CaseState(0)) && 7 in CaseState(9).live
    ensures Enabled(CaseState(9), Finish(0, false)) && !Enabled(CaseState(9), Finish(0, true))
  {
  }

  lemma BlockedStays(st: State, s: Step, i: nat, r: ReqId)
    requires Enabled(st, s) && i < |st.workers| && r in st.workers[i].blocked && !(s.Return? && s.w == i && s.r == r)
    ensures i < |Apply(st, s).workers| && r in Apply(st, s).workers[i].blocked
  {
    if s.Return? { DelOthers(st.workers[s.w].blocked, s.r); }
    hide Del;
  }

  lemma NotFinished(st: State, s: Step, i: nat, r: ReqId)
    requires Inv(st) && Enabled(st, s) && i < |st.workers| && r in st.workers[i].blocked
    ensures !(s.Close? && s.r == r) && !(s.Finish? && st.workers[s.w].recycle[0] == r) && !(s.Accept? && s.r == r)
    ensures !(s.Return? && s.r == r && s.w != i)
  {
    AtWorker(st, i, r);
    OnceIn(st.workers[i], r);
    if s.Finish? || s.Return? { Present(st.workers[s.w], r); }
    hide Own, Conserved, Counted, RingOk, Placed, Handled, Del;
  }

  ghost predicate Marked(st: State, r: ReqId) {
    r in st.broken || Blocked(st, r)
  }

  /** So a request that was blocked once never returns to the keepalive state, even though its
      connection may be in order: it stays marked until it is closed. */
  lemma MarkedStays(st: State, s: Step, r: ReqId)
    requires Inv(st) && Enabled(st, s) && Marked(st, r)
    ensures r in Apply(st, s).live ==> Marked(Apply(st, s), r)
    ensures (s.Close? && s.r == r) || (s.Finish? && st.workers[s.w].recycle[0] == r) ==> r !in Apply(st, s).live
  {
    if r in st.broken {
      MarkedBroken(st, s, r);
    } else {
      var i :| 0 <= i < |st.workers| && r in st.workers[i].blocked;
      NotFinished(st, s, i, r);
      if s.Return? && s.w == i && s.r == r {
        SweptBlocked(st, s);
      } else {
        hide Inv;
        BlockedStays(st, s, i, r);
      }
    }
  }

  lemma SweptBlocked(st: State, s: Step)
    requires Inv(st) && s.Return? && Enabled(st, s) && s.r in st.workers[s.w].blocked
    ensures s.r in Apply(st, s).broken
  {
    AtWorker(st, s.w, s.r);
    OnceIn(st.workers[s.w], s.r);
    hide Own, Conserved, Counted, RingOk, Placed, Changed, Del;
  }

  lemma MarkedBroken(st: State, s: Step, r: ReqId)
    requires Inv(st) && Enabled(st, s) && r in st.broken
    ensures r in Apply(st, s).live ==> r in Apply(st, s).broken
    ensures (s.Close? && s.r == r) || (s.Finish? && st.workers[s.w].recycle[0] == r) ==> r !in Apply(st, s).live
  {
    hide Conserved, Counted, RingOk, Local, Del, Changed;
  }

  lemma {:induction false} NoKeepaliveAfterBlock(run: seq<State>, j: nat, k: nat, r: ReqId)
    requires IsRun(run) && j <= k < |run| && Blocked(run[j], r)
    requires forall m :: j <= m <= k ==> r in run[m].live
    ensures Marked(run[k], r)
    decreases k
  {
    hide IsRun, Apply, Enabled, Inv, Marked;
    if j < k {
      NoKeepaliveAfterBlock(run, j, k - 1, r);
      RunInv(run, k - 1);
      NextIn(run, k);
      var s :| Enabled(run[k - 1], s) && run[k] == Apply(run[k - 1], s);
      MarkedStays(run[k - 1], s, r);
    } else {
      BlockedMarked(run[k], r);
    }
  }

  lemma BlockedMarked(st: State, r: ReqId)
    requires Blocked(st, r)
    ensures Marked(st, r)
  {
  }
}
