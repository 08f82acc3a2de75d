/** Timer groups of utils/timer.c: one group per timeout value, kept sorted by adding at the tail.
    The clock is read by the caller; it does not run backwards. */
module Timers {
  import opened Lists

  const BIG_TIME := 3638880000

  type NodeId = nat

  /** ohc_timer_group_t */
  datatype Group = Group(timeout: int, ids: seq<NodeId>)

  /** The nodes of a group are distinct, have deadlines, and stand in the order of these. */
  ghost predicate GroupOk(g: Group, deadline: map<NodeId, int>, now: int) {
    && NoDup(g.ids)
    && (forall k :: 0 <= k < |g.ids| ==> g.ids[k] in deadline && deadline[g.ids[k]] <= now + g.timeout)
    && (forall j, k :: 0 <= j < k < |g.ids| ==> deadline[g.ids[j]] <= deadline[g.ids[k]])
  }

  /** One group per timeout value, and no node in two places. */
  ghost predicate Apart(groups: seq<Group>, expires: seq<NodeId>) {
    && NoDup(expires)
    && (forall i, j :: 0 <= i < j < |groups| ==> groups[i].timeout != groups[j].timeout)
    && (forall i, j, x :: 0 <= i < j < |groups| && x in groups[i].ids ==> x !in groups[j].ids)
    && (forall i, x :: 0 <= i < |groups| && x in groups[i].ids ==> x !in expires)
  }

  ghost predicate GroupsOk(groups: seq<Group>, deadline: map<NodeId, int>, now: int) {
    forall i :: 0 <= i < |groups| ==> GroupOk(groups[i], deadline, now)
  }

  ghost predicate Grouped(groups: seq<Group>, x: NodeId) {
    exists i :: 0 <= i < |groups| && x in groups[i].ids
  }

  /** A waiting node points to the group it is in. */
  ghost predicate Homed(groups: seq<Group>, home: map<NodeId, int>) {
    forall i, x :: 0 <= i < |groups| && x in groups[i].ids ==> x in home && home[x] == groups[i].timeout
  }

  lemma HomeGroup(groups: seq<Group>, home: map<NodeId, int>, x: NodeId)
    requires Homed(groups, home) && Grouped(groups, x)
    ensures x in home && exists i :: 0 <= i < |groups| && groups[i].timeout == home[x]
  {
  }

  /** Groups with the same timeouts and no new nodes. */
  lemma HomedLess(groups: seq<Group>, groups': seq<Group>, home: map<NodeId, int>)
    requires Homed(groups, home) && |groups'| == |groups|
    requires forall i :: 0 <= i < |groups| ==>
             groups'[i].timeout == groups[i].timeout && forall x :: x in groups'[i].ids ==> x in groups[i].ids
    ensures Homed(groups', home)
  {
  }

  lemma HomedDrop(groups: seq<Group>, home: map<NodeId, int>, i: nat)
    requires Homed(groups, home) && i < |groups|
    ensures Homed(groups[..i] + groups[i + 1..], home)
  {
    var r := groups[..i] + groups[i + 1..];
    forall j, x | 0 <= j < |r| && x in r[j].ids ensures x in home && home[x] == r[j].timeout {
      assert r[j] == groups[if j < i then j else j + 1];
    }
  }

  lemma HomedNew(groups: seq<Group>, home: map<NodeId, int>, to: int)
    requires Homed(groups, home)
    ensures Homed([Group(to, [])] + groups, home)
  {
    var r := [Group(to, [])] + groups;
    forall j, x | 0 <= j < |r| && x in r[j].ids ensures x in home && home[x] == r[j].timeout {
      if j > 0 { assert r[j] == groups[j - 1]; }
    }
  }

  lemma HomedAppend(groups: seq<Group>, home: map<NodeId, int>, i: nat, x: NodeId)
    requires Homed(groups, home) && i < |groups| && !Grouped(groups, x)
    ensures Homed(groups[i := Group(groups[i].timeout, groups[i].ids + [x])], home[x := groups[i].timeout])
  {
  }

  // ---------- what timer_expire computes, without the early break ----------

  /** All nodes of a list that are due, and all that are not, in order. */
  function Due(ids: seq<NodeId>, deadline: map<NodeId, int>, t: int): seq<NodeId>
    requires forall x :: x in ids ==> x in deadline
  {
    if ids == [] then [] else (if deadline[ids[0]] <= t then [ids[0]] else []) + Due(ids[1..], deadline, t)
  }

  function Waiting(ids: seq<NodeId>, deadline: map<NodeId, int>, t: int): seq<NodeId>
    requires forall x :: x in ids ==> x in deadline
  {
    if ids == [] then [] else (if deadline[ids[0]] <= t then [] else [ids[0]]) + Waiting(ids[1..], deadline, t)
  }

  lemma {:induction false} DueMembers(ids: seq<NodeId>, deadline: map<NodeId, int>, t: int)
    requires forall x :: x in ids ==> x in deadline
    ensures forall x :: x in Due(ids, deadline, t) <==> x in ids && deadline[x] <= t
    ensures forall x :: x in Waiting(ids, deadline, t) <==> x in ids && deadline[x] > t
  {
    if ids != [] {
      DueMembers(ids[1..], deadline, t);
      assert forall x :: x in ids <==> x == ids[0] || x in ids[1..];
    }
  }

  /** In a sorted list the due nodes are exactly the first ones: the early break loses nothing. */
  lemma {:induction false} DueIsPrefix(ids: seq<NodeId>, deadline: map<NodeId, int>, t: int, k: nat)
    requires k <= |ids| && forall x :: x in ids ==> x in deadline
    requires forall j :: 0 <= j < k ==> deadline[ids[j]] <= t
    requires forall j :: k <= j < |ids| ==> deadline[ids[j]] > t
    ensures Due(ids, deadline, t) == ids[..k] && Waiting(ids, deadline, t) == ids[k..]
  {
    if ids != [] {
      var s := ids[1..];
      assert forall j :: 0 <= j < |s| ==> s[j] == ids[j + 1];
      DueIsPrefix(s, deadline, t, if k > 0 then k - 1 else 0);
      if k > 0 {
        assert [ids[0]] + s[..k - 1] == ids[..k] && s[k - 1..] == ids[k..];
      } else {
        assert [ids[0]] + s[0..] == ids[0..];
      }
    }
  }

  ghost predicate Dated(groups: seq<Group>, deadline: map<NodeId, int>) {
    forall i, x :: 0 <= i < |groups| && x in groups[i].ids ==> x in deadline
  }

  /** The due nodes of all groups, group by group. */
  ghost function AllDue(groups: seq<Group>, deadline: map<NodeId, int>, t: int): seq<NodeId>
    requires Dated(groups, deadline)
    decreases |groups|
  {
    if groups == [] then []
    else AllDue(groups[..|groups| - 1], deadline, t) + Due(groups[|groups| - 1].ids, deadline, t)
  }

  lemma {:induction false} AllDueMembers(groups: seq<Group>, deadline: map<NodeId, int>, t: int)
    requires Dated(groups, deadline)
    ensures forall x :: x in AllDue(groups, deadline, t) <==> Grouped(groups, x) && deadline[x] <= t
    decreases |groups|
  {
    if groups != [] {
      var n := |groups| - 1;
      var front := groups[..n];
      AllDueMembers(front, deadline, t);
      DueMembers(groups[n].ids, deadline, t);
      forall x ensures Grouped(groups, x) <==> Grouped(front, x) || x in groups[n].ids {
        if Grouped(groups, x) {
          var i :| 0 <= i < |groups| && x in groups[i].ids;
          if i < n { assert front[i] == groups[i]; }
        }
        if Grouped(front, x) {
          var i :| 0 <= i < |front| && x in front[i].ids;
          assert groups[i] == front[i];
        }
      }
    }
  }

  // ---------- list surgery ----------

  /** list_del of a node, wherever it is. */
  function Unlink(groups: seq<Group>, x: NodeId): seq<Group> {
    seq(|groups|, i requires 0 <= i < |groups| => Group(groups[i].timeout, Del(groups[i].ids, x)))
  }

  lemma UnlinkGroup(g: Group, deadline: map<NodeId, int>, now: int, x: NodeId)
    requires GroupOk(g, deadline, now)
    ensures GroupOk(Group(g.timeout, Del(g.ids, x)), deadline, now)
    ensures forall y :: y in Del(g.ids, x) <==> y in g.ids && y != x
  {
    hide NoDup, Del;
    DelFacts(g.ids, x);
    var r := Del(g.ids, x);
    if x in g.ids {
      var k := DelIs(g.ids, x);
      forall i, j | 0 <= i < j < |r| ensures deadline[r[i]] <= deadline[r[j]] {
        assert r[i] == g.ids[if i < k then i else i + 1] && r[j] == g.ids[if j < k then j else j + 1];
      }
    } else {
      DelAbsent(g.ids, x);
    }
  }

  lemma UnlinkOk(groups: seq<Group>, expires: seq<NodeId>, deadline: map<NodeId, int>, now: int, x: NodeId)
    requires GroupsOk(groups, deadline, now) && Apart(groups, expires)
    ensures GroupsOk(Unlink(groups, x), deadline, now) && Apart(Unlink(groups, x), Del(expires, x))
    ensures forall y :: Grouped(Unlink(groups, x), y) <==> y != x && Grouped(groups, y)
    ensures forall y :: y in Del(expires, x) <==> y != x && y in expires
  {
    hide NoDup, Del;
    DelFacts(expires, x);
    var r := Unlink(groups, x);
    forall i | 0 <= i < |groups|
      ensures GroupOk(r[i], deadline, now) && forall y :: y in r[i].ids <==> y in groups[i].ids && y != x
    {
      UnlinkGroup(groups[i], deadline, now, x);
    }
    hide GroupOk;
    forall y ensures Grouped(r, y) <==> y != x && Grouped(groups, y) {
      if y != x && Grouped(groups, y) {
        var i :| 0 <= i < |groups| && y in groups[i].ids;
        assert y in r[i].ids;
      }
    }
  }

  lemma UnlinkHomed(groups: seq<Group>, home: map<NodeId, int>, x: NodeId)
    requires Homed(groups, home)
    ensures Homed(Unlink(groups, x), home)
  {
    hide Del, Homed;
    forall i | 0 <= i < |groups|
      ensures forall y :: y in Del(groups[i].ids, x) ==> y in groups[i].ids
    {
      DelOthers(groups[i].ids, x);
    }
    HomedLess(groups, Unlink(groups, x), home);
  }

  lemma AppendGroup(g: Group, deadline: map<NodeId, int>, now: int, x: NodeId)
    requires GroupOk(g, deadline, now) && x !in g.ids
    ensures GroupOk(Group(g.timeout, g.ids + [x]), deadline[x := now + g.timeout], now)
  {
  }

  /** list_add_tail to group i: the newest deadline is the largest of the group. */
  lemma AppendOk(groups: seq<Group>, expires: seq<NodeId>, deadline: map<NodeId, int>, now: int, i: nat, x: NodeId)
    requires GroupsOk(groups, deadline, now) && Apart(groups, expires) && i < |groups| && !Grouped(groups, x)
             && x !in expires
    ensures var to := groups[i].timeout; var r := groups[i := Group(to, groups[i].ids + [x])];
            GroupsOk(r, deadline[x := now + to], now) && Apart(r, expires) && forall y :: Grouped(r, y) <==>
                y == x || Grouped(groups, y)
  {
    var to := groups[i].timeout;
    var r := groups[i := Group(to, groups[i].ids + [x])];
    AppendGroup(groups[i], deadline, now, x);
    forall j | 0 <= j < |groups| && j != i ensures GroupOk(r[j], deadline[x := now + to], now) {
      assert GroupOk(groups[j], deadline, now) && x !in groups[j].ids;
    }
    hide GroupOk, NoDup;
    forall y ensures Grouped(r, y) <==> y == x || Grouped(groups, y) {
      if y == x { assert y in r[i].ids; }
      if Grouped(groups, y) {
        var j :| 0 <= j < |groups| && y in groups[j].ids;
        assert y in r[j].ids;
      }
    }
  }

  lemma NewGroupOk(groups: seq<Group>, expires: seq<NodeId>, deadline: map<NodeId, int>, now: int, to: int)
    requires GroupsOk(groups, deadline, now) && Apart(groups, expires)
    requires forall i :: 0 <= i < |groups| ==> groups[i].timeout != to
    ensures var r := [Group(to, [])] + groups;
            GroupsOk(r, deadline, now) && Apart(r, expires) && forall y :: Grouped(r, y) <==> Grouped(groups, y)
  {
    hide NoDup;
    var r := [Group(to, [])] + groups;
    assert forall i :: 0 < i < |r| ==> r[i] == groups[i - 1];
    assert GroupOk(r[0], deadline, now) by { assert NoDup(r[0].ids) by { EmptyNoDup(); } }
    hide GroupOk;
    forall y ensures Grouped(r, y) <==> Grouped(groups, y) {
      if Grouped(groups, y) {
        var j :| 0 <= j < |groups| && y in groups[j].ids;
        assert y in r[j + 1].ids;
      }
    }
  }

  lemma EmptyNoDup()
    ensures NoDup<NodeId>([])
  {
  }

  lemma Later(groups: seq<Group>, deadline: map<NodeId, int>, now: int, t: int)
    requires GroupsOk(groups, deadline, now) && now <= t
    ensures GroupsOk(groups, deadline, t) && Dated(groups, deadline)
  {
    hide NoDup;
    forall i | 0 <= i < |groups|
      ensures GroupOk(groups[i], deadline, t) && forall x :: x in groups[i].ids ==> x in deadline
    {
      assert GroupOk(groups[i], deadline, now);
    }
  }

  /** max(0, deadline - now) */
  function Distance(deadline: int, t: int): int {
    if deadline <= t then 0 else deadline - t
  }

  /** The state of timer_expire after i groups. */
  ghost predicate Moving(was: seq<Group>, expires: seq<NodeId>, groups: seq<Group>, expires': seq<NodeId>,
                         deadline: map<NodeId, int>, t: int, i: nat)
  {
    && |groups| == |was| && i <= |was| && Dated(was, deadline) && Dated(was[..i], deadline)
    && (forall j :: 0 <= j < i ==> groups[j] == Group(was[j].timeout, Waiting(was[j].ids, deadline, t)))
    && (forall j :: i <= j < |was| ==> groups[j] == was[j])
    && expires' == expires + AllDue(was[..i], deadline, t)
  }

  lemma NoneMoved(groups: seq<Group>, expires: seq<NodeId>, deadline: map<NodeId, int>, t: int)
    requires Dated(groups, deadline)
    ensures Moving(groups, expires, groups, expires, deadline, t, 0)
  {
  }

  lemma MovingAt(was: seq<Group>, expires: seq<NodeId>, groups: seq<Group>, expires': seq<NodeId>,
                 deadline: map<NodeId, int>, t: int, i: nat)
    requires Moving(was, expires, groups, expires', deadline, t, i) && i < |was| && GroupsOk(groups, deadline, t)
    ensures groups[i] == was[i] && GroupOk(groups[i], deadline, t)
  {
  }

  /** The first k nodes of group i go to the end of the list of expired nodes. */
  lemma MoveKeeps(groups: seq<Group>, expires: seq<NodeId>, deadline: map<NodeId, int>, t: int, i: nat, k: nat)
    requires GroupsOk(groups, deadline, t) && Apart(groups, expires) && i < |groups| && k <= |groups[i].ids|
    ensures var ids := groups[i].ids; var groups' := groups[i := Group(groups[i].timeout, ids[k..])];
            GroupsOk(groups', deadline, t) && Apart(groups', expires + ids[..k])
  {
    var ids := groups[i].ids;
    assert GroupOk(groups[i], deadline, t);
    assert NoDup(ids[k..]) && NoDup(ids[..k]) && forall x :: x in ids[..k] ==> x in ids && x !in ids[k..];
    assert forall x :: x in ids[k..] ==> x in ids;
    JoinNoDup(expires, ids[..k]);
    assert GroupOk(Group(groups[i].timeout, ids[k..]), deadline, t);
    hide GroupOk, NoDup;
  }

  lemma JoinNoDup(a: seq<NodeId>, b: seq<NodeId>)
    requires NoDup(a) && NoDup(b) && forall x :: x in b ==> x !in a
    ensures NoDup(a + b)
  {
    forall i, j | 0 <= i < j < |a + b| ensures (a + b)[i] != (a + b)[j] {
      if i < |a| <= j { assert (a + b)[j] in b; }
    }
  }

  lemma MoveNext(was: seq<Group>, expires: seq<NodeId>, groups: seq<Group>, expires': seq<NodeId>,
                 deadline: map<NodeId, int>, t: int, i: nat, k: nat)
    requires Moving(was, expires, groups, expires', deadline, t, i) && i < |was| && k <= |was[i].ids|
    requires (forall x :: x in was[i].ids ==> x in deadline)
    requires was[i].ids[..k] == Due(was[i].ids, deadline, t) && was[i].ids[k..] == Waiting(was[i].ids, deadline, t)
    ensures Moving(was, expires, groups[i := Group(groups[i].timeout, was[i].ids[k..])], expires' + was[i].ids[..k],
              deadline, t, i + 1)
  {
    hide Due, Waiting;
    var front := was[..i + 1];
    assert front[..i] == was[..i] && front[i] == was[i];
    assert expires + AllDue(was[..i], deadline, t) + was[i].ids[..k]
           == expires + (AllDue(was[..i], deadline, t) + was[i].ids[..k]);
  }

  lemma AllMoved(was: seq<Group>, expires: seq<NodeId>, groups: seq<Group>, expires': seq<NodeId>,
      deadline: map<NodeId, int>, t: int)
    requires Moving(was, expires, groups, expires', deadline, t, |was|)
    ensures Dated(was, deadline) && expires' == expires + AllDue(was, deadline, t)
    ensures forall x :: Grouped(groups, x) <==> Grouped(was, x) && x in deadline && deadline[x] > t
    ensures forall x :: x in expires' <==> x in expires || (Grouped(was, x) && x in deadline && deadline[x] <= t)
  {
    hide Due, Waiting;
    assert was[..|was|] == was;
    AllDueMembers(was, deadline, t);
    forall x ensures Grouped(groups, x) <==> Grouped(was, x) && x in deadline && deadline[x] > t {
      if Grouped(groups, x) {
        var i :| 0 <= i < |groups| && x in groups[i].ids;
        DueMembers(was[i].ids, deadline, t);
      }
      if Grouped(was, x) && x in deadline && deadline[x] > t {
        var i :| 0 <= i < |was| && x in was[i].ids;
        DueMembers(was[i].ids, deadline, t);
        assert x in groups[i].ids;
      }
    }
  }

  /** The inner loop of timer_expire, with its early break: how many nodes of a group are taken. */
  method CountDue(g: Group, deadline: map<NodeId, int>, t: int) returns (k: nat)
    requires GroupOk(g, deadline, t)
    ensures k <= |g.ids| && forall x :: x in g.ids ==> x in deadline
    ensures g.ids[..k] == Due(g.ids, deadline, t) && g.ids[k..] == Waiting(g.ids, deadline, t)
  {
    k := 0;
    while k < |g.ids| && deadline[g.ids[k]] <= t
      invariant k <= |g.ids| && forall j :: 0 <= j < k ==> deadline[g.ids[j]] <= t
    {
      k := k + 1;
    }
    DueIsPrefix(g.ids, deadline, t, k);
  }

  // ---------- the closest deadline ----------

  /** `closest` is the least of BIG_TIME and the deadlines at the heads of the first i groups. */
  ghost predicate Head(groups: seq<Group>, deadline: map<NodeId, int>, i: nat, closest: int) {
    && i <= |groups| && closest <= BIG_TIME
    && (forall j :: 0 <= j < i ==>
         groups[j].ids != [] && groups[j].ids[0] in deadline && closest <= deadline[groups[j].ids[0]])
    && (closest == BIG_TIME || exists j :: 0 <= j < i && closest == deadline[groups[j].ids[0]])
  }

  lemma HeadNext(groups: seq<Group>, deadline: map<NodeId, int>, now: int, i: nat, closest: int)
    requires Head(groups, deadline, i, closest) && i < |groups| && groups[i].ids != []
             && GroupsOk(groups, deadline, now)
    ensures groups[i].ids[0] in deadline
    ensures var d := deadline[groups[i].ids[0]]; Head(groups, deadline, i + 1, if d < closest then d else closest)
  {
    hide NoDup;
    assert GroupOk(groups[i], deadline, now);
  }

  lemma HeadOnly(groups: seq<Group>, groups': seq<Group>, deadline: map<NodeId, int>, i: nat, closest: int)
    requires Head(groups, deadline, i, closest) && i <= |groups'| && groups'[..i] == groups[..i]
    ensures Head(groups', deadline, i, closest)
  {
    assert forall j :: 0 <= j < i ==> groups'[j] == groups'[..i][j] && groups[j] == groups[..i][j];
    if closest != BIG_TIME {
      var j :| 0 <= j < i && closest == deadline[groups[j].ids[0]];
      assert closest == deadline[groups'[j].ids[0]];
    }
  }

  lemma HeadStart(groups: seq<Group>, deadline: map<NodeId, int>)
    ensures Head(groups, deadline, 0, BIG_TIME)
  {
  }

  lemma DropApart(groups: seq<Group>, expires: seq<NodeId>, i: nat)
    requires Apart(groups, expires) && i < |groups|
    ensures Apart(groups[..i] + groups[i + 1..], expires)
  {
    hide NoDup;
    var r := groups[..i] + groups[i + 1..];
    forall a, b | 0 <= a < b < |r|
      ensures r[a].timeout != r[b].timeout && forall x :: x in r[a].ids ==> x !in r[b].ids
    {
      var a', b' := if a < i then a else a + 1, if b < i then b else b + 1;
      assert r[a] == groups[a'] && r[b] == groups[b'];
    }
    forall a, x | 0 <= a < |r| && x in r[a].ids ensures x !in expires {
      assert r[a] == groups[if a < i then a else a + 1];
    }
  }

  lemma DropGroups(groups: seq<Group>, deadline: map<NodeId, int>, now: int, i: nat)
    requires GroupsOk(groups, deadline, now) && i < |groups|
    ensures GroupsOk(groups[..i] + groups[i + 1..], deadline, now)
  {
    hide GroupOk;
    var r := groups[..i] + groups[i + 1..];
    forall j | 0 <= j < |r| ensures GroupOk(r[j], deadline, now) {
      assert r[j] == groups[if j < i then j else j + 1];
    }
  }

  lemma DropGrouped(groups: seq<Group>, i: nat, x: NodeId)
    requires i < |groups| && groups[i].ids == []
    ensures Grouped(groups[..i] + groups[i + 1..], x) <==> Grouped(groups, x)
  {
    var r := groups[..i] + groups[i + 1..];
    if Grouped(groups, x) {
      var j :| 0 <= j < |groups| && x in groups[j].ids;
      assert r[if j < i then j else j - 1] == groups[j];
    }
    if Grouped(r, x) {
      var j :| 0 <= j < |r| && x in r[j].ids;
      assert r[j] == groups[if j < i then j else j + 1];
    }
  }

  lemma DropOk(groups: seq<Group>, expires: seq<NodeId>, deadline: map<NodeId, int>, now: int, i: nat, closest: int)
    requires GroupsOk(groups, deadline, now) && Apart(groups, expires) && i < |groups| && groups[i].ids == []
    requires Head(groups, deadline, i, closest)
    ensures var r := groups[..i] + groups[i + 1..];
            GroupsOk(r, deadline, now) && Apart(r, expires) && Head(r, deadline, i, closest)
                && forall x :: Grouped(r, x) <==> Grouped(groups, x)
  {
    hide GroupsOk, Apart, Head, Grouped;
    var r := groups[..i] + groups[i + 1..];
    DropGroups(groups, deadline, now, i);
    DropApart(groups, expires, i);
    HeadOnly(groups, r, deadline, i, closest);
    forall x ensures Grouped(r, x) <==> Grouped(groups, x) { DropGrouped(groups, i, x); }
  }

  /** The head of a sorted group has its least deadline. */
  lemma HeadIsLeast(groups: seq<Group>, deadline: map<NodeId, int>, now: int, closest: int)
    requires GroupsOk(groups, deadline, now) && Head(groups, deadline, |groups|, closest)
    ensures forall x :: Grouped(groups, x) ==> x in deadline && closest <= deadline[x]
    ensures closest <= BIG_TIME
    ensures closest == BIG_TIME || exists x :: Grouped(groups, x) && x in deadline && closest == deadline[x]
  {
    forall x | Grouped(groups, x) ensures x in deadline && closest <= deadline[x] {
      var i :| 0 <= i < |groups| && x in groups[i].ids;
      assert GroupOk(groups[i], deadline, now);
      var k :| 0 <= k < |groups[i].ids| && groups[i].ids[k] == x;
    }
    if closest != BIG_TIME {
      var j :| 0 <= j < |groups| && closest == deadline[groups[j].ids[0]];
      var x := groups[j].ids[0];
      assert x in groups[j].ids && Grouped(groups, x);
    }
  }

  /** ohc_timer_t, with the fields of its nodes. */
  class Timer {
    var now: int
    var groups: seq<Group>
    var expires: seq<NodeId>
    var deadline: map<NodeId, int>
    var home: map<NodeId, int>

    ghost predicate Valid()
      reads this
    {
      GroupsOk(groups, deadline, now) && Apart(groups, expires) && Homed(groups, home)
    }

    /** The node waits in some group. */
    ghost predicate Waits(x: NodeId)
      reads this
    {
      Grouped(groups, x)
    }

    constructor (t: int)
      ensures Valid() && now == t && groups == [] && expires == []
    {
      now, groups, expires, deadline, home := t, [], [], map[], map[];
    }

    /** timer_add; `memory` says whether malloc succeeds. */
    method Add(x: NodeId, timeout: int, memory: bool) returns (ok: bool)
      requires Valid() && !Waits(x) && x !in expires
      modifies this
      ensures Valid() && expires == old(expires) && now == old(now)
      ensures ok <==> memory || exists i :: 0 <= i < |old(groups)| && old(groups)[i].timeout == timeout
      ensures if ok then (forall y :: Waits(y) <==> y == x || old(Waits(y)))
              && deadline == old(deadline)[x := now + timeout] && x in home && home[x] == timeout
              else groups == old(groups) && deadline == old(deadline)
    {
      hide GroupsOk, Apart, Grouped, Homed;
      var i := 0;
      while i < |groups| && groups[i].timeout != timeout
        invariant i <= |groups| && forall j :: 0 <= j < i ==> groups[j].timeout != timeout
      {
        i := i + 1;
      }
      if i == |groups| {
        if !memory {
          return false;
        }
        NewGroupOk(groups, expires, deadline, now, timeout);
        HomedNew(groups, home, timeout);
        groups := [Group(timeout, [])] + groups;
        i := 0;
      }
      AppendOk(groups, expires, deadline, now, i, x);
      HomedAppend(groups, home, i, x);
      groups := groups[i := Group(timeout, groups[i].ids + [x])];
      deadline := deadline[x := now + timeout];
      home := home[x := timeout];
      return true;
    }

    /** timer_del */
    method Delete(x: NodeId)
      requires Valid()
      modifies this`groups, this`expires
      ensures Valid()
      ensures forall y :: Waits(y) <==> y != x && old(Waits(y))
      ensures forall y :: y in expires <==> y != x && y in old(expires)
      ensures |groups| == |old(groups)| && forall i :: 0 <= i < |groups| ==> groups[i].timeout == old(groups)[i].timeout
    {
      hide GroupsOk, Apart, Grouped, Homed;
      UnlinkOk(groups, expires, deadline, now, x);
      UnlinkHomed(groups, home, x);
      groups, expires := Unlink(groups, x), Del(expires, x);
    }

    /** timer_update for a waiting node: the group it points to is still there, because timer_closest
        frees only empty ones. */
    method Update(x: NodeId, timeout: int, memory: bool) returns (ok: bool)
      requires Valid() && Waits(x)
      modifies this
      ensures x in old(home) && exists i :: 0 <= i < |old(groups)| && old(groups)[i].timeout == old(home)[x]
      ensures Valid() && now == old(now)
      ensures var to := if timeout == 0 then old(home)[x] else timeout;
              if ok then (forall y :: Waits(y) <==> y == x || old(Waits(y))) && deadline == old(deadline)[x := now + to]
              else !memory && (forall y :: Waits(y) <==> y != x && old(Waits(y))) && deadline == old(deadline)
      ensures timeout == 0 || timeout == old(home)[x] ==> ok
      ensures forall y :: y in expires <==> y != x && y in old(expires)
    {
      hide GroupsOk, Apart, Grouped, Homed;
      HomeGroup(groups, home, x);
      var to := if timeout == 0 then home[x] else timeout;
      ghost var i :| 0 <= i < |groups| && groups[i].timeout == home[x];
      Delete(x);
      assert groups[i].timeout == home[x];
      ok := Add(x, to, memory);
    }

    /** timer_expire: every node with a deadline up to t, and no other, moves to the list of the
        expired ones; the early break in each group changes nothing. */
    method Expire(t: int)
      requires Valid() && now <= t
      modifies this`now, this`groups, this`expires
      ensures Valid() && now == t
      ensures Dated(old(groups), deadline) && expires == old(expires) + AllDue(old(groups), deadline, t)
      ensures forall x :: Waits(x) <==> old(Waits(x)) && x in deadline && deadline[x] > t
      ensures forall x :: x in expires <==> x in old(expires) || (old(Waits(x)) && x in deadline && deadline[x] <= t)
    {
      hide GroupOk, GroupsOk, Apart, AllDue, Grouped, Dated, Moving, Homed;
      Later(groups, deadline, now, t);
      now := t;
      var was := groups;
      var i := 0;
      NoneMoved(groups, expires, deadline, t);
      while i < |groups|
        invariant i <= |groups| == |was| && Valid() && now == t
        invariant Moving(was, old(expires), groups, expires, deadline, t, i)
      {
        MovingAt(was, old(expires), groups, expires, deadline, t, i);
        var k := CountDue(groups[i], deadline, now);
        var ids := groups[i].ids;
        MoveKeeps(groups, expires, deadline, t, i, k);
        MoveNext(was, old(expires), groups, expires, deadline, t, i, k);
        HomedLess(groups, groups[i := Group(groups[i].timeout, ids[k..])], home);
        expires := expires + ids[..k];
        groups := groups[i := Group(groups[i].timeout, ids[k..])];
        i := i + 1;
      }
      AllMoved(was, old(expires), groups, expires, deadline, t);
    }

    /** timer_closest: reading only the heads of the groups gives the least deadline of all waiting
        nodes, capped by BIG_TIME, as a distance from now. */
    method Closest(t: int) returns (r: int)
      requires Valid() && now <= t
      modifies this`now, this`groups
      ensures Valid() && now == t
      ensures forall x :: Waits(x) <==> old(Waits(x))
      ensures forall i :: 0 <= i < |groups| ==> groups[i].ids != []
      ensures 0 <= r <= Distance(BIG_TIME, t)
      ensures forall x :: Waits(x) ==> x in deadline && r <= Distance(deadline[x], t)
      ensures r == Distance(BIG_TIME, t) || exists x :: Waits(x) && x in deadline && r == Distance(deadline[x], t)
    {
      hide GroupsOk, Apart, Grouped, Head, Homed;
      var closest, i := BIG_TIME, 0;
      HeadStart(groups, deadline);
      while i < |groups|
        invariant i <= |groups| && Valid() && now == old(now)
        invariant forall x :: Waits(x) <==> old(Waits(x))
        invariant forall j :: 0 <= j < i ==> groups[j].ids != []
        invariant Head(groups, deadline, i, closest)
        decreases |groups| - i
      {
        if groups[i].ids == [] {
          DropOk(groups, expires, deadline, now, i, closest);
          HomedDrop(groups, home, i);
          groups := groups[..i] + groups[i + 1..];
        } else {
          HeadNext(groups, deadline, now, i, closest);
          if deadline[groups[i].ids[0]] < closest {
            closest := deadline[groups[i].ids[0]];
          }
          i := i + 1;
        }
      }
      HeadIsLeast(groups, deadline, now, closest);
      Later(groups, deadline, now, t);
      now := t;
      r := if closest <= now then 0 else closest - now;
    }
  }
}
