/** The incrementally split hash table of utils/hash.c. While a doubling is under way the nodes are
    spread over the new buckets and over those previous buckets that were not split yet; every
    stage holds the same set of nodes. MD5 is not modelled: nodes come with their 128-bit id.
    `fold & (size - 1)` is written `Fold(id) % size`; the sizes are powers of two. */
module Hashes {
  import opened Lists
  import opened SizeClass

  const SIZE_BEGIN := 16
  const SIZE_MAX := 0x1000_0000
  const COLLISIONS := 10

  /** The two 64-bit halves of an MD5 sum. */
  datatype Id = Id(lo: bv64, hi: bv64)

  /** ohc_hash_node_t, with a name for the object it is embedded in. */
  datatype Node = Node(id: Id, object: nat)

  type Table = seq<seq<Node>>

  function Fold(id: Id): nat {
    (id.lo ^ id.hi) as nat
  }

  /** hash_index */
  function Slot(id: Id, size: nat): (i: nat)
    requires size > 0
    ensures i < size
  {
    Fold(id) % size
  }

  /** Every chain holds distinct nodes that belong there. */
  ghost predicate Chained(t: Table) {
    forall i :: 0 <= i < |t| ==> NoDup(t[i]) && forall x :: x in t[i] ==> Slot(x.id, |t|) == i
  }

  ghost predicate In(t: Table, x: Node) {
    |t| > 0 && x in t[Slot(x.id, |t|)]
  }

  /** The stage of a migration: `p` is empty when none is under way. */
  ghost predicate Stage(b: Table, p: Table, split: nat) {
    && |b| > 0 && Chained(b) && Chained(p)
    && (p != [] ==> |b| == 2 * |p| && split < |p|)
    && (forall j :: 0 <= j < |p| && j < split ==> p[j] == [])
  }

  /** The table holds exactly `nodes`, each in one place. */
  ghost predicate Holds(b: Table, p: Table, nodes: set<Node>) {
    && (forall x :: x in nodes <==> In(b, x) || In(p, x))
    && (forall x :: !(In(b, x) && In(p, x)))
  }

  // ---------- single chains ----------

  lemma PutIn(t: Table, x: Node)
    requires Chained(t) && |t| > 0 && !In(t, x)
    ensures var i := Slot(x.id, |t|); var t' := t[i := [x] + t[i]];
            Chained(t') && forall y :: In(t', y) <==> y == x || In(t, y)
  {
    hide Slot, NoDup;
    var i := Slot(x.id, |t|);
    ConsFacts(t[i], x);
  }

  lemma TakeOut(t: Table, x: Node)
    requires Chained(t) && In(t, x)
    ensures var i := Slot(x.id, |t|); var t' := t[i := Del(t[i], x)];
            Chained(t') && forall y :: In(t', y) <==> y != x && In(t, y)
  {
    hide Slot, NoDup, Del;
    var i := Slot(x.id, |t|);
    DelFacts(t[i], x);
  }

  lemma Elsewhere(t: Table, i: nat, x: Node)
    requires Chained(t) && i < |t| && x in t[i]
    ensures In(t, x) && Slot(x.id, |t|) == i
  {
    hide Slot, NoDup;
  }

  lemma EmptyChains(t: Table)
    requires forall i :: 0 <= i < |t| ==> t[i] == []
    ensures Chained(t) && forall x :: !In(t, x)
  {
    hide Slot;
  }

  /** The slot in the smaller table follows from that in the larger one, as hash_get uses it. */
  lemma HalfSlot(id: Id, n: nat, half: nat)
    requires half > 0 && n == 2 * half
    ensures var i := Slot(id, n); Slot(id, half) == if i >= half then i - half else i
  {
    hide Fold;
    var q, i := Quotient(Fold(id), n);
    HalfIs(Fold(id), n, half, q, i);
  }

  lemma Quotient(f: nat, n: nat) returns (q: nat, i: nat)
    requires n > 0
    ensures f == q * n + i && i < n && i == f % n
  {
    q, i := f / n, f % n;
  }

  lemma HalfIs(f: nat, n: nat, half: nat, q: nat, i: nat)
    requires half > 0 && i < n && n == 2 * half && f == q * n + i
    ensures f % half == if i >= half then i - half else i
  {
    MulTwice(q, half);
    var m := q * half;
    var t := if i >= half then 2 * q + 1 else 2 * q;
    assert t * half == if i >= half then 2 * m + half else 2 * m;
    assert (t + 1) * half == t * half + half;
    DivIs(f, half, t);
  }

  lemma LoadTest(items: nat, size: nat)
    requires size > 0
    ensures items / size >= COLLISIONS <==> items >= COLLISIONS * size
  {
    var k := items / size;
    if k < COLLISIONS { MulApart(size, k, COLLISIONS); }
    if COLLISIONS < k { MulApart(size, COLLISIONS, k); }
  }

  // ---------- the steps ----------

  /** hlist_del and hlist_add_head in the loop of hash_expansion. */
  lemma MoveKeeps(b: Table, p: Table, split: nat, nodes: set<Node>, x: Node)
    requires Stage(b, p, split) && Holds(b, p, nodes) && p != [] && p[split] != [] && p[split][0] == x
    ensures var i := Slot(x.id, |b|); var b', p' := b[i := [x] + b[i]], p[split := p[split][1..]];
            Stage(b', p', split) && Holds(b', p', nodes)
  {
    hide Slot, Chained, In;
    Elsewhere(p, split, x);
    TakeOut(p, x);
    PutIn(b, x);
    assert Del(p[split], x) == p[split][1..];
  }

  lemma DoubleKeeps(b: Table, b': Table, nodes: set<Node>)
    requires Stage(b, [], 0) && Holds(b, [], nodes) && |b'| == 2 * |b| && forall i :: 0 <= i < |b'| ==> b'[i] == []
    ensures Stage(b', b, 0) && Holds(b', b, nodes)
  {
    hide Slot, NoDup;
    EmptyChains(b');
    hide Chained, In;
  }

  /** An empty chain is passed; after the last one the previous buckets hold nothing any more. */
  lemma PassKeeps(b: Table, p: Table, split: nat, nodes: set<Node>)
    requires Stage(b, p, split) && Holds(b, p, nodes) && p != [] && p[split] == []
    ensures split + 1 < |p| ==> Stage(b, p, split + 1) && Holds(b, p, nodes)
    ensures split + 1 == |p| ==>
            (forall j :: 0 <= j < |p| ==> p[j] == []) && Stage(b, [], split + 1) && Holds(b, [], nodes)
  {
    hide Slot;
    if split + 1 == |p| {
      EmptyChains(p);
      EmptyChains([]);
    }
  }

  lemma AddKeeps(b: Table, p: Table, split: nat, nodes: set<Node>, x: Node)
    requires Stage(b, p, split) && Holds(b, p, nodes) && x !in nodes
    ensures var i := Slot(x.id, |b|); var b' := b[i := [x] + b[i]];
            Stage(b', p, split) && Holds(b', p, nodes + {x})
  {
    hide Slot, Chained, In;
    PutIn(b, x);
  }

  lemma DelKeeps(b: Table, p: Table, split: nat, nodes: set<Node>, x: Node)
    requires Stage(b, p, split) && Holds(b, p, nodes) && x in nodes
    ensures In(b, x) ==> var i := Slot(x.id, |b|); var b' := b[i := Del(b[i], x)];
                         Stage(b', p, split) && Holds(b', p, nodes - {x})
    ensures !In(b, x) ==> In(p, x) && var i := Slot(x.id, |p|); var p' := p[i := Del(p[i], x)];
                          Stage(b, p', split) && Holds(b, p', nodes - {x})
  {
    if In(b, x) {
      TakeOut(b, x);
    } else {
      TakeOut(p, x);
      assert Slot(x.id, |p|) >= split;
    }
    hide Slot, Chained, In, Del;
  }

  // ---------- the table as a map ----------

  ghost predicate UniqueIds(nodes: set<Node>) {
    forall x, y :: x in nodes && y in nodes && x.id == y.id ==> x == y
  }

  /** The plain map that the table stands for. */
  ghost function AsMap(nodes: set<Node>): map<Id, Node>
    requires UniqueIds(nodes)
  {
    var ids := set x | x in nodes :: x.id;
    map id | id in ids :: (var x :| x in nodes && x.id == id; x)
  }

  lemma AsMapAt(nodes: set<Node>, x: Node)
    requires UniqueIds(nodes)
    ensures x in nodes ==> x.id in AsMap(nodes) && AsMap(nodes)[x.id] == x
    ensures x.id in AsMap(nodes) ==> AsMap(nodes)[x.id] in nodes && AsMap(nodes)[x.id].id == x.id
  {
  }

  /** Adding a node with a new id and deleting a node are the map's insert and remove. */
  lemma AsMapSteps(nodes: set<Node>, x: Node)
    requires UniqueIds(nodes)
    ensures (forall y :: y in nodes ==> y.id != x.id) ==>
              UniqueIds(nodes + {x}) && AsMap(nodes + {x}) == AsMap(nodes)[x.id := x]
    ensures x in nodes ==> UniqueIds(nodes - {x}) && AsMap(nodes - {x}) == AsMap(nodes) - {x.id}
  {
    if forall y :: y in nodes ==> y.id != x.id {
      SameMap(nodes + {x}, AsMap(nodes)[x.id := x]);
    }
    if x in nodes {
      SameMap(nodes - {x}, AsMap(nodes) - {x.id});
    }
  }

  lemma SameMap(nodes: set<Node>, m: map<Id, Node>)
    requires UniqueIds(nodes)
    requires forall id :: id in m ==> m[id] in nodes && m[id].id == id
    requires forall x :: x in nodes ==> x.id in m
    ensures AsMap(nodes) == m
  {
  }

  lemma StageRestart(b: Table, split: nat)
    requires Stage(b, [], split)
    ensures Stage(b, [], 0)
  {
    hide Chained;
  }

  lemma SizeDoubles(level: nat)
    ensures SIZE_BEGIN * Pow2(level + 1) == 2 * (SIZE_BEGIN * Pow2(level))
    ensures level <= 24 && SIZE_BEGIN * Pow2(level) < SIZE_MAX ==> level < 24
  {
    assert Pow2(24) == 0x100_0000 by {
      assert Pow2(8) == 256;
      assert Pow2(16) == 256 * Pow2(8);
      assert Pow2(24) == 256 * Pow2(16);
    }
  }

  // ---------- the load ----------

  /** Ten nodes per bucket, and during a migration one more than ten per old bucket for every chain
      that was split already. */
  predicate Light(size: nat, items: int, migrating: bool, split: nat) {
    && (migrating ==> split < size / 2 && items <= COLLISIONS * (size / 2) + split)
    && (!migrating && size < SIZE_MAX ==> items < COLLISIONS * size)
  }

  /** The load bound itself; in particular a migration is over before the next doubling is due. */
  lemma LoadBound(size: nat, items: int, migrating: bool, split: nat)
    requires Light(size, items, migrating, split) && size > 0 && (size < SIZE_MAX || migrating)
    ensures items < COLLISIONS * size
  {
  }

  lemma LightLess(size: nat, items: int, migrating: bool, split: nat)
    ensures Light(size, items, migrating, split) ==> Light(size, items - 1, migrating, split)
  {
  }

  lemma SplitLight(size: nat, items: int, migrating: bool, split: nat)
    requires Light(size, items - 1, migrating, split) && size >= SIZE_BEGIN && size % 2 == 0
    requires !migrating ==> items >= COLLISIONS * size && size < SIZE_MAX
    ensures var size' := if migrating then size else 2 * size;
            var split' := if migrating then split + 1 else 1;
            Light(size', items, split' != size' / 2, split')
  {
  }

  lemma RestLight(size: nat, items: int, split: nat)
    requires Light(size, items - 1, false, split) && (items < COLLISIONS * size || size >= SIZE_MAX)
    ensures Light(size, items, false, split)
  {
  }

  lemma SizeFacts(level: nat)
    ensures SIZE_BEGIN * Pow2(level) >= SIZE_BEGIN && (SIZE_BEGIN * Pow2(level)) % 2 == 0
  {
    var x := Pow2(level);
    hide Pow2;
    assert SIZE_BEGIN * x == 2 * (8 * x);
  }

  lemma StageSize(b: Table, p: Table, split: nat)
    requires Stage(b, p, split)
    ensures |b| > 0 && (p != [] ==> |b| == 2 * |p| && split < |p|)
  {
    hide Chained;
  }

  /** What the two searches of hash_get find. */
  lemma Found(b: Table, p: Table, split: nat, nodes: set<Node>, id: Id, r: Option<Node>)
    requires Stage(b, p, split) && Holds(b, p, nodes)
    requires r.Some? ==> r.value.id == id && (r.value in b[Slot(id, |b|)] || (p != [] && r.value in p[Slot(id, |p|)]))
    requires r.None? ==>
             && (forall x :: x in b[Slot(id, |b|)] ==> x.id != id)
             && (p != [] ==> forall x :: x in p[Slot(id, |p|)] ==> x.id != id)
    ensures r.Some? ==> r.value in nodes && r.value.id == id
    ensures r.None? ==> forall x :: x in nodes ==> x.id != id
    ensures UniqueIds(nodes) ==> r == if id in AsMap(nodes) then Some(AsMap(nodes)[id]) else None
  {
    hide Slot, Chained, UniqueIds, AsMap;
    if UniqueIds(nodes) {
      AsMapAt(nodes, if r.Some? then r.value else Node(id, 0));
    }
  }

  /** hash_search */
  method Search(chain: seq<Node>, id: Id) returns (r: Option<Node>)
    ensures r.Some? ==> r.value in chain && r.value.id == id
    ensures r.None? ==> forall x :: x in chain ==> x.id != id
  {
    for k := 0 to |chain|
      invariant forall j :: 0 <= j < k ==> chain[j].id != id
    {
      if chain[k].id == id {
        return Some(chain[k]);
      }
    }
    return None;
  }

  /** ohc_hash_t */
  class Hash {
    var buckets: array<seq<Node>>
    var bucketSize: nat
    var items: int
    var prev: array?<seq<Node>>
    var split: nat
    ghost var nodes: set<Node>
    ghost var level: nat

    ghost function Prev(): Table
      reads this, prev
    {
      if prev == null then [] else prev[..]
    }

    ghost predicate Valid()
      reads this, buckets, prev
    {
      && buckets != prev && buckets.Length == bucketSize == SIZE_BEGIN * Pow2(level) && level <= 24
      && (prev != null ==> prev.Length > 0)
      && Stage(buckets[..], Prev(), split) && Holds(buckets[..], Prev(), nodes)
      && items == |nodes|
    }

    /** The load bound. It needs every calloc to succeed. */
    ghost predicate Loaded()
      reads this
    {
      Light(bucketSize, items, prev != null, split)
    }

    /** hash_init */
    constructor ()
      ensures Valid() && Loaded() && nodes == {} && fresh(buckets) && prev == null
    {
      buckets := new seq<Node>[SIZE_BEGIN](_ => []);
      bucketSize, items, prev, split, nodes, level := SIZE_BEGIN, 0, null, 0, {}, 0;
      new;
      EmptyChains(buckets[..]);
      EmptyChains([]);
    }

    /** The first half of hash_expansion; `memory` says whether calloc succeeds. */
    method Double(memory: bool)
      requires Valid()
      modifies this
      ensures Valid() && nodes == old(nodes) && items == old(items)
      ensures if items >= COLLISIONS * old(bucketSize) && old(prev) == null && old(bucketSize) < SIZE_MAX && memory
              then fresh(buckets) && prev == old(buckets) && bucketSize == 2 * old(bucketSize) && split == 0
              else unchanged(this)
    {
      hide Stage, Holds, Pow2;
      LoadTest(items, bucketSize);
      if items / bucketSize >= COLLISIONS && prev == null && bucketSize < SIZE_MAX && memory {
        var bigger := new seq<Node>[2 * bucketSize](_ => []);
        StageRestart(buckets[..], split);
        DoubleKeeps(buckets[..], bigger[..], nodes);
        SizeDoubles(level);
        bucketSize, prev, buckets, split, level := 2 * bucketSize, buckets, bigger, 0, level + 1;
      }
    }

    /** The second half of hash_expansion: one chain moves over. */
    method SplitOne()
      requires Valid() && prev != null
      modifies this, buckets, prev
      ensures Valid() && nodes == old(nodes) && items == old(items)
      ensures buckets == old(buckets) && bucketSize == old(bucketSize) && split == old(split) + 1
      ensures prev == if split == bucketSize / 2 then null else old(prev)
    {
      hide Stage, Holds, Pow2, Slot;
      var p := prev;
      StageSize(buckets[..], p[..], split);
      while p[split] != []
        invariant Valid() && prev == p && split < p.Length
        invariant nodes == old(nodes) && items == old(items) && buckets == old(buckets) && bucketSize == old(bucketSize)
                  && split == old(split)
        decreases |p[split]|
      {
        var x := p[split][0];
        ghost var b0, p0 := buckets[..], p[..];
        MoveKeeps(b0, p0, split, nodes, x);
        p[split] := p[split][1..];
        var i := Slot(x.id, bucketSize);
        buckets[i] := [x] + buckets[i];
        assert buckets[..] == b0[i := [x] + b0[i]];
        assert p[..] == p0[split := p0[split][1..]];
      }
      PassKeeps(buckets[..], p[..], split, nodes);
      split := split + 1;
      if split == bucketSize / 2 {
        prev := null;
      }
    }

    /** hash_expansion */
    method Expand(memory: bool)
      requires Valid()
      modifies this, buckets, prev
      ensures Valid() && nodes == old(nodes) && items == old(items)
      ensures buckets == old(buckets) || fresh(buckets)
      ensures prev == null || prev == old(prev) || prev == old(buckets)
      ensures memory && old(Light(bucketSize, items - 1, prev != null, split)) ==> Loaded()
    {
      hide Stage, Holds, Pow2, Light;
      ghost var size, migrating, at := bucketSize, prev != null, split;
      SizeFacts(level);
      Double(memory);
      StageSize(buckets[..], Prev(), split);
      if prev != null {
        SplitOne();
        if memory && Light(size, items - 1, migrating, at) { SplitLight(size, items, migrating, at); }
      } else if memory && Light(size, items - 1, migrating, at) {
        RestLight(size, items, at);
      }
    }

    /** hash_add, for a node that is not in the table yet. */
    method Add(x: Node, memory: bool)
      requires Valid() && x !in nodes
      modifies this, buckets, prev
      ensures Valid() && nodes == old(nodes) + {x} && items == old(items) + 1
      ensures buckets == old(buckets) || fresh(buckets)
      ensures prev == null || prev == old(prev) || prev == old(buckets)
      ensures memory && old(Loaded()) ==> Loaded()
    {
      hide Stage, Holds, Pow2, Light, Slot;
      ghost var b := buckets[..];
      StageSize(b, Prev(), split);
      AddKeeps(b, Prev(), split, nodes, x);
      var i := Slot(x.id, bucketSize);
      buckets[i] := [x] + buckets[i];
      assert buckets[..] == b[i := [x] + b[i]];
      nodes := nodes + {x};
      items := items + 1;
      Expand(memory);
    }

    /** The two searches of hash_get: a node with this id, exactly when there is one. With unique
        ids this is the lookup of the plain map. */
    method Lookup(id: Id) returns (r: Option<Node>)
      requires Valid()
      ensures r.Some? ==> r.value in nodes && r.value.id == id
      ensures r.None? ==> forall x :: x in nodes ==> x.id != id
      ensures UniqueIds(nodes) ==> r == if id in AsMap(nodes) then Some(AsMap(nodes)[id]) else None
    {
      hide Stage, Holds, Pow2, Slot, UniqueIds, AsMap;
      StageSize(buckets[..], Prev(), split);
      var index := Slot(id, bucketSize);
      r := Search(buckets[index], id);
      if r.None? && prev != null {
        var half := bucketSize / 2;
        HalfSlot(id, bucketSize, half);
        if index >= half {
          index := index - half;
        }
        r := Search(prev[index], id);
      }
      Found(buckets[..], Prev(), split, nodes, id, r);
    }

    /** hash_get */
    method Get(id: Id, memory: bool) returns (r: Option<Node>)
      requires Valid()
      modifies this, buckets, prev
      ensures Valid() && nodes == old(nodes) && items == old(items)
      ensures buckets == old(buckets) || fresh(buckets)
      ensures prev == null || prev == old(prev) || prev == old(buckets)
      ensures memory && old(Loaded()) ==> Loaded()
      ensures r.Some? ==> r.value in nodes && r.value.id == id
      ensures r.None? ==> forall x :: x in nodes ==> x.id != id
      ensures UniqueIds(nodes) ==> r == if id in AsMap(nodes) then Some(AsMap(nodes)[id]) else None
    {
      hide Stage, Holds, Pow2, Light, UniqueIds, AsMap;
      LightLess(bucketSize, items, prev != null, split);
      Expand(memory);
      r := Lookup(id);
    }

    /** hash_del: the node is unlinked from the chain it is in. */
    method Remove(x: Node)
      requires Valid() && x in nodes
      modifies this, buckets, prev
      ensures Valid() && nodes == old(nodes) - {x} && items == old(items) - 1
      ensures buckets == old(buckets) && prev == old(prev) && bucketSize == old(bucketSize)
      ensures old(Loaded()) ==> Loaded()
    {
      hide Stage, Holds, Pow2, Slot;
      ghost var b, p := buckets[..], Prev();
      StageSize(b, p, split);
      DelKeeps(b, p, split, nodes, x);
      var i := Slot(x.id, bucketSize);
      if x in buckets[i] {
        buckets[i] := Del(buckets[i], x);
        assert buckets[..] == b[i := Del(b[i], x)];
      } else {
        i := Slot(x.id, prev.Length);
        prev[i] := Del(prev[i], x);
        assert prev[..] == p[i := Del(p[i], x)];
      }
      nodes := nodes - {x};
      items := items - 1;
    }
  }
}
