/** The free-block index of utils/ipbucket.h: one queue of free blocks per size class.
    A free block is named by a handle (its address in the C program). */
module Buckets {
  import opened Lists
  import opened SizeClass

  type Handle = nat

  predicate Exact(size: nat) {
    BlockSize(size) == size
  }

  /** One queue: the handles of class `i`, each once, exact class sizes before the others. */
  ghost predicate QueueOk(q: seq<Handle>, i: nat, sizes: map<Handle, nat>) {
    && (forall k :: 0 <= k < |q| ==> q[k] in sizes && IndexDown(sizes[q[k]]) == i)
    && (forall j, k :: 0 <= j < k < |q| ==> q[j] != q[k])
    && (forall j, k :: 0 <= j < k < |q| && Exact(sizes[q[k]]) ==> Exact(sizes[q[j]]))
  }

  /** `sizes` records, for every linked handle, the size it was filed under. */
  ghost predicate Filed(queues: seq<seq<Handle>>, sizes: map<Handle, nat>) {
    && |queues| == BUCKETS
    && (forall i :: 0 <= i < BUCKETS ==> QueueOk(queues[i], i, sizes))
    && (forall h :: h in sizes ==> sizes[h] >= SECTOR && h in queues[IndexDown(sizes[h])])
  }

  /** Dropping the first entry, or any one entry, leaves a good queue. */
  lemma QueueOkCut(q: seq<Handle>, k: nat, i: nat, sizes: map<Handle, nat>)
    requires QueueOk(q, i, sizes) && k < |q|
    ensures QueueOk(q[..k] + q[k + 1..], i, sizes - {q[k]})
  {
    hide IndexDown, BlockSize;
    var r := q[..k] + q[k + 1..];
    assert forall j :: 0 <= j < |r| ==> r[j] == q[if j < k then j else j + 1];
  }

  lemma DelOk(q: seq<Handle>, h: Handle, i: nat, sizes: map<Handle, nat>)
    requires QueueOk(q, i, sizes)
    ensures QueueOk(Del(q, h), i, sizes - {h})
  {
    hide IndexDown, BlockSize, Del;
    if h in q {
      var k := DelIs(q, h);
      QueueOkCut(q, k, i, sizes);
    } else {
      DelAbsent(q, h);
    }
  }

  /** A queue of another class is not affected by filing a new handle. */
  lemma QueueOkOther(q: seq<Handle>, i: nat, sizes: map<Handle, nat>, h: Handle, size: nat)
    requires QueueOk(q, i, sizes) && h !in sizes
    ensures QueueOk(q, i, sizes[h := size])
  {
    hide IndexDown, BlockSize;
  }

  /** Filing at the front when exact and at the back otherwise keeps the exact ones first. */
  lemma QueueOkAdd(q: seq<Handle>, i: nat, sizes: map<Handle, nat>, h: Handle, size: nat)
    requires QueueOk(q, i, sizes) && h !in sizes && IndexDown(size) == i
    ensures Exact(size) ==> QueueOk([h] + q, i, sizes[h := size])
    ensures !Exact(size) ==> QueueOk(q + [h], i, sizes[h := size])
  {
    hide IndexDown, BlockSize;
    var a, b := [h] + q, q + [h];
    assert forall k :: 0 < k < |a| ==> a[k] == q[k - 1];
    assert forall k :: 0 <= k < |q| ==> b[k] == q[k];
  }

  class IpBucket {
    var queues: seq<seq<Handle>>
    ghost var sizes: map<Handle, nat>

    ghost predicate Valid()
      reads this
    {
      Filed(queues, sizes)
    }

    constructor ()
      ensures Valid() && sizes == map[]
    {
      queues := seq(BUCKETS, _ => []);
      sizes := map[];
    }

    /** ipbucket_add */
    method Add(h: Handle, size: nat)
      requires Valid() && h !in sizes && size >= SECTOR
      modifies this
      ensures Valid() && sizes == old(sizes)[h := size]
    {
      hide IndexDown, BlockSize;
      var i := IndexDown(size);
      QueueOkAdd(queues[i], i, sizes, h, size);
      forall k | 0 <= k < BUCKETS && k != i ensures QueueOk(queues[k], k, sizes[h := size]) {
        QueueOkOther(queues[k], k, sizes, h, size);
      }
      if size == BlockSize(size) {
        queues := queues[i := [h] + queues[i]];
      } else {
        queues := queues[i := queues[i] + [h]];
      }
      sizes := sizes[h := size];
    }

    /** ipbucket_del: also called for a block that was already unlinked. */
    method Del(h: Handle)
      requires Valid()
      modifies this
      ensures Valid() && sizes == old(sizes) - {h}
    {
      hide IndexDown, BlockSize;
      var qs := queues;
      forall i | 0 <= i < BUCKETS ensures QueueOk(Lists.Del(qs[i], h), i, sizes - {h}) {
        DelOk(qs[i], h, i, sizes);
      }
      forall i | 0 <= i < BUCKETS ensures forall x :: x in qs[i] && x != h ==> x in Lists.Del(qs[i], h) {
        DelOthers(qs[i], h);
      }
      queues := seq(BUCKETS, i requires 0 <= i < |qs| => Lists.Del(qs[i], h));
      sizes := sizes - {h};
    }

    /** ipbucket_update */
    method Update(h: Handle, size: nat)
      requires Valid() && size >= SECTOR
      modifies this
      ensures Valid() && sizes == old(sizes)[h := size]
    {
      Del(h);
      Add(h, size);
    }

    /** ipbucket_get: unlink and return a block able to hold `size` bytes.
        Nothing is returned only when no block is large enough; an exact fit is preferred,
        and otherwise no block of a lower sufficient class exists. */
    method Get(size: nat) returns (r: Option<Handle>)
      requires Valid() && size >= 1
      modifies this
      ensures Valid()
      ensures r.None? ==> sizes == old(sizes)
      ensures r.None? <==> size > FOUR_GB || forall h :: h in old(sizes) ==> old(sizes)[h] < BlockSize(size)
      ensures r.Some? ==> r.value in old(sizes) && sizes == old(sizes) - {r.value}
      ensures r.Some? ==> old(sizes)[r.value] >= BlockSize(size)
      ensures r.Some? ==> forall h :: h in old(sizes) && old(sizes)[h] >= BlockSize(size) ==>
                            IndexDown(old(sizes)[r.value]) <= IndexDown(old(sizes)[h])
      ensures r.Some? && (exists h :: h in old(sizes) && old(sizes)[h] == BlockSize(size)) ==>
                old(sizes)[r.value] == BlockSize(size)
    {
      hide IndexDown, BlockSize, IndexUp;
      var index := IndexUp(size);
      if index == -1 {
        IndexUpRange(size);
        return None;
      }
      IndexUpRange(size);
      forall h | h in sizes ensures index <= IndexDown(sizes[h]) <==> BlockSize(size) <= sizes[h] {
        Adjunction(size, sizes[h]);
      }
      var start := index;
      while index < BUCKETS
        invariant start <= index <= BUCKETS
        invariant forall k :: start <= k < index ==> queues[k] == []
      {
        if queues[index] != [] {
          var h := queues[index][0];
          PickExact(queues, sizes, size, index);
          forall g | g in sizes && sizes[g] >= BlockSize(size) ensures index <= IndexDown(sizes[g]) {
            assert g in queues[IndexDown(sizes[g])];
          }
          Del(h);
          return Some(h);
        }
        index := index + 1;
      }
      forall g | g in sizes ensures sizes[g] < BlockSize(size) {
        assert g in queues[IndexDown(sizes[g])];
      }
      return None;
    }

    /** ipbucket_biggest: the last block of the highest non-empty class, still linked. */
    method Biggest() returns (r: Option<Handle>)
      requires Valid()
      ensures r.None? <==> sizes == map[]
      ensures r.Some? ==> r.value in sizes
      ensures r.Some? ==> forall h :: h in sizes ==> IndexDown(sizes[h]) <= IndexDown(sizes[r.value])
    {
      hide IndexDown, BlockSize;
      var index := BUCKETS - 1;
      while index >= 0
        invariant -1 <= index < BUCKETS
        invariant forall k :: index < k < BUCKETS ==> queues[k] == []
      {
        if queues[index] != [] {
          r := Some(queues[index][|queues[index]| - 1]);
          forall h | h in sizes ensures IndexDown(sizes[h]) <= index {
            assert h in queues[IndexDown(sizes[h])];
          }
          return;
        }
        index := index - 1;
      }
      assert forall h :: h in sizes ==> h in queues[IndexDown(sizes[h])];
      return None;
    }
  }

  /** The first block found is an exact fit whenever some block is. */
  lemma PickExact(queues: seq<seq<Handle>>, sizes: map<Handle, nat>, size: nat, index: nat)
    requires Filed(queues, sizes) && 1 <= size <= FOUR_GB
    requires IndexUp(size) <= index < BUCKETS && queues[index] != []
    requires forall k :: IndexUp(size) <= k < index ==> k < 0 || queues[k] == []
    requires queues[index][0] in sizes
    ensures (exists h :: h in sizes && sizes[h] == BlockSize(size)) ==> sizes[queues[index][0]] == BlockSize(size)
  {
    hide IndexDown, BlockSize, IndexUp;
    if h :| h in sizes && sizes[h] == BlockSize(size) {
      BlockSizeFacts(size);
      assert h in queues[IndexDown(sizes[h])];
      var q := queues[index];
      assert index == IndexUp(size);
      assert Exact(sizes[h]);
      var k :| 0 <= k < |q| && q[k] == h;
      assert Exact(sizes[q[0]]);
      ExactFit(size, sizes[q[0]]);
    }
  }

  lemma IndexUpRange(size: nat)
    requires size >= 1
    ensures size > FOUR_GB <==> IndexUp(size) == -1
    ensures size <= FOUR_GB ==> 0 <= IndexUp(size) < BUCKETS
  {
    if size <= FOUR_GB { BlockSizeIsLeastClass(size); }
  }

  /** The tail of the highest class reaches a target exactly when some free block does:
      the test of device_free_block_extend gives no false alarm. */
  lemma BiggestDecides(sizes: map<Handle, nat>, top: Handle, target: nat)
    requires top in sizes && 1 <= target <= FOUR_GB
    requires forall h :: h in sizes ==> sizes[h] >= SECTOR && IndexDown(sizes[h]) <= IndexDown(sizes[top])
    ensures sizes[top] >= BlockSize(target) <==> exists h :: h in sizes && sizes[h] >= BlockSize(target)
  {
    hide IndexDown, BlockSize, IndexUp;
    forall h | h in sizes
      ensures IndexUp(target) <= IndexDown(sizes[h]) <==> BlockSize(target) <= sizes[h]
    {
      Adjunction(target, sizes[h]);
    }
  }
}
