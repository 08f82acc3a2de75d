/** How the address space of one device is divided. The C program keeps an order list of free
    blocks and items; `Seg` lists describe the same space with the retired blocks still in place,
    so that a device is always tiled from 0 to its capacity without gaps. */
module Layout {
  import opened SizeClass
  import opened Buckets

  type ItemId = nat

  /** One stretch of a device. A hole is a block that left the order list for good. */
  datatype Seg =
    | Free(h: Handle, offset: nat, size: nat)
    | Item(id: ItemId, offset: nat, size: nat)
    | Hole(offset: nat, size: nat)
  {
    function End(): nat { offset + size }
  }

  /** Entries of the order list (ohc_device_t.order_head). */
  datatype Node = FreeNode(h: Handle) | ItemNode(id: ItemId)

  /** The segments follow each other from a to b in whole sectors. */
  ghost predicate Tiles(L: seq<Seg>, a: nat, b: nat) {
    if L == [] then a == b
    else L[0].offset == a && L[0].size > 0 && L[0].size % SECTOR == 0 && Tiles(L[1..], L[0].End(), b)
  }

  ghost function NodeOf(s: Seg): seq<Node> {
    match s
    case Free(h, _, _) => [FreeNode(h)]
    case Item(id, _, _) => [ItemNode(id)]
    case Hole(_, _) => []
  }

  /** The order list of a device divided as L. */
  ghost function Nodes(L: seq<Seg>): seq<Node> {
    if L == [] then [] else NodeOf(L[0]) + Nodes(L[1..])
  }

  /** Bytes and numbers of segments of each kind. */
  datatype Tally = Tally(free: nat, item: nat, hole: nat, frees: nat, items: nat, holes: nat) {
    function Plus(t: Tally): Tally {
      Tally(free + t.free, item + t.item, hole + t.hole, frees + t.frees, items + t.items, holes + t.holes)
    }
  }

  ghost function TallyOne(s: Seg): Tally {
    match s
    case Free(_, _, n) => Tally(n, 0, 0, 1, 0, 0)
    case Item(_, _, n) => Tally(0, n, 0, 0, 1, 0)
    case Hole(_, n) => Tally(0, 0, n, 0, 0, 1)
  }

  ghost function TallyOf(L: seq<Seg>): Tally {
    if L == [] then Tally(0, 0, 0, 0, 0, 0) else TallyOne(L[0]).Plus(TallyOf(L[1..]))
  }

  ghost predicate EndsFree(L: seq<Seg>) { L != [] && L[|L| - 1].Free? }

  ghost predicate StartsFree(L: seq<Seg>) { L != [] && L[0].Free? }

  /** Maximal coalescing: no two free blocks touch. */
  ghost predicate Coalesced(L: seq<Seg>) {
    forall k :: 0 < k < |L| ==> !(L[k - 1].Free? && L[k].Free?)
  }

  lemma {:induction false} TilesJoin(A: seq<Seg>, B: seq<Seg>, a: nat, m: nat, b: nat)
    requires Tiles(A, a, m) && Tiles(B, m, b)
    ensures Tiles(A + B, a, b)
  {
    if A == [] {
      assert A + B == B;
    } else {
      TilesJoin(A[1..], B, A[0].End(), m, b);
      assert (A + B)[1..] == A[1..] + B;
    }
  }

  lemma {:induction false} TilesSplit(A: seq<Seg>, B: seq<Seg>, a: nat, b: nat) returns (m: nat)
    requires Tiles(A + B, a, b)
    ensures Tiles(A, a, m) && Tiles(B, m, b) && a <= m <= b
  {
    if A == [] {
      assert A + B == B;
      m := a;
      TilesSpan(B, a, b);
    } else {
      assert (A + B)[1..] == A[1..] + B;
      m := TilesSplit(A[1..], B, A[0].End(), b);
    }
  }

  /** A tiling accounts for every byte, and all its segments lie inside. */
  lemma {:induction false} TilesSpan(L: seq<Seg>, a: nat, b: nat)
    requires Tiles(L, a, b)
    ensures a <= b
    ensures var t := TallyOf(L); t.free + t.item + t.hole == b - a
    ensures forall s :: s in L ==> a <= s.offset && s.End() <= b && s.size > 0
  {
    if L != [] {
      TilesSpan(L[1..], L[0].End(), b);
      assert forall s :: s in L ==> s == L[0] || s in L[1..];
    }
  }

  /** Everything lies on sector boundaries. */
  lemma {:induction false} TilesAligned(L: seq<Seg>, a: nat, b: nat)
    requires Tiles(L, a, b) && a % SECTOR == 0
    ensures b % SECTOR == 0
    ensures forall s :: s in L ==> s.offset % SECTOR == 0 && s.size % SECTOR == 0
  {
    if L != [] {
      SectorSums(a, L[0].size);
      TilesAligned(L[1..], L[0].End(), b);
      assert forall s :: s in L ==> s == L[0] || s in L[1..];
    }
  }

  lemma SectorSums(a: nat, b: nat)
    requires a % SECTOR == 0 && b % SECTOR == 0
    ensures (a + b) % SECTOR == 0
    ensures a >= b ==> (a - b) % SECTOR == 0
  {
  }

  /** Segments at different positions do not overlap. */
  lemma TilesOrdered(L: seq<Seg>, a: nat, b: nat, i: nat, j: nat)
    requires Tiles(L, a, b) && i < j < |L|
    ensures L[i].End() <= L[j].offset
  {
    assert L == L[..j] + L[j..];
    var m := TilesSplit(L[..j], L[j..], a, b);
    TilesSpan(L[..j], a, m);
    assert L[..j][i] == L[i];
    assert L[i] in L[..j];
  }

  lemma TilesUnique(L: seq<Seg>, a: nat, b: nat, s: Seg, t: Seg)
    requires Tiles(L, a, b) && s in L && t in L
    requires s.offset < t.End() && t.offset < s.End()
    ensures s == t
  {
    var i :| 0 <= i < |L| && L[i] == s;
    var j :| 0 <= j < |L| && L[j] == t;
    if i < j { TilesOrdered(L, a, b, i, j); }
    if j < i { TilesOrdered(L, a, b, j, i); }
  }

  /** Every byte of the device belongs to one segment. */
  lemma {:induction false} TilesCover(L: seq<Seg>, a: nat, b: nat, x: nat)
    requires Tiles(L, a, b) && a <= x < b
    ensures exists s :: s in L && s.offset <= x < s.End()
  {
    if x < L[0].End() {
      assert L[0] in L;
    } else {
      TilesCover(L[1..], L[0].End(), b, x);
      var s :| s in L[1..] && s.offset <= x < s.End();
      assert s in L;
    }
  }

  lemma ConcatTail(A: seq<Seg>, B: seq<Seg>)
    requires A != []
    ensures (A + B)[0] == A[0] && (A + B)[1..] == A[1..] + B
  {
  }

  lemma {:induction false} NodesConcat(A: seq<Seg>, B: seq<Seg>)
    ensures Nodes(A + B) == Nodes(A) + Nodes(B)
  {
    hide NodeOf;
    if A == [] {
      assert A + B == B;
    } else {
      NodesConcat(A[1..], B);
      ConcatTail(A, B);
      SeqAssoc(NodeOf(A[0]), Nodes(A[1..]), Nodes(B));
    }
  }

  lemma SeqAssoc<T>(a: seq<T>, b: seq<T>, c: seq<T>)
    ensures a + (b + c) == a + b + c
  {
  }

  lemma PlusAssoc(a: Tally, b: Tally, c: Tally)
    ensures a.Plus(b.Plus(c)) == a.Plus(b).Plus(c)
  {
  }

  lemma PlusZero(a: Tally)
    ensures Tally(0, 0, 0, 0, 0, 0).Plus(a) == a
  {
  }

  lemma {:induction false} TallyConcat(A: seq<Seg>, B: seq<Seg>)
    ensures TallyOf(A + B) == TallyOf(A).Plus(TallyOf(B))
  {
    hide TallyOne, Tally.Plus;
    if A == [] {
      assert A + B == B;
      PlusZero(TallyOf(B));
    } else {
      TallyConcat(A[1..], B);
      ConcatTail(A, B);
      PlusAssoc(TallyOne(A[0]), TallyOf(A[1..]), TallyOf(B));
    }
  }

  lemma CoalescedConcat(A: seq<Seg>, B: seq<Seg>)
    ensures Coalesced(A + B) <==> Coalesced(A) && Coalesced(B) && !(EndsFree(A) && StartsFree(B))
  {
    var L := A + B;
    if Coalesced(L) {
      forall k | 0 < k < |A| ensures !(A[k - 1].Free? && A[k].Free?) {
        assert L[k - 1] == A[k - 1] && L[k] == A[k];
      }
      forall k | 0 < k < |B| ensures !(B[k - 1].Free? && B[k].Free?) {
        assert L[|A| + k - 1] == B[k - 1] && L[|A| + k] == B[k];
        assert 0 < |A| + k < |L|;
      }
      if A != [] && B != [] { assert L[|A| - 1] == A[|A| - 1] && L[|A|] == B[0]; }
    }
  }

  /** Every entry of the order list stems from a segment. */
  lemma {:induction false} NodesFind(L: seq<Seg>, n: Node) returns (s: Seg)
    requires n in Nodes(L)
    ensures s in L && NodeOf(s) == [n]
  {
    if NodeOf(L[0]) == [n] {
      s := L[0];
    } else {
      s := NodesFind(L[1..], n);
    }
  }
}
