/** Size-class arithmetic of utils/ipbucket.h and utils/string.h.
    Block sizes double, with three interpolated sizes between two powers of two:
    512, 1024, 1536, 2048, 2560, 3072, 3584, 4096, 5120, ... up to 4 GB.
    The C code works on bits; here `x & ~(q - 1)` is `x - x % q` and `x >> k` is
    `x / Pow2(k)`, which agree because every mask is one less than a power of two. */
module SizeClass {
  const SECTOR: nat := 512
  const BUCKETS: nat := 89
  const FOUR_GB: nat := 0x1_0000_0000

  function Pow2(n: nat): (r: nat)
    ensures r > 0
  {
    if n == 0 then 1 else 2 * Pow2(n - 1)
  }

  /** The `bsrq` instruction: position of the highest set bit. */
  function BitHighest(n: nat): (h: nat)
    requires n > 0
    ensures Pow2(h) <= n < Pow2(h + 1)
    ensures n >= 2 ==> h >= 1
    ensures n >= 4 ==> h >= 2
  {
    if n == 1 then 0 else 1 + BitHighest(n / 2)
  }

  function RoundUp(size: nat, q: nat): nat
    requires q > 0
  {
    (size + (q - 1)) - (size + (q - 1)) % q
  }

  /** Size of the block that holds an item of `size` bytes. */
  function BlockSize(size: nat): nat {
    if size <= 2048 then RoundUp(size, 512)
    else RoundUp(size, Pow2(BitHighest(size) - 2))
  }

  /** Bucket to start searching from for a request of `size` bytes (-1: too big). */
  function IndexUp(size: nat): int {
    if size > FOUR_GB then -1
    else if size <= 512 then 0
    else if size <= 1024 then 1
    else if size <= 1536 then 2
    else if size <= 2048 then 3
    else
      var first := BitHighest(size);
      var q := Pow2(first - 2);
      (first - 9) * 4 - 5 + (size / q) % 4 + (if size % q != 0 then 1 else 0)
  }

  /** Bucket that a free block of `size` bytes is kept in. */
  function IndexDown(size: nat): (i: nat)
    ensures i < BUCKETS
    ensures i == BUCKETS - 1 <==> size > FOUR_GB
  {
    if size > FOUR_GB then 88
    else if size < 1024 then 0
    else if size < 1536 then 1
    else if size < 2048 then 2
    else if size == 2048 then 3
    else
      DownBound(size, BitHighest(size));
      var first := BitHighest(size);
      (first - 9) * 4 - 5 + (size / Pow2(first - 2)) % 4
  }

  /** Independent definition, the series of the header comment: seven multiples of a sector,
      then every size is twice the one four places before it. */
  function ClassSize(i: nat): (r: nat)
    ensures r > 0
  {
    if i < 7 then 512 * (i + 1) else 2 * ClassSize(i - 4)
  }

  lemma {:induction false} Pow2Monotone(a: nat, b: nat)
    requires a <= b
    ensures Pow2(a) <= Pow2(b)
    ensures a < b ==> 2 * Pow2(a) <= Pow2(b)
    decreases b
  {
    if a < b { Pow2Monotone(a, b - 1); }
  }

  lemma Pow2Values()
    ensures Pow2(9) == 512 && Pow2(11) == 2048 && Pow2(32) == FOUR_GB && Pow2(30) == 0x4000_0000
  {
    assert Pow2(4) == 16;
    assert Pow2(8) == 256;
    assert Pow2(12) == 4096;
    assert Pow2(16) == 0x1_0000;
    assert Pow2(20) == 0x10_0000;
    assert Pow2(24) == 0x100_0000;
    assert Pow2(28) == 0x1000_0000;
  }

  /** The series is strictly increasing. */
  lemma {:induction false} ClassSizeStep(i: nat)
    ensures ClassSize(i) < ClassSize(i + 1)
  {
    if i >= 7 { ClassSizeStep(i - 4); }
  }

  lemma {:induction false} ClassSizeMonotone(i: nat, j: nat)
    requires i <= j
    ensures ClassSize(i) <= ClassSize(j)
    ensures i < j ==> ClassSize(i) < ClassSize(j)
    decreases j
  {
    if i < j {
      ClassSizeMonotone(i, j - 1);
      ClassSizeStep(j - 1);
    }
  }

  lemma HighestAbove2048(size: nat)
    requires size > 2048
    ensures BitHighest(size) >= 11
    ensures size < FOUR_GB ==> BitHighest(size) < 32
    ensures size == FOUR_GB ==> BitHighest(size) == 32
  {
    var h := BitHighest(size);
    Pow2Values();
    if h < 11 { Pow2Monotone(h + 1, 11); }
    if h >= 32 { Pow2Monotone(32, h); }
    if h < 32 { Pow2Monotone(h + 1, 32); }
    if h > 32 { Pow2Monotone(32, h); }
  }

  /** Position of a size above 2048 in its octave: the quarter it lies in. */
  lemma Quarter(size: nat) returns (h: nat, q: nat, t: nat)
    requires size > 2048
    ensures h == BitHighest(size) >= 11 && q == Pow2(h - 2) && t == size / q
    ensures 4 <= t <= 7 && t * q <= size < (t + 1) * q
  {
    HighestAbove2048(size);
    h := BitHighest(size);
    q := Pow2(h - 2);
    assert Pow2(h - 1) == 2 * q;
    assert Pow2(h) == 4 * q && Pow2(h + 1) == 8 * q;
    t := QuarterOf(size, q);
  }

  lemma QuarterOf(size: nat, q: nat) returns (t: nat)
    requires 4 * q <= size < 8 * q
    ensures q > 0 && t == size / q
    ensures 4 <= t <= 7 && t * q <= size < (t + 1) * q
  {
    t := if size < 5 * q then 4 else if size < 6 * q then 5 else if size < 7 * q then 6 else 7;
    DivIs(size, q, t);
  }

  lemma RoundUpSteps(size: nat, q: nat, t: nat)
    requires q > 0 && t * q <= size < (t + 1) * q
    ensures size % q == size - t * q
    ensures RoundUp(size, q) == if size == t * q then t * q else (t + 1) * q
  {
    DivIs(size, q, t);
    if size == t * q { DivIs(size + (q - 1), q, t); } else { DivIs(size + (q - 1), q, t + 1); }
  }

  lemma {:induction false} MulApart(q: nat, x: nat, y: nat)
    requires x < y
    ensures (x + 1) * q <= y * q
    decreases y
  {
    if x + 1 < y { MulApart(q, x, y - 1); }
    assert y * q == (y - 1) * q + q;
  }

  lemma DivIs(x: nat, q: nat, t: nat)
    requires q > 0 && t * q <= x < (t + 1) * q
    ensures x / q == t && x % q == x - t * q
  {
    var d := x / q;
    assert x == d * q + x % q;
    if d < t { MulApart(q, d, t); }
    if t < d { MulApart(q, t, d); }
  }

  /** The t-th quarter of octave h is a class size. */
  lemma {:induction false} ClassSizeAt(h: nat, t: nat)
    requires h >= 11 && 4 <= t <= 8
    ensures ClassSize((h - 9) * 4 - 9 + t) == t * Pow2(h - 2)
  {
    if h == 11 {
      Pow2Values();
      assert t == 8 ==> ClassSize(7) == 4096;
    } else {
      ClassSizeAt(h - 1, t);
      MulTwice(t, Pow2(h - 3));
    }
  }

  lemma MulTwice(a: nat, b: nat)
    ensures a * (2 * b) == 2 * (a * b)
  {
  }

  /** The block for an item is the least class size that holds it, and IndexUp names that class. */
  lemma BlockSizeIsLeastClass(s: nat)
    requires 1 <= s <= FOUR_GB
    ensures 0 <= IndexUp(s) <= 87
    ensures BlockSize(s) == ClassSize(IndexUp(s))
    ensures s <= BlockSize(s)
    ensures IndexUp(s) > 0 ==> ClassSize(IndexUp(s) - 1) < s
  {
    if s <= 2048 {
      RoundUpSmall(s, (s - 1) / 512);
    } else {
      LeastClassLarge(s);
    }
  }

  lemma IndexesAt(s: nat, h: nat, q: nat, t: nat)
    requires 2048 < s <= FOUR_GB && h == BitHighest(s) >= 11 && q == Pow2(h - 2) && t == s / q && 4 <= t <= 7
    ensures IndexDown(s) == (h - 9) * 4 - 9 + t
    ensures IndexUp(s) == IndexDown(s) + (if s % q != 0 then 1 else 0)
  {
    assert t % 4 == t - 4;
  }

  lemma DownBound(size: nat, h: nat)
    requires 2048 < size <= FOUR_GB && h == BitHighest(size) >= 2
    ensures 0 <= (h - 9) * 4 - 5 + (size / Pow2(h - 2)) % 4 < 88
  {
    HighestAbove2048(size);
    hide BitHighest, Pow2;
    if size == FOUR_GB {
      FourGbQuarter();
    } else {
      var x := size / Pow2(h - 2);
      assert 0 <= x % 4 < 4;
    }
  }

  lemma FourGbQuarter()
    ensures BitHighest(FOUR_GB) == 32 && Pow2(30) * 4 == FOUR_GB && FOUR_GB / Pow2(30) == 4
  {
    HighestAbove2048(FOUR_GB);
    Pow2Values();
  }

  lemma LeastClassLarge(s: nat)
    requires 2048 < s <= FOUR_GB
    ensures 0 < IndexUp(s) <= 87
    ensures BlockSize(s) == ClassSize(IndexUp(s))
    ensures s <= BlockSize(s)
    ensures ClassSize(IndexUp(s) - 1) < s
  {
    var h, q, t := Quarter(s);
    IndexesAt(s, h, q, t);
    assert BlockSize(s) == RoundUp(s, q);
    hide *;
    RoundUpSteps(s, q, t);
    ClassSizeAt(h, t);
    ClassSizeAt(h, t + 1);
    var i := IndexDown(s);
    ClassSizeStep(i - 1);
    Class87();
    assert i <= 87;
    if s == t * q {
      assert IndexUp(s) == i;
    } else {
      assert IndexUp(s) == i + 1 && i != 87;
    }
  }

  lemma RoundUpSmall(s: nat, i: nat)
    requires 512 * i < s <= 512 * (i + 1)
    ensures RoundUp(s, 512) == 512 * (i + 1)
  {
    DivIs(s + 511, 512, i + 1);
  }

  /** A free block lies in the highest class it can serve. */
  lemma IndexDownIsGreatestClass(b: nat)
    requires SECTOR <= b <= FOUR_GB
    ensures 0 <= IndexDown(b) <= 87
    ensures ClassSize(IndexDown(b)) <= b < ClassSize(IndexDown(b) + 1)
  {
    if b > 2048 {
      var h, q, t := Quarter(b);
      HighestAbove2048(b);
      IndexesAt(b, h, q, t);
      hide *;
      ClassSizeAt(h, t);
      ClassSizeAt(h, t + 1);
      FourGbQuarter();
    }
  }

  /** Both bucket functions form a Galois connection over the whole range the allocator uses:
      searching upwards from IndexUp(s) reaches exactly the blocks that can hold BlockSize(s). */
  lemma Adjunction(s: nat, b: nat)
    requires 1 <= s <= FOUR_GB && b >= SECTOR
    ensures IndexUp(s) <= IndexDown(b) <==> BlockSize(s) <= b
  {
    BlockSizeIsLeastClass(s);
    if b > FOUR_GB {
      ClassSizeMonotone(IndexUp(s), 87);
      Class87();
    } else {
      IndexDownIsGreatestClass(b);
      var i, j := IndexUp(s), IndexDown(b);
      if i <= j { ClassSizeMonotone(i, j); } else { ClassSizeMonotone(j + 1, i); }
    }
  }

  lemma Class87()
    ensures ClassSize(87) == FOUR_GB
  {
    Pow2Values();
    ClassSizeAt(32, 4);
  }

  lemma {:induction false} ClassSizeAligned(i: nat)
    ensures ClassSize(i) % SECTOR == 0 && ClassSize(i) >= SECTOR
  {
    if i >= 7 { ClassSizeAligned(i - 4); }
  }

  /** What the allocator relies on: blocks are whole sectors, hold the item, and
      asking for a block size again changes nothing. */
  lemma BlockSizeFacts(s: nat)
    requires 1 <= s <= FOUR_GB
    ensures s <= BlockSize(s) <= FOUR_GB
    ensures BlockSize(s) >= SECTOR && BlockSize(s) % SECTOR == 0
    ensures BlockSize(BlockSize(s)) == BlockSize(s)
    ensures IndexDown(BlockSize(s)) == IndexUp(s) >= 0
  {
    hide BlockSize, IndexUp, IndexDown;
    BlockSizeIsLeastClass(s);
    var i, b := IndexUp(s), BlockSize(s);
    ClassSizeAligned(i);
    ClassSizeMonotone(i, 87);
    Class87();
    BlockSizeIsLeastClass(b);
    ClassSizeStep(i);
    SameClass(i, IndexUp(b), b);
    IndexDownIsGreatestClass(b);
    SameClass(IndexDown(b), i, b);
  }

  lemma SameClass(i: nat, j: nat, b: nat)
    requires ClassSize(i) <= b < ClassSize(i + 1)
    requires b <= ClassSize(j) && (j > 0 ==> ClassSize(j - 1) < b)
    requires b == ClassSize(i) || b == ClassSize(j)
    ensures i == j
  {
    if j < i { ClassSizeMonotone(j, i); }
    if i < j { ClassSizeMonotone(i + 1, j); if b == ClassSize(i) { ClassSizeMonotone(i, j - 1); } }
  }

  /** Within the bucket a search starts at, the blocks of exact class size are the exact fits. */
  lemma ExactFit(s: nat, b: nat)
    requires 1 <= s <= FOUR_GB && b >= SECTOR && IndexDown(b) == IndexUp(s)
    ensures BlockSize(b) == b <==> b == BlockSize(s)
  {
    hide BlockSize, IndexUp, IndexDown;
    BlockSizeFacts(s);
    BlockSizeIsLeastClass(s);
    IndexDownIsGreatestClass(b);
    BlockSizeIsLeastClass(b);
    if BlockSize(b) == b { SameClass(IndexDown(b), IndexUp(b), b); }
  }

  /** Above 2048 bytes a block wastes less than a quarter of the item's length. */
  lemma Waste(s: nat)
    requires s > 2048
    ensures 4 * (BlockSize(s) - s) < s
  {
    var h, q, t := Quarter(s);
    RoundUpSteps(s, q, t);
  }
}
