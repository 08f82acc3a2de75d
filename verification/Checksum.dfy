/** The header of a dumped device and its checksum (format.c). The header is the superblock and the
    table of server ports; both are summed as 64-bit words. */
module Checksums {
  const MAGIC: bv64 := 0x2143484556494c4f
  const VERSION: bv64 := 1
  const FEED: bv64 := 0x57eb0b4eecfeb465
  const SERVERS_LIMIT := 4096

  /** ohc_superblock_t; `pad` is the padding behind the 32-bit version, written as it is. */
  datatype Superblock = Superblock(magic: bv64, version: bv64, pad: bv64, checksum: bv64, itemNr: nat)

  /** A 64-bit field that holds a count. */
  function Word(n: nat): bv64 {
    (n % 0x1_0000_0000_0000_0000) as bv64
  }

  function VersionWord(version: bv64, pad: bv64): bv64 {
    version | (pad << 32)
  }

  function SuperWords(sb: Superblock): seq<bv64> {
    [sb.magic, VersionWord(sb.version, sb.pad), sb.checksum, Word(sb.itemNr)]
  }

  /** Four 16-bit ports to the word. */
  function PortWords(ports: seq<bv16>): seq<bv64>
    decreases |ports|
  {
    if |ports| < 4 then []
    else [(ports[0] as bv64) | ((ports[1] as bv64) << 16) | ((ports[2] as bv64) << 32) | ((ports[3] as bv64) << 48)]
         + PortWords(ports[4..])
  }

  function X(a: bv64, b: bv64): bv64 {
    a ^ b
  }

  lemma XAssoc(a: bv64, b: bv64, c: bv64)
    ensures X(X(a, b), c) == X(a, X(b, c))
  {
  }

  lemma XComm(a: bv64, b: bv64)
    ensures X(a, b) == X(b, a)
  {
  }

  lemma XUnit(a: bv64)
    ensures X(a, 0) == a && X(0, a) == a && X(a, a) == 0
  {
  }

  lemma XCancel(a: bv64, b: bv64, c: bv64)
    ensures X(a, c) == X(b, c) <==> a == b
  {
    hide X;
    XAssoc(a, c, c);
    XAssoc(b, c, c);
    XUnit(c);
    XUnit(a);
    XUnit(b);
  }

  function Xor(words: seq<bv64>): bv64 {
    if words == [] then 0 else X(Xor(words[..|words| - 1]), words[|words| - 1])
  }

  /** format_checksum */
  method Checksum(words: seq<bv64>) returns (c: bv64)
    ensures c == Xor(words)
  {
    hide X;
    c := 0;
    for i := 0 to |words|
      invariant c == Xor(words[..i])
    {
      assert words[..i + 1][..i] == words[..i];
      c := X(c, words[i]);
    }
    assert words[..|words|] == words;
  }

  lemma {:induction false} XorConcat(a: seq<bv64>, b: seq<bv64>)
    ensures Xor(a + b) == X(Xor(a), Xor(b))
  {
    hide X;
    if b == [] {
      assert a + b == a;
      XUnit(Xor(a));
    } else {
      var n := |b| - 1;
      XorConcat(a, b[..n]);
      assert (a + b)[..|a + b| - 1] == a + b[..n];
      XAssoc(Xor(a), Xor(b[..n]), b[n]);
    }
  }

  lemma XorOne(x: bv64)
    ensures Xor([x]) == x
  {
    hide X;
    assert [x][..0] == [];
    XUnit(x);
  }

  /** The test of format_load_device: the sum over the whole header. */
  predicate Sealed(sb: Superblock, ports: seq<bv16>) {
    Xor(SuperWords(sb) + PortWords(ports)) == FEED
  }

  lemma SumMid(a: seq<bv64>, b: seq<bv64>, c: bv64)
    ensures Xor(a + ([c] + b)) == X(Xor(a + ([0] + b)), c)
  {
    hide X;
    var p, q := Xor(a), Xor(b);
    XorConcat(a, [0] + b);
    XorConcat([0], b);
    XorConcat(a, [c] + b);
    XorConcat([c], b);
    XorOne(0);
    XorOne(c);
    hide Xor;
    XUnit(q);
    XComm(c, q);
    XAssoc(p, q, c);
  }

  /** The checksum field takes part in the sum like any other word. */
  lemma SumWith(sb: Superblock, c: bv64)
    requires sb.checksum == 0
    ensures Xor(SuperWords(sb.(checksum := c))) == X(Xor(SuperWords(sb)), c)
  {
    hide X, Word, Xor, VersionWord;
    var w := SuperWords(sb);
    var w' := SuperWords(sb.(checksum := c));
    var a, b := [w[0], w[1]], [w[3]];
    assert w == a + ([0] + b);
    assert w' == a + ([c] + b);
    SumMid(a, b, c);
  }

  /** What format_store_device puts into the checksum field passes the test. */
  lemma SealHolds(sb: Superblock, ports: seq<bv16>)
    requires sb.checksum == 0
    ensures Sealed(sb.(checksum := X(X(Xor(SuperWords(sb)), Xor(PortWords(ports))), FEED)), ports)
  {
    hide X, Word, PortWords, SuperWords;
    var s, p := Xor(SuperWords(sb)), Xor(PortWords(ports));
    var c := X(X(s, p), FEED);
    SumWith(sb, c);
    XorConcat(SuperWords(sb.(checksum := c)), PortWords(ports));
    hide Xor;
    Cancel(s, p);
  }

  lemma Cancel(s: bv64, p: bv64)
    ensures X(X(s, X(X(s, p), FEED)), p) == FEED
  {
  }

  /** Any damage confined to one word is noticed. */
  lemma {:induction false} OneWord(words: seq<bv64>, k: nat, w: bv64)
    requires k < |words|
    ensures Xor(words[k := w]) == Xor(words) <==> w == words[k]
  {
    hide X;
    var n := |words| - 1;
    if k < n {
      OneWord(words[..n], k, w);
      assert words[k := w][..n] == words[..n][k := w];
      XCancel(Xor(words[..n][k := w]), Xor(words[..n]), words[n]);
    } else {
      var r := Xor(words[..n]);
      assert words[k := w][..n] == words[..n];
      XCancel(w, words[n], r);
      XComm(r, w);
      XComm(r, words[n]);
    }
  }
}
