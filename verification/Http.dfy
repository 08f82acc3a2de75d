/** Parsing of PUT/POST requests and of the Range header (http.c). The request buffer is a sequence
    of bytes; in C it is followed by a NUL, which is what reading at its end gives. */
module Https {
  import opened Lists
  import opened Life
  import opened Responses

  type Text = seq<Byte>

  const CR: Byte := 13
  const LF: Byte := 10
  const SP: Byte := 32
  const COLON: Byte := 58

  function At(buf: Text, p: nat): Byte {
    if p < |buf| then buf[p] else 0
  }

  /** while(*p == ' ') p++ */
  function Skip(buf: Text, p: nat): (q: nat)
    requires p <= |buf|
    ensures p <= q <= |buf|
    decreases |buf| - p
  {
    if p < |buf| && buf[p] == SP then Skip(buf, p + 1) else p
  }

  /** strchr: the first c at or after p, before the text ends. */
  function Find(buf: Text, p: nat, c: Byte): (r: Option<nat>)
    requires p <= |buf|
    ensures r.Some? ==> p <= r.value < |buf| && buf[r.value] == c
    decreases |buf| - p
  {
    if p == |buf| || buf[p] == 0 then None
    else if buf[p] == c then Some(p)
    else Find(buf, p + 1, c)
  }

  /** What stands at a position of the header block: the empty line, a header, or nothing complete.
      A header reaches from `name` to two bytes behind `end`. */
  datatype Line = Empty(at: nat) | Header(name: nat, value: nat, end: nat) | Partial(at: nat)

  function LineAt(buf: Text, p: nat): (l: Line)
    requires p <= |buf|
    ensures l.Header? ==> p <= l.name < l.value <= l.end && l.end + 2 <= |buf|
    ensures l.Empty? ==> p <= l.at && l.at + 2 <= |buf|
    ensures l.Partial? ==> p <= l.at <= |buf|
  {
    var a := Skip(buf, p);
    if At(buf, a) == CR && At(buf, a + 1) == LF then Empty(a)
    else
      match Find(buf, a, COLON)
      case None => Partial(a)
      case Some(q) =>
        var v := Skip(buf, q + 1);
        match Find(buf, v, CR)
        case None => Partial(v)
        case Some(e) => if At(buf, e + 1) == 0 then Partial(v) else Header(a, v, e)
  }

  predicate Headers(buf: Text, hs: seq<Line>) {
    forall h :: h in hs ==> h.Header? && h.name <= h.value <= h.end && h.end + 2 <= |buf|
  }

  /** All headers from p on, and what stands behind them. */
  function Scan(buf: Text, p: nat): (r: (seq<Line>, Line))
    requires p <= |buf|
    ensures !r.1.Header? && Headers(buf, r.0)
    ensures r.1.Empty? ==> r.1.at + 2 <= |buf|
    decreases |buf| - p
  {
    var l := LineAt(buf, p);
    if l.Header? then var r := Scan(buf, l.end + 2); ([l] + r.0, r.1) else ([], l)
  }

  predicate Starts(buf: Text, s: string) {
    forall k :: 0 <= k < |s| ==> At(buf, k) == Code(s[k])
  }

  // ---------- numbers ----------

  predicate Digit(b: Byte) {
    48 <= b <= 57
  }

  /** The end of the run of digits at p. */
  function RunEnd(buf: Text, p: nat): (q: nat)
    requires p <= |buf|
    ensures p <= q <= |buf| && !(q < |buf| && Digit(buf[q])) && forall k :: p <= k < q ==> Digit(buf[k])
    decreases |buf| - p
  {
    if p < |buf| && Digit(buf[p]) then RunEnd(buf, p + 1) else p
  }

  function NumberAt(buf: Text, p: nat): Option<nat>
    requires p <= |buf|
  {
    var q := RunEnd(buf, p);
    if p == q then None else Some(Value(buf[p..q]))
  }

  lemma {:induction false} DecDigits(n: nat)
    ensures forall k :: 0 <= k < |Dec(n)| ==> Digit(Dec(n)[k])
  {
    if n >= 10 { DecDigits(n / 10); }
  }

  lemma {:induction false} RunEndAt(buf: Text, p: nat, q: nat)
    requires p <= q < |buf| && !Digit(buf[q]) && forall k :: p <= k < q ==> Digit(buf[k])
    ensures RunEnd(buf, p) == q
    decreases q - p
  {
    if p < q { RunEndAt(buf, p + 1, q); }
  }

  // ---------- kept headers ----------

  function Lower(b: Byte): Byte {
    if 65 <= b <= 90 then b + 32 else b
  }

  /** strncasecmp with a name of the table. */
  predicate Named(buf: Text, p: nat, name: string) {
    forall k :: 0 <= k < |name| ==> Lower(At(buf, p + k)) == Lower(Code(name[k]))
  }

  /** Headers that describe the transfer, with a handler that returns OHC_OK. */
  const TRANSFER: seq<string> := ["Content-Length", "Host", "OHC-Key", "Connection"]

  /** Headers that describe the transfer are not stored; Cache-Control and Expires are looked at and
      stored, and everything else is stored. */
  predicate Dropped(buf: Text, p: nat) {
    exists i :: 0 <= i < |TRANSFER| && Named(buf, p, TRANSFER[i] + ":")
  }

  /** The stored headers, in order. */
  function Kept(buf: Text, hs: seq<Line>): Text
    requires Headers(buf, hs)
  {
    if hs == [] then []
    else
      var h := hs[|hs| - 1];
      Kept(buf, hs[..|hs| - 1]) + if Dropped(buf, h.name) then [] else buf[h.name..h.end + 2]
  }

  // ---------- segments ----------

  datatype Segment = Segment(base: nat, len: nat)

  predicate Inside(buf: Text, segs: seq<Segment>) {
    forall k :: 0 <= k < |segs| ==> segs[k].base + segs[k].len <= |buf|
  }

  /** The text the segments stand for. */
  function Joined(buf: Text, segs: seq<Segment>): Text
    requires Inside(buf, segs)
  {
    if segs == [] then []
    else
      var s := segs[|segs| - 1];
      Joined(buf, segs[..|segs| - 1]) + buf[s.base..s.base + s.len]
  }

  /** http_add_put_headers: a segment that continues the last one is merged with it. */
  function AddSegment(segs: seq<Segment>, base: nat, len: nat): seq<Segment> {
    if segs == [] then [Segment(base, len)]
    else
      var last := segs[|segs| - 1];
      if last.base + last.len == base then segs[..|segs| - 1] + [Segment(last.base, last.len + len)]
      else segs + [Segment(base, len)]
  }

  lemma JoinedLast(buf: Text, segs: seq<Segment>, s: Segment)
    requires Inside(buf, segs) && s.base + s.len <= |buf|
    ensures Inside(buf, segs + [s]) && Joined(buf, segs + [s]) == Joined(buf, segs) + buf[s.base..s.base + s.len]
  {
    assert (segs + [s])[..|segs|] == segs;
  }

  /** Merging preserves the text. */
  lemma AddSegmentJoins(buf: Text, segs: seq<Segment>, base: nat, len: nat)
    requires Inside(buf, segs) && base + len <= |buf|
    ensures Inside(buf, AddSegment(segs, base, len))
    ensures Joined(buf, AddSegment(segs, base, len)) == Joined(buf, segs) + buf[base..base + len]
  {
    hide Joined, Inside;
    var r := AddSegment(segs, base, len);
    if segs == [] {
      assert r == [] + [Segment(base, len)];
      hide AddSegment;
      JoinedLast(buf, segs, Segment(base, len));
    } else {
      var front, last := segs[..|segs| - 1], segs[|segs| - 1];
      if last.base + last.len == base {
        assert r == front + [Segment(last.base, last.len + len)];
        hide AddSegment;
        FrontLast(segs);
        FrontInside(buf, segs);
        MergeJoins(buf, front, last, len);
      } else {
        assert r == segs + [Segment(base, len)];
        hide AddSegment;
        JoinedLast(buf, segs, Segment(base, len));
      }
    }
  }

  lemma FrontLast(segs: seq<Segment>)
    ensures segs != [] ==> segs[..|segs| - 1] + [segs[|segs| - 1]] == segs
  {
  }

  lemma FrontInside(buf: Text, segs: seq<Segment>)
    requires Inside(buf, segs) && segs != []
    ensures Inside(buf, segs[..|segs| - 1]) && segs[|segs| - 1].base + segs[|segs| - 1].len <= |buf|
  {
  }

  lemma MergeJoins(buf: Text, front: seq<Segment>, last: Segment, len: nat)
    requires Inside(buf, front) && last.base + last.len + len <= |buf|
    ensures var base, merged := last.base + last.len, Segment(last.base, last.len + len);
            && Inside(buf, front + [last]) && Inside(buf, front + [merged])
            && Joined(buf, front + [merged]) == Joined(buf, front + [last]) + buf[base..base + len]
  {
    hide Joined;
    var base := last.base + last.len;
    JoinedLast(buf, front, last);
    JoinedLast(buf, front, Segment(last.base, last.len + len));
    SliceJoin(buf, last.base, base, base + len);
    Assoc(Joined(buf, front), buf[last.base..base], buf[base..base + len]);
  }

  lemma Assoc(a: Text, b: Text, c: Text)
    ensures a + (b + c) == a + b + c
  {
  }

  lemma SliceJoin(buf: Text, a: nat, b: nat, c: nat)
    requires a <= b <= c <= |buf|
    ensures buf[a..c] == buf[a..b] + buf[b..c]
  {
  }

  // ---------- ten slots ----------

  /** put_headers has this many entries, and http_add_put_headers does not count. */
  const SLOTS := 10

  function EndOf(s: Segment): nat {
    s.base + s.len
  }

  /** A run of adjacent pieces begins at piece k. */
  predicate RunAt(ps: seq<Segment>, k: nat) {
    k < |ps| && (k == 0 || EndOf(ps[k - 1]) != ps[k].base)
  }

  ghost function Starters(ps: seq<Segment>): set<nat> {
    set k: nat | k < |ps| && RunAt(ps, k)
  }

  /** The number of maximal runs of adjacent pieces. */
  ghost function Runs(ps: seq<Segment>): nat {
    |Starters(ps)|
  }

  lemma RunsPush(ps: seq<Segment>, s: Segment)
    ensures Runs(ps + [s]) == Runs(ps) + if ps == [] || EndOf(ps[|ps| - 1]) != s.base then 1 else 0
  {
    var n, q := |ps|, ps + [s];
    forall k: nat | k < n ensures RunAt(q, k) <==> RunAt(ps, k) {}
    assert RunAt(q, n) <==> ps == [] || EndOf(ps[n - 1]) != s.base;
    hide RunAt, EndOf;
    if RunAt(q, n) {
      assert Starters(q) == Starters(ps) + {n};
    } else {
      assert Starters(q) == Starters(ps);
    }
  }

  lemma RunsPrefix(ps: seq<Segment>, qs: seq<Segment>)
    ensures Runs(ps) <= Runs(ps + qs)
  {
    var all := ps + qs;
    forall k: nat | k < |ps| && RunAt(ps, k) ensures RunAt(all, k) {}
    CardLe(Starters(ps), Starters(all));
  }

  /** The segments stand for the pieces, one segment to the run. */
  ghost predicate Packed(segs: seq<Segment>, ps: seq<Segment>) {
    && |segs| == Runs(ps) && (ps == [] ==> segs == [])
    && (ps != [] ==> segs != [] && EndOf(segs[|segs| - 1]) == EndOf(ps[|ps| - 1]))
  }

  lemma PackedPush(segs: seq<Segment>, ps: seq<Segment>, base: nat, len: nat)
    requires Packed(segs, ps)
    ensures Packed(AddSegment(segs, base, len), ps + [Segment(base, len)])
  {
    hide Runs;
    RunsPush(ps, Segment(base, len));
  }

  /** What a header contributes. */
  function Piece(h: Line): Segment
    requires h.Header? && h.name <= h.end
  {
    Segment(h.name, h.end + 2 - h.name)
  }

  /** The stored headers, where they stand. */
  function Pieces(buf: Text, hs: seq<Line>): seq<Segment>
    requires Headers(buf, hs)
  {
    if hs == [] then []
    else Pieces(buf, hs[..|hs| - 1]) + if Dropped(buf, hs[|hs| - 1].name) then [] else [Piece(hs[|hs| - 1])]
  }

  lemma PiecesNext(buf: Text, hs: seq<Line>, h: Line)
    requires Headers(buf, hs + [h])
    ensures Headers(buf, hs)
    ensures Pieces(buf, hs + [h]) == if Dropped(buf, h.name) then Pieces(buf, hs) else Pieces(buf, hs) + [Piece(h)]
  {
    hide Dropped;
    assert forall x :: x in hs ==> x in hs + [h];
    assert (hs + [h])[..|hs|] == hs;
    assert Pieces(buf, hs) + [] == Pieces(buf, hs);
  }

  lemma {:induction false} PiecesPrefix(buf: Text, hs: seq<Line>, more: seq<Line>)
    requires Headers(buf, hs + more)
    ensures Headers(buf, hs) && Pieces(buf, hs) <= Pieces(buf, hs + more)
    decreases |more|
  {
    hide Dropped, Pieces;
    assert forall x :: x in hs ==> x in hs + more;
    if more == [] {
      assert hs + more == hs;
    } else {
      var n := |more| - 1;
      assert hs + more == hs + more[..n] + [more[n]];
      assert forall x :: x in hs + more[..n] ==> x in hs + more;
      PiecesNext(buf, hs + more[..n], more[n]);
      PiecesPrefix(buf, hs, more[..n]);
    }
  }

  // ---------- Content-Length ----------

  predicate IsLength(buf: Text, p: nat) {
    Named(buf, p, "Content-Length:")
  }

  /** http_parse_put_content_length: digits from the first to the last byte of the value. */
  function LengthAt(buf: Text, h: Line): Option<nat>
    requires h.Header? && h.value <= |buf|
  {
    if RunEnd(buf, h.value) == h.end then NumberAt(buf, h.value) else None
  }

  /** The handlers accept a header; `other` says so for those that are not a Content-Length. */
  predicate Takes(buf: Text, h: Line, other: Line -> bool)
    requires h.Header? && h.value <= |buf|
  {
    if IsLength(buf, h.name) then LengthAt(buf, h).Some? else other(h)
  }

  /** r->content_length: what the last Content-Length says, -1 without one. */
  function LengthIn(buf: Text, hs: seq<Line>): int
    requires Headers(buf, hs)
  {
    if hs == [] then -1
    else
      var h := hs[|hs| - 1];
      if IsLength(buf, h.name) && LengthAt(buf, h).Some? then LengthAt(buf, h).value else LengthIn(buf, hs[..|hs| - 1])
  }

  lemma LengthNext(buf: Text, hs: seq<Line>, h: Line)
    requires Headers(buf, hs + [h])
    ensures Headers(buf, hs)
    ensures LengthIn(buf, hs + [h]) == if IsLength(buf, h.name) && LengthAt(buf, h).Some? then LengthAt(buf, h).value
            else LengthIn(buf, hs)
  {
    hide IsLength, LengthAt;
    assert forall x :: x in hs ==> x in hs + [h];
    assert (hs + [h])[..|hs|] == hs;
  }

  // ---------- http_request_parse, from the headers on, for a store ----------

  /** OHC_AGAIN, OHC_ERROR or OHC_DONE; or the headers need more slots than there are. */
  datatype Parsed = Again | Bad | Overrun | Done(segs: seq<Segment>, headerLength: nat, contentLength: nat)

  /** strstr(p, "\\r\\n\\r\\n") */
  predicate TwoLineEnds(buf: Text, p: nat)
    decreases |buf| - p
  {
    p + 4 <= |buf| && buf[p] != 0 && (buf[p..p + 4] == [CR, LF, CR, LF] || TwoLineEnds(buf, p + 1))
  }

  /** The headers that are processed: all of them, or those before the first that is not accepted. */
  function Good(buf: Text, hs: seq<Line>, other: Line -> bool): seq<Line>
    requires Headers(buf, hs)
  {
    if hs == [] || !Takes(buf, hs[0], other) then [] else [hs[0]] + Good(buf, hs[1..], other)
  }

  ghost predicate AllTaken(buf: Text, hs: seq<Line>, other: Line -> bool)
    requires Headers(buf, hs)
  {
    forall h :: h in hs ==> Takes(buf, h, other)
  }

  lemma {:induction false} GoodFrom(buf: Text, a: seq<Line>, b: seq<Line>, other: Line -> bool)
    requires Headers(buf, a + b) && (forall x :: x in a ==> x in a + b) && (forall x :: x in b ==> x in a + b)
    requires AllTaken(buf, a, other)
    ensures Good(buf, a + b, other) == a + Good(buf, b, other)
    decreases |a|
  {
    hide Takes;
    if a == [] {
      assert a + b == b;
    } else {
      var t := a[1..];
      assert (a + b)[1..] == t + b;
      assert forall x :: x in t + b ==> x in a + b;
      GoodFrom(buf, t, b, other);
      assert [a[0]] + (t + Good(buf, b, other)) == a + Good(buf, b, other);
    }
  }

  /** What is added last: the empty line and the body received with it. */
  function Tail(buf: Text, at: nat): Segment
    requires at <= |buf|
  {
    Segment(at, |buf| - at)
  }

  /** The length of the body that came along is in order. */
  predicate BodyFits(buf: Text, at: nat, contentLength: int) {
    contentLength != -1 && |buf| - at - 2 <= contentLength
  }

  /** The slots do not suffice: there are more runs of stored headers than slots, counting the empty
      line and the body when it comes to them. */
  ghost predicate Overruns(buf: Text, p: nat, other: Line -> bool)
    requires p <= |buf|
  {
    var (hs, l) := Scan(buf, p);
    var good := Good(buf, hs, other);
    && Headers(buf, good)
    && (|| Runs(Pieces(buf, good)) > SLOTS
        || (good == hs && l.Empty? && BodyFits(buf, l.at, LengthIn(buf, hs))
             && Runs(Pieces(buf, hs) + [Tail(buf, l.at)]) > SLOTS))
  }

  /** The request is refused: by a handler, by a line that cannot be a header, or by its length. */
  ghost predicate Refused(buf: Text, p: nat, other: Line -> bool)
    requires p <= |buf|
  {
    var (hs, l) := Scan(buf, p);
    || !AllTaken(buf, hs, other)
    || (l.Partial? && TwoLineEnds(buf, l.at))
    || (l.Empty? && !BodyFits(buf, l.at, LengthIn(buf, hs)))
  }

  /** The header block is not complete yet. */
  ghost predicate Unfinished(buf: Text, p: nat, other: Line -> bool)
    requires p <= |buf|
  {
    var (hs, l) := Scan(buf, p);
    AllTaken(buf, hs, other) && l.Partial? && !TwoLineEnds(buf, l.at)
  }

  lemma KeptNext(buf: Text, hs: seq<Line>, h: Line)
    requires Headers(buf, hs + [h])
    ensures Headers(buf, hs)
    ensures Kept(buf, hs + [h]) == if Dropped(buf, h.name) then Kept(buf, hs)
            else Kept(buf, hs) + buf[h.name..h.end + 2]
  {
    hide Dropped;
    assert forall x :: x in hs ==> x in hs + [h];
    assert (hs + [h])[..|hs|] == hs;
    assert Kept(buf, hs) + [] == Kept(buf, hs);
  }

  /** The headers seen so far ... */
  ghost predicate Scanned(buf: Text, start: nat, other: Line -> bool, p: nat, seen: seq<Line>) {
    && start <= p <= |buf| && Headers(buf, seen) && AllTaken(buf, seen, other)
    && Scan(buf, start).0 == seen + Scan(buf, p).0 && Scan(buf, start).1 == Scan(buf, p).1
  }

  /** ... and what the loop made of them. */
  ghost predicate Collected(buf: Text, segs: seq<Segment>, length: nat, contentLength: int, seen: seq<Line>) {
    && Inside(buf, segs) && Headers(buf, seen) && Joined(buf, segs) == Kept(buf, seen) && length == |Kept(buf, seen)|
    && Packed(segs, Pieces(buf, seen)) && |segs| <= SLOTS && contentLength == LengthIn(buf, seen)
  }

  lemma ScanStart(buf: Text, start: nat, other: Line -> bool)
    requires start <= |buf|
    ensures Scanned(buf, start, other, start, [])
  {
    hide Scan;
    assert [] + Scan(buf, start).0 == Scan(buf, start).0;
  }

  lemma ScanStep(buf: Text, p: nat)
    requires p <= |buf| && LineAt(buf, p).Header?
    ensures var l := LineAt(buf, p);
            Scan(buf, p).0 == [l] + Scan(buf, l.end + 2).0 && Scan(buf, p).1 == Scan(buf, l.end + 2).1
  {
    hide LineAt;
  }

  lemma ScanNext(buf: Text, start: nat, other: Line -> bool, p: nat, seen: seq<Line>)
    requires Scanned(buf, start, other, p, seen) && LineAt(buf, p).Header? && Takes(buf, LineAt(buf, p), other)
    ensures Scanned(buf, start, other, LineAt(buf, p).end + 2, seen + [LineAt(buf, p)])
  {
    hide LineAt, Scan, Takes;
    var l := LineAt(buf, p);
    ScanStep(buf, p);
    assert seen + ([l] + Scan(buf, l.end + 2).0) == seen + [l] + Scan(buf, l.end + 2).0;
  }

  /** The loop stops at what is not a header, or at a header that is not accepted. */
  lemma ScanStop(buf: Text, start: nat, other: Line -> bool, p: nat, seen: seq<Line>)
    requires Scanned(buf, start, other, p, seen)
    ensures var l := LineAt(buf, p); var (hs, end) := Scan(buf, start);
            if !l.Header? then hs == seen && end == l && Good(buf, hs, other) == hs
            else !Takes(buf, l, other) ==> Good(buf, hs, other) == seen && !AllTaken(buf, hs, other)
  {
    var l := LineAt(buf, p);
    var (hs, rest) := (Scan(buf, start).0, Scan(buf, p).0);
    if l.Header? { ScanStep(buf, p); }
    GoodFrom(buf, seen, rest, other);
    hide LineAt, Takes;
    assert seen + [] == seen;
  }

  lemma CollectNext(buf: Text, segs: seq<Segment>, length: nat, contentLength: int, seen: seq<Line>, l: Line)
    requires Collected(buf, segs, length, contentLength, seen) && Headers(buf, [l])
    requires Runs(Pieces(buf, seen + [l])) <= SLOTS || Dropped(buf, l.name)
    ensures var cl := if IsLength(buf, l.name) && LengthAt(buf, l).Some? then LengthAt(buf, l).value else contentLength;
            if Dropped(buf, l.name) then Collected(buf, segs, length, cl, seen + [l])
            else Collected(buf, AddSegment(segs, l.name, l.end + 2 - l.name), length + (l.end + 2 - l.name), cl,
                   seen + [l])
  {
    hide Dropped, Kept, Joined, Pieces, AddSegment, IsLength, LengthAt, LengthIn, Runs, Inside;
    assert l in [l];
    HeadersPush(buf, seen, l);
    KeptNext(buf, seen, l);
    LengthNext(buf, seen, l);
    PiecesNext(buf, seen, l);
    if !Dropped(buf, l.name) {
      AddSegmentJoins(buf, segs, l.name, l.end + 2 - l.name);
      PackedPush(segs, Pieces(buf, seen), l.name, l.end + 2 - l.name);
    }
  }

  lemma HeadersPush(buf: Text, hs: seq<Line>, h: Line)
    requires Headers(buf, hs) && Headers(buf, [h])
    ensures Headers(buf, hs + [h])
  {
    assert h in [h];
  }

  /** The header loop of http_request_parse and what follows it. It runs out of slots exactly when
      the stored headers stand in too many runs. For a finished request the segments stand for the
      stored headers, the empty line and the body read so far, and the length covers the 200 header
      line, the stored headers and the empty line. */
  method ParsePut(buf: Text, start: nat, other: Line -> bool) returns (r: Parsed)
    requires start <= |buf|
    ensures r.Overrun? <==> Overruns(buf, start, other)
    ensures r.Bad? <==> Refused(buf, start, other) && !Overruns(buf, start, other)
    ensures r.Again? <==> Unfinished(buf, start, other) && !Overruns(buf, start, other)
    ensures r.Done? ==> var (hs, l) := Scan(buf, start);
                        && l.Empty? && r.contentLength == LengthIn(buf, hs) && |buf| - l.at - 2 <= r.contentLength
                        && Inside(buf, r.segs) && Joined(buf, r.segs) == Kept(buf, hs) + buf[l.at..]
                           && |r.segs| <= SLOTS
                        && r.headerLength == |Header200(r.contentLength)| + |Kept(buf, hs)| + 2
    ensures r.Done? ==> Shaped(r.contentLength + r.headerLength, r.headerLength)
  {
    hide Dropped, Header200, TwoLineEnds, LineAt, Scan, Scanned, Collected, Kept, Joined, AddSegment, Pieces, Runs,
      LengthIn, LengthAt, IsLength, Takes, Overruns, Refused, Unfinished, Inside, BodyFits;
    var p: nat, segs: seq<Segment>, length: nat, contentLength: int := start, [], 0, -1;
    ghost var seen: seq<Line> := [];
    ScanStart(buf, start, other);
    CollectStart(buf);
    while true
      invariant start <= p <= |buf| && Scanned(buf, start, other, p, seen)
                && Collected(buf, segs, length, contentLength, seen)
      decreases |buf| - p
    {
      var l := LineAt(buf, p);
      if l.Partial? {
        StopPartial(buf, start, other, p, segs, length, contentLength, seen);
        return if TwoLineEnds(buf, l.at) then Bad else Again;
      }
      if l.Empty? {
        break;
      }
      if !Takes(buf, l, other) {
        StopRefused(buf, start, other, p, segs, length, contentLength, seen);
        return Bad;
      }
      Sizes(buf, segs, length, contentLength, seen, l);
      ScanNext(buf, start, other, p, seen);
      if !Dropped(buf, l.name) && |AddSegment(segs, l.name, l.end + 2 - l.name)| > SLOTS {
        StopOverrun(buf, start, other, l.end + 2, seen + [l]);
        return Overrun;
      }
      CollectNext(buf, segs, length, contentLength, seen, l);
      if !Dropped(buf, l.name) {
        segs := AddSegment(segs, l.name, l.end + 2 - l.name);
        length := length + (l.end + 2 - l.name);
      }
      if IsLength(buf, l.name) {
        TakesLength(buf, l, other);
        contentLength := LengthAt(buf, l).value;
      }
      seen := seen + [l];
      p := l.end + 2;
    }
    var at := LineAt(buf, p).at;
    StopEmpty(buf, start, other, p, segs, length, contentLength, seen, at);
    StopText(buf, segs, length, contentLength, seen, at);
    if contentLength == -1 || |buf| - at - 2 > contentLength {
      return Bad;
    }
    segs := AddSegment(segs, at, |buf| - at);
    if |segs| > SLOTS {
      return Overrun;
    }
    var line := Header200Length(contentLength);
    return Done(segs, length + line + 2, contentLength);
  }

  lemma CollectStart(buf: Text)
    ensures Collected(buf, [], 0, -1, [])
  {
    assert Starters([]) == {};
  }

  /** The slots one more header needs. */
  lemma Sizes(buf: Text, segs: seq<Segment>, length: nat, contentLength: int, seen: seq<Line>, l: Line)
    requires Collected(buf, segs, length, contentLength, seen) && Headers(buf, [l])
    ensures Headers(buf, seen + [l])
    ensures !Dropped(buf, l.name) ==> |AddSegment(segs, l.name, l.end + 2 - l.name)| == Runs(Pieces(buf, seen + [l]))
  {
    hide Dropped, Kept, Joined, Pieces, AddSegment, LengthIn, Runs, Inside;
    assert l in [l];
    HeadersPush(buf, seen, l);
    PiecesNext(buf, seen, l);
    PackedPush(segs, Pieces(buf, seen), l.name, l.end + 2 - l.name);
  }

  lemma FewRuns(buf: Text, segs: seq<Segment>, length: nat, contentLength: int, seen: seq<Line>)
    requires Collected(buf, segs, length, contentLength, seen)
    ensures Headers(buf, seen) && Runs(Pieces(buf, seen)) <= SLOTS && contentLength == LengthIn(buf, seen)
  {
    hide Kept, Joined, Pieces, LengthIn, Runs, Inside;
  }

  lemma StopPartial(buf: Text, start: nat, other: Line -> bool, p: nat, segs: seq<Segment>, length: nat,
      contentLength: int, seen: seq<Line>)
    requires Scanned(buf, start, other, p, seen) && Collected(buf, segs, length, contentLength, seen)
             && LineAt(buf, p).Partial?
    ensures !Overruns(buf, start, other)
    ensures Refused(buf, start, other) <==> TwoLineEnds(buf, LineAt(buf, p).at)
    ensures Unfinished(buf, start, other) <==> !TwoLineEnds(buf, LineAt(buf, p).at)
  {
    hide LineAt, Scan, Collected, Pieces, Runs, LengthIn, Takes, TwoLineEnds, Good;
    FewRuns(buf, segs, length, contentLength, seen);
    ScanStop(buf, start, other, p, seen);
  }

  lemma StopRefused(buf: Text, start: nat, other: Line -> bool, p: nat, segs: seq<Segment>, length: nat,
      contentLength: int, seen: seq<Line>)
    requires Scanned(buf, start, other, p, seen) && Collected(buf, segs, length, contentLength, seen)
    requires LineAt(buf, p).Header? && !Takes(buf, LineAt(buf, p), other)
    ensures !Overruns(buf, start, other) && Refused(buf, start, other) && !Unfinished(buf, start, other)
  {
    hide LineAt, Scan, Collected, Pieces, Runs, LengthIn, Takes, TwoLineEnds, Good;
    FewRuns(buf, segs, length, contentLength, seen);
    ScanStop(buf, start, other, p, seen);
  }

  lemma StopOverrun(buf: Text, start: nat, other: Line -> bool, p: nat, seen: seq<Line>)
    requires Scanned(buf, start, other, p, seen) && Runs(Pieces(buf, seen)) > SLOTS
    ensures Overruns(buf, start, other)
  {
    hide LineAt, Scan, Pieces, Runs, LengthIn, Takes;
    var hs, rest := Scan(buf, start).0, Scan(buf, p).0;
    GoodFrom(buf, seen, rest, other);
    GoodHeaders(buf, hs, other);
    var more := Good(buf, rest, other);
    PiecesPrefix(buf, seen, more);
    var ps, all := Pieces(buf, seen), Pieces(buf, seen + more);
    RunsPrefix(ps, all[|ps|..]);
    assert ps + all[|ps|..] == all;
  }

  lemma {:induction false} GoodHeaders(buf: Text, hs: seq<Line>, other: Line -> bool)
    requires Headers(buf, hs)
    ensures Headers(buf, Good(buf, hs, other))
  {
    hide Takes;
    if hs != [] { GoodHeaders(buf, hs[1..], other); }
  }

  lemma StopEmpty(buf: Text, start: nat, other: Line -> bool, p: nat, segs: seq<Segment>, length: nat,
      contentLength: int, seen: seq<Line>, at: nat)
    requires Scanned(buf, start, other, p, seen) && Collected(buf, segs, length, contentLength, seen)
             && LineAt(buf, p) == Empty(at)
    ensures at <= |buf| && Scan(buf, start).1 == Empty(at) && Scan(buf, start).0 == seen && Headers(buf, seen)
    ensures contentLength == LengthIn(buf, seen) && contentLength >= -1 && !Unfinished(buf, start, other)
    ensures Refused(buf, start, other) <==> contentLength == -1 || |buf| - at - 2 > contentLength
    ensures Overruns(buf, start, other) <==>
              contentLength != -1 && |buf| - at - 2 <= contentLength && |AddSegment(segs, at, |buf| - at)| > SLOTS
  {
    hide LineAt, Scan, Pieces, Runs, LengthIn, Takes, TwoLineEnds, Good, Kept, Joined, AddSegment, Inside;
    ScanStop(buf, start, other, p, seen);
    LengthRange(buf, seen);
    PackedPush(segs, Pieces(buf, seen), at, |buf| - at);
  }

  lemma StopText(buf: Text, segs: seq<Segment>, length: nat, contentLength: int, seen: seq<Line>, at: nat)
    requires Collected(buf, segs, length, contentLength, seen) && at <= |buf|
    ensures var segs' := AddSegment(segs, at, |buf| - at);
            && Headers(buf, seen) && Inside(buf, segs') && Joined(buf, segs') == Kept(buf, seen) + buf[at..]
               && length == |Kept(buf, seen)|
  {
    hide Pieces, Runs, LengthIn, Kept, Joined, AddSegment, Inside;
    AddSegmentJoins(buf, segs, at, |buf| - at);
  }

  lemma TakesLength(buf: Text, h: Line, other: Line -> bool)
    requires h.Header? && h.value <= |buf| && Takes(buf, h, other) && IsLength(buf, h.name)
    ensures LengthAt(buf, h).Some?
  {
    hide LengthAt, IsLength;
  }

  lemma {:induction false} LengthRange(buf: Text, hs: seq<Line>)
    requires Headers(buf, hs)
    ensures LengthIn(buf, hs) >= -1
  {
    hide IsLength, LengthAt;
    if hs != [] { LengthRange(buf, hs[..|hs| - 1]); }
  }

  // ---------- the pre-read buffer ----------

  const REQ_BUF_SIZE := 4096

  lemma PrereadStart(head: Text, buf: Text, segs: seq<Segment>)
    ensures Inside(buf, segs[..0]) && head == head + Joined(buf, segs[..0])
    ensures segs[..|segs|] == segs
  {
    assert Joined(buf, segs[..0]) == [] && head + [] == head;
  }

  /** One round of the copying loop. */
  lemma PrereadStep(head: Text, buf: Text, segs: seq<Segment>, i: nat)
    requires Inside(buf, segs) && i < |segs|
    ensures var s := segs[i];
            && Inside(buf, segs[..i]) && Inside(buf, segs[..i + 1]) && s.base + s.len <= |buf|
            && head + Joined(buf, segs[..i]) + buf[s.base..s.base + s.len] == head + Joined(buf, segs[..i + 1])
            && |Joined(buf, segs[..i + 1])| == |Joined(buf, segs[..i])| + s.len <= |Joined(buf, segs)|
  {
    hide Joined;
    var s := segs[i];
    assert segs[..i + 1] == segs[..i] + [s] && segs[..i + 1] + segs[i + 1..] == segs;
    JoinedLast(buf, segs[..i], s);
    JoinedLonger(buf, segs[..i + 1], segs[i + 1..]);
    Assoc(head, Joined(buf, segs[..i]), buf[s.base..s.base + s.len]);
  }

  /** The copying loop of request_put_read_request_body_preread, into a buffer of REQ_BUF_SIZE bytes.
      None stands for text that does not fit; the loop does not test for it. */
  method Preread(buf: Text, segs: seq<Segment>, contentLength: nat) returns (r: Option<Text>)
    requires Inside(buf, segs)
    ensures r.None? <==> |Header200(contentLength)| + |Joined(buf, segs)| > REQ_BUF_SIZE
    ensures r.Some? ==> r.value == Header200(contentLength) + Joined(buf, segs)
  {
    hide *;
    var text := Header200(contentLength);
    PrereadStart(text, buf, segs);
    if |text| > REQ_BUF_SIZE {
      return None;
    }
    for i := 0 to |segs|
      invariant Inside(buf, segs[..i]) && text == Header200(contentLength) + Joined(buf, segs[..i])
                && |text| <= REQ_BUF_SIZE
    {
      var s := segs[i];
      PrereadStep(Header200(contentLength), buf, segs, i);
      if |text| + s.len > REQ_BUF_SIZE {
        return None;
      }
      text := text + buf[s.base..s.base + s.len];
    }
    return Some(text);
  }

  lemma {:induction false} JoinedLonger(buf: Text, a: seq<Segment>, b: seq<Segment>)
    requires Inside(buf, a) && Inside(buf, a + b)
    ensures |Joined(buf, a)| <= |Joined(buf, a + b)|
    decreases |b|
  {
    hide Joined;
    if b == [] {
      assert a + b == a;
    } else {
      var n := |b| - 1;
      assert a + b == a + b[..n] + [b[n]];
      assert forall k :: 0 <= k < |a + b[..n]| ==> (a + b[..n])[k] == (a + b)[k];
      assert (a + b)[|a + b| - 1] == b[n];
      JoinedLonger(buf, a, b[..n]);
      JoinedLast(buf, a + b[..n], b[n]);
    }
  }

  /** What request_put_read_request_body_preread writes, followed by the bytes received later, is
      the image of the response: 200 line, stored headers, empty line, body. The recorded header
      length is the length of everything before the body. */
  lemma StoredImage(kept: Text, preread: Text, later: Text)
    ensures var body := preread + later;
            && Header200(|body|) + (kept + ([CR, LF] + preread)) + later == Image(kept, body)
            && |Header200(|body|)| + |kept| + 2 == |Image(kept, body)| - |body|
  {
    hide Header200;
    var h := Header200(|preread + later|);
    calc {
      h + (kept + ([CR, LF] + preread)) + later;
      { assert h + (kept + ([CR, LF] + preread)) == h + kept + [CR, LF] + preread; }
      h + kept + [CR, LF] + preread + later;
      h + kept + [CR, LF] + (preread + later);
    }
  }
}
