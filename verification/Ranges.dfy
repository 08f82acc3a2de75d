/** The Range header and the answer to a range request (http.c, request.c). */
module Ranges {
  import opened Lists
  import opened Life
  import opened Responses
  import opened Https

  datatype RangeSpec = Invalid | Several | One(start: Option<nat>, end: Option<nat>)

  /** One of the digit loops of http_parse_get_range; no digit means RANGE_NO_SET. */
  method Number(buf: Text, p: nat) returns (n: Option<nat>, q: nat)
    requires p <= |buf|
    ensures q == RunEnd(buf, p) && n == NumberAt(buf, p)
  {
    q := p;
    var v := 0;
    while q < |buf| && Digit(buf[q])
      invariant p <= q <= |buf| && RunEnd(buf, q) == RunEnd(buf, p) && v == Value(buf[p..q])
    {
      assert buf[p..q + 1][..q - p] == buf[p..q];
      v := v * 10 + (buf[q] - 48) as int;
      q := q + 1;
    }
    n := if p == q then None else Some(v);
  }

  const BYTES: string := "bytes="
  const DASH: Byte := 45
  const COMMA: Byte := 44

  /** http_parse_get_range; `buf` begins at the value of the header. */
  method ParseRange(buf: Text) returns (r: RangeSpec)
    ensures r == RangeOf(buf)
    ensures r.One? ==> WantOk(Part(r.start, r.end, false))
  {
    if !Starts(buf, BYTES) {
      return Invalid;
    }
    assert At(buf, 5) == Code(BYTES[5]);
    var start, p := Number(buf, 6);
    if At(buf, p) != DASH {
      return Invalid;
    }
    var end, q := Number(buf, p + 1);
    if start.None? && end.None? {
      return Invalid;
    }
    if start.Some? && end.Some? && start.value > end.value {
      return Invalid;
    }
    while q < |buf| && buf[q] == SP
      invariant q <= |buf| && Skip(buf, q) == Skip(buf, RunEnd(buf, p + 1))
    {
      q := q + 1;
    }
    if At(buf, q) == COMMA {
      return Several;
    }
    if At(buf, q) != CR {
      return Invalid;
    }
    return One(start, end);
  }

  function RangeOf(buf: Text): RangeSpec {
    if !Starts(buf, BYTES) || |buf| < 6 then Invalid
    else
      var p := RunEnd(buf, 6);
      if At(buf, p) != DASH then Invalid
      else
        var start, end := NumberAt(buf, 6), NumberAt(buf, p + 1);
        var q := Skip(buf, RunEnd(buf, p + 1));
        if start.None? && end.None? then Invalid
        else if start.Some? && end.Some? && start.value > end.value then Invalid
        else if At(buf, q) == COMMA then Several
        else if At(buf, q) != CR then Invalid
        else One(start, end)
  }

  function Shown(n: Option<nat>): Text {
    if n.None? then [] else Dec(n.value)
  }

  lemma {:induction false} SkipAt(buf: Text, p: nat, q: nat)
    requires p <= q < |buf| && buf[q] != SP && forall k :: p <= k < q ==> buf[k] == SP
    ensures Skip(buf, p) == q
    decreases q - p
  {
    if p < q { SkipAt(buf, p + 1, q); }
  }

  lemma ShownDigits(n: Option<nat>)
    ensures forall k :: 0 <= k < |Shown(n)| ==> Digit(Shown(n)[k])
    ensures n == if Shown(n) == [] then None else Some(Value(Shown(n)))
  {
    if n.Some? {
      DecDigits(n.value);
      DecValue(n.value);
    }
  }

  /** A printed number is read back, where it stands. */
  lemma NumberRead(buf: Text, p: nat, n: Option<nat>)
    requires var q := p + |Shown(n)|; q < |buf| && buf[p..q] == Shown(n) && !Digit(buf[q])
    ensures RunEnd(buf, p) == p + |Shown(n)| && NumberAt(buf, p) == n
  {
    hide Shown, Value, Digit, RunEnd;
    ShownDigits(n);
    var d := Shown(n);
    assert forall k :: p <= k < p + |d| ==> buf[k] == d[k - p] by {
      assert forall k :: 0 <= k < |d| ==> d[k] == buf[p..p + |d|][k];
    }
    RunEndAt(buf, p, p + |d|);
  }

  function Spaces(n: nat): Text {
    seq(n, _ => SP)
  }

  function RenderRange(start: Option<nat>, end: Option<nat>): Text {
    Ascii(BYTES) + Shown(start) + [DASH] + Shown(end)
  }

  /** Every byte range that a client can write is understood as what it says. */
  lemma RangeRoundTrip(start: Option<nat>, end: Option<nat>, spaces: nat, rest: Text)
    requires WantOk(Part(start, end, false))
    ensures RangeOf(RenderRange(start, end) + Spaces(spaces) + [CR] + rest) == One(start, end)
  {
    hide Shown, RunEnd, Skip, NumberAt, RangeOf, Digit, RenderRange, Spaces, Starts;
    var buf := RenderRange(start, end) + Spaces(spaces) + [CR] + rest;
    var p, e := 6 + |Shown(start)|, 7 + |Shown(start)| + |Shown(end)|;
    RangeBytes(start, end, spaces, rest);
    NumberRead(buf, 6, start);
    NumberRead(buf, p + 1, end);
    SkipAt(buf, e, e + spaces);
    RangeReads(buf, p, e, e + spaces, start, end);
  }

  lemma RangeBytes(start: Option<nat>, end: Option<nat>, spaces: nat, rest: Text)
    ensures var buf := RenderRange(start, end) + Spaces(spaces) + [CR] + rest;
            var p, e := 6 + |Shown(start)|, 7 + |Shown(start)| + |Shown(end)|;
            && e + spaces < |buf| && Starts(buf, BYTES)
            && buf[6..p] == Shown(start) && buf[p] == DASH && !Digit(buf[p]) && buf[p + 1..e] == Shown(end)
               && !Digit(buf[e])
            && (forall k :: e <= k < e + spaces ==> buf[k] == SP) && buf[e + spaces] == CR
  {
    var head := BytesText();
    var sp := SpacesText(spaces);
    hide Ascii, Spaces, Shown, Code;
    Pieces(head, Shown(start), Shown(end), sp, rest);
  }

  lemma BytesText() returns (head: Text)
    ensures head == Ascii(BYTES) && |head| == 6 && forall k :: 0 <= k < 6 ==> head[k] == Code(BYTES[k])
  {
    head := Ascii(BYTES);
  }

  lemma SpacesText(n: nat) returns (sp: Text)
    ensures sp == Spaces(n) && |sp| == n && forall k :: 0 <= k < n ==> sp[k] == SP
  {
    sp := Spaces(n);
  }

  lemma Pieces(head: Text, s: Text, e: Text, sp: Text, rest: Text)
    ensures var buf := head + s + [DASH] + e + sp + [CR] + rest;
            var n := |head|;
            var p := n + |s|;
            var q := p + 1 + |e|;
            && buf[..n] == head && buf[n..p] == s && buf[p] == DASH && buf[p + 1..q] == e
            && (forall k :: q <= k < q + |sp| ==> buf[k] == sp[k - q]) && buf[q + |sp|] == CR
            && forall k :: 0 <= k < n ==> buf[k] == head[k]
  {
  }

  lemma RangeReads(buf: Text, p: nat, e: nat, q: nat, start: Option<nat>, end: Option<nat>)
    requires 6 <= p < e <= q < |buf| && Starts(buf, BYTES) && WantOk(Part(start, end, false))
    requires RunEnd(buf, 6) == p && NumberAt(buf, 6) == start && buf[p] == DASH
    requires RunEnd(buf, p + 1) == e && NumberAt(buf, p + 1) == end && Skip(buf, e) == q && buf[q] == CR
    ensures RangeOf(buf) == One(start, end)
  {
    hide RunEnd, NumberAt, Skip, Starts;
  }

  /** http_make_206_response_header */
  function Header206(a: nat, b: nat, body: nat): Text
    requires a <= b
  {
    Ascii("HTTP/1.1 206 Partial Content\r\nContent-Length: ") + Dec(b - a + 1) + [CR, LF]
    + Ascii("Content-Range: bytes ") + Dec(a) + [DASH] + Dec(b) + Ascii("/") + Dec(body) + [CR, LF]
  }

  /** What a range request gets in all: the 206 lines, the stored headers, the empty line, and as
      many bytes as the Content-Length says. */
  lemma PartAnswer(start: Option<nat>, end: Option<nat>, kept: Text, body: Text)
    requires WantOk(Part(start, end, false)) && Resolve(start, end, |body|).Some?
    ensures var (a, b) := Resolve(start, end, |body|).value;
            var image := Image(kept, body);
            && a <= b < |body| && Value(Dec(b - a + 1)) == |body[a..b + 1]|
            && (forall x: nat :: Selects(start, end, |body|, x) <==> a <= x <= b)
            && Header206(a, b, |body|) + Expected(Plan(Part(start, end, false), |image|, |image| - |body|), image)
               == Header206(a, b, |body|) + kept + [CR, LF] + body[a..b + 1]
  {
    ResolveIsRfc(start, end, |body|);
    PlanServes(Part(start, end, false), kept, body);
    hide Resolve, Selects, Image, Plan, Expected, Header206, Dec, Value;
    var (a, b) := Resolve(start, end, |body|).value;
    DecValue(b - a + 1);
    var h, part := Header206(a, b, |body|), body[a..b + 1];
    assert h + (kept + [CR, LF] + part) == h + kept + [CR, LF] + part;
  }
}
