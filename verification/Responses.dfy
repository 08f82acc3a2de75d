/** Stored responses (http.c, request.c): the header line in front of every stored item, and what
    part of an item a GET, HEAD or range request sends. */
module Responses {
  import opened Lists
  import opened Life
  import opened LifeInv

  /** The byte of a 7-bit character. */
  function Code(c: char): Byte {
    if c < 128 as char then c as int as Byte else 0
  }

  /** Text as bytes. */
  function Ascii(s: string): (r: seq<Byte>)
    ensures |r| == |s|
  {
    seq(|s|, k requires 0 <= k < |s| => Code(s[k]))
  }

  /** Decimal digits, as printf writes them. */
  function Dec(n: nat): (r: seq<Byte>)
    ensures |r| >= 1
  {
    if n < 10 then [(48 + n) as Byte] else Dec(n / 10) + [(48 + n % 10) as Byte]
  }

  /** Value of a string of digits. */
  function Value(s: seq<Byte>): nat {
    if s == [] then 0 else Value(s[..|s| - 1]) * 10 + (if s[|s| - 1] >= 48 then (s[|s| - 1] - 48) as int else 0)
  }

  /** The printed digits denote the number. */
  lemma {:induction false} DecValue(n: nat)
    ensures Value(Dec(n)) == n
  {
    if n >= 10 {
      DecValue(n / 10);
      var s := Dec(n);
      assert s[..|s| - 1] == Dec(n / 10);
    } else {
      assert Dec(n)[..0] == [];
    }
  }

  /** numlen: the number of decimal digits. */
  method NumLen(n: nat) returns (len: nat)
    ensures len == |Dec(n)|
  {
    if n == 0 {
      return 1;
    }
    len := 0;
    var m := n;
    while m != 0
      invariant len + (if m == 0 then 0 else |Dec(m)|) == |Dec(n)|
    {
      len := len + 1;
      m := m / 10;
    }
  }

  const OK_LINE: string := "HTTP/1.1 200 OK\r\nContent-Length: "

  /** The text http_make_200_response_header prints. */
  function Header200(n: nat): seq<Byte> {
    Ascii(OK_LINE) + Dec(n) + [13, 10]
  }

  /** http_make_200_response_header without a buffer: the length only. */
  method Header200Length(n: nat) returns (len: nat)
    ensures len == |Header200(n)|
  {
    var digits := NumLen(n);
    len := |OK_LINE| + 2 + digits;
  }

  // ---------- ranges ----------

  /** request_get_write_response_206_header_mem: a range with missing ends (RANGE_NO_SET) against
      a body; None is the 416 answer. */
  function Resolve(start: Option<nat>, end: Option<nat>, body: nat): Option<(nat, nat)>
    requires start.Some? || end.Some?
  {
    var s := if start.None? then (if end.value > body then 0 else body - end.value) else start.value;
    if s >= body then None
    else Some((s, if start.None? || end.None? || end.value >= body then body - 1 else end.value))
  }

  /** Section 2.1 of RFC 7233: the positions a byte range selects. `first-last` is cut off at the
      end of the body, `first-` runs to the end, and `-n` is the last n bytes. */
  ghost predicate Selects(start: Option<nat>, end: Option<nat>, body: nat, x: nat) {
    x < body && match (start, end)
                case (Some(a), Some(b)) => a <= x <= b
                case (Some(a), None) => a <= x
                case (None, Some(n)) => body - n <= x
                case (None, None) => false
  }

  /** The resolved range is what the RFC selects; 416 is answered exactly when it selects nothing. */
  lemma ResolveIsRfc(start: Option<nat>, end: Option<nat>, body: nat)
    requires start.Some? || end.Some?
    requires start.Some? && end.Some? ==> start.value <= end.value
    ensures match Resolve(start, end, body)
            case None => forall x :: !Selects(start, end, body, x)
            case Some((a, b)) => a <= b < body && forall x: nat :: Selects(start, end, body, x) <==> a <= x <= b
  {
    var r := Resolve(start, end, body);
    if r.Some? { assert Selects(start, end, body, r.value.0); }
  }

  /** What a request asks for once its headers are parsed. */
  datatype Want = Whole | HeadersOnly | Part(start: Option<nat>, end: Option<nat>, head: bool)

  ghost predicate WantOk(w: Want) {
    w.Part? ==> (w.start.Some? || w.end.Some?) && (w.start.Some? && w.end.Some? ==> w.start.value <= w.end.value)
  }

  /** An item has room for its own header line. */
  predicate Shaped(length: nat, headersLen: nat) {
    headersLen <= length && |Header200(length - headersLen)| + 2 <= headersLen
  }

  /** The stretches of an item that request_get_write_response and the 206 functions send. */
  function Plan(w: Want, length: nat, headersLen: nat): (plan: seq<Range>)
    requires Shaped(length, headersLen) && WantOk(w)
    ensures forall k :: 0 <= k < |plan| ==> plan[k].start + plan[k].len <= length
  {
    match w
    case Whole => [Range(0, length)]
    case HeadersOnly => [Range(0, headersLen)]
    case Part(start, end, head) =>
      var body := length - headersLen;
      var off := |Header200(body)|;
      ResolveIsRfc(start, end, body);
      match Resolve(start, end, body)
      case None => []
      case Some((a, b)) => [Range(off, headersLen - off)] + (if head then [] else [Range(headersLen + a, b - a + 1)])
  }

  /** The image of a stored response: header line, kept headers, empty line, body. */
  function Image(kept: seq<Byte>, body: seq<Byte>): (r: seq<Byte>)
    ensures |r| >= |body| && Shaped(|r|, |r| - |body|)
  {
    Header200(|body|) + kept + [13, 10] + body
  }

  /** What each kind of request gets of a stored response: everything, the headers, or the kept
      headers with exactly the selected part of the body. */
  function Answer(w: Want, kept: seq<Byte>, body: seq<Byte>): seq<Byte>
    requires WantOk(w)
  {
    match w
    case Whole => Image(kept, body)
    case HeadersOnly => Header200(|body|) + kept + [13, 10]
    case Part(start, end, head) =>
      ResolveIsRfc(start, end, |body|);
      match Resolve(start, end, |body|)
      case None => []
      case Some((a, b)) => kept + [13, 10] + if head then [] else body[a..b + 1]
  }

  /** The plan of a request sends exactly that. */
  lemma PlanServes(w: Want, kept: seq<Byte>, body: seq<Byte>)
    requires WantOk(w)
    ensures var image := Image(kept, body);
            var h := |image| - |body|;
            && Within(Plan(w, |image|, h), |image|)
            && Expected(Plan(w, |image|, h), image) == Answer(w, kept, body)
  {
    hide Header200, Expected, Resolve, Plan;
    match w
    case Whole => ServesFront(w, kept, body);
    case HeadersOnly => ServesFront(w, kept, body);
    case Part(start, end, head) => ServesPart(start, end, head, kept, body);
  }

  lemma ServesFront(w: Want, kept: seq<Byte>, body: seq<Byte>)
    requires !w.Part?
    ensures var image := Image(kept, body);
            && Within(Plan(w, |image|, |image| - |body|), |image|)
            && Expected(Plan(w, |image|, |image| - |body|), image)
               == (if w.Whole? then image else Header200(|body|) + kept + [13, 10])
  {
    hide Header200, Expected;
    var image := Image(kept, body);
    ExpectedOne(Plan(w, |image|, |image| - |body|), image);
    assert image[..|image| - |body|] == Header200(|body|) + kept + [13, 10];
  }

  lemma ServesPart(start: Option<nat>, end: Option<nat>, head: bool, kept: seq<Byte>, body: seq<Byte>)
    requires WantOk(Part(start, end, head))
    ensures var image := Image(kept, body);
            var plan := Plan(Part(start, end, head), |image|, |image| - |body|);
            && Within(plan, |image|)
            && match Resolve(start, end, |body|)
               case None => Expected(plan, image) == []
               case Some((a, b)) => a <= b < |body|
                                    && Expected(plan, image) == kept + [13, 10] + (if head then [] else body[a..b + 1])
  {
    hide Header200, Expected, Image, Slice;
    var image := Image(kept, body);
    var h := |image| - |body|;
    var plan := Plan(Part(start, end, head), |image|, h);
    ResolveIsRfc(start, end, |body|);
    ImageParts(kept, body);
    hide Resolve;
    if Resolve(start, end, |body|).Some? {
      var (a, b) := Resolve(start, end, |body|).value;
      TailSlice(image, h, body, a, b - a + 1);
      if head {
        ExpectedOne(plan, image);
        assert kept + [13, 10] + [] == kept + [13, 10];
      } else {
        ExpectedTwo(plan, image);
      }
    } else {
      ExpectedNone(image);
    }
  }

  lemma ImageParts(kept: seq<Byte>, body: seq<Byte>)
    ensures var image, off := Image(kept, body), |Header200(|body|)|;
            var h := |image| - |body|;
            && off <= h && Slice(image, off, h - off) == kept + [13, 10] && image[h..] == body
  {
    hide Header200;
    Middle(Header200(|body|), kept + [13, 10], body);
    assert Image(kept, body) == Header200(|body|) + (kept + [13, 10]) + body;
  }

  lemma Middle(a: seq<Byte>, m: seq<Byte>, c: seq<Byte>)
    ensures Slice(a + m + c, |a|, |m|) == m
    ensures (a + m + c)[|a| + |m|..] == c
  {
  }

  lemma TailSlice(image: seq<Byte>, h: nat, body: seq<Byte>, a: nat, n: nat)
    requires h <= |image| && image[h..] == body && a + n <= |body|
    ensures h + a + n <= |image| && Slice(image, h + a, n) == body[a..a + n]
  {
    var t := image[h..];
    assert forall k :: 0 <= k < |t| ==> t[k] == image[h + k];
    assert t[a..a + n] == image[h + a..h + a + n];
  }

  lemma ExpectedNone(image: seq<Byte>)
    ensures Expected([], image) == []
  {
  }

  lemma ExpectedOne(plan: seq<Range>, image: seq<Byte>)
    requires |plan| == 1 && Within(plan, |image|)
    ensures Expected(plan, image) == Slice(image, plan[0].start, plan[0].len)
  {
    assert plan[..0] == [];
  }

  lemma ExpectedTwo(plan: seq<Range>, image: seq<Byte>)
    requires |plan| == 2 && Within(plan, |image|)
    ensures Expected(plan, image) == Slice(image, plan[0].start, plan[0].len) + Slice(image, plan[1].start, plan[1].len)
  {
    ExpectedOne(plan[..1], image);
  }
}
