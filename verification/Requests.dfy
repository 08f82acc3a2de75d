/** Requests as clients write them, and what http_request_parse makes of them (http.c). */
module Requests {
  import opened Lists
  import opened Life
  import opened Responses
  import opened Https

  // ---------- the request line ----------

  const METHODS: seq<string> := ["GET ", "HEAD ", "PUT ", "POST ", "PURGE ", "DELETE "]

  /** What the first line says: not a method, not finished (looking from `at`), not HTTP, or the URI
      and where the headers begin. */
  datatype FirstLine = Unknown | Open(at: nat) | NotHttp | Line(how: nat, uri: nat, uriLen: nat, http: nat, start: nat)

  function MethodFrom(buf: Text, m: nat): (r: nat)
    requires m <= |METHODS|
    ensures m <= r <= |METHODS| && (r < |METHODS| ==> Starts(buf, METHODS[r]))
    decreases |METHODS| - m
  {
    if m == |METHODS| || Starts(buf, METHODS[m]) then m else MethodFrom(buf, m + 1)
  }

  lemma StartsLong(buf: Text, s: string)
    requires Starts(buf, s) && forall k :: 0 <= k < |s| ==> Code(s[k]) != 0
    ensures |s| <= |buf|
  {
    if |s| > 0 { assert At(buf, |s| - 1) == Code(s[|s| - 1]); }
  }

  lemma MethodLong(buf: Text, m: nat)
    requires m < |METHODS| && Starts(buf, METHODS[m])
    ensures |METHODS[m]| <= |buf|
  {
    StartsLong(buf, METHODS[m]);
  }

  lemma NamedLong(buf: Text, p: nat, s: string)
    requires Named(buf, p, s) && s != "" && forall k :: 0 <= k < |s| ==> Lower(Code(s[k])) != 0
    ensures p + |s| <= |buf|
  {
    assert Lower(At(buf, p + (|s| - 1))) == Lower(Code(s[|s| - 1]));
  }

  function FirstLineOf(buf: Text): (r: FirstLine)
    ensures r.Open? ==> r.at <= |buf|
    ensures r.Line? ==> r.http + 7 <= r.start <= |buf| + 1 && buf[r.start - 2] == CR
  {
    var m := MethodFrom(buf, 0);
    if m == |METHODS| then Unknown
    else
      MethodLong(buf, m);
      var u := Skip(buf, |METHODS[m]|);
      match Find(buf, u, SP)
      case None => Open(u)
      case Some(q) =>
        var h := Skip(buf, q + 1);
        if !Named(buf, h, "HTTP/") then NotHttp
        else
          NamedLong(buf, h, "HTTP/");
          match Find(buf, h + 5, CR)
          case None => Open(h)
          case Some(c) => Line(m, u, q - u, h, c + 2)
  }

  /** The header loop begins inside the text exactly when something follows the first line end.
      Otherwise - the text received so far ends with that very carriage return - it begins behind
      the terminating NUL, in bytes of an earlier request. */
  lemma StartInside(buf: Text)
    requires FirstLineOf(buf).Line?
    ensures var l := FirstLineOf(buf);
            l.start <= |buf| <==> !(buf[|buf| - 1] == CR && forall k :: l.http + 5 <= k < |buf| - 1 ==>
                buf[k] != CR && buf[k] != 0)
  {
    var l := FirstLineOf(buf);
    FindFirst(buf, l.http + 5, CR);
  }

  lemma {:induction false} FindFirst(buf: Text, p: nat, c: Byte)
    requires p <= |buf| && c != 0
    ensures Find(buf, p, c).Some? ==> forall k :: p <= k < Find(buf, p, c).value ==> buf[k] != c && buf[k] != 0
    decreases |buf| - p
  {
    if p < |buf| && buf[p] != 0 && buf[p] != c { FindFirst(buf, p + 1, c); }
  }

  predicate UriOk(uri: Text) {
    uri != [] && Free(uri, SP) && Free(uri, 0)
  }

  predicate VersionOk(version: Text) {
    Free(version, CR) && Free(version, 0)
  }

  /** The first line as a client writes it, up to the carriage return. */
  function RenderFirst(m: nat, uri: Text, version: Text): Text
    requires m < |METHODS|
  {
    Ascii(METHODS[m]) + uri + [SP] + Ascii("HTTP/") + version + [CR]
  }

  lemma AsciiAt(s: string, k: nat)
    requires k < |s|
    ensures Ascii(s)[k] == Code(s[k])
  {
  }

  lemma MethodIs(buf: Text, m: nat)
    requires m == 2 || m == 3
    requires |METHODS[m]| <= |buf| && forall k :: 0 <= k < |METHODS[m]| ==> buf[k] == Code(METHODS[m][k])
    ensures MethodFrom(buf, 0) == m
  {
    NotBefore(buf, m);
    assert Starts(buf, METHODS[m]);
    hide Starts;
    assert MethodFrom(buf, m) == m && MethodFrom(buf, 2) == m;
    assert MethodFrom(buf, 1) == MethodFrom(buf, 2);
  }

  lemma NotBefore(buf: Text, m: nat)
    requires m == 2 || m == 3
    requires |METHODS[m]| <= |buf| && forall k :: 0 <= k < |METHODS[m]| ==> buf[k] == Code(METHODS[m][k])
    ensures forall j :: 0 <= j < m ==> !Starts(buf, METHODS[j])
  {
    assert buf[0] == Code('P') && buf[1] == Code(if m == 2 then 'U' else 'O');
    forall j | 0 <= j < m ensures !Starts(buf, METHODS[j]) {
      if j < 2 {
        assert At(buf, 0) != Code(METHODS[j][0]);
      } else {
        assert At(buf, 1) != Code(METHODS[2][1]);
      }
    }
  }

  /** Where the parts of the first line stand. */
  lemma FirstBytes(m: nat, uri: Text, version: Text, rest: Text)
    requires m < |METHODS| && UriOk(uri) && VersionOk(version)
    ensures var buf := RenderFirst(m, uri, version) + rest;
            var u := |METHODS[m]|;
            var h := u + |uri| + 1;
            var c := h + 5 + |version|;
            && |RenderFirst(m, uri, version)| == c + 1
            && (forall k :: 0 <= k < u ==> buf[k] == Code(METHODS[m][k]))
            && buf[u] != SP && (forall k :: u <= k < u + |uri| ==> buf[k] != SP && buf[k] != 0) && buf[h - 1] == SP
            && (forall k :: 0 <= k < 5 ==> buf[h + k] == Code("HTTP/"[k]))
            && (forall k :: h + 5 <= k < c ==> buf[k] != CR && buf[k] != 0) && buf[c] == CR
  {
    var a, b := Ascii(METHODS[m]), Ascii("HTTP/");
    forall k | 0 <= k < |METHODS[m]| ensures a[k] == Code(METHODS[m][k]) { AsciiAt(METHODS[m], k); }
    forall k | 0 <= k < 5 ensures b[k] == Code("HTTP/"[k]) { AsciiAt("HTTP/", k); }
    hide Ascii, Code;
    FivePieces(a, uri, b, version, rest);
  }

  lemma FivePieces(a: Text, uri: Text, b: Text, version: Text, rest: Text)
    ensures var buf := a + uri + [SP] + b + version + [CR] + rest;
            var h := |a| + |uri| + 1;
            var c := h + |b| + |version|;
            && |buf| == c + 1 + |rest| && buf[h - 1] == SP && buf[c] == CR
            && (forall k :: 0 <= k < |a| ==> buf[k] == a[k])
            && (forall k :: |a| <= k < |a| + |uri| ==> buf[k] == uri[k - |a|])
            && (forall k :: 0 <= k < |b| ==> buf[h + k] == b[k])
            && (forall k :: h + |b| <= k < c ==> buf[k] == version[k - h - |b|])
  {
  }

  /** The first line is read as it was written, whatever follows. */
  lemma FirstRead(m: nat, uri: Text, version: Text, rest: Text)
    requires (m == 2 || m == 3) && UriOk(uri) && VersionOk(version)
    ensures var buf := RenderFirst(m, uri, version) + rest;
            var u := |METHODS[m]|;
            FirstLineOf(buf) == Line(m, u, |uri|, u + |uri| + 1, |RenderFirst(m, uri, version)| + 1)
  {
    var u := |METHODS[m]|;
    var h := u + |uri| + 1;
    FirstBytes(m, uri, version, rest);
    hide RenderFirst, FirstLineOf, Code;
    FirstParsed(RenderFirst(m, uri, version) + rest, m, h, h + 5 + |version|);
  }

  lemma FirstParsed(buf: Text, m: nat, h: nat, c: nat)
    requires m == 2 || m == 3
    requires |METHODS[m]| < h && h + 5 <= c < |buf|
    requires forall k :: 0 <= k < |METHODS[m]| ==> buf[k] == Code(METHODS[m][k])
    requires var u := |METHODS[m]|;
             buf[u] != SP && (forall k :: u <= k < h - 1 ==> buf[k] != SP && buf[k] != 0) && buf[h - 1] == SP
    requires forall k :: 0 <= k < 5 ==> buf[h + k] == Code("HTTP/"[k])
    requires (forall k :: h + 5 <= k < c ==> buf[k] != CR && buf[k] != 0) && buf[c] == CR
    ensures FirstLineOf(buf) == Line(m, |METHODS[m]|, h - 1 - |METHODS[m]|, h, c + 2)
  {
    var u := |METHODS[m]|;
    HttpNot();
    hide Find, Skip, Code, MethodFrom;
    MethodIs(buf, m);
    forall k | 0 <= k < 5 ensures Lower(At(buf, h + k)) == Lower(Code("HTTP/"[k])) {}
    assert Named(buf, h, "HTTP/");
    hide Named, Starts, At, Lower;
    SkipOne(buf, u);
    FindAt(buf, u, h - 1, SP);
    SkipOne(buf, h);
    FindAt(buf, h + 5, c, CR);
  }

  lemma HttpNot()
    ensures Code("HTTP/"[0]) != SP
  {
  }

  /** Nothing after the carriage return: the header loop begins behind the text. */
  lemma StartOutside(m: nat, uri: Text, version: Text)
    requires (m == 2 || m == 3) && UriOk(uri) && VersionOk(version)
    ensures var buf := RenderFirst(m, uri, version); FirstLineOf(buf).Line? && FirstLineOf(buf).start == |buf| + 1
  {
    FirstRead(m, uri, version, []);
    assert RenderFirst(m, uri, version) + [] == RenderFirst(m, uri, version);
  }

  /** Results of http_request_parse for a store: those of the header loop, a request that is not a
      store, or a start behind the text. */
  datatype Outcome = Stale | NotStore | Loop(r: Parsed)

  /** http_request_parse for PUT and POST. */
  method ParseRequest(buf: Text, other: Https.Line -> bool) returns (r: Outcome)
    ensures var l := FirstLineOf(buf);
            if l.Unknown? || l.NotHttp? then r == Loop(Bad)
            else if l.Open? then r == Loop(if TwoLineEnds(buf, l.at) then Bad else Again)
            else if l.how != 2 && l.how != 3 then r.NotStore?
            else if l.start > |buf| then r.Stale?
            else
              && r.Loop?
              && (r.r.Overrun? <==> Overruns(buf, l.start, other))
              && (r.r.Bad? <==> Refused(buf, l.start, other) && !Overruns(buf, l.start, other))
              && (r.r.Again? <==> Unfinished(buf, l.start, other) && !Overruns(buf, l.start, other))
              && (r.r.Done? ==> var (hs, e) := Scan(buf, l.start);
                                && e.Empty? && r.r.contentLength == LengthIn(buf, hs)
                                && |buf| - e.at - 2 <= r.r.contentLength
                                && Inside(buf, r.r.segs) && Joined(buf, r.r.segs) == Kept(buf, hs) + buf[e.at..]
                                && r.r.headerLength == |Header200(r.r.contentLength)| + |Kept(buf, hs)| + 2
                                && Shaped(r.r.contentLength + r.r.headerLength, r.r.headerLength))
  {
    hide FirstLineOf, TwoLineEnds, Overruns, Refused, Unfinished, Scan, LengthIn, Kept, Joined, Inside, Header200,
      Shaped;
    match FirstLineOf(buf)
    case Unknown => return Loop(Bad);
    case NotHttp => return Loop(Bad);
    case Open(at) => return Loop(if TwoLineEnds(buf, at) then Bad else Again);
    case Line(m, _, _, _, start) =>
      if m != 2 && m != 3 {
        return NotStore;
      }
      if start > |buf| {
        return Stale;
      }
      var q := ParsePut(buf, start, other);
      return Loop(q);
  }

  // ---------- header fields ----------

  datatype Field = Field(name: Text, value: Text)

  predicate Free(t: Text, c: Byte) {
    forall k :: 0 <= k < |t| ==> t[k] != c
  }

  predicate FieldOk(f: Field) {
    && f.name != [] && f.name[0] != SP && Free(f.name, COLON) && Free(f.name, CR) && Free(f.name, 0)
    && Free(f.value, CR) && Free(f.value, 0) && (f.value != [] ==> f.value[0] != SP)
  }

  function Render(f: Field): (t: Text)
    ensures |t| >= 4
  {
    f.name + [COLON, SP] + f.value + [CR, LF]
  }

  function RenderAll(fs: seq<Field>): Text {
    if fs == [] then [] else Render(fs[0]) + RenderAll(fs[1..])
  }

  lemma {:induction false} FindAt(buf: Text, p: nat, q: nat, c: Byte)
    requires p <= q < |buf| && buf[q] == c && c != 0 && forall k :: p <= k < q ==> buf[k] != c && buf[k] != 0
    ensures Find(buf, p, c) == Some(q)
    decreases q - p
  {
    if p < q { FindAt(buf, p + 1, q, c); }
  }

  lemma SkipOne(buf: Text, p: nat)
    requires p < |buf|
    ensures buf[p] != SP ==> Skip(buf, p) == p
    ensures buf[p] == SP && p + 1 < |buf| && buf[p + 1] != SP ==> Skip(buf, p) == p + 1
  {
  }

  /** A rendered field is read as one header, from its first byte to its line end. */
  lemma LineOf(pre: Text, f: Field, post: Text)
    requires FieldOk(f)
    ensures var n := |pre|; LineAt(pre + Render(f) + post, n) == Header(n, n + |f.name| + 2, n + |Render(f)| - 2)
  {
    var buf, n := pre + Render(f) + post, |pre|;
    var q := n + |f.name|;
    var e := n + |Render(f)| - 2;
    RenderBytes(pre, f, post);
    hide Render, Skip, Find;
    SkipOne(buf, n);
    FindAt(buf, n, q, COLON);
    SkipOne(buf, q + 1);
    FindAt(buf, q + 2, e, CR);
  }

  lemma RenderBytes(pre: Text, f: Field, post: Text)
    requires FieldOk(f)
    ensures var buf, n := pre + Render(f) + post, |pre|;
            var q, e := n + |f.name|, n + |Render(f)| - 2;
            && q + 2 <= e && e + 2 <= |buf| && e == q + 2 + |f.value|
            && (forall k :: n <= k < q ==> buf[k] == f.name[k - n])
            && buf[q] == COLON && buf[q + 1] == SP && buf[e] == CR && buf[e + 1] == LF
            && (forall k :: q + 2 <= k < e ==> buf[k] == f.value[k - q - 2])
            && buf[n] != SP && buf[n] != CR && buf[q + 2] != SP
            && (forall k :: n <= k < q ==> buf[k] != COLON && buf[k] != 0)
            && (forall k :: q + 2 <= k < e ==> buf[k] != CR && buf[k] != 0)
  {
    var buf, n := pre + Render(f) + post, |pre|;
    assert forall k :: n <= k < n + |Render(f)| ==> buf[k] == Render(f)[k - n];
  }

  // ---------- which headers are stored ----------

  /** Equal but for case. */
  predicate Same(name: Text, s: string) {
    |name| == |s| && forall k :: 0 <= k < |s| ==> Lower(name[k]) == Lower(Code(s[k]))
  }

  predicate Transfer(name: Text) {
    exists i :: 0 <= i < |TRANSFER| && Same(name, TRANSFER[i])
  }

  function KeptFields(fs: seq<Field>): seq<Field> {
    if fs == [] then []
    else KeptFields(fs[..|fs| - 1]) + if Transfer(fs[|fs| - 1].name) then [] else [fs[|fs| - 1]]
  }

  predicate Plain(s: string) {
    forall k :: 0 <= k < |s| ==> s[k] < 128 as char && s[k] != ':'
  }

  /** Comparing with a table entry that ends in a colon compares the whole name. */
  lemma NamedIsSame(buf: Text, p: nat, name: Text, s: string)
    requires p + |name| < |buf| && Free(name, COLON) && buf[p + |name|] == COLON && Plain(s)
    requires forall k :: 0 <= k < |name| ==> buf[p + k] == name[k]
    ensures Named(buf, p, s + ":") <==> Same(name, s)
  {
    var t := s + ":";
    assert forall k :: 0 <= k < |s| ==> t[k] == s[k];
    assert t[|s|] == ':';
    assert Lower(Code(t[|s|])) == COLON;
    if |name| < |s| {
      NotColon(s[|name|]);
      assert Lower(At(buf, p + |name|)) != Lower(Code(t[|name|]));
    } else if |name| > |s| {
      assert At(buf, p + |s|) == name[|s|] != COLON;
      assert Lower(At(buf, p + |s|)) != Lower(Code(t[|s|]));
    } else {
      assert forall k :: 0 <= k < |s| ==> At(buf, p + k) == name[k];
      if Named(buf, p, t) {
        forall k | 0 <= k < |s| ensures Lower(name[k]) == Lower(Code(s[k])) {
          assert Lower(At(buf, p + k)) == Lower(Code(t[k]));
        }
      }
    }
  }

  lemma NotColon(c: char)
    requires c < 128 as char && c != ':'
    ensures Lower(Code(c)) != COLON
  {
    assert ':' as int == 58;
    assert (c as int) as char == c;
  }

  /** A rendered field is stored unless it names the transfer. */
  lemma DroppedOf(pre: Text, f: Field, post: Text)
    requires FieldOk(f)
    ensures Dropped(pre + Render(f) + post, |pre|) <==> Transfer(f.name)
  {
    var buf, n := pre + Render(f) + post, |pre|;
    RenderBytes(pre, f, post);
    hide Render, Named, Same;
    forall i | 0 <= i < |TRANSFER| ensures Named(buf, n, TRANSFER[i] + ":") <==> Same(f.name, TRANSFER[i]) {
      TransferPlain(i);
      NamedIsSame(buf, n, f.name, TRANSFER[i]);
    }
  }

  lemma TransferPlain(i: nat)
    requires i < |TRANSFER|
    ensures Plain(TRANSFER[i])
  {
    assert Plain("Content-Length") && Plain("Host") && Plain("OHC-Key") && Plain("Connection");
  }

  /** The headers are the fields, one behind the other from `base` on. */
  ghost predicate Laid(base: nat, hs: seq<Https.Line>, fs: seq<Field>) {
    |hs| == |fs| && forall k :: 0 <= k < |fs| ==> hs[k] == HeadAt(base + |RenderAll(fs[..k])|, fs[k])
  }

  lemma LaidCons(base: nat, hs: seq<Https.Line>, fs: seq<Field>)
    requires fs != [] && Laid(base + |Render(fs[0])|, hs, fs[1..])
    ensures Laid(base, [HeadAt(base, fs[0])] + hs, fs)
  {
    hide Render;
    var f, rest, all := fs[0], fs[1..], [HeadAt(base, fs[0])] + hs;
    forall k | 0 <= k < |fs| ensures all[k] == HeadAt(base + |RenderAll(fs[..k])|, fs[k]) {
      if k > 0 { assert fs[..k][0] == f && fs[..k][1..] == rest[..k - 1]; }
    }
  }

  /** Parsing what a client wrote gives the fields back, one header to the field, and the empty line
      behind them. */
  lemma {:induction false} ScanRendered(pre: Text, fs: seq<Field>, body: Text)
    requires FieldsOk(fs)
    ensures var buf := pre + RenderAll(fs) + [CR, LF] + body;
            Scan(buf, |pre|).1 == Empty(|pre| + |RenderAll(fs)|) && Laid(|pre|, Scan(buf, |pre|).0, fs)
    decreases |fs|
  {
    hide Scan, LineAt, Render, FieldOk, Laid;
    var buf := pre + RenderAll(fs) + [CR, LF] + body;
    if fs == [] {
      ScanEnd(pre, body);
      assert buf == pre + [CR, LF] + body;
      LaidNone(|pre|);
    } else {
      var f, rest := fs[0], fs[1..];
      var all := RenderAll(rest);
      ScanRendered(pre + Render(f), rest, body);
      assert RenderAll(fs) == Render(f) + all;
      hide RenderAll;
      Regroup(pre, Render(f), all, body);
      LineOf(pre, f, all + [CR, LF] + body);
      ScanStep(buf, |pre|);
      LaidCons(|pre|, Scan(buf, |pre| + |Render(f)|).0, fs);
    }
  }

  lemma LaidNone(base: nat)
    ensures Laid(base, [], [])
  {
  }

  predicate FieldsOk(fs: seq<Field>) {
    forall f :: f in fs ==> FieldOk(f)
  }

  function HeadAt(o: nat, f: Field): Https.Line
      {
    Header(o, o + |f.name| + 2, o + |Render(f)| - 2)
  }

  lemma Regroup(pre: Text, r: Text, all: Text, body: Text)
    ensures pre + (r + all) + [CR, LF] + body == pre + r + (all + [CR, LF] + body) == (pre + r) + all + [CR, LF] + body
  {
  }

  lemma ScanEnd(pre: Text, body: Text)
    ensures var buf := pre + [CR, LF] + body; Scan(buf, |pre|) == ([], Empty(|pre|))
  {
    LineEnd(pre, body);
    hide LineAt;
  }

  lemma LineEnd(pre: Text, body: Text)
    ensures var buf := pre + [CR, LF] + body; LineAt(buf, |pre|) == Empty(|pre|)
  {
    var buf := pre + [CR, LF] + body;
    assert buf[|pre|] == CR && buf[|pre| + 1] == LF;
  }

  // ---------- what the fields mean to the parser ----------

  /** The number a Content-Length field gives. */
  function FieldLength(f: Field): Option<nat> {
    if f.value != [] && forall k :: 0 <= k < |f.value| ==> Digit(f.value[k]) then Some(Value(f.value)) else None
  }

  /** The parser sees field f at o. */
  ghost predicate FieldReads(buf: Text, o: nat, f: Field) {
    && o + |Render(f)| <= |buf| && buf[o..o + |Render(f)|] == Render(f)
    && (Dropped(buf, o) <==> Transfer(f.name))
    && (IsLength(buf, o) <==> Same(f.name, TRANSFER[0]))
    && LengthAt(buf, HeadAt(o, f)) == FieldLength(f)
  }

  ghost predicate Reads(buf: Text, base: nat, fs: seq<Field>) {
    forall k :: 0 <= k < |fs| ==> FieldReads(buf, base + |RenderAll(fs[..k])|, fs[k])
  }

  lemma LengthRead(buf: Text, v: nat, e: nat, text: Text)
    requires v <= e < |buf| && e == v + |text| && !Digit(buf[e]) && forall k :: v <= k < e ==> buf[k] == text[k - v]
    ensures (if RunEnd(buf, v) == e then NumberAt(buf, v) else None)
         == if text != [] && forall k :: 0 <= k < |text| ==> Digit(text[k]) then Some(Value(text)) else None
  {
    assert buf[v..e] == text;
    if forall k :: 0 <= k < |text| ==> Digit(text[k]) {
      RunEndAt(buf, v, e);
    } else {
      var k :| 0 <= k < |text| && !Digit(text[k]);
      assert !Digit(buf[v + k]);
    }
  }

  lemma LengthNamed(pre: Text, f: Field, post: Text)
    requires FieldOk(f)
    ensures IsLength(pre + Render(f) + post, |pre|) <==> Same(f.name, TRANSFER[0])
  {
    var buf, n := pre + Render(f) + post, |pre|;
    RenderBytes(pre, f, post);
    TransferPlain(0);
    hide Render, Named, Same;
    NamedIsSame(buf, n, f.name, TRANSFER[0]);
    assert TRANSFER[0] + ":" == "Content-Length:";
  }

  lemma LengthReads(pre: Text, f: Field, post: Text)
    requires FieldOk(f)
    ensures LengthAt(pre + Render(f) + post, HeadAt(|pre|, f)) == FieldLength(f)
  {
    var buf, n := pre + Render(f) + post, |pre|;
    RenderBytes(pre, f, post);
    hide Render, FieldOk, Value, NumberAt, RunEnd;
    LengthRead(buf, n + |f.name| + 2, n + |Render(f)| - 2, f.value);
  }

  lemma SliceMid(a: Text, b: Text, c: Text)
    ensures (a + b + c)[|a|..|a| + |b|] == b
  {
  }

  lemma FieldReadsOf(pre: Text, f: Field, post: Text)
    requires FieldOk(f)
    ensures FieldReads(pre + Render(f) + post, |pre|, f)
  {
    hide Dropped, IsLength, Same, Transfer, LengthAt, FieldLength, Render, FieldOk;
    DroppedOf(pre, f, post);
    LengthNamed(pre, f, post);
    LengthReads(pre, f, post);
    SliceMid(pre, Render(f), post);
  }

  lemma {:induction false} RenderSplit(fs: seq<Field>, k: nat)
    requires k < |fs|
    ensures RenderAll(fs) == RenderAll(fs[..k]) + Render(fs[k]) + RenderAll(fs[k + 1..])
  {
    hide Render;
    if k == 0 {
      assert fs[..0] == [] && [] + Render(fs[0]) == Render(fs[0]);
    } else {
      var t := fs[1..];
      RenderSplit(t, k - 1);
      assert t[..k - 1] == fs[1..k] && fs[..k][1..] == fs[1..k] && fs[..k][0] == fs[0] && t[k..] == fs[k + 1..];
      Group(Render(fs[0]), RenderAll(t[..k - 1]), Render(fs[k]), RenderAll(fs[k + 1..]));
    }
  }

  lemma Group(a: Text, b: Text, c: Text, d: Text)
    ensures a + (b + c + d) == (a + b) + c + d
  {
  }

  lemma ReadsRendered(pre: Text, fs: seq<Field>, body: Text)
    requires FieldsOk(fs)
    ensures Reads(pre + RenderAll(fs) + [CR, LF] + body, |pre|, fs)
  {
    hide Render, FieldOk, FieldReads, RenderAll;
    var buf := pre + RenderAll(fs) + [CR, LF] + body;
    forall k | 0 <= k < |fs| ensures FieldReads(buf, |pre| + |RenderAll(fs[..k])|, fs[k]) {
      RenderSplit(fs, k);
      var a, b, c := RenderAll(fs[..k]), Render(fs[k]), RenderAll(fs[k + 1..]);
      assert pre + (a + b + c) + [CR, LF] + body == (pre + a) + b + (c + [CR, LF] + body);
      FieldReadsOf(pre + a, fs[k], c + [CR, LF] + body);
    }
  }

  lemma RenderPush(fs: seq<Field>, f: Field)
    ensures RenderAll(fs + [f]) == RenderAll(fs) + Render(f)
  {
    hide Render;
    var all := fs + [f];
    RenderSplit(all, |fs|);
    assert all[..|fs|] == fs && all[|fs| + 1..] == [];
  }

  /** The headers of a rendered request. */
  ghost predicate Parses(buf: Text, base: nat, hs: seq<Https.Line>, fs: seq<Field>) {
    |hs| == |fs| && Headers(buf, hs) && Laid(base, hs, fs) && Reads(buf, base, fs)
  }

  /** One field more. */
  lemma LaidNext(buf: Text, base: nat, hs: seq<Https.Line>, fs: seq<Field>, k: nat)
    requires Parses(buf, base, hs, fs) && k < |fs|
    ensures |hs| == |fs| && Headers(buf, hs[..k] + [hs[k]]) && hs[..k + 1] == hs[..k] + [hs[k]]
            && fs[..k + 1] == fs[..k] + [fs[k]]
    ensures var o := base + |RenderAll(fs[..k])|; hs[k] == HeadAt(o, fs[k]) && FieldReads(buf, o, fs[k])
  {
    hide Render, FieldReads, RenderAll;
    assert forall x :: x in hs[..k] + [hs[k]] ==> x in hs;
  }

  lemma KeptStep(buf: Text, hs: seq<Https.Line>, fs: seq<Field>, o: nat, f: Field)
    requires Headers(buf, hs + [HeadAt(o, f)]) && FieldReads(buf, o, f) && Headers(buf, hs)
             && Kept(buf, hs) == RenderAll(KeptFields(fs))
    ensures Kept(buf, hs + [HeadAt(o, f)]) == RenderAll(KeptFields(fs + [f]))
  {
    hide Render, Dropped, Transfer, IsLength, LengthAt, FieldLength, Kept, RenderAll, KeptFields;
    KeptNext(buf, hs, HeadAt(o, f));
    KeptFieldsPush(fs, f);
    RenderPush(KeptFields(fs), f);
  }

  /** The stored headers are the rendered fields in their order, without those about the transfer. */
  lemma {:induction false} KeptRendered(buf: Text, base: nat, hs: seq<Https.Line>, fs: seq<Field>, k: nat)
    requires Parses(buf, base, hs, fs) && k <= |fs|
    ensures k <= |hs| && Headers(buf, hs[..k]) && Kept(buf, hs[..k]) == RenderAll(KeptFields(fs[..k]))
  {
    hide *;
    if k == 0 {
      NoneRendered(buf, base);
      assert hs[..0] == [] && fs[..0] == [];
    } else {
      KeptRendered(buf, base, hs, fs, k - 1);
      LaidNext(buf, base, hs, fs, k - 1);
      KeptStep(buf, hs[..k - 1], fs[..k - 1], base + |RenderAll(fs[..k - 1])|, fs[k - 1]);
    }
  }

  lemma KeptFieldsPush(fs: seq<Field>, f: Field)
    ensures KeptFields(fs + [f]) == if Transfer(f.name) then KeptFields(fs) else KeptFields(fs) + [f]
  {
    hide Transfer;
    assert (fs + [f])[..|fs|] == fs;
    assert KeptFields(fs) + [] == KeptFields(fs);
  }

  /** What the last Content-Length field declares; -1 without one. */
  function Declared(fs: seq<Field>): int {
    if fs == [] then -1
    else
      var f := fs[|fs| - 1];
      if Same(f.name, TRANSFER[0]) && FieldLength(f).Some? then FieldLength(f).value else Declared(fs[..|fs| - 1])
  }

  lemma LengthStep(buf: Text, hs: seq<Https.Line>, fs: seq<Field>, o: nat, f: Field)
    requires Headers(buf, hs + [HeadAt(o, f)]) && FieldReads(buf, o, f) && Headers(buf, hs)
             && LengthIn(buf, hs) == Declared(fs)
    ensures LengthIn(buf, hs + [HeadAt(o, f)]) == Declared(fs + [f])
  {
    hide Render, Dropped, Transfer, IsLength, LengthAt, FieldLength, LengthIn, Same;
    LengthNext(buf, hs, HeadAt(o, f));
    assert (fs + [f])[..|fs|] == fs;
  }

  lemma {:induction false} LengthRendered(buf: Text, base: nat, hs: seq<Https.Line>, fs: seq<Field>, k: nat)
    requires Parses(buf, base, hs, fs) && k <= |fs|
    ensures k <= |hs| && Headers(buf, hs[..k]) && LengthIn(buf, hs[..k]) == Declared(fs[..k])
  {
    hide *;
    if k == 0 {
      NoneRendered(buf, base);
      assert hs[..0] == [] && fs[..0] == [];
    } else {
      LengthRendered(buf, base, hs, fs, k - 1);
      LaidNext(buf, base, hs, fs, k - 1);
      LengthStep(buf, hs[..k - 1], fs[..k - 1], base + |RenderAll(fs[..k - 1])|, fs[k - 1]);
    }
  }

  // ---------- how many slots a request needs ----------

  predicate EndsStored(fs: seq<Field>) {
    fs != [] && !Transfer(fs[|fs| - 1].name)
  }

  /** The maximal runs of stored fields. */
  function StoredRuns(fs: seq<Field>): nat {
    if fs == [] then 0
    else StoredRuns(fs[..|fs| - 1]) + if EndsStored(fs) && !EndsStored(fs[..|fs| - 1]) then 1 else 0
  }

  /** The slots the request needs; the empty line and the body continue a run or begin one. */
  function SlotsFor(fs: seq<Field>): nat {
    StoredRuns(fs) + if EndsStored(fs) then 0 else 1
  }

  lemma StoredPush(fs: seq<Field>, f: Field)
    ensures StoredRuns(fs + [f]) == StoredRuns(fs) + if !Transfer(f.name) && !EndsStored(fs) then 1 else 0
    ensures EndsStored(fs + [f]) <==> !Transfer(f.name)
  {
    hide Transfer;
    assert (fs + [f])[..|fs|] == fs;
  }

  /** The pieces end at `at` when the last field is stored, and before it otherwise. */
  ghost predicate Reach(ps: seq<Segment>, at: nat, stored: bool) {
    if stored then ps != [] && EndOf(ps[|ps| - 1]) == at else ps == [] || EndOf(ps[|ps| - 1]) < at
  }

  lemma RunsStep(buf: Text, hs: seq<Https.Line>, fs: seq<Field>, o: nat, f: Field)
    requires Headers(buf, hs + [HeadAt(o, f)]) && FieldReads(buf, o, f) && Headers(buf, hs)
    requires Runs(Pieces(buf, hs)) == StoredRuns(fs) && Reach(Pieces(buf, hs), o, EndsStored(fs))
    ensures Runs(Pieces(buf, hs + [HeadAt(o, f)])) == StoredRuns(fs + [f])
    ensures Reach(Pieces(buf, hs + [HeadAt(o, f)]), o + |Render(f)|, EndsStored(fs + [f]))
  {
    hide Render, Dropped, Transfer, IsLength, LengthAt, FieldLength, Pieces, Runs, StoredRuns, EndsStored;
    PiecesNext(buf, hs, HeadAt(o, f));
    StoredPush(fs, f);
    RunsPush(Pieces(buf, hs), Piece(HeadAt(o, f)));
  }

  lemma {:induction false} RunsRendered(buf: Text, base: nat, hs: seq<Https.Line>, fs: seq<Field>, k: nat)
    requires Parses(buf, base, hs, fs) && k <= |fs|
    ensures k <= |hs| && Headers(buf, hs[..k]) && Runs(Pieces(buf, hs[..k])) == StoredRuns(fs[..k])
    ensures Reach(Pieces(buf, hs[..k]), base + |RenderAll(fs[..k])|, EndsStored(fs[..k]))
  {
    hide *;
    if k == 0 {
      NoneRendered(buf, base);
      assert hs[..0] == [] && fs[..0] == [];
    } else {
      RunsRendered(buf, base, hs, fs, k - 1);
      LaidNext(buf, base, hs, fs, k - 1);
      RenderPush(fs[..k - 1], fs[k - 1]);
      RunsStep(buf, hs[..k - 1], fs[..k - 1], base + |RenderAll(fs[..k - 1])|, fs[k - 1]);
    }
  }

  lemma NoneRendered(buf: Text, base: nat)
    ensures Headers(buf, []) && Kept(buf, []) == RenderAll(KeptFields([])) && LengthIn(buf, []) == Declared([])
    ensures Runs(Pieces(buf, [])) == StoredRuns([]) && Reach(Pieces(buf, []), base + |RenderAll([])|, EndsStored([]))
  {
    assert Starters([]) == {};
  }

  // ---------- the theorems ----------

  /** Every Content-Length field holds a number. */
  predicate LengthsOk(fs: seq<Field>) {
    forall f :: f in fs && Same(f.name, TRANSFER[0]) ==> FieldLength(f).Some?
  }

  lemma TakenAt(buf: Text, base: nat, hs: seq<Https.Line>, fs: seq<Field>, other: Https.Line -> bool, k: nat)
    requires Parses(buf, base, hs, fs) && LengthsOk(fs) && k < |hs| && other(hs[k])
    ensures hs[k] in hs && Takes(buf, hs[k], other)
  {
    hide Parses, Render, RenderAll, Dropped, Transfer, IsLength, LengthAt, FieldLength, Same;
    ParsesSize(buf, base, hs, fs);
    LaidNext(buf, base, hs, fs, k);
    assert fs[k] in fs;
  }

  lemma ParsesSize(buf: Text, base: nat, hs: seq<Https.Line>, fs: seq<Field>)
    requires Parses(buf, base, hs, fs)
    ensures |hs| == |fs| && Headers(buf, hs)
  {
    hide Laid, Reads, Headers;
  }

  lemma TakenRendered(buf: Text, base: nat, hs: seq<Https.Line>, fs: seq<Field>, other: Https.Line -> bool)
    requires Parses(buf, base, hs, fs) && LengthsOk(fs) && forall h :: h in hs ==> other(h)
    ensures Headers(buf, hs) && AllTaken(buf, hs, other) && Good(buf, hs, other) == hs
  {
    hide Parses, LengthsOk, Takes;
    ParsesSize(buf, base, hs, fs);
    forall h | h in hs ensures Takes(buf, h, other) {
      var k :| 0 <= k < |hs| && hs[k] == h;
      TakenAt(buf, base, hs, fs, other, k);
    }
    GoodFrom(buf, hs, [], other);
    assert hs + [] == hs;
  }

  /** The request text of a store. */
  function RenderRequest(m: nat, uri: Text, version: Text, fs: seq<Field>, body: Text): Text
    requires m < |METHODS|
  {
    RenderFirst(m, uri, version) + [LF] + RenderAll(fs) + [CR, LF] + body
  }

  lemma RequestParses(m: nat, uri: Text, version: Text, fs: seq<Field>, body: Text)
    requires (m == 2 || m == 3) && UriOk(uri) && VersionOk(version) && FieldsOk(fs)
    ensures var buf, n := RenderRequest(m, uri, version, fs, body), |RenderFirst(m, uri, version)| + 1;
            && FirstLineOf(buf) == Line(m, |METHODS[m]|, |uri|, |METHODS[m]| + |uri| + 1, n) && n <= |buf|
            && Scan(buf, n).1 == Empty(n + |RenderAll(fs)|) && Parses(buf, n, Scan(buf, n).0, fs)
  {
    hide RenderFirst, FirstLineOf, Scan, Laid, Reads, RenderAll, FieldOk, UriOk, VersionOk;
    var pre := RenderFirst(m, uri, version) + [LF];
    var rest := [LF] + RenderAll(fs) + [CR, LF] + body;
    var buf := RenderRequest(m, uri, version, fs, body);
    assert buf == RenderFirst(m, uri, version) + rest && buf == pre + RenderAll(fs) + [CR, LF] + body;
    FirstRead(m, uri, version, rest);
    ScanRendered(pre, fs, body);
    ReadsRendered(pre, fs, body);
    LaidSize(|pre|, Scan(buf, |pre|).0, fs);
  }

  lemma LaidSize(base: nat, hs: seq<Https.Line>, fs: seq<Field>)
    requires Laid(base, hs, fs)
    ensures |hs| == |fs|
  {
    hide RenderAll, HeadAt;
  }

  /** A request as a client writes it is understood: the stored headers are its fields, in order,
      without those about the transfer; it is refused exactly when it declares no length or less
      than the body that came with it; and otherwise it is accepted exactly when its fields need no
      more than ten slots. */
  lemma StoreUnderstood(m: nat, uri: Text, version: Text, fs: seq<Field>, body: Text, other: Https.Line -> bool)
    requires (m == 2 || m == 3) && UriOk(uri) && VersionOk(version) && FieldsOk(fs) && LengthsOk(fs)
    requires var n := |RenderFirst(m, uri, version)| + 1;
             n <= |RenderRequest(m, uri, version, fs, body)|
                 && forall h :: h in Scan(RenderRequest(m, uri, version, fs, body), n).0 ==> other(h)
    ensures var buf, n := RenderRequest(m, uri, version, fs, body), |RenderFirst(m, uri, version)| + 1;
            var refused := Declared(fs) == -1 || |body| > Declared(fs);
            && Kept(buf, Scan(buf, n).0) == RenderAll(KeptFields(fs)) && LengthIn(buf, Scan(buf, n).0) == Declared(fs)
            && !Unfinished(buf, n, other)
            && (Refused(buf, n, other) <==> refused)
            && (Overruns(buf, n, other) <==> StoredRuns(fs) > SLOTS || (!refused && SlotsFor(fs) > SLOTS))
  {
    hide RenderFirst, FirstLineOf, Scan, FieldOk, UriOk, VersionOk, Parses, Kept, LengthIn, Pieces, Runs, KeptFields,
      Declared, StoredRuns, EndsStored, TwoLineEnds, RenderAll, LengthsOk, Good, AllTaken;
    var buf, n := RenderRequest(m, uri, version, fs, body), |RenderFirst(m, uri, version)| + 1;
    RequestParses(m, uri, version, fs, body);
    var hs := Scan(buf, n).0;
    TakenRendered(buf, n, hs, fs, other);
    WholeRendered(buf, n, hs, fs);
    RunsPush(Pieces(buf, hs), Tail(buf, n + |RenderAll(fs)|));
  }

  lemma WholeRendered(buf: Text, base: nat, hs: seq<Https.Line>, fs: seq<Field>)
    requires Parses(buf, base, hs, fs)
    ensures Headers(buf, hs) && Kept(buf, hs) == RenderAll(KeptFields(fs)) && LengthIn(buf, hs) == Declared(fs)
    ensures Runs(Pieces(buf, hs)) == StoredRuns(fs) && Reach(Pieces(buf, hs), base + |RenderAll(fs)|, EndsStored(fs))
  {
    hide Kept, LengthIn, Pieces, Runs, KeptFields, Declared, StoredRuns, EndsStored, RenderAll, Laid, Reads;
    KeptRendered(buf, base, hs, fs, |fs|);
    LengthRendered(buf, base, hs, fs, |fs|);
    RunsRendered(buf, base, hs, fs, |fs|);
    assert hs[..|fs|] == hs && fs[..|fs|] == fs;
  }

  // ---------- when the slots suffice ----------

  function Transfers(fs: seq<Field>): nat {
    if fs == [] then 0 else Transfers(fs[..|fs| - 1]) + if Transfer(fs[|fs| - 1].name) then 1 else 0
  }

  lemma {:induction false} RunsBound(fs: seq<Field>)
    ensures StoredRuns(fs) <= Transfers(fs) + if EndsStored(fs) then 1 else 0
  {
    hide Transfer;
    if fs != [] { RunsBound(fs[..|fs| - 1]); }
  }

  /** How often the i-th transfer header occurs. */
  function Times(fs: seq<Field>, i: nat): nat
    requires i < |TRANSFER|
  {
    if fs == [] then 0 else Times(fs[..|fs| - 1], i) + if Same(fs[|fs| - 1].name, TRANSFER[i]) then 1 else 0
  }

  lemma {:induction false} TransfersSum(fs: seq<Field>)
    ensures Transfers(fs) <= Times(fs, 0) + Times(fs, 1) + Times(fs, 2) + Times(fs, 3)
  {
    hide Same;
    if fs != [] { TransfersSum(fs[..|fs| - 1]); }
  }

  /** When every transfer header occurs at most once, five slots are enough. */
  lemma FewSlots(fs: seq<Field>)
    requires forall i :: 0 <= i < |TRANSFER| ==> Times(fs, i) <= 1
    ensures SlotsFor(fs) <= 5
  {
    hide Times, Transfers, StoredRuns, EndsStored;
    TransfersSum(fs);
    RunsBound(fs);
  }

  /** Nothing limits how often Host occurs, though. */
  function Pairs(n: nat): seq<Field> {
    if n == 0 then [] else Pairs(n - 1) + [Field([97], [98]), Field(Ascii("Host"), [120])]
  }

  lemma {:induction false} PairsRuns(n: nat)
    ensures StoredRuns(Pairs(n)) == n && !EndsStored(Pairs(n)) && PairsFine(Pairs(n))
  {
    if n > 0 {
      PairsRuns(n - 1);
      var a, h := Field([97], [98]), Field(Ascii("Host"), [120]);
      var p := Pairs(n - 1);
      assert p + [a, h] == (p + [a]) + [h];
      PairNames();
      hide Transfer, Same, FieldOk, StoredRuns, EndsStored, Ascii;
      StoredPush(p, a);
      StoredPush(p + [a], h);
    }
  }

  /** Good fields, none of which gives a length. */
  ghost predicate PairsFine(fs: seq<Field>) {
    forall f :: f in fs ==> FieldOk(f) && !Same(f.name, TRANSFER[0])
  }

  lemma PairNames()
    ensures !Transfer([97]) && Transfer(Ascii("Host")) && !Same([97], TRANSFER[0]) && !Same(Ascii("Host"), TRANSFER[0])
    ensures FieldOk(Field([97], [98])) && FieldOk(Field(Ascii("Host"), [120]))
  {
    var h := Ascii("Host");
    assert h == [72, 111, 115, 116];
    assert Same(h, TRANSFER[1]);
    forall i | 0 <= i < |TRANSFER| ensures !Same([97], TRANSFER[i]) {
      assert |TRANSFER[i]| > 1;
    }
  }

  /** Ten times a stored header followed by Host needs eleven slots, and such a request is not
      refused otherwise. */
  lemma TenPairsOverrun(other: Https.Line -> bool)
    requires forall h :: other(h)
    ensures var fs := Pairs(10) + [Field(Ascii("Content-Length"), [48])];
            var buf, n := RenderRequest(2, [97], [], fs, []), |RenderFirst(2, [97], [])| + 1;
            SlotsFor(fs) == SLOTS + 1 && n <= |buf| && !Refused(buf, n, other) && Overruns(buf, n, other)
  {
    var c := Field(Ascii("Content-Length"), [48]);
    var p := Pairs(10);
    var fs := p + [c];
    PairsRuns(10);
    LongNames();
    assert fs[..|p|] == p;
    hide StoredRuns, EndsStored, Pairs, FieldOk, Same, Transfer, FieldLength, Overruns, Refused, Unfinished,
      RenderAll, RenderFirst, Ascii, KeptFields, Kept, LengthIn, Scan;
    StoredPush(p, c);
    assert Declared(fs) == 0;
    StoreUnderstood(2, [97], [], fs, [], other);
  }

  // ---------- when the pre-read buffer suffices ----------

  function Fill(n: nat): Text {
    seq(n, _ => 98)
  }

  /** A store of an empty body that fits into the request buffer and whose 200 header line, stored
      headers and empty line do not fit into the pre-read buffer. */
  lemma PrereadOverrun()
    ensures var fs := [Field(Ascii("Content-Length"), [48]), Field([97], Fill(4056))];
            && FieldsOk(fs) && LengthsOk(fs) && Declared(fs) == 0 && SlotsFor(fs) == 1
            && |RenderRequest(2, [97], [], fs, [])| == REQ_BUF_SIZE - 1
            && |Header200(0)| + |RenderAll(KeptFields(fs))| + 2 == REQ_BUF_SIZE + 3
  {
    hide Transfer, Same, FieldOk, FieldsOk, FieldLength, Ascii, Fill, Render, RenderAll, RenderFirst, RenderRequest,
      Header200, KeptFields, Declared, LengthsOk, SlotsFor;
    LongNames();
    TwoFields(Field(Ascii("Content-Length"), [48]), Field([97], Fill(4056)));
    FirstLength();
    RequestLength([Field(Ascii("Content-Length"), [48]), Field([97], Fill(4056))]);
  }

  lemma FirstLength()
    ensures |RenderFirst(2, [97], [])| == 12 && |Header200(0)| == 36
  {
  }

  lemma RequestLength(fs: seq<Field>)
    ensures |RenderRequest(2, [97], [], fs, [])| == |RenderFirst(2, [97], [])| + 1 + |RenderAll(fs)| + 2
  {
    hide RenderFirst, RenderAll;
  }

  /** A length followed by one stored field. */
  lemma TwoFields(c: Field, a: Field)
    requires Transfer(c.name) && Same(c.name, TRANSFER[0]) && FieldLength(c).Some?
    requires !Transfer(a.name) && !Same(a.name, TRANSFER[0])
    ensures var fs := [c, a];
            && LengthsOk(fs) && Declared(fs) == FieldLength(c).value && SlotsFor(fs) == 1
            && (FieldOk(c) && FieldOk(a) ==> FieldsOk(fs))
            && |RenderAll(fs)| == |Render(c)| + |Render(a)| && |RenderAll(KeptFields(fs))| == |Render(a)|
  {
    hide Transfer, Same, FieldOk, FieldLength, Render;
    var fs := [c, a];
    assert fs[..1] == [c] && [c][..0] == [] && fs == [c] + [a] && [c] == [] + [c];
    assert Declared([c]) == FieldLength(c).value;
    StoredPush([], c);
    StoredPush([c], a);
    KeptFieldsPush([], c);
    KeptFieldsPush([c], a);
    assert KeptFields(fs) == [a] && [a][1..] == [] && fs[1..] == [a];
    assert RenderAll([a]) == Render(a) && RenderAll(fs) == Render(c) + RenderAll([a]);
  }

  lemma LongNames()
    ensures var c, a := Field(Ascii("Content-Length"), [48]), Field([97], Fill(4056));
            && Transfer(c.name) && Same(c.name, TRANSFER[0]) && FieldLength(c) == Some(0) && !Transfer(a.name)
               && !Same(a.name, TRANSFER[0])
            && FieldOk(c) && FieldOk(a) && |Render(c)| == 19 && |Render(a)| == 4061
  {
    LengthName();
    PairNames();
    assert [48][..0] == [] && Value([48]) == 0;
    hide Ascii, Same, Transfer;
  }

  lemma LengthName()
    ensures var n := Ascii("Content-Length");
            |n| == 14 && Same(n, TRANSFER[0]) && Transfer(n) && n[0] != SP && Free(n, COLON) && Free(n, CR)
                && Free(n, 0)
  {
    var n := Ascii("Content-Length");
    assert n == [67, 111, 110, 116, 101, 110, 116, 45, 76, 101, 110, 103, 116, 104];
    forall k | 0 <= k < 14 ensures Lower(n[k]) == Lower(Code(TRANSFER[0][k])) {
      AsciiAt("Content-Length", k);
    }
    hide Ascii;
    assert Same(n, TRANSFER[0]);
  }
}
