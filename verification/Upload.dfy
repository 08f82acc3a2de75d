/** An upload from the parsed request to the stored item: the pre-read part and the body loop of
    request.c, on the cache. */
module Uploads {
  import opened Lists
  import opened Life
  import opened LifeInv
  import opened LifeRuns
  import opened Responses
  import opened CacheModel
  import opened Caches
  import opened Https

  /** A request that has just got its item. */
  ghost predicate Begun(c: Cache, r: ReqId, contentLength: nat, headersLen: nat)
    reads c
  {
    && r in c.reqs && c.reqs[r].Put? && c.reqs[r].processed == 0 && !c.reqs[r].diskError && c.reqs[r].item in c.items
    && var it := c.items[c.reqs[r].item];
       it.place.length == contentLength + headersLen && it.headersLen == headersLen && it.image == []
  }

  /** The length that the parser records covers the 200 header line, the stored headers and the
      empty line. */
  function HeadLength(contentLength: nat, kept: Text): nat {
    |Header200(contentLength)| + |kept| + 2
  }

  /** Nothing behind the end of an item is written, and what was processed is what was written. */
  lemma WholeItem(st: State, r: ReqId)
    requires Inv(st) && r in st.reqs && st.reqs[r].Put? && st.reqs[r].item in st.items
    ensures st.reqs[r].processed == |st.items[st.reqs[r].item].image| <= st.items[st.reqs[r].item].place.length
  {
    hide Placed, Hashed, Held, Sends, DevUse, Counted, Logged, Slice;
    assert OnDisk(st.items[st.reqs[r].item], st.disk);
  }

  lemma FirstWrite(v: State, r: ReqId, data: seq<Byte>)
    requires CanWrite(v, r, data) && v.reqs[r].processed == 0 && v.items[v.reqs[r].item].image == []
    ensures var w := Write(v, r, data); var i := v.reqs[r].item;
            && r in w.reqs && w.reqs[r] == Put(i, |data|, false) && i in w.items
            && w.items[i].image == data && w.items[i].place == v.items[i].place
               && w.items[i].headersLen == v.items[i].headersLen
  {
    hide WriteAt;
    assert [] + data == data;
  }

  lemma FailedWrite(v: State, r: ReqId, data: seq<Byte>)
    requires CanWrite(v, r, data)
    ensures var w := WriteFail(v, r, data); r in w.reqs && w.reqs[r].item == v.reqs[r].item
  {
    hide WriteAt;
  }

  /** request_put_read_request_body_preread and the body loop after it. None stands for a pre-read
      part that does not fit into its buffer, which happens exactly when its length says so. When
      the upload is complete the item holds exactly the stored response, with a body as long as
      declared. `kept` and `preread` are what the parser found. */
  method ReceiveBody(c: Cache, r: ReqId, buf: Text, segs: seq<Segment>, contentLength: nat,
                     ghost kept: Text, ghost preread: Text, ok: bool, torn: Text, events: seq<Recv>)
    returns (res: Option<BodyResult>, ghost used: nat)
    requires c.Valid() && Inside(buf, segs) && Joined(buf, segs) == kept + ([CR, LF] + preread)
             && |preread| <= contentLength
    requires Begun(c, r, contentLength, HeadLength(contentLength, kept))
    requires |torn| <= HeadLength(contentLength, kept) + |preread|
    requires forall k :: 0 <= k < |events| && events[k].Data? ==> |events[k].torn| <= |events[k].bytes|
    modifies c`disk, c`items, c`reqs
    ensures c.Valid() && Reaches(old(c.View()), c.View())
    ensures r in c.reqs && c.reqs[r].item == old(c.reqs)[r].item && used <= |events|
    ensures res.None? <==> HeadLength(contentLength, kept) + |preread| > REQ_BUF_SIZE
    ensures res.None? ==> c.View() == old(c.View())
    ensures res == Some(Complete) ==>
              var body := preread + Arrived(events[..used]);
              |body| == contentLength && c.reqs[r].item in c.items && Uploaded(c.items[c.reqs[r].item], kept, body)
  {
    hide Cache.Valid, Reaches, Header200, Joined, Image, Arrived, Write, WriteFail, CanWrite, DevView, CountView;
    used := 0;
    ReachesSelf(c.View());
    var text := Preread(buf, segs, contentLength);
    if text.None? {
      return None, used;
    }
    ViewInv(c);
    MayWrite(c.View(), r, text.value);
    ghost var v := c.View();
    c.WriteDisk(r, text.value, ok, torn);
    ghost var w := c.View();
    if !ok {
      FailedWrite(v, r, torn);
      return Some(DiskError), used;
    }
    FirstWrite(v, r, text.value);
    var b;
    b, used := c.PutBody(r, events);
    ReachesTrans(v, w, c.View());
    ViewInv(c);
    if b == Complete {
      WholeItem(c.View(), r);
      Assembled(contentLength, kept, preread, Arrived(events[..used]));
    }
    res := Some(b);
  }

  /** The item holds a stored response. */
  ghost predicate Uploaded(it: Item, kept: Text, body: Text) {
    && it.image == Image(kept, body) && it.place.length == |it.image| && it.headersLen == |it.image| - |body|
  }

  lemma Assembled(contentLength: nat, kept: Text, preread: Text, later: Text)
    requires |Header200(contentLength)| + |kept| + 2 + |preread| + |later|
             == contentLength + |Header200(contentLength)| + |kept| + 2
    ensures |preread + later| == contentLength
    ensures Header200(contentLength) + (kept + ([CR, LF] + preread)) + later == Image(kept, preread + later)
  {
    hide Header200, Image;
    StoredImage(kept, preread, later);
  }

  /** An uploaded item is served: whatever else happens meanwhile, a GET or HEAD that finds it and
      has sent all of its plan has sent the answer to what it asked for. The length and the header
      length in the plan are those of the item, which is how Cache.GetHandler makes it. */
  lemma UploadServed(st: State, i: ItemId, kept: Text, body: Text, before: seq<Step>, mid: State, g: ReqId, want: Want,
      after: seq<Step>, st': State)
    requires Inv(st) && i in st.items && Uploaded(st.items[i], kept, body) && WantOk(want)
    requires Path(st, before, mid) && Lasts(st, before, i)
    requires Getting(mid, g, i, Plan(want, |Image(kept, body)|, |Image(kept, body)| - |body|), after, st')
    ensures i in mid.items && mid.items[i].place.length == |Image(kept, body)|
    ensures mid.items[i].headersLen == |Image(kept, body)| - |body|
    ensures g in st'.reqs && st'.reqs[g].Get?
    ensures st'.reqs[g].at == |st'.reqs[g].plan| ==> st'.reqs[g].sent == Answer(want, kept, body)
  {
    hide Inv, Path, Lasts, Getting, Plan, Expected, Answer, Image, Shaped;
    CompleteServed(st, before, mid, g, i, Plan(want, |Image(kept, body)|, |Image(kept, body)| - |body|), after, st');
    PlanServes(want, kept, body);
  }
}
