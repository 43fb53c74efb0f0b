/**
 * Open events, the persisted event log, and the state change one tracking
 * request makes to it.
 */
module Events {
  import opened Wrappers

  /**
   * One stored open event: a JSON object with the keys `tid`, `cid`, `ts`,
   * `ip` and `ua`. A record read back from storage may lack any of them.
   */
  datatype Event = Event(
    tid: Option<string>,
    cid: Option<string>,
    ts: Option<string>,
    ip: Option<string>,
    ua: Option<string>)

  /** `e.get('cid', '')`: the campaign the query filters on. */
  function CidOf(e: Event): (cid: string)
    ensures e.cid.Some? ==> cid == e.cid.value
    ensures e.cid.None? ==> cid == ""
  {
    e.cid.GetOr("")
  }

  /** `e.get('ts', '')`: the timestamp the query filters on. */
  function TsOf(e: Event): (ts: string)
    ensures e.ts.Some? ==> ts == e.ts.value
    ensures e.ts.None? ==> ts == ""
  {
    e.ts.GetOr("")
  }

  /**
   * The persisted document: absent; `Malformed`, a read that raises `IOError`
   * or `json.JSONDecodeError`; or a list of events.
   */
  datatype Document = Missing | Malformed | Stored(events: seq<Event>)

  /** `load_events`: the stored list, and the empty log for a missing or malformed document. */
  function Load(doc: Document): (log: seq<Event>)
    ensures doc.Stored? ==> log == doc.events
    ensures !doc.Stored? ==> log == []
  {
    match doc
    case Stored(events) => events
    case _ => []
  }

  /** The parameters and headers of one `/track` request; `None` is an absent one. */
  datatype TrackRequest = TrackRequest(
    tid: Option<string>,
    cid: Option<string>,
    forwardedFor: Option<string>,
    remoteAddr: string,
    userAgent: Option<string>)

  /**
   * The event a `/track` request records, taken at time `now`: nothing when
   * the `tid` parameter is absent or empty.
   */
  function EventOf(req: TrackRequest, now: string): (r: Option<Event>)
    ensures r.None? <==> req.tid.GetOr("") == ""
    ensures r.Some? ==>
      r.value.tid == req.tid &&
      CidOf(r.value) == req.cid.GetOr("") && r.value.cid.Some? &&
      TsOf(r.value) == now && r.value.ts.Some? &&
      r.value.ip == Some(if req.forwardedFor.Some? then req.forwardedFor.value else req.remoteAddr) &&
      r.value.ua == Some(req.userAgent.GetOr(""))
  {
    var tid := req.tid.GetOr("");
    if tid == "" then None
    else
      Some(Event(
        Some(tid),
        Some(req.cid.GetOr("")),
        Some(now),
        Some(req.forwardedFor.GetOr(req.remoteAddr)),
        Some(req.userAgent.GetOr(""))))
  }

  /**
   * The document after one `/track` request: load, append at the end, save.
   * If there is nothing to record, or saving fails, the document is as it was.
   */
  function AfterTrack(doc: Document, req: TrackRequest, now: string, saved: bool): (r: Document)
    ensures r == doc || r.Stored?
    ensures Load(r) == Load(doc) + Added(req, now, saved)
  {
    match EventOf(req, now)
    case None => doc
    case Some(e) => if saved then Stored(Load(doc) + [e]) else doc
  }

  /** The event one request adds to the log: none without a `tid` or when saving fails. */
  function Added(req: TrackRequest, now: string, saved: bool): seq<Event>
  {
    match EventOf(req, now)
    case Some(e) => if saved then [e] else []
    case None => []
  }

  /**
   * The append rule: a request with a `tid` whose save succeeds puts exactly
   * its event at the end of the log, every earlier event unchanged and in
   * order; any other request leaves the document as it was.
   */
  lemma TrackAppends(doc: Document, req: TrackRequest, now: string, saved: bool)
    ensures req.tid.GetOr("") == "" || !saved ==> AfterTrack(doc, req, now, saved) == doc
    ensures req.tid.GetOr("") != "" && saved ==>
      var log := Load(AfterTrack(doc, req, now, saved));
      |log| == |Load(doc)| + 1 &&
      log[..|Load(doc)|] == Load(doc) &&
      log[|Load(doc)|] == EventOf(req, now).value
  {
  }

  /** A request recorded on a missing or unreadable document starts a new log of one event. */
  lemma TrackReplacesUnreadable(doc: Document, req: TrackRequest, now: string)
    requires !doc.Stored? && req.tid.GetOr("") != ""
    ensures AfterTrack(doc, req, now, true) == Stored([EventOf(req, now).value])
  {
  }

  /** One tracking request, with the clock reading and the outcome of its save. */
  datatype Hit = Hit(req: TrackRequest, now: string, saved: bool)

  /** The document after a series of tracking requests, each done under the lock, one after another. */
  function AfterTracks(doc: Document, hits: seq<Hit>): Document
    decreases |hits|
  {
    if hits == [] then doc
    else AfterTracks(AfterTrack(doc, hits[0].req, hits[0].now, hits[0].saved), hits[1..])
  }

  /** The events a series of requests adds, in request order. */
  function AddedAll(hits: seq<Hit>): seq<Event>
    decreases |hits|
  {
    if hits == [] then []
    else Added(hits[0].req, hits[0].now, hits[0].saved) + AddedAll(hits[1..])
  }

  /**
   * No lost updates: when each load-append-save runs without interleaving,
   * the final log is the first one followed by every recorded event, in order.
   */
  lemma {:induction false} SerialTracksKeepAll(doc: Document, hits: seq<Hit>)
    ensures Load(AfterTracks(doc, hits)) == Load(doc) + AddedAll(hits)
    decreases |hits|
  {
    if hits == [] {
      assert Load(doc) + [] == Load(doc);
    } else {
      var h := hits[0];
      var next := AfterTrack(doc, h.req, h.now, h.saved);
      assert Load(next) == Load(doc) + Added(h.req, h.now, h.saved);
      SerialTracksKeepAll(next, hits[1..]);
      assert Load(doc) + Added(h.req, h.now, h.saved) + AddedAll(hits[1..])
          == Load(doc) + (Added(h.req, h.now, h.saved) + AddedAll(hits[1..]));
    }
  }

  /** N requests, each with a `tid` and a successful save, add exactly N events. */
  lemma {:induction false} SerialTracksCount(doc: Document, hits: seq<Hit>)
    requires forall i :: 0 <= i < |hits| ==> hits[i].req.tid.GetOr("") != "" && hits[i].saved
    ensures |Load(AfterTracks(doc, hits))| == |Load(doc)| + |hits|
  {
    SerialTracksKeepAll(doc, hits);
    AddedAllLength(hits);
  }

  lemma {:induction false} AddedAllLength(hits: seq<Hit>)
    requires forall i :: 0 <= i < |hits| ==> hits[i].req.tid.GetOr("") != "" && hits[i].saved
    ensures |AddedAll(hits)| == |hits|
    decreases |hits|
  {
    if hits != [] {
      AddedAllLength(hits[1..]);
    }
  }
}
