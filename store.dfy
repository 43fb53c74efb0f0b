/**
 * The three request handlers over the persisted event log. The log lives in
 * one document that every handler loads afresh; `track` rewrites it whole.
 */
module Store {
  import opened Wrappers
  import opened Strings
  import opened Events
  import opened Query
  import opened Pixel

  datatype HealthReply = HealthReply(status: string, service: string, eventsCount: nat, timestamp: string)

  const ServiceName := "Stillport Apps Server"

  class EventStore {
    /** The persisted document holding the event log. */
    var document: Document

    constructor (initial: Document)
      ensures document == initial
    {
      document := initial;
    }

    /** The log as `load_events` reads it. */
    function Log(): seq<Event>
      reads this
    {
      Load(document)
    }

    /** `save_events`: the document becomes `events`, or stays as it was if the write fails. */
    method Save(events: seq<Event>, succeeds: bool)
      modifies this
      ensures document == if succeeds then Stored(events) else old(document)
    {
      if succeeds {
        document := Stored(events);
      }
    }

    /**
     * `/track`: with a `tid`, build the event and load, append, save as one
     * step; in every case reply with the pixel.
     */
    method Track(req: TrackRequest, now: string, saveSucceeds: bool) returns (reply: PixelReply)
      modifies this
      ensures reply == TrackResponse()
      ensures document == AfterTrack(old(document), req, now, saveSucceeds)
      ensures Log() == old(Log()) + Added(req, now, saveSucceeds)
    {
      var tid := req.tid.GetOr("");
      var cid := req.cid.GetOr("");
      if tid != "" {
        var event := Event(
          Some(tid), Some(cid), Some(now),
          Some(req.forwardedFor.GetOr(req.remoteAddr)),
          Some(req.userAgent.GetOr("")));
        var events := Load(document);
        events := events + [event];
        Save(events, saveSucceeds);
      }
      reply := TrackResponse();
    }

    /**
     * `/events`: refuse a caller without the configured key; otherwise load the
     * log and apply the campaign filter and then the since filter, each only
     * when its parameter is given.
     */
    method GetEvents(trackerKey: Option<string>, q: EventsRequest) returns (reply: EventsReply)
      ensures reply.Rejected? <==> !Authorised(trackerKey, q.key)
      ensures reply.Rejected? ==> reply.status == 403 && reply.error == InvalidKeyMessage
      ensures reply.Listed? ==> reply.status == 200
      ensures reply.Listed? ==> reply.events == Select(Log(), ParseCids(q.cids), q.since.GetOr(""))
      ensures reply.Listed? ==> IsSubsequence(reply.events, Log())
      ensures reply.Listed? ==> forall e ::
        e in reply.events <==> e in Log() && Selected(e, ParseCids(q.cids), q.since.GetOr(""))
    {
      var apiKey := trackerKey.GetOr("");
      if apiKey != "" && q.key.GetOr("") != apiKey {
        return Rejected(403, InvalidKeyMessage);
      }
      var cids := ParseCids(q.cids);
      var since := q.since.GetOr("");
      var events := Load(document);
      if cids != [] {
        events := CampaignFilter(events, cids);
      }
      if since != "" {
        events := SinceFilter(events, since);
      }
      StagedFiltersSelect(Log(), cids, since);
      SelectIsSubsequence(Log(), cids, since);
      reply := Listed(200, events);
    }

    /** `/health`: report the number of events in the loaded log. */
    method Health(now: string) returns (reply: HealthReply)
      ensures reply.status == "ok" && reply.service == ServiceName && reply.timestamp == now
      ensures reply.eventsCount == |Log()|
      ensures reply.eventsCount == |Select(Log(), [], "")|
    {
      var events := Load(document);
      SelectAll(events);
      reply := HealthReply("ok", ServiceName, |events|, now);
    }
  }

  /**
   * An open recorded for a campaign shows up, at the end, in the query for that
   * campaign: tracking `tid`/`cid` and then listing `cids=cid` returns what it
   * returned before followed by the new event.
   */
  lemma RecordedOpenIsListed(doc: Document, req: TrackRequest, now: string)
    requires req.tid.GetOr("") != ""
    requires req.cid.GetOr("") != "" && ',' !in req.cid.GetOr("")
    ensures
      var cids := ParseCids(Some(req.cid.GetOr("")));
      Select(Load(AfterTrack(doc, req, now, true)), cids, "") ==
        Select(Load(doc), cids, "") + [EventOf(req, now).value]
  {
    var e := EventOf(req, now).value;
    var cids := ParseCids(Some(req.cid.GetOr("")));
    SingleCampaign(e, req.cid.GetOr(""));
    SelectAfterAppend(Load(doc), e, cids, "");
  }

  /**
   * A client of the store: on an empty store, an open of `tid=abc&cid=camp1`
   * followed by `/events?cids=camp1` lists exactly that one open.
   */
  method TrackThenList(now: string)
  {
    var store := new EventStore(Missing);
    var req := TrackRequest(Some("abc"), Some("camp1"), None, "203.0.113.7", Some("Mail"));
    var pixel := store.Track(req, now, true);
    assert pixel.status == 200;
    var reply := store.GetEvents(None, EventsRequest(None, Some("camp1"), None));
    assert Load(Missing) == [];
    SelectAfterAppend([], EventOf(req, now).value, ParseCids(Some("camp1")), "");
    SingleCampaign(EventOf(req, now).value, "camp1");
    assert reply.Listed?;
    assert reply.events == [EventOf(req, now).value];
    assert reply.events[0].tid == Some("abc") && CidOf(reply.events[0]) == "camp1";
    assert TsOf(reply.events[0]) == now;
  }
}
