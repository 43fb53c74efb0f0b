/**
 * The `/events` query: the API-key gate, the parsing of `cids`, and the
 * campaign and since filters over the loaded log.
 */
module Query {
  import opened Wrappers
  import opened Strings
  import opened Events

  /** `[x for x in s if p(x)]`. */
  function Filter<T(!new)>(s: seq<T>, p: T -> bool): (r: seq<T>)
    ensures forall x :: multiset(r)[x] == if p(x) then multiset(s)[x] else 0
    ensures forall x :: x in r <==> x in s && p(x)
    decreases |s|
  {
    if s == [] then []
    else
      var rest := Filter(s[1..], p);
      assert s == [s[0]] + s[1..];
      if p(s[0]) then [s[0]] + rest else rest
  }

  /** `a` is obtained from `b` by deleting elements; what is left keeps its order. */
  ghost predicate IsSubsequence<T>(a: seq<T>, b: seq<T>)
    decreases |b|
  {
    a == [] ||
    (b != [] && (IsSubsequence(a, b[1..]) || (a[0] == b[0] && IsSubsequence(a[1..], b[1..]))))
  }

  lemma {:induction false} FilterIsSubsequence<T(!new)>(s: seq<T>, p: T -> bool)
    ensures IsSubsequence(Filter(s, p), s)
    decreases |s|
  {
    if s != [] {
      FilterIsSubsequence(s[1..], p);
      if p(s[0]) {
        assert Filter(s, p)[1..] == Filter(s[1..], p);
      }
    }
  }

  /** Filters with the same test give the same result. */
  lemma {:induction false} FilterSameTest<T(!new)>(s: seq<T>, p: T -> bool, q: T -> bool)
    requires forall x :: p(x) == q(x)
    ensures Filter(s, p) == Filter(s, q)
    decreases |s|
  {
    if s != [] {
      FilterSameTest(s[1..], p, q);
    }
  }

  /** A filter that keeps everything keeps the whole sequence. */
  lemma {:induction false} FilterKeepsAll<T(!new)>(s: seq<T>, p: T -> bool)
    requires forall x :: p(x)
    ensures Filter(s, p) == s
    decreases |s|
  {
    if s != [] {
      FilterKeepsAll(s[1..], p);
      assert s == [s[0]] + s[1..];
    }
  }

  /** Filtering twice is filtering once by both tests. */
  lemma {:induction false} FilterTwice<T(!new)>(s: seq<T>, p: T -> bool, q: T -> bool, pq: T -> bool)
    requires forall x :: pq(x) == (p(x) && q(x))
    ensures Filter(Filter(s, p), q) == Filter(s, pq)
    decreases |s|
  {
    if s != [] {
      FilterTwice(s[1..], p, q, pq);
      if p(s[0]) {
        assert Filter(s, p)[1..] == Filter(s[1..], p);
      }
    }
  }

  /** Filtering a log with one more event at the end. */
  lemma {:induction false} FilterSnoc<T(!new)>(s: seq<T>, x: T, p: T -> bool)
    ensures Filter(s + [x], p) == Filter(s, p) + (if p(x) then [x] else [])
    decreases |s|
  {
    if s == [] {
      assert [] + [x] == [x];
    } else {
      assert (s + [x])[1..] == s[1..] + [x];
      FilterSnoc(s[1..], x, p);
    }
  }

  /** `cids.split(',') if cids else []`: raw, untrimmed pieces; absent or empty means no filter. */
  function ParseCids(cids: Option<string>): (r: seq<string>)
    ensures r == [] <==> cids.GetOr("") == ""
    ensures r != [] ==> Join(r, ',') == cids.value
    ensures forall i :: 0 <= i < |r| ==> ',' !in r[i]
  {
    if cids.GetOr("") == "" then [] else Split(cids.value, ',')
  }

  /** The campaign test: no campaigns listed, or the event's `cid` (default '') is one of them. */
  predicate CampaignMatches(e: Event, cids: seq<string>)
  {
    cids == [] || CidOf(e) in cids
  }

  /** The since test: no `since`, or the event's `ts` (default '') sorts strictly after it. */
  predicate SinceMatches(e: Event, since: string)
  {
    since == "" || Greater(TsOf(e), since)
  }

  predicate Selected(e: Event, cids: seq<string>, since: string)
  {
    CampaignMatches(e, cids) && SinceMatches(e, since)
  }

  /** The reference result of a query: one pass over the log keeping the selected events. */
  function Select(log: seq<Event>, cids: seq<string>, since: string): seq<Event>
  {
    Filter(log, e => Selected(e, cids, since))
  }

  /** `[e for e in events if e.get('cid', '') in cids]`. */
  function CampaignFilter(log: seq<Event>, cids: seq<string>): (r: seq<Event>)
    ensures forall e :: e in r <==> e in log && CidOf(e) in cids
    ensures IsSubsequence(r, log)
  {
    FilterIsSubsequence(log, e => CidOf(e) in cids);
    Filter(log, e => CidOf(e) in cids)
  }

  /** `[e for e in events if e.get('ts', '') > since]`. */
  function SinceFilter(log: seq<Event>, since: string): (r: seq<Event>)
    ensures forall e :: e in r <==> e in log && Greater(TsOf(e), since)
    ensures IsSubsequence(r, log)
  {
    FilterIsSubsequence(log, e => Greater(TsOf(e), since));
    Filter(log, e => Greater(TsOf(e), since))
  }

  /**
   * The code's filtering, which applies each filter only when its parameter is
   * given, computes the reference result.
   */
  lemma StagedFiltersSelect(log: seq<Event>, cids: seq<string>, since: string)
    ensures
      var byCampaign := if cids != [] then CampaignFilter(log, cids) else log;
      (if since != "" then SinceFilter(byCampaign, since) else byCampaign) == Select(log, cids, since)
  {
    var sel := e => Selected(e, cids, since);
    if cids != [] && since != "" {
      FilterTwice(log, e => CidOf(e) in cids, e => Greater(TsOf(e), since), sel);
    } else if cids != [] {
      FilterSameTest(log, e => CidOf(e) in cids, sel);
    } else if since != "" {
      FilterSameTest(log, e => Greater(TsOf(e), since), sel);
    } else {
      FilterKeepsAll(log, sel);
    }
  }

  /** Every query result is the log with some events deleted, in the log's order. */
  lemma SelectIsSubsequence(log: seq<Event>, cids: seq<string>, since: string)
    ensures IsSubsequence(Select(log, cids, since), log)
  {
    FilterIsSubsequence(log, e => Selected(e, cids, since));
  }

  /** A query with no campaign list and no `since` returns the whole log. */
  lemma SelectAll(log: seq<Event>)
    ensures Select(log, [], "") == log
  {
    FilterKeepsAll(log, e => Selected(e, [], ""));
  }

  /** Appending an event extends a query's result by that event exactly when it is selected. */
  lemma SelectAfterAppend(log: seq<Event>, e: Event, cids: seq<string>, since: string)
    ensures Select(log + [e], cids, since) ==
      Select(log, cids, since) + (if Selected(e, cids, since) then [e] else [])
  {
    FilterSnoc(log, e, x => Selected(x, cids, since));
  }

  /** A later `since` narrows the result: whatever it keeps, an earlier `since` keeps too. */
  lemma LaterSinceNarrows(log: seq<Event>, cids: seq<string>, since: string, later: string)
    requires Less(since, later)
    ensures forall e :: e in Select(log, cids, later) ==> e in Select(log, cids, since)
  {
    forall e | e in Select(log, cids, later)
      ensures e in Select(log, cids, since)
    {
      if since != "" {
        LessTransitive(since, later, TsOf(e));
      }
    }
  }

  /** With `since` given, an event without a timestamp is never returned. */
  lemma UntimedEventsNeedNoSince(e: Event, cids: seq<string>, since: string)
    requires e.ts.None? && since != ""
    ensures !Selected(e, cids, since)
  {
    NothingBelowEmpty(since);
  }

  /** A single campaign name without a comma selects exactly the events of that campaign. */
  lemma {:induction false} SingleCampaign(e: Event, cid: string)
    requires cid != "" && ',' !in cid
    ensures Selected(e, ParseCids(Some(cid)), "") <==> CidOf(e) == cid
  {
    SplitSingle(cid, ',');
  }

  /**
   * A campaign name holding a comma can never be listed by any `cids`
   * parameter: its pieces never hold a comma.
   */
  lemma CommaCampaignNeverListed(e: Event, cids: Option<string>, since: string)
    requires ',' in CidOf(e) && cids.GetOr("") != ""
    ensures !Selected(e, ParseCids(cids), since)
  {
  }

  /**
   * `TRACKER_KEY` (default '') gates the query: unset or empty lets every
   * caller in; otherwise the `key` parameter (default '') must equal it.
   */
  function Authorised(trackerKey: Option<string>, key: Option<string>): (ok: bool)
    ensures ok <==> trackerKey.None? || trackerKey.value == "" || key == trackerKey
  {
    var apiKey := trackerKey.GetOr("");
    apiKey == "" || key.GetOr("") == apiKey
  }

  const InvalidKeyMessage := "Invalid API key"

  /** What `/events` returns: a 403 with an error object, or a 200 with a list of events. */
  datatype EventsReply =
    | Rejected(status: int, error: string)
    | Listed(status: int, events: seq<Event>)

  /** The query parameters of one `/events` request; `None` is an absent one. */
  datatype EventsRequest = EventsRequest(key: Option<string>, cids: Option<string>, since: Option<string>)
}
