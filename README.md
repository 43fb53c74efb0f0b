# Open-tracking core of the Stillport Apps server

This project models the email-open tracking part of `app.py`. It covers three things:

- **`/track`** takes the query parameters `tid` and `cid`. When `tid` is non-empty, it loads the persisted event log, appends one open event `{tid, cid, ts, ip, ua}` to it, and saves it. Whatever happens, it replies with the same 1x1 GIF and no-cache headers.
- **`/events`** refuses a caller whose `key` does not match a configured `TRACKER_KEY`. Otherwise it returns the loaded log, filtered by a comma-separated campaign list `cids` and by a strict string comparison `ts > since`.
- **`/health`** reports how many events the loaded log holds.

The modules are:

- `Wrappers`: optional values.
- `Strings`: Python's `str.split` on one character, and Python's ordering of `str`.
- `Events`: the event record, the stored document and its empty-on-failure load, plus the state change one tracking request makes.
- `Query`: the key gate, `cids` parsing, and the filters. Their reference result is `Select`.
- `Pixel`: the fixed GIF reply.
- `Store`: the class `EventStore`. It holds the persisted document, and its methods are the three handlers.

These parts of the environment are passed in as parameters:

- the request's parameters and headers (`None` means absent);
- the `TRACKER_KEY` environment variable;
- the clock reading (`now`, the string `utcnow().isoformat() + 'Z'` would give);
- whether the file write succeeds (`saveSucceeds`).

The persisted file is a value of `Document`, with three cases: `Missing`, `Malformed` (a read that raises `IOError` or `json.JSONDecodeError`, the two errors `load_events` catches), or `Stored(events)`.

Some behaviours of the code that follow from the model:

- `cids` pieces are not trimmed: `"a, b"` gives `"a"` and `" b"` (`Query.ParseCids`).
- Any non-empty `cids` turns the campaign filter on, even `","`. That value splits into two empty pieces, so it selects exactly the events whose `cid` is empty or absent.
- An open recorded with a `cid` that contains a comma can never be listed by campaign. The pieces of `cids` never contain a comma, so `cids=a,b` gives `a` and `b`, and neither equals `a,b` (`Query.CommaCampaignNeverListed`).
- `PIXEL_GIF`'s graphic control extension has packed byte `0x00`, so no colour is transparent and the single pixel is colour 0, white (`Pixel.TrackResponse` states `!DeclaresTransparency`).

## Model

| member | source | states |
|---|---|---|
| Strings.Split | app.py:136 | `str.split(',')` always gives at least one piece, no piece contains the separator, and joining the pieces with the separator gives back the input |
| Strings.SplitJoin | app.py:136 | splitting inverts joining when no piece holds the separator, so the pieces of `cids` are exactly the raw, untrimmed segments between commas |
| Strings.SplitSingle | app.py:136 | a string without a comma splits into itself alone |
| Strings.Less | app.py:143 | Python's `<` on `str`: a proper prefix sorts before the longer string, and no string sorts before one of its own prefixes (itself included) |
| Strings.Greater | app.py:143 | Python's `>` on `str`: when it holds, the left side is non-empty and not below the right; when it fails, the two are equal or the left is below |
| Strings.NothingBelowEmpty | app.py:143 | no string sorts before `''`, so `'' > since` never holds |
| Strings.LessIrreflexive | app.py:143 | Python's `str` order is irreflexive: `ts > ts` never holds |
| Strings.LessTransitive | app.py:143 | the `str` order is transitive |
| Strings.LessTotal | app.py:143 | the `str` order is total: two distinct strings are always ordered one way or the other |
| Strings.LessIsLexicographic | app.py:143 | the recursive order equals the textbook definition: proper prefix, or a smaller code point at the first difference |
| Events.CidOf | app.py:141 | `e.get('cid', '')`: the stored `cid` when the key is present, `''` when it is absent |
| Events.TsOf | app.py:143 | `e.get('ts', '')`: the stored `ts` when the key is present, `''` when it is absent |
| Events.Load | app.py:94-101 | `load_events` returns the stored list, and the empty log for a missing file or a read that raises `IOError` or `JSONDecodeError` |
| Events.AfterTrack | app.py:121-124 | the load-append-save step leaves the document as it was or saves a list; the log it leads to is the old log followed by the request's event, or by nothing when `tid` is empty or the save fails |
| Events.EventOf | app.py:112-120 | no event exactly when `tid` is absent or empty; otherwise the event's `tid` is the request's, its `cid` is the parameter or `''`, its `ts` is the clock reading, its `ip` is `X-Forwarded-For` when present else the remote address, and its `ua` is `User-Agent` or `''` |
| Events.TrackAppends | app.py:112-124 | an empty `tid` or a failed save leaves the document exactly as it was; otherwise the new log is one longer, its prefix is the old log unchanged, and its last element is the request's event |
| Events.TrackReplacesUnreadable | app.py:94-101 | recording on a missing or malformed document saves a log holding just the new event |
| Events.SerialTracksKeepAll | app.py:121-124 | with each load-append-save done under the lock one after another, the final log is the initial log followed by every recorded event in request order (no lost updates) |
| Events.SerialTracksCount | app.py:121-124 | N requests, each with a `tid` and a successful save, add exactly N events |
| Query.Filter | app.py:140-143 | a list comprehension keeps every element that passes the test, with its multiplicity, and nothing else |
| Query.FilterIsSubsequence | app.py:140-143 | a comprehension's result is a subsequence of its input, in the input's order |
| Query.FilterTwice | app.py:140-143 | the two comprehensions applied in turn equal one comprehension over the conjunction of their tests |
| Query.FilterSnoc | app.py:140-143 | filtering a list with one more element at the end adds that element exactly when it passes |
| Query.ParseCids | app.py:136 | `cids` yields no campaign list exactly when it is absent or empty; otherwise the pieces joined by commas rebuild it, and no piece holds a comma |
| Query.CampaignFilter | app.py:141 | the campaign comprehension keeps exactly the log's events whose `cid` (default `''`) is among the pieces, in the log's order |
| Query.SinceFilter | app.py:143 | the since comprehension keeps exactly the log's events whose `ts` (default `''`) sorts strictly after `since`, in the log's order |
| Query.StagedFiltersSelect | app.py:140-143 | applying the campaign filter only when `cids` is non-empty, and then the since filter only when `since` is non-empty, gives the single-pass reference result `Select` |
| Query.SelectIsSubsequence | app.py:140-143 | every query result is a subsequence of the loaded log, in the log's order |
| Query.SelectAll | app.py:136-144 | with no `cids` and an empty `since`, the result is the entire log |
| Query.SelectAfterAppend | app.py:121-143 | after one append, the query result is the old result, followed by the new event when that event passes both filters |
| Query.LaterSinceNarrows | app.py:142-143 | a later `since` keeps only events that an earlier `since` (the empty one included) also keeps |
| Query.UntimedEventsNeedNoSince | app.py:142-143 | when `since` is given, an event without `ts` (read as `''`) is never returned |
| Query.SingleCampaign | app.py:136-141 | a comma-free campaign name as `cids` selects exactly the events whose `cid` (default `''`) equals it |
| Query.CommaCampaignNeverListed | app.py:136-141 | an event whose `cid` contains a comma is never selected by a non-empty `cids`, because no piece of the split contains a comma |
| Query.Authorised | app.py:133-134 | the key check passes exactly when `TRACKER_KEY` is unset or empty, or the supplied `key` equals it |
| Pixel.TrackResponse | app.py:87-129 | status 200 with mimetype `image/gif`. The body is the 43 bytes of a 1x1 GIF89a image: signature, a 1x1 screen and trailer, and no transparent colour is declared. The `Cache-Control`, `Pragma` and `Expires` headers carry the no-cache values |
| Store.EventStore.Save | app.py:103-108 | `save_events` replaces the document with the given list; when the write fails, the document stays as it was |
| Store.EventStore.Track | app.py:110-129 | the reply is always the pixel response; the new document is `AfterTrack` of the old one, and the new log is the old log followed by the request's event, or by nothing when `tid` is empty or the save fails |
| Store.EventStore.GetEvents | app.py:131-144 | 403 with the message `Invalid API key` exactly when `TRACKER_KEY` is set and non-empty and `key` (default `''`) differs from it; otherwise 200 with `Select` of the loaded log. That result is a subsequence of the log, and an event is in it exactly when it is in the log and passes both filters |
| Store.EventStore.Health | app.py:146-153 | status `ok`, the service name, and the given timestamp; `events_count` equals the length of the loaded log, which is also the length of the unfiltered query result |
| Store.RecordedOpenIsListed | app.py:110-144 | after an open for a comma-free campaign is recorded, listing that campaign returns the previous result followed by the new event |

## Left out

- The `/`, `/crm` and `/outreach` routes (app.py:29-80) are left out. They serve static HTML and files only.
- Flask, CORS, `jsonify` and JSON serialisation are left out. Requests and replies are datatypes, and the `/events` body is the list of event values.
- Real file I/O, `json.load` and `json.dump` are left out. The file is a `Document` value.
- Events.Load: it does not model the read errors that `load_events` does not catch (app.py:99). A file that does not decode as text raises `UnicodeDecodeError`, and a very deeply nested array raises `RecursionError`. Either escapes `load_events`, so `/track` fails before it sends the pixel, and `/events` and `/health` fail too. The model has no error result for these.
- A JSON document that parses but is not a list of string-valued objects is not modelled. Neither is a record whose values are not strings (a `null` `ts` would make Python's `>` raise). Stored records are `Event` values whose keys may be absent.
- A write that fails part-way and leaves a truncated file is not distinguished. A failed save leaves the document unchanged.
- `threading.Lock` and concurrency are not modelled. Each load-append-save is one atomic step, and a series of requests is run one after another (`Events.AfterTracks`).
- The clock `datetime.utcnow()` is a string parameter. Its ISO-8601 format is not checked, so the claim that string order matches time order is not part of the model.
- Flask's `request.remote_addr` is modelled as always a string. In Flask it can be `None`.
- The `print` logging in `track` and `save_events`, and the `__main__` server start-up, are left out.
- Headers that Flask adds by itself (`Content-Type`, `Content-Length`) are left out.
