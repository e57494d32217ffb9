# Vehicle sensor telemetry service — verified model of the ingestion and query core

The service takes motion readings (acceleration and rotation rate) and
position fixes from phones over MQTT. It stores each reading with a
server receipt time in one of two collections, `imu` or `gps`, and it
answers HTTP queries over them: listings, motion statistics, counts,
the latest position, the distinct sessions and the distinct receipt days.

This project models that core in Dafny over an abstract store: two
sequences of documents, in insertion order. The clock (`now`) and the
calendar conversion of receipt instants (`dayOf`) are parameters.

Modules:

- `Wrappers`: `Option` and `Result`.
- `Text`: Python's `int(str)` and the decimal rendering it inverts; code-point string order; zero padding.
- `Ordering`: `sorted(set, reverse=True)` over a strict total order, and uniqueness of a strictly descending listing.
- `Records`: the stored documents, the JSON values a payload may carry, and calendar days with their `YYYY-MM-DD` rendering.
- `Filtering`: the query builder `_build_query`, as a function (`QueryOf`) and as the method that fills the filter key by key (`BuildQuery`).
- `Ingestion`: what `on_message` makes of one message: ignored, unrouted, dropped with a reason, or a stored document.
- `Aggregation`: what each read endpoint computes from the collections.
- `Service`: the `Store` class. `OnMessage` appends to its collections. The endpoint methods read them and fail on an integer BSON cannot hold, and `AvailableDays` collects the day strings into a set in a loop.
- `Scenarios`: small worked cases of the endpoints.

## Model

| member | source | states |
|---|---|---|
| Text.ParseShowInt | app.py:369 | the modelled `int()` reads back the decimal text of every integer, so a numeric limit or session written in decimal is recovered exactly (CPython's 4300-digit conversion limit is not modelled, see Left out) |
| Text.StrLessIsOrder | app.py:243 | Python's string `<` (code-point lexicographic) is a strict total order, so `sorted` on strings is well defined |
| Ordering.SortSetDesc | app.py:362 | `sorted(set, reverse=True)` lists every element of the set exactly once, strictly descending |
| Ordering.DescendingUnique | app.py:362 | two strictly descending listings with the same elements are equal, so the sorted result is determined by the set |
| Records.FormatDay | app.py:361 | the `f"{y:04d}-{m:02d}-{d:02d}"` text is ten characters, digits with dashes at positions 4 and 7 |
| Records.FormatDayFields | app.py:361 | the three digit groups of the day text read back as the year, the month and the day |
| Text.PadValue | app.py:361 | the zero-padded digits of `n` read back as `n` |
| Records.FormatDayOrder | app.py:353-362 | the code-point order on day text agrees with the store's field-by-field order on `{y, m, d}` keys, and distinct days give distinct text |
| Filtering.QueryOf | app.py:367-392 | limit 2000 by default, otherwise the parsed integer, which the builder does not cap (the endpoints check the driver's 64-bit range); an absent, empty or `"all"` selector adds no session constraint, integer text selects only that number, other text selects only that exact string; a given `minutes` gives exactly `received_at >= now - 60*minutes` and ignores the absolute bounds; otherwise each given bound is inclusive on its own; each `ValueError` arises exactly when its parameter is malformed and no earlier parameter failed |
| Filtering.LimitOf | app.py:369 | the limit is 2000 when absent, the parsed integer when the text parses, and `ValueError` exactly when it does not |
| Filtering.SessionConstraint | app.py:372-376 | an ignored selector matches every session, integer text matches only that number, other text matches only that exact string |
| Filtering.WindowOf | app.py:379-390 | a given `minutes` succeeds with exactly the trailing bound (the `OverflowError` for a window start outside years 1-9999 is not modelled, see Left out); otherwise each given absolute bound applies inclusively on its own; each error arises exactly when its parameter is the first malformed one |
| Filtering.BuildQuery | app.py:367-392 | filling the query one key at a time, with early exits on a malformed parameter, yields exactly `QueryOf` |
| Filtering.NumericSelector | app.py:372-376 | the decimal text of `n` as selector constrains the session to the number `n`, and that filter selects a stored session iff it is `n` |
| Filtering.DigitTextSessionUnselectable | app.py:372-376 | a session stored as digit text (ingestion copies it unparsed, app.py:121) is never selected by any session constraint the builder produces |
| Filtering.FiveMinuteWindowBoundary | app.py:379-382 | with `minutes=5` a document received exactly 300 s before `now` is in the window and one received 301 s before is not |
| Ingestion.Required | app.py:122-124 | `payload[outer][inner]` yields the number iff the outer key holds an object with the inner key; a missing outer key is a `KeyError` naming it, then a missing inner key names the inner key |
| Ingestion.GyroAxis | app.py:125-127 | a rotation axis is 0 when `gyro` is absent, its own value or 0 independently per axis when `gyro` is an object, and an error otherwise |
| Ingestion.Ingest | app.py:97-147 | a retained message is ignored; a document is stored iff the message is fresh, its payload is an object shaped for its topic and every integer of the document fits BSON's signed 64 bits, and the insert succeeds; a document with an integer outside that range is dropped as unencodable; the topic decides the kind; `received_at` is the one `now`; `timestamp` and `session` are copied as sent; acceleration and position are the payload's values; each rotation axis defaults to 0 independently; a missing `acc` or `gps` is reported by that key |
| Service.Store.OnMessage | app.py:118-142 | the outcome is `Ingest`'s; a stored motion document is appended to `imu` alone, a stored position to `gps` alone, and otherwise neither collection changes; each collection keeps holding only its own kind |
| Aggregation.Select | app.py:255-256 | the `$match`/`find` result holds each matching document as often as the collection does, and nothing else |
| Aggregation.SortByTime | app.py:257 | `.sort("received_at", 1)` gives non-decreasing receipt times and the same documents |
| Aggregation.Listing | app.py:255-259 | only matching documents of the collection, in non-decreasing receipt time, as many as the limit keeps (0 keeps all, a negative limit counts by its absolute value), never more than a positive limit, and nothing cut off is earlier than anything kept |
| Service.Store.GetImu | app.py:248-264 | the builder's error; otherwise an overflow error when a numeric session constraint or the absolute limit lies outside the signed 64-bit range; otherwise the listing of `imu` under the built query |
| Service.Store.GetGps | app.py:294-310 | the builder's error; otherwise an overflow error when a numeric session constraint or the absolute limit lies outside the signed 64-bit range; otherwise the listing of `gps` under the built query |
| Aggregation.Summarize | app.py:278-283 | per axis: min and max are values of the axis and bound all of them, `min <= avg <= max`, `avg * count = sum`, and a single value `v` gives avg = min = max = v |
| Aggregation.Group | app.py:275-284 | the group's count is the number of documents; for every axis `avg` is the axis total over that count, `min <= avg <= max`, every value lies in `[min, max]`, min and max are attained, and one document gives its own values |
| Aggregation.Stats | app.py:273-289 | empty iff no document matches; otherwise count is the number of matching documents, and for every axis `avg` is the total of the matching documents' values over their number, `min <= avg <= max`, every matching value lies in `[min, max]`, both are attained by matching documents, and with one match avg = min = max = its value |
| Service.Store.ImuStats | app.py:266-291 | the builder's error (the limit is parsed though unused); otherwise an overflow error when a numeric session constraint lies outside the signed 64-bit range; otherwise `Stats` of `imu` under the built filter |
| Aggregation.CountAppend | app.py:334-335 | storing one more document raises `count_documents` by one for the filters it matches and leaves the others unchanged |
| Aggregation.CountAll | app.py:334-335 | the empty filter counts every document |
| Service.Store.Summary | app.py:326-338 | the builder's error; otherwise an overflow error when a numeric session constraint lies outside the signed 64-bit range; otherwise the counts of both collections under the one built filter |
| Service.OversizedSessionSelector | app.py:372-376 | the decimal text of an integer outside the signed 64-bit range passes the builder as a numeric session constraint that the driver cannot encode |
| Aggregation.Latest | app.py:318-321 | none iff the collection is empty; otherwise a stored document with the greatest receipt time |
| Service.Store.GpsLatest | app.py:312-323 | none iff `gps` is empty; otherwise a position in `gps` received no earlier than any other |
| Aggregation.Sessions | app.py:241-243 | `TypeError` (unhashable) iff some session is an object; `TypeError` (unorderable) iff otherwise two sessions are of different kinds; else exactly the distinct sessions of both collections, each once, strictly descending by Python's `<` |
| Service.Store.Sessions | app.py:234-246 | the sorted union of both collections' distinct sessions, as `Aggregation.Sessions` states it |
| Aggregation.RecentDays | app.py:347-357 | exactly min(90, number of receipt days) days, strictly descending, all receipt days of the collection, every dropped day older than every kept one, and all days kept when there are at most 90 |
| Aggregation.AvailableDays | app.py:347-362 | strictly descending `YYYY-MM-DD` strings, none repeated, exactly the renderings of the two collections' recent days, at most 180 of them |
| Aggregation.DaysChronological | app.py:358-362 | an earlier position in the days list holds a later calendar day |
| Service.CollectDays | app.py:358-361 | adding the text of each listed day to a set, one day at a time, yields the set of the texts of all listed days |
| Service.Store.AvailableDays | app.py:341-364 | adding the rendered recent days of both collections to a set one by one and sorting it gives `Aggregation.AvailableDays` |
| Scenarios.NumericSessionsOrder | app.py:241-243 | numeric sessions 7 and 12 list as `[12, 7]` |
| Scenarios.TextSessionsOrder | app.py:241-243 | text sessions `"7"` and `"12"` list as `["7", "12"]` |
| Scenarios.SessionSevenStored | app.py:118-130 | a motion payload for session 7 with acceleration (1, 2, 3) and no `gyro` is stored as exactly that reading with zero rotation and receipt time `now`, unless its timestamp carries an integer outside the signed 64-bit range, which drops it |
| Scenarios.SessionSevenSelected | app.py:372-376 | the selector `"7"` builds a query that matches a document iff its session is the number 7 |
| Scenarios.TwoDays | app.py:347-362 | positions received on two different days give exactly those two days, the later first |

## Left out

- Flask routing and serving: `index`, `health`, JSON responses and the HTTP 500 wrapping. Each endpoint method returns the builder's error as a value instead.
- The `mongo_db is None` guard in each endpoint and in `on_message` (app.py:114-116, where it drops the message), and the `mongo_ready` wait in `on_message`: these concern startup and concurrency. A failed insert is the `writeOk` parameter of `OnMessage`.
- MQTT transport and subscription (`start_mqtt`, `on_connect`, `on_disconnect`), which is network I/O. Logging (`print`) is also left out.
- `json.loads` and UTF-8 decoding: the model takes the decoded payload. Undecodable text is `Malformed`, and a decoded non-object is `NonObject`.
- Payload values are limited to null, integers, strings and objects of integers. Floats, booleans, arrays and nested non-numeric members are not modelled, and neither is the float `0.0` default: rotation defaults to the integer 0.
- Ingestion.Ingest: an `acc`/`gps` member that is not a number (a string, say) is stored as sent by the source. The model has no such value, because object members are integers.
- `int()` on non-ASCII digits and whitespace; `float(minutes)` with a fraction (`minutes` is a whole number); `datetime.fromisoformat` (bounds arrive decoded, or as `Malformed`).
- UTC calendar conversion of `received_at`: the model takes it as the parameter `dayOf`.
- Instants are whole seconds; sub-second receipt times are not modelled.
- `serialize` and the in-place `received_at.isoformat()` rewrite of listed documents. They only render an ObjectId and a datetime as text, and the model carries neither representation.
- Aggregation.Listing: a negative pymongo limit also closes the cursor after one batch; only its count semantics are modelled.
- Filtering.WindowOf and Filtering.QueryOf: `datetime.now(timezone.utc) - timedelta(minutes=...)` raises `OverflowError` when the window start falls outside years 1-9999 (app.py:381). Instants carry no calendar range here, so a given `minutes` always yields a bound.
- Text.ParseInt: CPython's `int()` raises `ValueError` on decimal text of more than 4300 digits (its integer string conversion limit). The model parses text of any length. A very long `limit` therefore parses instead of failing, and a very long numeric `session` selects a number instead of falling back to the text.
- Aggregation.SortByTime and Aggregation.Latest: the store leaves the order of equal receipt times open. The model fixes one order (store order, and the last stored for the latest), and no contract depends on it.
- The field projections of the listing endpoints, which drop `_id` and keep every modelled field.

Behaviour of the code worth knowing:

- The code does not parse `session` at ingestion. It stores the value as sent (app.py:121, 136), while the query builder converts digit text to a number (app.py:372-376). A session published as the text `"7"` can therefore never be selected (`Filtering.DigitTextSessionUnselectable`).
- Sessions are sorted with Python's own `<`, not a numeric-aware comparator: text sessions sort by code point (`Scenarios.TextSessionsOrder`), and sessions of different kinds raise `TypeError` (`Aggregation.Sessions`).
- The 90-day cap applies to each collection before the union, so `/api/days` can return up to 180 days (`Aggregation.AvailableDays`).
