/**
 * The service's state and its operations: the two collections the MQTT
 * handler appends to, and the read-only HTTP endpoints over them.
 */
module Service {
  import opened Wrappers
  import opened Text
  import opened Ordering
  import opened Records
  import opened Filtering
  import opened Ingestion
  import Aggregation

  /** The loop of `available_days`: the text of each listed day added to
      a set, one day at a time. */
  method CollectDays(recent: seq<Day>) returns (days: set<string>)
    requires forall d :: d in recent ==> ValidDay(d)
    ensures days == set d | d in recent :: FormatDay(d)
  {
    days := {};
    for i := 0 to |recent|
      invariant days == set k | 0 <= k < i :: FormatDay(recent[k])
    {
      days := days + {FormatDay(recent[i])};
    }
    IndexedImage(recent);
  }

  lemma IndexedImage(recent: seq<Day>)
    requires forall d :: d in recent ==> ValidDay(d)
    ensures (set k | 0 <= k < |recent| :: FormatDay(recent[k])) == set d | d in recent :: FormatDay(d)
  {
    var image := set d | d in recent :: FormatDay(d);
    var indexed := set k | 0 <= k < |recent| :: FormatDay(recent[k]);
    forall s | s in image ensures s in indexed {
      var d :| d in recent && s == FormatDay(d);
      var k :| 0 <= k < |recent| && recent[k] == d;
    }
  }

  /** Why an endpoint answers HTTP 500: a `ValueError` from the builder, or
      the driver's `OverflowError` on an integer BSON cannot hold. */
  datatype RequestError = BadQuery(cause: QueryError) | Int64Overflow

  /** The driver can encode the filter: a numeric session constraint fits
      in 64 bits (text and instants always encode). */
  predicate FilterEncodable(f: Filter) {
    f.session.Some? && f.session.value.Numeric? ==> FitsInt64(f.session.value.n)
  }

  /** `find(...).limit(n)` also sends `abs(n)`, which must fit in 64 bits. */
  predicate ListingEncodable(q: Query) {
    FilterEncodable(q.filter) && Aggregation.Abs(q.limit) < Int64Bound
  }

  /** A session selector whose decimal value lies outside the 64-bit range
      is accepted by the builder but cannot be sent to the store. */
  lemma {:induction false} OversizedSessionSelector(n: int, args: Args, now: Instant)
    requires !FitsInt64(n) && args.session == Some(ShowInt(n))
    requires QueryOf(args, now).Ok?
    ensures QueryOf(args, now).value.filter.session == Some(Numeric(n))
    ensures !FilterEncodable(QueryOf(args, now).value.filter)
  {
    NumericSelector(n, Null);
  }

  /** The `imu` and `gps` collections, in insertion order. */
  class Store {
    var imu: seq<Reading>
    var gps: seq<Reading>

    /** Each collection holds only documents of its own kind. */
    ghost predicate Valid()
      reads this
    {
      (forall x :: x in imu ==> x.Motion?) && (forall x :: x in gps ==> x.Position?)
    }

    constructor()
      ensures Valid()
      ensures imu == [] && gps == []
    {
      imu := [];
      gps := [];
    }

    /** `on_message`: handles one message received at `now`; `writeOk`
        says whether the store accepts the insert. */
    method OnMessage(msg: Message, now: Instant, writeOk: bool) returns (o: Outcome)
      requires Valid()
      modifies this
      ensures Valid()
      ensures o == Ingest(msg, now, writeOk)
      ensures o.Stored? && msg.topic == ImuTopic ==> imu == old(imu) + [o.doc] && gps == old(gps)
      ensures o.Stored? && msg.topic == GpsTopic ==> gps == old(gps) + [o.doc] && imu == old(imu)
      ensures !o.Stored? ==> imu == old(imu) && gps == old(gps)
    {
      if msg.retain {
        return Retained;
      }
      match msg.payload {
        case Malformed =>
          o := Dropped(BadPayload);
        case NonObject =>
          o := if msg.topic == ImuTopic || msg.topic == GpsTopic then Dropped(BadPayload) else Unrouted;
        case Object(fields) =>
          if msg.topic == ImuTopic {
            o := Write(MotionDoc(fields, now), writeOk);
            if o.Stored? {
              imu := imu + [o.doc];
            }
          } else if msg.topic == GpsTopic {
            o := Write(PositionDoc(fields, now), writeOk);
            if o.Stored? {
              gps := gps + [o.doc];
            }
          } else {
            o := Unrouted;
          }
      }
    }

    /** `/api/imu`: the motion documents the query selects, oldest first,
        cut to the limit. */
    method GetImu(args: Args, now: Instant) returns (r: Result<seq<Reading>, RequestError>)
      ensures QueryOf(args, now).Err? ==> r == Err(BadQuery(QueryOf(args, now).error))
      ensures QueryOf(args, now).Ok? && !ListingEncodable(QueryOf(args, now).value) ==> r == Err(Int64Overflow)
      ensures QueryOf(args, now).Ok? && ListingEncodable(QueryOf(args, now).value) ==>
        r == Ok(Aggregation.Listing(imu, QueryOf(args, now).value))
    {
      var q := BuildQuery(args, now);
      if q.Err? {
        return Err(BadQuery(q.error));
      }
      if !ListingEncodable(q.value) {
        return Err(Int64Overflow);
      }
      r := Ok(Aggregation.Listing(imu, q.value));
    }

    /** `/api/imu/stats`: count, mean, least and greatest of every axis
        over the selected motion documents; the limit is parsed but unused. */
    method ImuStats(args: Args, now: Instant) returns (r: Result<Option<Aggregation.Aggregate>, RequestError>)
      requires Valid()
      ensures QueryOf(args, now).Err? ==> r == Err(BadQuery(QueryOf(args, now).error))
      ensures QueryOf(args, now).Ok? && !FilterEncodable(QueryOf(args, now).value.filter) ==> r == Err(Int64Overflow)
      ensures QueryOf(args, now).Ok? && FilterEncodable(QueryOf(args, now).value.filter) ==>
        r == Ok(Aggregation.Stats(imu, QueryOf(args, now).value.filter))
    {
      var q := BuildQuery(args, now);
      if q.Err? {
        return Err(BadQuery(q.error));
      }
      if !FilterEncodable(q.value.filter) {
        return Err(Int64Overflow);
      }
      r := Ok(Aggregation.Stats(imu, q.value.filter));
    }

    /** `/api/gps`. */
    method GetGps(args: Args, now: Instant) returns (r: Result<seq<Reading>, RequestError>)
      ensures QueryOf(args, now).Err? ==> r == Err(BadQuery(QueryOf(args, now).error))
      ensures QueryOf(args, now).Ok? && !ListingEncodable(QueryOf(args, now).value) ==> r == Err(Int64Overflow)
      ensures QueryOf(args, now).Ok? && ListingEncodable(QueryOf(args, now).value) ==>
        r == Ok(Aggregation.Listing(gps, QueryOf(args, now).value))
    {
      var q := BuildQuery(args, now);
      if q.Err? {
        return Err(BadQuery(q.error));
      }
      if !ListingEncodable(q.value) {
        return Err(Int64Overflow);
      }
      r := Ok(Aggregation.Listing(gps, q.value));
    }

    /** `/api/gps/latest`: the most recently received position, if any. */
    method GpsLatest() returns (r: Option<Reading>)
      requires Valid()
      ensures r.None? <==> gps == []
      ensures r.Some? ==> r.value in gps && r.value.Position?
      ensures r.Some? ==> forall x :: x in gps ==> x.receivedAt <= r.value.receivedAt
    {
      r := Aggregation.Latest(gps);
    }

    /** `/api/summary`: how many documents of each collection the query
        selects; the limit is parsed but unused. */
    method Summary(args: Args, now: Instant) returns (r: Result<Aggregation.Counts, RequestError>)
      ensures QueryOf(args, now).Err? ==> r == Err(BadQuery(QueryOf(args, now).error))
      ensures QueryOf(args, now).Ok? && !FilterEncodable(QueryOf(args, now).value.filter) ==> r == Err(Int64Overflow)
      ensures QueryOf(args, now).Ok? && FilterEncodable(QueryOf(args, now).value.filter) ==>
        r == Ok(Aggregation.Summary(imu, gps, QueryOf(args, now).value.filter))
    {
      var q := BuildQuery(args, now);
      if q.Err? {
        return Err(BadQuery(q.error));
      }
      if !FilterEncodable(q.value.filter) {
        return Err(Int64Overflow);
      }
      r := Ok(Aggregation.Summary(imu, gps, q.value.filter));
    }

    /** `/api/sessions`. */
    method Sessions() returns (r: Result<seq<Json>, Aggregation.SessionsError>)
      ensures r == Aggregation.Sessions(imu, gps)
    {
      r := Aggregation.Sessions(imu, gps);
    }

    /** `/api/days`: the recent days of both collections collected into a
        set of `YYYY-MM-DD` strings one by one, then sorted newest first. */
    method AvailableDays(dayOf: Instant -> Day) returns (r: seq<string>)
      requires Aggregation.DaysRenderable(imu, gps, dayOf)
      ensures r == Aggregation.AvailableDays(imu, gps, dayOf)
    {
      var recent := Aggregation.RecentDays(imu, dayOf) + Aggregation.RecentDays(gps, dayOf);
      Aggregation.RecentDaysValid(imu, gps, dayOf);
      var days := CollectDays(recent);
      assert days == Aggregation.DayStrings(imu, gps, dayOf);
      StrLessIsOrder();
      r := SortSetDesc(days, StrLess);
    }
  }
}
