/**
 * The query filter builder (`_build_query`, app.py:367-392): request
 * parameters become a document filter on `session` and `received_at`,
 * plus a result limit.
 */
module Filtering {
  import opened Wrappers
  import opened Text
  import opened Records

  const DefaultLimit := 2000
  const SecondsPerMinute := 60

  /** A decoded request parameter. `Absent` covers both a missing parameter
      and the empty string (both are falsy where the builder tests them);
      `Malformed` is text that `float(...)` or `fromisoformat(...)` rejects. */
  datatype Param<T> = Absent | Malformed | Given(value: T)

  /** The request parameters. `limit` and `session` are raw text, converted
      with Python's `int`; `minutes` is the trailing window in minutes and
      `fromDt`/`toDt` are the absolute bounds. */
  datatype Args = Args(
    limit: Option<string>,
    session: Option<string>,
    minutes: Param<int>,
    fromDt: Param<Instant>,
    toDt: Param<Instant>)

  /** The value a session constraint compares stored sessions against. */
  datatype SessionKey = Numeric(n: int) | Textual(s: string)

  /** `{"session": k, "received_at": {"$gte": since, "$lte": until}}`, each
      part present only when set. */
  datatype Filter = Filter(session: Option<SessionKey>, since: Option<Instant>, until: Option<Instant>)

  datatype Query = Query(filter: Filter, limit: int)

  /** The `ValueError`s the builder lets escape, in the order it meets them. */
  datatype QueryError = BadLimit | BadMinutes | BadFrom | BadTo

  /** The filter with no constraint at all. */
  const MatchAll := Filter(None, None, None)

  /** The store's equality match of a stored `session` value against an
      optional constraint. */
  predicate KeyMatches(k: Option<SessionKey>, v: Json) {
    match k
    case None => true
    case Some(Numeric(n)) => v == Num(n)
    case Some(Textual(t)) => v == Str(t)
  }

  predicate SessionSelected(f: Filter, v: Json) {
    KeyMatches(f.session, v)
  }

  /** The inclusive `$gte`/`$lte` bounds on `received_at`. */
  predicate Within(since: Option<Instant>, until: Option<Instant>, t: Instant) {
    (since.None? || since.value <= t) && (until.None? || t <= until.value)
  }

  predicate InWindow(f: Filter, t: Instant) {
    Within(f.since, f.until, t)
  }

  predicate Matches(f: Filter, r: Reading) {
    SessionSelected(f, r.session) && InWindow(f, r.receivedAt)
  }

  /** A selector is ignored when it is absent, empty or `"all"`. */
  predicate IgnoredSelector(sel: Option<string>) {
    sel.None? || sel.value == "" || sel.value == "all"
  }

  function SessionConstraint(sel: Option<string>): (k: Option<SessionKey>)
    ensures IgnoredSelector(sel) ==> forall v :: KeyMatches(k, v)
    ensures !IgnoredSelector(sel) && ParseInt(sel.value).Some? ==>
      forall v :: KeyMatches(k, v) <==> v == Num(ParseInt(sel.value).value)
    ensures !IgnoredSelector(sel) && ParseInt(sel.value).None? ==>
      forall v :: KeyMatches(k, v) <==> v == Str(sel.value)
  {
    if IgnoredSelector(sel) then None
    else match ParseInt(sel.value)
      case Some(n) => Some(Numeric(n))
      case None => Some(Textual(sel.value))
  }

  function LimitOf(raw: Option<string>): (r: Result<int, QueryError>)
    ensures raw.None? ==> r == Ok(DefaultLimit)
    ensures raw.Some? ==> (r.Ok? <==> ParseInt(raw.value).Some?)
    ensures raw.Some? && r.Ok? ==> ParseInt(raw.value) == Some(r.value)
    ensures r.Err? ==> r.error == BadLimit
  {
    match raw
    case None => Ok(DefaultLimit)
    case Some(text) =>
      match ParseInt(text)
      case Some(n) => Ok(n)
      case None => Err(BadLimit)
  }

  /** The `received_at` bounds: a trailing window wins over the absolute
      bounds, which are then not even read. */
  function WindowOf(args: Args, now: Instant): (r: Result<(Option<Instant>, Option<Instant>), QueryError>)
    ensures args.minutes.Given? ==> r.Ok?
    ensures args.minutes.Given? && r.Ok? ==>
      forall t :: Within(r.value.0, r.value.1, t) <==> now - SecondsPerMinute * args.minutes.value <= t
    ensures args.minutes.Absent? && r.Ok? ==>
      forall t :: Within(r.value.0, r.value.1, t) <==>
        (args.fromDt.Given? ==> args.fromDt.value <= t) && (args.toDt.Given? ==> t <= args.toDt.value)
    ensures r == Err(BadMinutes) <==> args.minutes.Malformed?
    ensures r == Err(BadFrom) <==> args.minutes.Absent? && args.fromDt.Malformed?
    ensures r == Err(BadTo) <==> args.minutes.Absent? && !args.fromDt.Malformed? && args.toDt.Malformed?
    ensures r.Err? ==> r.error != BadLimit
  {
    match args.minutes
    case Given(m) => Ok((Some(now - SecondsPerMinute * m), None))
    case Malformed => Err(BadMinutes)
    case Absent =>
      if args.fromDt.Malformed? then Err(BadFrom)
      else if args.toDt.Malformed? then Err(BadTo)
      else Ok((if args.fromDt.Given? then Some(args.fromDt.value) else None,
               if args.toDt.Given? then Some(args.toDt.value) else None))
  }

  /** What the builder returns for `args` at server time `now`. */
  function QueryOf(args: Args, now: Instant): (r: Result<Query, QueryError>)
    // the limit: 2000 by default, otherwise the given integer, with no ceiling
    ensures r.Ok? && args.limit.None? ==> r.value.limit == DefaultLimit
    ensures r.Ok? && args.limit.Some? ==> ParseInt(args.limit.value) == Some(r.value.limit)
    // the session selector
    ensures r.Ok? && IgnoredSelector(args.session) ==>
      forall v :: SessionSelected(r.value.filter, v)
    ensures r.Ok? && !IgnoredSelector(args.session) && ParseInt(args.session.value).Some? ==>
      forall v :: SessionSelected(r.value.filter, v) <==> v == Num(ParseInt(args.session.value).value)
    ensures r.Ok? && !IgnoredSelector(args.session) && ParseInt(args.session.value).None? ==>
      forall v :: SessionSelected(r.value.filter, v) <==> v == Str(args.session.value)
    // the time window
    ensures r.Ok? && args.minutes.Given? ==>
      forall t :: InWindow(r.value.filter, t) <==> now - SecondsPerMinute * args.minutes.value <= t
    ensures r.Ok? && args.minutes.Absent? ==>
      forall t :: InWindow(r.value.filter, t) <==>
        (args.fromDt.Given? ==> args.fromDt.value <= t) && (args.toDt.Given? ==> t <= args.toDt.value)
    // the errors, in the order the builder raises them
    ensures r == Err(BadLimit) <==> args.limit.Some? && ParseInt(args.limit.value).None?
    ensures r == Err(BadMinutes) <==> LimitOf(args.limit).Ok? && args.minutes.Malformed?
    ensures r == Err(BadFrom) <==> LimitOf(args.limit).Ok? && args.minutes.Absent? && args.fromDt.Malformed?
    ensures r == Err(BadTo) <==>
      LimitOf(args.limit).Ok? && args.minutes.Absent? && !args.fromDt.Malformed? && args.toDt.Malformed?
  {
    match LimitOf(args.limit)
    case Err(e) => Err(e)
    case Ok(limit) =>
      match WindowOf(args, now)
      case Err(e) => Err(e)
      case Ok((since, until)) => Ok(Query(Filter(SessionConstraint(args.session), since, until), limit))
  }

  /** The builder itself, filling the filter one key at a time. */
  method BuildQuery(args: Args, now: Instant) returns (r: Result<Query, QueryError>)
    ensures r == QueryOf(args, now)
  {
    var limit := DefaultLimit;
    if args.limit.Some? {
      var n := ParseInt(args.limit.value);
      if n.None? {
        return Err(BadLimit);
      }
      limit := n.value;
    }
    assert LimitOf(args.limit) == Ok(limit);

    var session: Option<SessionKey> := None;
    if !IgnoredSelector(args.session) {
      var n := ParseInt(args.session.value);
      if n.Some? {
        session := Some(Numeric(n.value));
      } else {
        session := Some(Textual(args.session.value));
      }
    }
    assert session == SessionConstraint(args.session);

    var since: Option<Instant> := None;
    var until: Option<Instant> := None;
    if args.minutes.Given? {
      since := Some(now - SecondsPerMinute * args.minutes.value);
    } else if args.minutes.Malformed? {
      return Err(BadMinutes);
    } else {
      if args.fromDt.Given? {
        since := Some(args.fromDt.value);
      } else if args.fromDt.Malformed? {
        return Err(BadFrom);
      }
      if args.toDt.Given? {
        until := Some(args.toDt.value);
      } else if args.toDt.Malformed? {
        return Err(BadTo);
      }
    }
    assert WindowOf(args, now) == Ok((since, until));
    r := Ok(Query(Filter(session, since, until), limit));
  }

  /** A selector that is the decimal text of `n` selects exactly the
      documents whose session is the number `n`. */
  lemma {:induction false} NumericSelector(n: int, v: Json)
    ensures SessionConstraint(Some(ShowInt(n))) == Some(Numeric(n))
    ensures SessionSelected(Filter(Some(Numeric(n)), None, None), v) <==> v == Num(n)
  {
    ParseShowInt(n);
    ShowIntEndsInDigit(n);
    DigitEndNotIgnored(ShowInt(n));
  }

  /** The decimal text of an integer ends in a digit. */
  lemma ShowIntEndsInDigit(n: int)
    ensures ShowInt(n) != [] && IsDigit(ShowInt(n)[|ShowInt(n)| - 1])
  {
    var digits := if n < 0 then ShowNat(-n) else ShowNat(n);
    assert ShowInt(n)[|ShowInt(n)| - 1] == digits[|digits| - 1];
  }

  /** Text ending in a digit is neither empty nor `"all"`. */
  lemma DigitEndNotIgnored(text: string)
    requires text != [] && IsDigit(text[|text| - 1])
    ensures !IgnoredSelector(Some(text))
  {
    assert !IsDigit("all"[2]);
  }

  /** Ingestion stores `session` as sent, without the numeric conversion the
      builder applies: a session sent as digit text (`"7"`) is never
      selected by any session constraint the builder can produce. */
  lemma DigitTextSessionUnselectable(sel: Option<string>, t: string, f: Filter)
    requires ParseInt(t).Some?
    requires f.session == SessionConstraint(sel) && f.session.Some?
    ensures !SessionSelected(f, Str(t))
  {
  }

  /** A five-minute trailing window includes a document received exactly
      five minutes ago and excludes one received a second earlier. */
  lemma FiveMinuteWindowBoundary(args: Args, now: Instant)
    requires args.minutes == Given(5) && QueryOf(args, now).Ok?
    ensures InWindow(QueryOf(args, now).value.filter, now - 300)
    ensures !InWindow(QueryOf(args, now).value.filter, now - 301)
  {
  }
}
