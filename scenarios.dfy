/**
 * Worked cases: what the handler and the endpoints give on small,
 * concrete collections.
 */
module Scenarios {
  import opened Wrappers
  import opened Text
  import opened Ordering
  import opened Records
  import opened Filtering
  import opened Ingestion
  import opened Aggregation

  /** Python's `<` on sessions is irreflexive and transitive. */
  lemma PyLessStrict()
    ensures forall a :: !PyLess(a, a)
    ensures forall a, b, c :: PyLess(a, b) && PyLess(b, c) ==> PyLess(a, c)
  {
    StrLessIsOrder();
  }

  /** A descending listing of a two-element set is the two of them, the
      greater first. */
  lemma PairDescending(r: seq<Json>, hi: Json, lo: Json)
    requires PyLess(lo, hi)
    requires forall v :: v in r <==> v == hi || v == lo
    requires forall i, j :: 0 <= i < j < |r| ==> PyLess(r[j], r[i])
    ensures r == [hi, lo]
  {
    PyLessStrict();
    assert hi in r && lo in r;
    var i :| 0 <= i < |r| && r[i] == hi;
    var j :| 0 <= j < |r| && r[j] == lo;
    // the greater one is first, the smaller second, and nothing follows
    assert r[0] in r;
    assert i == 0;
    assert r[1] in r;
    assert j == 1;
    assert forall k :: 0 <= k < |r| ==> r[k] in r;
  }

  /** Numeric sessions 7 and 12 list as 12, then 7. */
  lemma NumericSessionsOrder(imu: seq<Reading>, gps: seq<Reading>)
    requires DistinctSessions(imu, gps) == {Num(7), Num(12)}
    ensures Sessions(imu, gps) == Ok([Num(12), Num(7)])
  {
    var all := DistinctSessions(imu, gps);
    assert forall v, w :: v in all && w in all ==> SameKind(v, w);
    PairDescending(Sessions(imu, gps).value, Num(12), Num(7));
  }

  /** Text sessions "7" and "12", which is how a handler that stores the
      session unparsed keeps them, list in code-point order: "7" first. */
  lemma TextSessionsOrder(imu: seq<Reading>, gps: seq<Reading>)
    requires DistinctSessions(imu, gps) == {Str("7"), Str("12")}
    ensures Sessions(imu, gps) == Ok([Str("7"), Str("12")])
  {
    var all := DistinctSessions(imu, gps);
    assert forall v, w :: v in all && w in all ==> SameKind(v, w);
    TwelveBeforeSeven();
    PairDescending(Sessions(imu, gps).value, Str("7"), Str("12"));
  }

  /** A motion message for session 7 without rotation rates is stored with
      zero rotation and its acceleration as sent, unless its timestamp
      carries an integer BSON cannot hold. */
  lemma SessionSevenStored(t: Json, now: Instant)
    ensures
      var fields := map["timestamp" := t, "session" := Num(7), "acc" := Obj(map["x" := 1, "y" := 2, "z" := 3])];
      var o := Ingest(Message(ImuTopic, false, Object(fields)), now, true);
      && o == if JsonFits(t) then Stored(Motion(t, Num(7), 1, 2, 3, 0, 0, 0, now)) else Dropped(Unencodable)
  {
    var fields := map["timestamp" := t, "session" := Num(7), "acc" := Obj(map["x" := 1, "y" := 2, "z" := 3])];
    assert MotionShape(fields);
  }

  /** The selector `"7"` picks exactly the documents whose session is the
      number 7, whenever they were received. */
  lemma SessionSevenSelected(now: Instant, args: Args, x: Reading)
    requires args == Args(None, Some("7"), Absent, Absent, Absent)
    ensures QueryOf(args, now).Ok?
    ensures Matches(QueryOf(args, now).value.filter, x) <==> x.session == Num(7)
  {
    SevenParses();
  }

  /** As text, "12" comes before "7": the first characters decide. */
  lemma TwelveBeforeSeven()
    ensures StrLess("12", "7")
  {
    assert "12"[0] == '1' && "7"[0] == '7';
  }

  /** `int("7") == 7`. */
  lemma SevenParses()
    ensures ParseInt("7") == Some(7)
  {
    ParseShowInt(7);
    assert ShowInt(7) == "7" by {
      assert ShowNat(7) == [DigitChar(7)];
    }
  }

  /** The receipt days of two positions. */
  lemma DaysOfPair(p: Reading, q: Reading, dayOf: Instant -> Day)
    ensures DaysOf([p, q], dayOf) == {dayOf(p.receivedAt), dayOf(q.receivedAt)}
  {
    var ds := DaysOf([p, q], dayOf);
    assert p in [p, q] && q in [p, q];
    forall d | d in ds ensures d == dayOf(p.receivedAt) || d == dayOf(q.receivedAt) {
      var x :| x in [p, q] && dayOf(x.receivedAt) == d;
    }
  }

  /** The days listed for an empty motion collection and two positions. */
  lemma RecentPair(imu: seq<Reading>, p: Reading, q: Reading, dayOf: Instant -> Day)
    requires imu == []
    ensures forall d :: d in RecentDays(imu, dayOf) + RecentDays([p, q], dayOf) <==>
      d == dayOf(p.receivedAt) || d == dayOf(q.receivedAt)
  {
    DaysOfPair(p, q, dayOf);
    assert |DaysOf([p, q], dayOf)| <= DaysPerCollection;
    assert DaysOf(imu, dayOf) == {};
  }

  /** Positions received on two days (2 and 5 January 2024, say) give the
      two days, the later first. */
  lemma TwoDays(imu: seq<Reading>, p: Reading, q: Reading, dayOf: Instant -> Day, early: Day, late: Day)
    requires imu == []
    requires ValidDay(early) && ValidDay(late) && DayLess(early, late)
    requires dayOf(p.receivedAt) == early && dayOf(q.receivedAt) == late
    ensures DaysRenderable(imu, [p, q], dayOf)
    ensures AvailableDays(imu, [p, q], dayOf) == [FormatDay(late), FormatDay(early)]
  {
    var gps := [p, q];
    assert DaysRenderable(imu, gps, dayOf) by {
      forall x | x in imu + gps ensures ValidDay(dayOf(x.receivedAt)) {
        assert x == p || x == q;
      }
    }
    RecentPair(imu, p, q, dayOf);
    var recent := RecentDays(imu, dayOf) + RecentDays(gps, dayOf);
    ImageOfTwo(recent, early, late);
    assert DayStrings(imu, gps, dayOf) == {FormatDay(early), FormatDay(late)};
    FormatDayOrder(early, late);
    StrLessIsOrder();
    TwoSorted({FormatDay(early), FormatDay(late)}, FormatDay(late), FormatDay(early));
  }

  /** Two strings sort greater first. */
  lemma TwoSorted(strings: set<string>, hi: string, lo: string)
    requires StrictTotalOrder(StrLess)
    requires strings == {hi, lo} && StrLess(lo, hi)
    ensures SortSetDesc(strings, StrLess) == [hi, lo]
  {
    DescendingUnique(SortSetDesc(strings, StrLess), [hi, lo], StrLess);
  }

  /** The text of a list holding exactly two days. */
  lemma ImageOfTwo(recent: seq<Day>, early: Day, late: Day)
    requires ValidDay(early) && ValidDay(late)
    requires forall d :: d in recent <==> d == early || d == late
    ensures (set d | d in recent :: FormatDay(d)) == {FormatDay(early), FormatDay(late)}
  {
    var strings := set d | d in recent :: FormatDay(d);
    forall s | s in strings ensures s == FormatDay(early) || s == FormatDay(late) {
      var d :| d in recent && s == FormatDay(d);
    }
    assert FormatDay(early) in strings by {
      assert early in recent;
    }
    assert FormatDay(late) in strings by {
      assert late in recent;
    }
  }
}
