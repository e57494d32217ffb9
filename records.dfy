/**
 * The stored documents of the two collections (`imu` and `gps`) and the
 * values they carry.
 */
module Records {
  import opened Text
  import Ordering

  /** A server instant: whole seconds on the UTC time line. */
  type Instant = int

  /** The decoded JSON values the model admits: `null`, numbers, strings,
      and objects whose members are numbers (the `acc`, `gyro` and `gps`
      objects of a payload). */
  datatype Json =
    | Null
    | Num(n: int)
    | Str(s: string)
    | Obj(members: map<string, int>)

  /** One stored document. `timestamp` and `session` are whatever the
      publisher sent (`null` when absent); `receivedAt` is the server's
      receipt instant. */
  datatype Reading =
    | Motion(timestamp: Json, session: Json,
             ax: int, ay: int, az: int, gx: int, gy: int, gz: int,
             receivedAt: Instant)
    | Position(timestamp: Json, session: Json, lat: int, lon: int,
               receivedAt: Instant)

  /** BSON's widest integer is signed 64-bit: the driver refuses to encode
      (`OverflowError`) any integer outside `[-2^63, 2^63)`. */
  const Int64Bound := 0x8000_0000_0000_0000

  predicate FitsInt64(n: int) {
    -Int64Bound <= n < Int64Bound
  }

  /** Every integer a JSON value carries fits in BSON. */
  predicate JsonFits(j: Json) {
    match j
    case Num(n) => FitsInt64(n)
    case Obj(m) => forall k :: k in m ==> FitsInt64(m[k])
    case _ => true
  }

  /** The document can be encoded for `insert_one`. */
  predicate Encodable(r: Reading) {
    && JsonFits(r.timestamp) && JsonFits(r.session)
    && match r
       case Motion(_, _, ax, ay, az, gx, gy, gz, _) =>
         FitsInt64(ax) && FitsInt64(ay) && FitsInt64(az) && FitsInt64(gx) && FitsInt64(gy) && FitsInt64(gz)
       case Position(_, _, lat, lon, _) => FitsInt64(lat) && FitsInt64(lon)
  }

  /** The six motion axes, in the order the statistics report them. */
  datatype AxisName = AX | AY | AZ | GX | GY | GZ

  function AxisValue(r: Reading, a: AxisName): int
    requires r.Motion?
  {
    match a
    case AX => r.ax
    case AY => r.ay
    case AZ => r.az
    case GX => r.gx
    case GY => r.gy
    case GZ => r.gz
  }

  /** A UTC calendar day, as the store's `$year`/`$month`/`$dayOfMonth`
      give it. */
  datatype Day = Day(year: int, month: int, day: int)

  /** Days a Python `datetime` can carry. */
  predicate ValidDay(d: Day) {
    1 <= d.year <= 9999 && 1 <= d.month <= 12 && 1 <= d.day <= 31
  }

  /** The store's order on `{y, m, d}` group keys: field by field. */
  predicate DayLess(a: Day, b: Day) {
    a.year < b.year
    || (a.year == b.year && a.month < b.month)
    || (a.year == b.year && a.month == b.month && a.day < b.day)
  }

  /** `f"{y:04d}-{m:02d}-{d:02d}"`. */
  function FormatDay(d: Day): (s: string)
    requires ValidDay(d)
    ensures IsIsoDay(s)
  {
    Pad(d.year, 4) + "-" + Pad(d.month, 2) + "-" + Pad(d.day, 2)
  }

  /** The three digit groups of the day text read back as the year, the
      month and the day. */
  lemma FormatDayFields(d: Day)
    requires ValidDay(d)
    ensures var s := FormatDay(d);
      RunValue(s[..4]) == d.year && RunValue(s[5..7]) == d.month && RunValue(s[8..]) == d.day
  {
    var y, m, dd := Pad(d.year, 4), Pad(d.month, 2), Pad(d.day, 2);
    PadValue(d.year, 4);
    PadValue(d.month, 2);
    PadValue(d.day, 2);
    var s := FormatDay(d);
    assert s[..4] == y && s[5..7] == m && s[8..] == dd;
  }

  /** Ten characters `YYYY-MM-DD`, every position but the two dashes a digit. */
  predicate IsIsoDay(s: string) {
    && |s| == 10
    && s[4] == '-' && s[7] == '-'
    && forall i :: 0 <= i < 10 && i != 4 && i != 7 ==> IsDigit(s[i])
  }

  /** The day text is ordered as the days are, and distinct days give
      distinct text: sorting the strings sorts the days. */
  lemma FormatDayOrder(a: Day, b: Day)
    requires ValidDay(a) && ValidDay(b)
    ensures StrLess(FormatDay(a), FormatDay(b)) <==> DayLess(a, b)
    ensures FormatDay(a) == FormatDay(b) <==> a == b
  {
    var ya, yb := Pad(a.year, 4), Pad(b.year, 4);
    var ma, mb := "-" + Pad(a.month, 2), "-" + Pad(b.month, 2);
    var da, db := "-" + Pad(a.day, 2), "-" + Pad(b.day, 2);
    assert FormatDay(a) == ya + (ma + da) && FormatDay(b) == yb + (mb + db);
    PadOrder(a.year, b.year, 4);
    PadOrder(a.month, b.month, 2);
    PadOrder(a.day, b.day, 2);
    DashOrder(Pad(a.month, 2), Pad(b.month, 2));
    DashOrder(Pad(a.day, 2), Pad(b.day, 2));
    PartsDecide(ya, ma + da, yb, mb + db);
    PartsDecide(ma, da, mb, db);
  }

  /** A leading dash changes neither the order nor the identity of text. */
  lemma DashOrder(p: string, q: string)
    ensures StrLess("-" + p, "-" + q) <==> StrLess(p, q)
    ensures "-" + p == "-" + q <==> p == q
  {
    StrLessConcat("-", p, "-", q);
    StrLessIrreflexive("-");
    if "-" + p == "-" + q {
      assert p == ("-" + p)[1..] && q == ("-" + q)[1..];
    }
  }

  /** Text made of two parts, the first parts of equal length, is ordered
      and identified by its first parts, then its second. */
  lemma PartsDecide(p: string, q: string, p': string, q': string)
    requires |p| == |p'|
    ensures StrLess(p + q, p' + q') <==> StrLess(p, p') || (p == p' && StrLess(q, q'))
    ensures p + q == p' + q' <==> p == p' && q == q'
  {
    StrLessConcat(p, q, p', q');
    if p + q == p' + q' {
      assert p == (p + q)[..|p|] && p' == (p' + q')[..|p|];
      assert q == (p + q)[|p|..] && q' == (p' + q')[|p|..];
    }
  }

  lemma DayLessIsOrder()
    ensures Ordering.StrictTotalOrder(DayLess)
  {
  }
}
