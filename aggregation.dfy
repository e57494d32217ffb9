/**
 * What the read endpoints compute from the store's two collections:
 * the filtered, time-ordered, limited listing (`get_imu`, `get_gps`),
 * the motion statistics (`imu_stats`), the summary counts (`summary`),
 * the latest position (`gps_latest`), the distinct sessions (`sessions`)
 * and the distinct receipt days (`available_days`).
 */
module Aggregation {
  import opened Wrappers
  import opened Text
  import opened Ordering
  import opened Records
  import opened Filtering

  // ---------------------------------------------------------------- select

  /** The documents `rs` holds that match `f`, in store order. */
  function Select(rs: seq<Reading>, f: Filter): (r: seq<Reading>)
    ensures forall x :: x in r ==> Matches(f, x) && x in rs
    ensures forall x :: multiset(r)[x] == if Matches(f, x) then multiset(rs)[x] else 0
    ensures |r| <= |rs|
  {
    if rs == [] then []
    else
      var last := rs[|rs| - 1];
      assert rs == rs[..|rs| - 1] + [last];
      Select(rs[..|rs| - 1], f) + if Matches(f, last) then [last] else []
  }

  lemma SelectMembers(rs: seq<Reading>, f: Filter)
    ensures forall x :: x in Select(rs, f) <==> x in rs && Matches(f, x)
  {
    var r := Select(rs, f);
    forall x ensures x in r <==> x in rs && Matches(f, x) {
      assert x in r <==> multiset(r)[x] > 0;
      assert x in rs <==> multiset(rs)[x] > 0;
    }
  }

  // ------------------------------------------------------------- listing

  ghost predicate SortedByTime(s: seq<Reading>) {
    forall i, j :: 0 <= i < j < |s| ==> s[i].receivedAt <= s[j].receivedAt
  }

  function InsertByTime(x: Reading, s: seq<Reading>): (r: seq<Reading>)
    requires SortedByTime(s)
    ensures SortedByTime(r)
    ensures multiset(r) == multiset(s) + multiset{x}
    ensures forall y :: y in r ==> y == x || y in s
  {
    if s == [] then [x]
    else if x.receivedAt < s[0].receivedAt then
      PrependSorted(x, s);
      [x] + s
    else
      var rest := InsertByTime(x, s[1..]);
      assert s == [s[0]] + s[1..];
      PrependSorted(s[0], rest);
      [s[0]] + rest
  }

  /** A document no later than the first of a sorted sequence can go in
      front of it. */
  lemma PrependSorted(h: Reading, t: seq<Reading>)
    requires SortedByTime(t)
    requires t != [] ==> h.receivedAt <= t[0].receivedAt
    ensures SortedByTime([h] + t)
  {
    var r := [h] + t;
    forall i, j | 0 <= i < j < |r| ensures r[i].receivedAt <= r[j].receivedAt {
      if i == 0 {
        assert r[j] == t[j - 1];
        assert t[0].receivedAt <= t[j - 1].receivedAt || j == 1;
      } else {
        assert r[i] == t[i - 1] && r[j] == t[j - 1];
      }
    }
  }

  /** `.sort("received_at", 1)`: ascending receipt time. The store leaves
      the order of equal receipt times open; this one keeps store order. */
  function SortByTime(rs: seq<Reading>): (r: seq<Reading>)
    ensures SortedByTime(r)
    ensures multiset(r) == multiset(rs)
  {
    if rs == [] then []
    else
      assert rs == rs[..|rs| - 1] + [rs[|rs| - 1]];
      InsertByTime(rs[|rs| - 1], SortByTime(rs[..|rs| - 1]))
  }

  function Abs(n: int): nat {
    if n < 0 then -n else n
  }

  /** How many documents `.limit(limit)` lets through out of `n`: a limit of
      0 means no limit, and a negative one counts as its absolute value. */
  function Kept(limit: int, n: nat): nat {
    if limit == 0 || n <= Abs(limit) then n else Abs(limit)
  }

  /** `find(query).sort("received_at", 1).limit(limit)`. */
  function Listing(rs: seq<Reading>, q: Query): (r: seq<Reading>)
    ensures forall x :: x in r ==> x in rs && Matches(q.filter, x)
    ensures SortedByTime(r)
    ensures |r| == Kept(q.limit, |Select(rs, q.filter)|)
    ensures q.limit > 0 ==> |r| <= q.limit
    ensures multiset(r) <= multiset(Select(rs, q.filter))
    // what the limit cuts off is never earlier than what it keeps
    ensures forall x, y :: x in r && y in multiset(Select(rs, q.filter)) - multiset(r) ==>
      x.receivedAt <= y.receivedAt
  {
    var s := SortByTime(Select(rs, q.filter));
    var k := Kept(q.limit, |s|);
    SelectMembers(rs, q.filter);
    SortedPrefix(s, k);
    s[..k]
  }

  /** A prefix of a sorted sequence holds its earliest elements. */
  lemma SortedPrefix(s: seq<Reading>, k: nat)
    requires SortedByTime(s) && k <= |s|
    ensures multiset(s[..k]) <= multiset(s)
    ensures forall x :: x in s[..k] ==> x in multiset(s)
    ensures forall x, y :: x in s[..k] && y in multiset(s) - multiset(s[..k]) ==> x.receivedAt <= y.receivedAt
  {
    assert s == s[..k] + s[k..];
    assert multiset(s) == multiset(s[..k]) + multiset(s[k..]);
    forall x, y | x in s[..k] && y in multiset(s) - multiset(s[..k])
      ensures x.receivedAt <= y.receivedAt
    {
      assert y in multiset(s[k..]);
      var i :| 0 <= i < k && s[i] == x;
      var j :| 0 <= j < |s| - k && s[k..][j] == y;
      assert s[k + j] == y;
    }
    forall x | x in s[..k] ensures x in multiset(s) {
      assert x in s;
    }
  }

  // -------------------------------------------------------------- counts

  /** `count_documents(query)`. */
  function Count(rs: seq<Reading>, f: Filter): nat {
    |Select(rs, f)|
  }

  /** `summary`: the number of matching documents per collection. */
  datatype Counts = Counts(imuCount: nat, gpsCount: nat)

  function Summary(imu: seq<Reading>, gps: seq<Reading>, f: Filter): Counts {
    Counts(Count(imu, f), Count(gps, f))
  }

  /** Appending a document raises the count of every filter it matches by
      one and leaves every other count as it was. */
  lemma CountAppend(rs: seq<Reading>, x: Reading, f: Filter)
    ensures Count(rs + [x], f) == Count(rs, f) + if Matches(f, x) then 1 else 0
  {
    assert (rs + [x])[..|rs|] == rs;
  }

  lemma {:induction false} CountAll(rs: seq<Reading>)
    ensures Count(rs, MatchAll) == |rs|
  {
    if rs != [] {
      CountAll(rs[..|rs| - 1]);
    }
  }

  // ---------------------------------------------------------- statistics

  function Sum(vs: seq<int>): int {
    if vs == [] then 0 else vs[0] + Sum(vs[1..])
  }

  function Least(vs: seq<int>): (m: int)
    requires vs != []
    ensures m in vs && forall v :: v in vs ==> m <= v
  {
    if |vs| == 1 then vs[0]
    else
      var rest := Least(vs[1..]);
      assert forall v :: v in vs ==> v == vs[0] || v in vs[1..];
      if vs[0] <= rest then vs[0] else rest
  }

  function Greatest(vs: seq<int>): (m: int)
    requires vs != []
    ensures m in vs && forall v :: v in vs ==> v <= m
  {
    if |vs| == 1 then vs[0]
    else
      var rest := Greatest(vs[1..]);
      assert forall v :: v in vs ==> v == vs[0] || v in vs[1..];
      if rest <= vs[0] then vs[0] else rest
  }

  lemma {:induction false} SumBetween(vs: seq<int>, lo: int, hi: int)
    requires forall v :: v in vs ==> lo <= v <= hi
    ensures |vs| * lo <= Sum(vs) <= |vs| * hi
  {
    if vs != [] {
      var rest := vs[1..];
      assert vs[0] in vs;
      assert forall v :: v in rest ==> v in vs;
      SumBetween(rest, lo, hi);
      PeelFactor(|vs|, lo);
      PeelFactor(|vs|, hi);
    }
  }

  lemma PeelFactor(n: int, k: int)
    ensures n * k == k + (n - 1) * k
  {
  }

  lemma MulSign(a: real, b: real)
    ensures a < 0.0 && b > 0.0 ==> a * b < 0.0
  {
  }

  lemma MeanBetween(total: int, n: nat, lo: int, hi: int)
    requires n > 0 && n * lo <= total <= n * hi
    ensures lo as real <= total as real / n as real <= hi as real
  {
    var q, m := total as real / n as real, n as real;
    assert q * m == total as real;
    assert (n * lo) as real == m * lo as real && (n * hi) as real == m * hi as real;
    MulSign(q - lo as real, m);
    MulSign(hi as real - q, m);
  }

  /** `avg` is the mean of `vs`: their total over their number. */
  predicate IsMean(avg: real, vs: seq<int>) {
    vs != [] && avg == Sum(vs) as real / |vs| as real
  }

  /** `$avg`, `$min` and `$max` of one axis. */
  datatype AxisStats = AxisStats(avg: real, min: int, max: int)

  function Summarize(vs: seq<int>): (s: AxisStats)
    requires vs != []
    ensures s.min in vs && s.max in vs
    ensures forall v :: v in vs ==> s.min <= v <= s.max
    ensures s.min as real <= s.avg <= s.max as real
    ensures s.avg * |vs| as real == Sum(vs) as real
    ensures |vs| == 1 ==> s == AxisStats(vs[0] as real, vs[0], vs[0])
  {
    var lo, hi := Least(vs), Greatest(vs);
    SumBetween(vs, lo, hi);
    MeanBetween(Sum(vs), |vs|, lo, hi);
    AxisStats(Sum(vs) as real / |vs| as real, lo, hi)
  }

  /** The single group `imu_stats` returns: the count, and for each axis
      the `<axis>_avg`, `<axis>_min` and `<axis>_max` entries. */
  datatype Aggregate = Aggregate(count: nat, axes: AxisName -> AxisStats)

  function StatsOf(g: Aggregate, a: AxisName): AxisStats {
    g.axes(a)
  }

  /** One axis of the given motion documents. */
  function Column(rs: seq<Reading>, a: AxisName): (vs: seq<int>)
    requires forall x :: x in rs ==> x.Motion?
    ensures |vs| == |rs|
    ensures forall i :: 0 <= i < |rs| ==> vs[i] == AxisValue(rs[i], a)
  {
    seq(|rs|, i requires 0 <= i < |rs| => AxisValue(rs[i], a))
  }

  /** The `$group` stage over a non-empty set of motion documents. */
  function Group(ms: seq<Reading>): (g: Aggregate)
    requires ms != [] && forall x :: x in ms ==> x.Motion?
    ensures g.count == |ms|
    // `avg` is the mean: it times the count is the axis total
    ensures forall a :: IsMean(StatsOf(g, a).avg, Column(ms, a))
    ensures forall a :: StatsOf(g, a).min as real <= StatsOf(g, a).avg <= StatsOf(g, a).max as real
    ensures forall a, x :: x in ms ==> StatsOf(g, a).min <= AxisValue(x, a) <= StatsOf(g, a).max
    ensures forall a :: Attained(ms, MatchAll, a, StatsOf(g, a).min)
    ensures forall a :: Attained(ms, MatchAll, a, StatsOf(g, a).max)
    ensures |ms| == 1 ==> forall a ::
      StatsOf(g, a) == AxisStats(AxisValue(ms[0], a) as real, AxisValue(ms[0], a), AxisValue(ms[0], a))
  {
    var g := Aggregate(|ms|, a => Summarize(Column(ms, a)));
    ColumnFacts(ms, g);
    ColumnMeans(ms, g);
    g
  }

  lemma ColumnFacts(ms: seq<Reading>, g: Aggregate)
    requires ms != [] && forall x :: x in ms ==> x.Motion?
    requires forall a :: StatsOf(g, a) == Summarize(Column(ms, a))
    ensures forall a :: StatsOf(g, a).min as real <= StatsOf(g, a).avg <= StatsOf(g, a).max as real
    ensures forall a, x :: x in ms ==> StatsOf(g, a).min <= AxisValue(x, a) <= StatsOf(g, a).max
    ensures forall a :: Attained(ms, MatchAll, a, StatsOf(g, a).min)
    ensures forall a :: Attained(ms, MatchAll, a, StatsOf(g, a).max)
    ensures |ms| == 1 ==> forall a ::
      StatsOf(g, a) == AxisStats(AxisValue(ms[0], a) as real, AxisValue(ms[0], a), AxisValue(ms[0], a))
  {
    forall a, x | x in ms ensures StatsOf(g, a).min <= AxisValue(x, a) <= StatsOf(g, a).max {
      var i :| 0 <= i < |ms| && ms[i] == x;
      assert Column(ms, a)[i] in Column(ms, a);
    }
    forall a ensures Attained(ms, MatchAll, a, StatsOf(g, a).min) {
      ColumnAttains(ms, a, StatsOf(g, a).min);
    }
    forall a ensures Attained(ms, MatchAll, a, StatsOf(g, a).max) {
      ColumnAttains(ms, a, StatsOf(g, a).max);
    }
  }

  lemma ColumnMeans(ms: seq<Reading>, g: Aggregate)
    requires ms != [] && forall x :: x in ms ==> x.Motion?
    requires forall a :: StatsOf(g, a) == Summarize(Column(ms, a))
    ensures forall a :: IsMean(StatsOf(g, a).avg, Column(ms, a))
  {
    forall a ensures IsMean(StatsOf(g, a).avg, Column(ms, a)) {
      assert |Column(ms, a)| == |ms|;
    }
  }

  lemma ColumnAttains(ms: seq<Reading>, a: AxisName, v: int)
    requires forall x :: x in ms ==> x.Motion?
    requires v in Column(ms, a)
    ensures Attained(ms, MatchAll, a, v)
  {
    var i :| 0 <= i < |ms| && Column(ms, a)[i] == v;
    assert ms[i] in ms && Matches(MatchAll, ms[i]);
  }

  /** Some document of `rs` that matches `f` has the value `v` on axis `a`. */
  ghost predicate Attained(rs: seq<Reading>, f: Filter, a: AxisName, v: int) {
    exists x :: x in rs && Matches(f, x) && x.Motion? && AxisValue(x, a) == v
  }

  /** The `$match` + `$group` pipeline of `imu_stats`: `None` is the empty
      object returned when nothing matches. */
  function Stats(rs: seq<Reading>, f: Filter): (r: Option<Aggregate>)
    requires forall x :: x in rs ==> x.Motion?
    ensures r.None? <==> forall x :: x in rs ==> !Matches(f, x)
    ensures r.Some? ==> r.value.count == Count(rs, f)
    // `avg` is the mean of the matching documents' values
    ensures r.Some? ==> forall a ::
      IsMean(StatsOf(r.value, a).avg, Column(Select(rs, f), a))
    ensures r.Some? ==> forall a ::
      StatsOf(r.value, a).min as real <= StatsOf(r.value, a).avg <= StatsOf(r.value, a).max as real
    ensures r.Some? ==> forall a, x :: x in rs && Matches(f, x) ==>
      StatsOf(r.value, a).min <= AxisValue(x, a) <= StatsOf(r.value, a).max
    ensures r.Some? ==> forall a :: Attained(rs, f, a, StatsOf(r.value, a).min)
    ensures r.Some? ==> forall a :: Attained(rs, f, a, StatsOf(r.value, a).max)
    ensures r.Some? && Count(rs, f) == 1 ==> forall a, x :: x in rs && Matches(f, x) ==>
      StatsOf(r.value, a) == AxisStats(AxisValue(x, a) as real, AxisValue(x, a), AxisValue(x, a))
  {
    var ms := Select(rs, f);
    SelectMembers(rs, f);
    if ms == [] then
      None
    else
      var g := Group(ms);
      BoundsSelect(rs, f, g);
      AttainedSelect(rs, f, g);
      SingleSelect(rs, f, g);
      Some(g)
  }

  /** Bounds on the selected documents are bounds on every matching one. */
  lemma BoundsSelect(rs: seq<Reading>, f: Filter, g: Aggregate)
    requires forall x :: x in rs ==> x.Motion?
    requires forall x :: x in Select(rs, f) <==> x in rs && Matches(f, x)
    requires forall a, x :: x in Select(rs, f) ==> StatsOf(g, a).min <= AxisValue(x, a) <= StatsOf(g, a).max
    ensures forall a, x :: x in rs && Matches(f, x) ==> StatsOf(g, a).min <= AxisValue(x, a) <= StatsOf(g, a).max
  {
  }

  /** With one matching document, it is the one the group was built from. */
  lemma SingleSelect(rs: seq<Reading>, f: Filter, g: Aggregate)
    requires forall x :: x in rs ==> x.Motion?
    requires forall x :: x in Select(rs, f) <==> x in rs && Matches(f, x)
    requires |Select(rs, f)| == 1 ==> forall a ::
      var v := AxisValue(Select(rs, f)[0], a); StatsOf(g, a) == AxisStats(v as real, v, v)
    ensures Count(rs, f) == 1 ==> forall a, x :: x in rs && Matches(f, x) ==>
      StatsOf(g, a) == AxisStats(AxisValue(x, a) as real, AxisValue(x, a), AxisValue(x, a))
  {
    if Count(rs, f) == 1 {
      var ms := Select(rs, f);
      forall a, x | x in rs && Matches(f, x)
        ensures StatsOf(g, a) == AxisStats(AxisValue(x, a) as real, AxisValue(x, a), AxisValue(x, a))
      {
        assert x in ms;
        assert x == ms[0];
      }
    }
  }

  lemma AttainedSelect(rs: seq<Reading>, f: Filter, g: Aggregate)
    requires forall x :: x in Select(rs, f) ==> x.Motion?
    requires forall x :: x in Select(rs, f) <==> x in rs && Matches(f, x)
    requires forall a :: Attained(Select(rs, f), MatchAll, a, StatsOf(g, a).min)
    requires forall a :: Attained(Select(rs, f), MatchAll, a, StatsOf(g, a).max)
    ensures forall a :: Attained(rs, f, a, StatsOf(g, a).min)
    ensures forall a :: Attained(rs, f, a, StatsOf(g, a).max)
  {
    forall a ensures Attained(rs, f, a, StatsOf(g, a).min) && Attained(rs, f, a, StatsOf(g, a).max) {
      assert Attained(Select(rs, f), MatchAll, a, StatsOf(g, a).min);
      assert Attained(Select(rs, f), MatchAll, a, StatsOf(g, a).max);
    }
  }

  // ------------------------------------------------------ latest position

  /** `find_one(sort=[("received_at", -1)])`: a document with the greatest
      receipt time, or none in an empty collection. Among equal receipt
      times the store picks one; this model picks the last stored. */
  function Latest(rs: seq<Reading>): (r: Option<Reading>)
    ensures r.None? <==> rs == []
    ensures r.Some? ==> r.value in rs && forall x :: x in rs ==> x.receivedAt <= r.value.receivedAt
  {
    if rs == [] then None
    else
      var last := rs[|rs| - 1];
      var init := rs[..|rs| - 1];
      assert rs == init + [last];
      match Latest(init)
      case None => Some(last)
      case Some(m) => if m.receivedAt <= last.receivedAt then Some(last) else Some(m)
  }

  // ------------------------------------------------------------ sessions

  /** Why `sorted(set(imu_s) | set(gps_s), reverse=True)` raises
      `TypeError`: an object is unhashable, and values of different kinds
      (or two `None`s, which a set never holds) cannot be compared. */
  datatype SessionsError = Unhashable | Unorderable

  /** `distinct("session")` of both collections, united. */
  function DistinctSessions(imu: seq<Reading>, gps: seq<Reading>): set<Json> {
    set x | x in imu + gps :: x.session
  }

  /** Python's `<` between two session values where it is defined: numbers
      numerically, strings by code point. */
  predicate PyLess(a: Json, b: Json) {
    (a.Num? && b.Num? && a.n < b.n) || (a.Str? && b.Str? && StrLess(a.s, b.s))
  }

  /** Both values are of one of the kinds that sort among themselves. */
  predicate SameKind(a: Json, b: Json) {
    (a.Null? && b.Null?) || (a.Num? && b.Num?) || (a.Str? && b.Str?)
  }

  function Sessions(imu: seq<Reading>, gps: seq<Reading>): (r: Result<seq<Json>, SessionsError>)
    ensures r == Err(Unhashable) <==> exists v :: v in DistinctSessions(imu, gps) && v.Obj?
    ensures r == Err(Unorderable) <==>
      (forall v :: v in DistinctSessions(imu, gps) ==> !v.Obj?) &&
      exists v, w :: v in DistinctSessions(imu, gps) && w in DistinctSessions(imu, gps) && !SameKind(v, w)
    ensures r.Ok? ==> forall v :: v in r.value <==> v in DistinctSessions(imu, gps)
    ensures r.Ok? ==> forall i, j :: 0 <= i < j < |r.value| ==> PyLess(r.value[j], r.value[i])
    ensures r.Ok? ==> forall i, j :: 0 <= i < j < |r.value| ==> r.value[i] != r.value[j]
  {
    var all := DistinctSessions(imu, gps);
    if exists v :: v in all && v.Obj? then Err(Unhashable)
    else
      MixedKinds(all);
      if forall v :: v in all ==> v.Num? then
        var r := NumbersDesc(all);
        PyDescendingDistinct(r);
        Ok(r)
      else if forall v :: v in all ==> v.Str? then
        var r := StringsDesc(all);
        PyDescendingDistinct(r);
        Ok(r)
      else if forall v :: v in all ==> v.Null? then
        var v :| v in all;
        assert all == {Null};
        Ok([Null])
      else Err(Unorderable)
  }

  /** Without objects, the values fail to share one kind exactly when they
      are not all numbers, not all strings and not all `None`. */
  lemma MixedKinds(all: set<Json>)
    requires forall v :: v in all ==> !v.Obj?
    ensures (exists v, w :: v in all && w in all && !SameKind(v, w)) <==>
      !((forall v :: v in all ==> v.Num?) || (forall v :: v in all ==> v.Str?) || (forall v :: v in all ==> v.Null?))
  {
    if !((forall v :: v in all ==> v.Num?) || (forall v :: v in all ==> v.Str?) || (forall v :: v in all ==> v.Null?)) {
      var a :| a in all && !a.Num?;
      var b :| b in all && !b.Str?;
      var c :| c in all && !c.Null?;
      if a.Str? {
        assert !SameKind(a, b);
      } else {
        assert !SameKind(a, c);
      }
    }
  }

  /** A listing strictly descending by Python's `<` repeats no value. */
  lemma PyDescendingDistinct(r: seq<Json>)
    requires forall i, j :: 0 <= i < j < |r| ==> PyLess(r[j], r[i])
    ensures forall i, j :: 0 <= i < j < |r| ==> r[i] != r[j]
  {
    forall i, j | 0 <= i < j < |r| ensures r[i] != r[j] {
      if r[i].Str? {
        StrLessIrreflexive(r[i].s);
      }
    }
  }

  /** Numeric sessions, largest first. */
  function NumbersDesc(all: set<Json>): (r: seq<Json>)
    requires forall v :: v in all ==> v.Num?
    ensures forall v :: v in r <==> v in all
    ensures forall i, j :: 0 <= i < j < |r| ==> PyLess(r[j], r[i])
  {
    IntLessIsOrder();
    var ns := SortSetDesc(set v | v in all :: v.n, IntLess);
    var out := seq(|ns|, i requires 0 <= i < |ns| => Num(ns[i]));
    forall v ensures v in out <==> v in all {
      if v in out {
        var i :| 0 <= i < |out| && out[i] == v;
        assert ns[i] in ns;
      }
      if v in all {
        assert v.n in ns;
        var i :| 0 <= i < |ns| && ns[i] == v.n;
        assert out[i] == v;
      }
    }
    out
  }

  /** Text sessions, greatest first in code-point order. */
  function StringsDesc(all: set<Json>): (r: seq<Json>)
    requires forall v :: v in all ==> v.Str?
    ensures forall v :: v in r <==> v in all
    ensures forall i, j :: 0 <= i < j < |r| ==> PyLess(r[j], r[i])
  {
    StrLessIsOrder();
    var ss := SortSetDesc(set v | v in all :: v.s, StrLess);
    var out := seq(|ss|, i requires 0 <= i < |ss| => Str(ss[i]));
    forall v ensures v in out <==> v in all {
      if v in out {
        var i :| 0 <= i < |out| && out[i] == v;
        assert ss[i] in ss;
      }
      if v in all {
        assert v.s in ss;
        var i :| 0 <= i < |ss| && ss[i] == v.s;
        assert out[i] == v;
      }
    }
    out
  }

  // ---------------------------------------------------------------- days

  const DaysPerCollection := 90

  /** The receipt days of a collection: `$group` on year, month and day. */
  function DaysOf(rs: seq<Reading>, dayOf: Instant -> Day): set<Day> {
    set x | x in rs :: dayOf(x.receivedAt)
  }

  /** `$group`, `$sort: {_id: -1}`, `$limit: 90` on one collection. */
  function RecentDays(rs: seq<Reading>, dayOf: Instant -> Day): (r: seq<Day>)
    ensures |r| <= DaysPerCollection
    // `$limit: 90` keeps the 90 most recent days, or all of fewer
    ensures |r| == if |DaysOf(rs, dayOf)| <= DaysPerCollection then |DaysOf(rs, dayOf)| else DaysPerCollection
    ensures Descending(r, DayLess)
    ensures forall d :: d in r ==> d in DaysOf(rs, dayOf)
    // the days kept are the most recent ones
    ensures forall d, e :: d in DaysOf(rs, dayOf) && d !in r && e in r ==> DayLess(d, e)
    ensures |DaysOf(rs, dayOf)| <= DaysPerCollection ==> forall d :: d in DaysOf(rs, dayOf) ==> d in r
  {
    DayLessIsOrder();
    var all := SortSetDesc(DaysOf(rs, dayOf), DayLess);
    if |all| <= DaysPerCollection then all
    else
      var r := all[..DaysPerCollection];
      forall d, e | d in DaysOf(rs, dayOf) && d !in r && e in r ensures DayLess(d, e) {
        var i :| 0 <= i < |all| && all[i] == d;
        var j :| 0 <= j < |r| && r[j] == e;
        assert all[j] == e;
        assert i >= DaysPerCollection;
      }
      r
  }

  /** Every receipt day of the collections is one `dayOf` can render. */
  ghost predicate DaysRenderable(imu: seq<Reading>, gps: seq<Reading>, dayOf: Instant -> Day) {
    forall x :: x in imu + gps ==> ValidDay(dayOf(x.receivedAt))
  }

  lemma RecentDaysValid(imu: seq<Reading>, gps: seq<Reading>, dayOf: Instant -> Day)
    requires DaysRenderable(imu, gps, dayOf)
    ensures forall d :: d in RecentDays(imu, dayOf) + RecentDays(gps, dayOf) ==> ValidDay(d)
  {
    forall d | d in RecentDays(imu, dayOf) + RecentDays(gps, dayOf) ensures ValidDay(d) {
      if d in RecentDays(imu, dayOf) {
        var x :| x in imu && dayOf(x.receivedAt) == d;
        assert x in imu + gps;
      } else {
        var x :| x in gps && dayOf(x.receivedAt) == d;
        assert x in imu + gps;
      }
    }
  }

  /** The day strings of the most recent days of both collections. */
  function DayStrings(imu: seq<Reading>, gps: seq<Reading>, dayOf: Instant -> Day): set<string>
    requires DaysRenderable(imu, gps, dayOf)
  {
    RecentDaysValid(imu, gps, dayOf);
    set d | d in RecentDays(imu, dayOf) + RecentDays(gps, dayOf) :: FormatDay(d)
  }

  lemma {:induction false} ImageBound(ds: seq<Day>)
    requires forall d :: d in ds ==> ValidDay(d)
    ensures |set d | d in ds :: FormatDay(d)| <= |ds|
  {
    if ds != [] {
      var init := ds[..|ds| - 1];
      ImageBound(init);
      assert (set d | d in ds :: FormatDay(d)) ==
        (set d | d in init :: FormatDay(d)) + {FormatDay(ds[|ds| - 1])} by {
        assert ds == init + [ds[|ds| - 1]];
      }
    }
  }

  /** `available_days`: the union of the two collections' recent days as
      `YYYY-MM-DD` text, newest first. */
  function AvailableDays(imu: seq<Reading>, gps: seq<Reading>, dayOf: Instant -> Day): (r: seq<string>)
    requires DaysRenderable(imu, gps, dayOf)
    ensures Descending(r, StrLess)
    ensures forall i, j :: 0 <= i < j < |r| ==> r[i] != r[j]
    ensures forall s :: s in r ==> IsIsoDay(s)
    ensures forall s :: s in r <==> exists d :: d in RecentDays(imu, dayOf) + RecentDays(gps, dayOf) && ValidDay(d) && s == FormatDay(d)
    ensures |r| <= 2 * DaysPerCollection
  {
    StrLessIsOrder();
    RecentDaysValid(imu, gps, dayOf);
    ImageBound(RecentDays(imu, dayOf) + RecentDays(gps, dayOf));
    var r := SortSetDesc(DayStrings(imu, gps, dayOf), StrLess);
    DescendingDistinct(r, StrLess);
    r
  }

  /** The day strings come out in calendar order, newest first, and name
      each day once. */
  lemma DaysChronological(imu: seq<Reading>, gps: seq<Reading>, dayOf: Instant -> Day, i: nat, j: nat, a: Day, b: Day)
    requires DaysRenderable(imu, gps, dayOf)
    requires i < j < |AvailableDays(imu, gps, dayOf)|
    requires ValidDay(a) && ValidDay(b)
    requires AvailableDays(imu, gps, dayOf)[i] == FormatDay(a)
    requires AvailableDays(imu, gps, dayOf)[j] == FormatDay(b)
    ensures DayLess(b, a)
  {
    FormatDayOrder(b, a);
  }
}
