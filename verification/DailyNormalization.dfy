/** Normalising the daily points of an analytics response. */
module DailyNormalization {
  import opened Wrappers
  import opened StringOrder
  import opened Sequences
  import opened CivilCalendar
  import opened AnalyticsDates

  const MAX_DAILY_POINTS := 31

  datatype Metric = SearchCount | NoResultRate | ClickThroughRate | ConversionRate

  /** A floating-point rate: a number, or an infinity or NaN. */
  datatype Rate = Finite(value: real) | NotFinite

  datatype Counts = Counts(
    count: Option<nat>, noResult: Option<nat>, click: Option<nat>, conversion: Option<nat>, tracked: Option<nat>,
        rate: Option<Rate>)

  datatype Day = Day(date: string, counts: Counts)

  datatype Daily = Daily(date: string, denominator: nat, numerator: Option<nat>, rate: Option<Rate>)

  datatype Payload = Payload(totals: Counts, dates: seq<Day>, partial: bool)

  datatype Aggregate = Aggregate(denominator: nat, numerator: Option<nat>, rate: Option<Rate>, daily: seq<Daily>,
        partial: bool)

  datatype ModelError = InvalidMetricResponse | InvalidProviderResponse | InvalidDailyData | InvalidRate

  /** The denominator and numerator a metric reads. */
  function Ratio(c: Counts, metric: Metric): Result<(nat, Option<nat>), ModelError> {
    match metric
    case SearchCount => if c.count.Some? then Ok((c.count.value, None)) else Err(InvalidMetricResponse)
    case NoResultRate => Both(c.count, c.noResult)
    case ClickThroughRate => Both(c.tracked, c.click)
    case ConversionRate => Both(c.tracked, c.conversion)
  }

  function Both(denominator: Option<nat>, numerator: Option<nat>): Result<(nat, Option<nat>), ModelError> {
    if denominator.Some? && numerator.Some? then Ok((denominator.value, Some(numerator.value)))
        else Err(InvalidMetricResponse)
  }

  /** The ratio, its numerator at most its denominator and its rate within 0 and 1. */
  function Checked(c: Counts, metric: Metric): (r: Result<(nat, Option<nat>), ModelError>)
    ensures r.Ok? ==> (r.value.1.Some? ==> r.value.1.value <= r.value.0)
  {
    match Ratio(c, metric)
    case Err(e) => Err(e)
    case Ok((denominator, numerator)) =>
      if numerator.Some? && numerator.value > denominator then Err(InvalidProviderResponse)
      else if c.rate.Some? && !(c.rate.value.Finite? && 0.0 <= c.rate.value.value <= 1.0) then Err(InvalidRate)
      else Ok((denominator, numerator))
  }

  /** `normalize_day`. */
  function NormalizeDay(day: Day, metric: Metric, w: Window): (r: Result<Daily, ModelError>)
    requires IsWindow(w)
    ensures r.Ok? <==> InWindow(day.date, w) && Checked(day.counts, metric).Ok?
    ensures r.Ok? ==>
              && r.value.date == day.date && r.value.rate == day.counts.rate
              && (r.value.denominator, r.value.numerator) == Checked(day.counts, metric).value
  {
    if !InWindow(day.date, w) then Err(InvalidDailyData)
    else match Checked(day.counts, metric)
      case Err(e) => Err(e)
      case Ok((denominator, numerator)) => Ok(Daily(day.date, denominator, numerator, day.counts.rate))
  }

  predicate InWindow(date: string, w: Window)
    requires IsWindow(w)
  {
    ParseDate(date).Some?
    && DaysFromCivil(ParseDate(w.startDate).value) <= DaysFromCivil(ParseDate(date).value)
    && DaysFromCivil(ParseDate(date).value) <= DaysFromCivil(ParseDate(w.endDate).value)
  }

  predicate SortedByDate(ds: seq<Daily>) {
    forall i, j :: 0 <= i < j < |ds| ==> AtMost(ds[i].date, ds[j].date)
  }

  predicate StrictlySorted(ds: seq<Daily>) {
    forall i, j :: 0 <= i < j < |ds| ==> Less(ds[i].date, ds[j].date)
  }

  /** Put `d` into its place in a sorted prefix, behind equal dates: one round of a stable sort. */
  method InsertByDate(ds: seq<Daily>, d: Daily) returns (r: seq<Daily>)
    requires SortedByDate(ds)
    ensures SortedByDate(r) && multiset(r) == multiset(ds) + multiset{d}
  {
    var k := |ds|;
    while k > 0 && Less(d.date, ds[k - 1].date)
      invariant 0 <= k <= |ds|
      invariant forall i :: k <= i < |ds| ==> Less(d.date, ds[i].date)
    {
      k := k - 1;
    }
    r := ds[..k] + [d] + ds[k..];
    if k > 0 { Total(ds[k - 1].date, d.date); }
    InsertedIsSorted(ds, d, k);
    InsertedIsAdded(ds, d, k);
  }

  lemma InsertedIsAdded(ds: seq<Daily>, d: Daily, k: nat)
    requires k <= |ds|
    ensures multiset(ds[..k] + [d] + ds[k..]) == multiset(ds) + multiset{d}
  {
    assert ds == ds[..k] + ds[k..];
  }

  lemma InsertedIsSorted(ds: seq<Daily>, d: Daily, k: nat)
    requires SortedByDate(ds) && k <= |ds| && (k > 0 ==> AtMost(ds[k - 1].date, d.date))
    requires forall i :: k <= i < |ds| ==> Less(d.date, ds[i].date)
    ensures SortedByDate(ds[..k] + [d] + ds[k..])
  {
    forall i | 0 <= i < k ensures AtMost(ds[i].date, d.date)
    {
      if i < k - 1 && ds[i].date != ds[k - 1].date && ds[k - 1].date != d.date {
        Transitive(ds[i].date, ds[k - 1].date, d.date);
      }
    }
    var r := ds[..k] + [d] + ds[k..];
    forall i, j | 0 <= i < j < |r| ensures AtMost(r[i].date, r[j].date)
    {
      assert i < k ==> r[i] == ds[i];
      assert j > k ==> r[j] == ds[j - 1];
      assert j < k ==> r[j] == ds[j];
      assert i > k ==> r[i] == ds[i - 1];
    }
  }

  /** `points` are the normalised `days`, in order. */
  ghost predicate ArePoints(days: seq<Day>, metric: Metric, w: Window, points: seq<Daily>)
    requires IsWindow(w)
  {
    |points| == |days| && forall k :: 0 <= k < |days| ==> NormalizeDay(days[k], metric, w) == Ok(points[k])
  }

  /** Day `k` is the first one that does not normalise, and this is why. */
  ghost predicate IsFirstError(days: seq<Day>, metric: Metric, w: Window, k: int, e: ModelError)
    requires IsWindow(w)
  {
    0 <= k < |days| && NormalizeDay(days[k], metric, w) == Err(e) && forall j :: 0 <= j < k ==>
        NormalizeDay(days[j], metric, w).Ok?
  }

  ghost predicate SomeDayFails(days: seq<Day>, metric: Metric, w: Window)
    requires IsWindow(w)
  {
    exists k :: 0 <= k < |days| && NormalizeDay(days[k], metric, w).Err?
  }

  /** Map every element, or stop at the first error. */
  method MapOk<A, B, E>(xs: seq<A>, f: A -> Result<B, E>) returns (r: Result<seq<B>, E>)
    ensures r.Ok? ==> |r.value| == |xs| && forall k :: 0 <= k < |xs| ==> f(xs[k]) == Ok(r.value[k])
    ensures r.Err? ==> exists k :: 0 <= k < |xs| && f(xs[k]) == Err(r.error) && forall j :: 0 <= j < k ==> f(xs[j]).Ok?
  {
    var ys: seq<B> := [];
    for i := 0 to |xs|
      invariant |ys| == i
      invariant forall k :: 0 <= k < i ==> f(xs[k]) == Ok(ys[k])
    {
      var y := f(xs[i]);
      if y.Err? {
        return Err(y.error);
      }
      ys := ys + [y.value];
    }
    return Ok(ys);
  }

  method NormalizeEach(days: seq<Day>, metric: Metric, w: Window) returns (r: Result<seq<Daily>, ModelError>)
    requires IsWindow(w)
    ensures r.Ok? ==> ArePoints(days, metric, w, r.value)
    ensures r.Err? ==> exists k :: IsFirstError(days, metric, w, k, r.error)
  {
    r := MapOk(days, day => NormalizeDay(day, metric, w));
    if r.Err? {
      ghost var k :| 0 <= k < |days| && NormalizeDay(days[k], metric, w) == Err(r.error)
                     && forall j :: 0 <= j < k ==> NormalizeDay(days[j], metric, w).Ok?;
      assert IsFirstError(days, metric, w, k, r.error);
    }
  }

  method SortByDate(points: seq<Daily>) returns (sorted: seq<Daily>)
    ensures SortedByDate(sorted) && multiset(sorted) == multiset(points)
  {
    sorted := [];
    for i := 0 to |points|
      invariant SortedByDate(sorted) && multiset(sorted) == multiset(points[..i])
    {
      assert points[..i + 1] == points[..i] + [points[i]];
      sorted := InsertByDate(sorted, points[i]);
    }
    assert points[..|points|] == points;
  }

  method HasTwins(sorted: seq<Daily>) returns (twins: bool)
    requires SortedByDate(sorted)
    ensures twins <==> !DistinctDates(sorted)
    ensures !twins ==> StrictlySorted(sorted)
  {
    var i := 1;
    while i < |sorted|
      invariant 1 <= i
      invariant forall k :: 0 < k < i && k < |sorted| ==> sorted[k - 1].date != sorted[k].date
    {
      if sorted[i - 1].date == sorted[i].date {
        return true;
      }
      i := i + 1;
    }
    AdjacentIsStrict(sorted);
    return false;
  }

  /** The daily points of `normalize`: normalise each, sort by date text, refuse two equal dates. */
  method NormalizeDays(days: seq<Day>, metric: Metric, w: Window) returns (r: Result<seq<Daily>, ModelError>)
    requires IsWindow(w)
    ensures r.Ok? <==> Normalizes(days, metric, w)
    ensures r.Ok? ==> IsNormalForm(days, metric, w, r.value)
    ensures r.Err? ==> if |days| <= MAX_DAILY_POINTS && SomeDayFails(days, metric, w)
                       then exists k :: IsFirstError(days, metric, w, k, r.error)
                       else r.error == InvalidDailyData
  {
    if |days| > MAX_DAILY_POINTS {
      return Err(InvalidDailyData);
    }
    var points := NormalizeEach(days, metric, w);
    if points.Err? {
      return Err(points.error);
    }
    var sorted := SortByDate(points.value);
    var twins := HasTwins(sorted);
    NormalFormDecided(days, metric, w, points.value, sorted);
    return if twins then Err(InvalidDailyData) else Ok(sorted);
  }

  lemma NormalFormDecided(days: seq<Day>, metric: Metric, w: Window, points: seq<Daily>, sorted: seq<Daily>)
    requires IsWindow(w) && |days| <= MAX_DAILY_POINTS && ArePoints(days, metric, w, points)
    requires multiset(sorted) == multiset(points)
    ensures Normalizes(days, metric, w) <==> DistinctDates(sorted)
    ensures StrictlySorted(sorted) ==> IsNormalForm(days, metric, w, sorted)
  {
    if DistinctDates(points) { DistinctUnderReordering(points, sorted); }
    if DistinctDates(sorted) { DistinctUnderReordering(sorted, points); }
    SameSize(sorted, points);
    SameMembers(sorted, points);
    forall d ensures d in points <==> Yields(days, metric, w, d)
    {
      PointsAreYielded(days, metric, w, points, d);
    }
    SameDates(days, metric, w, points);
  }

  lemma PointsAreYielded(days: seq<Day>, metric: Metric, w: Window, points: seq<Daily>, d: Daily)
    requires IsWindow(w) && ArePoints(days, metric, w, points)
    ensures d in points <==> Yields(days, metric, w, d)
  {
    if d in points {
      var i :| 0 <= i < |points| && points[i] == d;
      assert NormalizeDay(days[i], metric, w) == Ok(d);
    }
  }

  lemma SameDates(days: seq<Day>, metric: Metric, w: Window, points: seq<Daily>)
    requires IsWindow(w) && |days| <= MAX_DAILY_POINTS && ArePoints(days, metric, w, points)
    ensures Normalizes(days, metric, w) <==> DistinctDates(points)
  {
    assert forall i :: 0 <= i < |days| ==> NormalizeDay(days[i], metric, w) == Ok(points[i]);
    assert forall i :: 0 <= i < |days| ==> points[i].date == days[i].date;
  }

  /** `normalize`. */
  method Normalize(p: Payload, metric: Metric, w: Window) returns (r: Result<Aggregate, ModelError>)
    requires IsWindow(w)
    ensures r.Ok? <==> Checked(p.totals, metric).Ok? && Normalizes(p.dates, metric, w)
    ensures r.Ok? ==>
              && IsNormalForm(p.dates, metric, w, r.value.daily)
              && (r.value.denominator, r.value.numerator) == Checked(p.totals, metric).value
              && r.value.rate == p.totals.rate && r.value.partial == p.partial
  {
    var totals := Checked(p.totals, metric);
    if totals.Err? {
      return Err(totals.error);
    }
    var daily := NormalizeDays(p.dates, metric, w);
    if daily.Err? {
      return Err(daily.error);
    }
    return Ok(Aggregate(totals.value.0, totals.value.1, p.totals.rate, daily.value, p.partial));
  }

  /** Every point normalises and no date is given twice. */
  ghost predicate Normalizes(days: seq<Day>, metric: Metric, w: Window)
    requires IsWindow(w)
  {
    && |days| <= MAX_DAILY_POINTS
    && (forall i :: 0 <= i < |days| ==> NormalizeDay(days[i], metric, w).Ok?)
    && forall i, j :: 0 <= i < j < |days| ==> days[i].date != days[j].date
  }

  /** The normalised points of all days, strictly sorted by date text. */
  ghost predicate IsNormalForm(days: seq<Day>, metric: Metric, w: Window, ds: seq<Daily>)
    requires IsWindow(w)
  {
    && |ds| == |days| && StrictlySorted(ds)
    && forall d :: d in ds <==> Yields(days, metric, w, d)
  }

  /** Some day normalises to `d`. */
  ghost predicate Yields(days: seq<Day>, metric: Metric, w: Window, d: Daily)
    requires IsWindow(w)
  {
    exists i :: 0 <= i < |days| && NormalizeDay(days[i], metric, w) == Ok(d)
  }

  lemma SameSize(a: seq<Daily>, b: seq<Daily>)
    requires multiset(a) == multiset(b)
    ensures |a| == |b|
  {
    assert |multiset(a)| == |multiset(b)|;
  }

  lemma SameMembers(a: seq<Daily>, b: seq<Daily>)
    requires multiset(a) == multiset(b)
    ensures forall d :: d in a <==> d in b
  {
    forall d ensures d in a <==> d in b
    {
      assert d in multiset(a) <==> d in multiset(b);
    }
  }

  predicate DistinctDates(ds: seq<Daily>) {
    forall i, j :: 0 <= i < j < |ds| ==> ds[i].date != ds[j].date
  }

  lemma DistinctUnderReordering(a: seq<Daily>, b: seq<Daily>)
    requires multiset(a) == multiset(b) && DistinctDates(a)
    ensures DistinctDates(b)
  {
    forall i, j | 0 <= i < j < |b| ensures b[i].date != b[j].date
    {
      if b[i] == b[j] {
        CountTwice(b, i, j);
        var p, q := TwoIndices(a, b[i]);
      } else {
        assert b[i] in multiset(a) && b[j] in multiset(a);
        var p :| 0 <= p < |a| && a[p] == b[i];
        var q :| 0 <= q < |a| && a[q] == b[j];
      }
    }
  }

  lemma AdjacentIsStrict(ds: seq<Daily>)
    requires SortedByDate(ds) && forall k :: 0 < k < |ds| ==> ds[k - 1].date != ds[k].date
    ensures StrictlySorted(ds) && DistinctDates(ds)
  {
    forall i, j | 0 <= i < j < |ds| ensures Less(ds[i].date, ds[j].date) && ds[i].date != ds[j].date
    {
      assert ds[i + 1 - 1].date != ds[i + 1].date;
      assert Less(ds[i].date, ds[i + 1].date);
      if i + 1 < j && ds[i + 1].date != ds[j].date {
        Transitive(ds[i].date, ds[i + 1].date, ds[j].date);
      }
      Irreflexive(ds[i].date);
    }
  }

  lemma {:induction false} NormalFormIsUnique(a: seq<Daily>, b: seq<Daily>)
    requires StrictlySorted(a) && StrictlySorted(b) && |a| == |b|
    requires forall d :: d in a <==> d in b
    ensures a == b
    decreases |a|
  {
    if a != [] {
      var n := |a| - 1;
      SameLast(a, b);
      forall d ensures d in a[..n] <==> d in b[..n]
      {
        LastIsNotEarlier(a);
        LastIsNotEarlier(b);
        assert a == a[..n] + [a[n]] && b == b[..n] + [b[n]];
        assert d in a <==> d in a[..n] || d == a[n];
        assert d in b <==> d in b[..n] || d == b[n];
      }
      NormalFormIsUnique(a[..n], b[..n]);
      assert a == a[..n] + [a[n]] && b == b[..n] + [b[n]];
    }
  }

  lemma LastIsNotEarlier(a: seq<Daily>)
    requires StrictlySorted(a) && a != []
    ensures a[|a| - 1] !in a[..|a| - 1]
  {
    Irreflexive(a[|a| - 1].date);
  }

  lemma SameLast(a: seq<Daily>, b: seq<Daily>)
    requires StrictlySorted(a) && StrictlySorted(b) && |a| == |b| > 0
    requires forall d :: d in a <==> d in b
    ensures a[|a| - 1] == b[|b| - 1]
  {
    var x, y := a[|a| - 1], b[|b| - 1];
    assert x in b && y in a;
    var i :| 0 <= i < |b| && b[i] == x;
    var j :| 0 <= j < |a| && a[j] == y;
    if i < |b| - 1 && j < |a| - 1 {
      assert Less(x.date, y.date) && Less(y.date, x.date);
      Asymmetric(x.date, y.date);
    }
  }

  lemma ReorderedDay(days: seq<Day>, perm: seq<nat>, k: nat) returns (i: nat)
    requires IsReordering(perm, |days|) && k < |days|
    ensures i < |perm| && perm[i] == k && Reorder(days, perm)[i] == days[k]
  {
    assert k in perm;
    i :| 0 <= i < |perm| && perm[i] == k;
  }

  lemma ReorderedDatesDistinct(days: seq<Day>, perm: seq<nat>)
    requires IsReordering(perm, |days|)
    ensures
      var others := Reorder(days, perm);
      (forall i, j :: 0 <= i < j < |days| ==> days[i].date != days[j].date)
      <==> forall i, j :: 0 <= i < j < |others| ==> others[i].date != others[j].date
  {
    var others := Reorder(days, perm);
    if forall i, j :: 0 <= i < j < |others| ==> others[i].date != others[j].date {
      forall k, l | 0 <= k < l < |days| ensures days[k].date != days[l].date
      {
        var i := ReorderedDay(days, perm, k);
        var j := ReorderedDay(days, perm, l);
      }
    }
  }

  lemma ReorderedYields(days: seq<Day>, perm: seq<nat>, metric: Metric, w: Window, d: Daily)
    requires IsWindow(w) && IsReordering(perm, |days|)
    ensures Yields(days, metric, w, d) <==> Yields(Reorder(days, perm), metric, w, d)
  {
    if Yields(days, metric, w, d) {
      var k :| 0 <= k < |days| && NormalizeDay(days[k], metric, w) == Ok(d);
      var i := ReorderedDay(days, perm, k);
    }
  }

  lemma ReorderedDaysNormalize(days: seq<Day>, perm: seq<nat>, metric: Metric, w: Window)
    requires IsWindow(w) && IsReordering(perm, |days|)
    ensures
      var others := Reorder(days, perm);
      (forall i :: 0 <= i < |days| ==> NormalizeDay(days[i], metric, w).Ok?)
      <==> forall i :: 0 <= i < |others| ==> NormalizeDay(others[i], metric, w).Ok?
  {
    var others := Reorder(days, perm);
    if forall i :: 0 <= i < |others| ==> NormalizeDay(others[i], metric, w).Ok? {
      forall k | 0 <= k < |days| ensures NormalizeDay(days[k], metric, w).Ok?
      {
        var i := ReorderedDay(days, perm, k);
      }
    }
  }

  /** Reordering the days changes neither success nor the result. */
  lemma NormalizationIgnoresOrder(days: seq<Day>, perm: seq<nat>, metric: Metric, w: Window, a: seq<Daily>,
        b: seq<Daily>)
    requires IsWindow(w) && IsReordering(perm, |days|)
    ensures Normalizes(days, metric, w) <==> Normalizes(Reorder(days, perm), metric, w)
    ensures IsNormalForm(days, metric, w, a) && IsNormalForm(Reorder(days, perm), metric, w, b) ==> a == b
  {
    ReorderedDatesDistinct(days, perm);
    ReorderedDaysNormalize(days, perm, metric, w);
    if IsNormalForm(days, metric, w, a) && IsNormalForm(Reorder(days, perm), metric, w, b) {
      forall d ensures d in a <==> d in b
      {
        ReorderedYields(days, perm, metric, w, d);
      }
      NormalFormIsUnique(a, b);
    }
  }

  ghost predicate PlainDates(ds: seq<Daily>) {
    forall i :: 0 <= i < |ds| ==> IsPlain(ds[i].date)
  }

  function DayNumber(d: Daily): int {
    match ParseDate(d.date) case Some(date) => DaysFromCivil(date) case None => 0
  }

  /**
   * Plainly written dates come out in calendar order, inside the window, and no more of them than the window has days.
   */
  lemma PlainNormalForm(days: seq<Day>, metric: Metric, w: Window, ds: seq<Daily>)
    requires IsWindow(w) && IsNormalForm(days, metric, w, ds) && PlainDates(ds)
    ensures forall i, j :: 0 <= i < j < |ds| ==> DayNumber(ds[i]) < DayNumber(ds[j])
    ensures forall i :: 0 <= i < |ds| ==> InWindow(ds[i].date, w)
    ensures |ds| <= InclusiveDays(w)
  {
    forall i | 0 <= i < |ds| ensures InWindow(ds[i].date, w)
    {
      assert ds[i] in ds;
    }
    forall i, j | 0 <= i < j < |ds| ensures DayNumber(ds[i]) < DayNumber(ds[j])
    {
      PlainDatesInOrder(ds[i].date, ds[j].date);
    }
    if ds != [] {
      Spread(ds, |ds| - 1);
    }
  }

  lemma {:induction false} Spread(ds: seq<Daily>, n: nat)
    requires n < |ds| && forall i, j :: 0 <= i < j < |ds| ==> DayNumber(ds[i]) < DayNumber(ds[j])
    ensures DayNumber(ds[n]) >= DayNumber(ds[0]) + n
  {
    if n > 0 {
      Spread(ds, n - 1);
    }
  }

  /** No two points that normalise together name the same calendar day. */
  ghost predicate OnePointPerDay(metric: Metric, w: Window)
    requires IsWindow(w)
  {
    forall days: seq<Day>, i, j :: Normalizes(days, metric, w) && 0 <= i < j < |days| ==>
        ParseDate(days[i].date) != ParseDate(days[j].date)
  }

  predicate DateInWindow(d: Date, w: Window)
    requires IsWindow(w)
  {
    && IsDate(d) && 1 <= d.year <= 9999
    && DaysFromCivil(ParseDate(w.startDate).value) <= DaysFromCivil(d) <= DaysFromCivil(ParseDate(w.endDate).value)
  }

  ghost predicate NoLeadingZeroInWindow(w: Window)
    requires IsWindow(w)
  {
    forall d :: DateInWindow(d, w) ==> NoLeadingZero(d)
  }

  function ZeroCounts(): Counts {
    Counts(Some(0), Some(0), Some(0), Some(0), Some(0), None)
  }

  lemma TwoSpellingsNormalize(d: Date, metric: Metric, w: Window) returns (days: seq<Day>)
    requires IsWindow(w) && DateInWindow(d, w) && !NoLeadingZero(d)
    ensures |days| == 2 && Normalizes(days, metric, w) && ParseDate(days[0].date) == ParseDate(days[1].date)
  {
    PlainParses(d);
    var t := SecondSpelling(d);
    ZeroDayNormalizes(d, Plain(d), metric, w);
    ZeroDayNormalizes(d, t, metric, w);
    days := [Day(Plain(d), ZeroCounts()), Day(t, ZeroCounts())];
    PairNormalizes(days[0], days[1], metric, w);
  }

  lemma PairNormalizes(first: Day, second: Day, metric: Metric, w: Window)
    requires IsWindow(w) && first.date != second.date
    requires NormalizeDay(first, metric, w).Ok? && NormalizeDay(second, metric, w).Ok?
    ensures Normalizes([first, second], metric, w)
  {
    var days := [first, second];
    forall i | 0 <= i < |days| ensures NormalizeDay(days[i], metric, w).Ok?
    {
      if i == 0 { assert days[i] == first; } else { assert days[i] == second; }
    }
  }

  lemma ZeroDayNormalizes(d: Date, s: string, metric: Metric, w: Window)
    requires IsWindow(w) && DateInWindow(d, w) && ParseDate(s) == Some(d)
    ensures NormalizeDay(Day(s, ZeroCounts()), metric, w).Ok?
  {
    assert Checked(ZeroCounts(), metric).Ok?;
  }

  /**
   * The duplicate check on date text allows one point per calendar day exactly when no date of the window has a
   * leading zero.
   */
  lemma OnePointPerDayIff(metric: Metric, w: Window)
    requires IsWindow(w)
    ensures OnePointPerDay(metric, w) <==> NoLeadingZeroInWindow(w)
  {
    if !NoLeadingZeroInWindow(w) {
      var d :| DateInWindow(d, w) && !NoLeadingZero(d);
      var days := TwoSpellingsNormalize(d, metric, w);
    } else {
      forall days: seq<Day>, i, j | Normalizes(days, metric, w) && 0 <= i < j < |days|
          ensures ParseDate(days[i].date) != ParseDate(days[j].date)
      {
        assert NormalizeDay(days[i], metric, w).Ok? && NormalizeDay(days[j], metric, w).Ok?;
        assert DateInWindow(ParseDate(days[i].date).value, w) && DateInWindow(ParseDate(days[j].date).value, w);
        SpellingIsPlain(days[i].date);
        SpellingIsPlain(days[j].date);
        PlainDatesInOrder(days[i].date, days[j].date);
      }
    }
  }
}
