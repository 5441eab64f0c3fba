/**
 The time-window part of `getAnalytics`: how many entries were created
 since an instant, between two instants, or up to one; the growth rates
 between consecutive periods; and the 31-day growth series. The instants
 themselves (`startOfDay(now)`, `subWeeks(thisWeek, 1)`, `subDays(now, i)`,
 ...) are computed by a calendar library in local time and are given here
 as a `Clock`.
 */
module Windows {
  import opened Entries
  import opened Filtering

  /** `new Date(entry.created_at) >= t`: false for an invalid date. */
  predicate CreatedSince(e: Entry, t: int) {
    e.createdAt.moment.Some? && e.createdAt.moment.value.time >= t
  }

  /** `date >= lo && date < hi` on the creation date. */
  predicate CreatedBetween(e: Entry, lo: int, hi: int) {
    e.createdAt.moment.Some? && lo <= e.createdAt.moment.value.time < hi
  }

  /** `new Date(entry.created_at) <= t`. */
  predicate CreatedUntil(e: Entry, t: int) {
    e.createdAt.moment.Some? && e.createdAt.moment.value.time <= t
  }

  /** `store.filter(entry => new Date(entry.created_at) >= t).length`. */
  function Since(store: seq<Entry>, t: int): nat {
    Count(store, e => CreatedSince(e, t))
  }

  /** The entries created in `[lo, hi)`. */
  function Between(store: seq<Entry>, lo: int, hi: int): nat {
    Count(store, e => CreatedBetween(e, lo, hi))
  }

  /** The entries created at or before `t`. */
  function Until(store: seq<Entry>, t: int): nat {
    Count(store, e => CreatedUntil(e, t))
  }

  /** A later window start counts no more entries. */
  lemma SinceMono(store: seq<Entry>, early: int, late: int)
    requires early <= late
    ensures Since(store, late) <= Since(store, early)
  {
    CountMono(store, e => CreatedSince(e, late), e => CreatedSince(e, early));
  }

  /** A later end counts no fewer entries. */
  lemma UntilMono(store: seq<Entry>, early: int, late: int)
    requires early <= late
    ensures Until(store, early) <= Until(store, late)
  {
    CountMono(store, e => CreatedUntil(e, early), e => CreatedUntil(e, late));
  }

  /**
   The window `[lo, hi)` and the window `>= hi` never share an entry, and
   together they are the window `>= lo`.
   */
  lemma SinceSplit(store: seq<Entry>, lo: int, hi: int)
    requires lo <= hi
    ensures forall e :: CreatedBetween(e, lo, hi) ==> !CreatedSince(e, hi)
    ensures Between(store, lo, hi) + Since(store, hi) == Since(store, lo)
  {
    CountDisjoint(store, e => CreatedBetween(e, lo, hi), e => CreatedSince(e, hi), e => CreatedSince(e, lo));
  }

  /** Adjacent windows add up. */
  lemma BetweenSplit(store: seq<Entry>, lo: int, mid: int, hi: int)
    requires lo <= mid <= hi
    ensures Between(store, lo, mid) + Between(store, mid, hi) == Between(store, lo, hi)
  {
    CountDisjoint(store, e => CreatedBetween(e, lo, mid), e => CreatedBetween(e, mid, hi),
      e => CreatedBetween(e, lo, hi));
  }

  /** One day of the growth chart: `subDays(now, i)`, its label, and the start of it and of the next day. */
  datatype Day = Day(name: string, at: int, start: int, next: int)

  /**
   The instants `getAnalytics` reads off the calendar, in milliseconds:
   `now`, `startOfDay(now)`, `subDays(today, 1)`, `startOfWeek(now)`,
   `subWeeks(thisWeek, 1)`, `startOfMonth(now)`, `subMonths(thisMonth, 1)`,
   `startOfYear(now)`, `subDays(now, 7 | 30 | 90)`, `subHours(now, 24 | 1)`,
   and, for `i` days back, the day the growth chart shows.
   */
  datatype Clock = Clock(
    now: int, today: int, yesterday: int, thisWeek: int, lastWeek: int,
    thisMonth: int, lastMonth: int, thisYear: int,
    ago7Days: int, ago30Days: int, ago90Days: int, ago24Hours: int, ago1Hour: int,
    daysBack: nat -> Day)

  /** What the calendar guarantees about these instants. */
  ghost predicate Calendar(c: Clock) {
    && c.thisYear <= c.thisMonth <= c.today <= c.now
    && c.lastMonth <= c.thisMonth
    && c.lastWeek <= c.thisWeek <= c.today
    && c.yesterday < c.today
    && c.ago90Days <= c.ago30Days <= c.ago7Days <= c.ago24Hours <= c.ago1Hour <= c.now
    && c.daysBack(0).at == c.now && c.daysBack(0).start == c.today
    && (forall i: nat :: c.daysBack(i).start <= c.daysBack(i).at < c.daysBack(i).next)
    && (forall i: nat, j: nat :: j == i + 1 ==> c.daysBack(j).at <= c.daysBack(i).at)
    && (forall i: nat, j: nat :: j == i + 1 ==> c.daysBack(j).next == c.daysBack(i).start)
  }

  /** The window counts, in the names `getAnalytics` returns them under. */
  datatype WindowCounts = WindowCounts(
    usersToday: nat, usersYesterday: nat, usersThisWeek: nat, usersLastWeek: nat,
    usersThisMonth: nat, usersLastMonth: nat, usersThisYear: nat,
    usersLast7Days: nat, usersLast30Days: nat, usersLast90Days: nat,
    last24Hours: nat, recentUsers: nat)

  function WindowCountsOf(store: seq<Entry>, c: Clock): WindowCounts {
    WindowCounts(
      Since(store, c.today), Between(store, c.yesterday, c.today),
      Since(store, c.thisWeek), Between(store, c.lastWeek, c.thisWeek),
      Since(store, c.thisMonth), Between(store, c.lastMonth, c.thisMonth),
      Since(store, c.thisYear),
      Since(store, c.ago7Days), Since(store, c.ago30Days), Since(store, c.ago90Days),
      Since(store, c.ago24Hours), Since(store, c.ago1Hour))
  }

  /** The windows are nested as the calendar nests them, and yesterday and today split the window from yesterday on. */
  lemma WindowsNested(store: seq<Entry>, c: Clock)
    requires Calendar(c)
    ensures var w := WindowCountsOf(store, c);
      && w.usersToday <= w.usersThisWeek
      && w.usersToday <= w.usersThisMonth <= w.usersThisYear
      && w.usersLast7Days <= w.usersLast30Days <= w.usersLast90Days
      && w.recentUsers <= w.last24Hours <= w.usersLast7Days
      && w.usersThisYear <= |store|
      && w.usersYesterday + w.usersToday == Since(store, c.yesterday)
      && w.usersLastWeek + w.usersThisWeek == Since(store, c.lastWeek)
      && w.usersLastMonth + w.usersThisMonth == Since(store, c.lastMonth)
  {
    SinceMono(store, c.thisWeek, c.today);
    SinceMono(store, c.thisMonth, c.today);
    SinceMono(store, c.thisYear, c.thisMonth);
    SinceMono(store, c.ago30Days, c.ago7Days);
    SinceMono(store, c.ago90Days, c.ago30Days);
    SinceMono(store, c.ago24Hours, c.ago1Hour);
    SinceMono(store, c.ago7Days, c.ago24Hours);
    SinceSplit(store, c.yesterday, c.today);
    SinceSplit(store, c.lastWeek, c.thisWeek);
    SinceSplit(store, c.lastMonth, c.thisMonth);
  }

  /** `prev > 0 ? (cur - prev) / prev * 100 : 0`. */
  function GrowthRate(cur: nat, prev: nat): real {
    if prev > 0 then (cur as real - prev as real) / prev as real * 100.0 else 0.0
  }

  /**
   The rate is 0 when there was nothing the period before; otherwise it
   gives back the current count from the previous one, is never below -100,
   and is positive, zero or negative as the count rose, stayed or fell.
   */
  lemma GrowthRateMeaning(cur: nat, prev: nat)
    ensures prev == 0 ==> GrowthRate(cur, prev) == 0.0
    ensures prev > 0 ==> cur as real == prev as real + GrowthRate(cur, prev) * prev as real / 100.0
    ensures prev > 0 ==> GrowthRate(cur, prev) >= -100.0
    ensures prev > 0 ==> (GrowthRate(cur, prev) > 0.0 <==> cur > prev)
    ensures prev > 0 ==> (GrowthRate(cur, prev) == 0.0 <==> cur == prev)
  {
    if prev > 0 {
      var p, d := prev as real, cur as real - prev as real;
      var q := d / p;
      assert q * p == d;
      assert GrowthRate(cur, prev) == q * 100.0;
      assert (q + 1.0) * p == d + p >= 0.0;
      if q > 0.0 {
        assert q * p > 0.0;
      }
      if d > 0.0 {
        assert q > 0.0;
      }
    }
  }

  /** One point of `growthData`: the day's label, the entries created by that instant, and those created that day. */
  datatype GrowthPoint = GrowthPoint(date: string, total: nat, daily: nat)

  function PointFor(store: seq<Entry>, d: Day): GrowthPoint {
    GrowthPoint(d.name, Until(store, d.at), Between(store, d.start, d.next))
  }

  /** The 31 points, oldest (`i = 30`) first. */
  function SeriesSpec(store: seq<Entry>, c: Clock): (r: seq<GrowthPoint>)
    ensures |r| == 31
  {
    seq(31, k requires 0 <= k < 31 => PointFor(store, c.daysBack(30 - k)))
  }

  /** The `for (let i = 30; i >= 0; i--)` loop that pushes one point per day. */
  method GrowthSeries(store: seq<Entry>, c: Clock) returns (series: seq<GrowthPoint>)
    ensures series == SeriesSpec(store, c)
  {
    series := [];
    var i := 30;
    while i >= 0
      invariant -1 <= i <= 30
      invariant |series| == 30 - i
      invariant forall k :: 0 <= k < |series| ==> series[k] == PointFor(store, c.daysBack(30 - k))
    {
      var d := c.daysBack(i);
      var point := GrowthPoint(d.name, Until(store, d.at), Between(store, d.start, d.next));
      series := series + [point];
      i := i - 1;
    }
  }

  /** Over the series, the running total never decreases. */
  lemma SeriesTotalsGrow(store: seq<Entry>, c: Clock)
    requires Calendar(c)
    ensures forall k, m :: 0 <= k <= m < 31 ==> SeriesSpec(store, c)[k].total <= SeriesSpec(store, c)[m].total
  {
    var s := SeriesSpec(store, c);
    forall k, m | 0 <= k <= m < 31 ensures s[k].total <= s[m].total {
      assert s[k].total == Until(store, c.daysBack(30 - k).at);
      assert s[m].total == Until(store, c.daysBack(30 - m).at);
      DaysBackOrdered(c, 30 - m, 30 - k);
      UntilMono(store, c.daysBack(30 - k).at, c.daysBack(30 - m).at);
    }
  }

  /**
   The chart ends today: its last point counts every entry up to `now`, and
   its daily count is the part of `usersToday` created before tomorrow.
   */
  lemma LastPointIsToday(store: seq<Entry>, c: Clock)
    requires Calendar(c)
    ensures SeriesSpec(store, c)[30].total == Until(store, c.now)
    ensures SeriesSpec(store, c)[30].daily == Between(store, c.today, c.daysBack(0).next)
    ensures SeriesSpec(store, c)[30].daily <= WindowCountsOf(store, c).usersToday
  {
    var d := c.daysBack(0);
    assert SeriesSpec(store, c)[30] == PointFor(store, d);
    CountMono(store, e => CreatedBetween(e, c.today, d.next), e => CreatedSince(e, c.today));
  }

  lemma {:induction false} DaysBackOrdered(c: Clock, i: nat, j: nat)
    requires Calendar(c)
    requires i <= j
    ensures c.daysBack(j).at <= c.daysBack(i).at
    ensures c.daysBack(j).next <= c.daysBack(i).next
    ensures c.daysBack(j).start <= c.daysBack(i).start
    decreases j - i
  {
    if i < j {
      DaysBackOrdered(c, i, j - 1);
      assert c.daysBack(j).next == c.daysBack(j - 1).start;
    }
  }

  function SumDaily(s: seq<GrowthPoint>): nat {
    if s == [] then 0 else SumDaily(s[..|s| - 1]) + s[|s| - 1].daily
  }

  /** One more point adds the sign-ups of its day. */
  lemma DailyLast(store: seq<Entry>, c: Clock, n: nat)
    requires 1 <= n <= 31
    ensures var d := c.daysBack(31 - n);
      SumDaily(SeriesSpec(store, c)[..n]) == SumDaily(SeriesSpec(store, c)[..n - 1]) + Between(store, d.start, d.next)
  {
    var s := SeriesSpec(store, c);
    assert s[..n][..n - 1] == s[..n - 1];
  }

  lemma TileStep(store: seq<Entry>, c: Clock, i: nat)
    requires Calendar(c)
    requires i < 30
    ensures var d := c.daysBack(i);
      Between(store, c.daysBack(30).start, c.daysBack(i + 1).next) + Between(store, d.start, d.next)
      == Between(store, c.daysBack(30).start, d.next)
  {
    DaysBackOrdered(c, i + 1, 30);
    BetweenSplit(store, c.daysBack(30).start, c.daysBack(i).start, c.daysBack(i).next);
  }

  /**
   The daily counts of the first `n` points add up to the entries created
   from the start of the oldest day to the end of the `n`-th: the days
   tile that stretch of time.
   */
  lemma {:induction false} DailyTile(store: seq<Entry>, c: Clock, n: nat)
    requires Calendar(c)
    requires 1 <= n <= 31
    ensures SumDaily(SeriesSpec(store, c)[..n]) == Between(store, c.daysBack(30).start, c.daysBack(31 - n).next)
  {
    DailyLast(store, c, n);
    if n == 1 {
      assert SeriesSpec(store, c)[..0] == [];
    } else {
      DailyTile(store, c, n - 1);
      TileStep(store, c, 31 - n);
    }
  }

  /** `growthData.filter(day => day.daily === 0).length`. */
  function DormantPeriods(series: seq<GrowthPoint>): (r: nat)
    ensures r <= |series|
  {
    Count(series, (p: GrowthPoint) => p.daily == 0)
  }

  /** Days with no sign-up and days with some cover the whole series. */
  lemma DormantComplement(series: seq<GrowthPoint>)
    ensures DormantPeriods(series) + Count(series, (p: GrowthPoint) => p.daily > 0) == |series|
  {
    CountComplement(series, (p: GrowthPoint) => p.daily == 0, (p: GrowthPoint) => p.daily > 0);
  }
}
