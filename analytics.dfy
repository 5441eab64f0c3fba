/**
 `getAnalytics` as a whole: every figure the dashboard's analytics panel
 shows, computed from the store and the calendar instants, and the
 percentages it shows next to the counts.
 */
module Analytics {
  import opened Entries
  import opened Filtering
  import opened Stats
  import opened Tables
  import opened Windows
  import opened Demographics
  import opened Distributions

  // ---------------------------------------------------------------------
  // Percentages of the store
  // ---------------------------------------------------------------------

  /** A JavaScript number as far as a quotient of two counts can make one. */
  datatype JsNumber = Finite(value: real) | Infinity | NaN

  /**
   `part / totalUsers * 100` as the dashboard writes it, with no guard:
   `0 / 0` is `NaN` and a positive count over 0 is `Infinity`.
   */
  function RatioAsWritten(part: nat, total: nat): JsNumber {
    if total > 0 then Finite(part as real / total as real * 100.0)
    else if part == 0 then NaN
    else Infinity
  }

  /** On an empty store every completion rate is `NaN`, which the panel shows as "NaN%". */
  lemma EmptyStoreRatesAreNaN()
    ensures var cc := Contacts([]);
      RatioAsWritten(cc.usersWithEmail, 0) == NaN
      && RatioAsWritten(cc.usersWithPhone, 0) == NaN
      && RatioAsWritten(cc.usersWithName, 0) == NaN
  {
    ContactsBounded([]);
  }

  /** The percentage with the empty store guarded, as the growth rates guard theirs: 0 when there is nobody. */
  function CompletionRate(part: nat, total: nat): real {
    if total > 0 then part as real / total as real * 100.0 else 0.0
  }

  /**
   The guarded percentage is always a number between 0 and 100 when the
   part is at most the whole, is 100 exactly when everybody is counted, and
   agrees with the unguarded one whenever the store is not empty.
   */
  lemma CompletionRateMeaning(part: nat, total: nat)
    requires part <= total
    ensures 0.0 <= CompletionRate(part, total) <= 100.0
    ensures total > 0 ==> RatioAsWritten(part, total) == Finite(CompletionRate(part, total))
    ensures total > 0 ==> (CompletionRate(part, total) == 100.0 <==> part == total)
    ensures total == 0 ==> CompletionRate(part, total) == 0.0
  {
    if total > 0 {
      var q := part as real / total as real;
      assert q * total as real == part as real;
      if q == 1.0 {
        assert part == total;
      }
    }
  }

  // ---------------------------------------------------------------------
  // The whole panel
  // ---------------------------------------------------------------------

  /** The time figures: window counts, growth rates, the growth chart and the hour and weekday histograms. */
  datatype TimeFigures = TimeFigures(
    windows: WindowCounts,
    dailyGrowthRate: real, weeklyGrowthRate: real, monthlyGrowthRate: real,
    growthData: seq<GrowthPoint>, dormantPeriods: nat,
    hourlyDistribution: seq<nat>, peakHour: HourCount,
    dayOfWeekDistribution: seq<nat>, peakDay: DayCount)

  ghost predicate TimeFiguresOf(store: seq<Entry>, c: Clock, f: TimeFigures) {
    && f.windows == WindowCountsOf(store, c)
    && f.dailyGrowthRate == GrowthRate(f.windows.usersToday, f.windows.usersYesterday)
    && f.weeklyGrowthRate == GrowthRate(f.windows.usersThisWeek, f.windows.usersLastWeek)
    && f.monthlyGrowthRate == GrowthRate(f.windows.usersThisMonth, f.windows.usersLastMonth)
    && f.growthData == SeriesSpec(store, c)
    && f.dormantPeriods == DormantPeriods(f.growthData) <= 31
    && f.hourlyDistribution == Hourly(store) && f.peakHour == PeakHour(store)
    && f.dayOfWeekDistribution == Weekly(store) && f.peakDay == PeakDay(store)
    && SumNat(f.hourlyDistribution) <= |store| && SumNat(f.dayOfWeekDistribution) <= |store|
  }

  /** The time part of `getAnalytics`, with the growth chart filled by its loop. */
  method TimeAnalytics(store: seq<Entry>, c: Clock) returns (f: TimeFigures)
    ensures TimeFiguresOf(store, c, f)
  {
    var w := WindowCountsOf(store, c);
    var growth := GrowthSeries(store, c);
    HistogramsCover(store);
    CountMono(store, ValidCreation, (e: Entry) => true);
    f := TimeFigures(
      w,
      GrowthRate(w.usersToday, w.usersYesterday),
      GrowthRate(w.usersThisWeek, w.usersLastWeek),
      GrowthRate(w.usersThisMonth, w.usersLastMonth),
      growth, DormantPeriods(growth),
      Hourly(store), PeakHour(store), Weekly(store), PeakDay(store));
  }

  /** The figures about people: ages, priority scores and contact details. */
  datatype PeopleFigures = PeopleFigures(
    ages: AgeStats, ageGroups: AgeGroups, medianAge: int,
    priority: PriorityStats,
    contacts: ContactCounts,
    emailCompletionRate: real, phoneCompletionRate: real, nameCompletionRate: real)

  ghost predicate AgeFiguresOf(store: seq<Entry>, ages: AgeStats, groups: AgeGroups, median: int) {
    && ages == AgeStatsOf(store) && groups == Groups(store)
    && GroupSum(groups) <= ages.ageDataCount <= |store|
    && (ages.ageDataCount == 0 ==> median == 0)
    && (ages.ageDataCount > 0 ==> MedianOf(AgeData(store), median))
    && ages.minAge <= median <= ages.maxAge
  }

  ghost predicate ContactFiguresOf(store: seq<Entry>, cc: ContactCounts, email: real, phone: real, name: real) {
    && cc == Contacts(store)
    && email == CompletionRate(cc.usersWithEmail, |store|)
    && phone == CompletionRate(cc.usersWithPhone, |store|)
    && name == CompletionRate(cc.usersWithName, |store|)
    && 0.0 <= email <= 100.0 && 0.0 <= phone <= 100.0 && 0.0 <= name <= 100.0
  }

  ghost predicate PeopleFiguresOf(store: seq<Entry>, f: PeopleFigures) {
    && AgeFiguresOf(store, f.ages, f.ageGroups, f.medianAge)
    && f.priority == PriorityStatsOf(store)
    && f.priority.highPriorityUsers + f.priority.mediumPriorityUsers + f.priority.lowPriorityUsers == |store|
    && ContactFiguresOf(store, f.contacts, f.emailCompletionRate, f.phoneCompletionRate, f.nameCompletionRate)
  }

  /** The age figures, given a median as `MedianAge` promises it. */
  lemma AgeFigures(store: seq<Entry>, median: int)
    requires AgeData(store) == [] ==> median == 0
    requires AgeData(store) != [] ==> MedianOf(AgeData(store), median)
    requires MinOr0(Ages(store)) <= median <= MaxOr0(Ages(store))
    ensures AgeFiguresOf(store, AgeStatsOf(store), Groups(store), median)
  {
    var ages := AgeStatsOf(store);
    assert ages.ageDataCount == |AgeData(store)| <= |store|;
    assert ages.minAge == MinOr0(Ages(store)) && ages.maxAge == MaxOr0(Ages(store));
    GroupsCover(store);
  }

  /** The contact counts and their completion rates. */
  lemma ContactFigures(store: seq<Entry>)
    ensures var cc := Contacts(store);
      ContactFiguresOf(store, cc, CompletionRate(cc.usersWithEmail, |store|),
        CompletionRate(cc.usersWithPhone, |store|), CompletionRate(cc.usersWithName, |store|))
  {
    var cc := Contacts(store);
    ContactsBounded(store);
    CompletionRateMeaning(cc.usersWithEmail, |store|);
    CompletionRateMeaning(cc.usersWithPhone, |store|);
    CompletionRateMeaning(cc.usersWithName, |store|);
  }

  /** The people part of `getAnalytics`, the median taken from an in-place sort. */
  method PeopleAnalytics(store: seq<Entry>) returns (f: PeopleFigures)
    ensures PeopleFiguresOf(store, f)
  {
    var median := MedianAge(store);
    AgeFigures(store, median);
    PriorityBands(store);
    ContactFigures(store);
    var cc := Contacts(store);
    f := PeopleFigures(
      AgeStatsOf(store), Groups(store), median,
      PriorityStatsOf(store),
      cc,
      CompletionRate(cc.usersWithEmail, |store|),
      CompletionRate(cc.usersWithPhone, |store|),
      CompletionRate(cc.usersWithName, |store|));
  }

  /** The location and batch tables. */
  datatype TableFigures = TableFigures(
    locationDistribution: seq<Bucket>, topLocations: seq<Bucket>, uniqueLocations: nat,
    usersWithoutLocation: nat,
    batchDistribution: seq<Bucket>, totalBatches: int, usersWithoutBatch: nat)

  ghost predicate TableFiguresOf(store: seq<Entry>, f: TableFigures) {
    && IsTally(f.locationDistribution, LocationKeys(store))
    && Total(f.locationDistribution) == |store|
    && f.uniqueLocations == |f.locationDistribution|
    && |f.topLocations| <= 10 && multiset(f.topLocations) <= multiset(f.locationDistribution)
    && (|f.topLocations| == 10 || |f.topLocations| == |f.locationDistribution|)
    && (forall p, q :: 0 <= p < q < |f.topLocations| ==> f.topLocations[p].count >= f.topLocations[q].count)
    && (forall b, x :: b in multiset(f.locationDistribution) - multiset(f.topLocations) && x in f.topLocations ==> b.count <= x.count)
    && f.usersWithoutLocation == UsersWithoutLocation(store)
    && IsTally(f.batchDistribution, BatchKeys(store))
    && f.totalBatches == TotalBatches(f.batchDistribution) >= 0
    && f.usersWithoutBatch == UsersWithoutBatch(store) == CountOf(f.batchDistribution, NoBatch)
  }

  /** The table part of `getAnalytics`: two `reduce`s into accumulator objects and a sorted top ten. */
  method TableAnalytics(store: seq<Entry>) returns (f: TableFigures)
    ensures TableFiguresOf(store, f)
  {
    var locations := LocationDistribution(store);
    LocationTable(store, locations);
    var top, unique := TopLocations(locations);
    var batches := BatchDistribution(store);
    NoBatchBucket(store, batches);
    BatchKeysInUse(store, batches);
    f := TableFigures(locations, top, unique, UsersWithoutLocation(store),
      batches, TotalBatches(batches), UsersWithoutBatch(store));
  }

  /** What `getAnalytics` returns, grouped by kind of figure. */
  datatype Report = Report(totalUsers: nat, time: TimeFigures, people: PeopleFigures, tables: TableFigures)

  /** `getAnalytics()`: every figure of the panel. */
  method Analyze(store: seq<Entry>, c: Clock) returns (r: Report)
    ensures r.totalUsers == |store|
    ensures TimeFiguresOf(store, c, r.time)
    ensures PeopleFiguresOf(store, r.people)
    ensures TableFiguresOf(store, r.tables)
  {
    var time := TimeAnalytics(store, c);
    var people := PeopleAnalytics(store);
    var tables := TableAnalytics(store);
    r := Report(|store|, time, people, tables);
  }
}
