/**
 The bucket tables of `getAnalytics`: the location and batch
 distributions (built by a `reduce` over an accumulator object), the top
 ten locations, and the hour-of-day and day-of-week histograms with their
 peaks.
 */
module Distributions {
  import opened Text
  import opened Entries
  import opened Filtering
  import opened Stats
  import opened Tables

  // ---------------------------------------------------------------------
  // Locations
  // ---------------------------------------------------------------------

  /** `entry.location || 'Unknown'`. */
  function LocationKey(e: Entry): string {
    if Truthy(e.location) then e.location.value else "Unknown"
  }

  function LocationKeys(store: seq<Entry>): seq<string> {
    Map(store, LocationKey)
  }

  /** `locationDistribution`. */
  method LocationDistribution(store: seq<Entry>) returns (t: seq<Bucket>)
    ensures IsTally(t, LocationKeys(store))
  {
    t := Tally(LocationKeys(store));
  }

  predicate UnknownLocation(e: Entry) {
    LocationKey(e) == "Unknown"
  }

  /**
   The location table's counts add up to the number of entries, and its
   keys are exactly the locations of the entries, `'Unknown'` standing for
   a missing one.
   */
  lemma {:induction false} LocationTable(store: seq<Entry>, t: seq<Bucket>)
    requires IsTally(t, LocationKeys(store))
    ensures Total(t) == |store|
    ensures forall k :: k in KeysOf(t) <==> exists e :: e in store && LocationKey(e) == k
  {
    var keys := LocationKeys(store);
    DistinctMembers(keys);
    forall k ensures k in KeysOf(t) <==> exists e :: e in store && LocationKey(e) == k {
      if k in keys {
        var i :| 0 <= i < |keys| && keys[i] == k;
        assert store[i] in store && LocationKey(store[i]) == k;
      }
      if exists e :: e in store && LocationKey(e) == k {
        var e :| e in store && LocationKey(e) == k;
        var i :| 0 <= i < |store| && store[i] == e;
        assert keys[i] == k;
      }
    }
  }

  /**
   The `'Unknown'` bucket holds every entry without a location, plus any
   whose location is literally that word.
   */
  lemma {:induction false} UnknownBucket(store: seq<Entry>, t: seq<Bucket>)
    requires IsTally(t, LocationKeys(store))
    ensures CountOf(t, "Unknown") == Count(store, UnknownLocation)
    ensures Count(store, (e: Entry) => !Truthy(e.location)) <= CountOf(t, "Unknown")
  {
    TallyCountOf(t, LocationKeys(store), "Unknown");
    MapOccurrences(store, LocationKey, "Unknown", UnknownLocation);
    CountMono(store, (e: Entry) => !Truthy(e.location), UnknownLocation);
  }

  /** `usersWithoutLocation`: `!e.location || e.location.trim() === ''`. */
  function UsersWithoutLocation(store: seq<Entry>): nat {
    Count(store, (e: Entry) => !Filled(e.location))
  }

  /**
   Entries without a usable location and entries with one make up the
   store; a blank location is without one here but gets its own bucket in
   the table, not `'Unknown'`.
   */
  lemma {:induction false} WithoutLocationComplement(store: seq<Entry>)
    ensures UsersWithoutLocation(store) + Count(store, (e: Entry) => Filled(e.location)) == |store|
    ensures Count(store, (e: Entry) => !Truthy(e.location)) <= UsersWithoutLocation(store)
  {
    CountComplement(store, (e: Entry) => Filled(e.location), (e: Entry) => !Filled(e.location));
    CountMono(store, (e: Entry) => !Truthy(e.location), (e: Entry) => !Filled(e.location));
  }

  /**
   `topLocations`: the table's entries sorted by count, largest first, cut
   to ten; `uniqueLocations` is the number of keys.
   */
  method TopLocations(t: seq<Bucket>) returns (top: seq<Bucket>, unique: nat)
    ensures |top| <= 10 && |top| <= |t|
    ensures |top| == 10 || |top| == |t|
    ensures forall p, q :: 0 <= p < q < |top| ==> top[p].count >= top[q].count
    ensures multiset(top) <= multiset(t)
    ensures forall b, x :: b in multiset(t) - multiset(top) && x in top ==> b.count <= x.count
    ensures unique == |KeysOf(t)|
  {
    top := Top(t, 10);
    unique := |t|;
  }

  // ---------------------------------------------------------------------
  // Batches
  // ---------------------------------------------------------------------

  const NoBatch: string := "No Batch"

  /** `entry.batch_number || 'No Batch'`, as the key of the accumulator object. */
  function BatchKey(e: Entry): string {
    if TruthyNum(e.batchNumber) then IntToText(e.batchNumber.value) else NoBatch
  }

  function BatchKeys(store: seq<Entry>): seq<string> {
    Map(store, BatchKey)
  }

  /** A numbered batch never lands in the `'No Batch'` bucket; batch 0, being falsy, does. */
  lemma BatchKeyMeaning(e: Entry)
    ensures BatchKey(e) == NoBatch <==> !TruthyNum(e.batchNumber)
    ensures e.batchNumber == Some(0) ==> BatchKey(e) == NoBatch
    ensures TruthyNum(e.batchNumber) ==> ParseInt(BatchKey(e)) == e.batchNumber.value
  {
    if TruthyNum(e.batchNumber) {
      var key := IntToText(e.batchNumber.value);
      assert IsDigit(key[0]) || key[0] == '-';
      assert key[0] != NoBatch[0];
      IntToTextRoundTrip(e.batchNumber.value);
    }
  }

  /** `batchDistribution`. */
  method BatchDistribution(store: seq<Entry>) returns (t: seq<Bucket>)
    ensures IsTally(t, BatchKeys(store))
  {
    t := Tally(BatchKeys(store));
  }

  /** `usersWithoutBatch`: `!e.batch_number`. */
  function UsersWithoutBatch(store: seq<Entry>): nat {
    Count(store, (e: Entry) => !TruthyNum(e.batchNumber))
  }

  /** `Object.keys(batchDistribution).length - (batchDistribution['No Batch'] ? 1 : 0)`. */
  function TotalBatches(t: seq<Bucket>): int {
    |t| - (if CountOf(t, NoBatch) > 0 then 1 else 0)
  }

  predicate WithoutBatch(e: Entry) {
    !TruthyNum(e.batchNumber)
  }

  /** The `'No Batch'` bucket counts exactly the entries without a batch, `usersWithoutBatch`. */
  lemma {:induction false} NoBatchBucket(store: seq<Entry>, t: seq<Bucket>)
    requires IsTally(t, BatchKeys(store))
    ensures Total(t) == |store|
    ensures CountOf(t, NoBatch) == UsersWithoutBatch(store)
    ensures TotalBatches(t) == |t| - (if UsersWithoutBatch(store) > 0 then 1 else 0)
  {
    var keys := BatchKeys(store);
    TallyCountOf(t, keys, NoBatch);
    forall e | e in store ensures WithoutBatch(e) <==> BatchKey(e) == NoBatch {
      BatchKeyMeaning(e);
    }
    MapOccurrences(store, BatchKey, NoBatch, WithoutBatch);
    FilterSame(store, WithoutBatch, (e: Entry) => !TruthyNum(e.batchNumber));
  }

  /**
   Apart from `'No Batch'`, the batch table's keys are exactly the batch
   numbers in use, so `totalBatches` counts the distinct batches.
   */
  lemma {:induction false} BatchKeysInUse(store: seq<Entry>, t: seq<Bucket>)
    requires IsTally(t, BatchKeys(store))
    ensures forall k :: k in KeysOf(t) && k != NoBatch <==>
      exists e :: e in store && TruthyNum(e.batchNumber) && IntToText(e.batchNumber.value) == k
    ensures TotalBatches(t) >= 0
  {
    var keys := BatchKeys(store);
    forall k ensures k in KeysOf(t) <==> k in keys {
      TallyCountOf(t, keys, k);
    }
    TallyCountOf(t, keys, NoBatch);
    if CountOf(t, NoBatch) > 0 {
      assert NoBatch in KeysOf(t);
    }
    BatchKeysNamed(store);
  }

  /** The batch keys other than `'No Batch'` are the texts of the batch numbers in use. */
  lemma BatchKeysNamed(store: seq<Entry>)
    ensures forall k :: k in BatchKeys(store) && k != NoBatch <==>
      exists e :: e in store && TruthyNum(e.batchNumber) && IntToText(e.batchNumber.value) == k
  {
    var keys := BatchKeys(store);
    assert |keys| == |store|;
    forall k | k in keys && k != NoBatch
      ensures exists e :: e in store && TruthyNum(e.batchNumber) && IntToText(e.batchNumber.value) == k
    {
      var i :| 0 <= i < |keys| && keys[i] == k;
      assert BatchKey(store[i]) == k;
      assert store[i] in store;
    }
    forall e | e in store && TruthyNum(e.batchNumber)
      ensures IntToText(e.batchNumber.value) in keys && IntToText(e.batchNumber.value) != NoBatch
    {
      BatchKeyMeaning(e);
      var i :| 0 <= i < |store| && store[i] == e;
      assert keys[i] == BatchKey(e);
    }
  }

  // ---------------------------------------------------------------------
  // Hours and weekdays
  // ---------------------------------------------------------------------

  /** `new Date(entry.created_at).getHours()`; an invalid date matches no hour. */
  function HourSlot(e: Entry): int {
    if e.createdAt.moment.Some? then e.createdAt.moment.value.hour else -1
  }

  /** `new Date(entry.created_at).getDay()`. */
  function WeekdaySlot(e: Entry): int {
    if e.createdAt.moment.Some? then e.createdAt.moment.value.weekday else -1
  }

  predicate ValidCreation(e: Entry) {
    e.createdAt.moment.Some?
  }

  /** `hourlyDistribution`, one count per hour 0..23. */
  function Hourly(store: seq<Entry>): seq<nat> {
    Histogram(store, HourSlot, 24)
  }

  /** `dayOfWeekDistribution`, one count per day 0..6 starting on Sunday. */
  function Weekly(store: seq<Entry>): seq<nat> {
    Histogram(store, WeekdaySlot, 7)
  }

  /**
   The 24 hour buckets and the 7 day buckets each add up to the entries
   with a valid creation date: all of them when every date is valid.
   */
  lemma {:induction false} HistogramsCover(store: seq<Entry>)
    ensures |Hourly(store)| == 24 && |Weekly(store)| == 7
    ensures SumNat(Hourly(store)) == Count(store, ValidCreation)
    ensures SumNat(Weekly(store)) == Count(store, ValidCreation)
    ensures (forall e :: e in store ==> ValidCreation(e)) ==> SumNat(Hourly(store)) == |store| == SumNat(Weekly(store))
  {
    HistogramTotal(store, HourSlot, 24, ValidCreation);
    HistogramTotal(store, WeekdaySlot, 7, ValidCreation);
    if forall e :: e in store ==> ValidCreation(e) {
      FilterAll(store, ValidCreation);
    }
  }

  const DayNames: seq<string> := ["Sunday", "Monday", "Tuesday", "Wednesday", "Thursday", "Friday", "Saturday"]

  /** `{ hour, count }`. */
  datatype HourCount = HourCount(hour: nat, count: nat)

  /** `{ day, count }`. */
  datatype DayCount = DayCount(day: string, count: nat)

  /** `peakHour`: the earliest hour with the most sign-ups. */
  function PeakHour(store: seq<Entry>): (r: HourCount)
    ensures r.hour < 24
    ensures r.count == Hourly(store)[r.hour]
    ensures forall h :: 0 <= h < 24 ==> Hourly(store)[h] <= r.count
    ensures forall h :: 0 <= h < r.hour ==> Hourly(store)[h] < r.count
  {
    var counts := Hourly(store);
    var i := PeakIndex(counts);
    HourCount(i, counts[i])
  }

  /** `peakDay`: the first day of the week with the most sign-ups, by name. */
  function PeakDay(store: seq<Entry>): (r: DayCount)
    ensures exists d :: (0 <= d < 7 && r.day == DayNames[d] && r.count == Weekly(store)[d]
                        && (forall j :: 0 <= j < 7 ==> Weekly(store)[j] <= r.count)
                        && (forall j :: 0 <= j < d ==> Weekly(store)[j] < r.count))
  {
    var counts := Weekly(store);
    var i := PeakIndex(counts);
    DayCount(DayNames[i], counts[i])
  }
}
