/**
 The per-person statistics of `getAnalytics`: ages (the entries with a
 positive age, their average, extremes, median and age groups), priority
 scores (average, extremes and the high, medium and low bands) and the
 contact-information counts.
 */
module Demographics {
  import opened Text
  import opened Entries
  import opened Filtering
  import opened Stats
  import opened Sorting

  // ---------------------------------------------------------------------
  // Ages
  // ---------------------------------------------------------------------

  /** `e.age && e.age > 0`. */
  predicate HasAge(e: Entry) {
    TruthyNum(e.age) && e.age.value > 0
  }

  /** `e.age`, read as 0 when absent. */
  function AgeOf(e: Entry): int {
    OrZero(e.age)
  }

  /** `ageData`: exactly the entries with a positive age, in store order. */
  function AgeData(store: seq<Entry>): (r: seq<Entry>)
    ensures forall e :: e in r <==> e in store && e.age.Some? && e.age.value > 0
    ensures forall e :: e in r ==> AgeOf(e) > 0
  {
    Filter(store, HasAge)
  }

  /** `ageData.map((e: Entry) => e.age)`. */
  function Ages(store: seq<Entry>): seq<int> {
    Map(AgeData(store), AgeOf)
  }

  /** The four age groups, with inclusive bounds. */
  datatype AgeGroups = AgeGroups(from18To25: nat, from26To35: nat, from36To45: nat, from46: nat)

  predicate In18To25(e: Entry) { 18 <= AgeOf(e) <= 25 }
  predicate In26To35(e: Entry) { 26 <= AgeOf(e) <= 35 }
  predicate In36To45(e: Entry) { 36 <= AgeOf(e) <= 45 }
  predicate From46(e: Entry) { AgeOf(e) >= 46 }

  function Groups(store: seq<Entry>): AgeGroups {
    var data := AgeData(store);
    AgeGroups(Count(data, In18To25), Count(data, In26To35), Count(data, In36To45), Count(data, From46))
  }

  function GroupSum(g: AgeGroups): nat {
    g.from18To25 + g.from26To35 + g.from36To45 + g.from46
  }

  /** The groups do not overlap: 25 is in the first, 26 in the second, 17 in none. */
  lemma GroupsDisjoint(e: Entry)
    ensures !(In18To25(e) && In26To35(e)) && !(In18To25(e) && In36To45(e)) && !(In18To25(e) && From46(e))
    ensures !(In26To35(e) && In36To45(e)) && !(In26To35(e) && From46(e)) && !(In36To45(e) && From46(e))
    ensures AgeOf(e) == 25 ==> In18To25(e)
    ensures AgeOf(e) == 26 ==> In26To35(e)
    ensures AgeOf(e) == 17 ==> !In18To25(e) && !In26To35(e) && !In36To45(e) && !From46(e)
  {
  }

  /**
   The groups hold every entry of `ageData` except those under 18, so
   they add up to at most `ageData.length`.
   */
  lemma GroupsCover(store: seq<Entry>)
    ensures GroupSum(Groups(store)) + Count(AgeData(store), (e: Entry) => AgeOf(e) < 18) == |AgeData(store)|
    ensures GroupSum(Groups(store)) <= |AgeData(store)|
  {
    var data := AgeData(store);
    CountDisjoint(data, In18To25, In26To35, (e: Entry) => 18 <= AgeOf(e) <= 35);
    CountDisjoint(data, (e: Entry) => 18 <= AgeOf(e) <= 35, In36To45, (e: Entry) => 18 <= AgeOf(e) <= 45);
    CountDisjoint(data, (e: Entry) => 18 <= AgeOf(e) <= 45, From46, (e: Entry) => AgeOf(e) >= 18);
    CountComplement(data, (e: Entry) => AgeOf(e) >= 18, (e: Entry) => AgeOf(e) < 18);
  }

  /** `usersWithoutAge = totalUsers - ageData.length` counts the entries with no positive age. */
  lemma WithoutAge(store: seq<Entry>)
    ensures |store| - |AgeData(store)| == Count(store, (e: Entry) => !HasAge(e))
  {
    CountComplement(store, HasAge, (e: Entry) => !HasAge(e));
  }

  /** The age statistics `getAnalytics` returns; all 0 when no entry has an age. */
  datatype AgeStats = AgeStats(avgAge: real, minAge: int, maxAge: int, ageDataCount: nat, usersWithoutAge: int)

  function AgeStatsOf(store: seq<Entry>): AgeStats {
    var ages := Ages(store);
    AgeStats(Mean(ages), MinOr0(ages), MaxOr0(ages), |AgeData(store)|, |store| - |AgeData(store)|)
  }

  /** With no age the statistics are 0; otherwise the average lies between the youngest and the oldest, who are positive. */
  lemma AgeStatsBounds(store: seq<Entry>)
    ensures var st := AgeStatsOf(store);
      && (AgeData(store) == [] ==> st.avgAge == 0.0 && st.minAge == 0 && st.maxAge == 0 && st.ageDataCount == 0)
      && (AgeData(store) != [] ==> 0 < st.minAge && st.minAge as real <= st.avgAge <= st.maxAge as real)
      && st.usersWithoutAge >= 0
  {
    var ages := Ages(store);
    if ages != [] {
      MeanBetween(ages);
      assert AgeOf(AgeData(store)[0]) > 0;
    }
  }

  /** `(a, b) => a.age - b.age`. */
  function ByAge(a: Entry, b: Entry): int {
    AgeOf(a) - AgeOf(b)
  }

  lemma ByAgeConsistent()
    ensures Consistent(ByAge)
  {
  }

  /** `m` splits `data` at its middle: at most `n / 2` entries are younger, and at most `n - n / 2 - 1` older. */
  ghost predicate MedianOf(data: seq<Entry>, m: int) {
    && (exists e :: e in data && AgeOf(e) == m)
    && Count(data, (e: Entry) => AgeOf(e) < m) <= |data| / 2
    && Count(data, (e: Entry) => AgeOf(e) > m) <= |data| - |data| / 2 - 1
  }

  /** In an age-sorted copy, the entry at `n / 2` is a median of the original. */
  lemma SortedMiddle(data: seq<Entry>, sorted: seq<Entry>)
    requires data != []
    requires multiset(sorted) == multiset(data) && SortedBy(sorted, ByAge)
    ensures MedianOf(data, AgeOf(sorted[|sorted| / 2]))
  {
    var n := |sorted|;
    assert n == |multiset(data)| == |data|;
    var h := n / 2;
    var m := AgeOf(sorted[h]);
    assert sorted[h] in multiset(data);
    forall p | h <= p < n ensures !(AgeOf(sorted[p]) < m) {
      if p > h {
        assert ByAge(sorted[h], sorted[p]) <= 0;
      }
    }
    CountPrefixBound(sorted, (e: Entry) => AgeOf(e) < m, h);
    forall p | 0 <= p < h + 1 ensures !(AgeOf(sorted[p]) > m) {
      if p < h {
        assert ByAge(sorted[p], sorted[h]) <= 0;
      }
    }
    CountSuffixBound(sorted, (e: Entry) => AgeOf(e) > m, h + 1);
    CountPermutation(sorted, data, (e: Entry) => AgeOf(e) < m);
    CountPermutation(sorted, data, (e: Entry) => AgeOf(e) > m);
  }

  /**
   `medianAge`: `ageData.sort((a, b) => a.age - b.age)` in place, then the
   age at index `floor(n / 2)`, or 0 when there is none. The result is a
   median of the ages, so it lies between `minAge` and `maxAge`.
   */
  method MedianAge(store: seq<Entry>) returns (m: int)
    ensures AgeData(store) == [] ==> m == 0
    ensures AgeData(store) != [] ==> MedianOf(AgeData(store), m)
    ensures MinOr0(Ages(store)) <= m <= MaxOr0(Ages(store))
  {
    var data := AgeData(store);
    if |data| == 0 {
      return 0;
    }
    var a := new Entry[|data|](i requires 0 <= i < |data| => data[i]);
    assert a[..] == data;
    ByAgeConsistent();
    SortInPlace(a, ByAge);
    var middle := a[a.Length / 2];
    m := OrZero(middle.age);
    SortedMiddle(data, a[..]);
    MedianBetween(store, m);
  }

  /** A median of the ages lies between the smallest and the largest. */
  lemma MedianBetween(store: seq<Entry>, m: int)
    requires AgeData(store) != [] && MedianOf(AgeData(store), m)
    ensures MinOr0(Ages(store)) <= m <= MaxOr0(Ages(store))
  {
    var data := AgeData(store);
    var e :| e in data && AgeOf(e) == m;
    var k :| 0 <= k < |data| && data[k] == e;
    assert Ages(store)[k] == m;
  }

  // ---------------------------------------------------------------------
  // Priority scores
  // ---------------------------------------------------------------------

  /** `e.priority_score || 0`. */
  function PriorityOf(e: Entry): int {
    OrZero(e.priorityScore)
  }

  /** `priorityData`: the entries whose score is neither null nor undefined. */
  function PriorityData(store: seq<Entry>): (r: seq<Entry>)
    ensures forall e :: e in r <==> e in store && e.priorityScore.Some?
  {
    Filter(store, (e: Entry) => e.priorityScore.Some?)
  }

  function Scores(store: seq<Entry>): seq<int> {
    Map(PriorityData(store), PriorityOf)
  }

  predicate HighPriority(e: Entry) { PriorityOf(e) >= 8 }
  predicate MediumPriority(e: Entry) { 5 <= PriorityOf(e) < 8 }
  predicate LowPriority(e: Entry) { PriorityOf(e) < 5 }

  datatype PriorityStats = PriorityStats(
    avgPriority: real, minPriority: int, maxPriority: int,
    highPriorityUsers: nat, mediumPriorityUsers: nat, lowPriorityUsers: nat)

  function PriorityStatsOf(store: seq<Entry>): PriorityStats {
    var scores := Scores(store);
    PriorityStats(Mean(scores), MinOr0(scores), MaxOr0(scores),
      Count(store, HighPriority), Count(store, MediumPriority), Count(store, LowPriority))
  }

  /**
   The three bands, with an absent score read as 0, sort every entry into
   exactly one of them; the average score lies between the extremes.
   */
  lemma PriorityBands(store: seq<Entry>)
    ensures var st := PriorityStatsOf(store);
      && st.highPriorityUsers + st.mediumPriorityUsers + st.lowPriorityUsers == |store|
      && (PriorityData(store) == [] ==> st.avgPriority == 0.0 && st.minPriority == 0 && st.maxPriority == 0)
      && (PriorityData(store) != [] ==> st.minPriority as real <= st.avgPriority <= st.maxPriority as real)
  {
    CountDisjoint(store, HighPriority, MediumPriority, (e: Entry) => PriorityOf(e) >= 5);
    CountComplement(store, (e: Entry) => PriorityOf(e) >= 5, LowPriority);
    if Scores(store) != [] {
      MeanBetween(Scores(store));
    }
  }

  /** An entry without a score counts as low priority. */
  lemma AbsentScoreIsLow(e: Entry)
    requires e.priorityScore.None?
    ensures LowPriority(e) && !MediumPriority(e) && !HighPriority(e)
  {
  }

  // ---------------------------------------------------------------------
  // Contact information
  // ---------------------------------------------------------------------

  /** `e.instagram && e.linkedin && e.twitter`: truthiness only, blanks count. */
  predicate AllSocial(e: Entry) {
    Truthy(e.instagram) && Truthy(e.linkedin) && Truthy(e.twitter)
  }

  /** The same three handles each present and not blank, as the per-network counts test them. */
  predicate AllSocialFilled(e: Entry) {
    Filled(e.instagram) && Filled(e.linkedin) && Filled(e.twitter)
  }

  /** `e.name && e.email && e.phone && e.age`. */
  predicate CompleteProfile(e: Entry) {
    Truthy(e.name) && Truthy(e.email) && Truthy(e.phone) && TruthyNum(e.age)
  }

  datatype ContactCounts = ContactCounts(
    usersWithEmail: nat, usersWithPhone: nat, usersWithName: nat,
    usersWithInstagram: nat, usersWithLinkedIn: nat, usersWithTwitter: nat,
    usersWithAllSocial: nat, usersWithAccessCode: nat, completeProfiles: nat)

  function Contacts(store: seq<Entry>): ContactCounts {
    ContactCounts(
      Count(store, (e: Entry) => Filled(e.email)), Count(store, (e: Entry) => Filled(e.phone)), Count(store, (e: Entry) => Filled(e.name)),
      Count(store, (e: Entry) => Filled(e.instagram)), Count(store, (e: Entry) => Filled(e.linkedin)), Count(store, (e: Entry) => Filled(e.twitter)),
      Count(store, AllSocial), Count(store, (e: Entry) => Filled(e.accessCode)), Count(store, CompleteProfile))
  }

  /**
   `usersWithAllSocial` counts at least the entries with all three handles
   filled in, and no more than the entries with an Instagram handle at all
   (blank or not).
   */
  lemma AllSocialBounds(store: seq<Entry>)
    ensures Count(store, AllSocialFilled) <= Contacts(store).usersWithAllSocial
    ensures Contacts(store).usersWithAllSocial <= Count(store, (e: Entry) => Truthy(e.instagram))
  {
    CountMono(store, AllSocialFilled, AllSocial);
    CountMono(store, AllSocial, (e: Entry) => Truthy(e.instagram));
  }

  /**
   The truthiness test lets a blank handle through: an entry whose three
   handles are a single space counts towards `usersWithAllSocial` but
   towards none of the per-network counts.
   */
  lemma AllSocialCountsBlanks(e: Entry)
    requires e.instagram == Some(" ") && e.linkedin == Some(" ") && e.twitter == Some(" ")
    ensures Contacts([e]).usersWithAllSocial == 1
    ensures Contacts([e]).usersWithInstagram == 0
    ensures Contacts([e]).usersWithLinkedIn == 0
    ensures Contacts([e]).usersWithTwitter == 0
  {
    assert IsBlank(" ") by {
      assert IsSpace(" "[0]);
    }
  }

  /** Each contact count is at most the number of entries. */
  lemma ContactsBounded(store: seq<Entry>)
    ensures var cc := Contacts(store);
      cc.usersWithEmail <= |store| && cc.usersWithPhone <= |store| && cc.usersWithName <= |store|
      && cc.usersWithInstagram <= |store| && cc.usersWithLinkedIn <= |store| && cc.usersWithTwitter <= |store|
      && cc.usersWithAllSocial <= |store| && cc.usersWithAccessCode <= |store|
      && cc.completeProfiles <= Count(store, (e: Entry) => TruthyNum(e.age))
  {
    CountMono(store, CompleteProfile, (e: Entry) => TruthyNum(e.age));
  }

  /** Contacts adds up: the counts over two batches are the sums of their counts. */
  lemma ContactsConcat(a: seq<Entry>, b: seq<Entry>)
    ensures var (ca, cb, cab) := (Contacts(a), Contacts(b), Contacts(a + b));
      cab.usersWithEmail == ca.usersWithEmail + cb.usersWithEmail
      && cab.usersWithPhone == ca.usersWithPhone + cb.usersWithPhone
      && cab.usersWithName == ca.usersWithName + cb.usersWithName
      && cab.usersWithInstagram == ca.usersWithInstagram + cb.usersWithInstagram
      && cab.usersWithLinkedIn == ca.usersWithLinkedIn + cb.usersWithLinkedIn
      && cab.usersWithTwitter == ca.usersWithTwitter + cb.usersWithTwitter
      && cab.usersWithAllSocial == ca.usersWithAllSocial + cb.usersWithAllSocial
      && cab.usersWithAccessCode == ca.usersWithAccessCode + cb.usersWithAccessCode
      && cab.completeProfiles == ca.completeProfiles + cb.completeProfiles
  {
    CountConcat(a, b, (e: Entry) => Filled(e.email));
    CountConcat(a, b, (e: Entry) => Filled(e.phone));
    CountConcat(a, b, (e: Entry) => Filled(e.name));
    CountConcat(a, b, (e: Entry) => Filled(e.instagram));
    CountConcat(a, b, (e: Entry) => Filled(e.linkedin));
    CountConcat(a, b, (e: Entry) => Filled(e.twitter));
    CountConcat(a, b, AllSocial);
    CountConcat(a, b, (e: Entry) => Filled(e.accessCode));
    CountConcat(a, b, CompleteProfile);
  }

  /** For one entry, each count is 1 exactly when the source's test holds for it. */
  lemma ContactsOfOne(e: Entry)
    ensures var c := Contacts([e]);
      (c.usersWithEmail == 1 <==> Filled(e.email)) && c.usersWithEmail <= 1
      && (c.usersWithPhone == 1 <==> Filled(e.phone)) && c.usersWithPhone <= 1
      && (c.usersWithName == 1 <==> Filled(e.name)) && c.usersWithName <= 1
      && (c.usersWithInstagram == 1 <==> Filled(e.instagram)) && c.usersWithInstagram <= 1
      && (c.usersWithLinkedIn == 1 <==> Filled(e.linkedin)) && c.usersWithLinkedIn <= 1
      && (c.usersWithTwitter == 1 <==> Filled(e.twitter)) && c.usersWithTwitter <= 1
      && (c.usersWithAllSocial == 1 <==> AllSocial(e)) && c.usersWithAllSocial <= 1
      && (c.usersWithAccessCode == 1 <==> Filled(e.accessCode)) && c.usersWithAccessCode <= 1
      && (c.completeProfiles == 1 <==> CompleteProfile(e)) && c.completeProfiles <= 1
  {
  }
}
