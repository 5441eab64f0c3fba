/**
 The sort of the dashboard's table: `Array.prototype.sort` run in place
 with the comparator of `applyFiltersAndSearch`, the order of the values it
 compares, and `handleSort`, which picks the key and the direction.
 */
module Sorting {
  import opened Text
  import opened Entries

  // ---------------------------------------------------------------------
  // Sorting an array in place with a comparator
  // ---------------------------------------------------------------------

  /**
   A comparator whose "not after" relation `cmp(x, y) <= 0` is a total
   preorder: the condition under which `Array.prototype.sort` has a
   defined result.
   */
  ghost predicate Consistent<T(!new)>(cmp: (T, T) -> int) {
    (forall x, y :: cmp(x, y) <= 0 || cmp(y, x) <= 0)
    && (forall x, y, z :: cmp(x, y) <= 0 && cmp(y, z) <= 0 ==> cmp(x, z) <= 0)
  }

  /** No element is placed after one that the comparator puts after it. */
  ghost predicate SortedBy<T>(s: seq<T>, cmp: (T, T) -> int) {
    forall p, q :: 0 <= p < q < |s| ==> cmp(s[p], s[q]) <= 0
  }

  /**
   While the element at `j` moves left through the prefix `[0, i]`: that
   prefix without it is sorted, and it is not after anything to its right.
   */
  ghost predicate Inserting<T>(s: seq<T>, j: int, i: int, cmp: (T, T) -> int) {
    0 <= j <= i < |s|
    && (forall p, q :: 0 <= p < q <= i && p != j && q != j ==> cmp(s[p], s[q]) <= 0)
    && (forall q :: j < q <= i ==> cmp(s[j], s[q]) <= 0)
  }

  /** Swapping the moving element with a left neighbour that is after it keeps `Inserting`. */
  lemma InsertStep<T(!new)>(s: seq<T>, j: int, i: int, cmp: (T, T) -> int)
    requires Consistent(cmp) && Inserting(s, j, i, cmp)
    requires j > 0 && cmp(s[j - 1], s[j]) > 0
    ensures Inserting(s[j - 1 := s[j]][j := s[j - 1]], j - 1, i, cmp)
  {
    var t := s[j - 1 := s[j]][j := s[j - 1]];
    assert cmp(t[j - 1], t[j]) <= 0;
    forall q | j - 1 < q <= i ensures cmp(t[j - 1], t[q]) <= 0 {
      if q > j {
        assert t[q] == s[q];
      }
    }
  }

  /** Once the moving element stops, the prefix `[0, i]` is sorted. */
  lemma InsertDone<T(!new)>(s: seq<T>, j: int, i: int, cmp: (T, T) -> int)
    requires Consistent(cmp) && Inserting(s, j, i, cmp)
    requires j == 0 || cmp(s[j - 1], s[j]) <= 0
    ensures SortedBy(s[..i + 1], cmp)
  {
    var u := s[..i + 1];
    forall p, q | 0 <= p < q < |u| ensures cmp(u[p], u[q]) <= 0 {
      if q == j && p < j - 1 {
        assert cmp(s[p], s[j - 1]) <= 0;
      }
    }
  }

  /**
   `a.sort(cmp)`: an insertion sort that moves an element left only past
   elements the comparator puts strictly after it, so equal elements keep
   their order as ECMAScript's stable sort requires.
   */
  method SortInPlace<T(!new)>(a: array<T>, cmp: (T, T) -> int)
    requires Consistent(cmp)
    modifies a
    ensures SortedBy(a[..], cmp)
    ensures multiset(a[..]) == old(multiset(a[..]))
  {
    var i := 0;
    while i < a.Length
      invariant 0 <= i <= a.Length
      invariant SortedBy(a[..i], cmp)
      invariant multiset(a[..]) == old(multiset(a[..]))
    {
      Insert(a, i, cmp);
      i := i + 1;
    }
    assert a[..] == a[..a.Length];
  }

  /** One pass of the insertion sort: `a[i]` moves left until the prefix `[0, i]` is sorted. */
  method Insert<T(!new)>(a: array<T>, i: int, cmp: (T, T) -> int)
    requires Consistent(cmp)
    requires 0 <= i < a.Length && SortedBy(a[..i], cmp)
    modifies a
    ensures SortedBy(a[..i + 1], cmp)
    ensures multiset(a[..]) == old(multiset(a[..]))
  {
    var j := i;
    assert forall p :: 0 <= p < i ==> a[..i][p] == a[p];
    while j > 0 && cmp(a[j - 1], a[j]) > 0
      invariant Inserting(a[..], j, i, cmp)
      invariant multiset(a[..]) == old(multiset(a[..]))
    {
      ghost var before := a[..];
      InsertStep(before, j, i, cmp);
      SwapMultiset(before, j);
      a[j - 1], a[j] := a[j], a[j - 1];
      assert a[..] == before[j - 1 := before[j]][j := before[j - 1]];
      j := j - 1;
    }
    InsertDone(a[..], j, i, cmp);
    assert a[..i + 1] == a[..][..i + 1];
  }

  lemma SwapMultiset<T>(s: seq<T>, j: int)
    requires 0 < j < |s|
    ensures multiset(s[j - 1 := s[j]][j := s[j - 1]]) == multiset(s)
  {
    var u := s[j - 1 := s[j]];
    assert multiset(u) == multiset(s) - multiset{s[j - 1]} + multiset{s[j]};
    assert u[j] == s[j];
    assert multiset(u[j := s[j - 1]]) == multiset(u) - multiset{s[j]} + multiset{s[j - 1]};
  }

  // ---------------------------------------------------------------------
  // The order of column values
  // ---------------------------------------------------------------------

  /** JavaScript `<` on strings: code unit by code unit, a proper prefix first. */
  predicate TextLess(s: string, t: string) {
    if s == [] then t != []
    else t != [] && (s[0] < t[0] || (s[0] == t[0] && TextLess(s[1..], t[1..])))
  }

  lemma {:induction false} TextLessIrreflexive(s: string)
    ensures !TextLess(s, s)
  {
    if s != [] {
      TextLessIrreflexive(s[1..]);
    }
  }

  lemma {:induction false} TextLessTransitive(s: string, t: string, u: string)
    requires TextLess(s, t) && TextLess(t, u)
    ensures TextLess(s, u)
  {
    if s != [] && s[0] == t[0] && t[0] == u[0] {
      TextLessTransitive(s[1..], t[1..], u[1..]);
    }
  }

  /** Of two different strings, one is less than the other. */
  lemma {:induction false} TextLessTotal(s: string, t: string)
    ensures s == t || TextLess(s, t) || TextLess(t, s)
  {
    if s != [] && t != [] && s[0] == t[0] {
      TextLessTotal(s[1..], t[1..]);
      if s[1..] == t[1..] {
        assert s == [s[0]] + s[1..] && t == [t[0]] + t[1..];
      }
    }
  }

  /**
   The value a column contributes to a comparison. `<` coerces null to 0
   against a number; in a text column null is taken as the empty string.
   */
  datatype SortKey = NumKey(n: int) | TextKey(s: string)

  function KeyOf(e: Entry, f: Field): SortKey {
    match Get(e, f)
    case Null => if IsNumeric(f) then NumKey(0) else TextKey("")
    case Num(n) => NumKey(n)
    case Str(s) => TextKey(s)
  }

  /** `aValue < bValue`. */
  predicate KeyLess(a: SortKey, b: SortKey) {
    match (a, b)
    case (NumKey(x), NumKey(y)) => x < y
    case (TextKey(s), TextKey(t)) => TextLess(s, t)
    case (NumKey(_), TextKey(_)) => true
    case (TextKey(_), NumKey(_)) => false
  }

  /** The keys of one column never mix numbers and text. */
  lemma KeyKind(e: Entry, f: Field)
    ensures KeyOf(e, f).NumKey? <==> IsNumeric(f)
  {
  }

  /** `<` on keys is a strict total order. */
  lemma KeyLessOrder(a: SortKey, b: SortKey, c: SortKey)
    ensures !KeyLess(a, a)
    ensures KeyLess(a, b) && KeyLess(b, c) ==> KeyLess(a, c)
    ensures a == b || KeyLess(a, b) || KeyLess(b, a)
  {
    if a.TextKey? {
      TextLessIrreflexive(a.s);
      if b.TextKey? {
        TextLessTotal(a.s, b.s);
        if c.TextKey? && KeyLess(a, b) && KeyLess(b, c) {
          TextLessTransitive(a.s, b.s, c.s);
        }
      }
    }
  }

  // ---------------------------------------------------------------------
  // The table's sort configuration and comparator
  // ---------------------------------------------------------------------

  datatype Direction = Asc | Desc

  /** `sortConfig` when set: the column and the direction. */
  datatype SortConfig = SortConfig(key: Field, direction: Direction)

  /** The comparator passed to `filtered.sort`. */
  function Compare(a: Entry, b: Entry, config: SortConfig): int {
    var x, y := KeyOf(a, config.key), KeyOf(b, config.key);
    if KeyLess(x, y) then (if config.direction == Asc then -1 else 1)
    else if KeyLess(y, x) then (if config.direction == Asc then 1 else -1)
    else 0
  }

  /** "`x` is not after `y`": its key is not greater (ascending) or not smaller (descending). */
  predicate NotAfter(x: Entry, y: Entry, config: SortConfig) {
    var kx, ky := KeyOf(x, config.key), KeyOf(y, config.key);
    if config.direction == Asc then !KeyLess(ky, kx) else !KeyLess(kx, ky)
  }

  /** The comparator puts `a` first or ties exactly when `a` is not after `b`, and it is antisymmetric. */
  lemma CompareMeaning(a: Entry, b: Entry, config: SortConfig)
    ensures Compare(a, b, config) <= 0 <==> NotAfter(a, b, config)
    ensures Compare(a, b, config) == -Compare(b, a, config)
    ensures Compare(a, b, config) == 0 <==> KeyOf(a, config.key) == KeyOf(b, config.key)
  {
    var x, y := KeyOf(a, config.key), KeyOf(b, config.key);
    KeyLessOrder(x, y, x);
    KeyLessOrder(y, x, y);
  }

  /** The comparator of every sort configuration is consistent. */
  lemma CompareConsistent(config: SortConfig)
    ensures Consistent((a, b) => Compare(a, b, config))
  {
    var cmp := (a, b) => Compare(a, b, config);
    forall x, y ensures cmp(x, y) <= 0 || cmp(y, x) <= 0 {
      CompareMeaning(x, y, config);
    }
    forall x, y, z | cmp(x, y) <= 0 && cmp(y, z) <= 0 ensures cmp(x, z) <= 0 {
      CompareMeaning(x, y, config);
      CompareMeaning(y, z, config);
      CompareMeaning(x, z, config);
      var kx, ky, kz := KeyOf(x, config.key), KeyOf(y, config.key), KeyOf(z, config.key);
      KeyLessOrder(kx, ky, kz);
      KeyLessOrder(kz, ky, kx);
      KeyLessOrder(kx, kz, ky);
      KeyLessOrder(kz, kx, ky);
    }
  }

  /** Sorted by the configuration: keys never decrease (ascending) or never increase (descending). */
  ghost predicate SortedFor(s: seq<Entry>, config: SortConfig) {
    forall p, q :: 0 <= p < q < |s| ==> NotAfter(s[p], s[q], config)
  }

  /** `filtered.sort(compare)` for the configured column and direction. */
  method SortEntries(a: array<Entry>, config: SortConfig)
    modifies a
    ensures SortedFor(a[..], config)
    ensures multiset(a[..]) == old(multiset(a[..]))
  {
    var cmp := (x, y) => Compare(x, y, config);
    CompareConsistent(config);
    SortInPlace(a, cmp);
    forall p, q | 0 <= p < q < a.Length ensures NotAfter(a[p], a[q], config) {
      assert cmp(a[..][p], a[..][q]) <= 0;
      CompareMeaning(a[p], a[q], config);
    }
  }

  /** `handleSort(key)`: descending only when the same key is clicked again while ascending. */
  function ToggleSort(prev: Option<SortConfig>, key: Field): (r: SortConfig)
    ensures r.key == key
    ensures r.direction == Desc <==> prev == Some(SortConfig(key, Asc))
  {
    SortConfig(key, if prev.Some? && prev.value.key == key && prev.value.direction == Asc then Desc else Asc)
  }

  /** Clicking the same column twice flips the direction; a new column starts ascending. */
  lemma ToggleSortAlternates(prev: Option<SortConfig>, key: Field)
    ensures ToggleSort(Some(ToggleSort(prev, key)), key).direction != ToggleSort(prev, key).direction
    ensures prev.None? || prev.value.key != key ==> ToggleSort(prev, key).direction == Asc
  {
  }
}
