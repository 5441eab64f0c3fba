/**
 Frequency tables built the way `getAnalytics` builds `locationDistribution`
 and `batchDistribution`: a `reduce` over the entries that bumps
 `acc[key]`, keys kept in the order they were first seen, and the
 "top N" list made by sorting the table's entries by count, largest first.
 */
module Tables {
  import opened Entries
  import opened Sorting

  /** One property of the accumulator object: a key and its count. */
  datatype Bucket = Bucket(key: string, count: nat)

  function KeysOf(t: seq<Bucket>): (r: seq<string>)
    ensures |r| == |t|
    ensures forall i :: 0 <= i < |t| ==> r[i] == t[i].key
  {
    if t == [] then [] else [t[0].key] + KeysOf(t[1..])
  }

  /** The sum of the counts. */
  function Total(t: seq<Bucket>): nat {
    if t == [] then 0 else t[0].count + Total(t[1..])
  }

  /** The keys in the order they first occur, each once. */
  function Distinct(keys: seq<string>): seq<string> {
    if keys == [] then []
    else
      var d := Distinct(keys[..|keys| - 1]);
      if keys[|keys| - 1] in d then d else d + [keys[|keys| - 1]]
  }

  lemma {:induction false} DistinctMembers(keys: seq<string>)
    ensures forall k :: k in Distinct(keys) <==> k in keys
    ensures forall i, j :: 0 <= i < j < |Distinct(keys)| ==> Distinct(keys)[i] != Distinct(keys)[j]
    decreases |keys|
  {
    if keys != [] {
      var init := keys[..|keys| - 1];
      DistinctMembers(init);
      assert keys == init + [keys[|keys| - 1]];
    }
  }

  /** `acc[key]`: the position of the key in the table, or `|t|` when it is absent. */
  function Find(t: seq<Bucket>, key: string): (i: nat)
    ensures i <= |t|
    ensures i < |t| ==> t[i].key == key
    ensures i == |t| ==> key !in KeysOf(t)
  {
    if t == [] then 0 else if t[0].key == key then 0 else 1 + Find(t[1..], key)
  }

  /** `acc[key] || 0`. */
  function CountOf(t: seq<Bucket>, key: string): nat {
    var i := Find(t, key);
    if i < |t| then t[i].count else 0
  }

  lemma {:induction false} TotalBump(t: seq<Bucket>, i: nat)
    requires i < |t|
    ensures Total(t[i := Bucket(t[i].key, t[i].count + 1)]) == Total(t) + 1
    decreases |t|
  {
    if i > 0 {
      TotalBump(t[1..], i - 1);
      assert t[i := Bucket(t[i].key, t[i].count + 1)][1..] == t[1..][i - 1 := Bucket(t[i].key, t[i].count + 1)];
    }
  }

  lemma {:induction false} TotalAppend(t: seq<Bucket>, b: Bucket)
    ensures Total(t + [b]) == Total(t) + b.count
    decreases |t|
  {
    if t == [] {
      assert t + [b] == [b];
    } else {
      TotalAppend(t[1..], b);
      assert (t + [b])[1..] == t[1..] + [b];
    }
  }

  lemma KeysAppend(t: seq<Bucket>, b: Bucket)
    ensures KeysOf(t + [b]) == KeysOf(t) + [b.key]
  {
  }

  /** A table is the tally of `keys`: its labels and counts. */
  ghost predicate IsTally(t: seq<Bucket>, keys: seq<string>) {
    KeysOf(t) == Distinct(keys)
    && (forall i :: 0 <= i < |t| ==> t[i].count == multiset(keys)[t[i].key])
    && Total(t) == |keys|
  }

  /**
   `keys.reduce((acc, key) => { acc[key] = (acc[key] || 0) + 1; return acc }, {})`:
   one bucket per distinct key in order of first occurrence, holding the
   number of times the key occurs; the counts add up to the number of keys.
   */
  method Tally(keys: seq<string>) returns (t: seq<Bucket>)
    ensures IsTally(t, keys)
  {
    t := [];
    for n := 0 to |keys|
      invariant IsTally(t, keys[..n])
    {
      var key := keys[n];
      assert keys[..n + 1] == keys[..n] + [key];
      var i := Find(t, key);
      if i < |t| {
        BumpKeepsTally(t, keys[..n], i);
        t := t[i := Bucket(key, t[i].count + 1)];
      } else {
        AppendKeepsTally(t, keys[..n], key);
        t := t + [Bucket(key, 1)];
      }
    }
    assert keys[..|keys|] == keys;
  }

  /** `acc[key] = acc[key] + 1` on a key already present keeps the table a tally. */
  lemma BumpKeepsTally(t: seq<Bucket>, seen: seq<string>, i: nat)
    requires IsTally(t, seen) && i < |t|
    ensures IsTally(t[i := Bucket(t[i].key, t[i].count + 1)], seen + [t[i].key])
  {
    var key := t[i].key;
    var t' := t[i := Bucket(key, t[i].count + 1)];
    DistinctMembers(seen);
    TotalBump(t, i);
    assert KeysOf(t') == KeysOf(t);
    assert key in seen by {
      assert KeysOf(t)[i] == key;
    }
    forall j | 0 <= j < |t'| ensures t'[j].count == multiset(seen + [key])[t'[j].key] {
      if j != i {
        assert KeysOf(t)[j] != KeysOf(t)[i];
      }
    }
  }

  /** `acc[key] = 0 + 1` on a new key keeps the table a tally. */
  lemma AppendKeepsTally(t: seq<Bucket>, seen: seq<string>, key: string)
    requires IsTally(t, seen) && key !in KeysOf(t)
    ensures IsTally(t + [Bucket(key, 1)], seen + [key])
  {
    DistinctMembers(seen);
    TotalAppend(t, Bucket(key, 1));
    KeysAppend(t, Bucket(key, 1));
    assert key !in seen;
    assert (seen + [key])[..|seen + [key]| - 1] == seen;
  }

  /** In a tally, looking a key up gives the number of times it occurs (0 when it never does). */
  lemma TallyCountOf(t: seq<Bucket>, keys: seq<string>, key: string)
    requires IsTally(t, keys)
    ensures CountOf(t, key) == multiset(keys)[key]
    ensures key in KeysOf(t) <==> key in keys
  {
    DistinctMembers(keys);
  }

  /** The comparator `([, a], [, b]) => b - a`. */
  function ByCountDescending(x: Bucket, y: Bucket): int {
    y.count - x.count
  }

  lemma ByCountConsistent()
    ensures Consistent(ByCountDescending)
  {
  }

  /** The first `m` buckets of a sorted copy of the table are a top-`m` list of it. */
  lemma TopOfSorted(t: seq<Bucket>, sorted: seq<Bucket>, m: nat)
    requires multiset(sorted) == multiset(t) && SortedBy(sorted, ByCountDescending)
    requires m <= |sorted|
    ensures forall p, q :: 0 <= p < q < m ==> sorted[..m][p].count >= sorted[..m][q].count
    ensures multiset(sorted[..m]) <= multiset(t)
    ensures forall b, x :: b in multiset(t) - multiset(sorted[..m]) && x in sorted[..m] ==> b.count <= x.count
  {
    var top, rest := sorted[..m], sorted[m..];
    assert sorted == top + rest;
    assert multiset(sorted) == multiset(top) + multiset(rest);
    forall b, x | b in multiset(t) - multiset(top) && x in top ensures b.count <= x.count {
      assert b in multiset(rest);
      var q :| 0 <= q < |rest| && rest[q] == b;
      var p :| 0 <= p < |top| && top[p] == x;
      assert ByCountDescending(sorted[p], sorted[m + q]) <= 0;
    }
    forall p, q | 0 <= p < q < m ensures top[p].count >= top[q].count {
      assert ByCountDescending(sorted[p], sorted[q]) <= 0;
    }
  }

  /**
   `Object.entries(table).sort(([, a], [, b]) => b - a).slice(0, n)`: at
   most `n` buckets of the table, largest counts first, and no bucket left
   out has a larger count than one kept.
   */
  method Top(t: seq<Bucket>, n: nat) returns (top: seq<Bucket>)
    ensures |top| == if |t| < n then |t| else n
    ensures forall p, q :: 0 <= p < q < |top| ==> top[p].count >= top[q].count
    ensures multiset(top) <= multiset(t)
    ensures forall b, x :: b in multiset(t) - multiset(top) && x in top ==> b.count <= x.count
  {
    var a := new Bucket[|t|](i requires 0 <= i < |t| => t[i]);
    assert a[..] == t;
    ByCountConsistent();
    SortInPlace(a, ByCountDescending);
    var m := if |t| < n then |t| else n;
    TopOfSorted(t, a[..], m);
    top := a[..m];
  }
}
