/** sortDesc: the tally's entries streamed in HashMap iteration order, sorted by count
    descending with a stable sort, and collected into a LinkedHashMap whose iteration
    order is the ranking printMap shows. */
module Rank {
  import opened JavaValues
  import opened Ndjson
  import opened ReferenceScan

  /** A `HashMap.Entry<String, Integer>`. */
  type Entry = (Category, nat)

  /** `order` is an iteration order of m's entry set: every key exactly once. */
  predicate IsEnumeration(m: Tally, order: seq<Category>) {
    && |order| == |m|
    && (forall k :: k in order ==> k in m)
    && (forall k :: k in m ==> k in order)
    && (forall i, j :: 0 <= i < j < |order| ==> order[i] != order[j])
  }

  /** `resourceList.entrySet().stream()` when the map iterates its keys in `order`. */
  function Entries(m: Tally, order: seq<Category>): seq<Entry>
    requires forall k :: k in order ==> k in m
  {
    seq(|order|, i requires 0 <= i < |order| => (order[i], m[order[i]]))
  }

  predicate SortedDesc(s: seq<Entry>) {
    forall i, j :: 0 <= i < j < |s| ==> s[i].1 >= s[j].1
  }

  predicate DistinctKeys(s: seq<Entry>) {
    forall i, j :: 0 <= i < j < |s| ==> s[i].0 != s[j].0
  }

  function KeysOf(s: seq<Entry>): set<Category> {
    set x | x in s :: x.0
  }

  /** What iterating sortDesc's result yields: every key of m once, with its count,
      counts non-increasing. */
  predicate IsRanking(m: Tally, r: seq<Entry>) {
    && SortedDesc(r)
    && DistinctKeys(r)
    && KeysOf(r) == m.Keys
    && (forall i :: 0 <= i < |r| ==> r[i].0 in m && r[i].1 == m[r[i].0])
  }

  /** The entries of s whose count is v, in the order s has them. */
  function WithCount(s: seq<Entry>, v: nat): seq<Entry> {
    if s == [] then [] else (if s[0].1 == v then [s[0]] else []) + WithCount(s[1..], v)
  }

  /** Puts e in front of the first entry whose count is not larger than e's. */
  function Insert(e: Entry, s: seq<Entry>): seq<Entry> {
    if s == [] || e.1 >= s[0].1 then [e] + s else [s[0]] + Insert(e, s[1..])
  }

  /** `sorted(comparingByValue(reverseOrder()))`, by count descending. `Stream.sorted`
      promises stability only for ordered streams, and a HashMap's entry stream is not
      one; the sequential sort of OpenJDK is stable all the same. This insertion sort
      is that stable sort, and since `order` is free, every tie order stays reachable. */
  function StableSort(s: seq<Entry>): seq<Entry> {
    if s == [] then [] else Insert(s[0], StableSort(s[1..]))
  }

  /** `collect(toMap(getKey, getValue, (e1, e2) -> e1, LinkedHashMap::new))`: entries
      are put in order; a key seen before keeps its first value and its place. */
  function Collect(s: seq<Entry>): seq<Entry>
    decreases |s|
  {
    if s == [] then []
    else
      var c := Collect(s[..|s| - 1]);
      if s[|s| - 1].0 in KeysOf(c) then c else c + [s[|s| - 1]]
  }

  /** sortDesc (lines 195-202), for a map whose entry set iterates in `order`: the
      result holds exactly m's key-count pairs, counts non-increasing, and entries of
      equal count keep the iteration order. */
  function SortDesc(m: Tally, order: seq<Category>): (r: seq<Entry>)
    requires IsEnumeration(m, order)
    ensures IsRanking(m, r)
    ensures multiset(r) == multiset(Entries(m, order))
    ensures forall v :: WithCount(r, v) == WithCount(Entries(m, order), v)
  {
    var entries := Entries(m, order);
    var sorted := StableSort(entries);
    StableSortFacts(entries);
    CollectDistinct(sorted);
    EntriesRanked(m, order, sorted);
    Collect(sorted)
  }

  lemma {:induction false} InsertPermutes(e: Entry, s: seq<Entry>)
    ensures multiset(Insert(e, s)) == multiset{e} + multiset(s)
    decreases |s|
  {
    if !(s == [] || e.1 >= s[0].1) {
      InsertPermutes(e, s[1..]);
      assert s == [s[0]] + s[1..];
    }
  }

  lemma {:induction false} InsertSorted(e: Entry, s: seq<Entry>)
    requires SortedDesc(s)
    ensures SortedDesc(Insert(e, s))
    decreases |s|
  {
    if !(s == [] || e.1 >= s[0].1) {
      var rest := Insert(e, s[1..]);
      InsertSorted(e, s[1..]);
      InsertPermutes(e, s[1..]);
      forall x | x in rest
        ensures x.1 <= s[0].1
      {
        assert x in multiset(rest);
        if x != e {
          assert x in multiset(s[1..]);
        }
      }
    }
  }

  lemma {:induction false} InsertDistinct(e: Entry, s: seq<Entry>)
    requires DistinctKeys(s) && e.0 !in KeysOf(s)
    ensures DistinctKeys(Insert(e, s))
    decreases |s|
  {
    if s == [] || e.1 >= s[0].1 {
      forall j | 0 <= j < |s|
        ensures s[j].0 != e.0
      {
        assert s[j] in s;
      }
    } else {
      var rest := Insert(e, s[1..]);
      assert KeysOf(s[1..]) <= KeysOf(s);
      InsertDistinct(e, s[1..]);
      InsertPermutes(e, s[1..]);
      assert s[0] in s;
      forall x | x in rest
        ensures x.0 != s[0].0
      {
        assert x in multiset(rest);
        if x != e {
          assert x in multiset(s[1..]);
          var j :| 0 <= j < |s[1..]| && s[1..][j] == x;
          assert s[j + 1] == x;
        }
      }
    }
  }

  lemma WithCountCons(e: Entry, s: seq<Entry>, v: nat)
    ensures WithCount([e] + s, v) == (if e.1 == v then [e] else []) + WithCount(s, v)
  {
    assert ([e] + s)[1..] == s;
  }

  lemma {:induction false} InsertWithCount(e: Entry, s: seq<Entry>, v: nat)
    ensures WithCount(Insert(e, s), v) == (if e.1 == v then [e] else []) + WithCount(s, v)
    decreases |s|
  {
    if s == [] || e.1 >= s[0].1 {
      WithCountCons(e, s, v);
    } else {
      InsertWithCount(e, s[1..], v);
      WithCountCons(s[0], Insert(e, s[1..]), v);
      WithCountCons(s[0], s[1..], v);
      assert [s[0]] + s[1..] == s;
    }
  }

  /** The stable sort permutes, sorts, and keeps equal counts in their input order. */
  lemma {:induction false} StableSortFacts(s: seq<Entry>)
    ensures multiset(StableSort(s)) == multiset(s)
    ensures SortedDesc(StableSort(s))
    ensures DistinctKeys(s) ==> DistinctKeys(StableSort(s))
    ensures forall v :: WithCount(StableSort(s), v) == WithCount(s, v)
    decreases |s|
  {
    if s != [] {
      var rest := StableSort(s[1..]);
      StableSortFacts(s[1..]);
      assert s == [s[0]] + s[1..];
      InsertPermutes(s[0], rest);
      InsertSorted(s[0], rest);
      if DistinctKeys(s) {
        TailDistinct(s);
        forall x | x in rest
          ensures x.0 != s[0].0
        {
          assert x in multiset(rest);
          assert x in s[1..];
        }
        InsertDistinct(s[0], rest);
      }
      forall v
        ensures WithCount(StableSort(s), v) == WithCount(s, v)
      {
        InsertWithCount(s[0], rest, v);
      }
    }
  }

  /** Dropping the first entry keeps the keys distinct, and the first key does not
      occur again. */
  lemma TailDistinct(s: seq<Entry>)
    requires s != [] && DistinctKeys(s)
    ensures DistinctKeys(s[1..])
    ensures forall x | x in s[1..] :: x.0 != s[0].0
  {
    forall i, j | 0 <= i < j < |s[1..]|
      ensures s[1..][i].0 != s[1..][j].0
    {
      assert s[1..][i] == s[i + 1] && s[1..][j] == s[j + 1];
    }
    forall x | x in s[1..]
      ensures x.0 != s[0].0
    {
      var j :| 0 <= j < |s[1..]| && s[1..][j] == x;
      assert s[j + 1] == x;
    }
  }

  /** Collecting entries whose keys are already distinct changes nothing: the merge
      function is never called. */
  lemma {:induction false} CollectDistinct(s: seq<Entry>)
    requires DistinctKeys(s)
    ensures Collect(s) == s
    decreases |s|
  {
    if s != [] {
      var n := |s| - 1;
      var prefix := s[..n];
      assert DistinctKeys(prefix);
      CollectDistinct(prefix);
      forall x | x in prefix
        ensures x.0 != s[n].0
      {
        var j :| 0 <= j < n && prefix[j] == x;
        assert s[j] == x;
      }
      assert prefix + [s[n]] == s;
    }
  }

  /** A sorted permutation of the entries is a ranking of the map. */
  lemma EntriesRanked(m: Tally, order: seq<Category>, r: seq<Entry>)
    requires IsEnumeration(m, order)
    requires multiset(r) == multiset(Entries(m, order)) && SortedDesc(r)
    requires DistinctKeys(Entries(m, order)) ==> DistinctKeys(r)
    ensures IsRanking(m, r)
  {
    var entries := Entries(m, order);
    forall i | 0 <= i < |r|
      ensures r[i].0 in m && r[i].1 == m[r[i].0]
    {
      assert r[i] in multiset(entries);
      var j :| 0 <= j < |entries| && entries[j] == r[i];
    }
    assert DistinctKeys(entries);
    forall k | k in m
      ensures k in KeysOf(r)
    {
      var j :| 0 <= j < |order| && order[j] == k;
      assert entries[j] in multiset(r);
    }
  }

  /** An iteration order for any map: the keys taken one at a time in an unspecified
      order, as HashMap iteration leaves it open. */
  method EntryOrder(m: Tally) returns (order: seq<Category>)
    ensures IsEnumeration(m, order)
  {
    var rest := m.Keys;
    order := [];
    while rest != {}
      invariant rest <= m.Keys
      invariant forall k :: k in order <==> k in m && k !in rest
      invariant |order| + |rest| == |m|
      invariant forall i, j :: 0 <= i < j < |order| ==> order[i] != order[j]
      decreases |rest|
    {
      var k :| k in rest;
      order := order + [k];
      rest := rest - {k};
    }
  }
}
