/** Counting samples by a column: a tally over a map, sorted by count. */
module SampleCounts {
  import opened Text
  import opened Events
  import opened Ordering

  datatype Bucket = Bucket(key: string, count: int)

  datatype CountResult = CountResult(groupBy: string, total: int, counts: seq<Bucket>, runID: int, from: int, to: int)

  function OrEmpty(s: string): string {
    if s == "" then "(empty)" else s
  }

  /** The grouping of a count query; anything unknown groups by status. */
  function SampleGroupKey(s: Sample, countBy: string): string {
    if countBy == "board" then Itoa(s.board)
    else if countBy == "pon" then Itoa(s.pon)
    else if countBy == "eth_link" then OrEmpty(s.ethLink)
    else if countBy == "onu_type" then OrEmpty(s.onuType)
    else OrEmpty(s.status)
  }

  function CountKey(list: seq<Sample>, countBy: string, key: string): nat {
    if list == [] then 0
    else CountKey(list[..|list| - 1], countBy, key) + if SampleGroupKey(list[|list| - 1], countBy) == key then 1 else 0
  }

  function Tally(list: seq<Sample>, countBy: string): map<string, int> {
    if list == [] then map[]
    else
      var before, key := Tally(list[..|list| - 1], countBy), SampleGroupKey(list[|list| - 1], countBy);
      before[key := (if key in before then before[key] else 0) + 1]
  }

  predicate BucketBefore(a: Bucket, b: Bucket) {
    a.count > b.count || (a.count == b.count && StrLess(a.key, b.key))
  }

  /** Each value that occurs, with how often it occurs, the most frequent first and ties by value. */
  ghost predicate Exact(out: seq<Bucket>, list: seq<Sample>, countBy: string) {
    && Increasing(BucketBefore, out)
    && forall b :: b in out <==> b.count == CountKey(list, countBy, b.key) > 0
  }

  lemma {:induction false} TallyCounts(list: seq<Sample>, countBy: string, key: string)
    ensures key in Tally(list, countBy) <==> CountKey(list, countBy, key) > 0
    ensures key in Tally(list, countBy) ==> Tally(list, countBy)[key] == CountKey(list, countBy, key)
  {
    hide SampleGroupKey;
    if list != [] {
      TallyCounts(list[..|list| - 1], countBy, key);
    }
  }

  lemma {:induction false} BucketOrder()
    ensures StrictWeakOrder(BucketBefore)
  {
    hide StrLess;
    forall a: Bucket, b: Bucket, c: Bucket
      ensures !BucketBefore(a, a) && (BucketBefore(a, b) && BucketBefore(b, c) ==> BucketBefore(a, c))
              && (!BucketBefore(a, b) && !BucketBefore(b, c) ==> !BucketBefore(a, c))
    {
      StrictStrings(a.key, b.key, c.key);
    }
  }

  /** Ranges over the tally in no particular order, then sorts. */
  method SortTally(ghost list: seq<Sample>, ghost countBy: string, tally: map<string, int>) returns (out: seq<Bucket>)
    requires tally == Tally(list, countBy)
    ensures Exact(out, list, countBy)
  {
    hide Tally, CountKey, BucketBefore;
    var buckets: seq<Bucket> := [];
    var todo := tally.Keys;
    while todo != {}
      invariant todo <= tally.Keys
      invariant forall b :: b in buckets <==> b.key in tally && b.key !in todo && b.count == tally[b.key]
      invariant forall i, j :: 0 <= i < j < |buckets| ==> buckets[i].key != buckets[j].key
      decreases todo
    {
      var key :| key in todo;
      assert forall i :: 0 <= i < |buckets| ==> buckets[i] in buckets;
      buckets := buckets + [Bucket(key, tally[key])];
      todo := todo - {key};
    }
    BucketOrder();
    out := SortSlice(BucketBefore, buckets);
    SortedBuckets(buckets, out);
    forall b: Bucket ensures b in out <==> b.count == CountKey(list, countBy, b.key) > 0 {
      TallyCounts(list, countBy, b.key);
    }
  }

  lemma {:induction false} SortedBuckets(buckets: seq<Bucket>, out: seq<Bucket>)
    requires forall i, j :: 0 <= i < j < |buckets| ==> buckets[i].key != buckets[j].key
    requires Ordered(BucketBefore, out) && multiset(out) == multiset(buckets)
    ensures Increasing(BucketBefore, out)
    ensures forall b :: b in out <==> b in buckets
  {
    hide StrLess;
    forall b ensures b in out <==> b in buckets {
      assert b in out <==> b in multiset(out);
    }
    NoDuplicatesPermuted(buckets, out);
    forall i, j | 0 <= i < j < |out| ensures BucketBefore(out[i], out[j]) || BucketBefore(out[j], out[i]) {
      assert out[i] in buckets && out[j] in buckets;
      var k :| 0 <= k < |buckets| && buckets[k] == out[i];
      var l :| 0 <= l < |buckets| && buckets[l] == out[j];
      assert k != l;
      StrLessTotal(out[i].key, out[j].key);
    }
    OrderedSeparated(BucketBefore, out);
  }

  /** The answer does not depend on the order of the map. */
  lemma {:induction false} ExactUnique(a: seq<Bucket>, b: seq<Bucket>, list: seq<Sample>, countBy: string)
    requires Exact(a, list, countBy) && Exact(b, list, countBy)
    ensures a == b
  {
    BucketOrder();
    IncreasingUnique(BucketBefore, a, b);
  }

  function Total(out: seq<Bucket>): int {
    if out == [] then 0 else Total(out[..|out| - 1]) + out[|out| - 1].count
  }

  ghost function KeysOf(out: seq<Bucket>): set<string> {
    set i | 0 <= i < |out| :: out[i].key
  }

  /** Samples whose group is one of these. */
  ghost function Among(list: seq<Sample>, countBy: string, keys: set<string>): nat {
    if list == [] then 0
    else Among(list[..|list| - 1], countBy, keys) + if SampleGroupKey(list[|list| - 1], countBy) in keys then 1 else 0
  }

  lemma {:induction false} AmongOneMore(list: seq<Sample>, countBy: string, keys: set<string>, key: string)
    requires key !in keys
    ensures Among(list, countBy, keys + {key}) == Among(list, countBy, keys) + CountKey(list, countBy, key)
  {
    hide SampleGroupKey;
    if list != [] {
      AmongOneMore(list[..|list| - 1], countBy, keys, key);
    }
  }

  lemma {:induction false} AmongNone(list: seq<Sample>, countBy: string)
    ensures Among(list, countBy, {}) == 0
  {
    if list != [] {
      AmongNone(list[..|list| - 1], countBy);
    }
  }

  lemma {:induction false} AmongAll(list: seq<Sample>, countBy: string, keys: set<string>)
    requires forall i :: 0 <= i < |list| ==> SampleGroupKey(list[i], countBy) in keys
    ensures Among(list, countBy, keys) == |list|
  {
    if list != [] {
      AmongAll(list[..|list| - 1], countBy, keys);
    }
  }

  lemma {:induction false} TotalAmong(out: seq<Bucket>, list: seq<Sample>, countBy: string)
    requires forall i :: 0 <= i < |out| ==> out[i].count == CountKey(list, countBy, out[i].key)
    requires forall i, j :: 0 <= i < j < |out| ==> out[i].key != out[j].key
    ensures Total(out) == Among(list, countBy, KeysOf(out))
  {
    hide CountKey, Among;
    if out == [] {
      AmongNone(list, countBy);
      assert KeysOf(out) == {};
    } else {
      var front, last := out[..|out| - 1], out[|out| - 1];
      TotalAmong(front, list, countBy);
      KeysOneMore(front, last);
      assert out == front + [last];
      assert last.key !in KeysOf(front);
      AmongOneMore(list, countBy, KeysOf(front), last.key);
    }
  }

  lemma {:induction false} KeysOneMore(out: seq<Bucket>, b: Bucket)
    ensures KeysOf(out + [b]) == KeysOf(out) + {b.key}
  {
    var all := out + [b];
    assert all[|out|].key == b.key;
    forall k | k in KeysOf(out) ensures k in KeysOf(all) {
      var i :| 0 <= i < |out| && out[i].key == k;
      assert all[i].key == k;
    }
  }

  lemma {:induction false} Occurs(list: seq<Sample>, countBy: string, i: nat)
    requires i < |list|
    ensures CountKey(list, countBy, SampleGroupKey(list[i], countBy)) > 0
  {
    hide SampleGroupKey;
    if i < |list| - 1 {
      Occurs(list[..|list| - 1], countBy, i);
    }
  }

  /** Main result: the counts add up to the samples selected, none lost and none counted twice. */
  lemma {:induction false} CountsConserve(out: seq<Bucket>, list: seq<Sample>, countBy: string)
    requires Exact(out, list, countBy)
    ensures Total(out) == |list|
  {
    hide CountKey, Among, SampleGroupKey, BucketBefore, Total;
    forall i | 0 <= i < |out| ensures out[i].count == CountKey(list, countBy, out[i].key) {
      assert out[i] in out;
    }
    forall i, j | 0 <= i < j < |out| ensures out[i].key != out[j].key {
      KeysDiffer(out, list, countBy, i, j);
    }
    TotalAmong(out, list, countBy);
    forall i | 0 <= i < |list| ensures SampleGroupKey(list[i], countBy) in KeysOf(out) {
      Occurs(list, countBy, i);
      var key := SampleGroupKey(list[i], countBy);
      assert Bucket(key, CountKey(list, countBy, key)) in out;
      var k :| 0 <= k < |out| && out[k] == Bucket(key, CountKey(list, countBy, key));
      assert out[k].key in KeysOf(out);
    }
    AmongAll(list, countBy, KeysOf(out));
  }

  lemma {:induction false} KeysDiffer(out: seq<Bucket>, list: seq<Sample>, countBy: string, i: nat, j: nat)
    requires Exact(out, list, countBy) && i < j < |out|
    ensures out[i].key != out[j].key
  {
    hide CountKey, StrLess;
    assert BucketBefore(out[i], out[j]);
    assert out[i] in out && out[j] in out;
    StrLessIrreflexive(out[i].key);
  }
}
