/**
 * The plain JavaScript objects the analyzer uses as counters
 * (`tagData[name] = (tagData[name] || 0) + 1`): string keys with counts, kept
 * in insertion order, as `Object.entries` lists them.
 */
module Dict {
  import opened Order

  datatype Entry = Entry(key: string, count: nat)

  /** Entries in insertion order; the analyzer's objects never repeat a key. */
  type Dict = seq<Entry>

  /** The keys, in order (`Object.keys`). */
  function Keys(d: Dict): (r: seq<string>)
    ensures |r| == |d|
    ensures forall i | 0 <= i < |d| :: r[i] == d[i].key
  {
    if d == [] then [] else [d[0].key] + Keys(d[1..])
  }

  predicate HasKey(d: Dict, k: string) {
    k in Keys(d)
  }

  predicate KeysDistinct(d: Dict) {
    forall i, j | 0 <= i < j < |d| :: d[i].key != d[j].key
  }

  /** `obj[k] || 0`: the count stored under `k`, or 0 when there is none. */
  function Get(d: Dict, k: string): nat {
    if d == [] then 0 else if d[0].key == k then d[0].count else Get(d[1..], k)
  }

  /** The sum of all counts (`Object.values(obj).reduce((a, b) => a + b, 0)`). */
  function Sum(d: Dict): nat {
    if d == [] then 0 else d[0].count + Sum(d[1..])
  }

  /** `obj[k] = (obj[k] || 0) + n`: a new key is appended, an existing one keeps its place. */
  function Add(d: Dict, k: string, n: nat): Dict {
    if d == [] then [Entry(k, n)]
    else if d[0].key == k then [Entry(k, d[0].count + n)] + d[1..]
    else [d[0]] + Add(d[1..], k, n)
  }

  /** `obj[k] = n`. */
  function Put(d: Dict, k: string, n: nat): Dict {
    if d == [] then [Entry(k, n)]
    else if d[0].key == k then [Entry(k, n)] + d[1..]
    else [d[0]] + Put(d[1..], k, n)
  }

  /** The counter built by adding 1 for each name in turn, starting from `{}`. */
  function Tally(names: seq<string>): Dict {
    if names == [] then [] else Add(Tally(names[..|names| - 1]), names[|names| - 1], 1)
  }

  // ---------------------------------------------------------------------------
  // Facts about lookups and updates
  // ---------------------------------------------------------------------------

  lemma {:induction false} GetAbsent(d: Dict, k: string)
    requires !HasKey(d, k)
    ensures Get(d, k) == 0
  {
    if d != [] {
      assert Keys(d) == [d[0].key] + Keys(d[1..]);
      GetAbsent(d[1..], k);
    }
  }

  /** Updating `k` adds `n` to its count, leaves every other key alone and adds `n` to the total. */
  lemma {:induction false} AddSpec(d: Dict, k: string, n: nat)
    ensures Get(Add(d, k, n), k) == Get(d, k) + n
    ensures forall k' | k' != k :: Get(Add(d, k, n), k') == Get(d, k')
    ensures Sum(Add(d, k, n)) == Sum(d) + n
    ensures Keys(Add(d, k, n)) == if HasKey(d, k) then Keys(d) else Keys(d) + [k]
  {
    if d != [] && d[0].key != k {
      AddSpec(d[1..], k, n);
      assert Keys(d) == [d[0].key] + Keys(d[1..]);
      assert Add(d, k, n) == [d[0]] + Add(d[1..], k, n);
      assert Keys(Add(d, k, n)) == [d[0].key] + Keys(Add(d[1..], k, n));
    } else if d != [] {
      assert Keys(d) == [d[0].key] + Keys(d[1..]);
      assert Keys(Add(d, k, n)) == [k] + Keys(d[1..]);
    }
  }

  /** Storing `n` under `k` sets its count and leaves every other key alone. */
  lemma {:induction false} PutSpec(d: Dict, k: string, n: nat)
    ensures Get(Put(d, k, n), k) == n
    ensures forall k' | k' != k :: Get(Put(d, k, n), k') == Get(d, k')
    ensures Keys(Put(d, k, n)) == if HasKey(d, k) then Keys(d) else Keys(d) + [k]
  {
    if d != [] && d[0].key != k {
      PutSpec(d[1..], k, n);
      assert Keys(d) == [d[0].key] + Keys(d[1..]);
      assert Keys(Put(d, k, n)) == [d[0].key] + Keys(Put(d[1..], k, n));
    } else if d != [] {
      assert Keys(d) == [d[0].key] + Keys(d[1..]);
      assert Keys(Put(d, k, n)) == [k] + Keys(d[1..]);
    }
  }

  /** A sequence of keys without repetitions. */
  predicate Unique(ks: seq<string>) {
    forall i, j | 0 <= i < j < |ks| :: ks[i] != ks[j]
  }

  lemma DistinctIsUniqueKeys(d: Dict)
    ensures KeysDistinct(d) <==> Unique(Keys(d))
  {
  }

  /** Updating keeps the keys distinct. */
  lemma UniqueSnoc(ks: seq<string>, k: string)
    requires Unique(ks) && k !in ks
    ensures Unique(ks + [k])
  {
    assert forall i | 0 <= i < |ks| :: (ks + [k])[i] == ks[i];
  }

  lemma AddKeepsDistinct(d: Dict, k: string, n: nat)
    requires KeysDistinct(d)
    ensures KeysDistinct(Add(d, k, n))
  {
    AddSpec(d, k, n);
    DistinctIsUniqueKeys(d);
    DistinctIsUniqueKeys(Add(d, k, n));
    if !HasKey(d, k) {
      UniqueSnoc(Keys(d), k);
    }
  }

  lemma PutKeepsDistinct(d: Dict, k: string, n: nat)
    requires KeysDistinct(d)
    ensures KeysDistinct(Put(d, k, n))
  {
    PutSpec(d, k, n);
    DistinctIsUniqueKeys(d);
    DistinctIsUniqueKeys(Put(d, k, n));
    if !HasKey(d, k) {
      UniqueSnoc(Keys(d), k);
    }
  }

  /**
   * The counter of a list of names: each name counts its occurrences, the
   * keys are exactly the names that occur, once each, and the counts add up
   * to the number of names.
   */
  lemma {:induction false} TallySpec(names: seq<string>)
    ensures forall k :: Get(Tally(names), k) == multiset(names)[k]
    ensures forall k :: HasKey(Tally(names), k) <==> k in names
    ensures KeysDistinct(Tally(names))
    ensures Sum(Tally(names)) == |names|
  {
    if names == [] {
      forall k ensures Get(Tally(names), k) == multiset(names)[k] {
        GetAbsent([], k);
      }
    } else {
      var init, last := names[..|names| - 1], names[|names| - 1];
      assert names == init + [last];
      TallySpec(init);
      AddSpec(Tally(init), last, 1);
      AddKeepsDistinct(Tally(init), last, 1);
      forall k ensures HasKey(Tally(names), k) <==> k in names {
        assert k in names <==> k in init || k == last;
      }
    }
  }

  // ---------------------------------------------------------------------------
  // Sorting entries by key
  // ---------------------------------------------------------------------------

  /** Keys in strictly increasing order (hence distinct). */
  predicate StrictlySorted(d: Dict) {
    forall i, j | 0 <= i < j < |d| :: Below(d[i].key, d[j].key) && d[i].key != d[j].key
  }

  /** Places `e` before the first entry whose key sorts after it. */
  function Insert(e: Entry, d: Dict): Dict {
    if d == [] then [e]
    else if Below(e.key, d[0].key) then [e] + d
    else [d[0]] + Insert(e, d[1..])
  }

  /**
   * `Object.fromEntries(Object.entries(obj).sort(([a], [b]) => a.localeCompare(b)))`,
   * as an insertion sort.
   */
  function SortByKey(d: Dict): Dict {
    if d == [] then [] else Insert(d[0], SortByKey(d[1..]))
  }

  /** Every key of `d` sorts strictly after `k`. */
  predicate AllAbove(k: string, d: Dict) {
    forall j | 0 <= j < |d| :: Below(k, d[j].key) && k != d[j].key
  }

  lemma SortedCons(d: Dict)
    requires d != []
    ensures StrictlySorted(d) <==> AllAbove(d[0].key, d[1..]) && StrictlySorted(d[1..])
  {
    if AllAbove(d[0].key, d[1..]) && StrictlySorted(d[1..]) {
      forall i, j | 0 <= i < j < |d| ensures Below(d[i].key, d[j].key) && d[i].key != d[j].key {
        if i > 0 {
          assert d[i] == d[1..][i - 1] && d[j] == d[1..][j - 1];
        } else {
          assert d[j] == d[1..][j - 1];
        }
      }
    }
  }

  lemma {:induction false} InsertMultiset(e: Entry, d: Dict)
    ensures multiset(Insert(e, d)) == multiset(d) + multiset{e}
  {
    if d != [] && !Below(e.key, d[0].key) {
      InsertMultiset(e, d[1..]);
      assert d == [d[0]] + d[1..];
    }
  }

  lemma {:induction false} InsertAbove(k: string, e: Entry, d: Dict)
    requires AllAbove(k, d) && Below(k, e.key) && k != e.key
    ensures AllAbove(k, Insert(e, d))
  {
    if d != [] && !Below(e.key, d[0].key) {
      InsertAbove(k, e, d[1..]);
    }
  }

  /** Inserting a new key into a sorted counter keeps it sorted. */
  lemma {:induction false} InsertSorted(e: Entry, d: Dict)
    requires StrictlySorted(d) && !HasKey(d, e.key)
    ensures StrictlySorted(Insert(e, d))
  {
    if d == [] {
    } else {
      SortedCons(d);
      assert Keys(d) == [d[0].key] + Keys(d[1..]);
      if Below(e.key, d[0].key) {
        forall j | 0 <= j < |d| ensures Below(e.key, d[j].key) && e.key != d[j].key {
          if j > 0 {
            BelowTransitive(e.key, d[0].key, d[j].key);
          }
          assert Keys(d)[j] == d[j].key;
        }
        SortedCons([e] + d);
      } else {
        InsertSorted(e, d[1..]);
        BelowTotal(e.key, d[0].key);
        InsertAbove(d[0].key, e, d[1..]);
        SortedCons(Insert(e, d));
      }
    }
  }

  /** Sorting a counter with distinct keys orders its keys and keeps exactly its entries. */
  lemma {:induction false} SortByKeySpec(d: Dict)
    requires KeysDistinct(d)
    ensures StrictlySorted(SortByKey(d))
    ensures multiset(SortByKey(d)) == multiset(d)
  {
    if d != [] {
      SortByKeySpec(d[1..]);
      var s := SortByKey(d[1..]);
      HeadNotInTail(d);
      HasKeyPermutation(s, d[1..], d[0].key);
      InsertSorted(d[0], s);
      InsertMultiset(d[0], s);
      assert d == [d[0]] + d[1..];
    }
  }

  lemma HeadNotInTail(d: Dict)
    requires d != [] && KeysDistinct(d)
    ensures !HasKey(d[1..], d[0].key)
  {
  }

  /** Reordering entries keeps the set of keys. */
  lemma HasKeyPermutation(a: Dict, b: Dict, k: string)
    requires multiset(a) == multiset(b)
    ensures HasKey(a, k) <==> HasKey(b, k)
  {
    if HasKey(a, k) {
      var i :| 0 <= i < |a| && Keys(a)[i] == k;
      assert a[i] in multiset(b);
      var j :| 0 <= j < |b| && b[j] == a[i];
      assert Keys(b)[j] == k;
    }
    if HasKey(b, k) {
      var j :| 0 <= j < |b| && Keys(b)[j] == k;
      assert b[j] in multiset(a);
      var i :| 0 <= i < |a| && a[i] == b[j];
      assert Keys(a)[i] == k;
    }
  }

  /** An already sorted counter is left as it is, so sorting is idempotent. */
  lemma {:induction false} SortByKeySorted(d: Dict)
    requires StrictlySorted(d)
    ensures SortByKey(d) == d
  {
    if d != [] {
      SortByKeySorted(d[1..]);
      if |d| > 1 {
        assert Below(d[0].key, d[1].key);
      }
    }
  }

  lemma SortByKeyIdempotent(d: Dict)
    requires KeysDistinct(d)
    ensures SortByKey(SortByKey(d)) == SortByKey(d)
  {
    SortByKeySpec(d);
    SortByKeySorted(SortByKey(d));
  }

  /** With distinct keys, the count under a key is that of the one entry holding it. */
  lemma {:induction false} GetEntry(d: Dict, k: string, n: nat)
    requires KeysDistinct(d)
    ensures Entry(k, n) in d ==> Get(d, k) == n
  {
    if d != [] && d[0].key != k {
      GetEntry(d[1..], k, n);
    }
  }

  lemma {:induction false} GetPresent(d: Dict, k: string)
    requires HasKey(d, k)
    ensures Entry(k, Get(d, k)) in d
  {
    if d[0].key != k {
      assert Keys(d) == [d[0].key] + Keys(d[1..]);
      GetPresent(d[1..], k);
    }
  }

  lemma {:induction false} InsertSum(e: Entry, d: Dict)
    ensures Sum(Insert(e, d)) == e.count + Sum(d)
  {
    if d != [] && !Below(e.key, d[0].key) {
      InsertSum(e, d[1..]);
    }
  }

  lemma {:induction false} SortByKeySum(d: Dict)
    ensures Sum(SortByKey(d)) == Sum(d)
  {
    if d != [] {
      SortByKeySum(d[1..]);
      InsertSum(d[0], SortByKey(d[1..]));
    }
  }

  /** Sorting keeps every key's count, the set of keys and the total. */
  lemma SortByKeyKeepsCounts(d: Dict)
    requires KeysDistinct(d)
    ensures KeysDistinct(SortByKey(d))
    ensures forall k :: Get(SortByKey(d), k) == Get(d, k)
    ensures forall k :: HasKey(SortByKey(d), k) <==> HasKey(d, k)
    ensures Sum(SortByKey(d)) == Sum(d)
  {
    var s := SortByKey(d);
    SortByKeySpec(d);
    SortByKeySum(d);
    forall k ensures HasKey(s, k) <==> HasKey(d, k) {
      HasKeyPermutation(s, d, k);
    }
    forall k ensures Get(s, k) == Get(d, k) {
      if HasKey(d, k) {
        GetPresent(d, k);
        assert Entry(k, Get(d, k)) in multiset(s);
        GetEntry(s, k, Get(d, k));
      } else {
        GetAbsent(d, k);
        GetAbsent(s, k);
      }
    }
  }

  lemma SumSnoc(d: Dict, e: Entry)
    ensures Sum(d + [e]) == Sum(d) + e.count
  {
    SumSplit(d, [e]);
  }

  lemma {:induction false} SumSplit(a: Dict, b: Dict)
    ensures Sum(a + b) == Sum(a) + Sum(b)
  {
    if a != [] {
      assert (a + b)[0] == a[0] && (a + b)[1..] == a[1..] + b;
      SumSplit(a[1..], b);
    } else {
      assert a + b == b;
    }
  }

  /** Storing under a new key appends it. */
  lemma {:induction false} PutNew(d: Dict, k: string, n: nat)
    requires !HasKey(d, k)
    ensures Put(d, k, n) == d + [Entry(k, n)]
  {
    if d != [] {
      assert Keys(d) == [d[0].key] + Keys(d[1..]);
      PutNew(d[1..], k, n);
    }
  }

  /** Counting one more name of a list. */
  lemma TallyPrefixStep(names: seq<string>, j: nat)
    requires j < |names|
    ensures Tally(names[..j + 1]) == Add(Tally(names[..j]), names[j], 1)
  {
    assert names[..j + 1][..j] == names[..j];
  }

  lemma TallySnoc(names: seq<string>, n: string)
    ensures Tally(names + [n]) == Add(Tally(names), n, 1)
  {
    assert (names + [n])[..|names|] == names;
  }

  /** Each entry's count added under the group `group` gives its key, in order. */
  function GroupBy(group: string -> string, d: Dict): Dict {
    if d == [] then []
    else Add(GroupBy(group, d[..|d| - 1]), group(d[|d| - 1].key), d[|d| - 1].count)
  }

  /** The sum of the counts of the entries whose key falls in group `c`. */
  function SumIn(group: string -> string, d: Dict, c: string): nat {
    if d == [] then 0
    else SumIn(group, d[..|d| - 1], c) + if group(d[|d| - 1].key) == c then d[|d| - 1].count else 0
  }

  /**
   * Grouping keeps the total, lists each group once, lists exactly the groups
   * of the entries, and gives each group the sum of its entries' counts.
   */
  lemma GroupBySpec(group: string -> string, d: Dict)
    ensures Sum(GroupBy(group, d)) == Sum(d)
    ensures KeysDistinct(GroupBy(group, d))
    ensures forall c :: HasKey(GroupBy(group, d), c) <==> exists k | 0 <= k < |d| :: group(d[k].key) == c
    ensures forall c :: Get(GroupBy(group, d), c) == SumIn(group, d, c)
  {
    GroupBySum(group, d);
    GroupByDistinct(group, d);
    GroupByKeys(group, d);
    GroupByCounts(group, d);
  }

  lemma {:induction false} GroupByCounts(group: string -> string, d: Dict)
    ensures forall c :: Get(GroupBy(group, d), c) == SumIn(group, d, c)
  {
    if d != [] {
      var init, last := d[..|d| - 1], d[|d| - 1];
      GroupByCounts(group, init);
      AddSpec(GroupBy(group, init), group(last.key), last.count);
    }
  }

  lemma {:induction false} GroupBySum(group: string -> string, d: Dict)
    ensures Sum(GroupBy(group, d)) == Sum(d)
  {
    if d != [] {
      var init, last := d[..|d| - 1], d[|d| - 1];
      var prev := GroupBy(group, init);
      assert d == init + [last];
      assert GroupBy(group, d) == Add(prev, group(last.key), last.count);
      GroupBySum(group, init);
      AddSum(prev, group(last.key), last.count);
      SumSnoc(init, last);
    }
  }

  lemma AddSum(d: Dict, k: string, n: nat)
    ensures Sum(Add(d, k, n)) == Sum(d) + n
  {
    AddSpec(d, k, n);
  }

  lemma {:induction false} GroupByDistinct(group: string -> string, d: Dict)
    ensures KeysDistinct(GroupBy(group, d))
  {
    if d != [] {
      GroupByDistinct(group, d[..|d| - 1]);
      AddKeepsDistinct(GroupBy(group, d[..|d| - 1]), group(d[|d| - 1].key), d[|d| - 1].count);
    }
  }

  lemma AddHasKey(d: Dict, k: string, n: nat)
    ensures forall c :: HasKey(Add(d, k, n), c) <==> HasKey(d, c) || c == k
  {
    AddSpec(d, k, n);
  }

  lemma {:induction false} GroupByKeys(group: string -> string, d: Dict)
    ensures forall c :: HasKey(GroupBy(group, d), c) <==> exists k | 0 <= k < |d| :: group(d[k].key) == c
  {
    if d != [] {
      var init, last := d[..|d| - 1], d[|d| - 1];
      var prev := GroupBy(group, init);
      GroupByKeys(group, init);
      AddHasKey(prev, group(last.key), last.count);
      assert GroupBy(group, d) == Add(prev, group(last.key), last.count);
      forall c
        ensures HasKey(GroupBy(group, d), c) <==> exists k | 0 <= k < |d| :: group(d[k].key) == c
      {
        GroupByKeysStep(group, d, init, prev, c);
      }
    }
  }

  /** One group of the last step: the groups of `d` are those of its front plus the group of its last entry. */
  lemma GroupByKeysStep(group: string -> string, d: Dict, init: Dict, prev: Dict, c: string)
    requires d != [] && init == d[..|d| - 1]
    requires forall c' :: HasKey(prev, c') <==> exists k | 0 <= k < |init| :: group(init[k].key) == c'
    ensures HasKey(prev, c) || c == group(d[|d| - 1].key) <==> exists k | 0 <= k < |d| :: group(d[k].key) == c
  {
    if exists k | 0 <= k < |d| :: group(d[k].key) == c {
      var k :| 0 <= k < |d| && group(d[k].key) == c;
      if k < |init| {
        assert group(init[k].key) == c;
      }
    }
    if HasKey(prev, c) {
      var k :| 0 <= k < |init| && group(init[k].key) == c;
      assert group(d[k].key) == c;
    }
  }
}
