/**
 * The analyzer's cache of analyses by script URL (`analysisCache`, a
 * JavaScript `Map`, kept here as its entries in insertion order). Expired
 * entries are dropped, and when the cache outgrows its limit the entries
 * with the oldest timestamps go first. Clock readings are parameters.
 */
module AnalysisCache {
  import opened Wrappers
  import opened Constants
  import opened Classifier

  /** One cached analysis and the time it was stored. */
  datatype CacheItem = CacheItem(url: string, data: Analysis, timestamp: int)

  /** A `Map` holds each key once. */
  predicate UrlsDistinct(c: seq<CacheItem>) {
    forall i, j | 0 <= i < j < |c| :: c[i].url != c[j].url
  }

  /** The keys of the cache. */
  function UrlSet(c: seq<CacheItem>): (r: set<string>)
    ensures forall i | 0 <= i < |c| :: c[i].url in r
  {
    if c == [] then {} else {c[0].url} + UrlSet(c[1..])
  }

  lemma {:induction false} UrlSetMember(c: seq<CacheItem>, u: string)
    requires u in UrlSet(c)
    ensures exists i | 0 <= i < |c| :: c[i].url == u
  {
    if c[0].url != u {
      UrlSetMember(c[1..], u);
      var i :| 0 <= i < |c[1..]| && c[1..][i].url == u;
      assert c[i + 1].url == u;
    }
  }

  lemma HeadUrlNotInRest(c: seq<CacheItem>)
    requires c != [] && UrlsDistinct(c)
    ensures c[0].url !in UrlSet(c[1..])
  {
    if c[0].url in UrlSet(c[1..]) {
      UrlSetMember(c[1..], c[0].url);
    }
  }

  /** Distinct keys: as many keys as entries. */
  lemma {:induction false} UrlSetSize(c: seq<CacheItem>)
    requires UrlsDistinct(c)
    ensures |UrlSet(c)| == |c|
  {
    if c != [] {
      UrlSetSize(c[1..]);
      HeadUrlNotInRest(c);
    }
  }

  // ---------------------------------------------------------------------------
  // Expiry
  // ---------------------------------------------------------------------------

  /** `(now - entry.timestamp) > this.cacheTTL`. */
  predicate Expired(e: CacheItem, now: int, ttl: nat) {
    now - e.timestamp > ttl
  }

  /** The entries `cleanupExpiredCache` keeps, in their order. */
  function Unexpired(c: seq<CacheItem>, now: int, ttl: nat): (r: seq<CacheItem>)
    ensures |r| <= |c|
  {
    if c == [] then []
    else
      var init := Unexpired(c[..|c| - 1], now, ttl);
      if Expired(c[|c| - 1], now, ttl) then init else init + [c[|c| - 1]]
  }

  /** `isCacheValid(cached)`: a present entry with a truthy (non-zero) timestamp, younger than the TTL. */
  function IsCacheValid(cached: Option<CacheItem>, now: int, ttl: nat): (r: bool)
    ensures r ==> cached.Some? && !Expired(cached.value, now, ttl)
  {
    cached.Some? && cached.value.timestamp != 0 && now - cached.value.timestamp < ttl
  }

  /**
   * An entry aged exactly the TTL is no longer valid but not yet expired:
   * the two checks use `<` and `>` against the same bound.
   */
  lemma AgeAtTtl(e: CacheItem, now: int, ttl: nat)
    requires now - e.timestamp == ttl
    ensures !IsCacheValid(Some(e), now, ttl) && !Expired(e, now, ttl)
  {
  }

  /** Every valid entry survives the cleanup at the same time. */
  lemma ValidSurvivesCleanup(c: seq<CacheItem>, e: CacheItem, now: int, ttl: nat)
    requires e in c && IsCacheValid(Some(e), now, ttl)
    ensures e in Unexpired(c, now, ttl)
  {
    UnexpiredContents(c, now, ttl);
  }

  lemma UnexpiredSnoc(c: seq<CacheItem>, e: CacheItem, now: int, ttl: nat)
    ensures Unexpired(c + [e], now, ttl) == Unexpired(c, now, ttl) + if Expired(e, now, ttl) then [] else [e]
  {
    assert (c + [e])[..|c|] == c;
  }

  /** The cleanup distributes over concatenation, so the kept entries keep their order. */
  lemma {:induction false} UnexpiredAppend(a: seq<CacheItem>, b: seq<CacheItem>, now: int, ttl: nat)
    ensures Unexpired(a + b, now, ttl) == Unexpired(a, now, ttl) + Unexpired(b, now, ttl)
    decreases |b|
  {
    if b == [] {
      assert a + b == a;
    } else {
      var init, last := b[..|b| - 1], b[|b| - 1];
      assert b == init + [last];
      assert a + b == (a + init) + [last];
      UnexpiredAppend(a, init, now, ttl);
      UnexpiredSnoc(a + init, last, now, ttl);
      UnexpiredSnoc(init, last, now, ttl);
    }
  }

  /** The cleanup keeps every unexpired entry as often as it occurs, and no expired entry. */
  lemma {:induction false} UnexpiredContents(c: seq<CacheItem>, now: int, ttl: nat)
    ensures forall e :: multiset(Unexpired(c, now, ttl))[e] == if Expired(e, now, ttl) then 0 else multiset(c)[e]
    ensures forall e :: e in Unexpired(c, now, ttl) <==> e in c && !Expired(e, now, ttl)
    decreases |c|
  {
    if c != [] {
      var init, last := c[..|c| - 1], c[|c| - 1];
      assert c == init + [last];
      UnexpiredContents(init, now, ttl);
      UnexpiredSnoc(init, last, now, ttl);
    }
  }

  /** The cleanup keeps distinct keys. */
  lemma {:induction false} UnexpiredDistinct(c: seq<CacheItem>, now: int, ttl: nat)
    requires UrlsDistinct(c)
    ensures UrlsDistinct(Unexpired(c, now, ttl))
  {
    if c != [] {
      var init := c[..|c| - 1];
      UnexpiredDistinct(init, now, ttl);
      UnexpiredContents(init, now, ttl);
      var last := c[|c| - 1];
      var u := Unexpired(init, now, ttl);
      if !Expired(last, now, ttl) {
        forall i | 0 <= i < |u|
          ensures u[i].url != last.url
        {
          assert u[i] in init;
        }
      }
    }
  }

  // ---------------------------------------------------------------------------
  // Size limit
  // ---------------------------------------------------------------------------

  /** Timestamps in non-decreasing order. */
  predicate SortedByTime(s: seq<CacheItem>) {
    forall i, j | 0 <= i < j < |s| :: s[i].timestamp <= s[j].timestamp
  }

  /** Insert `e` before the first entry that is not older, so equal timestamps keep their order. */
  function InsertByTime(e: CacheItem, s: seq<CacheItem>): seq<CacheItem> {
    if s == [] || e.timestamp <= s[0].timestamp then [e] + s
    else [s[0]] + InsertByTime(e, s[1..])
  }

  /** `entries.sort((a, b) => a[1].timestamp - b[1].timestamp)`: a stable sort, oldest first. */
  function SortByTime(c: seq<CacheItem>): seq<CacheItem> {
    if c == [] then [] else InsertByTime(c[0], SortByTime(c[1..]))
  }

  lemma InsertByTimeSpec(e: CacheItem, s: seq<CacheItem>)
    ensures |InsertByTime(e, s)| == |s| + 1
    ensures forall x :: x in InsertByTime(e, s) <==> x == e || x in s
    ensures UrlSet(InsertByTime(e, s)) == {e.url} + UrlSet(s)
    ensures SortedByTime(s) ==> SortedByTime(InsertByTime(e, s))
  {
    InsertByTimeContents(e, s);
    if SortedByTime(s) {
      InsertByTimeSorted(e, s);
    }
  }

  lemma {:induction false} InsertByTimeContents(e: CacheItem, s: seq<CacheItem>)
    ensures |InsertByTime(e, s)| == |s| + 1
    ensures forall x :: x in InsertByTime(e, s) <==> x == e || x in s
    ensures UrlSet(InsertByTime(e, s)) == {e.url} + UrlSet(s)
  {
    if s != [] && e.timestamp > s[0].timestamp {
      InsertByTimeContents(e, s[1..]);
      assert s == [s[0]] + s[1..];
    }
  }

  lemma {:induction false} InsertByTimeSorted(e: CacheItem, s: seq<CacheItem>)
    requires SortedByTime(s)
    ensures SortedByTime(InsertByTime(e, s))
  {
    if s != [] && e.timestamp > s[0].timestamp {
      var r := InsertByTime(e, s[1..]);
      InsertByTimeSorted(e, s[1..]);
      InsertByTimeContents(e, s[1..]);
      forall j | 0 < j < |r| + 1
        ensures s[0].timestamp <= ([s[0]] + r)[j].timestamp
      {
        assert ([s[0]] + r)[j] == r[j - 1];
        assert r[j - 1] in r;
      }
    }
  }

  lemma {:induction false} InsertByTimeDistinct(e: CacheItem, s: seq<CacheItem>)
    requires UrlsDistinct(s) && e.url !in UrlSet(s)
    ensures UrlsDistinct(InsertByTime(e, s))
  {
    if s != [] && e.timestamp > s[0].timestamp {
      InsertByTimeDistinct(e, s[1..]);
      InsertByTimeSpec(e, s[1..]);
      var r := InsertByTime(e, s[1..]);
      if s[0].url in UrlSet(r) {
        UrlSetMember(s[1..], s[0].url);
      }
      forall j | 0 <= j < |r|
        ensures r[j].url != s[0].url
      {
        assert r[j].url in UrlSet(r);
      }
    } else {
      forall j | 0 <= j < |s|
        ensures s[j].url != e.url
      {
      }
    }
  }

  /** Sorting orders the timestamps and keeps the entries, their keys and their number. */
  /** `x` stands at some position of `s` before a position holding `y`. */
  predicate Precedes(s: seq<CacheItem>, x: CacheItem, y: CacheItem) {
    exists p, q | 0 <= p < q < |s| :: s[p] == x && s[q] == y
  }

  /** An entry put in front does not change which entries precede which. */
  lemma PrecedesCons(a: CacheItem, t: seq<CacheItem>, x: CacheItem, y: CacheItem)
    requires Precedes(t, x, y)
    ensures Precedes([a] + t, x, y)
  {
    var p, q :| 0 <= p < q < |t| && t[p] == x && t[q] == y;
    assert ([a] + t)[p + 1] == x && ([a] + t)[q + 1] == y;
  }

  /** The entry in front precedes every entry after it. */
  lemma PrecedesHead(x: CacheItem, t: seq<CacheItem>, y: CacheItem)
    requires y in t
    ensures Precedes([x] + t, x, y)
  {
    var q :| 0 <= q < |t| && t[q] == y;
    assert ([x] + t)[0] == x && ([x] + t)[q + 1] == y;
  }

  /** Inserting an entry keeps the relative order of the others. */
  lemma {:induction false} InsertByTimeKeepsOrder(e: CacheItem, s: seq<CacheItem>, x: CacheItem, y: CacheItem)
    requires Precedes(s, x, y)
    ensures Precedes(InsertByTime(e, s), x, y)
  {
    var p, q :| 0 <= p < q < |s| && s[p] == x && s[q] == y;
    if e.timestamp <= s[0].timestamp {
      PrecedesCons(e, s, x, y);
    } else if p == 0 {
      assert s[1..][q - 1] == y;
      InsertByTimeContents(e, s[1..]);
      PrecedesHead(x, InsertByTime(e, s[1..]), y);
    } else {
      assert s[1..][p - 1] == x && s[1..][q - 1] == y;
      InsertByTimeKeepsOrder(e, s[1..], x, y);
      PrecedesCons(s[0], InsertByTime(e, s[1..]), x, y);
    }
  }

  /** An inserted entry lands before every entry that is not older than it. */
  lemma {:induction false} InsertByTimeBefore(e: CacheItem, s: seq<CacheItem>, y: CacheItem)
    requires y in s && e.timestamp <= y.timestamp
    ensures Precedes(InsertByTime(e, s), e, y)
  {
    if e.timestamp <= s[0].timestamp {
      PrecedesHead(e, s, y);
    } else {
      assert s[0] != y;
      assert y in s[1..];
      InsertByTimeBefore(e, s[1..], y);
      PrecedesCons(s[0], InsertByTime(e, s[1..]), e, y);
    }
  }

  /**
   * The sort is stable: an entry that comes before another and is not younger
   * than it still comes before it, so entries with equal timestamps keep
   * their Map order.
   */
  lemma {:induction false} SortByTimeStable(c: seq<CacheItem>, i: nat, j: nat)
    requires i < j < |c| && c[i].timestamp <= c[j].timestamp
    ensures Precedes(SortByTime(c), c[i], c[j])
  {
    SortByTimeSpec(c[1..]);
    assert c[1..][j - 1] == c[j];
    if i == 0 {
      InsertByTimeBefore(c[0], SortByTime(c[1..]), c[j]);
    } else {
      assert c[1..][i - 1] == c[i];
      SortByTimeStable(c[1..], i - 1, j - 1);
      InsertByTimeKeepsOrder(c[0], SortByTime(c[1..]), c[i], c[j]);
    }
  }

  lemma {:induction false} SortByTimeSpec(c: seq<CacheItem>)
    ensures |SortByTime(c)| == |c|
    ensures forall x :: x in SortByTime(c) <==> x in c
    ensures UrlSet(SortByTime(c)) == UrlSet(c)
    ensures SortedByTime(SortByTime(c))
    ensures UrlsDistinct(c) ==> UrlsDistinct(SortByTime(c))
  {
    if c != [] {
      SortByTimeSpec(c[1..]);
      InsertByTimeSpec(c[0], SortByTime(c[1..]));
      assert c == [c[0]] + c[1..];
      if UrlsDistinct(c) {
        HeadUrlNotInRest(c);
        InsertByTimeDistinct(c[0], SortByTime(c[1..]));
      }
    }
  }

  /** The entries whose key is not in `urls`, in order (`delete` for each of those keys). */
  function Without(c: seq<CacheItem>, urls: set<string>): (r: seq<CacheItem>)
    ensures |r| <= |c|
    ensures forall e :: e in r <==> e in c && e.url !in urls
  {
    if c == [] then []
    else
      assert c == [c[0]] + c[1..];
      (if c[0].url in urls then [] else [c[0]]) + Without(c[1..], urls)
  }

  lemma {:induction false} WithoutAgain(c: seq<CacheItem>, a: set<string>, b: set<string>)
    ensures Without(Without(c, a), b) == Without(c, a + b)
  {
    if c != [] {
      WithoutAgain(c[1..], a, b);
      var w := Without(c[1..], a);
      if c[0].url in a {
        assert Without(c, a) == [] + w == w;
      } else {
        assert Without(c, a) == [c[0]] + w;
        assert ([c[0]] + w)[0] == c[0] && ([c[0]] + w)[1..] == w;
        assert Without([c[0]] + w, b) == (if c[0].url in b then [] else [c[0]]) + Without(w, b);
      }
    }
  }

  lemma {:induction false} WithoutSize(c: seq<CacheItem>, urls: set<string>)
    requires UrlsDistinct(c)
    ensures |Without(c, urls)| == |c| - |urls * UrlSet(c)|
  {
    if c == [] {
      assert urls * UrlSet(c) == {};
    } else {
      var rest := c[1..];
      WithoutSize(rest, urls);
      HeadUrlNotInRest(c);
      if c[0].url in urls {
        assert urls * UrlSet(c) == {c[0].url} + urls * UrlSet(rest);
      } else {
        assert urls * UrlSet(c) == urls * UrlSet(rest);
      }
    }
  }

  /** The keys `enforceCacheSize` deletes: those of the `size - max` oldest entries. */
  function Evicted(c: seq<CacheItem>, max: nat): set<string> {
    if |c| <= max then {}
    else
      SortByTimeSpec(c);
      UrlSet(SortByTime(c)[..|c| - max])
  }

  lemma {:induction false} UrlSetPrefix(s: seq<CacheItem>, k: nat)
    requires k <= |s|
    ensures UrlSet(s[..k]) <= UrlSet(s)
    ensures k < |s| ==> UrlSet(s[..k + 1]) == UrlSet(s[..k]) + {s[k].url}
  {
    if k > 0 {
      UrlSetPrefix(s[1..], k - 1);
      assert s[..k][1..] == s[1..][..k - 1];
      if k < |s| {
        assert s[..k + 1][1..] == s[1..][..k];
      }
    } else if k < |s| {
      assert s[..1][1..] == [];
    }
  }

  /**
   * `enforceCacheSize` on distinct keys: a no-op up to the limit; above it,
   * exactly `max` entries remain, and every deleted entry is
   * no younger than any kept one.
   */
  lemma EnforcedSpec(c: seq<CacheItem>, max: nat)
    requires UrlsDistinct(c)
    ensures |c| <= max ==> Without(c, Evicted(c, max)) == c
    ensures |c| > max ==> |Without(c, Evicted(c, max))| == max
    ensures UrlsDistinct(Without(c, Evicted(c, max)))
    ensures forall r, k | r in c && r !in Without(c, Evicted(c, max)) && k in Without(c, Evicted(c, max)) ::
      r.timestamp <= k.timestamp
  {
    var s := SortByTime(c);
    SortByTimeSpec(c);
    var w := Without(c, Evicted(c, max));
    WithoutDistinct(c, Evicted(c, max));
    if |c| <= max {
      WithoutNone(c);
    } else {
      var n := |c| - max;
      UrlSetPrefix(s, n);
      UrlSetSize(s[..n]);
      WithoutSize(c, Evicted(c, max));
      assert Evicted(c, max) * UrlSet(c) == Evicted(c, max);
      forall r, k | r in c && r !in w && k in w
        ensures r.timestamp <= k.timestamp
      {
        EvictedNotYounger(c, max, r, k);
      }
    }
  }

  /** An evicted entry is no younger than a kept one: it sorts among the first `size - max`. */
  lemma EvictedNotYounger(c: seq<CacheItem>, max: nat, r: CacheItem, k: CacheItem)
    requires UrlsDistinct(c) && |c| > max
    requires r in c && r.url in Evicted(c, max)
    requires k in c && k.url !in Evicted(c, max)
    ensures r.timestamp <= k.timestamp
  {
    var s := SortByTime(c);
    SortByTimeSpec(c);
    var n := |c| - max;
    UrlSetMember(s[..n], r.url);
    var q :| 0 <= q < n && s[..n][q].url == r.url;
    assert s[q].url == r.url;
    assert r in s;
    var p :| 0 <= p < |s| && s[p] == r;
    assert k in s;
    forall i | 0 <= i < n
      ensures s[i].url != k.url
    {
      assert s[..n][i] == s[i];
    }
    var m :| 0 <= m < |s| && s[m] == k;
  }

  lemma {:induction false} WithoutNone(c: seq<CacheItem>)
    ensures Without(c, {}) == c
  {
    if c != [] {
      WithoutNone(c[1..]);
    }
  }

  lemma {:induction false} WithoutDistinct(c: seq<CacheItem>, urls: set<string>)
    requires UrlsDistinct(c)
    ensures UrlsDistinct(Without(c, urls))
  {
    if c != [] {
      WithoutDistinct(c[1..], urls);
      var w := Without(c[1..], urls);
      forall i | 0 <= i < |w|
        ensures w[i].url != c[0].url
      {
        assert w[i] in c[1..];
      }
    }
  }

  // ---------------------------------------------------------------------------
  // The analyzer's cache
  // ---------------------------------------------------------------------------

  class ContainerAnalyzer {
    /** `analysisCache`, in insertion order. */
    var cache: seq<CacheItem>
    const maxCacheSize: nat
    const cacheTTL: nat

    ghost predicate Valid()
      reads this
    {
      UrlsDistinct(cache)
    }

    /** An empty cache with the configured limit and lifetime. */
    constructor ()
      ensures Valid() && cache == []
      ensures maxCacheSize == MaxCacheEntries && cacheTTL == CacheTtl
    {
      cache := [];
      maxCacheSize := MaxCacheEntries;
      cacheTTL := CacheTtl;
    }

    /** `cleanupExpiredCache()`: deletes exactly the expired entries and reports how many. */
    method CleanupExpiredCache(now: int) returns (removedCount: nat)
      requires Valid()
      modifies this
      ensures Valid()
      ensures cache == Unexpired(old(cache), now, cacheTTL)
      ensures removedCount == |old(cache)| - |cache|
    {
      var kept: seq<CacheItem> := [];
      removedCount := 0;
      var i := 0;
      while i < |cache|
        invariant 0 <= i <= |cache|
        invariant kept == Unexpired(cache[..i], now, cacheTTL)
        invariant removedCount == i - |kept|
      {
        assert cache[..i + 1][..i] == cache[..i];
        if Expired(cache[i], now, cacheTTL) {
          removedCount := removedCount + 1;
        } else {
          kept := kept + [cache[i]];
        }
        i := i + 1;
      }
      assert cache[..i] == cache;
      UnexpiredDistinct(cache, now, cacheTTL);
      cache := kept;
    }

    /** `enforceCacheSize()`: above the limit, deletes the keys of the oldest entries one by one. */
    method EnforceCacheSize()
      requires Valid()
      modifies this
      ensures Valid()
      ensures cache == Without(old(cache), Evicted(old(cache), maxCacheSize))
    {
      WithoutDistinct(cache, Evicted(cache, maxCacheSize));
      if |cache| <= maxCacheSize {
        WithoutNone(cache);
        return;
      }
      var entries := SortByTime(cache);
      SortByTimeSpec(cache);
      var toRemove := |cache| - maxCacheSize;
      ghost var original := cache;
      var i := 0;
      WithoutNone(cache);
      while i < toRemove
        invariant 0 <= i <= toRemove
        invariant cache == Without(original, UrlSet(entries[..i]))
      {
        UrlSetPrefix(entries, i);
        WithoutAgain(original, UrlSet(entries[..i]), {entries[i].url});
        cache := Without(cache, {entries[i].url});
        i := i + 1;
      }
    }
  }
}
