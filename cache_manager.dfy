/**
 * The in-memory side of the container store: per tab, the containers seen
 * on it (`containersByTab`) and the last URL it showed (`lastUrlByTab`),
 * with the rule that a tab navigating to a different URL loses its
 * containers. Tab ids are numbers and `0` is the falsy one; clocks are
 * parameters; the browser's persistent storage is not modelled, except that
 * a stored entry read back from it is a parameter of the load.
 */
module CacheManager {
  import opened Wrappers
  import opened Json
  import opened Constants

  /** A container as stored: the detector's data, stamped with the time it was stored. */
  datatype Container = Container(info: Json, timestamp: int)

  /** One tab's containers, keyed by container id. */
  type Containers = map<string, Container>

  /** The two in-memory tables, as one value. */
  datatype Tabs = Tabs(containersByTab: map<int, Containers>, lastUrlByTab: map<int, string>)

  /** An entry read back from persistent storage (`containers` may be missing). */
  datatype StoredEntry = StoredEntry(containers: Option<Containers>, timestamp: int)

  /** The maps start out empty, and neither ever holds tab `0`; a recorded URL is never empty. */
  ghost predicate WellFormed(s: Tabs) {
    0 !in s.containersByTab && 0 !in s.lastUrlByTab &&
    forall t | t in s.lastUrlByTab :: s.lastUrlByTab[t] != ""
  }

  // ---------------------------------------------------------------------------
  // Operations on the tables
  // ---------------------------------------------------------------------------

  /** `getTabContainers(tabId)`: the tab's containers, or none. */
  function TabContainers(s: Tabs, tabId: int): (r: Containers)
    ensures tabId != 0 && tabId in s.containersByTab ==> r == s.containersByTab[tabId]
    ensures tabId == 0 || tabId !in s.containersByTab ==> r == map[]
  {
    if tabId == 0 || tabId !in s.containersByTab then map[] else s.containersByTab[tabId]
  }

  /** `clearTabContainers(tabId)`. */
  function WithoutContainers(s: Tabs, tabId: int): Tabs {
    if tabId == 0 then s else s.(containersByTab := s.containersByTab - {tabId})
  }

  /** `cleanupTab(tabId)`. */
  function WithoutTab(s: Tabs, tabId: int): Tabs {
    if tabId == 0 then s
    else Tabs(s.containersByTab - {tabId}, s.lastUrlByTab - {tabId})
  }

  /** `setTabUrl(tabId, url)`. */
  function WithTabUrl(s: Tabs, tabId: int, url: string): Tabs {
    if tabId == 0 || url == "" then s
    else if tabId in s.lastUrlByTab && s.lastUrlByTab[tabId] == url then s
    else
      var recorded := s.(lastUrlByTab := s.lastUrlByTab[tabId := url]);
      if tabId in s.lastUrlByTab && s.lastUrlByTab[tabId] != "" then WithoutContainers(recorded, tabId)
      else recorded
  }

  /**
   * `setContainer(tabId, containerId, containerData)` at time `now`. A falsy
   * argument changes nothing. The tab's map is created first; then stamping
   * the data throws (strict mode) unless it is an object or an array, so a
   * truthy primitive leaves only the new, possibly empty, map behind.
   */
  function WithContainer(s: Tabs, tabId: int, containerId: string, containerData: Json, now: int): Tabs {
    if tabId == 0 || containerId == "" || !Truthy(containerData) then s
    else
      var existing := if tabId in s.containersByTab then s.containersByTab[tabId] else map[];
      if !IsObjectLike(containerData) then s.(containersByTab := s.containersByTab[tabId := existing])
      else s.(containersByTab := s.containersByTab[tabId := existing[containerId := Container(containerData, now)]])
  }

  // ---------------------------------------------------------------------------
  // What the operations promise
  // ---------------------------------------------------------------------------

  /** Every operation keeps the tables well formed. */
  lemma OperationsKeepWellFormed(s: Tabs, tabId: int, url: string, containerId: string, data: Json, now: int)
    requires WellFormed(s)
    ensures WellFormed(WithTabUrl(s, tabId, url))
    ensures WellFormed(WithContainer(s, tabId, containerId, data, now))
    ensures WellFormed(WithoutContainers(s, tabId))
    ensures WellFormed(WithoutTab(s, tabId))
  {
  }

  /**
   * Navigating a tab records the URL. Moving from one URL to a different one
   * empties the tab's containers; a tab's first URL keeps them; the other
   * tabs are untouched; and repeating the call changes nothing more.
   */
  lemma SetTabUrlSpec(s: Tabs, tabId: int, url: string)
    requires tabId != 0 && url != ""
    ensures WithTabUrl(s, tabId, url).lastUrlByTab == s.lastUrlByTab[tabId := url]
    ensures tabId in s.lastUrlByTab && s.lastUrlByTab[tabId] != "" && s.lastUrlByTab[tabId] != url ==>
      TabContainers(WithTabUrl(s, tabId, url), tabId) == map[]
    ensures tabId !in s.lastUrlByTab || s.lastUrlByTab[tabId] == url ==>
      TabContainers(WithTabUrl(s, tabId, url), tabId) == TabContainers(s, tabId)
    ensures forall t | t != tabId :: TabContainers(WithTabUrl(s, tabId, url), t) == TabContainers(s, t)
    ensures WithTabUrl(WithTabUrl(s, tabId, url), tabId, url) == WithTabUrl(s, tabId, url)
  {
  }

  /** A falsy tab or URL leaves both tables as they were. */
  lemma SetTabUrlIgnoresFalsy(s: Tabs, tabId: int, url: string)
    requires tabId == 0 || url == ""
    ensures WithTabUrl(s, tabId, url) == s
  {
  }

  /**
   * Storing a container puts it, stamped with `now`, into its tab next to
   * the tab's other containers; no other tab and no URL changes. A falsy
   * argument changes nothing; a truthy primitive stores nothing but leaves
   * the tab with a (possibly new, empty) map.
   */
  lemma SetContainerSpec(s: Tabs, tabId: int, containerId: string, data: Json, now: int)
    ensures tabId != 0 && containerId != "" && IsObjectLike(data) ==>
      TabContainers(WithContainer(s, tabId, containerId, data, now), tabId)
        == TabContainers(s, tabId)[containerId := Container(data, now)]
    ensures tabId == 0 || containerId == "" || !Truthy(data) ==> WithContainer(s, tabId, containerId, data, now) == s
    ensures tabId != 0 && containerId != "" && Truthy(data) && !IsObjectLike(data) ==>
      TabContainers(WithContainer(s, tabId, containerId, data, now), tabId) == TabContainers(s, tabId) &&
      tabId in WithContainer(s, tabId, containerId, data, now).containersByTab
    ensures forall t | t != tabId :: TabContainers(WithContainer(s, tabId, containerId, data, now), t) == TabContainers(s, t)
    ensures WithContainer(s, tabId, containerId, data, now).lastUrlByTab == s.lastUrlByTab
  {
  }

  /**
   * Clearing a tab empties its containers and keeps its URL; cleaning it up
   * forgets both. Other tabs are untouched by either.
   */
  lemma ClearAndCleanupSpec(s: Tabs, tabId: int)
    requires tabId != 0
    ensures TabContainers(WithoutContainers(s, tabId), tabId) == map[]
    ensures WithoutContainers(s, tabId).lastUrlByTab == s.lastUrlByTab
    ensures tabId !in WithoutTab(s, tabId).containersByTab && tabId !in WithoutTab(s, tabId).lastUrlByTab
    ensures forall t | t != tabId ::
      TabContainers(WithoutContainers(s, tabId), t) == TabContainers(s, t) &&
      TabContainers(WithoutTab(s, tabId), t) == TabContainers(s, t) &&
      (t in WithoutTab(s, tabId).lastUrlByTab <==> t in s.lastUrlByTab)
  {
  }

  // ---------------------------------------------------------------------------
  // Statistics
  // ---------------------------------------------------------------------------

  /** A non-empty set of tabs has a member to pick. */
  lemma SomeTab(tabs: set<int>)
    requires tabs != {}
    ensures exists t :: t in tabs
  {
    if forall t :: t !in tabs {
      assert false;
    }
  }

  /** The number of containers over all tabs. */
  ghost function TotalContainers(m: map<int, Containers>): nat
    decreases |m.Keys|
  {
    if m.Keys == {} then 0
    else
      SomeTab(m.Keys);
      var t :| t in m.Keys;
      assert (m - {t}).Keys == m.Keys - {t};
      |m[t]| + TotalContainers(m - {t})
  }

  /** The total does not depend on which tab is counted first. */
  lemma {:induction false} TotalContainersRemove(m: map<int, Containers>, t: int)
    requires t in m
    ensures TotalContainers(m) == |m[t]| + TotalContainers(m - {t})
    decreases |m.Keys|, 1
  {
    var u :| u in m.Keys && TotalContainers(m) == |m[u]| + TotalContainers(m - {u});
    if u != t {
      TotalContainersSwap(m, u, t);
    }
  }

  /** Counting tab `u` first or tab `t` first gives the same total. */
  lemma {:induction false} TotalContainersSwap(m: map<int, Containers>, u: int, t: int)
    requires u in m && t in m && u != t
    ensures |m[u]| + TotalContainers(m - {u}) == |m[t]| + TotalContainers(m - {t})
    decreases |m.Keys|, 0
  {
    var mu, mt := m - {u}, m - {t};
    assert mu.Keys == m.Keys - {u};
    assert mt.Keys == m.Keys - {t};
    TotalContainersRemove(mu, t);
    TotalContainersRemove(mt, u);
    var rest := m - {u, t};
    assert mu - {t} == rest;
    assert mt - {u} == rest;
  }

  /** Replacing one tab's containers replaces its share of the total. */
  lemma TotalContainersUpdate(m: map<int, Containers>, t: int, v: Containers)
    ensures TotalContainers(m[t := v]) == TotalContainers(m - {t}) + |v|
  {
    TotalContainersRemove(m[t := v], t);
    assert m[t := v] - {t} == m - {t};
  }

  /** A tab's share of the total, whether or not the tab is present. */
  lemma TotalContainersShare(m: map<int, Containers>, t: int)
    ensures TotalContainers(m) == TotalContainers(m - {t}) + (if t in m then |m[t]| else 0)
  {
    if t in m {
      TotalContainersRemove(m, t);
    } else {
      assert m - {t} == m;
    }
  }

  lemma UpdatedSize(c: Containers, id: string, x: Container)
    ensures |c[id := x]| == |c| + (if id in c then 0 else 1)
  {
    if id in c {
      assert c[id := x].Keys == c.Keys;
    } else {
      assert c[id := x].Keys == c.Keys + {id};
    }
  }

  /** Storing one container adds one to the total exactly when its id is new in its tab. */
  lemma SetContainerTotal(s: Tabs, tabId: int, containerId: string, data: Json, now: int)
    requires tabId != 0 && containerId != "" && IsObjectLike(data)
    ensures TotalContainers(WithContainer(s, tabId, containerId, data, now).containersByTab)
      == TotalContainers(s.containersByTab) + (if containerId in TabContainers(s, tabId) then 0 else 1)
  {
    var m := s.containersByTab;
    var existing := TabContainers(s, tabId);
    var v := existing[containerId := Container(data, now)];
    UpdatedSize(existing, containerId, Container(data, now));
    TotalContainersUpdate(m, tabId, v);
    TotalContainersShare(m, tabId);
  }

  /** Clearing a tab takes exactly its containers off the total. */
  lemma ClearTabTotal(s: Tabs, tabId: int)
    requires tabId != 0
    ensures TotalContainers(WithoutContainers(s, tabId).containersByTab)
      == TotalContainers(s.containersByTab) - |TabContainers(s, tabId)|
  {
    TotalContainersShare(s.containersByTab, tabId);
  }

  /** `getStats()`'s result. */
  datatype Stats = Stats(
    totalTabs: nat,
    totalContainers: nat,
    lastUrlCount: nat,
    cacheTTL: nat,
    maxCacheEntries: nat,
    maxTabHistory: nat)

  // ---------------------------------------------------------------------------
  // Loading and memory history
  // ---------------------------------------------------------------------------

  /** What `loadContainersFromCache` returns, the tables after it, and whether it drops the stored entry. */
  datatype LoadOutcome = LoadOutcome(result: Option<Containers>, tabs: Tabs, removeStored: bool)

  /** `loadContainersFromCache(tabId)` at time `now`, given what storage holds for the tab. */
  function LoadContainers(s: Tabs, tabId: int, stored: Option<StoredEntry>, now: int, ttl: int): LoadOutcome {
    if tabId == 0 then LoadOutcome(None, s, false)
    else if tabId in s.containersByTab && |s.containersByTab[tabId]| > 0 then
      LoadOutcome(Some(s.containersByTab[tabId]), s, false)
    else if stored.None? || stored.value.containers.None? then LoadOutcome(None, s, false)
    else if now - stored.value.timestamp > ttl then LoadOutcome(None, s, true)
    else
      var c := stored.value.containers.value;
      LoadOutcome(Some(c), s.(containersByTab := s.containersByTab[tabId := c]), false)
  }

  /**
   * Memory wins when it holds any container for the tab. Otherwise a stored
   * entry older than the lifetime is dropped and nothing is returned, and a
   * fresh one is returned and restored to memory. Tab 0, or a tab with
   * nothing in memory and no stored containers, gives `null` and changes
   * nothing. Whatever is returned is what memory then holds for the tab;
   * other tabs and URLs never change.
   */
  lemma LoadContainersSpec(s: Tabs, tabId: int, stored: Option<StoredEntry>, now: int, ttl: int)
    ensures var o := LoadContainers(s, tabId, stored, now, ttl);
      o.tabs.lastUrlByTab == s.lastUrlByTab &&
      (o.result.Some? ==> TabContainers(o.tabs, tabId) == o.result.value) &&
      (o.removeStored <==> (tabId != 0 && |TabContainers(s, tabId)| == 0 && stored.Some? &&
        stored.value.containers.Some? && now - stored.value.timestamp > ttl)) &&
      (o.removeStored ==> o.result.None? && o.tabs == s) &&
      (tabId != 0 && |TabContainers(s, tabId)| > 0 ==> o == LoadOutcome(Some(TabContainers(s, tabId)), s, false))
    ensures var o := LoadContainers(s, tabId, stored, now, ttl);
      tabId != 0 && |TabContainers(s, tabId)| == 0 && stored.Some? && stored.value.containers.Some? &&
      now - stored.value.timestamp <= ttl ==>
        o.result == stored.value.containers && !o.removeStored &&
        TabContainers(o.tabs, tabId) == stored.value.containers.value
    ensures var o := LoadContainers(s, tabId, stored, now, ttl);
      tabId == 0 || (|TabContainers(s, tabId)| == 0 && (stored.None? || stored.value.containers.None?)) ==>
        o == LoadOutcome(None, s, false)
    ensures var o := LoadContainers(s, tabId, stored, now, ttl);
      forall t | t != tabId :: TabContainers(o.tabs, t) == TabContainers(s, t)
  {
  }

  /** How many memory snapshots `saveMemoryHistory` keeps: a day at one per two minutes. */
  const MaxMemoryEntries: nat := 720

  /** The history once trimmed: the newest `MaxMemoryEntries` snapshots, in order. */
  function TrimHistory<T>(history: seq<T>): (r: seq<T>)
    ensures |r| == if |history| > MaxMemoryEntries then MaxMemoryEntries else |history|
    ensures r == history[|history| - |r|..]
  {
    if |history| > MaxMemoryEntries then history[|history| - MaxMemoryEntries..] else history
  }

  /** Trimming after each new snapshot keeps the same window as trimming once at the end. */
  lemma TrimHistorySliding<T>(history: seq<T>, x: T)
    ensures TrimHistory(TrimHistory(history) + [x]) == TrimHistory(history + [x])
  {
    var t := TrimHistory(history);
    var a := TrimHistory(t + [x]);
    var b := TrimHistory(history + [x]);
    assert |a| == |b|;
    forall i | 0 <= i < |a|
      ensures a[i] == b[i]
    {
      if i == |a| - 1 {
      } else {
        assert a[i] == t[|t| + 1 - |a| + i];
      }
    }
  }

  /** The caller's array of memory snapshots, which `saveMemoryHistory` trims in place. */
  class MemoryHistory<T> {
    var snapshots: seq<T>

    constructor (snapshots: seq<T>)
      ensures this.snapshots == snapshots
    {
      this.snapshots := snapshots;
    }
  }

  class CacheManager {
    var containersByTab: map<int, Containers>
    var lastUrlByTab: map<int, string>
    const cacheTTL: nat
    const maxCacheEntries: nat
    const maxTabHistory: nat

    /** The two tables as one value. */
    function State(): Tabs
      reads this
    {
      Tabs(containersByTab, lastUrlByTab)
    }

    ghost predicate Valid()
      reads this
    {
      WellFormed(State())
    }

    constructor ()
      ensures Valid() && containersByTab == map[] && lastUrlByTab == map[]
      ensures cacheTTL == CacheTtl && maxCacheEntries == MaxCacheEntries && maxTabHistory == MaxTabHistory
    {
      containersByTab := map[];
      lastUrlByTab := map[];
      cacheTTL := CacheTtl;
      maxCacheEntries := MaxCacheEntries;
      maxTabHistory := MaxTabHistory;
    }

    /** `setTabUrl(tabId, url)`. */
    method SetTabUrl(tabId: int, url: string)
      requires Valid()
      modifies this
      ensures Valid() && State() == WithTabUrl(old(State()), tabId, url)
    {
      OperationsKeepWellFormed(State(), tabId, url, "", JNull, 0);
      if tabId == 0 || url == "" {
        return;
      }
      if tabId in lastUrlByTab && lastUrlByTab[tabId] == url {
        return;
      }
      var previousUrl := if tabId in lastUrlByTab then lastUrlByTab[tabId] else "";
      lastUrlByTab := lastUrlByTab[tabId := url];
      if previousUrl != "" && previousUrl != url {
        ClearTabContainers(tabId);
      }
    }

    /** `getTabContainers(tabId)`. */
    method GetTabContainers(tabId: int) returns (r: Containers)
      ensures r == TabContainers(State(), tabId)
    {
      if tabId == 0 || tabId !in containersByTab {
        return map[];
      }
      r := containersByTab[tabId];
    }

    /**
     * `setContainer(tabId, containerId, containerData)` at time `now`;
     * `threw` reports the `TypeError` raised when a truthy primitive is stamped.
     */
    method SetContainer(tabId: int, containerId: string, containerData: Json, now: int) returns (threw: bool)
      requires Valid()
      modifies this
      ensures Valid() && State() == WithContainer(old(State()), tabId, containerId, containerData, now)
      ensures threw <==> tabId != 0 && containerId != "" && Truthy(containerData) && !IsObjectLike(containerData)
    {
      OperationsKeepWellFormed(State(), tabId, "", containerId, containerData, now);
      if tabId == 0 || containerId == "" || !Truthy(containerData) {
        return false;
      }
      if tabId !in containersByTab {
        containersByTab := containersByTab[tabId := map[]];
      }
      if !IsObjectLike(containerData) {
        return true;
      }
      var stored := Container(containerData, now);
      containersByTab := containersByTab[tabId := containersByTab[tabId][containerId := stored]];
      threw := false;
    }

    /** `clearTabContainers(tabId)`. */
    method ClearTabContainers(tabId: int)
      requires Valid()
      modifies this
      ensures Valid() && State() == WithoutContainers(old(State()), tabId)
    {
      OperationsKeepWellFormed(State(), tabId, "", "", JNull, 0);
      if tabId == 0 {
        return;
      }
      containersByTab := containersByTab - {tabId};
    }

    /** `cleanupTab(tabId)`. */
    method CleanupTab(tabId: int)
      requires Valid()
      modifies this
      ensures Valid() && State() == WithoutTab(old(State()), tabId)
    {
      OperationsKeepWellFormed(State(), tabId, "", "", JNull, 0);
      if tabId == 0 {
        return;
      }
      containersByTab := containersByTab - {tabId};
      lastUrlByTab := lastUrlByTab - {tabId};
    }

    /** `loadContainersFromCache(tabId)` at time `now`, given the tab's stored entry. */
    method LoadContainersFromCache(tabId: int, stored: Option<StoredEntry>, now: int)
      returns (r: Option<Containers>, removeStored: bool)
      requires Valid()
      modifies this
      ensures Valid()
      ensures LoadContainers(old(State()), tabId, stored, now, cacheTTL) == LoadOutcome(r, State(), removeStored)
    {
      if tabId == 0 {
        return None, false;
      }
      if tabId in containersByTab && |containersByTab[tabId]| > 0 {
        return Some(containersByTab[tabId]), false;
      }
      if stored.None? || stored.value.containers.None? {
        return None, false;
      }
      var isExpired := now - stored.value.timestamp > cacheTTL;
      if isExpired {
        return None, true;
      }
      containersByTab := containersByTab[tabId := stored.value.containers.value];
      r, removeStored := stored.value.containers, false;
    }

    /**
     * `saveMemoryHistory(memoryHistory)`: drops the oldest snapshots from the
     * caller's array until at most `MaxMemoryEntries` remain. Writing the
     * array to persistent storage is not modelled.
     */
    method SaveMemoryHistory<T>(memoryHistory: MemoryHistory<T>)
      modifies memoryHistory
      ensures memoryHistory.snapshots == TrimHistory(old(memoryHistory.snapshots))
    {
      var maxEntries := MaxMemoryEntries;
      if |memoryHistory.snapshots| > maxEntries {
        memoryHistory.snapshots := memoryHistory.snapshots[|memoryHistory.snapshots| - maxEntries..];
      }
    }

    /** `getStats()`: counts over the tables and the configured bounds. */
    method GetStats() returns (stats: Stats)
      ensures stats.totalTabs == |containersByTab| && stats.lastUrlCount == |lastUrlByTab|
      ensures stats.totalContainers == TotalContainers(containersByTab)
      ensures stats.cacheTTL == cacheTTL && stats.maxCacheEntries == maxCacheEntries && stats.maxTabHistory == maxTabHistory
    {
      var total := 0;
      var left := containersByTab;
      while left.Keys != {}
        invariant total + TotalContainers(left) == TotalContainers(containersByTab)
        decreases |left.Keys|
      {
        SomeTab(left.Keys);
        var t :| t in left.Keys;
        TotalContainersRemove(left, t);
        total := total + |left[t]|;
        assert (left - {t}).Keys == left.Keys - {t};
        left := left - {t};
      }
      stats := Stats(|containersByTab|, total, |lastUrlByTab|, cacheTTL, maxCacheEntries, maxTabHistory);
    }
  }
}
