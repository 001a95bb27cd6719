/**
 * What the classification promises about its buckets: each total is the sum
 * of its counts, names come out sorted, each name counts its occurrences, a
 * throwing entry empties the whole analysis, and the catalogs decide the
 * display names.
 */
module ClassifierFacts {
  import opened Wrappers
  import opened Strings
  import opened Json
  import opened Dict
  import opened Constants
  import opened Classifier

  /** A bucket's total is the sum of its counts, and its names are sorted. */
  predicate BucketConsistent(b: Bucket) {
    b.total == Sum(b.byName) && StrictlySorted(b.byName)
  }

  /** The tag bucket's three views agree on the total, and the names are sorted. */
  predicate TagBucketConsistent(t: TagBucket) {
    && t.total == Sum(t.byName) == Sum(t.byCategory) == Sum(t.byType)
    && StrictlySorted(t.byName)
    && KeysDistinct(t.byCategory)
    && KeysDistinct(t.byType)
  }

  predicate Consistent(a: Analysis) {
    BucketConsistent(a.macros) && TagBucketConsistent(a.tags) && BucketConsistent(a.triggers)
  }

  /** A counter of `names`, sorted by name: consistent, and each name counts its occurrences. */
  lemma SortedTally(names: seq<string>)
    ensures BucketConsistent(Bucket(SortByKey(Tally(names)), |names|))
    ensures forall k :: Get(SortByKey(Tally(names)), k) == multiset(names)[k]
    ensures forall k :: HasKey(SortByKey(Tally(names)), k) <==> k in names
  {
    TallySpec(names);
    SortByKeySpec(Tally(names));
    SortByKeyKeepsCounts(Tally(names));
  }

  // ---------------------------------------------------------------------------
  // Tags
  // ---------------------------------------------------------------------------

  /**
   * `processTags` throws exactly when some entry's truthy `function` is not a
   * string. Otherwise its total is the number of kept entries and the sum of
   * each view; `byName` is sorted and counts each display name's occurrences;
   * `byType` is the same counter in discovery order; and `byCategory` groups
   * the counts under display categories, exactly those of the counted names,
   * each holding the total count of its names.
   */
  lemma TagsOfSpec(known: seq<TagEntry>, xs: seq<Json>)
    ensures TagsOf(known, xs).None? <==> AnyThrows(xs)
    ensures TagsOf(known, xs).Some? ==>
      var t := TagsOf(known, xs).value;
      var names := TagNames(known, xs);
      && TagBucketConsistent(t)
      && t.total == |KeptTags(xs)| == |names|
      && (forall k :: Get(t.byName, k) == multiset(names)[k])
      && (forall k :: HasKey(t.byName, k) <==> k in names)
      && t.byType == Tally(names)
      && (forall c :: HasKey(t.byCategory, c) <==> exists k | 0 <= k < |t.byType| :: CategoryOf(known, t.byType[k].key) == c)
      && (forall c | HasKey(t.byCategory, c) :: c in CategoryNames.Values)
      && (forall c :: Get(t.byCategory, c) == CategorySum(known, t.byType, c))
  {
    if !AnyThrows(xs) {
      var names := TagNames(known, xs);
      var data := Tally(names);
      SortedTally(names);
      TallySpec(names);
      ByTypeSpec(data);
      GroupBySpec(name => CategoryOf(known, name), data);
      ByCategoryKeys(known, data);
    }
  }

  /** The filter keeps an entry exactly when its `function` is a string that is a custom template or not ignored. */
  lemma KeptTagsSpec(xs: seq<Json>, x: Json)
    ensures x in KeptTags(xs) <==>
      (x in xs && FunctionOf(x).Function?
       && (StartsWith(FunctionOf(x).raw, "cvt_") || BareId(FunctionOf(x).raw) !in IgnoreList))
  {
    KeptTagsContents(xs);
  }

  // ---------------------------------------------------------------------------
  // Macros and triggers
  // ---------------------------------------------------------------------------

  /**
   * `processMacros` throws exactly when some entry's truthy `function` is not a
   * string; otherwise its total is the number of named macros, and each name
   * counts its occurrences, sorted.
   */
  lemma MacrosOfSpec(types: map<string, string>, xs: seq<Json>)
    ensures MacrosOf(types, xs).None? <==> AnyThrows(xs)
    ensures MacrosOf(types, xs).Some? ==>
      var b := MacrosOf(types, xs).value;
      var names := MacroNames(types, xs);
      && BucketConsistent(b)
      && b.total == |names|
      && (forall k :: Get(b.byName, k) == multiset(names)[k])
      && (forall k :: HasKey(b.byName, k) <==> k in names)
  {
    if !AnyThrows(xs) {
      SortedTally(MacroNames(types, xs));
      TallySpec(MacroNames(types, xs));
    }
  }

  /**
   * A macro is counted exactly when its `function` is a string and it has a
   * truthy `name` or a catalog name; a truthy `name` is the name counted.
   */
  lemma MacroCounted(types: map<string, string>, x: Json)
    ensures MacroNameOf(types, x) != [] <==>
      (FunctionOf(x).Function? &&
       (TruthyProp(Prop(x, "name")) || (BareId(FunctionOf(x).raw) in types && types[BareId(FunctionOf(x).raw)] != "")))
    ensures MacroNameOf(types, x) != [] && !TruthyProp(Prop(x, "name")) ==>
      MacroNameOf(types, x) == [types[BareId(FunctionOf(x).raw)]]
    ensures FunctionOf(x).Function? && TruthyProp(Prop(x, "name")) ==>
      MacroNameOf(types, x) == [ToKey(Prop(x, "name").value)]
  {
  }

  /**
   * `processTriggers` throws exactly when `processTags` does; otherwise its
   * total is the number of counted triggers, each name counts its occurrences,
   * and every name is a catalog trigger name.
   */
  lemma TriggersOfSpec(xs: seq<Json>)
    ensures TriggersOf(xs).None? <==> TagsOf(KnownTags, xs).None?
    ensures TriggersOf(xs).Some? ==>
      var b := TriggersOf(xs).value;
      var names := TriggerNames(xs);
      && BucketConsistent(b)
      && b.total == |names|
      && (forall k :: Get(b.byName, k) == multiset(names)[k])
      && (forall k :: HasKey(b.byName, k) <==> k in names)
      && (forall k | HasKey(b.byName, k) :: k in TriggerTypes.Values)
  {
    if !AnyThrows(xs) {
      var names := TriggerNames(xs);
      SortedTally(names);
      TallySpec(names);
      TriggerNamesCatalog(xs);
    }
  }

  /** The `|| id` fallback of the trigger name never fires: every counted id has a catalog name. */
  lemma TriggerNameCatalog(id: string)
    requires id in TriggerIds
    ensures id in TriggerTypes && TriggerName(id) == TriggerTypes[id]
  {
    TriggerTypesComplete();
  }

  lemma {:induction false} TriggerNamesCatalog(xs: seq<Json>)
    ensures forall k | 0 <= k < |TriggerNames(xs)| :: TriggerNames(xs)[k] in TriggerTypes.Values
  {
    if xs != [] {
      TriggerNamesCatalog(xs[..|xs| - 1]);
      var x := xs[|xs| - 1];
      if FunctionOf(x).Function? && BareId(FunctionOf(x).raw) in TriggerIds {
        TriggerNameCatalog(BareId(FunctionOf(x).raw));
      }
    }
  }

  // ---------------------------------------------------------------------------
  // The resource record
  // ---------------------------------------------------------------------------

  lemma EmptyAnalysisConsistent()
    ensures Consistent(EmptyAnalysis)
  {
  }

  /** Every analysis is consistent: totals are sums, names are sorted. */
  lemma ResourceDetailsConsistent(obj: Json)
    ensures Consistent(ResourceDetails(obj))
  {
    var tags := ArrayProp(obj, "tags");
    TagsOfSpec(KnownTags, tags);
    MacrosOfSpec(MacroTypes, ArrayProp(obj, "macros"));
    TriggersOfSpec(tags);
  }

  /**
   * A falsy or non-object record, or an entry that throws in `tags` or
   * `macros`, gives the empty analysis; otherwise `predicates` and `rules`
   * pass through (`[]` when not arrays), a falsy `version` becomes `null`,
   * and the buckets are those of the three counters.
   */
  lemma ResourceDetailsSpec(obj: Json)
    ensures !Truthy(obj) || !IsObjectLike(obj) ==> ResourceDetails(obj) == EmptyAnalysis
    ensures AnyThrows(ArrayProp(obj, "tags")) || AnyThrows(ArrayProp(obj, "macros")) ==> ResourceDetails(obj) == EmptyAnalysis
    ensures Truthy(obj) && IsObjectLike(obj) && !AnyThrows(ArrayProp(obj, "tags")) && !AnyThrows(ArrayProp(obj, "macros")) ==>
      var r := ResourceDetails(obj);
      var version := Prop(obj, "version");
      && r.predicates == ArrayProp(obj, "predicates")
      && r.rules == ArrayProp(obj, "rules")
      && r.version == (if TruthyProp(version) then version.value else JNull)
      && Some(r.tags) == TagsOf(KnownTags, ArrayProp(obj, "tags"))
      && Some(r.macros) == MacrosOf(MacroTypes, ArrayProp(obj, "macros"))
      && Some(r.triggers) == TriggersOf(ArrayProp(obj, "tags"))
  {
    TagsOfSpec(KnownTags, ArrayProp(obj, "tags"));
    MacrosOfSpec(MacroTypes, ArrayProp(obj, "macros"));
    TriggersOfSpec(ArrayProp(obj, "tags"));
  }

  // ---------------------------------------------------------------------------
  // Scenarios decided by the catalogs
  // ---------------------------------------------------------------------------

  /** An entry holding only a `function` property. */
  function FunctionEntry(id: string): Json {
    JObject([Member("function", JString(id))])
  }

  lemma FunctionEntryField(id: string)
    requires id != ""
    ensures FunctionOf(FunctionEntry(id)) == Function(id)
  {
    assert Prop(FunctionEntry(id), "function") == Some(JString(id));
  }

  lemma FirstCharDiffers(s: string, p: string)
    requires |s| > 0 && |p| > 0 && s[0] != p[0]
    ensures !StartsWith(s, p)
  {
    if |p| <= |s| {
      assert s[..|p|][0] == s[0];
    }
  }

  /** A list of one entry that does not throw. */
  lemma SingleNoThrow(x: Json)
    requires !FunctionOf(x).Throws?
    ensures !AnyThrows([x])
  {
  }

  /** A counter with one entry, sorted, is itself; `[n]` tallies to one count. */
  lemma SingleTally(n: string, c: nat)
    ensures Tally([n]) == [Entry(n, 1)]
    ensures Add([Entry(n, c)], n, 1) == [Entry(n, c + 1)]
    ensures SortByKey([Entry(n, c)]) == [Entry(n, c)]
    ensures Sum([Entry(n, c)]) == c
  {
    assert [n][..0] == [];
    assert [Entry(n, c)][1..] == [];
  }

  /** One kept tag: the bucket counts its display name once. */
  lemma SingleTag(known: seq<TagEntry>, x: Json)
    requires IsTag(x)
    ensures TagsOf(known, [x]).Some? && TagsOf(known, [x]).value.byName == [Entry(TagName(known, x), 1)]
  {
    SingleNoThrow(x);
    assert [x][..0] == [];
    var n := TagName(known, x);
    assert KeptTags([x]) == [x];
    assert TagNames(known, [x]) == [n];
    SingleTally(n, 1);
  }

  /** One entry that is not a tag and does not throw: every tag view is empty. */
  lemma SingleNonTag(known: seq<TagEntry>, x: Json)
    requires !IsTag(x) && !FunctionOf(x).Throws?
    ensures TagsOf(known, [x]) == Some(TagBucket([], 0, [], []))
  {
    SingleNoThrow(x);
    assert [x][..0] == [];
    assert KeptTags([x]) == [];
  }

  /** One counted trigger: the bucket counts its name once. */
  lemma SingleTrigger(x: Json, raw: string)
    requires FunctionOf(x) == Function(raw) && BareId(raw) in TriggerIds
    ensures TriggersOf([x]) == Some(Bucket([Entry(TriggerName(BareId(raw)), 1)], 1))
  {
    SingleNoThrow(x);
    assert [x][..0] == [];
    var n := TriggerName(BareId(raw));
    TriggerNamesSnoc([], x);
    assert [] + [x] == [x];
    assert TriggerNameOf(x) == [n];
    SingleTally(n, 1);
    assert TriggerNames([x]) == [n];
  }

  /** Two macros counted under the same name: one entry with count 2. */
  lemma TwoMacrosOneName(types: map<string, string>, a: Json, b: Json, n: string)
    requires !FunctionOf(a).Throws? && !FunctionOf(b).Throws?
    requires MacroNameOf(types, a) == [n] && MacroNameOf(types, b) == [n]
    ensures MacrosOf(types, [a, b]) == Some(Bucket([Entry(n, 2)], 2))
  {
    SingleNoThrow(a);
    AnyThrowsSnoc([a], b);
    assert [a] + [b] == [a, b];
    MacroNamesSnoc(types, [], a);
    MacroNamesSnoc(types, [a], b);
    assert [] + [a] == [a] && [a] + [b] == [a, b];
    SingleTally(n, 1);
    TallySnoc([n], n);
    assert [n] + [n] == [n, n];
    SingleTally(n, 2);
    assert MacroNames(types, [a, b]) == [n, n];
    assert Tally([n, n]) == [Entry(n, 2)];
  }

  /** An entry with function `__hl` is counted as the tag `hl`: `hl` is not in the ignore list. */
  lemma HistoryListenerTag()
    ensures TagsOf(KnownTags, [FunctionEntry("__hl")]).Some?
    ensures TagsOf(KnownTags, [FunctionEntry("__hl")]).value.byName == [Entry("hl", 1)]
  {
    var x := FunctionEntry("__hl");
    FunctionEntryField("__hl");
    assert StartsWith("__hl", "__");
    assert BareId("__hl") == "hl";
    FirstCharDiffers("__hl", "cvt_");
    assert IsTag(x);
    HlNotATag();
    FirstCharDiffers("hl", "cvt_");
    FirstCharDiffers("hl", "_");
    assert Prop(x, "tagName") == None && Prop(x, "name") == None;
    assert TagName(KnownTags, x) == FriendlyTagName(KnownTags, "hl").name == "hl";
    SingleTag(KnownTags, x);
  }

  /** The same `__hl` entry is also counted as the trigger `History Listener`. */
  lemma HistoryListenerCountedTwice()
    ensures TagsOf(KnownTags, [FunctionEntry("__hl")]).Some?
    ensures TagsOf(KnownTags, [FunctionEntry("__hl")]).value.byName == [Entry("hl", 1)]
    ensures TriggersOf([FunctionEntry("__hl")]) == Some(Bucket([Entry("History Listener", 1)], 1))
  {
    HistoryListenerTag();
    FunctionEntryField("__hl");
    HistoryListenerName();
    SingleTrigger(FunctionEntry("__hl"), "__hl");
  }

  lemma HistoryListenerName()
    ensures BareId("__hl") == "hl" && "hl" in TriggerIds && TriggerName("hl") == "History Listener"
  {
    assert StartsWith("__hl", "__");
    assert TriggerIds[3] == "hl";
  }

  /** An entry with function `__cl` is counted only as the trigger `Click Listener`. */
  lemma ClickListenerOnlyTrigger()
    ensures TagsOf(KnownTags, [FunctionEntry("__cl")]) == Some(TagBucket([], 0, [], []))
    ensures TriggersOf([FunctionEntry("__cl")]) == Some(Bucket([Entry("Click Listener", 1)], 1))
  {
    var x := FunctionEntry("__cl");
    ClickListenerNotTag();
    SingleNonTag(KnownTags, x);
    ClickListenerName();
    SingleTrigger(x, "__cl");
  }

  lemma ClickListenerNotTag()
    ensures FunctionOf(FunctionEntry("__cl")) == Function("__cl") && !IsTag(FunctionEntry("__cl"))
  {
    FunctionEntryField("__cl");
    assert StartsWith("__cl", "__");
    assert BareId("__cl") == "cl";
    FirstCharDiffers("__cl", "cvt_");
    assert IgnoreList[0] == "cl";
  }

  lemma ClickListenerName()
    ensures BareId("__cl") == "cl" && "cl" in TriggerIds && TriggerName("cl") == "Click Listener"
  {
    assert StartsWith("__cl", "__");
    assert TriggerIds[1] == "cl";
  }

  /** Unnamed macros `__jsm` and `__j` are counted under one display name. */
  lemma JavaScriptVariablesMerge()
    ensures MacrosOf(MacroTypes, [FunctionEntry("__jsm"), FunctionEntry("__j")])
      == Some(Bucket([Entry("JavaScript Variable", 2)], 2))
  {
    assert StartsWith("__jsm", "__") && StartsWith("__j", "__");
    assert BareId("__jsm") == "jsm" && BareId("__j") == "j";
    JavaScriptVariableTwice();
    UnnamedMacro(MacroTypes, "__jsm", "JavaScript Variable");
    UnnamedMacro(MacroTypes, "__j", "JavaScript Variable");
    TwoMacrosOneName(MacroTypes, FunctionEntry("__jsm"), FunctionEntry("__j"), "JavaScript Variable");
  }

  /** An entry without a `name` is counted under its macro type's catalog name. */
  lemma UnnamedMacro(types: map<string, string>, raw: string, n: string)
    requires raw != "" && BareId(raw) in types && types[BareId(raw)] == n && n != ""
    ensures !FunctionOf(FunctionEntry(raw)).Throws? && MacroNameOf(types, FunctionEntry(raw)) == [n]
  {
    FunctionEntryField(raw);
    assert Prop(FunctionEntry(raw), "name") == None;
  }
}
