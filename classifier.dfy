/**
 * Classification of a container's resource record: the tags, macros
 * (variables) and triggers it declares, counted per display name, sorted by
 * name, and the tags also counted per category.
 *
 * Every entry of `tags` and `macros` names its kind in a `function` property
 * such as `"__html"` or `"cvt_123"`. Entries without a truthy `function` are
 * skipped; a truthy `function` that is not a string makes the classification
 * throw, and the whole analysis falls back to the empty one.
 */
module Classifier {
  import opened Wrappers
  import opened Strings
  import opened Json
  import opened Order
  import opened Dict
  import opened Constants

  // ---------------------------------------------------------------------------
  // Results
  // ---------------------------------------------------------------------------

  /** Counts per display name (sorted by name) and their total. */
  datatype Bucket = Bucket(byName: Dict, total: nat)

  /** The tag counts, also grouped by category (`byCategory`) and in discovery order (`byType`). */
  datatype TagBucket = TagBucket(byName: Dict, total: nat, byCategory: Dict, byType: Dict)

  /** The analysis of one container; `processedAt` is left out. */
  datatype Analysis = Analysis(
    version: Json,
    macros: Bucket,
    predicates: seq<Json>,
    tags: TagBucket,
    triggers: Bucket,
    rules: seq<Json>)

  /** `getEmptyAnalysis()`: what every failure returns. */
  const EmptyAnalysis := Analysis(JNull, Bucket([], 0), [], TagBucket([], 0, [], []), Bucket([], 0), [])

  // ---------------------------------------------------------------------------
  // The `function` property of an entry
  // ---------------------------------------------------------------------------

  /** What reading `x.function` leads to. */
  datatype FunctionField = Skipped | Throws | Function(raw: string)

  /**
   * `if (!x || !x.function) return;` followed by `x.function.startsWith(...)`,
   * which throws a `TypeError` on a truthy value that is not a string.
   */
  function FunctionOf(x: Json): FunctionField {
    var f := Prop(x, "function");
    if !Truthy(x) || !TruthyProp(f) then Skipped
    else if f.value.JString? then Function(f.value.s)
    else Throws
  }

  /** Some entry makes the classification throw. */
  predicate AnyThrows(xs: seq<Json>) {
    exists k | 0 <= k < |xs| :: FunctionOf(xs[k]).Throws?
  }

  lemma AnyThrowsSnoc(xs: seq<Json>, x: Json)
    ensures AnyThrows(xs + [x]) <==> AnyThrows(xs) || FunctionOf(x).Throws?
  {
    if FunctionOf(x).Throws? {
      assert (xs + [x])[|xs|] == x;
    }
    if AnyThrows(xs) {
      var k :| 0 <= k < |xs| && FunctionOf(xs[k]).Throws?;
      assert (xs + [x])[k] == xs[k];
    }
  }

  /** The id with one leading `__` removed. */
  function BareId(raw: string): (r: string)
    ensures StartsWith(raw, "__") ==> raw == "__" + r
    ensures !StartsWith(raw, "__") ==> r == raw
  {
    if StartsWith(raw, "__") then raw[2..] else raw
  }

  // ---------------------------------------------------------------------------
  // Tags
  // ---------------------------------------------------------------------------

  /** Bare ids of variables and triggers that are not counted as tags. */
  const IgnoreList: seq<string> := ["cl", "evl", "fsl", "lcl", "sdl", "dl", "ev", "f", "v"]

  /** Custom templates and every id outside the ignore list count as tags. */
  predicate KeptAsTag(raw: string) {
    StartsWith(raw, "cvt_") || BareId(raw) !in IgnoreList
  }

  /** The entry passes the tag filter. */
  predicate IsTag(x: Json) {
    FunctionOf(x).Function? && KeptAsTag(FunctionOf(x).raw)
  }

  /** A tag's friendly name and display category. */
  datatype FriendlyTag = FriendlyTag(name: string, category: string)

  /** `CATEGORY_NAMES[category] || 'Other'`. */
  function CategoryDisplay(category: string): (r: string)
    ensures r in CategoryNames.Values
  {
    assert CategoryNames["other"] == "Other";
    if category in CategoryNames && CategoryNames[category] != "" then CategoryNames[category] else "Other"
  }

  /**
   * `getFriendlyTagName(tagId)`, with the tag catalog `known` as a parameter
   * (the analyzer passes `KNOWN_TAGS`).
   */
  function FriendlyTagName(known: seq<TagEntry>, tagId: string): (r: FriendlyTag)
    ensures StartsWith(tagId, "cvt_") ==> r == FriendlyTag("Custom Template", "custom")
    ensures r.category == "custom" || r.category in CategoryNames.Values
  {
    if tagId != "" && StartsWith(tagId, "cvt_") then FriendlyTag("Custom Template", "custom")
    else match FindId(known, tagId)
      case Some(i) => FriendlyTag(known[i].name, CategoryDisplay(known[i].category))
      case None =>
        assert CategoryNames["other"] == "Other";
        FriendlyTag(
          if tagId != "" && StartsWith(tagId, "_") then tagId[1..]
          else if tagId != "" then tagId else "Unknown",
          "Other")
  }

  /** A catalog id (not a custom template) gets its catalog name and the display name of its category. */
  lemma FriendlyTagNameCatalog(tagId: string, i: nat)
    requires i < |KnownTags| && KnownTags[i].id == tagId && !StartsWith(tagId, "cvt_")
    ensures KnownTags[i].category in CategoryNames
    ensures FriendlyTagName(KnownTags, tagId) == FriendlyTag(KnownTags[i].name, CategoryNames[KnownTags[i].category])
  {
    FindIdUnique(tagId, i);
    KnownTagsCategorized();
    assert KnownTags[i].category in CategoryNames;
    CategoryNamesNonEmpty();
  }

  lemma CategoryNamesNonEmpty()
    ensures forall c | c in CategoryNames :: CategoryNames[c] != ""
  {
  }

  /** An unknown id keeps its name, minus one leading `_`; the empty id is `'Unknown'`. */
  lemma FriendlyTagNameUnknown(tagId: string)
    requires !StartsWith(tagId, "cvt_") && FindId(KnownTags, tagId).None?
    ensures FriendlyTagName(KnownTags, tagId).category == "Other"
    ensures tagId == "" ==> FriendlyTagName(KnownTags, tagId).name == "Unknown"
    ensures StartsWith(tagId, "_") ==> "_" + FriendlyTagName(KnownTags, tagId).name == tagId
    ensures tagId != "" && !StartsWith(tagId, "_") ==> FriendlyTagName(KnownTags, tagId).name == tagId
  {
    if StartsWith(tagId, "_") {
      assert tagId == [tagId[0]] + tagId[1..];
    }
  }

  /** The string in `x.function` for an entry that has one, and `""` for any other. */
  function RawFunction(x: Json): string {
    match FunctionOf(x)
    case Function(raw) => raw
    case _ => ""
  }

  /** `tag.tagName || tag.name || friendly name`, as the key a kept tag is counted under. */
  function TagName(known: seq<TagEntry>, x: Json): string {
    var tagName := Prop(x, "tagName");
    var name := Prop(x, "name");
    if TruthyProp(tagName) then ToKey(tagName.value)
    else if TruthyProp(name) then ToKey(name.value)
    else FriendlyTagName(known, BareId(RawFunction(x))).name
  }

  /** `tagsArr.filter(...)`: the entries that pass the tag filter, in order. */
  function KeptTags(xs: seq<Json>): (r: seq<Json>)
    ensures |r| <= |xs|
  {
    if xs == [] then []
    else
      var init := KeptTags(xs[..|xs| - 1]);
      if IsTag(xs[|xs| - 1]) then init + [xs[|xs| - 1]] else init
  }

  /** The display names of kept tags, in order. */
  function NamesOf(known: seq<TagEntry>, ys: seq<Json>): (r: seq<string>)
    ensures |r| == |ys|
  {
    if ys == [] then [] else NamesOf(known, ys[..|ys| - 1]) + [TagName(known, ys[|ys| - 1])]
  }

  lemma KeptTagsSnoc(xs: seq<Json>, x: Json)
    ensures KeptTags(xs + [x]) == KeptTags(xs) + if IsTag(x) then [x] else []
  {
    assert (xs + [x])[..|xs|] == xs;
  }

  /** Filtering distributes over concatenation, so the kept entries keep their order. */
  lemma {:induction false} KeptTagsAppend(xs: seq<Json>, ys: seq<Json>)
    ensures KeptTags(xs + ys) == KeptTags(xs) + KeptTags(ys)
    decreases |ys|
  {
    if ys == [] {
      assert xs + ys == xs;
    } else {
      var init, last := ys[..|ys| - 1], ys[|ys| - 1];
      assert ys == init + [last];
      assert xs + ys == (xs + init) + [last];
      KeptTagsAppend(xs, init);
      KeptTagsSnoc(xs + init, last);
      KeptTagsSnoc(init, last);
    }
  }

  /** The filter keeps every entry that passes it as often as it occurs, and nothing else. */
  lemma {:induction false} KeptTagsContents(xs: seq<Json>)
    ensures forall x :: multiset(KeptTags(xs))[x] == if IsTag(x) then multiset(xs)[x] else 0
    ensures forall x :: x in KeptTags(xs) <==> x in xs && IsTag(x)
    decreases |xs|
  {
    if xs != [] {
      var init, last := xs[..|xs| - 1], xs[|xs| - 1];
      assert xs == init + [last];
      KeptTagsContents(init);
      KeptTagsSnoc(init, last);
    }
  }

  /** The display name of the `j`-th kept tag is `NamesOf`'s `j`-th element. */
  lemma {:induction false} NamesOfAt(known: seq<TagEntry>, ys: seq<Json>, j: nat)
    requires j < |ys|
    ensures NamesOf(known, ys)[j] == TagName(known, ys[j])
    decreases |ys|
  {
    if j < |ys| - 1 {
      var init := ys[..|ys| - 1];
      assert init[j] == ys[j];
      NamesOfAt(known, init, j);
    }
  }

  /** The display names of all tags counted in `xs`, in order. */
  function TagNames(known: seq<TagEntry>, xs: seq<Json>): seq<string> {
    NamesOf(known, KeptTags(xs))
  }

  /** The tag bucket of `processTags(tagsArr)`, or `None` when it throws. */
  function TagsOf(known: seq<TagEntry>, xs: seq<Json>): Option<TagBucket> {
    if AnyThrows(xs) then None
    else
      var data := Tally(TagNames(known, xs));
      Some(TagBucket(SortByKey(data), |KeptTags(xs)|, ByCategory(known, data), ByType(data)))
  }

  // ---------------------------------------------------------------------------
  // Categories
  // ---------------------------------------------------------------------------

  /** The category found by the reverse lookup of a friendly name in the catalog. */
  function NameCategory(known: seq<TagEntry>, name: string): (r: string)
    ensures r in CategoryNames.Values
    ensures FindName(known, name).None? ==> r == "Other"
    ensures FindName(known, name).Some? ==> r == CategoryDisplay(known[FindName(known, name).value].category)
  {
    assert CategoryNames["other"] == "Other";
    match FindName(known, name)
    case Some(i) => CategoryDisplay(known[i].category)
    case None => "Other"
  }

  /** The category a tag name is counted under: the catalog's, then the three overrides in order. */
  function CategoryOf(known: seq<TagEntry>, name: string): (r: string)
    ensures Contains(name, "Analytics") ==> r == "Analytics"
    ensures !Contains(name, "Analytics") && Contains(name, "Google") ==> r == "Google"
    ensures !Contains(name, "Analytics") && !Contains(name, "Google") && name == "Custom Template" ==> r == "Custom"
    ensures !Contains(name, "Analytics") && !Contains(name, "Google") && name != "Custom Template" ==>
      r == NameCategory(known, name)
    ensures r in CategoryNames.Values
  {
    assert CategoryNames["analytics"] == "Analytics" && CategoryNames["google"] == "Google";
    assert CategoryNames["custom"] == "Custom";
    var c0 := NameCategory(known, name);
    var c1 := if name == "Custom Template" then "Custom" else c0;
    var c2 := if Contains(name, "Google") then "Google" else c1;
    if Contains(name, "Analytics") then "Analytics" else c2
  }

  /** `byCategory`: each entry's count added under its category, in order. */
  function ByCategory(known: seq<TagEntry>, d: Dict): Dict {
    GroupBy(name => CategoryOf(known, name), d)
  }

  /** `byType`: each entry's count stored under its name, in order. */
  function ByType(d: Dict): Dict {
    if d == [] then []
    else Put(ByType(d[..|d| - 1]), d[|d| - 1].key, d[|d| - 1].count)
  }

  /** The total count of the entries whose names fall in category `c`. */
  function CategorySum(known: seq<TagEntry>, d: Dict, c: string): nat {
    SumIn(name => CategoryOf(known, name), d, c)
  }

  /**
   * The groups of `byCategory` are exactly the categories of its entries'
   * names, each a display category, and each holds the total count of the
   * entries in it.
   */
  lemma ByCategoryKeys(known: seq<TagEntry>, d: Dict)
    ensures forall c :: HasKey(ByCategory(known, d), c) <==> exists k | 0 <= k < |d| :: CategoryOf(known, d[k].key) == c
    ensures forall c | HasKey(ByCategory(known, d), c) :: c in CategoryNames.Values
    ensures forall c :: Get(ByCategory(known, d), c) == CategorySum(known, d, c)
  {
    GroupBySpec(name => CategoryOf(known, name), d);
  }

  /** With distinct names, `byType` is the input itself. */
  lemma {:induction false} ByTypeSpec(d: Dict)
    requires KeysDistinct(d)
    ensures ByType(d) == d
  {
    if d != [] {
      var init, last := d[..|d| - 1], d[|d| - 1];
      ByTypeSpec(init);
      PutNew(init, last.key, last.count);
      assert d == init + [last];
    }
  }

  /** The reverse lookup's loop over the entries of `table`, stopping at the first match. */
  method ReverseLookupCategory(table: seq<TagEntry>, name: string) returns (category: string)
    ensures category == (match FindName(table, name) case Some(i) => CategoryDisplay(table[i].category) case None => "Other")
  {
    category := "Other";
    var k := 0;
    while k < |table|
      invariant 0 <= k <= |table|
      invariant forall m | 0 <= m < k :: table[m].name != name
    {
      if table[k].name == name {
        category := CategoryDisplay(table[k].category);
        return;
      }
      k := k + 1;
    }
  }

  /** `categorizeTagsByCategory(tagsByName)`. */
  method CategorizeTagsByCategory(known: seq<TagEntry>, tagsByName: Dict) returns (byCategory: Dict, byType: Dict)
    ensures byCategory == ByCategory(known, tagsByName) && byType == ByType(tagsByName)
  {
    byCategory := [];
    byType := [];
    var i := 0;
    while i < |tagsByName|
      invariant 0 <= i <= |tagsByName|
      invariant byCategory == ByCategory(known, tagsByName[..i]) && byType == ByType(tagsByName[..i])
    {
      var name, count := tagsByName[i].key, tagsByName[i].count;
      var category := ReverseLookupCategory(known, name);
      if name == "Custom Template" {
        category := "Custom";
      }
      if Contains(name, "Google") {
        category := "Google";
      }
      if Contains(name, "Analytics") {
        category := "Analytics";
      }
      byCategory := Add(byCategory, category, count);
      byType := Put(byType, name, count);
      assert tagsByName[..i + 1][..i] == tagsByName[..i];
      i := i + 1;
    }
    assert tagsByName[..i] == tagsByName;
  }

  /** The filter of `processTags`: the entries kept as tags, or `None` when one throws. */
  method FilterTags(tags: seq<Json>) returns (r: Option<seq<Json>>)
    ensures r.None? <==> AnyThrows(tags)
    ensures r.Some? ==> r.value == KeptTags(tags)
  {
    var validTags: seq<Json> := [];
    var i := 0;
    while i < |tags|
      invariant 0 <= i <= |tags|
      invariant !AnyThrows(tags[..i])
      invariant validTags == KeptTags(tags[..i])
    {
      var f := FunctionOf(tags[i]);
      if f.Throws? {
        assert tags[i] == tags[..|tags|][i];
        return None;
      }
      assert tags[..i + 1] == tags[..i] + [tags[i]];
      AnyThrowsSnoc(tags[..i], tags[i]);
      KeptTagsSnoc(tags[..i], tags[i]);
      if f.Function? && KeptAsTag(f.raw) {
        validTags := validTags + [tags[i]];
      } else {
        assert KeptTags(tags[..i + 1]) == KeptTags(tags[..i]) + [] == validTags;
      }
      i := i + 1;
    }
    assert tags[..i] == tags;
    r := Some(validTags);
  }

  /** The count per display name of `processTags`, over the kept entries. */
  method CountTags(known: seq<TagEntry>, validTags: seq<Json>) returns (tagData: Dict)
    ensures tagData == Tally(NamesOf(known, validTags))
  {
    ghost var names := NamesOf(known, validTags);
    tagData := [];
    var j := 0;
    while j < |validTags|
      invariant 0 <= j <= |validTags|
      invariant tagData == Tally(names[..j])
    {
      NamesOfAt(known, validTags, j);
      TallyPrefixStep(names, j);
      tagData := Add(tagData, TagName(known, validTags[j]), 1);
      j := j + 1;
    }
    assert names[..j] == names;
  }

  /** `processTags(tagsArr)`: the filter, then the count per display name, then sorting and grouping. */
  method ProcessTags(known: seq<TagEntry>, tags: seq<Json>) returns (r: Option<TagBucket>)
    ensures r == TagsOf(known, tags)
  {
    var validTags := FilterTags(tags);
    if validTags.None? {
      return None;
    }
    var tagData := CountTags(known, validTags.value);
    var byCategory, byType := CategorizeTagsByCategory(known, tagData);
    r := Some(TagBucket(SortByKey(tagData), |validTags.value|, byCategory, byType));
  }

  // ---------------------------------------------------------------------------
  // Macros
  // ---------------------------------------------------------------------------

  /**
   * The name a macro is counted under: its own `name` when truthy, else its
   * name in the macro-type table `types` (`MACRO_TYPES`); `None` when it has neither.
   */
  function MacroName(types: map<string, string>, x: Json, raw: string): (r: Option<string>)
    ensures r.None? <==> !TruthyProp(Prop(x, "name")) && (BareId(raw) !in types || types[BareId(raw)] == "")
    ensures r.Some? && !TruthyProp(Prop(x, "name")) ==> r.value == types[BareId(raw)]
    ensures TruthyProp(Prop(x, "name")) ==> r == Some(ToKey(Prop(x, "name").value))
  {
    var id := BareId(raw);
    var name := Prop(x, "name");
    var catalog := if id in types && types[id] != "" then Some(types[id]) else None;
    if catalog.Some? || TruthyProp(name) then
      Some(if TruthyProp(name) then ToKey(name.value) else catalog.value)
    else None
  }

  /** The name one macro entry is counted under, if any: zero or one name. */
  function MacroNameOf(types: map<string, string>, x: Json): (r: seq<string>)
    ensures |r| <= 1
  {
    match FunctionOf(x)
    case Function(raw) => (match MacroName(types, x, raw) case Some(n) => [n] case None => [])
    case _ => []
  }

  /** The names of all counted macros, in order. */
  function MacroNames(types: map<string, string>, xs: seq<Json>): seq<string> {
    if xs == [] then [] else MacroNames(types, xs[..|xs| - 1]) + MacroNameOf(types, xs[|xs| - 1])
  }

  lemma MacroNamesSnoc(types: map<string, string>, xs: seq<Json>, x: Json)
    ensures MacroNames(types, xs + [x]) == MacroNames(types, xs) + MacroNameOf(types, x)
  {
    assert (xs + [x])[..|xs|] == xs;
  }

  /** The bucket of `processMacros(macros)`, or `None` when it throws. */
  function MacrosOf(types: map<string, string>, xs: seq<Json>): Option<Bucket> {
    if AnyThrows(xs) then None
    else
      var data := Tally(MacroNames(types, xs));
      Some(Bucket(SortByKey(data), Sum(data)))
  }

  /** One more entry: its macro name, if any, is counted once more. */
  lemma MacrosStep(types: map<string, string>, xs: seq<Json>, x: Json)
    ensures Tally(MacroNames(types, xs + [x])) ==
      if MacroNameOf(types, x) == [] then Tally(MacroNames(types, xs)) else Add(Tally(MacroNames(types, xs)), MacroNameOf(types, x)[0], 1)
  {
    MacroNamesSnoc(types, xs, x);
    var names := MacroNames(types, xs);
    if MacroNameOf(types, x) == [] {
      assert MacroNames(types, xs + [x]) == names + [] == names;
    } else {
      assert MacroNameOf(types, x) == [MacroNameOf(types, x)[0]];
      TallySnoc(names, MacroNameOf(types, x)[0]);
    }
  }

  /** The loop of `processMacros` over one more entry that does not throw. */
  lemma MacroLoopStep(types: map<string, string>, xs: seq<Json>, i: nat, data: Dict)
    requires i < |xs| && !AnyThrows(xs[..i]) && !FunctionOf(xs[i]).Throws? && data == Tally(MacroNames(types, xs[..i]))
    ensures !AnyThrows(xs[..i + 1])
    ensures Tally(MacroNames(types, xs[..i + 1])) ==
      if FunctionOf(xs[i]).Function? && MacroName(types, xs[i], FunctionOf(xs[i]).raw).Some?
      then Add(data, MacroName(types, xs[i], FunctionOf(xs[i]).raw).value, 1)
      else data
  {
    assert xs[..i + 1] == xs[..i] + [xs[i]];
    AnyThrowsSnoc(xs[..i], xs[i]);
    MacrosStep(types, xs[..i], xs[i]);
  }

  /** `processMacros(macros)`. */
  method ProcessMacros(types: map<string, string>, macros: seq<Json>) returns (r: Option<Bucket>)
    ensures r == MacrosOf(types, macros)
  {
    var macroData: Dict := [];
    var i := 0;
    while i < |macros|
      invariant 0 <= i <= |macros|
      invariant !AnyThrows(macros[..i])
      invariant macroData == Tally(MacroNames(types, macros[..i]))
    {
      var f := FunctionOf(macros[i]);
      if f.Throws? {
        assert FunctionOf(macros[i]).Throws?;
        return None;
      }
      MacroLoopStep(types, macros, i, macroData);
      if f.Function? {
        var macroName := MacroName(types, macros[i], f.raw);
        if macroName.Some? {
          macroData := Add(macroData, macroName.value, 1);
        }
      }
      i := i + 1;
    }
    assert macros[..i] == macros;
    r := Some(Bucket(SortByKey(macroData), Sum(macroData)));
  }

  // ---------------------------------------------------------------------------
  // Triggers
  // ---------------------------------------------------------------------------

  /** The bare ids counted as triggers. */
  const TriggerIds: seq<string> := ["evl", "cl", "fsl", "hl", "jel", "lcl", "sdl", "tl", "ytl"]

  /** `TRIGGER_TYPES[id] || id`. */
  function TriggerName(id: string): string {
    if id in TriggerTypes && TriggerTypes[id] != "" then TriggerTypes[id] else id
  }

  /** The name one entry is counted under as a trigger, if any: zero or one name. */
  function TriggerNameOf(x: Json): (r: seq<string>)
    ensures |r| <= 1
  {
    match FunctionOf(x)
    case Function(raw) => if BareId(raw) in TriggerIds then [TriggerName(BareId(raw))] else []
    case _ => []
  }

  /** The names of all counted triggers, in order. */
  function TriggerNames(xs: seq<Json>): seq<string> {
    if xs == [] then [] else TriggerNames(xs[..|xs| - 1]) + TriggerNameOf(xs[|xs| - 1])
  }

  lemma TriggerNamesSnoc(xs: seq<Json>, x: Json)
    ensures TriggerNames(xs + [x]) == TriggerNames(xs) + TriggerNameOf(x)
  {
    assert (xs + [x])[..|xs|] == xs;
  }

  /** The bucket of `processTriggers(tagsArr)`, or `None` when it throws. */
  function TriggersOf(xs: seq<Json>): Option<Bucket> {
    if AnyThrows(xs) then None
    else
      var data := Tally(TriggerNames(xs));
      Some(Bucket(SortByKey(data), Sum(data)))
  }

  /** One more entry: its trigger name, if any, is counted once more. */
  lemma TriggersStep(xs: seq<Json>, x: Json)
    ensures Tally(TriggerNames(xs + [x])) ==
      if TriggerNameOf(x) == [] then Tally(TriggerNames(xs)) else Add(Tally(TriggerNames(xs)), TriggerNameOf(x)[0], 1)
  {
    TriggerNamesSnoc(xs, x);
    var names := TriggerNames(xs);
    if TriggerNameOf(x) == [] {
      assert TriggerNames(xs + [x]) == names + [] == names;
    } else {
      assert TriggerNameOf(x) == [TriggerNameOf(x)[0]];
      TallySnoc(names, TriggerNameOf(x)[0]);
    }
  }

  /** The loop of `processTriggers` over one more entry that does not throw. */
  lemma TriggerLoopStep(xs: seq<Json>, i: nat, data: Dict)
    requires i < |xs| && !AnyThrows(xs[..i]) && !FunctionOf(xs[i]).Throws? && data == Tally(TriggerNames(xs[..i]))
    ensures !AnyThrows(xs[..i + 1])
    ensures Tally(TriggerNames(xs[..i + 1])) ==
      if FunctionOf(xs[i]).Function? && BareId(FunctionOf(xs[i]).raw) in TriggerIds
      then Add(data, TriggerName(BareId(FunctionOf(xs[i]).raw)), 1)
      else data
  {
    assert xs[..i + 1] == xs[..i] + [xs[i]];
    AnyThrowsSnoc(xs[..i], xs[i]);
    TriggersStep(xs[..i], xs[i]);
  }

  /** `processTriggers(tagsArr)`. */
  method ProcessTriggers(tags: seq<Json>) returns (r: Option<Bucket>)
    ensures r == TriggersOf(tags)
  {
    var triggerData: Dict := [];
    var i := 0;
    while i < |tags|
      invariant 0 <= i <= |tags|
      invariant !AnyThrows(tags[..i])
      invariant triggerData == Tally(TriggerNames(tags[..i]))
    {
      var f := FunctionOf(tags[i]);
      if f.Throws? {
        assert FunctionOf(tags[i]).Throws?;
        return None;
      }
      TriggerLoopStep(tags, i, triggerData);
      if f.Function? && BareId(f.raw) in TriggerIds {
        triggerData := Add(triggerData, TriggerName(BareId(f.raw)), 1);
      }
      i := i + 1;
    }
    assert tags[..i] == tags;
    r := Some(Bucket(SortByKey(triggerData), Sum(triggerData)));
  }

  // ---------------------------------------------------------------------------
  // The resource record
  // ---------------------------------------------------------------------------

  /** `Array.isArray(obj[key]) ? obj[key] : []`. */
  function ArrayProp(obj: Json, key: string): seq<Json> {
    var p := Prop(obj, key);
    if p.Some? && p.value.JArray? then p.value.items else []
  }

  /** `extractResourceDetails(obj)`. */
  function ResourceDetails(obj: Json): Analysis {
    if !Truthy(obj) || !IsObjectLike(obj) then EmptyAnalysis
    else
      var version := Prop(obj, "version");
      var tags := ArrayProp(obj, "tags");
      match (TagsOf(KnownTags, tags), MacrosOf(MacroTypes, ArrayProp(obj, "macros")), TriggersOf(tags))
      case (Some(t), Some(m), Some(tr)) =>
        Analysis(
          if TruthyProp(version) then version.value else JNull,
          m, ArrayProp(obj, "predicates"), t, tr, ArrayProp(obj, "rules"))
      case _ => EmptyAnalysis
  }

  /** `extractResourceDetails(obj)`: tags first, then macros, then triggers; a throw gives the empty analysis. */
  method ExtractResourceDetails(obj: Json) returns (r: Analysis)
    ensures r == ResourceDetails(obj)
  {
    if !Truthy(obj) || !IsObjectLike(obj) {
      return EmptyAnalysis;
    }
    var version := Prop(obj, "version");
    var macros := ArrayProp(obj, "macros");
    var predicates := ArrayProp(obj, "predicates");
    var tagsArr := ArrayProp(obj, "tags");
    var rules := ArrayProp(obj, "rules");
    var tagResults := ProcessTags(KnownTags, tagsArr);
    if tagResults.None? {
      return EmptyAnalysis;
    }
    var macroResults := ProcessMacros(MacroTypes, macros);
    if macroResults.None? {
      return EmptyAnalysis;
    }
    var triggerResults := ProcessTriggers(tagsArr);
    if triggerResults.None? {
      return EmptyAnalysis;
    }
    r := Analysis(
      if TruthyProp(version) then version.value else JNull,
      macroResults.value, predicates, tagResults.value, triggerResults.value, rules);
  }
}
