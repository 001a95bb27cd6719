# GTM container analysis, modelled in Dafny

This project models the background core of a browser extension that inspects
Google Tag Manager (GTM) containers. The extension downloads a container's
`gtm.js` script, cuts the embedded `var data = {...}` object literal out of it
with a brace counter, parses it, and classifies the resource record it holds
into counted, alphabetically sorted buckets of tags, triggers and macros
(GTM "variables"). It also keeps the bookkeeping state around this pipeline:

- the analyzer's cache of analyses by URL, with TTL expiry and a size bound;
- the container store's per-tab tables (`containersByTab`, `lastUrlByTab`);
- the detector's table of request timings;
- the helpers that validate container ids and turn sizes into percentages.

Modules, leaf first:

| file | module | models |
|---|---|---|
| `wrappers.dfy` | `Wrappers` | `Option` for `undefined`/`null` results and caught exceptions |
| `strings.dfy` | `Strings` | `startsWith`, `includes`, `indexOf` on strings |
| `json.dfy` | `Json` | values produced by `JSON.parse`, JavaScript truthiness, property access, key conversion, JSON text |
| `order.dfy` | `Order` | the comparator that sorts names (see "Left out") |
| `dict.dfy` | `Dict` | the plain objects used as counters: insertion-ordered keys, `(obj[k] \|\| 0) + 1`, sum, sort by key, grouping |
| `constants.dfy` | `Constants` | `CONFIG`, `KNOWN_TAGS`, `CATEGORY_NAMES`, `MACRO_TYPES`, `TRIGGER_TYPES`, and facts about them |
| `payload_extractor.dfy` | `PayloadExtractor` | `findJsonEnd`, the brace counter, and why it finds the end of any embedded JSON object |
| `classifier.dfy` | `Classifier` | `getFriendlyTagName`, `processTags`, `processMacros`, `processTriggers`, `categorizeTagsByCategory`, `extractResourceDetails`, `getEmptyAnalysis` |
| `classifier_facts.dfy` | `ClassifierFacts` | count conservation, sortedness, error behaviour and concrete scenarios of the classifier |
| `analyzer.dfy` | `Analyzer` | `parseGTMScript`, end to end |
| `analysis_cache.dfy` | `AnalysisCache` | `ContainerAnalyzer`'s `analysisCache`: `cleanupExpiredCache`, `enforceCacheSize`, `isCacheValid` |
| `gtm_detector.dfy` | `GtmDetector` | `isValidContainerId`, `calculateSizePercentage`, the size report, the `requestTiming` table |
| `cache_manager.dfy` | `CacheManager` | the in-memory tables of `CacheManager`, `loadContainersFromCache`, `getStats`, the trim in `saveMemoryHistory` |

Each loop of the source is a Dafny `method` with a `while` loop, proved equal
to a specification function. The class state the source updates in place
(`analysisCache`, `requestTiming`, `containersByTab`, `lastUrlByTab`, the
memory-history array) is held in class fields that the methods reassign.
Lemmas prove what the source promises about those functions.

`JSON.parse` is a function parameter `parse: string -> Option<Json>`, which
gives `None` when parsing throws. Clock readings (`Date.now()`,
`performance.now()`) are integer parameters `now`.

Behaviour a reader of the code might not expect. The model follows the code
in each case:

- Every failure of `parseGTMScript` and `extractResourceDetails` gives the
  empty analysis of `getEmptyAnalysis()`, never `null`.
- Tags and triggers are not exclusive. The ids `hl`, `jel`, `tl` and `ytl` are
  trigger ids but are not on the tag ignore-list, so one such entry is counted
  in both buckets (`ClassifierFacts.HistoryListenerCountedTwice`).
- The ids `cl`, `evl`, `fsl`, `lcl` and `sdl` are counted as triggers only.
  They are not dropped (`ClassifierFacts.ClickListenerOnlyTrigger`).
- Names are sorted with `localeCompare`, not by plain lexicographic order.
- The tag `total` is the number of kept entries. The macro and trigger totals
  are the sums of their counts.
- `getFriendlyTagName` gives the raw category key `'custom'` for custom
  templates, but display names such as `'Google'` for catalog tags.
- A truthy `function` property that is not a string makes `startsWith` throw.
  That throw empties the whole analysis, not just one field.

## Model

| member | source | states |
|---|---|---|
| `PayloadExtractor.FindJsonEnd` | src/background/container-analyzer.js:514-552 | The scanner gives -1 exactly when no character from `start` on brings the depth back to zero. Otherwise it gives `r` with `start < r <= \|s\|` and `s[r-1] == '}'`, and `r - 1` is the first such closing brace. The depth counts braces only outside strings and skips the character after every backslash. |
| `PayloadExtractor.Step` | src/background/container-analyzer.js:520-548 | One character of the brace counter. The character after a backslash is skipped, a backslash arms the skip, and a double quote toggles the string flag. Outside strings, `{` and `}` raise and lower the depth. |
| `PayloadExtractor.JsonEnd` | src/background/container-analyzer.js:514-552 | `findJsonEnd`: scanning from the start index at depth 0, the index just past the first character that brings the depth back to zero, or -1. |
| `PayloadExtractor.EndFromSpec` | src/background/container-analyzer.js:519-551 | The scan's result described without the scan: -1 iff nothing closes; otherwise the position just past the first closing brace. |
| `PayloadExtractor.RunAppend` | src/background/container-analyzer.js:519-549 | Scanning a concatenation is scanning its parts in turn. Nothing closes in the whole iff nothing closes in either part. |
| `PayloadExtractor.BodyNeutral` | src/background/container-analyzer.js:522-537 | Inside a string, the raw body of a string literal leaves the state unchanged and closes nothing. The body may hold any characters other than `"` and `\`, and a backslash followed by any one character (`\"`, `\\`, `\n`, `\/`, `\u003c`, …). |
| `PayloadExtractor.LiteralNeutral` | src/background/container-analyzer.js:522-548 | A string literal, including any braces and escaped quotes inside it, never changes the depth or closes the object. |
| `PayloadExtractor.SyntaxNeutral` | src/background/container-analyzer.js:519-549 | The text of any well-formed piece of JSON text, read at depth at least 1, returns to the same depth and never closes the outer object. A piece is a bare stretch (whitespace, numbers, literals, brackets, commas, colons), a string literal with any escapes, or a nested object. |
| `PayloadExtractor.PartsNeutral` | src/background/container-analyzer.js:519-549 | Well-formed pieces written one after another, read at depth at least 1, return to the same depth and never close the outer object. |
| `PayloadExtractor.ObjectEndFound` | src/background/container-analyzer.js:514-552 | Round trip: when the text of a well-formed object is embedded in a script, the scan from its opening brace ends exactly after its closing brace. This holds whatever whitespace and escapes the text holds and whatever follows it. |
| `PayloadExtractor.CompactObjectEndFound` | src/background/container-analyzer.js:514-552 | The same for the compact text `Serialize` prints for any object. |
| `Strings.StartsWith` | src/background/container-analyzer.js:196 | `startsWith`: the string begins with the pattern. |
| `Strings.Contains` | src/background/container-analyzer.js:129-130 | `includes`: the pattern occurs somewhere in the string. |
| `Strings.IndexOf` | src/background/container-analyzer.js:465-472 | `indexOf` gives -1 when the pattern does not occur from `from` on. Otherwise it gives the first occurrence at or after `from`. |
| `Strings.IndexOfFirst` | src/background/container-analyzer.js:465-472 | An occurrence with none before it is the one `indexOf` finds. |
| `Analyzer.ResourceOf` | src/background/container-analyzer.js:494 | `data.resource \|\| data`: the `resource` property when it is truthy, the parsed value otherwise. |
| `Analyzer.AnalysisOfScript` | src/background/container-analyzer.js:462-506 | What `parseGTMScript` returns. It is the empty analysis when the marker, the `{` after it or the end of the literal is missing, or when `JSON.parse` throws or gives a falsy or non-object value. Otherwise it is the details of `data.resource \|\| data`. |
| `Analyzer.ParseGTMScript` | src/background/container-analyzer.js:462-506 | `parseGTMScript` finds the marker, then the first `{`, then the end of the object. It parses the slice with both braces included and classifies `data.resource \|\| data`. Any failure gives the empty analysis. |
| `Analyzer.ParseFailures` | src/background/container-analyzer.js:465-483 | The result is the empty analysis in each of the three ways the cut fails: `'var data = '` is missing; no `{` lies at or after the marker's first occurrence; or the brace counter finds no end from that `{`. |
| `Analyzer.ScriptPositions` | src/background/container-analyzer.js:465-486 | In a script of the form prefix, marker, text of a well-formed object (any whitespace and escapes), suffix, the marker, the opening brace and the object's end are found exactly where they lie, and the cut slice is the object's text. |
| `Analyzer.ScriptRoundTrip` | src/background/container-analyzer.js:462-506 | End to end: take the text of a well-formed object, with any whitespace between tokens and any escapes in its strings, from which `JSON.parse` reads an object. A script embedding that text after its first marker yields the classification of that object's resource record. |
| `Analyzer.CompactScriptRoundTrip` | src/background/container-analyzer.js:462-506 | The same when the embedded text is the compact text `Serialize` prints and `JSON.parse` reads the object back from it. |
| `Json.Truthy` | src/background/container-analyzer.js:192 | JavaScript truthiness of a parsed value: `null`, `false`, `0` and `""` are falsy, everything else is truthy. |
| `Json.IsObjectLike` | src/background/container-analyzer.js:489 | `typeof data === 'object'` for a truthy value: an object or an array. |
| `Json.TruthyProp` | src/background/container-analyzer.js:192 | A property is truthy when it is present and its value is truthy. |
| `Json.ToKey` | src/background/container-analyzer.js:209-214 | The property key a value is stored under (`String(v)`): strings as they are, numbers in decimal, `true`/`false`/`null`, arrays joined with commas, objects as `[object Object]`. |
| `Json.Prop` | src/background/container-analyzer.js:153-157 | Property access finds a value exactly when the value is an object that has a member with that key. The value found is that of the last member with the key, as `JSON.parse` keeps the last of duplicate keys. |
| `Classifier.FunctionOf` | src/background/container-analyzer.js:192-196 | An entry's `function`: absent when the entry or its `function` is falsy, a throw when `startsWith` is called on a truthy non-string, the string otherwise. |
| `Classifier.KeptAsTag` | src/background/container-analyzer.js:195-199 | A function name is kept when it starts with `cvt_` or its bare id is not on the 9-entry ignore list. |
| `Classifier.IsTag` | src/background/container-analyzer.js:191-200 | An entry passes the tag filter when its `function` is a string that is kept. |
| `Classifier.BareId` | src/background/container-analyzer.js:196 | The bare id is the function name minus one leading `__` when present, and the whole name otherwise. |
| `Classifier.FriendlyTagName` | src/background/container-analyzer.js:83-103 | An id starting with `cvt_` gives `{Custom Template, custom}`. Every other result's category is a `CATEGORY_NAMES` display name. |
| `Classifier.FriendlyTagNameCatalog` | src/background/container-analyzer.js:89-96 | A catalog id gives its catalog name and the display name of its category. That category is always a key of `CATEGORY_NAMES`. |
| `Classifier.FriendlyTagNameUnknown` | src/background/container-analyzer.js:98-102 | An unknown id gives category `'Other'` and keeps its name minus one leading `_`. The empty id is named `'Unknown'`. |
| `Classifier.KeptTags` | src/background/container-analyzer.js:191-200 | `tagsArr.filter(...)`: the entries that pass the tag filter, in order. |
| `Classifier.TagName` | src/background/container-analyzer.js:205-209 | `tag.tagName \|\| tag.name \|\| tagInfo.name`, as the key a kept tag is counted under. |
| `Classifier.KeptTagsContents` | src/background/container-analyzer.js:191-200 | The filtered list holds every entry that passes the tag filter exactly as many times as the input does, and no other entry. |
| `Classifier.KeptTagsSnoc` | src/background/container-analyzer.js:191-200 | Filtering a list extended by one entry extends the filtered list by that entry exactly when it passes the filter. |
| `Classifier.KeptTagsAppend` | src/background/container-analyzer.js:191-200 | Filtering distributes over concatenation, so kept entries keep their relative order. |
| `Classifier.FilterTags` | src/background/container-analyzer.js:191-200 | The filter loop fails exactly when some entry's truthy `function` is not a string. Otherwise it gives the entries kept as tags. |
| `Classifier.CountTags` | src/background/container-analyzer.js:203-215 | The counting loop builds the counter of the display names `tagName \|\| name \|\| friendly name` of the kept tags. |
| `Classifier.TagsOf` | src/background/container-analyzer.js:189-229 | The tag bucket `processTags` returns, or none when it throws. `byName` is the sorted counter of the kept tags' display names, `total` the number kept, and `byCategory`/`byType` the categorisation of the unsorted counter. |
| `Classifier.ProcessTags` | src/background/container-analyzer.js:189-229 | `processTags` computes exactly the tag bucket specified by `TagsOf`, or fails when some entry's `function` is not a string. |
| `Classifier.NameCategory` | src/background/container-analyzer.js:117-125 | The reverse lookup gives the display category of the catalog entry with that friendly name, or `'Other'` when no entry has it. |
| `Classifier.CategoryOf` | src/background/container-analyzer.js:117-130 | The overrides apply in order. A name containing `Analytics` is `Analytics`, even if it also contains `Google`. Otherwise a name containing `Google` is `Google`, and otherwise `Custom Template` is `Custom`. Any other name gets the reverse lookup's category, which is `'Other'` for a name outside the catalog. The result is always a display category. |
| `Classifier.ReverseLookupCategory` | src/background/container-analyzer.js:117-125 | The loop over the catalog gives the display category of the first entry with that friendly name, or `'Other'`. |
| `Classifier.CategoryDisplay` | src/background/container-analyzer.js:122 | `CATEGORY_NAMES[category] \|\| 'Other'`. |
| `Classifier.ByCategory` | src/background/container-analyzer.js:133 | `byCategory`: each name's count added under its category, in the order the categories first appear. |
| `Classifier.ByType` | src/background/container-analyzer.js:134 | `byType`: each name's count stored under the name. |
| `Classifier.CategorizeTagsByCategory` | src/background/container-analyzer.js:110-138 | The loop adds each name's count under its category and stores each count under its name, in input order. |
| `Classifier.ByCategoryKeys` | src/background/container-analyzer.js:110-138 | The keys of `byCategory` are exactly the categories of the input names, and each one is a display category. Each category holds the total count of the names in it. |
| `Classifier.ByTypeSpec` | src/background/container-analyzer.js:134 | With distinct names, `byType` equals the input counter. |
| `Classifier.MacroName` | src/background/container-analyzer.js:243-249 | A macro has a name exactly when it has a truthy `name` or its bare id has a non-empty catalog name. `name` wins; otherwise the name is the catalog's. |
| `Classifier.MacroNameOf` | src/background/container-analyzer.js:239-255 | Each macro entry contributes at most one name. |
| `Classifier.MacrosOf` | src/background/container-analyzer.js:236-266 | The bucket `processMacros` returns, or none when it throws: the sorted counter of the macro names and the sum of its counts. |
| `Classifier.ProcessMacros` | src/background/container-analyzer.js:236-266 | `processMacros` computes exactly the bucket specified by `MacrosOf`, or fails when some entry's `function` is not a string. |
| `Classifier.TriggerNameOf` | src/background/container-analyzer.js:277-291 | Each entry contributes at most one trigger name. |
| `Classifier.TriggerName` | src/background/container-analyzer.js:285 | `TRIGGER_TYPES[id] \|\| id`. |
| `Classifier.TriggersOf` | src/background/container-analyzer.js:273-302 | The bucket `processTriggers` returns, or none when it throws: the sorted counter of the trigger names and the sum of its counts. |
| `Classifier.ProcessTriggers` | src/background/container-analyzer.js:273-302 | `processTriggers` computes exactly the bucket specified by `TriggersOf`, or fails when some entry's `function` is not a string. |
| `Classifier.ArrayProp` | src/background/container-analyzer.js:154-157 | `Array.isArray(obj[key]) ? obj[key] : []`. |
| `Classifier.ResourceDetails` | src/background/container-analyzer.js:145-182 | What `extractResourceDetails` returns. A falsy or non-object record, or a throw in any of the three passes, gives the empty analysis. Otherwise it holds the version, the macro, tag and trigger buckets, and the predicates and rules arrays. |
| `Classifier.ExtractResourceDetails` | src/background/container-analyzer.js:145-182 | `extractResourceDetails` processes tags, then macros, then triggers, and equals `ResourceDetails`. A throw in any of them gives the empty analysis. |
| `ClassifierFacts.SortedTally` | src/background/container-analyzer.js:217-228 | Counting names and sorting by name gives strictly sorted keys and a total equal to the sum of the counts. Each name's count is its number of occurrences, and the keys are exactly the names that occur. |
| `ClassifierFacts.TagsOfSpec` | src/background/container-analyzer.js:189-229 | The tag bucket is empty iff some entry throws. Otherwise `total` = number of kept entries = sum of `byName` = sum of `byCategory` = sum of `byType`. `byName` is sorted and counts each display name's occurrences. `byType` is the unsorted counter. `byCategory`'s keys are exactly the categories of the counted names, and each holds the total count of its names. |
| `ClassifierFacts.KeptTagsSpec` | src/background/container-analyzer.js:191-200 | An entry is kept iff its `function` is a truthy string and either the raw string starts with `cvt_` or its bare id is not on the 9-entry ignore-list. |
| `ClassifierFacts.MacrosOfSpec` | src/background/container-analyzer.js:236-266 | The macro bucket is empty iff some entry throws. Otherwise `total` is the number of named macros and the sum of the counts, the names are sorted, and each counts its occurrences. |
| `ClassifierFacts.MacroCounted` | src/background/container-analyzer.js:239-255 | A macro is counted iff its `function` is a truthy string and it has a truthy `name` or a catalog name. A macro with a truthy `name` is counted under that name. An unnamed macro is counted under its catalog name. |
| `ClassifierFacts.TriggersOfSpec` | src/background/container-analyzer.js:273-302 | The trigger bucket is empty iff the tag bucket is. Otherwise `total` is the sum of the counts, the names are sorted and count their occurrences, and every name is a `TRIGGER_TYPES` name. |
| `ClassifierFacts.TriggerNameCatalog` | src/background/container-analyzer.js:284-285 | Every accepted trigger id is a key of `TRIGGER_TYPES`, so the `\|\| tagId` fallback never fires. |
| `ClassifierFacts.TriggerNamesCatalog` | src/background/container-analyzer.js:277-291 | Every counted trigger name is a catalog trigger name. |
| `ClassifierFacts.EmptyAnalysisConsistent` | src/background/container-analyzer.js:308-318 | The empty analysis satisfies the bucket invariants. |
| `ClassifierFacts.ResourceDetailsConsistent` | src/background/container-analyzer.js:145-182 | Every analysis has totals equal to the sums of their counts and strictly sorted `byName` keys. |
| `ClassifierFacts.ResourceDetailsSpec` | src/background/container-analyzer.js:145-182 | A falsy or non-object record, or a throwing entry, gives the empty analysis. Otherwise `predicates` and `rules` pass through unchanged (`[]` when they are not arrays), a falsy `version` becomes `null`, and the buckets are those of the three counters. |
| `ClassifierFacts.HistoryListenerCountedTwice` | src/background/container-analyzer.js:189-302 | One `__hl` entry counts as the tag `hl` and also as the trigger `History Listener`. |
| `ClassifierFacts.ClickListenerOnlyTrigger` | src/background/container-analyzer.js:189-302 | One `__cl` entry gives an empty tag bucket and the trigger `Click Listener` once. |
| `ClassifierFacts.TwoMacrosOneName` | src/background/container-analyzer.js:246-253 | Two macros named alike are counted as one name with count 2. |
| `ClassifierFacts.JavaScriptVariablesMerge` | src/background/constants.js:200-206 | Unnamed `__jsm` and `__j` macros aggregate under the one name `JavaScript Variable`, count 2. |
| `Constants.ConfigValues` | src/background/constants.js:4-24 | `MAX_GTM_SIZE` is 204800, `CACHE_TTL` is 300000, `MAX_CACHE_ENTRIES` is 50 and `MAX_TAB_HISTORY` is 10. |
| `Constants.FindId` | src/background/container-analyzer.js:90 | The lookup by id finds the first entry with that id, or reports that none has it. |
| `Constants.FindName` | src/background/container-analyzer.js:120-125 | The reverse lookup by friendly name finds the first entry with that name, or reports that none has it. |
| `Constants.KnownTagsDistinct` | src/background/constants.js:72-169 | `KNOWN_TAGS` has pairwise distinct ids and pairwise distinct friendly names. |
| `Constants.KnownTagsCategorized` | src/background/constants.js:72-188 | Every `KNOWN_TAGS` category is a key of `CATEGORY_NAMES`. |
| `Constants.FindIdUnique` | src/background/container-analyzer.js:90-96 | The entry found by id is the only one carrying that id. |
| `Constants.FindNameUnique` | src/background/container-analyzer.js:120-125 | The reverse lookup finds the only entry with that name, so its result does not depend on the table's order. |
| `Constants.TriggerTypesComplete` | src/background/constants.js:228-238 | `TRIGGER_TYPES` has exactly the 9 accepted trigger ids as keys, each with a non-empty name. |
| `Constants.MacroTypesNonEmpty` | src/background/constants.js:194-223 | Every `MACRO_TYPES` name is non-empty, hence truthy. |
| `Constants.JavaScriptVariableTwice` | src/background/constants.js:200-206 | `jsm` and `j` both map to `JavaScript Variable`. |
| `Constants.FlcPerCatalog` | src/background/constants.js:80-214 | `flc` is `Floodlight Counter` as a tag and `First-Party Cookie` as a macro. |
| `Constants.HlNotATag` | src/background/constants.js:72-169 | `hl` is not a `KNOWN_TAGS` id. |
| `Order.BelowTotal` | src/background/container-analyzer.js:219 | The name order is total. |
| `Order.BelowTransitive` | src/background/container-analyzer.js:219 | The name order is transitive. |
| `Order.BelowAntisymmetric` | src/background/container-analyzer.js:219 | Two names each sorting no later than the other are equal. |
| `Dict.Get` | src/background/container-analyzer.js:133 | `obj[k] \|\| 0`: the count stored under a key, or 0. |
| `Dict.Add` | src/background/container-analyzer.js:211-214 | `obj[k] = (obj[k] \|\| 0) + n`: an existing key keeps its place, a new key is appended. |
| `Dict.Put` | src/background/container-analyzer.js:134 | `obj[k] = n`. |
| `Dict.Tally` | src/background/container-analyzer.js:203-215 | The counter built by adding 1 under each name in turn, starting from `{}`. |
| `Dict.SortByKey` | src/background/container-analyzer.js:217-219 | `Object.fromEntries` of the entries sorted by name, as an insertion sort on the name order. |
| `Dict.GroupBy` | src/background/container-analyzer.js:133 | Each entry's count added under its group, in turn, starting from `{}`. |
| `Dict.AddSpec` | src/background/container-analyzer.js:211-214 | Incrementing a key adds to its count and to the sum, and leaves every other key alone. A new key is appended; an existing key keeps its place. |
| `Dict.PutSpec` | src/background/container-analyzer.js:134 | Storing under a key sets its count and leaves every other key alone. |
| `Dict.TallySpec` | src/background/container-analyzer.js:203-215 | The counter of a list of names has exactly the names as distinct keys. Each name counts its occurrences, and the counts sum to the list's length. |
| `Dict.SortByKeySpec` | src/background/container-analyzer.js:217-219 | Sorting a counter with distinct keys gives strictly sorted keys and a permutation of its entries. |
| `Dict.SortByKeyKeepsCounts` | src/background/container-analyzer.js:217-225 | Sorting keeps every key's count, the set of keys and the sum. |
| `Dict.SortByKeyIdempotent` | src/background/container-analyzer.js:217-219 | Sorting twice is sorting once. |
| `Dict.GroupBySpec` | src/background/container-analyzer.js:133 | Adding each count under its group keeps the sum and lists each group once. The groups listed are exactly those of the entries, and each group holds the sum of the counts of its entries (`SumIn`). |
| `AnalysisCache.Expired` | src/background/container-analyzer.js:36 | An entry is expired when `now - timestamp` exceeds the TTL. |
| `AnalysisCache.Unexpired` | src/background/container-analyzer.js:31-45 | The entries `cleanupExpiredCache` keeps: the unexpired ones, in iteration order. |
| `AnalysisCache.UnexpiredContents` | src/background/container-analyzer.js:31-45 | The cleanup keeps every entry not older than the TTL exactly as many times as it occurs, and no expired entry. |
| `AnalysisCache.UnexpiredSnoc` | src/background/container-analyzer.js:33-41 | Cleaning a cache extended by one entry extends the cleaned cache by that entry exactly when it has not expired. |
| `AnalysisCache.UnexpiredAppend` | src/background/container-analyzer.js:31-45 | The cleanup distributes over concatenation, so kept entries keep their relative order. |
| `AnalysisCache.IsCacheValid` | src/background/container-analyzer.js:379-382 | A valid entry is present and not expired. |
| `AnalysisCache.AgeAtTtl` | src/background/container-analyzer.js:379-382 | An entry aged exactly the TTL is neither valid (`<`) nor expired (`>`). |
| `AnalysisCache.ValidSurvivesCleanup` | src/background/container-analyzer.js:31-45 | An entry that is valid at time `now` survives a cleanup at `now`. |
| `AnalysisCache.UnexpiredDistinct` | src/background/container-analyzer.js:31-45 | The cleanup keeps the map's keys distinct. |
| `AnalysisCache.SortByTime` | src/background/container-analyzer.js:54-55 | The sort by timestamp, oldest first, defined as a stable insertion sort; `SortByTimeStable` states the stability. |
| `AnalysisCache.SortByTimeStable` | src/background/container-analyzer.js:54-55 | The sort is stable, as `Array.prototype.sort` is. An entry that comes before another and is not younger than it still comes before it, so entries with equal timestamps keep their `Map` order. |
| `AnalysisCache.SortByTimeSpec` | src/background/container-analyzer.js:54-55 | The sort by timestamp orders entries oldest first and keeps the entries, their keys and their number. |
| `AnalysisCache.Evicted` | src/background/container-analyzer.js:50-61 | The keys `enforceCacheSize` deletes: none when `size <= max`, otherwise the keys of the first `size - max` entries in timestamp order. |
| `AnalysisCache.Without` | src/background/container-analyzer.js:59-61 | The cache after deleting a set of keys: the other entries, in order. |
| `AnalysisCache.EnforcedSpec` | src/background/container-analyzer.js:50-64 | Enforcing the size does nothing when `size <= max`. Otherwise exactly `max` entries remain, with distinct keys, and every removed entry is no younger than any kept one. |
| `AnalysisCache.EvictedNotYounger` | src/background/container-analyzer.js:53-61 | An evicted entry's timestamp is at most any kept entry's. |
| `AnalysisCache.ContainerAnalyzer.constructor` | src/background/container-analyzer.js:15-26 | The cache starts empty, limited to `MAX_CACHE_ENTRIES` entries of age `CACHE_TTL`. |
| `AnalysisCache.ContainerAnalyzer.CleanupExpiredCache` | src/background/container-analyzer.js:31-45 | The loop deletes exactly the expired entries and counts them. |
| `AnalysisCache.ContainerAnalyzer.EnforceCacheSize` | src/background/container-analyzer.js:50-64 | The loop deletes the keys of the `size - max` oldest entries one by one. |
| `GtmDetector.MatchesContainerId` | src/background/gtm-detector.js:62-63 | `/^GTM-[A-Z0-9]{7,}$/`: `GTM-` followed by at least seven upper-case letters or digits, and nothing else. |
| `GtmDetector.IsValidContainerId` | src/background/gtm-detector.js:60-64 | A falsy or non-string value is not a container id. A string is one exactly when it matches the pattern. |
| `GtmDetector.ContainerIdExamples` | src/background/gtm-detector.js:60-64 | `GTM-` followed by 7 upper-case letters or digits is valid. Six characters, lower-case letters, another prefix, `null` or a number are not. |
| `GtmDetector.ContainerIdExtends` | src/background/gtm-detector.js:60-64 | A valid id followed by one more id character stays valid. |
| `GtmDetector.RoundDiv` | src/background/gtm-detector.js:120 | `Math.round(n / d)` on exact rationals: the nearest integer, halves up. |
| `GtmDetector.CalculateSizePercentage` | src/background/gtm-detector.js:119-121 | The result is `100 * b / 204800` rounded to the nearest integer, halves up. |
| `GtmDetector.SizePercentageClosedForm` | src/background/gtm-detector.js:119-121 | The percentage is `(b + 1024) / 2048` in integer division. |
| `GtmDetector.SizePercentageMonotone` | src/background/gtm-detector.js:119-121 | The percentage is monotone. 0 bytes is 0% and 204800 bytes is 100%. |
| `GtmDetector.Kilobytes` | src/background/gtm-detector.js:136 | A byte count is rounded to the nearest whole kilobyte, halves up. |
| `GtmDetector.SizeReport` | src/background/gtm-detector.js:175-181 | The report's `sizeInBytes` is `sizeInKb * 1024`. |
| `GtmDetector.SizeReportPercentage` | src/background/gtm-detector.js:175-181 | The report's percentage is `(sizeInKb + 1) / 2`, half the kilobytes rounded up. |
| `GtmDetector.Started` | src/background/gtm-detector.js:69-80 | A falsy request id or URL, or a tab id that is not a number, leaves the table unchanged. Otherwise only the request id's key is set, to a fresh timing. |
| `GtmDetector.Completed` | src/background/gtm-detector.js:85-94 | There is no result exactly when the request id is falsy or unknown. Otherwise the result keeps the start time, URL and tab, has end time `now`, and has load time `now` minus the start time. |
| `GtmDetector.StartThenComplete` | src/background/gtm-detector.js:69-94 | Starting at `t0` and completing at `t1` records a load time of `t1 - t0`. |
| `GtmDetector.GTMDetector.constructor` | src/background/gtm-detector.js:9-16 | The timing table starts empty and the size budget is `MAX_GTM_SIZE`. |
| `GtmDetector.GTMDetector.StartRequestTiming` | src/background/gtm-detector.js:69-80 | The table becomes `Started(old table, …)`. |
| `GtmDetector.GTMDetector.CompleteRequestTiming` | src/background/gtm-detector.js:85-94 | Returns `null` and changes nothing for a falsy or unknown id. Otherwise the stored entry becomes `Completed(old table, …)` and the same timing is returned. |
| `GtmDetector.GTMDetector.CleanupRequestTiming` | src/background/gtm-detector.js:99-103 | Deletes only the given key. |
| `GtmDetector.GTMDetector.CleanupAllTiming` | src/background/gtm-detector.js:108-114 | Leaves the table empty. |
| `CacheManager.TabContainers` | src/background/cache-manager.js:147-150 | A falsy or unknown tab has no containers. Otherwise the result is the stored map. |
| `CacheManager.WithTabUrl` | src/background/cache-manager.js:124-140 | `setTabUrl`: a falsy tab or URL, or the URL the tab already has, changes nothing. Otherwise the URL is recorded, and the tab's containers are deleted when it had a different non-empty URL before. |
| `CacheManager.WithContainer` | src/background/cache-manager.js:158-173 | `setContainer`: a falsy tab, id or data changes nothing. Otherwise the tab gets a map if it had none. An object or array is then stored under the id with the timestamp `now`, while a truthy primitive throws before it is stored. |
| `CacheManager.WithoutContainers` | src/background/cache-manager.js:185-195 | `clearTabContainers`: a falsy tab changes nothing, otherwise the tab's containers are deleted and its URL is kept. |
| `CacheManager.WithoutTab` | src/background/cache-manager.js:201-212 | `cleanupTab`: a falsy tab changes nothing, otherwise the tab is deleted from both tables. |
| `CacheManager.TotalContainers` | src/background/cache-manager.js:324-325 | The sum over all tabs of the number of containers each one holds. |
| `CacheManager.LoadContainers` | src/background/cache-manager.js:61-103 | `loadContainersFromCache` with the entry read from storage as a parameter: the result, the new tables and whether the stored entry is removed. |
| `CacheManager.OperationsKeepWellFormed` | src/background/cache-manager.js:124-212 | Every table operation keeps tab `0` out of both tables and recorded URLs non-empty. |
| `CacheManager.SetTabUrlSpec` | src/background/cache-manager.js:124-140 | A new URL is recorded. A change from a different previous URL empties the tab's containers, while a first URL or the same URL keeps them. Other tabs are unchanged, and a repeated call changes nothing more. |
| `CacheManager.SetTabUrlIgnoresFalsy` | src/background/cache-manager.js:125 | A falsy tab or URL changes nothing. |
| `CacheManager.SetContainerSpec` | src/background/cache-manager.js:158-173 | A falsy tab, id or `containerData` (any falsy JSON value) changes nothing. An object or array, stamped `now`, joins its tab's other containers. A truthy primitive, on which the stamping throws, stores nothing but leaves the tab with a map. No other tab and no URL changes. |
| `CacheManager.ClearAndCleanupSpec` | src/background/cache-manager.js:185-212 | Clearing empties the tab's containers and keeps its URL. Cleaning up removes the tab from both tables. Other tabs are unchanged by either. |
| `CacheManager.TotalContainersRemove` | src/background/cache-manager.js:324-325 | The total number of containers does not depend on the order in which tabs are counted. |
| `CacheManager.SetContainerTotal` | src/background/cache-manager.js:158-173 | Storing an object or array as a container adds one to the total exactly when its id is new in its tab. |
| `CacheManager.ClearTabTotal` | src/background/cache-manager.js:185-195 | Clearing a tab takes exactly its containers off the total. |
| `CacheManager.LoadContainersSpec` | src/background/cache-manager.js:61-103 | Tab `0` gives `null` and changes nothing. A non-empty in-memory map wins. Otherwise a missing entry or one without containers gives `null` and changes nothing. A stored entry with `now - timestamp > TTL` gives `null` and is removed. A fresh one is returned and becomes the tab's containers in memory. Other tabs and all URLs never change. |
| `CacheManager.TrimHistory` | src/background/cache-manager.js:256-260 | The trimmed history is the last `min(n, 720)` snapshots, in order. |
| `CacheManager.TrimHistorySliding` | src/background/cache-manager.js:252-267 | Trimming after each new snapshot keeps the same window as trimming once at the end. |
| `CacheManager.CacheManager.constructor` | src/background/cache-manager.js:6-17 | Both tables start empty, with the configured TTL, entry bound and tab history bound. |
| `CacheManager.CacheManager.SetTabUrl` | src/background/cache-manager.js:124-140 | The tables become `WithTabUrl(old tables, tabId, url)`. |
| `CacheManager.CacheManager.GetTabContainers` | src/background/cache-manager.js:147-150 | Returns the tab's containers, or an empty map. |
| `CacheManager.CacheManager.SetContainer` | src/background/cache-manager.js:158-179 | The tables become `WithContainer(old tables, …)`, and the call reports a throw exactly when a truthy primitive is stamped. |
| `CacheManager.CacheManager.ClearTabContainers` | src/background/cache-manager.js:185-195 | Deletes the tab's containers only. |
| `CacheManager.CacheManager.CleanupTab` | src/background/cache-manager.js:201-212 | Deletes the tab from both tables. |
| `CacheManager.CacheManager.LoadContainersFromCache` | src/background/cache-manager.js:61-103 | Returns and applies `LoadContainers`, given the stored entry read for the tab. |
| `CacheManager.CacheManager.SaveMemoryHistory` | src/background/cache-manager.js:252-267 | Trims the caller's array in place to its last 720 snapshots, preserving their order. Arrays of 720 or fewer snapshots are untouched. |
| `CacheManager.CacheManager.GetStats` | src/background/cache-manager.js:322-335 | `totalTabs` is the number of tabs and `totalContainers` the sum of the per-tab container counts. The configured bounds are reported unchanged. |

## Left out

- Network and asynchrony: `fetchGTMData` (its cache lookup, the `pendingRequests` deduplication and the `analysisCache.set` after a fetch), `performGTMFetch` with its abort timeout, and the `webRequest` listeners of the detector. They are host I/O and concurrency.
- `measureContainerSize`'s header lookup, fetches and `TextEncoder` work are host I/O. Only the report assembled from the measured kilobytes is modelled (`GtmDetector.SizeReport`).
- `JSON.parse` is a foreign call. It is a parameter; its result is the `Json` datatype. JSON numbers are modelled as integers only, and fractional numbers are not modelled.
- `Json.ToKey`: prints every digit of an integer. `String(n)` uses exponent notation from 1e21 on, and `JSON.parse` rounds integers beyond 2^53. An object key whose `toString` member is not callable, which makes `String(v)` throw, is not modelled.
- `localeCompare` collation depends on the host's locale data. The model sorts names by lexicographic order on code points (`Order.Below`), and the sort proofs use only its total-order lemmas. A collation under which two distinct names compare equal is not modelled.
- JavaScript strings are sequences of UTF-16 code units. The model's `char` is a Unicode scalar value, so `Strings.IndexOf` positions and `Order.Below` order differ from the source's for text with characters above U+FFFF.
- `Object.fromEntries`/`Object.entries` list integer-like keys first. The model keeps the sorted order for every key.
- Table lookups hitting inherited prototype properties (`KNOWN_TAGS['constructor']`, a name `__proto__` used as a counter key) are not modelled. The tables are finite maps and sequences.
- `URL` and regular-expression helpers (`isValidGTMUrl`, `isGtmProxy`, `isGTMRequest`, `extractContainerId`) are not part of this model. `isValidContainerId`'s pattern is stated directly as a predicate on the string.
- The `processedAt` timestamp of an analysis is dropped. Clocks are parameters.
- `ContainerAnalyzer.getStats` (src/background/container-analyzer.js:69-76) only reports sizes of maps, one of which (`pendingRequests`) belongs to the left-out fetch logic.
- Persistent storage: `saveContainersToCache`, `removeCacheEntry`, the storage-wide `cleanupExpiredCache`, the performance statistics and `loadMemoryHistory` are asynchronous host I/O. `loadContainersFromCache` takes the entry read from storage as a parameter and reports the removal as a flag.
- `GtmDetector.CalculateSizePercentage`: computed on exact rationals rather than IEEE doubles. The two can differ at half-way sizes: 29696 bytes gives 14.499999999999998 in doubles and rounds to 14, while the exact value 14.5 rounds to 15.
- `GtmDetector.SizePercentageClosedForm`: inherits the exact-rational rounding, so it is the source's result only away from half-way sizes.
- `GtmDetector.SizeReportPercentage`: inherits the exact-rational rounding. Every odd kilobyte count is a half-way point, and for some of them (29, 57, 113, 115, 201 KB, …) the source's doubles round down where `(kb + 1) / 2` rounds up.
- `GtmDetector.Completed`: `loadTime` is recorded in whole milliseconds (`loadTimeMs`), not as the source's float number of seconds (`Math.round(ms) / 1000`).
- `CacheManager.CacheManager.SetContainer`: the source writes the timestamp into the caller's `containerData` object, which the store then aliases. The model stores a new `Container` value, so that aliasing is not captured. The thrown `TypeError` is returned as a flag instead of propagating.
- `GtmDetector.GTMDetector.CompleteRequestTiming`: the source returns the very object it keeps in `requestTiming`, which the detector then also stores in `containerData.timing`. The model returns a copy of the value, so that aliasing is not captured.
- `CacheManager.CacheManager.LoadContainersFromCache`: a stored entry without a numeric timestamp (where `NaN > ttl` is false in the source, so the entry counts as fresh) is not modelled, because timestamps are integers. A storage exception (returning `null`) is not modelled.
- Tab ids are integers with `0` the only falsy one. `NaN` tab ids are not modelled.
- `getTagInfo` in the side panel, the popup and other UI files, the legacy background scripts and `src/constants.js` are not part of this model.
