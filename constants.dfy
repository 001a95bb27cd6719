/**
 * The analyzer's static lookup tables: the tag catalog (`KNOWN_TAGS`), the
 * display names of its categories (`CATEGORY_NAMES`), the macro and trigger
 * catalogs (`MACRO_TYPES`, `TRIGGER_TYPES`) and the configuration values the
 * modelled code reads (`CONFIG`).
 */
module Constants {
  import opened Wrappers

  // ---------------------------------------------------------------------------
  // CONFIG
  // ---------------------------------------------------------------------------

  /** Size budget of a container script, in bytes (200 KB). */
  const MaxGtmSize: nat := 200 * 1024
  /** Lifetime of a cached analysis or stored container list, in milliseconds (5 minutes). */
  const CacheTtl: nat := 5 * 60 * 1000
  /** Most analyses the analyzer keeps cached. */
  const MaxCacheEntries: nat := 50
  /** Tab history bound the container store reports in its statistics. */
  const MaxTabHistory: nat := 10

  lemma ConfigValues()
    ensures MaxGtmSize == 204800 && CacheTtl == 300000 && MaxCacheEntries == 50 && MaxTabHistory == 10
  {
  }

  // ---------------------------------------------------------------------------
  // KNOWN_TAGS
  // ---------------------------------------------------------------------------

  /** One catalog entry: the tag's bare id, its friendly name and its category key. */
  datatype TagEntry = TagEntry(id: string, name: string, category: string)

  const GoogleAndCustomTags: seq<TagEntry> := [
    TagEntry("googtag", "Google Tag", "google"),
    TagEntry("ga", "Google Analytics (Legacy)", "google"),
    TagEntry("ua", "Universal Analytics", "google"),
    TagEntry("gaawe", "Google Analytics 4", "google"),
    TagEntry("awct", "Google Ads Conversion", "google"),
    TagEntry("sp", "Google Ads Remarketing", "google"),
    TagEntry("flc", "Floodlight Counter", "google"),
    TagEntry("fls", "Floodlight Sales", "google"),
    TagEntry("ts", "Google Trusted Stores", "google"),
    TagEntry("gcs", "Google Consumer Surveys", "google"),
    TagEntry("gclidw", "Google Ads Conversion Linker", "google"),
    TagEntry("gaawc", "Google Tag (GA4)", "google"),
    TagEntry("html", "Custom HTML", "custom"),
    TagEntry("img", "Custom Image", "custom")
  ]

  const AnalyticsTags: seq<TagEntry> := [
    TagEntry("cegg", "Crazy Egg", "analytics"),
    TagEntry("mf", "Mouseflow", "analytics"),
    TagEntry("vdc", "VisualDNA", "analytics"),
    TagEntry("tdc", "Turn Data Collection", "analytics"),
    TagEntry("tc", "Turn Conversion", "analytics"),
    TagEntry("placedPixel", "Placed", "analytics"),
    TagEntry("ndcr", "Nielsen DCR", "analytics"),
    TagEntry("ljs", "Lytics JS", "analytics"),
    TagEntry("k50Init", "K50", "analytics"),
    TagEntry("infinity", "Infinity Call", "analytics"),
    TagEntry("hjtc", "Hotjar", "analytics"),
    TagEntry("fxm", "FoxMetrics", "analytics"),
    TagEntry("cts", "ClickTale", "analytics"),
    TagEntry("csm", "comScore", "analytics"),
    TagEntry("adm", "Adometry", "analytics")
  ]

  const SocialTags: seq<TagEntry> := [
    TagEntry("pntr", "Pinterest", "social"),
    TagEntry("twitter_website_tag", "Twitter Website Tag", "social"),
    TagEntry("bzi", "LinkedIn Insight", "social"),
    TagEntry("okt", "Oktopost", "social"),
    TagEntry("shareaholic", "Shareaholic", "social")
  ]

  const AdvertisingTags: seq<TagEntry> := [
    TagEntry("fbq", "Facebook Pixel", "advertising"),
    TagEntry("crto", "Criteo", "advertising"),
    TagEntry("pa", "Perfect Audience", "advertising"),
    TagEntry("qcm", "Quantcast", "advertising"),
    TagEntry("qpx", "Quora Pixel", "advertising"),
    TagEntry("sfr", "SearchForce Redirect", "advertising"),
    TagEntry("sfl", "SearchForce Landing", "advertising"),
    TagEntry("sfc", "SearchForce Conversion", "advertising"),
    TagEntry("sca", "Intent Media", "advertising"),
    TagEntry("mpr", "Mediaplex ROI", "advertising"),
    TagEntry("mpm", "Mediaplex MCT", "advertising"),
    TagEntry("ms", "Marin Software", "advertising"),
    TagEntry("baut", "Bing Universal", "advertising"),
    TagEntry("asp", "AdRoll Smart Pixel", "advertising"),
    TagEntry("ta", "AdAdvisor/Neustar", "advertising")
  ]

  const MarketingAndAffiliateTags: seq<TagEntry> := [
    TagEntry("scjs", "SaleCycle JS", "marketing"),
    TagEntry("scp", "SaleCycle Pixel", "marketing"),
    TagEntry("yieldify", "Yieldify", "marketing"),
    TagEntry("xpsh", "Xtremepush", "marketing"),
    TagEntry("vei", "Ve Interactive", "marketing"),
    TagEntry("veip", "Ve Pixel", "marketing"),
    TagEntry("uslt", "Upsellit Footer", "marketing"),
    TagEntry("uspt", "Upsellit Confirmation", "marketing"),
    TagEntry("ll", "LeadLab", "marketing"),
    TagEntry("tdsc", "Tradedoubler Sale", "affiliate"),
    TagEntry("tdlc", "Tradedoubler Lead", "affiliate"),
    TagEntry("awj", "Affiliate Window", "affiliate"),
    TagEntry("awc", "Affiliate Window Conv", "affiliate")
  ]

  const FeedbackToOtherTags: seq<TagEntry> := [
    TagEntry("svw", "Survicate", "feedback"),
    TagEntry("bb", "Bizrate Buyer", "feedback"),
    TagEntry("bsa", "Bizrate Survey", "feedback"),
    TagEntry("nudge", "Nudge", "feedback"),
    TagEntry("abtGeneric", "AB Tasty", "testing"),
    TagEntry("messagemate", "Message Mate", "chat"),
    TagEntry("dstag", "DistroScale", "content"),
    TagEntry("pc", "Personali Canvas", "personalization"),
    TagEntry("zone", "Zonas", "other")
  ]

  /** `KNOWN_TAGS` in the order its entries are written (the order of `Object.entries`). */
  const KnownTags: seq<TagEntry> :=
    GoogleAndCustomTags + AnalyticsTags + SocialTags + AdvertisingTags + MarketingAndAffiliateTags + FeedbackToOtherTags

  /** `CATEGORY_NAMES`: category key to display name. */
  const CategoryNames: map<string, string> := map[
    "google" := "Google",
    "custom" := "Custom",
    "analytics" := "Analytics",
    "advertising" := "Advertising",
    "marketing" := "Marketing",
    "social" := "Social Media",
    "affiliate" := "Affiliate",
    "feedback" := "Feedback",
    "testing" := "A/B Testing",
    "chat" := "Chat",
    "content" := "Content",
    "personalization" := "Personalization",
    "other" := "Other"
  ]

  /** `MACRO_TYPES`: bare macro function id to display name. */
  const MacroTypes: map<string, string> := map[
    "k" := "Primary Cookie",
    "v" := "Auto Event Variable",
    "c" := "Constant",
    "ctv" := "Container Version Number",
    "e" := "Custom Event",
    "jsm" := "JavaScript Variable",
    "dbg" := "Debug Mode",
    "d" := "DOM Element",
    "vis" := "Element Visibility",
    "gas" := "Google Analytics Settings (legacy)",
    "f" := "HTTP Referrer",
    "j" := "JavaScript Variable",
    "smm" := "Lookup Table",
    "r" := "Random Number",
    "remm" := "RegEx Table",
    "u" := "URL",
    "gtes" := "Google Tag: Event Settings",
    "gclid" := "Google Click ID",
    "aw.remarketing" := "Google Ads Remarketing",
    "flc" := "First-Party Cookie",
    "ct" := "Custom Template",
    "ct_js" := "Custom JavaScript",
    "ct_http" := "Custom HTTP Request",
    "ct_html" := "Custom HTML",
    "ct_img" := "Custom Image",
    "ct_ga" := "Google Analytics: Universal Analytics",
    "ct_ga4" := "Google Analytics 4",
    "ct_gtag" := "Google Tag"
  ]

  /** `TRIGGER_TYPES`: bare trigger function id to display name. */
  const TriggerTypes: map<string, string> := map[
    "evl" := "Element Visibility",
    "cl" := "Click Listener",
    "fsl" := "Form Submit Listener",
    "hl" := "History Listener",
    "jel" := "JavaScript Error Listener",
    "lcl" := "Link Click Listener",
    "sdl" := "Scroll Depth Listener",
    "tl" := "Timer Listener",
    "ytl" := "YouTube Video Listener"
  ]

  // ---------------------------------------------------------------------------
  // Lookups in the tag catalog
  // ---------------------------------------------------------------------------

  /** The index of the first entry with id `id` (`KNOWN_TAGS[id]`). */
  function FindId(t: seq<TagEntry>, id: string): (r: Option<nat>)
    ensures r.None? <==> forall i | 0 <= i < |t| :: t[i].id != id
    ensures r.Some? ==> r.value < |t| && t[r.value].id == id
    ensures r.Some? ==> forall i | 0 <= i < r.value :: t[i].id != id
  {
    if t == [] then None
    else if t[|t| - 1].id == id && FindId(t[..|t| - 1], id).None? then Some(|t| - 1)
    else FindId(t[..|t| - 1], id)
  }

  /**
   * The index of the first entry whose friendly name is `name`: the loop over
   * `Object.entries(KNOWN_TAGS)` that stops at the first `tagInfo.name === name`.
   */
  function FindName(t: seq<TagEntry>, name: string): (r: Option<nat>)
    ensures r.None? <==> forall i | 0 <= i < |t| :: t[i].name != name
    ensures r.Some? ==> r.value < |t| && t[r.value].name == name
    ensures r.Some? ==> forall i | 0 <= i < r.value :: t[i].name != name
  {
    if t == [] then None
    else if t[|t| - 1].name == name && FindName(t[..|t| - 1], name).None? then Some(|t| - 1)
    else FindName(t[..|t| - 1], name)
  }

  // ---------------------------------------------------------------------------
  // Properties of the tables
  // ---------------------------------------------------------------------------

  /** No two entries share a friendly name. */
  predicate NamesDistinct(t: seq<TagEntry>) {
    forall i, j | 0 <= i < j < |t| :: t[i].name != t[j].name
  }

  /** No two entries share an id. */
  predicate IdsDistinct(t: seq<TagEntry>) {
    forall i, j | 0 <= i < j < |t| :: t[i].id != t[j].id
  }

  predicate Distinct(t: seq<TagEntry>) {
    NamesDistinct(t) && IdsDistinct(t)
  }

  /** No entry of `a` shares an id or a friendly name with an entry of `b`. */
  predicate Apart(a: seq<TagEntry>, b: seq<TagEntry>) {
    NamesApart(a, b) && IdsApart(a, b)
  }

  predicate NamesApart(a: seq<TagEntry>, b: seq<TagEntry>) {
    forall i, j | 0 <= i < |a| && 0 <= j < |b| :: a[i].name != b[j].name
  }

  predicate IdsApart(a: seq<TagEntry>, b: seq<TagEntry>) {
    forall i, j | 0 <= i < |a| && 0 <= j < |b| :: a[i].id != b[j].id
  }

  /** Every entry's category is a key of `CATEGORY_NAMES`. */
  predicate Categorized(t: seq<TagEntry>) {
    forall i | 0 <= i < |t| :: t[i].category in CategoryNames
  }

  // One lemma per group and per pair of groups keeps each proof obligation small.

  lemma GoogleAndCustomNames() ensures NamesDistinct(GoogleAndCustomTags) { }
  lemma GoogleAndCustomIds() ensures IdsDistinct(GoogleAndCustomTags) { }
  lemma GoogleAndCustomCategories() ensures Categorized(GoogleAndCustomTags) { }

  lemma AnalyticsNames() ensures NamesDistinct(AnalyticsTags) { }
  lemma AnalyticsIds() ensures IdsDistinct(AnalyticsTags) { }
  lemma AnalyticsCategories() ensures Categorized(AnalyticsTags) { }

  lemma SocialNames() ensures NamesDistinct(SocialTags) { }
  lemma SocialIds() ensures IdsDistinct(SocialTags) { }
  lemma SocialCategories() ensures Categorized(SocialTags) { }

  lemma AdvertisingNames() ensures NamesDistinct(AdvertisingTags) { }
  lemma AdvertisingIds() ensures IdsDistinct(AdvertisingTags) { }
  lemma AdvertisingCategories() ensures Categorized(AdvertisingTags) { }

  lemma MarketingAndAffiliateNames() ensures NamesDistinct(MarketingAndAffiliateTags) { }
  lemma MarketingAndAffiliateIds() ensures IdsDistinct(MarketingAndAffiliateTags) { }
  lemma MarketingAndAffiliateCategories() ensures Categorized(MarketingAndAffiliateTags) { }

  lemma FeedbackToOtherNames() ensures NamesDistinct(FeedbackToOtherTags) { }
  lemma FeedbackToOtherIds() ensures IdsDistinct(FeedbackToOtherTags) { }
  lemma FeedbackToOtherCategories() ensures Categorized(FeedbackToOtherTags) { }

  lemma GoogleAndCustomApartAnalytics() ensures Apart(GoogleAndCustomTags, AnalyticsTags) { GoogleAndCustomApartAnalyticsByName(); GoogleAndCustomApartAnalyticsById(); }
  lemma GoogleAndCustomApartAnalyticsByName() ensures NamesApart(GoogleAndCustomTags, AnalyticsTags) { }
  lemma GoogleAndCustomApartAnalyticsById() ensures IdsApart(GoogleAndCustomTags, AnalyticsTags) { }
  lemma GoogleAndCustomApartSocial() ensures Apart(GoogleAndCustomTags, SocialTags) { GoogleAndCustomApartSocialByName(); GoogleAndCustomApartSocialById(); }
  lemma GoogleAndCustomApartSocialByName() ensures NamesApart(GoogleAndCustomTags, SocialTags) { }
  lemma GoogleAndCustomApartSocialById() ensures IdsApart(GoogleAndCustomTags, SocialTags) { }
  lemma GoogleAndCustomApartAdvertising() ensures Apart(GoogleAndCustomTags, AdvertisingTags) { GoogleAndCustomApartAdvertisingByName(); GoogleAndCustomApartAdvertisingById(); }
  lemma GoogleAndCustomApartAdvertisingByName() ensures NamesApart(GoogleAndCustomTags, AdvertisingTags) { }
  lemma GoogleAndCustomApartAdvertisingById() ensures IdsApart(GoogleAndCustomTags, AdvertisingTags) { }
  lemma GoogleAndCustomApartMarketingAndAffiliate() ensures Apart(GoogleAndCustomTags, MarketingAndAffiliateTags) { GoogleAndCustomApartMarketingAndAffiliateByName(); GoogleAndCustomApartMarketingAndAffiliateById(); }
  lemma GoogleAndCustomApartMarketingAndAffiliateByName() ensures NamesApart(GoogleAndCustomTags, MarketingAndAffiliateTags) { }
  lemma GoogleAndCustomApartMarketingAndAffiliateById() ensures IdsApart(GoogleAndCustomTags, MarketingAndAffiliateTags) { }
  lemma GoogleAndCustomApartFeedbackToOther() ensures Apart(GoogleAndCustomTags, FeedbackToOtherTags) { GoogleAndCustomApartFeedbackToOtherByName(); GoogleAndCustomApartFeedbackToOtherById(); }
  lemma GoogleAndCustomApartFeedbackToOtherByName() ensures NamesApart(GoogleAndCustomTags, FeedbackToOtherTags) { }
  lemma GoogleAndCustomApartFeedbackToOtherById() ensures IdsApart(GoogleAndCustomTags, FeedbackToOtherTags) { }
  lemma AnalyticsApartSocial() ensures Apart(AnalyticsTags, SocialTags) { AnalyticsApartSocialByName(); AnalyticsApartSocialById(); }
  lemma AnalyticsApartSocialByName() ensures NamesApart(AnalyticsTags, SocialTags) { }
  lemma AnalyticsApartSocialById() ensures IdsApart(AnalyticsTags, SocialTags) { }
  lemma AnalyticsApartAdvertising() ensures Apart(AnalyticsTags, AdvertisingTags) { AnalyticsApartAdvertisingByName(); AnalyticsApartAdvertisingById(); }
  lemma AnalyticsApartAdvertisingByName() ensures NamesApart(AnalyticsTags, AdvertisingTags) { }
  lemma AnalyticsApartAdvertisingById() ensures IdsApart(AnalyticsTags, AdvertisingTags) { }
  lemma AnalyticsApartMarketingAndAffiliate() ensures Apart(AnalyticsTags, MarketingAndAffiliateTags) { AnalyticsApartMarketingAndAffiliateByName(); AnalyticsApartMarketingAndAffiliateById(); }
  lemma AnalyticsApartMarketingAndAffiliateByName() ensures NamesApart(AnalyticsTags, MarketingAndAffiliateTags) { }
  lemma AnalyticsApartMarketingAndAffiliateById() ensures IdsApart(AnalyticsTags, MarketingAndAffiliateTags) { }
  lemma AnalyticsApartFeedbackToOther() ensures Apart(AnalyticsTags, FeedbackToOtherTags) { AnalyticsApartFeedbackToOtherByName(); AnalyticsApartFeedbackToOtherById(); }
  lemma AnalyticsApartFeedbackToOtherByName() ensures NamesApart(AnalyticsTags, FeedbackToOtherTags) { }
  lemma AnalyticsApartFeedbackToOtherById() ensures IdsApart(AnalyticsTags, FeedbackToOtherTags) { }
  lemma SocialApartAdvertising() ensures Apart(SocialTags, AdvertisingTags) { SocialApartAdvertisingByName(); SocialApartAdvertisingById(); }
  lemma SocialApartAdvertisingByName() ensures NamesApart(SocialTags, AdvertisingTags) { }
  lemma SocialApartAdvertisingById() ensures IdsApart(SocialTags, AdvertisingTags) { }
  lemma SocialApartMarketingAndAffiliate() ensures Apart(SocialTags, MarketingAndAffiliateTags) { SocialApartMarketingAndAffiliateByName(); SocialApartMarketingAndAffiliateById(); }
  lemma SocialApartMarketingAndAffiliateByName() ensures NamesApart(SocialTags, MarketingAndAffiliateTags) { }
  lemma SocialApartMarketingAndAffiliateById() ensures IdsApart(SocialTags, MarketingAndAffiliateTags) { }
  lemma SocialApartFeedbackToOther() ensures Apart(SocialTags, FeedbackToOtherTags) { SocialApartFeedbackToOtherByName(); SocialApartFeedbackToOtherById(); }
  lemma SocialApartFeedbackToOtherByName() ensures NamesApart(SocialTags, FeedbackToOtherTags) { }
  lemma SocialApartFeedbackToOtherById() ensures IdsApart(SocialTags, FeedbackToOtherTags) { }
  lemma AdvertisingApartMarketingAndAffiliate() ensures Apart(AdvertisingTags, MarketingAndAffiliateTags) { AdvertisingApartMarketingAndAffiliateByName(); AdvertisingApartMarketingAndAffiliateById(); }
  lemma AdvertisingApartMarketingAndAffiliateByName() ensures NamesApart(AdvertisingTags, MarketingAndAffiliateTags) { }
  lemma AdvertisingApartMarketingAndAffiliateById() ensures IdsApart(AdvertisingTags, MarketingAndAffiliateTags) { }
  lemma AdvertisingApartFeedbackToOther() ensures Apart(AdvertisingTags, FeedbackToOtherTags) { AdvertisingApartFeedbackToOtherByName(); AdvertisingApartFeedbackToOtherById(); }
  lemma AdvertisingApartFeedbackToOtherByName() ensures NamesApart(AdvertisingTags, FeedbackToOtherTags) { }
  lemma AdvertisingApartFeedbackToOtherById() ensures IdsApart(AdvertisingTags, FeedbackToOtherTags) { }
  lemma MarketingAndAffiliateApartFeedbackToOther() ensures Apart(MarketingAndAffiliateTags, FeedbackToOtherTags) { MarketingAndAffiliateApartFeedbackToOtherByName(); MarketingAndAffiliateApartFeedbackToOtherById(); }
  lemma MarketingAndAffiliateApartFeedbackToOtherByName() ensures NamesApart(MarketingAndAffiliateTags, FeedbackToOtherTags) { }
  lemma MarketingAndAffiliateApartFeedbackToOtherById() ensures IdsApart(MarketingAndAffiliateTags, FeedbackToOtherTags) { }

  lemma AppendDistinct(a: seq<TagEntry>, b: seq<TagEntry>)
    requires Distinct(a) && Distinct(b) && Apart(a, b)
    ensures Distinct(a + b)
  {
    forall i, j | 0 <= i < j < |a + b|
      ensures (a + b)[i].name != (a + b)[j].name && (a + b)[i].id != (a + b)[j].id
    {
      if j >= |a| && i < |a| {
        assert (a + b)[i] == a[i] && (a + b)[j] == b[j - |a|];
      }
    }
  }

  lemma AppendApart(a: seq<TagEntry>, b: seq<TagEntry>, c: seq<TagEntry>)
    requires Apart(a, c) && Apart(b, c)
    ensures Apart(a + b, c)
  {
    forall i, j | 0 <= i < |a + b| && 0 <= j < |c|
      ensures (a + b)[i].name != c[j].name && (a + b)[i].id != c[j].id
    {
      if i >= |a| {
        assert (a + b)[i] == b[i - |a|];
      }
    }
  }

  /**
   * `KNOWN_TAGS` has no repeated id and no repeated friendly name, so the
   * reverse lookup by name finds the one entry carrying it whatever the order
   * of the table.
   */
  lemma KnownTagsDistinct()
    ensures Distinct(KnownTags)
  {
    GoogleAndCustomNames();
    GoogleAndCustomIds();
    AnalyticsNames();
    AnalyticsIds();
    SocialNames();
    SocialIds();
    AdvertisingNames();
    AdvertisingIds();
    MarketingAndAffiliateNames();
    MarketingAndAffiliateIds();
    FeedbackToOtherNames();
    FeedbackToOtherIds();
    GoogleAndCustomApartAnalytics();
    GoogleAndCustomApartSocial();
    GoogleAndCustomApartAdvertising();
    GoogleAndCustomApartMarketingAndAffiliate();
    GoogleAndCustomApartFeedbackToOther();
    AnalyticsApartSocial();
    AnalyticsApartAdvertising();
    AnalyticsApartMarketingAndAffiliate();
    AnalyticsApartFeedbackToOther();
    SocialApartAdvertising();
    SocialApartMarketingAndAffiliate();
    SocialApartFeedbackToOther();
    AdvertisingApartMarketingAndAffiliate();
    AdvertisingApartFeedbackToOther();
    MarketingAndAffiliateApartFeedbackToOther();
    var g, a, s, d, m, f :=
      GoogleAndCustomTags, AnalyticsTags, SocialTags, AdvertisingTags, MarketingAndAffiliateTags, FeedbackToOtherTags;
    AppendDistinct(g, a);
    AppendApart(g, a, s);
    AppendDistinct(g + a, s);
    AppendApart(g, a, d);
    AppendApart(g + a, s, d);
    AppendDistinct(g + a + s, d);
    AppendApart(g, a, m);
    AppendApart(g + a, s, m);
    AppendApart(g + a + s, d, m);
    AppendDistinct(g + a + s + d, m);
    AppendApart(g, a, f);
    AppendApart(g + a, s, f);
    AppendApart(g + a + s, d, f);
    AppendApart(g + a + s + d, m, f);
    AppendDistinct(g + a + s + d + m, f);
  }

  /** Every category of `KNOWN_TAGS` has a display name, so the `'Other'` fallback only serves category `'other'`. */
  lemma KnownTagsCategorized()
    ensures Categorized(KnownTags)
  {
    GoogleAndCustomCategories();
    AnalyticsCategories();
    SocialCategories();
    AdvertisingCategories();
    MarketingAndAffiliateCategories();
    FeedbackToOtherCategories();
    var g, a, s, d, m, f :=
      GoogleAndCustomTags, AnalyticsTags, SocialTags, AdvertisingTags, MarketingAndAffiliateTags, FeedbackToOtherTags;
    AppendCategorized(g, a);
    AppendCategorized(g + a, s);
    AppendCategorized(g + a + s, d);
    AppendCategorized(g + a + s + d, m);
    AppendCategorized(g + a + s + d + m, f);
  }

  lemma AppendCategorized(a: seq<TagEntry>, b: seq<TagEntry>)
    requires Categorized(a) && Categorized(b)
    ensures Categorized(a + b)
  {
    forall i | 0 <= i < |a + b| ensures (a + b)[i].category in CategoryNames {
      if i >= |a| {
        assert (a + b)[i] == b[i - |a|];
      }
    }
  }

  /** With distinct ids, the entry found by id is the only one carrying it. */
  lemma FindIdUnique(id: string, i: nat)
    requires i < |KnownTags| && KnownTags[i].id == id
    ensures FindId(KnownTags, id) == Some(i)
  {
    KnownTagsDistinct();
  }

  /** With distinct names, the reverse lookup by name does not depend on the order of the table. */
  lemma FindNameUnique(name: string, i: nat)
    requires i < |KnownTags| && KnownTags[i].name == name
    ensures FindName(KnownTags, name) == Some(i)
  {
    KnownTagsDistinct();
  }

  /** The trigger catalog lists exactly the nine ids the trigger counter accepts, each with a non-empty name. */
  lemma TriggerTypesComplete()
    ensures TriggerTypes.Keys == {"evl", "cl", "fsl", "hl", "jel", "lcl", "sdl", "tl", "ytl"}
    ensures forall id | id in TriggerTypes :: TriggerTypes[id] != ""
  {
  }

  /** Every macro catalog name is non-empty (truthy). */
  lemma MacroTypesNonEmpty()
    ensures forall id | id in MacroTypes :: MacroTypes[id] != ""
  {
  }

  /** Two different macro functions share one display name. */
  lemma JavaScriptVariableTwice()
    ensures MacroTypes["jsm"] == MacroTypes["j"] == "JavaScript Variable"
  {
  }

  /** The same bare id names different things in different catalogs. */
  lemma FlcPerCatalog()
    ensures FindId(KnownTags, "flc") == Some(6) && KnownTags[6].name == "Floodlight Counter"
    ensures MacroTypes["flc"] == "First-Party Cookie"
  {
    FindIdUnique("flc", 6);
  }

  /** No entry has id `id`. */
  predicate LacksId(t: seq<TagEntry>, id: string) {
    forall i | 0 <= i < |t| :: t[i].id != id
  }

  /** An id is missing from the catalog when it is missing from each group. */
  lemma NotInKnownTags(id: string)
    requires LacksId(GoogleAndCustomTags, id) && LacksId(AnalyticsTags, id) && LacksId(SocialTags, id)
    requires LacksId(AdvertisingTags, id) && LacksId(MarketingAndAffiliateTags, id) && LacksId(FeedbackToOtherTags, id)
    ensures FindId(KnownTags, id) == None
  {
    var g, a, s, d, m, f :=
      GoogleAndCustomTags, AnalyticsTags, SocialTags, AdvertisingTags, MarketingAndAffiliateTags, FeedbackToOtherTags;
    AppendLacks(g, a, id);
    AppendLacks(g + a, s, id);
    AppendLacks(g + a + s, d, id);
    AppendLacks(g + a + s + d, m, id);
    AppendLacks(g + a + s + d + m, f, id);
  }

  lemma AppendLacks(a: seq<TagEntry>, b: seq<TagEntry>, id: string)
    requires LacksId(a, id) && LacksId(b, id)
    ensures LacksId(a + b, id)
  {
    forall i | 0 <= i < |a + b| ensures (a + b)[i].id != id {
      if i >= |a| {
        assert (a + b)[i] == b[i - |a|];
      }
    }
  }

  lemma HlNotATag()
    ensures FindId(KnownTags, "hl") == None
  {
    NotInKnownTags("hl");
  }
}
