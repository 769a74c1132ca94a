/** The storage analyser: classifies the names of stored Google cookies and
    the keys of the page's local storage, and always offers the same three
    privacy-control links. */
module StorageAnalyzer {
  import opened Wrappers
  import opened Seqs
  import opened JsString
  import opened Exchange

  // ----------------------------------------------------------------- data

  /** What `chrome.storage.local.get("googleCookies")` yields: the names of the
      stored cookies (the keys of the stored object, in enumeration order), or
      nothing when the entry is absent. */
  datatype CookieData = CookieData(googleCookies: Option<seq<string>>)

  /** The input of one analysis: the cookie data, if any was passed, and the
      keys of the page's local storage in enumeration order. */
  datatype StorageData = StorageData(cookies: Option<CookieData>, localStorageKeys: seq<string>)

  /** One finding; every finding has importance `INFO`. */
  datatype Finding =
    | CookieUsage(cookieType: string, names: seq<string>)
    | LocalStorageItem(pattern: string, key: string)
  {
    function Category(): string {
      match this
      case CookieUsage(_, _) => "Cookie Usage"
      case LocalStorageItem(_, _) => "Local Storage"
    }

    function Detail(): string {
      match this
      case CookieUsage(t, ns) => "Found " + t + " related cookies: " + Join(ns, ", ")
      case LocalStorageItem(p, k) => "Found item related to " + p + ": " + k
    }

    function Importance(): string { "INFO" }

    function Reference(): string {
      match this
      case CookieUsage(_, _) => "Privacy Policy: We use various technologies to collect and store information, including cookies"
      case LocalStorageItem(_, _) => "Privacy Policy: Browser web storage or application data caches"
    }
  }

  /** A privacy tool the user is pointed to. */
  datatype Tool = Tool(tool: string, url: string, description: string)

  datatype Insight = Insight(category: string, details: seq<Tool>)

  datatype StorageSummary = StorageSummary(totalFindings: nat, categories: seq<string>, privacyControlsAvailable: nat)

  datatype StorageReport = StorageReport(findings: seq<Finding>, insights: seq<Insight>, summary: StorageSummary)

  // ------------------------------------------------------------ catalogue

  /** Cookie types and the name fragments that identify them, in the order
      they are reported. */
  const CookieTypes: seq<NamedPattern> := [
    NamedPattern("preferences", ["PREF", "NID", "CONSENT"]),
    NamedPattern("security", ["SID", "HSID", "SSID"]),
    NamedPattern("analytics", ["_ga", "_gid", "__utma"]),
    NamedPattern("advertising", ["IDE", "ANID", "DV"])
  ]

  /** Fragments of local-storage keys worth reporting, in priority order. */
  const LocalPatterns: seq<string> := ["preference", "setting", "id", "token", "session"]

  const PrivacyControls: Insight := Insight("Privacy Controls", [
    Tool("Privacy Checkup", "https://myaccount.google.com/privacycheckup", "Review and adjust your privacy settings"),
    Tool("Activity Controls", "https://myaccount.google.com/activitycontrols", "Manage what information Google saves about your activity"),
    Tool("Ad Settings", "https://adssettings.google.com", "Control how Google personalizes ads for you")
  ])

  // --------------------------------------------------------------- cookies

  /** The names containing one of `patterns` (case-sensitively), in order. */
  function MatchingNames(names: seq<string>, patterns: seq<string>): (r: seq<string>)
    ensures IsSubsequence(r, names)
    ensures forall i :: 0 <= i < |r| ==> ContainsAny(r[i], patterns)
    ensures forall i :: 0 <= i < |names| && ContainsAny(names[i], patterns) ==> names[i] in r
  {
    Filter(names, (name: string) => ContainsAny(name, patterns))
  }

  /** A cookie finding worth reporting: it lists at least one name. */
  predicate ListsNames(f: Finding) {
    f.CookieUsage? && f.names != []
  }

  /** One finding per cookie type with a matching name, in type order, listing
      exactly the matching names. */
  function CookieFindings(types: seq<NamedPattern>, names: seq<string>): (fs: seq<Finding>)
    ensures |fs| <= |types|
    ensures forall i :: 0 <= i < |fs| ==> fs[i].CookieUsage? && fs[i].names != []
    ensures forall i :: 0 <= i < |types| && MatchingNames(names, types[i].words) != []
              ==> CookieUsage(types[i].name, MatchingNames(names, types[i].words)) in fs
    ensures forall f :: f in fs ==> exists i :: 0 <= i < |types| && f == CookieUsage(types[i].name, MatchingNames(names, types[i].words))
    ensures IsSubsequence(fs, CookieCandidates(types, names))
  {
    var candidates := CookieCandidates(types, names);
    assert forall i :: 0 <= i < |types| && MatchingNames(names, types[i].words) != [] ==> ListsNames(candidates[i]);
    Filter(candidates, ListsNames)
  }

  function CookieCandidates(types: seq<NamedPattern>, names: seq<string>): (fs: seq<Finding>)
    ensures |fs| == |types|
    ensures forall i :: 0 <= i < |types| ==> fs[i] == CookieUsage(types[i].name, MatchingNames(names, types[i].words))
  {
    seq(|types|, i requires 0 <= i < |types| => CookieUsage(types[i].name, MatchingNames(names, types[i].words)))
  }

  /** `analyzeCookies`: nothing when the cookie data or its `googleCookies`
      entry is missing. */
  function AnalyzeCookies(cookies: Option<CookieData>): (fs: seq<Finding>)
    ensures |fs| <= 4
    ensures forall i :: 0 <= i < |fs| ==> fs[i].CookieUsage?
    ensures (cookies.None? || cookies.value.googleCookies.None?) ==> fs == []
  {
    match cookies
    case None => []
    case Some(data) =>
      match data.googleCookies
      case None => []
      case Some(names) => CookieFindings(CookieTypes, names)
  }

  // --------------------------------------------------------- local storage

  /** The finding for one key: the first pattern, in priority order, that the
      lower-cased key contains. */
  function LocalFinding(key: string): (f: Option<Finding>)
    ensures f.Some? ==> f.value.LocalStorageItem? && f.value.key == key
    ensures f.Some? ==> exists i :: 0 <= i < |LocalPatterns| && f.value.pattern == LocalPatterns[i]
                          && Contains(ToLowerCase(key), LocalPatterns[i])
                          && forall j :: 0 <= j < i ==> !Contains(ToLowerCase(key), LocalPatterns[j])
    ensures f.None? <==> forall j :: 0 <= j < |LocalPatterns| ==> !Contains(ToLowerCase(key), LocalPatterns[j])
  {
    match FirstContained(ToLowerCase(key), LocalPatterns)
    case None => None
    case Some(i) => Some(LocalStorageItem(LocalPatterns[i], key))
  }

  /** Some pattern matches the key. */
  predicate Reportable(key: string) {
    LocalFinding(key).Some?
  }

  /** `analyzeLocalStorage`: the findings of the reportable keys, one each,
      in key order. */
  function LocalStorageFindings(keys: seq<string>): (fs: seq<Finding>)
    ensures |fs| == |Filter(keys, Reportable)| <= |keys|
    ensures forall i :: 0 <= i < |fs| ==> LocalFinding(Filter(keys, Reportable)[i]) == Some(fs[i])
    ensures forall i :: 0 <= i < |fs| ==> fs[i].LocalStorageItem?
    ensures forall i :: 0 <= i < |fs| ==> fs[i].key in keys && LocalFinding(fs[i].key) == Some(fs[i])
    ensures forall i :: 0 <= i < |keys| && LocalFinding(keys[i]).Some? ==> LocalFinding(keys[i]).value in fs
  {
    var reported := Filter(keys, Reportable);
    var fs := seq(|reported|, i requires 0 <= i < |reported| => LocalFinding(reported[i]).value);
    assert forall i :: 0 <= i < |keys| && Reportable(keys[i]) ==> LocalFinding(keys[i]).value in fs by {
      forall i | 0 <= i < |keys| && Reportable(keys[i]) ensures LocalFinding(keys[i]).value in fs {
        var j :| 0 <= j < |reported| && reported[j] == keys[i];
        assert fs[j] == LocalFinding(keys[i]).value;
      }
    }
    fs
  }

  // ---------------------------------------------------------------- report

  /** The category of each finding, in finding order. */
  function CategoryList(findings: seq<Finding>): (cs: seq<string>)
    ensures |cs| == |findings| && forall i :: 0 <= i < |findings| ==> cs[i] == findings[i].Category()
  {
    seq(|findings|, i requires 0 <= i < |findings| => findings[i].Category())
  }

  /** `analyzeStoragePrivacy`: cookie findings, then local-storage findings,
      then the summary. */
  function AnalyzeStoragePrivacy(data: StorageData): (r: StorageReport)
    ensures r.findings == AnalyzeCookies(data.cookies) + LocalStorageFindings(data.localStorageKeys)
    ensures r.summary.totalFindings == |r.findings|
    ensures r.insights == [PrivacyControls] && r.summary.privacyControlsAvailable == |r.insights| == 1
    ensures Distinct(r.summary.categories)
    ensures forall i :: 0 <= i < |r.summary.categories| ==> r.summary.categories[i] in CategoryList(r.findings)
    ensures forall i :: 0 <= i < |r.findings| ==> r.findings[i].Category() in r.summary.categories
  {
    var findings := AnalyzeCookies(data.cookies) + LocalStorageFindings(data.localStorageKeys);
    var insights := [PrivacyControls];
    StorageReport(findings, insights, StorageSummary(|findings|, Dedup(CategoryList(findings)), |insights|))
  }

  // ---------------------------------------------------------------- lemmas

  /** Every cookie finding comes before every local-storage finding. */
  lemma CookieFindingsFirst(data: StorageData)
    ensures var fs := AnalyzeStoragePrivacy(data).findings;
            forall i, j :: 0 <= i < j < |fs| && fs[i].LocalStorageItem? ==> fs[j].LocalStorageItem?
  {
    CookiesThenLocal(AnalyzeCookies(data.cookies), LocalStorageFindings(data.localStorageKeys));
  }

  lemma CookiesThenLocal(cookies: seq<Finding>, local: seq<Finding>)
    requires forall i :: 0 <= i < |cookies| ==> cookies[i].CookieUsage?
    requires forall i :: 0 <= i < |local| ==> local[i].LocalStorageItem?
    ensures var fs := cookies + local;
            forall i, j :: 0 <= i < j < |fs| && fs[i].LocalStorageItem? ==> fs[j].LocalStorageItem?
  {
    var fs := cookies + local;
    forall i, j | 0 <= i < j < |fs| && fs[i].LocalStorageItem? ensures fs[j].LocalStorageItem? {
      assert fs[j] == local[j - |cookies|];
    }
  }

  /** The summary's categories are "Cookie Usage" when there is a cookie
      finding, followed by "Local Storage" when there is a local-storage
      finding, and nothing else. */
  lemma CategoriesFollowFindings(data: StorageData)
    ensures AnalyzeStoragePrivacy(data).summary.categories
         == OnceIfAny(AnalyzeCookies(data.cookies), "Cookie Usage")
          + OnceIfAny(LocalStorageFindings(data.localStorageKeys), "Local Storage")
  {
    FindingRunsCategories(AnalyzeCookies(data.cookies), LocalStorageFindings(data.localStorageKeys));
  }

  lemma FindingRunsCategories(cookies: seq<Finding>, local: seq<Finding>)
    requires forall i :: 0 <= i < |cookies| ==> cookies[i].CookieUsage?
    requires forall i :: 0 <= i < |local| ==> local[i].LocalStorageItem?
    ensures Dedup(CategoryList(cookies + local)) == OnceIfAny(cookies, "Cookie Usage") + OnceIfAny(local, "Local Storage")
  {
    var xs := CategoryList(cookies);
    var ys := CategoryList(local);
    assert CategoryList(cookies + local) == xs + ys;
    DedupTwoRuns(xs, ys, "Cookie Usage", "Local Storage");
  }

  /** Without stored cookies there are no cookie findings, and the report
      holds only local-storage findings. */
  lemma NoCookieDataNoCookieFindings(data: StorageData)
    requires data.cookies.None? || data.cookies.value.googleCookies.None?
    ensures forall i :: 0 <= i < |AnalyzeStoragePrivacy(data).findings| ==> AnalyzeStoragePrivacy(data).findings[i].LocalStorageItem?
  {
  }

  /** A key whose lower-cased form contains "id" is reported under a pattern
      listed no later than "id": "sessionId" is reported for "id", never for
      "session". */
  lemma IdOutranksSessionAndToken(key: string)
    requires Contains(ToLowerCase(key), "id")
    ensures LocalFinding(key).Some?
    ensures LocalFinding(key).value.pattern != "token" && LocalFinding(key).value.pattern != "session"
  {
    assert LocalPatterns[2] == "id";
  }
}
