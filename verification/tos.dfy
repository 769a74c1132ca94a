/** The terms-of-service analyser: six checks over one exchange that look for
    automated, bulk or debugging access, folded into a report like the privacy
    analyser's. */
module TosAnalyzer {
  import opened Wrappers
  import opened JsString
  import opened Exchange
  import opened Reports
  import opened Seqs

  // ------------------------------------------------------------ catalogue

  const SuspiciousEndpoints: seq<string> := ["/training/", "/scrape/", "/bulk/", "/mass/"]

  const DebugHeaders: seq<string> := ["X-Debug", "X-Debug-Mode", "X-Debug-Token"]

  const MlPatterns: seq<string> := ["/train/", "/dataset/", "/corpus/", "/collect/", "/batch/"]

  /** Ten million bytes. */
  const BulkResponseBytes: int := 10000000

  // ------------------------------------------------------------- findings

  function AutomatedAccessViolation(url: string): Violation { Violation(AutomatedAccess, "", High, url) }
  function ApiAbuseViolation(url: string): Violation { Violation(ApiAbuse, "", Medium, url) }
  function ReverseEngineeringViolation(url: string): Violation { Violation(ReverseEngineering, "", High, url) }
  function AiTrainingViolation(url: string): Violation { Violation(AiTraining, "", High, url) }
  const ContentExtractionWarning: Warning := Warning(ContentExtraction, "")
  const BulkDownloadWarning: Warning := Warning(BulkDownload, "")

  // ---------------------------------------------------------------- checks

  /** The User-Agent, lower-cased; a missing one reads "not provided". */
  function UserAgent(request: Headers): string {
    ToLowerCase(HeaderValue(request, "User-Agent"))
  }

  function CheckAutomatedAccess(rec: ExchangeRecord): (vs: seq<Violation>)
    ensures vs == [] || vs == [AutomatedAccessViolation(rec.url)]
  {
    var agent := UserAgent(rec.requestHeaders);
    if Contains(agent, "bot") || Contains(agent, "crawler") then [AutomatedAccessViolation(rec.url)] else []
  }

  function CheckApiAbuse(url: string): (vs: seq<Violation>)
    ensures vs == [] || vs == [ApiAbuseViolation(url)]
  {
    if ContainsAny(url, SuspiciousEndpoints) then [ApiAbuseViolation(url)] else []
  }

  /** The four indicators `checkContentExtraction` tests, in source order. */
  function ExtractionIndicators(rec: ExchangeRecord): seq<bool> {
    [ Contains(rec.url, "/download/all"),
      Contains(rec.url, "format=json"),
      Contains(rec.url, "output=xml"),
      Contains(HeaderValue(rec.requestHeaders, "Accept"), "application/json") ]
  }

  function CheckContentExtraction(rec: ExchangeRecord): (ws: seq<Warning>)
    ensures ws == [] || ws == [ContentExtractionWarning]
  {
    if true in ExtractionIndicators(rec) then [ContentExtractionWarning] else []
  }

  /** A debug header counts when it is present with a non-empty value. */
  function CheckReverseEngineering(rec: ExchangeRecord): (vs: seq<Violation>)
    ensures vs == [] || vs == [ReverseEngineeringViolation(rec.url)]
  {
    if exists i :: 0 <= i < |DebugHeaders| && HasValue(rec.requestHeaders, DebugHeaders[i])
    then [ReverseEngineeringViolation(rec.url)]
    else []
  }

  function CheckAiTraining(url: string): (vs: seq<Violation>)
    ensures vs == [] || vs == [AiTrainingViolation(url)]
  {
    if ContainsAny(url, MlPatterns) then [AiTrainingViolation(url)] else []
  }

  /** `parseInt(content-length, 10)`; `None` stands for `NaN`, which no
      comparison holds for. */
  function ResponseSize(response: Headers): Option<int> {
    ParseInt(HeaderValue(response, "content-length"), Decimal)
  }

  function CheckResponsePatterns(response: Headers): (ws: seq<Warning>)
    ensures ws == [] || ws == [BulkDownloadWarning]
    ensures ws != [] <==> ResponseSize(response).Some? && ResponseSize(response).value > BulkResponseBytes
  {
    match ResponseSize(response)
    case Some(size) => if size > BulkResponseBytes then [BulkDownloadWarning] else []
    case None => []
  }

  /** Violations in the order the checks push them. */
  function Violations(rec: ExchangeRecord): (vs: seq<Violation>)
    ensures |vs| <= 4
  {
    CheckAutomatedAccess(rec) + CheckApiAbuse(rec.url) + CheckReverseEngineering(rec) + CheckAiTraining(rec.url)
  }

  /** Warnings in the order the checks push them. */
  function Warnings(rec: ExchangeRecord): (ws: seq<Warning>)
    ensures |ws| <= 2
  {
    CheckContentExtraction(rec) + CheckResponsePatterns(rec.responseHeaders)
  }

  /** `analyzeToSCompliance`. A skipped exchange gives no report. */
  function AnalyzeToSCompliance(rec: ExchangeRecord): (r: Option<Report>)
    ensures r.None? <==> IsSkipped(rec.url)
    ensures r.Some? ==> WellFormed(r.value) && r.value.analyzedRequest == rec.url
    ensures r.Some? ==> |r.value.violations| <= 4 && |r.value.warnings| <= 2
  {
    if IsSkipped(rec.url) then None
    else Some(MakeReport(Violations(rec), Warnings(rec), rec.url))
  }

  /** The stored terms-of-service log after one exchange. */
  function LogExchange(log: seq<Report>, rec: ExchangeRecord): (newLog: seq<Report>)
    ensures IsSkipped(rec.url) ==> newLog == log
    ensures !IsSkipped(rec.url) ==> newLog == AppendCapped(log, AnalyzeToSCompliance(rec).value)
    ensures |log| <= LogCapacity ==> |newLog| <= LogCapacity
  {
    match AnalyzeToSCompliance(rec)
    case None => log
    case Some(report) => AppendCapped(log, report)
  }

  /** What the page is sent after an exchange is analysed. A skipped exchange
      makes the listener fail before anything is sent. */
  function TosNotification(rec: ExchangeRecord): (n: Option<Notification>)
    ensures IsSkipped(rec.url) ==> n.None?
    ensures n.Some? ==> n.value.category == "ToS Violation" && n.value.severity == High
    ensures n.Some? ==> exists i :: 0 <= i < |AnalyzeToSCompliance(rec).value.violations|
                          && n.value.message == AnalyzeToSCompliance(rec).value.violations[i].Detail()
  {
    match AnalyzeToSCompliance(rec)
    case None => None
    case Some(report) => Forward(report, "ToS Violation")
  }

  // ---------------------------------------------------------------- lemmas

  /** The sentinel for a missing User-Agent, lower-cased, mentions neither a
      bot nor a crawler. */
  lemma SentinelAgentIsNotAutomated()
    ensures !Contains(ToLowerCase(NotProvided), "bot") && !Contains(ToLowerCase(NotProvided), "crawler")
  {
    var agent := ToLowerCase(NotProvided);
    assert agent == "not provided";
    assert !Contains(agent, "bot") by {
      forall j | 0 <= j <= |agent| - 3 ensures !OccursAt(agent, "bot", j) {
        assert agent[j..j + 3][0] == agent[j];
      }
    }
    assert !Contains(agent, "crawler") by {
      forall j | 0 <= j <= |agent| - 7 ensures !OccursAt(agent, "crawler", j) {
        assert agent[j..j + 7][0] == agent[j];
      }
    }
  }

  /** Automated access is flagged exactly when the request carries a
      non-empty User-Agent that, lower-cased, mentions a bot or a crawler. */
  lemma AutomatedAccessIff(rec: ExchangeRecord)
    ensures CheckAutomatedAccess(rec) != []
        <==> && HasValue(rec.requestHeaders, "User-Agent")
             && (|| Contains(ToLowerCase(rec.requestHeaders["User-Agent"]), "bot")
                 || Contains(ToLowerCase(rec.requestHeaders["User-Agent"]), "crawler"))
  {
    if !HasValue(rec.requestHeaders, "User-Agent") {
      SentinelAgentIsNotAutomated();
    }
  }

  /** API abuse is flagged exactly when the URL holds one of the four
      bulk-collection path segments. */
  lemma {:induction false} ApiAbuseIff(url: string)
    ensures CheckApiAbuse(url) != []
        <==> || Contains(url, "/training/") || Contains(url, "/scrape/")
             || Contains(url, "/bulk/") || Contains(url, "/mass/")
  {
    var e := SuspiciousEndpoints;
    assert e[1..][1..][1..][1..] == [];
    assert ContainsAny(url, e[1..][1..]) == (Contains(url, "/bulk/") || ContainsAny(url, e[1..][1..][1..]));
    assert ContainsAny(url, e) == (Contains(url, "/training/") || ContainsAny(url, e[1..]));
  }

  /** Content extraction is suspected exactly when the URL asks for everything
      or for a machine-readable format, or the request accepts JSON; a missing
      `Accept` never counts. */
  lemma ContentExtractionIff(rec: ExchangeRecord)
    ensures CheckContentExtraction(rec) != []
        <==> || Contains(rec.url, "/download/all") || Contains(rec.url, "format=json")
             || Contains(rec.url, "output=xml")
             || (HasValue(rec.requestHeaders, "Accept") && Contains(rec.requestHeaders["Accept"], "application/json"))
  {
    assert !Contains(NotProvided, "application/json");
  }

  /** Reverse engineering is flagged exactly when one of the debug headers is
      present with a non-empty value. */
  lemma ReverseEngineeringIff(rec: ExchangeRecord)
    ensures CheckReverseEngineering(rec) != []
        <==> || HasValue(rec.requestHeaders, "X-Debug") || HasValue(rec.requestHeaders, "X-Debug-Mode")
             || HasValue(rec.requestHeaders, "X-Debug-Token")
  {
    assert DebugHeaders[0] == "X-Debug" && DebugHeaders[1] == "X-Debug-Mode" && DebugHeaders[2] == "X-Debug-Token";
  }

  /** AI training is suspected exactly when the URL holds one of the five
      dataset-building path segments. */
  lemma {:induction false} AiTrainingIff(url: string)
    ensures CheckAiTraining(url) != []
        <==> || Contains(url, "/train/") || Contains(url, "/dataset/") || Contains(url, "/corpus/")
             || Contains(url, "/collect/") || Contains(url, "/batch/")
  {
    var m := MlPatterns;
    assert m[1..][1..][1..][1..][1..] == [];
    assert ContainsAny(url, m[1..][1..][1..]) == (Contains(url, "/collect/") || ContainsAny(url, m[1..][1..][1..][1..]));
    assert ContainsAny(url, m[1..]) == (Contains(url, "/dataset/") || ContainsAny(url, m[1..][1..]));
  }

  /** The violation categories in the order the checks run. */
  const CheckOrder: seq<Category> := [AutomatedAccess, ApiAbuse, ReverseEngineering, AiTraining]

  function Categories(vs: seq<Violation>): (cs: seq<Category>)
    ensures |cs| == |vs| && forall i :: 0 <= i < |vs| ==> cs[i] == vs[i].category
  {
    seq(|vs|, i requires 0 <= i < |vs| => vs[i].category)
  }

  /** Appending the result of the check for category `c` extends an ordered
      prefix by at most `c`. */
  lemma {:induction false} CategoriesStep(vs: seq<Violation>, order: seq<Category>, next: seq<Violation>, c: Category)
    requires IsSubsequence(Categories(vs), order)
    requires next == [] || (|next| == 1 && next[0].category == c)
    ensures IsSubsequence(Categories(vs + next), order + [c])
  {
    if next == [] {
      assert vs + next == vs;
      SubsequenceExtend(Categories(vs), order, c);
    } else {
      assert Categories(vs + next) == Categories(vs) + [c];
      SubsequenceAppend(Categories(vs), order, c);
    }
  }

  /** At most one violation of category `c`. */
  predicate AtMostOne(vs: seq<Violation>, c: Category) {
    vs == [] || (|vs| == 1 && vs[0].category == c)
  }

  /** Four check results, each empty or a single violation of its own
      category, concatenate to categories in check order. */
  lemma {:induction false} ChecksInOrder(a: seq<Violation>, b: seq<Violation>, c: seq<Violation>, d: seq<Violation>)
    requires AtMostOne(a, AutomatedAccess) && AtMostOne(b, ApiAbuse)
    requires AtMostOne(c, ReverseEngineering) && AtMostOne(d, AiTraining)
    ensures IsSubsequence(Categories(a + b + c + d), CheckOrder)
  {
    assert [] + a == a;
    CategoriesStep([], [], a, AutomatedAccess);
    CategoriesStep(a, [AutomatedAccess], b, ApiAbuse);
    CategoriesStep(a + b, [AutomatedAccess, ApiAbuse], c, ReverseEngineering);
    CategoriesStep(a + b + c, [AutomatedAccess, ApiAbuse, ReverseEngineering], d, AiTraining);
    assert [AutomatedAccess, ApiAbuse, ReverseEngineering] + [AiTraining] == CheckOrder;
  }

  /** Each violation category appears at most once, in check order: the
      categories form a subsequence of `CheckOrder`. */
  lemma ViolationsOrdered(rec: ExchangeRecord)
    ensures IsSubsequence(Categories(Violations(rec)), CheckOrder)
  {
    ChecksInOrder(CheckAutomatedAccess(rec), CheckApiAbuse(rec.url), CheckReverseEngineering(rec), CheckAiTraining(rec.url));
  }

  /** A request without a User-Agent is never taken for automated access: the
      sentinel lower-cases to "not provided". */
  lemma MissingUserAgentIsNotAutomated(rec: ExchangeRecord)
    requires !HasValue(rec.requestHeaders, "User-Agent")
    ensures CheckAutomatedAccess(rec) == []
  {
    AutomatedAccessIff(rec);
  }

  /** A crawler that says so in its User-Agent, in any letter case, makes the
      page show the automated-access detail. */
  lemma SelfDeclaredBotIsReported(rec: ExchangeRecord)
    requires !IsSkipped(rec.url)
    requires HasValue(rec.requestHeaders, "User-Agent") && Contains(ToLowerCase(rec.requestHeaders["User-Agent"]), "bot")
    ensures TosNotification(rec)
         == Some(Notification("ToS Violation", DetailText(AutomatedAccess, ""), High))
  {
    assert UserAgent(rec.requestHeaders) == ToLowerCase(rec.requestHeaders["User-Agent"]);
    AutomatedAccessIff(rec);
    var vs := Violations(rec);
    assert vs[0] == AutomatedAccessViolation(rec.url);
    var report := MakeReport(vs, Warnings(rec), rec.url);
    assert TosNotification(rec) == Forward(report, "ToS Violation");
  }

  /** The page is told about an exchange exactly when one of the four
      violation checks fires, and the message is always the first one's. */
  lemma NotifiedIffViolation(rec: ExchangeRecord)
    requires !IsSkipped(rec.url)
    ensures TosNotification(rec).Some? <==> Violations(rec) != []
    ensures TosNotification(rec).Some? ==> TosNotification(rec).value.message == Violations(rec)[0].Detail()
  {
  }

  /** A response without `content-length` never looks like a bulk download:
      the sentinel does not parse as a number. */
  lemma MissingContentLengthIsNotBulk(response: Headers)
    requires !HasValue(response, "content-length")
    ensures CheckResponsePatterns(response) == []
  {
    ParseNonNumeric(NotProvided, Decimal);
  }

  /** For `content-length: <n><rest>`, where `rest` does not continue the
      number, the bulk-download warning is raised exactly when `n` exceeds ten
      million. */
  lemma BulkDownloadForLength(response: Headers, n: nat, rest: string)
    requires "content-length" in response && response["content-length"] == DecimalString(n) + rest
    requires rest == [] || !IsDigit(rest[0], 10)
    ensures CheckResponsePatterns(response) != [] <==> n > BulkResponseBytes
  {
    ParseDecimalString(n, rest, Decimal);
  }
}
