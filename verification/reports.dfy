/** The report both network analysers produce: violations (which carry a
    severity) and warnings (which do not), a summary with the derived risk
    level, the capped history log the report is appended to, and the
    forwarding of a high-risk report's first violation to the page. */
module Reports {
  import opened Wrappers

  /** Severity of a violation and risk level of a report. */
  datatype Level = High | Medium | Low

  /** What a finding is about, across both policy domains. */
  datatype Category =
    | DataCollection | LocationData | ThirdPartySharing | SensitiveData | Security | SecurityHeaders | DataRetention
    | AutomatedAccess | ApiAbuse | ContentExtraction | ReverseEngineering | AiTraining | BulkDownload
  {
    /** The category as the report spells it. */
    function Name(): string {
      match this
      case DataCollection => "Data Collection"
      case LocationData => "Location Data"
      case ThirdPartySharing => "Third-Party Sharing"
      case SensitiveData => "Sensitive Data"
      case Security => "Security"
      case SecurityHeaders => "Security Headers"
      case DataRetention => "Data Retention"
      case AutomatedAccess => "Automated Access"
      case ApiAbuse => "API Abuse"
      case ContentExtraction => "Content Extraction"
      case ReverseEngineering => "Reverse Engineering"
      case AiTraining => "AI Training"
      case BulkDownload => "Bulk Download"
    }
  }

  /** The human-readable detail of a finding. `subject` fills the one
      variable part some details have: the data type a pattern table names, or
      the missing header. */
  function DetailText(c: Category, subject: string): string {
    match c
    case DataCollection => "Collecting " + subject + " data - ensure user consent is obtained"
    case LocationData => "Location data being collected - verify user location settings consent"
    case ThirdPartySharing => "Data being shared with third-party services"
    case SensitiveData => "Potential " + subject + " data transmission detected"
    case Security => "Insecure data transmission - HTTPS required"
    case SecurityHeaders => "Missing security header: " + subject
    case DataRetention => "Long-term data caching detected"
    case AutomatedAccess => "Potential automated access detected through User-Agent"
    case ApiAbuse => "Accessing endpoints typically associated with bulk data collection"
    case ContentExtraction => "Potential systematic content extraction detected"
    case ReverseEngineering => "Debug headers detected that might indicate reverse engineering attempts"
    case AiTraining => "Pattern suggesting AI model training activity detected"
    case BulkDownload => "Large response size might indicate bulk data collection"
  }

  /** The section of the policy or terms of service a finding points to. */
  function ReferenceText(c: Category): string {
    match c
    case DataCollection => "Section: Why Google Collects Data"
    case LocationData => "Section: Your location information"
    case ThirdPartySharing => "Section: When Google shares your information"
    case SensitiveData => "Section: When Google shares your information - With your consent"
    case Security | SecurityHeaders => "Section: Keeping your information secure"
    case DataRetention => "Section: Retaining your information"
    case AutomatedAccess => "Section: Don't abuse our services - using automated means to access content"
    case ApiAbuse => "Section: Don't abuse our services - accessing or using our services in fraudulent or deceptive ways"
    case ContentExtraction => "Section: Permission to use your content"
    case ReverseEngineering => "Section: Don't abuse our services - reverse engineering our services"
    case AiTraining => "Section: Don't abuse our services - using AI-generated content to develop machine learning models"
    case BulkDownload => "Section: Don't abuse our services"
  }

  /** A finding that breaks a policy; `relatedRequest` is the analysed URL. */
  datatype Violation = Violation(category: Category, subject: string, severity: Level, relatedRequest: string) {
    function Detail(): string { DetailText(category, subject) }
    function Reference(): string { ReferenceText(category) }
  }

  /** An informational finding; it has no severity. */
  datatype Warning = Warning(category: Category, subject: string) {
    function Detail(): string { DetailText(category, subject) }
    function Reference(): string { ReferenceText(category) }
  }

  datatype Summary = Summary(totalViolations: nat, totalWarnings: nat, riskLevel: Level)

  /** One analysis result. The ISO timestamps of the source are not modelled. */
  datatype Report = Report(violations: seq<Violation>, warnings: seq<Warning>, analyzedRequest: string, summary: Summary)

  /** HIGH when anything is violated, MEDIUM when there are only warnings,
      LOW otherwise. */
  function RiskLevel(violations: nat, warnings: nat): Level {
    if violations > 0 then High else if warnings > 0 then Medium else Low
  }

  /** The summary agrees with the findings it summarises. */
  predicate WellFormed(r: Report) {
    && r.summary.totalViolations == |r.violations|
    && r.summary.totalWarnings == |r.warnings|
    && r.summary.riskLevel == RiskLevel(|r.violations|, |r.warnings|)
  }

  function MakeReport(violations: seq<Violation>, warnings: seq<Warning>, url: string): (r: Report)
    ensures WellFormed(r)
    ensures r.violations == violations && r.warnings == warnings && r.analyzedRequest == url
    ensures r.summary.riskLevel == High <==> |violations| > 0
    ensures r.summary.riskLevel == Medium <==> |violations| == 0 && |warnings| > 0
    ensures r.summary.riskLevel == Low <==> |violations| == 0 && |warnings| == 0
  {
    Report(violations, warnings, url, Summary(|violations|, |warnings|, RiskLevel(|violations|, |warnings|)))
  }

  // ------------------------------------------------------------ history log

  /** How many reports each history log keeps. */
  const LogCapacity: nat := 50

  /** Push `entry`, then drop the oldest entry if the log has grown past the
      capacity. */
  function AppendCapped<T>(log: seq<T>, entry: T): (r: seq<T>)
    ensures |log| <= LogCapacity ==> |r| <= LogCapacity
    ensures |r| > 0 && r[|r| - 1] == entry
    ensures |log| < LogCapacity ==> r == log + [entry]
    ensures |log| >= LogCapacity ==> r == log[1..] + [entry]
  {
    var pushed := log + [entry];
    if |pushed| > LogCapacity then pushed[1..] else pushed
  }

  /** Several appends in turn. */
  function AppendAll<T>(log: seq<T>, entries: seq<T>): seq<T>
    decreases |entries|
  {
    if entries == [] then log else AppendAll(AppendCapped(log, entries[0]), entries[1..])
  }

  /** The last `n` elements of `s` (all of them when there are fewer). */
  function Newest<T>(s: seq<T>, n: nat): (r: seq<T>)
    ensures |r| == if |s| <= n then |s| else n
  {
    if |s| <= n then s else s[|s| - n..]
  }

  /** Eviction is first-in first-out: after any run of appends to a log within
      its capacity, the log holds exactly the newest entries of everything
      ever appended, in order. */
  lemma {:induction false} AppendAllKeepsNewest<T>(log: seq<T>, entries: seq<T>)
    requires |log| <= LogCapacity
    ensures AppendAll(log, entries) == Newest(log + entries, LogCapacity)
    decreases |entries|
  {
    if entries == [] {
      assert log + entries == log;
    } else {
      var next := AppendCapped(log, entries[0]);
      AppendAllKeepsNewest(next, entries[1..]);
      var all := log + entries;
      assert next + entries[1..] == Newest(log + [entries[0]], LogCapacity) + entries[1..];
      if |log| < LogCapacity {
        assert next + entries[1..] == all;
      } else {
        assert next + entries[1..] == all[1..];
        assert Newest(all[1..], LogCapacity) == Newest(all, LogCapacity);
      }
    }
  }

  // ------------------------------------------------------------ forwarding

  /** The message the page is sent to show a warning box. */
  datatype Notification = Notification(category: string, message: string, severity: Level)

  /** A HIGH-risk report is forwarded with its first violation's detail; any
      other report is not forwarded. */
  function Forward(r: Report, category: string): (n: Option<Notification>)
    requires WellFormed(r)
    ensures n.Some? <==> r.summary.riskLevel == High
    ensures n.Some? ==> |r.violations| > 0 && n.value == Notification(category, r.violations[0].Detail(), High)
  {
    if r.summary.riskLevel == High then Some(Notification(category, r.violations[0].Detail(), High)) else None
  }
}
