/** The privacy-policy analyser: six checks over one exchange, folded into a
    report whose violations carry a severity and whose warnings do not. */
module PrivacyAnalyzer {
  import opened Wrappers
  import opened JsString
  import opened Exchange
  import opened Reports
  import opened Seqs

  // ------------------------------------------------------------ catalogue

  const DataCollectionPatterns: seq<NamedPattern> := [
    NamedPattern("location", ["location", "lat", "long", "coords"]),
    NamedPattern("deviceInfo", ["device", "browser", "hardware", "platform"]),
    NamedPattern("userActivity", ["activity", "behavior", "interaction"]),
    NamedPattern("personalInfo", ["name", "email", "phone", "address"]),
    NamedPattern("searchHistory", ["search", "query", "keywords"]),
    NamedPattern("audioData", ["audio", "voice", "sound"])
  ]

  const SensitivePatterns: seq<NamedPattern> := [
    NamedPattern("creditCard", ["card", "credit", "payment"]),
    NamedPattern("healthcare", ["health", "medical", "treatment"]),
    NamedPattern("biometric", ["biometric", "fingerprint", "facial"]),
    NamedPattern("government", ["ssn", "passport", "license"])
  ]

  const ThirdPartyDomains: seq<string> := ["analytics", "tracking", "advertising", "marketing", "metrics"]

  const RequiredSecurityHeaders: seq<string> := ["Strict-Transport-Security", "X-Content-Type-Options", "X-Frame-Options"]

  /** Thirty days, in seconds. */
  const MaxCacheAgeSeconds: int := 2592000

  const MaxAgeMarker: string := "max-age="

  // ------------------------------------------------------------- findings

  function CollectionWarning(kind: string): Warning { Warning(DataCollection, kind) }
  function LocationViolation(url: string): Violation { Violation(LocationData, "", High, url) }
  function ThirdPartyViolation(url: string): Violation { Violation(ThirdPartySharing, "", Medium, url) }
  function SensitiveViolation(kind: string, url: string): Violation { Violation(SensitiveData, kind, High, url) }
  function TransportViolation(url: string): Violation { Violation(Security, "", High, url) }
  function MissingHeaderWarning(header: string): Warning { Warning(SecurityHeaders, header) }
  const RetentionWarning: Warning := Warning(DataRetention, "")

  // ---------------------------------------------------------------- checks

  /** One data-collection warning per table entry that matches, in table order. */
  function CollectionWarnings(table: seq<NamedPattern>, url: string, headerText: string): (ws: seq<Warning>)
    ensures |ws| <= |table|
    ensures forall i :: 0 <= i < |ws| ==> ws[i].category == DataCollection
    ensures IsSubsequence(ws, CollectionCandidates(table))
  {
    if table == [] then []
    else
      var rest := CollectionWarnings(table[1..], url, headerText);
      var w := CollectionWarning(table[0].name);
      assert CollectionCandidates(table) == [w] + CollectionCandidates(table[1..]);
      SubsequenceCons(rest, CollectionCandidates(table[1..]), w);
      if PatternHit(table[0], url, headerText) then [w] + rest else rest
  }

  /** The warning each table entry would raise, in table order. */
  function CollectionCandidates(table: seq<NamedPattern>): (ws: seq<Warning>)
    ensures |ws| == |table| && forall i :: 0 <= i < |table| ==> ws[i] == CollectionWarning(table[i].name)
  {
    seq(|table|, i requires 0 <= i < |table| => CollectionWarning(table[i].name))
  }

  /** One sensitive-data violation per table entry that matches, in table order. */
  function SensitiveViolations(table: seq<NamedPattern>, url: string, headerText: string): (vs: seq<Violation>)
    ensures |vs| <= |table|
    ensures forall i :: 0 <= i < |vs| ==> vs[i].category == SensitiveData && vs[i].severity == High
    ensures IsSubsequence(vs, SensitiveCandidates(table, url))
  {
    if table == [] then []
    else
      var rest := SensitiveViolations(table[1..], url, headerText);
      var v := SensitiveViolation(table[0].name, url);
      assert SensitiveCandidates(table, url) == [v] + SensitiveCandidates(table[1..], url);
      SubsequenceCons(rest, SensitiveCandidates(table[1..], url), v);
      if PatternHit(table[0], url, headerText) then [v] + rest else rest
  }

  /** The violation each table entry would raise, in table order. */
  function SensitiveCandidates(table: seq<NamedPattern>, url: string): (vs: seq<Violation>)
    ensures |vs| == |table| && forall i :: 0 <= i < |table| ==> vs[i] == SensitiveViolation(table[i].name, url)
  {
    seq(|table|, i requires 0 <= i < |table| => SensitiveViolation(table[i].name, url))
  }

  /** One warning per listed header that the response lacks or leaves empty,
      in list order. */
  function MissingHeaderWarnings(headers: seq<string>, response: Headers): (ws: seq<Warning>)
    ensures |ws| <= |headers|
    ensures forall i :: 0 <= i < |ws| ==> ws[i].category == SecurityHeaders
    ensures IsSubsequence(ws, MissingHeaderCandidates(headers))
  {
    if headers == [] then []
    else
      var rest := MissingHeaderWarnings(headers[1..], response);
      var w := MissingHeaderWarning(headers[0]);
      assert MissingHeaderCandidates(headers) == [w] + MissingHeaderCandidates(headers[1..]);
      SubsequenceCons(rest, MissingHeaderCandidates(headers[1..]), w);
      if !HasValue(response, headers[0]) then [w] + rest else rest
  }

  /** The warning each listed header would raise, in list order. */
  function MissingHeaderCandidates(headers: seq<string>): (ws: seq<Warning>)
    ensures |ws| == |headers| && forall i :: 0 <= i < |headers| ==> ws[i] == MissingHeaderWarning(headers[i])
  {
    seq(|headers|, i requires 0 <= i < |headers| => MissingHeaderWarning(headers[i]))
  }

  function CheckDataCollection(url: string, headerText: string): (ws: seq<Warning>)
    ensures |ws| <= 6
    ensures IsSubsequence(ws, CollectionCandidates(DataCollectionPatterns))
  {
    CollectionWarnings(DataCollectionPatterns, url, headerText)
  }

  /** The five values `checkLocationData` tests for truthiness, in source order. */
  function LocationIndicators(rec: ExchangeRecord): seq<bool> {
    [ HeaderValue(rec.requestHeaders, "Geolocation") != "",
      HeaderValue(rec.requestHeaders, "GPS") != "",
      Contains(rec.url, "latitude"),
      Contains(rec.url, "longitude"),
      HeaderValue(rec.requestHeaders, "X-Forwarded-For") != "" ]
  }

  /** The header lookups never give an empty value, so the first indicator is
      always truthy and the violation is raised for every exchange. */
  function CheckLocationData(rec: ExchangeRecord): (vs: seq<Violation>)
    ensures vs == [LocationViolation(rec.url)]
  {
    if true in LocationIndicators(rec) then [LocationViolation(rec.url)] else []
  }

  function CheckThirdPartySharing(url: string): (vs: seq<Violation>)
    ensures vs == [] || vs == [ThirdPartyViolation(url)]
  {
    if ContainsAny(url, ThirdPartyDomains) then [ThirdPartyViolation(url)] else []
  }

  function CheckSensitiveData(url: string, headerText: string): (vs: seq<Violation>)
    ensures |vs| <= 4
    ensures IsSubsequence(vs, SensitiveCandidates(SensitivePatterns, url))
  {
    SensitiveViolations(SensitivePatterns, url, headerText)
  }

  function CheckTransport(url: string): (vs: seq<Violation>)
    ensures vs == [] || vs == [TransportViolation(url)]
    ensures vs != [] <==> !("https" <= url)
  {
    if !StartsWith(url, "https") then [TransportViolation(url)] else []
  }

  function CheckSecurityHeaders(response: Headers): (ws: seq<Warning>)
    ensures |ws| <= 3
    ensures IsSubsequence(ws, MissingHeaderCandidates(RequiredSecurityHeaders))
  {
    MissingHeaderWarnings(RequiredSecurityHeaders, response)
  }

  /** `Cache-Control` asks for caching longer than thirty days: it contains
      `max-age=` and the number `parseInt` reads after the first occurrence
      exceeds the limit. NaN never does. */
  predicate LongCaching(cacheControl: string) {
    && Contains(cacheControl, MaxAgeMarker)
    && var age := ParseInt(Split(cacheControl, MaxAgeMarker)[1], Unspecified);
       age.Some? && age.value > MaxCacheAgeSeconds
  }

  function CheckDataRetention(response: Headers): (ws: seq<Warning>)
    ensures ws == [] || ws == [RetentionWarning]
  {
    if LongCaching(HeaderValue(response, "Cache-Control")) then [RetentionWarning] else []
  }

  // ---------------------------------------------------------------- report

  /** The violations raised before the transport check, in the order the
      checks push them; none of them is a Security violation. */
  function ContentViolations(rec: ExchangeRecord, headerText: string): (vs: seq<Violation>)
    ensures 1 <= |vs| <= 6
    ensures vs[0] == LocationViolation(rec.url)
    ensures forall i :: 0 <= i < |vs| ==> vs[i].category != Security
  {
    var front := CheckLocationData(rec) + CheckThirdPartySharing(rec.url);
    var sensitive := CheckSensitiveData(rec.url, headerText);
    assert forall i :: 0 <= i < |sensitive| ==> sensitive[i].category == SensitiveData;
    front + sensitive
  }

  /** Violations in the order the checks push them. */
  function Violations(rec: ExchangeRecord, headerText: string): (vs: seq<Violation>)
    ensures 1 <= |vs| <= 7
    ensures vs[0] == LocationViolation(rec.url)
  {
    ContentViolations(rec, headerText) + CheckTransport(rec.url)
  }

  /** Warnings in the order the checks push them. */
  function Warnings(rec: ExchangeRecord, headerText: string): (ws: seq<Warning>)
    ensures |ws| <= 10
  {
    CheckDataCollection(rec.url, headerText) + CheckSecurityHeaders(rec.responseHeaders) + CheckDataRetention(rec.responseHeaders)
  }

  /** `analyzePrivacyCompliance`. `stringify` stands for `JSON.stringify` of the
      request headers. A skipped exchange gives no report. */
  function AnalyzePrivacyCompliance(rec: ExchangeRecord, stringify: Headers -> string): (r: Option<Report>)
    ensures r.None? <==> IsSkipped(rec.url)
    ensures r.Some? ==> WellFormed(r.value) && r.value.analyzedRequest == rec.url
    ensures r.Some? ==> 1 <= |r.value.violations| <= 7 && |r.value.warnings| <= 10
    ensures r.Some? ==> r.value.violations[0] == LocationViolation(rec.url)
    ensures r.Some? ==> r.value.summary.riskLevel == High
  {
    if IsSkipped(rec.url) then None
    else
      var headerText := stringify(rec.requestHeaders);
      Some(MakeReport(Violations(rec, headerText), Warnings(rec, headerText), rec.url))
  }

  /** The stored privacy log after one exchange: unchanged when the exchange is
      skipped, otherwise the report appended with capped eviction. */
  function LogExchange(log: seq<Report>, rec: ExchangeRecord, stringify: Headers -> string): (newLog: seq<Report>)
    ensures IsSkipped(rec.url) ==> newLog == log
    ensures !IsSkipped(rec.url) ==> newLog == AppendCapped(log, AnalyzePrivacyCompliance(rec, stringify).value)
    ensures |log| <= LogCapacity ==> |newLog| <= LogCapacity
  {
    match AnalyzePrivacyCompliance(rec, stringify)
    case None => log
    case Some(report) => AppendCapped(log, report)
  }

  /** What the page is sent after an exchange is analysed. */
  function PrivacyNotification(rec: ExchangeRecord, stringify: Headers -> string): (n: Option<Notification>)
    ensures n.None? <==> IsSkipped(rec.url)
    ensures n.Some? ==> n.value.category == "Privacy Violation" && n.value.severity == High
  {
    match AnalyzePrivacyCompliance(rec, stringify)
    case None => None
    case Some(report) => Forward(report, "Privacy Violation")
  }

  // ---------------------------------------------------------------- lemmas

  /** A data-collection warning is raised for a table entry exactly when the
      entry matches, and for nothing else. */
  lemma {:induction false} CollectionWarningsExact(table: seq<NamedPattern>, url: string, headerText: string)
    ensures var ws := CollectionWarnings(table, url, headerText);
            && (forall i :: 0 <= i < |table| && PatternHit(table[i], url, headerText) ==> CollectionWarning(table[i].name) in ws)
            && (forall w :: w in ws ==> exists i :: 0 <= i < |table| && PatternHit(table[i], url, headerText) && w == CollectionWarning(table[i].name))
            && (ws == [] <==> forall i :: 0 <= i < |table| ==> !PatternHit(table[i], url, headerText))
  {
    if table != [] {
      CollectionWarningsExact(table[1..], url, headerText);
      assert forall i :: 1 <= i < |table| ==> table[i] == table[1..][i - 1];
    }
  }

  /** A sensitive-data violation is raised for a table entry exactly when the
      entry matches, and for nothing else. */
  lemma {:induction false} SensitiveViolationsExact(table: seq<NamedPattern>, url: string, headerText: string)
    ensures var vs := SensitiveViolations(table, url, headerText);
            && (forall i :: 0 <= i < |table| && PatternHit(table[i], url, headerText) ==> SensitiveViolation(table[i].name, url) in vs)
            && (forall v :: v in vs ==> exists i :: 0 <= i < |table| && PatternHit(table[i], url, headerText) && v == SensitiveViolation(table[i].name, url))
            && (vs == [] <==> forall i :: 0 <= i < |table| ==> !PatternHit(table[i], url, headerText))
  {
    if table != [] {
      SensitiveViolationsExact(table[1..], url, headerText);
      assert forall i :: 1 <= i < |table| ==> table[i] == table[1..][i - 1];
    }
  }

  /** A missing-header warning is raised for a listed header exactly when the
      response lacks it or leaves it empty, and for nothing else. */
  lemma {:induction false} MissingHeaderWarningsExact(headers: seq<string>, response: Headers)
    ensures var ws := MissingHeaderWarnings(headers, response);
            && (forall i :: 0 <= i < |headers| && !HasValue(response, headers[i]) ==> MissingHeaderWarning(headers[i]) in ws)
            && (forall w :: w in ws ==> exists i :: 0 <= i < |headers| && !HasValue(response, headers[i]) && w == MissingHeaderWarning(headers[i]))
            && (ws == [] <==> forall i :: 0 <= i < |headers| ==> HasValue(response, headers[i]))
  {
    if headers != [] {
      var rest := MissingHeaderWarnings(headers[1..], response);
      var w := MissingHeaderWarning(headers[0]);
      MissingHeaderWarningsExact(headers[1..], response);
      var ws := MissingHeaderWarnings(headers, response);
      assert ws == if !HasValue(response, headers[0]) then [w] + rest else rest;
      forall i | 0 <= i < |headers| && !HasValue(response, headers[i]) ensures MissingHeaderWarning(headers[i]) in ws {
        if i > 0 { assert headers[i] == headers[1..][i - 1]; }
      }
      forall x | x in ws
        ensures exists i :: 0 <= i < |headers| && !HasValue(response, headers[i]) && x == MissingHeaderWarning(headers[i])
      {
        if x in rest {
          var j :| 0 <= j < |headers[1..]| && !HasValue(response, headers[1..][j]) && x == MissingHeaderWarning(headers[1..][j]);
          assert headers[j + 1] == headers[1..][j];
        } else {
          assert !HasValue(response, headers[0]) && x == w;
        }
      }
    }
  }

  /** Third-party sharing is flagged exactly when the URL names one of the
      five tracking-related words. */
  lemma {:induction false} ThirdPartySharingIff(url: string)
    ensures CheckThirdPartySharing(url) != []
        <==> || Contains(url, "analytics") || Contains(url, "tracking") || Contains(url, "advertising")
             || Contains(url, "marketing") || Contains(url, "metrics")
  {
    var d := ThirdPartyDomains;
    assert d[1..][1..][1..][1..][1..] == [];
    assert ContainsAny(url, d[1..][1..][1..]) == (Contains(url, "marketing") || ContainsAny(url, d[1..][1..][1..][1..]));
    assert ContainsAny(url, d[1..]) == (Contains(url, "tracking") || ContainsAny(url, d[1..][1..]));
    assert ContainsAny(url, d) == (Contains(url, "analytics") || ContainsAny(url, d[1..]));
  }


  /** Every analysed exchange is forwarded, and the message is always the
      location-data detail, whatever else was found. */
  lemma AlwaysNotifiesLocation(rec: ExchangeRecord, stringify: Headers -> string)
    requires !IsSkipped(rec.url)
    ensures PrivacyNotification(rec, stringify)
         == Some(Notification("Privacy Violation", DetailText(LocationData, ""), High))
  {
  }

  /** A Security violation is reported exactly when the URL does not start
      with `https`. */
  lemma TransportViolationIff(rec: ExchangeRecord, stringify: Headers -> string)
    requires !IsSkipped(rec.url)
    ensures TransportViolation(rec.url) in AnalyzePrivacyCompliance(rec, stringify).value.violations
        <==> !StartsWith(rec.url, "https")
  {
    var content := ContentViolations(rec, stringify(rec.requestHeaders));
    assert AnalyzePrivacyCompliance(rec, stringify).value.violations == content + CheckTransport(rec.url);
    assert TransportViolation(rec.url) !in content;
  }

  /** The retention warning is never raised when `Cache-Control` is missing
      or empty: the sentinel contains no `max-age=`. */
  lemma RetentionNeedsCacheControl(response: Headers)
    requires !HasValue(response, "Cache-Control")
    ensures CheckDataRetention(response) == []
  {
    assert !Contains(NotProvided, MaxAgeMarker) by {
      forall j | 0 <= j <= |NotProvided| - |MaxAgeMarker| ensures !OccursAt(NotProvided, MaxAgeMarker, j) {
        assert |NotProvided| - |MaxAgeMarker| == 4;
        assert NotProvided[j..j + 8][0] != 'm';
      }
    }
  }

  /** For `Cache-Control: <p>max-age=<n><rest>`, where `p` holds no earlier
      `max-age=` (as in `public, max-age=31536000`) and `rest` does not
      continue the number, the retention warning is raised exactly when `n`
      exceeds thirty days. `0x…` is excluded: with no radix, `parseInt` reads
      it as hexadecimal. */
  lemma RetentionForMaxAge(response: Headers, p: string, n: nat, rest: string)
    requires "Cache-Control" in response && response["Cache-Control"] == p + MaxAgeMarker + DecimalString(n) + rest
    requires forall j :: 0 <= j < |p| ==> !OccursAt(response["Cache-Control"], MaxAgeMarker, j)
    requires rest == [] || !IsDigit(rest[0], 10)
    requires n > 0 || rest == [] || (rest[0] != 'x' && rest[0] != 'X')
    ensures CheckDataRetention(response) != [] <==> n > MaxCacheAgeSeconds
  {
    var cc := response["Cache-Control"];
    var d := DecimalString(n);
    assert HeaderValue(response, "Cache-Control") == cc;
    assert cc == p + MaxAgeMarker + (d + rest);
    SplitSecondPiece(p, MaxAgeMarker, d + rest);
    forall i | 0 <= i < |d| ensures d[i] != MaxAgeMarker[0] { DecimalDigit(d[i]); }
    SplitHeadAfterPrefix(d, rest, MaxAgeMarker);
    var number := Split(rest, MaxAgeMarker)[0];
    assert Split(cc, MaxAgeMarker)[1] == d + number;
    SplitHeadIsPrefix(rest, MaxAgeMarker);
    ParseDecimalString(n, number, Unspecified);
  }

  /** Each missing security header yields its own warning, in list order. */
  lemma SecurityHeaderWarningsInOrder(response: Headers)
    ensures CheckSecurityHeaders(response)
         == (if HasValue(response, "Strict-Transport-Security") then [] else [MissingHeaderWarning("Strict-Transport-Security")])
          + (if HasValue(response, "X-Content-Type-Options") then [] else [MissingHeaderWarning("X-Content-Type-Options")])
          + (if HasValue(response, "X-Frame-Options") then [] else [MissingHeaderWarning("X-Frame-Options")])
  {
    var h := RequiredSecurityHeaders;
    assert h[1..] == ["X-Content-Type-Options", "X-Frame-Options"];
    assert h[1..][1..] == ["X-Frame-Options"];
    assert h[1..][1..][1..] == [];
    assert MissingHeaderWarnings(h[1..][1..], response)
        == (if HasValue(response, "X-Frame-Options") then [] else [MissingHeaderWarning("X-Frame-Options")]);
    assert MissingHeaderWarnings(h[1..], response)
        == (if HasValue(response, "X-Content-Type-Options") then [] else [MissingHeaderWarning("X-Content-Type-Options")])
         + MissingHeaderWarnings(h[1..][1..], response);
  }

  lemma NoSensitiveHits(url: string, headerText: string)
    requires forall i :: 0 <= i < |SensitivePatterns| ==> !PatternHit(SensitivePatterns[i], url, headerText)
    ensures CheckSensitiveData(url, headerText) == []
  {
    SensitiveViolationsExact(SensitivePatterns, url, headerText);
  }

  /** A plain-HTTP URL that matches no third-party or sensitive-data pattern
      still gets two HIGH violations: location data first, then transport. */
  lemma InsecureUrlViolations(rec: ExchangeRecord, stringify: Headers -> string)
    requires !IsSkipped(rec.url) && !StartsWith(rec.url, "https")
    requires !ContainsAny(rec.url, ThirdPartyDomains)
    requires forall i :: 0 <= i < |SensitivePatterns| ==> !PatternHit(SensitivePatterns[i], rec.url, stringify(rec.requestHeaders))
    ensures AnalyzePrivacyCompliance(rec, stringify).value.violations == [LocationViolation(rec.url), TransportViolation(rec.url)]
  {
    var headerText := stringify(rec.requestHeaders);
    NoSensitiveHits(rec.url, headerText);
    assert CheckThirdPartySharing(rec.url) == [] by {
      assert forall i :: 0 <= i < |ThirdPartyDomains| ==> !Contains(rec.url, ThirdPartyDomains[i]);
    }
    assert ContentViolations(rec, headerText) == [LocationViolation(rec.url)];
    assert Violations(rec, headerText) == [LocationViolation(rec.url), TransportViolation(rec.url)];
  }
}
