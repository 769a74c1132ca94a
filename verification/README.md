# Compliance analysers and sensitivity banner, modelled in Dafny

This project models the analysis core of a browser extension that watches
network traffic and typing on Google pages:

- the **privacy analyser** (`analyzePrivacyCompliance`) runs six checks over
  one captured HTTP exchange: data collection, location data, third-party
  sharing, sensitive data, transport and security headers, and data
  retention. It folds their findings into a report with a HIGH/MEDIUM/LOW
  risk level, appends the report to a history log capped at 50 entries, and
  forwards a HIGH report's first violation to the page;
- the **terms-of-service analyser** (`analyzeToSCompliance`) works the same
  way with its own six checks: automated access, API abuse, content
  extraction, reverse engineering, AI training and bulk download;
- the **storage analyser** (`analyzeStoragePrivacy`) classifies the names of
  stored Google cookies and the keys of local storage. It always adds the
  same three privacy-control links and lists the distinct finding categories;
- the **sensitivity banner** in the content script keeps a buffer of what is
  typed. A space or one of `. ? ; !` sends the buffer to a scorer, and a score
  above 50 shows a red "Warning: …" box with a Clear button.

Layout:

- `wrappers.dfy`: `Option`.
- `seqs.dfy`: subsequences, `Filter`, and `Dedup`, the model of `[...new Set(xs)]`.
- `jsstring.dfy`: the JavaScript string operations the analysers use:
  - `includes`, `startsWith`, `endsWith`, `split` and `join`;
  - `toLowerCase`, and a case-insensitive `/a|b|c/i` test;
  - ECMAScript `parseInt`, with `None` standing for `NaN`.
- `exchange.dfy`: the captured exchange, the static-asset skip rule, and
  `headers[key] || "Not Provided"`.
- `reports.dfy`: finding categories and their texts, the report and its risk
  level, the capped log, and forwarding to the page.
- `privacy.dfy`, `tos.dfy`, `storage.dfy`, `banner.dfy`: the four parts above.

Two behaviours of the code are easy to miss, and the model keeps both:

- The location check tests the *result* of the header lookup. A missing
  header reads as the truthy `"Not Provided"`, so every analysed exchange
  gets a HIGH "Location Data" violation and a HIGH risk level. The page is
  therefore always sent the location message.
- The banner threshold is `sensitivityThreshold = 50` (content.js:19),
  compared with a strict `>` (content.js:104): a score of exactly 50 shows
  nothing.

Finding texts live in `Reports.DetailText` and `Reports.ReferenceText`, keyed
by category; a finding stores its category and the name it mentions. The
timestamp fields are left out.

## Model

| member | source | states |
|---|---|---|
| Exchange.IsSkipped | analyzers/privacyAnalyzer.js:18 | the empty URL is skipped; a skipped non-empty URL ends in g, s, f or o with a dot among its last five characters, so a static asset with a query string is analysed |
| Exchange.SkipSeesLastFive | analyzers/tosAnalyzer.js:18 | whether a URL is skipped depends only on its last five characters |
| Exchange.HeaderValue | analyzers/privacyAnalyzer.js:16 | a header lookup is never empty: the value when present and non-empty, "Not Provided" otherwise |
| Reports.MakeReport | analyzers/privacyAnalyzer.js:138-148 | the totals count the findings; risk is HIGH iff there is a violation, MEDIUM iff only warnings, LOW iff neither |
| Reports.AppendCapped | analyzers/privacyAnalyzer.js:150-157 | a log within 50 entries stays within 50; the new report is last; below capacity nothing is lost, at capacity exactly the oldest entry is dropped |
| Reports.AppendAllKeepsNewest | analyzers/tosAnalyzer.js:126-133 | after any run of appends to a log within capacity, the log is exactly the newest 50 of all reports, in arrival order |
| Reports.Forward | analyzers/privacyAnalyzer.js:190-198 | a report is forwarded iff its risk is HIGH, with the detail of its first violation and severity HIGH |
| PrivacyAnalyzer.AnalyzePrivacyCompliance | analyzers/privacyAnalyzer.js:18-20 | no report iff the URL is empty or ends in a static-asset extension; otherwise a well-formed report for that URL, with 1 to 7 violations (location first), at most 10 warnings, and HIGH risk |
| PrivacyAnalyzer.CollectionWarnings | analyzers/privacyAnalyzer.js:32-40 | at most one Data Collection warning per pattern-table entry, in table order: the warnings are a subsequence of the one-per-entry list |
| PrivacyAnalyzer.CollectionWarningsExact | analyzers/privacyAnalyzer.js:22-41 | an entry yields a warning iff its regex matches the URL or the serialised request headers; every warning comes from such an entry; none iff nothing matches |
| PrivacyAnalyzer.CheckDataCollection | analyzers/privacyAnalyzer.js:22-41 | at most six Data Collection warnings, a subsequence of one warning per data type in the order location, deviceInfo, userActivity, personalInfo, searchHistory, audioData |
| PrivacyAnalyzer.CheckLocationData | analyzers/privacyAnalyzer.js:43-60 | exactly one Location Data violation for every exchange, because the header lookups are never falsy |
| PrivacyAnalyzer.CheckThirdPartySharing | analyzers/privacyAnalyzer.js:62-73 | nothing, or a single MEDIUM Third-Party Sharing violation |
| PrivacyAnalyzer.ThirdPartySharingIff | analyzers/privacyAnalyzer.js:62-73 | flagged iff the URL contains analytics, tracking, advertising, marketing or metrics |
| PrivacyAnalyzer.SensitiveViolations | analyzers/privacyAnalyzer.js:83-92 | at most one HIGH Sensitive Data violation per table entry, in table order: the violations are a subsequence of the one-per-entry list |
| PrivacyAnalyzer.SensitiveViolationsExact | analyzers/privacyAnalyzer.js:75-93 | an entry yields a violation iff its regex matches the URL or the serialised request headers; every violation comes from such an entry; none iff nothing matches |
| PrivacyAnalyzer.CheckSensitiveData | analyzers/privacyAnalyzer.js:75-93 | at most four Sensitive Data violations, a subsequence of one violation per data kind in the order creditCard, healthcare, biometric, government |
| PrivacyAnalyzer.NoSensitiveHits | analyzers/privacyAnalyzer.js:75-93 | when no sensitive pattern matches, the check adds nothing |
| PrivacyAnalyzer.CheckTransport | analyzers/privacyAnalyzer.js:96-103 | a single Security violation iff the URL does not start with "https" |
| PrivacyAnalyzer.TransportViolationIff | analyzers/privacyAnalyzer.js:96-103 | the report holds the Security violation iff the URL does not start with "https"; no other check raises one |
| PrivacyAnalyzer.MissingHeaderWarnings | analyzers/privacyAnalyzer.js:107-115 | at most one Security Headers warning per listed header, in list order: the warnings are a subsequence of the one-per-header list |
| PrivacyAnalyzer.CheckSecurityHeaders | analyzers/privacyAnalyzer.js:105-115 | at most three Security Headers warnings, a subsequence of one warning each for Strict-Transport-Security, X-Content-Type-Options, X-Frame-Options in that order |
| PrivacyAnalyzer.MissingHeaderWarningsExact | analyzers/privacyAnalyzer.js:105-115 | a listed header yields a warning iff the response lacks it or leaves it empty; every warning comes from such a header |
| PrivacyAnalyzer.SecurityHeaderWarningsInOrder | analyzers/privacyAnalyzer.js:105-115 | one warning per missing header, in the order Strict-Transport-Security, X-Content-Type-Options, X-Frame-Options |
| PrivacyAnalyzer.CheckDataRetention | analyzers/privacyAnalyzer.js:118-129 | nothing, or the single Data Retention warning |
| PrivacyAnalyzer.RetentionNeedsCacheControl | analyzers/privacyAnalyzer.js:119-120 | a missing or empty Cache-Control never raises the retention warning |
| PrivacyAnalyzer.RetentionForMaxAge | analyzers/privacyAnalyzer.js:120 | for a Cache-Control of any text without "max-age=", then "max-age=n", then text that does not continue the number, the warning is raised iff n exceeds 2592000 seconds |
| PrivacyAnalyzer.ContentViolations | analyzers/privacyAnalyzer.js:131-134 | the location violation comes first, and none of the violations before the transport check is a Security violation |
| PrivacyAnalyzer.Violations | analyzers/privacyAnalyzer.js:131-136 | between one and seven violations, the location violation first |
| PrivacyAnalyzer.Warnings | analyzers/privacyAnalyzer.js:131-136 | at most ten warnings |
| PrivacyAnalyzer.InsecureUrlViolations | analyzers/privacyAnalyzer.js:43-103 | a plain-HTTP URL with no third-party or sensitive match gets exactly a location violation followed by a transport violation |
| PrivacyAnalyzer.LogExchange | analyzers/privacyAnalyzer.js:150-157 | a skipped exchange leaves the log unchanged; otherwise its report is appended with capped eviction, keeping the log within 50 entries |
| PrivacyAnalyzer.PrivacyNotification | analyzers/privacyAnalyzer.js:190-198 | a message is sent iff the exchange is analysed, with category "Privacy Violation" and severity HIGH |
| PrivacyAnalyzer.AlwaysNotifiesLocation | analyzers/privacyAnalyzer.js:190-198 | every analysed exchange sends the page "Privacy Violation" with the location-data detail and severity HIGH |
| TosAnalyzer.CheckAutomatedAccess | analyzers/tosAnalyzer.js:22-34 | nothing, or a single Automated Access violation |
| TosAnalyzer.AutomatedAccessIff | analyzers/tosAnalyzer.js:22-34 | flagged iff the request has a non-empty User-Agent header whose lower-cased value contains "bot" or "crawler" |
| TosAnalyzer.MissingUserAgentIsNotAutomated | analyzers/tosAnalyzer.js:16-24 | a missing or empty User-Agent reads "not provided" and is never flagged |
| TosAnalyzer.SentinelAgentIsNotAutomated | analyzers/tosAnalyzer.js:16-24 | the "Not Provided" fallback, lower-cased, contains neither "bot" nor "crawler" |
| TosAnalyzer.CheckApiAbuse | analyzers/tosAnalyzer.js:36-47 | nothing, or a single MEDIUM API Abuse violation |
| TosAnalyzer.ApiAbuseIff | analyzers/tosAnalyzer.js:36-47 | flagged iff the URL contains /training/, /scrape/, /bulk/ or /mass/ |
| TosAnalyzer.CheckContentExtraction | analyzers/tosAnalyzer.js:49-64 | nothing, or the single Content Extraction warning |
| TosAnalyzer.ContentExtractionIff | analyzers/tosAnalyzer.js:49-64 | warned iff the URL contains /download/all, format=json or output=xml, or a present Accept header contains application/json |
| TosAnalyzer.CheckReverseEngineering | analyzers/tosAnalyzer.js:66-79 | nothing, or a single Reverse Engineering violation |
| TosAnalyzer.ReverseEngineeringIff | analyzers/tosAnalyzer.js:66-79 | flagged iff X-Debug, X-Debug-Mode or X-Debug-Token is present with a non-empty value |
| TosAnalyzer.CheckAiTraining | analyzers/tosAnalyzer.js:81-92 | nothing, or a single AI Training violation |
| TosAnalyzer.AiTrainingIff | analyzers/tosAnalyzer.js:81-92 | flagged iff the URL contains /train/, /dataset/, /corpus/, /collect/ or /batch/ |
| TosAnalyzer.CheckResponsePatterns | analyzers/tosAnalyzer.js:94-105 | the bulk-download warning iff content-length parses in base 10 to a number above 10000000; a non-number never counts |
| TosAnalyzer.MissingContentLengthIsNotBulk | analyzers/tosAnalyzer.js:95-98 | a missing content-length reads "Not Provided", which parses to NaN and is never a bulk download |
| TosAnalyzer.BulkDownloadForLength | analyzers/tosAnalyzer.js:94-105 | for content-length "n" followed by text that does not continue the number, the warning is raised iff n exceeds 10000000 |
| TosAnalyzer.Violations | analyzers/tosAnalyzer.js:107-112 | at most four violations |
| TosAnalyzer.Warnings | analyzers/tosAnalyzer.js:107-112 | at most two warnings |
| TosAnalyzer.ChecksInOrder | analyzers/tosAnalyzer.js:107-111 | four check results, each empty or a single violation of its own category, concatenate to categories in check order |
| TosAnalyzer.ViolationsOrdered | analyzers/tosAnalyzer.js:107-111 | the violation categories are a subsequence of automated access, API abuse, reverse engineering, AI training: each appears at most once, in that order |
| TosAnalyzer.AnalyzeToSCompliance | analyzers/tosAnalyzer.js:18-20 | no report iff the exchange is skipped; otherwise a well-formed report for the URL with at most four violations and two warnings |
| TosAnalyzer.LogExchange | analyzers/tosAnalyzer.js:126-133 | a skipped exchange leaves the log unchanged; otherwise its report is appended with capped eviction |
| TosAnalyzer.TosNotification | analyzers/tosAnalyzer.js:166-174 | a skipped exchange sends nothing; a sent message has category "ToS Violation", severity HIGH, and the detail of one of the report's violations |
| TosAnalyzer.NotifiedIffViolation | analyzers/tosAnalyzer.js:166-174 | the page is told iff some violation check fires, and the message is the first violation's detail |
| TosAnalyzer.SelfDeclaredBotIsReported | analyzers/tosAnalyzer.js:166-174 | a User-Agent containing "bot" in any letter case sends "ToS Violation" with the automated-access detail |
| StorageAnalyzer.MatchingNames | analyzers/cookieStorageAnalyzer.js:44-45 | the names containing one of the patterns, case-sensitively, in their original order, and all of them |
| StorageAnalyzer.CookieFindings | analyzers/cookieStorageAnalyzer.js:43-55 | one finding per cookie type with a matching name, listing exactly the matching names; every finding comes from such a type; the findings follow the type table's order, at most one per type |
| StorageAnalyzer.AnalyzeCookies | analyzers/cookieStorageAnalyzer.js:33-56 | at most four cookie findings; none when the cookie data or its googleCookies entry is missing |
| StorageAnalyzer.NoCookieDataNoCookieFindings | analyzers/cookieStorageAnalyzer.js:34 | without cookie data the report holds only local-storage findings |
| StorageAnalyzer.LocalFinding | analyzers/cookieStorageAnalyzer.js:67-80 | a key is reported under the first pattern, in priority order, that its lower-cased form contains, and not at all iff it contains none |
| StorageAnalyzer.IdOutranksSessionAndToken | analyzers/cookieStorageAnalyzer.js:59-70 | a key containing "id" is always reported, and never under "token" or "session" |
| StorageAnalyzer.LocalStorageFindings | analyzers/cookieStorageAnalyzer.js:58-81 | the findings correspond one to one, in key order, with the keys that contain some pattern: the i-th finding is the i-th such key's own finding; so at most one per key, and every reportable key is reported |
| StorageAnalyzer.AnalyzeStoragePrivacy | analyzers/cookieStorageAnalyzer.js:106-119 | cookie findings then local findings; the total counts them; one privacy-control insight; the categories are distinct and are exactly the findings' categories |
| StorageAnalyzer.CookieFindingsFirst | analyzers/cookieStorageAnalyzer.js:106-107 | no cookie finding follows a local-storage finding |
| StorageAnalyzer.CategoriesFollowFindings | analyzers/cookieStorageAnalyzer.js:116 | the categories are "Cookie Usage" if there is a cookie finding, then "Local Storage" if there is a local finding, and nothing else |
| Seqs.Dedup | analyzers/cookieStorageAnalyzer.js:116 | no duplicates, the same elements as the input, in first-occurrence order |
| Seqs.DedupTwoRuns | analyzers/cookieStorageAnalyzer.js:116 | removing duplicates from a run of one value followed by a run of another keeps one copy of each non-empty run |
| JsString.ToLowerCase | analyzers/tosAnalyzer.js:23 | same length; no ASCII capital and no Kelvin sign remains; every other character is kept |
| JsString.ToLowerCaseIdempotent | analyzers/cookieStorageAnalyzer.js:69 | lower-casing an already lower-cased text changes nothing |
| JsString.ToLowerCaseIgnoresCase | analyzers/tosAnalyzer.js:23 | texts that differ only in the case of ASCII letters lower-case to the same text |
| JsString.RegexTest | analyzers/privacyAnalyzer.js:33 | the case-insensitive alternation matches iff some alternative occurs at some position of the text with ASCII letters compared without case |
| JsString.FirstContained | analyzers/cookieStorageAnalyzer.js:68-70 | the first word the text contains; none before it is contained; none iff no word is |
| JsString.Split | analyzers/privacyAnalyzer.js:120 | at least one piece; at least two iff the separator occurs; no piece contains the separator |
| JsString.SplitHeadAfterPrefix | analyzers/privacyAnalyzer.js:120 | when no character of a prefix can start the separator, the first piece of the whole is the prefix followed by the first piece of the rest |
| JsString.SplitSecondPiece | analyzers/privacyAnalyzer.js:120 | when the first occurrence of the separator follows a prefix, the second piece is the first piece of the text after it |
| JsString.JoinSplit | analyzers/privacyAnalyzer.js:120 | joining the pieces with the separator gives back the original text |
| JsString.ParseInt | analyzers/tosAnalyzer.js:95 | NaN for blank text; a negative result needs a leading minus after the white space; with radix 10, text whose first non-blank character is a digit reads as a non-negative number |
| JsString.ParseIntSkipsWhiteSpace | analyzers/privacyAnalyzer.js:120 | leading white space never changes what parseInt reads |
| JsString.ParseDecimalString | analyzers/tosAnalyzer.js:95 | parseInt reads back a decimal numeral followed by a non-digit; without a radix, a 0 followed by x or X is excluded because that is a hexadecimal prefix |
| JsString.ParseNonNumeric | analyzers/tosAnalyzer.js:95 | text starting with anything other than white space, a sign or a digit parses to NaN |
| SensitivityBanner.Initial | content.js:36-40 | both elements hidden; the buffer holds the search box's value, or is empty without a search box |
| SensitivityBanner.Defaults | content.js:92-95 | a missing or falsy score reads 0 and a missing or falsy notification reads as the empty string |
| SensitivityBanner.ShowRedBox | content.js:103-112 | box and button are shown iff the score is strictly above 50, with "Warning: " before the notification; otherwise both are hidden and the old text stays |
| SensitivityBanner.DropLast | content.js:123 | removes the last character of a non-empty buffer; the empty buffer stays empty |
| SensitivityBanner.EditBuffer | content.js:121-133 | Backspace drops one character and hides both elements; any other single-character key is appended; longer key names change nothing |
| SensitivityBanner.Keydown | content.js:118-143 | the buffer edit always happens; non-trigger keys do nothing else; a failed scoring keeps the edited state |
| SensitivityBanner.Clear | content.js:47-55 | empties the buffer and hides both elements |
| SensitivityBanner.StepKeepsConsistent | content.js:103-112 | every event keeps the Clear button shown exactly when the box is, and a shown box carries a warning |
| SensitivityBanner.RunKeepsConsistent | content.js:103-112 | any sequence of events from a consistent state ends in a consistent state |
| SensitivityBanner.ScorerOnlyOnTriggers | content.js:136 | keys other than space, period, question mark, semicolon and exclamation mark never consult the scorer |
| SensitivityBanner.ScoresUpdatedBuffer | content.js:136-137 | a trigger key is scored on the buffer with the key already appended |
| SensitivityBanner.TriggerShowsBannerIff | content.js:136-141 | after a scored trigger key, the box is shown iff the reply carries a score above 50, with the reply's notification |
| SensitivityBanner.FailedScoringKeepsBanner | content.js:137-138 | a failed scoring leaves box, text and button as they were |
| SensitivityBanner.KeyAppends | content.js:129-133 | a single-character key is appended to the buffer |
| SensitivityBanner.TypingAppends | content.js:129-133 | typing single-character keys appends them in order, whatever the scorer replies |
| SensitivityBanner.BackspacesDropSuffix | content.js:121-128 | n Backspaces drop the last n characters and leave both elements hidden |
| SensitivityBanner.BackspaceUndoesTyping | content.js:121-133 | typing keys and then pressing Backspace as often restores the buffer |

## Left out

- Browser storage I/O: `chrome.storage.local.get`/`set` are modelled as a pure function from the old log to the new one. Interleaved callbacks from concurrent exchanges are not modelled.
- Messaging: `chrome.runtime` and `chrome.tabs` messaging are modelled only as the notification value. The active-tab query is not modelled.
- Console output and every `timestamp` field are left out; they do not affect any decision.
- The scorer request (content.js:60-91) is a parameter. Its HTTP call and the JSON parsing of its reply are left out; `None` stands for a thrown error.
- Non-numeric truthy scores are not modelled.
- Text stays up to date for concurrent keystrokes only because each scoring is taken to finish before the next event. The real handler is asynchronous, so replies may arrive out of order.
- DOM creation and styling are not modelled.
- Mirroring the buffer into the search box (content.js:124, 132) is not modelled.
- The input and change events that Clear dispatches are not modelled, because their listener sets the buffer to the already-empty search box.
- cookieStorageAnalyzer.js:1-17 reads storage and sends a message at load time; that is I/O only.
- `localStorage` keys: an undefined value would make `Object.keys` throw; the model always has a key list.
- googleCookies: only a missing entry is modelled as falsy. Falsy non-object values are not.
- Missing header objects: a captured exchange always carries request and response header maps. Without `requestHeaders`, `getHeaderValue` throws in the location check (analyzers/privacyAnalyzer.js:45) and the automated-access check (analyzers/tosAnalyzer.js:23). Without `responseHeaders`, it throws at analyzers/privacyAnalyzer.js:108 and analyzers/tosAnalyzer.js:95. In each case no report is made and nothing is logged; the model does not represent that path.
- background.js is not part of this model.
- Listener failure after a skipped exchange: the ToS and privacy listeners read fields of the undefined result and throw. The model shows that as no notification.
- JSON.stringify of the request headers is a parameter `stringify`; its output format is not modelled.
- Object key enumeration order: header maps, cookie names and storage keys are taken in the order given.
- The response's content-type is read (analyzers/tosAnalyzer.js:96) but never used, so it is not modelled.
- JsString.ToLowerCase: maps ASCII letters and the Kelvin sign only. No other character lower-cases to an ASCII letter that could complete "bot", "crawler" or a storage pattern.
- JsString.FoldCase: case-insensitive regex matching without the Unicode flag never folds a non-ASCII character onto an ASCII one, so ASCII folding is exact.
- Strings are sequences of code points, not UTF-16 units. A key named by one astral character has `length` 2 in the source, but one character here.
- `slice(0, -1)` can split a surrogate pair; the model does not represent that.
- JsString.ParseInt: returns the exact integer. Floating-point rounding of very long numerals is left out, because it cannot move a value across 2592000 or 10000000.
- PrivacyAnalyzer.RetentionForMaxAge: states the result only when the numeral after the first `max-age=` is followed by text that does not continue it, and leaves out `max-age=0x…`, which `parseInt` without a radix reads as hexadecimal. Other values are covered only by the general `CheckDataRetention` definition.
