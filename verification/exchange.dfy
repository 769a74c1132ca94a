/** The captured HTTP exchange both network analysers inspect, the skip rule
    for static assets, header lookup with its `"Not Provided"` sentinel, and
    the named word patterns the regex tables are made of. */
module Exchange {
  import opened JsString

  type Headers = map<string, string>

  /** One network exchange. The request method, body and timestamp play no
      part in any check and are not modelled. */
  datatype ExchangeRecord = ExchangeRecord(url: string, requestHeaders: Headers, responseHeaders: Headers)

  /** What a missing or empty header reads as. */
  const NotProvided: string := "Not Provided"

  const StaticExtensions: seq<string> := [".jpg", ".png", ".css", ".js", ".woff", ".ico"]

  /** `headers[key]` is truthy: present with a non-empty value. */
  predicate HasValue(headers: Headers, key: string) {
    key in headers && headers[key] != ""
  }

  /** The exchange is not analysed: its URL is empty or names a static asset.
      A skipped URL ends in one of the extensions' last letters, with the
      extension's dot among its last five characters; so `a.png?v=2` is
      analysed. */
  function IsSkipped(url: string): (b: bool)
    ensures url == "" ==> b
    ensures b && url != "" ==> url[|url| - 1] in "gsfo" && exists k :: 0 <= k < |url| && |url| - 5 <= k && url[k] == '.'
  {
    forall i | 0 <= i < |StaticExtensions| && EndsWith(url, StaticExtensions[i])
      ensures url[|url| - 1] in "gsfo" && url[|url| - |StaticExtensions[i]|] == '.'
    {
      var e := StaticExtensions[i];
      assert url[|url| - |e|..][0] == url[|url| - |e|];
      assert url[|url| - |e|..][|e| - 1] == url[|url| - 1];
    }
    url == "" || exists i :: 0 <= i < |StaticExtensions| && EndsWith(url, StaticExtensions[i])
  }

  /** Whether a URL is skipped depends only on its last five characters. */
  lemma SkipSeesLastFive(u: string, v: string)
    requires |u| >= 5 && |v| >= 5 && u[|u| - 5..] == v[|v| - 5..]
    ensures IsSkipped(u) == IsSkipped(v)
  {
    forall i | 0 <= i < |StaticExtensions| ensures EndsWith(u, StaticExtensions[i]) == EndsWith(v, StaticExtensions[i]) {
      EndsWithSameSuffix(u, v, StaticExtensions[i], 5);
    }
  }

  lemma EndsWithSameSuffix(u: string, v: string, e: string, n: nat)
    requires |e| <= n <= |u| && n <= |v| && u[|u| - n..] == v[|v| - n..]
    ensures EndsWith(u, e) == EndsWith(v, e)
  {
    assert u[|u| - |e|..] == u[|u| - n..][n - |e|..];
    assert v[|v| - |e|..] == v[|v| - n..][n - |e|..];
  }

  /** `headers[key] || "Not Provided"`. */
  function HeaderValue(headers: Headers, key: string): (v: string)
    ensures v != ""
    ensures HasValue(headers, key) ==> v == headers[key]
    ensures !HasValue(headers, key) ==> v == NotProvided
  {
    if HasValue(headers, key) then headers[key] else NotProvided
  }

  /** A named entry of a pattern table: the regex `/w1|w2|…/i` as its words. */
  datatype NamedPattern = NamedPattern(name: string, words: seq<string>)

  /** The pattern matches the URL or the serialised request headers. */
  predicate PatternHit(p: NamedPattern, url: string, headerText: string) {
    RegexTest(p.words, url) || RegexTest(p.words, headerText)
  }
}
