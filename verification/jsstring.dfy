/** The JavaScript string operations the analysers are built from, stated over
    `seq<char>`: `includes`, `startsWith`, `endsWith`, `indexOf`, `split`,
    `join`, `toLowerCase`, the case-insensitive word-alternation regexes, and
    `parseInt`. */
module JsString {
  import opened Wrappers

  /** `w` occurs in `s` starting at index `i`. */
  predicate OccursAt(s: string, w: string, i: int) {
    0 <= i <= |s| - |w| && s[i..i + |w|] == w
  }

  /** `s.includes(w)`. */
  predicate Contains(s: string, w: string) {
    exists i :: 0 <= i <= |s| - |w| && OccursAt(s, w, i)
  }

  /** `s.startsWith(p)`. */
  predicate StartsWith(s: string, p: string) {
    p <= s
  }

  /** `s.endsWith(p)`. */
  predicate EndsWith(s: string, p: string) {
    |p| <= |s| && s[|s| - |p|..] == p
  }

  /** Occurrences in `s` at index `j >= 1` are occurrences in `s[1..]` at `j - 1`. */
  lemma ShiftOccurrence(s: string, w: string)
    requires |s| > 0
    ensures forall j :: 1 <= j ==> (OccursAt(s, w, j) <==> OccursAt(s[1..], w, j - 1))
  {
    forall j | 1 <= j
      ensures OccursAt(s, w, j) <==> OccursAt(s[1..], w, j - 1)
    {
      if j <= |s| - |w| {
        assert s[1..][j - 1..j - 1 + |w|] == s[j..j + |w|];
      }
    }
  }

  /** `s.indexOf(w)`, with `None` for JavaScript's `-1`. */
  function IndexOf(s: string, w: string): (r: Option<nat>)
    ensures r.Some? ==> OccursAt(s, w, r.value)
    ensures r.Some? ==> forall j :: 0 <= j < r.value ==> !OccursAt(s, w, j)
    ensures r.None? <==> !Contains(s, w)
    decreases |s|
  {
    if w <= s then
      assert OccursAt(s, w, 0) by { assert s[0..|w|] == s[..|w|]; }
      Some(0)
    else if |s| <= |w| then None
    else
      ShiftOccurrence(s, w);
      assert !OccursAt(s, w, 0) by { assert s[0..|w|] == s[..|w|]; }
      match IndexOf(s[1..], w)
      case None => None
      case Some(i) => Some(i + 1)
  }

  /** The first occurrence is what `indexOf` finds. */
  lemma IndexOfFirst(s: string, w: string, i: nat)
    requires OccursAt(s, w, i)
    requires forall j :: 0 <= j < i ==> !OccursAt(s, w, j)
    ensures IndexOf(s, w) == Some(i)
  {
    assert Contains(s, w);
    var r := IndexOf(s, w);
    assert r.value >= i;
    assert r.value <= i;
  }

  /** `words.some(w => s.includes(w))`. */
  function ContainsAny(s: string, words: seq<string>): (b: bool)
    ensures b <==> exists i :: 0 <= i < |words| && Contains(s, words[i])
  {
    if words == [] then false
    else Contains(s, words[0]) || ContainsAny(s, words[1..])
  }

  /** The index of `words.find(w => s.includes(w))`: the first word, in list
      order, that occurs in `s`. */
  function FirstContained(s: string, words: seq<string>): (r: Option<nat>)
    ensures r.Some? ==> r.value < |words| && Contains(s, words[r.value])
    ensures r.Some? ==> forall j :: 0 <= j < r.value ==> !Contains(s, words[j])
    ensures r.None? <==> forall j :: 0 <= j < |words| ==> !Contains(s, words[j])
  {
    if words == [] then None
    else if Contains(s, words[0]) then Some(0)
    else
      match FirstContained(s, words[1..])
      case None => None
      case Some(i) => Some(i + 1)
  }

  /** `s.split(sep)` for a non-empty separator. */
  function Split(s: string, sep: string): (parts: seq<string>)
    requires sep != []
    ensures |parts| >= 1
    ensures |parts| >= 2 <==> Contains(s, sep)
    ensures forall k :: 0 <= k < |parts| ==> !Contains(parts[k], sep)
    decreases |s|
  {
    match IndexOf(s, sep)
    case None => [s]
    case Some(i) =>
      var head := s[..i];
      assert !Contains(head, sep) by {
        forall j | 0 <= j <= |head| - |sep| ensures !OccursAt(head, sep, j) {
          assert OccursAt(head, sep, j) ==> OccursAt(s, sep, j) by {
            if OccursAt(head, sep, j) { assert head[j..j + |sep|] == s[j..j + |sep|]; }
          }
        }
      }
      [head] + Split(s[i + |sep|..], sep)
  }

  /** `parts.join(sep)`. */
  function Join(parts: seq<string>, sep: string): string {
    if parts == [] then ""
    else if |parts| == 1 then parts[0]
    else parts[0] + sep + Join(parts[1..], sep)
  }

  /** A text `d + rest` has no occurrence of `w` when `rest` has none and no
      character of `d` can start one. */
  lemma NoOccurrenceAcross(d: string, rest: string, w: string)
    requires w != [] && forall i :: 0 <= i < |d| ==> d[i] != w[0]
    requires !Contains(rest, w)
    ensures !Contains(d + rest, w)
  {
    forall j | 0 <= j <= |d + rest| - |w| ensures !OccursAt(d + rest, w, j) {
      if j < |d| {
        assert (d + rest)[j] == d[j] != w[0];
        assert (d + rest)[j..j + |w|][0] == (d + rest)[j];
      } else {
        assert (d + rest)[j..j + |w|] == rest[j - |d|..j - |d| + |w|];
        assert !OccursAt(rest, w, j - |d|);
      }
    }
  }

  /** The first piece is a prefix of the text. */
  lemma SplitHeadIsPrefix(s: string, sep: string)
    requires sep != []
    ensures Split(s, sep)[0] <= s
  {
  }

  /** When no character of `d` can start `w`, the first piece of `d + rest`
      is `d` followed by the first piece of `rest`. */
  lemma SplitHeadAfterPrefix(d: string, rest: string, w: string)
    requires w != [] && forall i :: 0 <= i < |d| ==> d[i] != w[0]
    ensures Split(d + rest, w)[0] == d + Split(rest, w)[0]
  {
    var t := d + rest;
    match IndexOf(rest, w)
    case None =>
      NoOccurrenceAcross(d, rest, w);
    case Some(k) =>
      assert OccursAt(t, w, |d| + k) by {
        assert t[|d| + k..|d| + k + |w|] == rest[k..k + |w|];
      }
      NoOccurrenceBefore(d, rest, w, k);
      IndexOfFirst(t, w, |d| + k);
      assert t[..|d| + k] == d + rest[..k];
  }

  /** No occurrence of `w` in `d + rest` starts in `d` or in the first `k`
      characters of `rest` when none starts there in `rest`. */
  lemma NoOccurrenceBefore(d: string, rest: string, w: string, k: nat)
    requires w != [] && forall i :: 0 <= i < |d| ==> d[i] != w[0]
    requires forall j :: 0 <= j < k ==> !OccursAt(rest, w, j)
    ensures forall j :: 0 <= j < |d| + k ==> !OccursAt(d + rest, w, j)
  {
    var t := d + rest;
    forall j | 0 <= j < |d| + k ensures !OccursAt(t, w, j) {
      if j < |d| {
        assert t[j] == d[j] != w[0];
        if j <= |t| - |w| { assert t[j..j + |w|][0] == t[j]; }
      } else if j <= |t| - |w| {
        assert t[j..j + |w|] == rest[j - |d|..j - |d| + |w|];
        assert !OccursAt(rest, w, j - |d|);
      }
    }
  }

  /** When the first occurrence of `w` in `p + w + t` is the one after `p`,
      the second piece is the first piece of `t`. */
  lemma SplitSecondPiece(p: string, w: string, t: string)
    requires w != []
    requires forall j :: 0 <= j < |p| ==> !OccursAt(p + w + t, w, j)
    ensures |Split(p + w + t, w)| >= 2 && Split(p + w + t, w)[1] == Split(t, w)[0]
  {
    var s := p + w + t;
    assert OccursAt(s, w, |p|) by { assert s[|p|..|p| + |w|] == w; }
    IndexOfFirst(s, w, |p|);
    assert s[|p| + |w|..] == t;
  }

  lemma ThreePieces(s: string, i: nat, j: nat)
    requires i <= j <= |s|
    ensures s == s[..i] + s[i..j] + s[j..]
  {
  }

  /** Splitting and re-joining with the same separator gives back the text. */
  lemma {:induction false} JoinSplit(s: string, sep: string)
    requires sep != []
    ensures Join(Split(s, sep), sep) == s
    decreases |s|
  {
    match IndexOf(s, sep)
    case None =>
    case Some(i) =>
      var rest := s[i + |sep|..];
      JoinSplit(rest, sep);
      assert Split(s, sep) == [s[..i]] + Split(rest, sep);
      JoinCons(s[..i], Split(rest, sep), sep);
      assert s[i..i + |sep|] == sep;
      ThreePieces(s, i, i + |sep|);
  }

  lemma JoinCons(head: string, tail: seq<string>, sep: string)
    requires tail != []
    ensures Join([head] + tail, sep) == head + sep + Join(tail, sep)
  {
    assert ([head] + tail)[1..] == tail;
  }

  /** The KELVIN SIGN, the one character outside ASCII whose `toLowerCase` is a
      single ASCII letter. */
  const KelvinSign: char := '\U{212A}'

  predicate IsAsciiUpper(c: char) {
    'A' <= c <= 'Z'
  }

  function AsciiLower(c: char): (r: char)
    ensures IsAsciiUpper(c) ==> r as int == c as int + 32
    ensures !IsAsciiUpper(c) ==> r == c
  {
    if IsAsciiUpper(c) then (c as int + 32) as char else c
  }

  /** `s.toLowerCase()` restricted to the mappings that can produce ASCII
      letters of a single character. */
  function ToLowerCase(s: string): (r: string)
    ensures |r| == |s|
    ensures forall i :: 0 <= i < |s| ==> !IsAsciiUpper(r[i]) && r[i] != KelvinSign
    ensures forall i :: 0 <= i < |s| && !IsAsciiUpper(s[i]) && s[i] != KelvinSign ==> r[i] == s[i]
  {
    seq(|s|, i requires 0 <= i < |s| => if s[i] == KelvinSign then 'k' else AsciiLower(s[i]))
  }

  /** Lower-casing twice is lower-casing once. */
  lemma ToLowerCaseIdempotent(s: string)
    ensures ToLowerCase(ToLowerCase(s)) == ToLowerCase(s)
  {
    var r := ToLowerCase(s);
    assert forall i :: 0 <= i < |r| ==> ToLowerCase(r)[i] == r[i];
  }

  /** Texts that differ only in the case of ASCII letters lower-case alike. */
  lemma ToLowerCaseIgnoresCase(s: string, t: string)
    requires FoldCase(s) == FoldCase(t)
    ensures ToLowerCase(s) == ToLowerCase(t)
  {
    forall i | 0 <= i < |s| ensures ToLowerCase(s)[i] == ToLowerCase(t)[i] {
      assert AsciiLower(s[i]) == FoldCase(s)[i] == FoldCase(t)[i] == AsciiLower(t[i]);
    }
  }

  /** The canonical form a non-Unicode `/…/i` regex compares characters in:
      only ASCII letters are folded. */
  function FoldCase(s: string): string {
    seq(|s|, i requires 0 <= i < |s| => AsciiLower(s[i]))
  }

  /** `w` matches `text` at `j` when ASCII letters are compared without case. */
  predicate MatchesIgnoringCase(text: string, w: string, j: int) {
    0 <= j <= |text| - |w| && forall k :: 0 <= k < |w| ==> AsciiLower(text[j + k]) == w[k]
  }

  /** `/w1|w2|…/i.test(text)` for lower-case ASCII words `w1, w2, …`: some
      alternative matches somewhere, letters compared without case. */
  function RegexTest(words: seq<string>, text: string): (b: bool)
    ensures b <==> exists i, j :: 0 <= i < |words| && MatchesIgnoringCase(text, words[i], j)
  {
    forall i | 0 <= i < |words| ensures Contains(FoldCase(text), words[i]) <==> exists j :: MatchesIgnoringCase(text, words[i], j) {
      FoldedContains(text, words[i]);
    }
    ContainsAny(FoldCase(text), words)
  }

  /** An occurrence in the folded text is a case-blind match in the text. */
  lemma FoldedContains(text: string, w: string)
    ensures Contains(FoldCase(text), w) <==> exists j :: MatchesIgnoringCase(text, w, j)
  {
    var f := FoldCase(text);
    forall j | 0 <= j <= |text| - |w| ensures OccursAt(f, w, j) <==> MatchesIgnoringCase(text, w, j) {
      var piece := f[j..j + |w|];
      assert forall k :: 0 <= k < |w| ==> piece[k] == AsciiLower(text[j + k]);
    }
    if Contains(f, w) {
      var j :| 0 <= j <= |f| - |w| && OccursAt(f, w, j);
      assert MatchesIgnoringCase(text, w, j);
    }
  }

  // ---------------------------------------------------------------- parseInt

  /** The radix argument of `parseInt`: omitted, or 10. */
  datatype Radix = Unspecified | Decimal

  /** ECMAScript white space and line terminators, which `parseInt` skips. */
  predicate IsWhiteSpace(c: char) {
    || c in {'\t', '\n', '\U{B}', '\U{C}', '\r', ' ', '\U{A0}', '\U{1680}'}
    || c in {'\U{2028}', '\U{2029}', '\U{202F}', '\U{205F}', '\U{3000}', '\U{FEFF}'}
    || '\U{2000}' <= c <= '\U{200A}'
  }

  /** The value of `c` as a digit in radix 36, if it is one. */
  function DigitValue(c: char): Option<nat> {
    if '0' <= c <= '9' then Some(c as int - '0' as int)
    else if 'a' <= c <= 'z' then Some(c as int - 'a' as int + 10)
    else if 'A' <= c <= 'Z' then Some(c as int - 'A' as int + 10)
    else None
  }

  predicate IsDigit(c: char, radix: nat) {
    DigitValue(c).Some? && DigitValue(c).value < radix
  }

  predicate AllDigits(z: string, radix: nat) {
    forall i :: 0 <= i < |z| ==> IsDigit(z[i], radix)
  }

  /** `s` without its leading white space. */
  function TrimStart(s: string): (r: string)
    ensures |r| <= |s| && r == s[|s| - |r|..]
    ensures forall i :: 0 <= i < |s| - |r| ==> IsWhiteSpace(s[i])
    ensures r == [] || !IsWhiteSpace(r[0])
  {
    if s != [] && IsWhiteSpace(s[0]) then TrimStart(s[1..]) else s
  }

  /** The longest prefix of `s` made of digits of the radix. */
  function LeadingDigits(s: string, radix: nat): (z: string)
    ensures z <= s
    ensures AllDigits(z, radix)
    ensures |z| < |s| ==> !IsDigit(s[|z|], radix)
  {
    if s != [] && IsDigit(s[0], radix) then [s[0]] + LeadingDigits(s[1..], radix) else []
  }

  /** The number a digit string denotes, most significant digit first. */
  function DigitsValue(z: string, radix: nat): nat
    requires AllDigits(z, radix)
  {
    if z == [] then 0
    else DigitsValue(z[..|z| - 1], radix) * radix + DigitValue(z[|z| - 1]).value
  }

  /** The digits part of `parseInt`, after white space and sign: an omitted
      radix lets a `0x` prefix select base 16; then the longest run of digits
      is read, and no digits at all is NaN. */
  function ParseUnsigned(u: string, radix: Radix): (r: Option<int>)
    ensures u == [] ==> r.None?
    ensures r.Some? ==> r.value >= 0
    ensures radix == Decimal && u != [] && IsDigit(u[0], 10) ==> r.Some?
  {
    var hex := radix == Unspecified && |u| >= 2 && u[0] == '0' && (u[1] == 'x' || u[1] == 'X');
    var base := if hex then 16 else 10;
    var digits := LeadingDigits(if hex then u[2..] else u, base);
    if digits == [] then None else Some(DigitsValue(digits, base))
  }

  /** `parseInt(s)` or `parseInt(s, 10)`; `None` is NaN. */
  function ParseInt(s: string, radix: Radix): (r: Option<int>)
    ensures TrimStart(s) == [] ==> r.None?
    ensures r.Some? && r.value < 0 ==> TrimStart(s)[0] == '-'
    ensures radix == Decimal && TrimStart(s) != [] && IsDigit(TrimStart(s)[0], 10) ==> r.Some? && r.value >= 0
  {
    ParseSigned(TrimStart(s), radix)
  }

  /** `parseInt` after the leading white space: an optional sign, then digits. */
  function ParseSigned(t: string, radix: Radix): Option<int> {
    if t != [] && t[0] == '-' then
      match ParseUnsigned(t[1..], radix)
      case None => None
      case Some(v) => Some(-v)
    else if t != [] && t[0] == '+' then ParseUnsigned(t[1..], radix)
    else ParseUnsigned(t, radix)
  }

  /** Leading white space never changes what `parseInt` reads. */
  lemma ParseIntSkipsWhiteSpace(ws: string, s: string, radix: Radix)
    requires forall i :: 0 <= i < |ws| ==> IsWhiteSpace(ws[i])
    ensures ParseInt(ws + s, radix) == ParseInt(s, radix)
  {
    TrimStartSkips(ws, s);
  }

  lemma {:induction false} TrimStartSkips(ws: string, s: string)
    requires forall i :: 0 <= i < |ws| ==> IsWhiteSpace(ws[i])
    ensures TrimStart(ws + s) == TrimStart(s)
  {
    if ws != [] {
      assert (ws + s)[0] == ws[0];
      assert (ws + s)[1..] == ws[1..] + s;
      assert TrimStart(ws + s) == TrimStart((ws + s)[1..]);
      TrimStartSkips(ws[1..], s);
    } else {
      assert ws + s == s;
    }
  }

  /** The decimal numeral of `n`, without leading zeros. */
  function DecimalString(n: nat): (s: string)
    ensures |s| >= 1 && AllDigits(s, 10)
    ensures n > 0 ==> s[0] != '0'
  {
    if n < 10 then [('0' as int + n) as char]
    else DecimalString(n / 10) + [('0' as int + n % 10) as char]
  }

  lemma {:induction false} DecimalStringValue(n: nat)
    ensures DigitsValue(DecimalString(n), 10) == n
  {
    var s := DecimalString(n);
    if n >= 10 {
      assert s[..|s| - 1] == DecimalString(n / 10);
      DecimalStringValue(n / 10);
    }
  }

  lemma {:induction false} LeadingDigitsOfPrefix(z: string, rest: string, radix: nat)
    requires AllDigits(z, radix)
    requires rest == [] || !IsDigit(rest[0], radix)
    ensures LeadingDigits(z + rest, radix) == z
    decreases |z|
  {
    if z != [] {
      assert (z + rest)[1..] == z[1..] + rest;
      LeadingDigitsOfPrefix(z[1..], rest, radix);
    }
  }

  lemma DecimalDigit(c: char)
    requires IsDigit(c, 10)
    ensures '0' <= c <= '9' && !IsWhiteSpace(c)
  {
  }

  /** `parseInt` reads back a decimal numeral followed by anything that does
      not start with a digit. With an omitted radix a `0` followed by `x` or `X`
      is excluded, since `"0x…"` is read as hexadecimal. */
  lemma ParseDecimalString(n: nat, rest: string, radix: Radix)
    requires rest == [] || !IsDigit(rest[0], 10)
    requires radix == Decimal || n > 0 || rest == [] || (rest[0] != 'x' && rest[0] != 'X')
    ensures ParseInt(DecimalString(n) + rest, radix) == Some(n)
  {
    var s := DecimalString(n) + rest;
    assert s[0] == DecimalString(n)[0];
    DecimalDigit(s[0]);
    assert TrimStart(s) == s;
    assert s[0] != '-' && s[0] != '+';
    ParseUnsignedDecimal(n, rest, radix);
  }

  /** The digits part of `parseInt` reads back a decimal numeral. */
  lemma ParseUnsignedDecimal(n: nat, rest: string, radix: Radix)
    requires rest == [] || !IsDigit(rest[0], 10)
    requires radix == Decimal || n > 0 || rest == [] || (rest[0] != 'x' && rest[0] != 'X')
    ensures ParseUnsigned(DecimalString(n) + rest, radix) == Some(n)
  {
    var d := DecimalString(n);
    var s := d + rest;
    assert s[0] == d[0];
    assert !(|s| >= 2 && s[0] == '0' && (s[1] == 'x' || s[1] == 'X') && radix == Unspecified);
    LeadingDigitsOfPrefix(d, rest, 10);
    DecimalStringValue(n);
  }

  /** Text that starts with neither white space, a sign nor a decimal digit
      (such as `"Not Provided"`) parses to NaN. */
  lemma ParseNonNumeric(s: string, radix: Radix)
    requires s != [] && !IsWhiteSpace(s[0]) && s[0] != '-' && s[0] != '+' && !IsDigit(s[0], 10)
    ensures ParseInt(s, radix) == None
  {
    assert TrimStart(s) == s;
  }
}
