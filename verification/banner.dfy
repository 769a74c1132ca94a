/** The content script's keystroke buffer and warning banner: what is typed is
    mirrored in a buffer, some keys send the buffer to a sensitivity scorer,
    and a high score shows a red warning box with a Clear button. */
module SensitivityBanner {
  import opened Wrappers

  /** Scores strictly above this show the warning box. */
  const SensitivityThreshold: real := 50.0

  const WarningPrefix: string := "Warning: "

  /** The page state the script controls: the buffer, and the display and
      text of the red box and of the Clear button. */
  datatype State = State(fullText: string, boxVisible: bool, boxText: string, clearVisible: bool)

  /** The scorer's parsed reply. `None` stands for a missing or falsy field;
      truthy values that are not numbers or strings are not modelled. */
  datatype Reply = Reply(sensitivityScore: Option<real>, notification: Option<string>)

  /** The result `analyzeSensitivity` hands on once defaults are applied. */
  datatype Sensitivity = Sensitivity(score: real, notification: string)

  /** The scorer: `None` when the request or the parsing of its reply fails. */
  type Scorer = string -> Option<Reply>

  /** Both elements hidden, the buffer taken from the search box if the page
      has one. */
  function Initial(searchBox: Option<string>): (s: State)
    ensures !s.boxVisible && !s.clearVisible
    ensures s.fullText == searchBox.GetOr("")
  {
    State(searchBox.GetOr(""), false, "", false)
  }

  /** Defaults of `analyzeSensitivity`: a falsy score reads 0 and a falsy
      notification reads as the empty string. */
  function Defaults(reply: Reply): (r: Sensitivity)
    ensures reply.sensitivityScore.None? ==> r.score == 0.0
    ensures reply.sensitivityScore.Some? ==> r.score == reply.sensitivityScore.value
    ensures reply.notification.None? ==> r.notification == ""
    ensures reply.notification.Some? ==> r.notification == reply.notification.value
  {
    Sensitivity(reply.sensitivityScore.GetOr(0.0), reply.notification.GetOr(""))
  }

  /** `showRedBox`: above the threshold both elements are shown with the
      prefixed notification; otherwise both are hidden and the old text is
      left in place. */
  function ShowRedBox(s: State, score: real, notification: string): (r: State)
    ensures r.fullText == s.fullText
    ensures r.boxVisible <==> score > SensitivityThreshold
    ensures r.clearVisible == r.boxVisible
    ensures r.boxVisible ==> r.boxText == WarningPrefix + notification
    ensures !r.boxVisible ==> r.boxText == s.boxText
  {
    if score > SensitivityThreshold then s.(boxVisible := true, boxText := WarningPrefix + notification, clearVisible := true)
    else s.(boxVisible := false, clearVisible := false)
  }

  /** `fullText.slice(0, -1)`. */
  function DropLast(t: string): (r: string)
    ensures t == [] ==> r == []
    ensures t != [] ==> r + [t[|t| - 1]] == t
  {
    if t == [] then [] else t[..|t| - 1]
  }

  /** The keys after which the buffer is scored. */
  predicate IsTriggerKey(key: string) {
    key == " " || key in [".", "?", ";", "!"]
  }

  /** The synchronous half of the keydown handler: the buffer edit. */
  function EditBuffer(s: State, key: string): (r: State)
    ensures key == "Backspace" ==> r == s.(fullText := DropLast(s.fullText), boxVisible := false, clearVisible := false)
    ensures key != "Backspace" && |key| == 1 ==> r == s.(fullText := s.fullText + key)
    ensures key != "Backspace" && |key| != 1 ==> r == s
  {
    if key == "Backspace" then s.(fullText := DropLast(s.fullText), boxVisible := false, clearVisible := false)
    else if |key| == 1 then s.(fullText := s.fullText + key)
    else s
  }

  /** The keydown handler, with the awaited scoring taken to finish before the
      next event. */
  function Keydown(s: State, key: string, scorer: Scorer): (r: State)
    ensures r.fullText == EditBuffer(s, key).fullText
    ensures !IsTriggerKey(key) ==> r == EditBuffer(s, key)
    ensures IsTriggerKey(key) && scorer(s.fullText + key).None? ==> r == s.(fullText := s.fullText + key)
  {
    var edited := EditBuffer(s, key);
    if IsTriggerKey(key) then
      match scorer(edited.fullText)
      case None => edited
      case Some(reply) =>
        var result := Defaults(reply);
        ShowRedBox(edited, result.score, result.notification)
    else edited
  }

  /** The Clear button: empty buffer, both elements hidden. */
  function Clear(s: State): (r: State)
    ensures r.fullText == [] && !r.boxVisible && !r.clearVisible
    ensures r.boxText == s.boxText
  {
    s.(fullText := [], boxVisible := false, clearVisible := false)
  }

  /** What the script reacts to. The Clear button and the search box's input
      listener exist only when the page had a search box at load time. */
  datatype Event = Key(key: string) | ClearClick | Input(value: string)

  function Step(s: State, e: Event, hasSearchBox: bool, scorer: Scorer): State {
    match e
    case Key(key) => Keydown(s, key, scorer)
    case ClearClick => if hasSearchBox then Clear(s) else s
    case Input(value) => if hasSearchBox then s.(fullText := value) else s
  }

  function Run(s: State, events: seq<Event>, hasSearchBox: bool, scorer: Scorer): State
    decreases |events|
  {
    if events == [] then s else Run(Step(s, events[0], hasSearchBox, scorer), events[1..], hasSearchBox, scorer)
  }

  // ---------------------------------------------------------------- lemmas

  /** The Clear button is shown exactly when the red box is, and a shown box
      always carries a warning. */
  predicate Consistent(s: State) {
    s.boxVisible == s.clearVisible && (s.boxVisible ==> WarningPrefix <= s.boxText)
  }

  lemma StepKeepsConsistent(s: State, e: Event, hasSearchBox: bool, scorer: Scorer)
    requires Consistent(s)
    ensures Consistent(Step(s, e, hasSearchBox, scorer))
  {
  }

  /** Every run of events from a consistent state ends in a consistent state. */
  lemma {:induction false} RunKeepsConsistent(s: State, events: seq<Event>, hasSearchBox: bool, scorer: Scorer)
    requires Consistent(s)
    ensures Consistent(Run(s, events, hasSearchBox, scorer))
    decreases |events|
  {
    if events != [] {
      StepKeepsConsistent(s, events[0], hasSearchBox, scorer);
      RunKeepsConsistent(Step(s, events[0], hasSearchBox, scorer), events[1..], hasSearchBox, scorer);
    }
  }

  /** Keys other than the five triggers never consult the scorer. */
  lemma ScorerOnlyOnTriggers(s: State, key: string, f: Scorer, g: Scorer)
    requires !IsTriggerKey(key)
    ensures Keydown(s, key, f) == Keydown(s, key, g)
  {
  }

  /** A trigger key scores the buffer with the key already appended: scorers
      that agree on that text give the same state. */
  lemma ScoresUpdatedBuffer(s: State, key: string, f: Scorer, g: Scorer)
    requires IsTriggerKey(key)
    requires f(s.fullText + key) == g(s.fullText + key)
    ensures Keydown(s, key, f) == Keydown(s, key, g)
  {
  }

  /** After a trigger key with a reply, the banner is shown exactly when the
      score, with its default, exceeds 50; a reply without a score hides it. */
  lemma TriggerShowsBannerIff(s: State, key: string, scorer: Scorer)
    requires IsTriggerKey(key) && scorer(s.fullText + key).Some?
    ensures var reply := scorer(s.fullText + key).value;
            var r := Keydown(s, key, scorer);
            && (r.boxVisible <==> reply.sensitivityScore.Some? && reply.sensitivityScore.value > 50.0)
            && r.clearVisible == r.boxVisible
            && (r.boxVisible ==> r.boxText == "Warning: " + reply.notification.GetOr(""))
  {
  }

  /** A failed scoring leaves the banner, its text and the Clear button as
      they were. */
  lemma FailedScoringKeepsBanner(s: State, key: string, scorer: Scorer)
    requires IsTriggerKey(key) && scorer(s.fullText + key).None?
    ensures var r := Keydown(s, key, scorer);
            r.boxVisible == s.boxVisible && r.boxText == s.boxText && r.clearVisible == s.clearVisible
  {
  }

  /** One key event per key name. */
  function Keys(keys: seq<string>): (es: seq<Event>)
    ensures |es| == |keys|
  {
    if keys == [] then [] else [Key(keys[0])] + Keys(keys[1..])
  }

  /** `n` presses of Backspace. */
  function Backspaces(n: nat): (es: seq<Event>)
    ensures |es| == n
  {
    if n == 0 then [] else [Key("Backspace")] + Backspaces(n - 1)
  }

  /** The keys' characters, in order. */
  function Typed(keys: seq<string>): string {
    if keys == [] then [] else keys[0] + Typed(keys[1..])
  }

  lemma AppendAssoc(a: string, b: string, c: string)
    ensures (a + b) + c == a + (b + c)
  {
  }

  lemma PrefixOfPrefix(t: string, k: nat, m: nat)
    requires m <= k <= |t|
    ensures t[..k][..m] == t[..m]
  {
  }

  /** A single-character key is appended to the buffer. */
  lemma KeyAppends(s: State, key: string, hasSearchBox: bool, scorer: Scorer)
    requires |key| == 1
    ensures Step(s, Key(key), hasSearchBox, scorer).fullText == s.fullText + key
  {
    assert key != "Backspace";
  }

  /** Single-character keys are appended to the buffer one after another,
      whatever the scorer replies in between. */
  lemma {:induction false} TypingAppends(s: State, keys: seq<string>, hasSearchBox: bool, scorer: Scorer)
    requires forall i :: 0 <= i < |keys| ==> |keys[i]| == 1
    ensures Run(s, Keys(keys), hasSearchBox, scorer).fullText == s.fullText + Typed(keys)
    ensures |Typed(keys)| == |keys|
    decreases |keys|
  {
    if keys != [] {
      var next := Step(s, Key(keys[0]), hasSearchBox, scorer);
      KeyAppends(s, keys[0], hasSearchBox, scorer);
      var rest := keys[1..];
      assert Keys(keys)[1..] == Keys(rest);
      TypingAppends(next, rest, hasSearchBox, scorer);
      AppendAssoc(s.fullText, keys[0], Typed(rest));
    }
  }

  /** `n` Backspaces remove the last `n` characters and, when `n > 0`, leave
      the banner and the Clear button hidden. */
  lemma {:induction false} BackspacesDropSuffix(s: State, n: nat, hasSearchBox: bool, scorer: Scorer)
    requires n <= |s.fullText|
    ensures var r := Run(s, Backspaces(n), hasSearchBox, scorer);
            r.fullText == s.fullText[..|s.fullText| - n] && (n > 0 ==> !r.boxVisible && !r.clearVisible)
    decreases n
  {
    if n > 0 {
      var next := Step(s, Key("Backspace"), hasSearchBox, scorer);
      assert next.fullText == s.fullText[..|s.fullText| - 1];
      assert Backspaces(n)[0] == Key("Backspace") && Backspaces(n)[1..] == Backspaces(n - 1);
      BackspacesDropSuffix(next, n - 1, hasSearchBox, scorer);
      PrefixOfPrefix(s.fullText, |s.fullText| - 1, |s.fullText| - n);
    }
  }

  /** Typing single-character keys and pressing Backspace as often restores
      the buffer, and leaves the banner hidden if anything was typed. */
  lemma BackspaceUndoesTyping(s: State, keys: seq<string>, hasSearchBox: bool, scorer: Scorer)
    requires forall i :: 0 <= i < |keys| ==> |keys[i]| == 1
    ensures var typed := Run(s, Keys(keys), hasSearchBox, scorer);
            var erased := Run(typed, Backspaces(|keys|), hasSearchBox, scorer);
            erased.fullText == s.fullText && (|keys| > 0 ==> !erased.boxVisible && !erased.clearVisible)
  {
    var typed := Run(s, Keys(keys), hasSearchBox, scorer);
    TypingAppends(s, keys, hasSearchBox, scorer);
    BackspacesDropSuffix(typed, |keys|, hasSearchBox, scorer);
    assert (s.fullText + Typed(keys))[..|s.fullText|] == s.fullText;
  }
}
