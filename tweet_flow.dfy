/**
 * The feed side of content.js on Twitter/X: the scan that gives each tweet
 * one translate button (`addTranslateButtons`), and what a click on that
 * button does (`performTranslation`), including the panel's refresh action.
 */
module TweetFlow {
  import opened Wrappers
  import opened JsStrings
  import opened Translation

  /** The button's label as the scan creates it ("translate"). */
  const ButtonLabel := "ترجمه"
  /** The button's label while a translation is in progress ("translating..."). */
  const BusyLabel := "در حال ترجمه..."
  /** The label a button gets back after a failed translation ("translate tweet"). */
  const RetryLabel := "ترجمه توییت"
  /** The alert shown when a translation fails ("translation error."). */
  const FailureAlert := "خطا در ترجمه."
  /** The panel text while a refresh is in progress ("translating again..."). */
  const RefreshingText := "...در حال ترجمه مجدد"
  /** The panel text after a failed refresh ("re-translation error, please try again."). */
  const RefreshFailedText := "خطا در بازترجمه. لطفاً دوباره تلاش کنید."

  // ---------------------------------------------------------------------
  // Which page, which elements

  /** `isTwitterSite()`, given `window.location.hostname`. */
  predicate IsTwitterSite(hostname: string) {
    hostname == "twitter.com" || hostname == "x.com"
  }

  function AsciiLower(s: string): (r: string)
    ensures |r| == |s|
  {
    if s == [] then []
    else [if 'A' <= s[0] <= 'Z' then (s[0] as int + 32) as char else s[0]] + AsciiLower(s[1..])
  }

  /**
   * An element of the page as the scan sees it: whether it is a `div` with
   * `dir="auto"` inside an `article`, its `lang` attribute, its
   * `data-button-added` attribute (`dataset.buttonAdded`) and how many
   * translate buttons have been appended to it.
   */
  datatype FeedNode = FeedNode(autoDirDivInArticle: bool, lang: Option<string>, buttonAdded: Option<string>, buttons: nat)

  /**
   * Matched by `article div[dir="auto"]:not([lang="fa"])`. HTML compares the
   * values of the `lang` and `dir` attributes in selectors ASCII
   * case-insensitively.
   */
  predicate Selected(n: FeedNode) {
    n.autoDirDivInArticle && !(n.lang.Some? && AsciiLower(n.lang.value) == "fa")
  }

  /** One turn of the scan's loop: a selected element without the marker gets it and one button. */
  function Visit(n: FeedNode): (r: FeedNode)
    ensures r.autoDirDivInArticle == n.autoDirDivInArticle && r.lang == n.lang
    ensures Selected(n) ==> Truthy(r.buttonAdded)
    ensures r.buttons == n.buttons || (Selected(n) && !Truthy(n.buttonAdded) && r.buttons == n.buttons + 1)
  {
    if Selected(n) && !Truthy(n.buttonAdded) then n.(buttonAdded := Some("true"), buttons := n.buttons + 1)
    else n
  }

  function VisitAll(nodes: seq<FeedNode>): seq<FeedNode> {
    if nodes == [] then [] else [Visit(nodes[0])] + VisitAll(nodes[1..])
  }

  /** The page's elements after `addTranslateButtons()` on `hostname`. */
  function Scanned(hostname: string, nodes: seq<FeedNode>): seq<FeedNode> {
    if IsTwitterSite(hostname) then VisitAll(nodes) else nodes
  }

  /**
   * `addTranslateButtons()`: on Twitter/X, every selected element not yet
   * marked is marked and gets a button. The array is the page's elements in
   * document order; the selector is applied as the loop goes.
   */
  method AddTranslateButtons(hostname: string, nodes: array<FeedNode>)
    modifies nodes
    ensures nodes[..] == Scanned(hostname, old(nodes[..]))
  {
    if !IsTwitterSite(hostname) {
      return;
    }
    var i := 0;
    while i < nodes.Length
      invariant 0 <= i <= nodes.Length
      invariant forall k :: 0 <= k < i ==> nodes[k] == Visit(old(nodes[k]))
      invariant forall k :: i <= k < nodes.Length ==> nodes[k] == old(nodes[k])
    {
      var tweet := nodes[i];
      if Selected(tweet) && !Truthy(tweet.buttonAdded) {
        nodes[i] := tweet.(buttonAdded := Some("true"), buttons := tweet.buttons + 1);
      }
      i := i + 1;
    }
    ghost var before := old(nodes[..]);
    if nodes.Length > 0 {
      VisitAllAt(before, 0);
    }
    forall k | 0 <= k < nodes.Length ensures nodes[..][k] == VisitAll(before)[k] {
      VisitAllAt(before, k);
    }
  }

  lemma {:induction false} VisitAllAt(nodes: seq<FeedNode>, k: nat)
    requires k < |nodes|
    ensures |VisitAll(nodes)| == |nodes| && VisitAll(nodes)[k] == Visit(nodes[k])
    decreases |nodes|
  {
    if k > 0 {
      VisitAllAt(nodes[1..], k - 1);
    } else if |nodes| > 1 {
      VisitAllAt(nodes[1..], 0);
    }
  }

  /**
   * What the scan does to each element: off Twitter/X nothing; on it, a
   * selected element ends up marked, gaining one button exactly when it was
   * unmarked, and no other element changes.
   */
  lemma ScanEffect(hostname: string, nodes: seq<FeedNode>, k: nat)
    requires k < |nodes|
    ensures var after := Scanned(hostname, nodes);
      && |after| == |nodes|
      && (!IsTwitterSite(hostname) ==> after[k] == nodes[k])
      && (IsTwitterSite(hostname) && Selected(nodes[k]) ==> Truthy(after[k].buttonAdded))
      && after[k].buttons == nodes[k].buttons + (if IsTwitterSite(hostname) && Selected(nodes[k]) && !Truthy(nodes[k].buttonAdded) then 1 else 0)
      && (after[k] == nodes[k] || after[k] == nodes[k].(buttonAdded := Some("true"), buttons := nodes[k].buttons + 1))
  {
    VisitAllAt(nodes, k);
  }

  /** Scanning twice is scanning once. */
  lemma {:induction false} ScanIdempotent(hostname: string, nodes: seq<FeedNode>)
    ensures Scanned(hostname, Scanned(hostname, nodes)) == Scanned(hostname, nodes)
  {
    if IsTwitterSite(hostname) {
      VisitAllIdempotent(nodes);
    }
  }

  lemma {:induction false} VisitAllIdempotent(nodes: seq<FeedNode>)
    ensures VisitAll(VisitAll(nodes)) == VisitAll(nodes)
    decreases |nodes|
  {
    if nodes != [] {
      VisitAllIdempotent(nodes[1..]);
      assert VisitAll(nodes)[1..] == VisitAll(nodes[1..]);
    }
  }

  /** All the buttons on the elements. */
  function TotalButtons(nodes: seq<FeedNode>): nat {
    if nodes == [] then 0 else nodes[0].buttons + TotalButtons(nodes[1..])
  }

  /** How many elements are selected and not yet marked. */
  function Unmarked(nodes: seq<FeedNode>): nat {
    if nodes == [] then 0
    else (if Selected(nodes[0]) && !Truthy(nodes[0].buttonAdded) then 1 else 0) + Unmarked(nodes[1..])
  }

  /** A scan on Twitter/X adds exactly one button per selected unmarked element, and none elsewhere. */
  lemma {:induction false} ScanButtonCount(hostname: string, nodes: seq<FeedNode>)
    ensures TotalButtons(Scanned(hostname, nodes)) == TotalButtons(nodes) + (if IsTwitterSite(hostname) then Unmarked(nodes) else 0)
  {
    if IsTwitterSite(hostname) {
      VisitAllButtonCount(nodes);
    }
  }

  lemma {:induction false} VisitAllButtonCount(nodes: seq<FeedNode>)
    ensures TotalButtons(VisitAll(nodes)) == TotalButtons(nodes) + Unmarked(nodes)
    decreases |nodes|
  {
    if nodes != [] {
      VisitAllButtonCount(nodes[1..]);
      assert VisitAll(nodes)[1..] == VisitAll(nodes[1..]);
    }
  }

  /** After a scan nothing is left unmarked, so a second scan adds no button. */
  lemma SecondScanAddsNothing(hostname: string, nodes: seq<FeedNode>)
    ensures var once := Scanned(hostname, nodes);
      TotalButtons(Scanned(hostname, once)) == TotalButtons(once)
  {
    ScanIdempotent(hostname, nodes);
  }

  // ---------------------------------------------------------------------
  // Translating one tweet

  /** `textContent.replace(/\s+/g, ' ').trim()`, the text that is translated and the cache key. */
  function CleanText(textContent: string): string
  {
    Trim(CollapseSpaces(textContent))
  }

  /**
   * The cleaned text has no whitespace at either end, only single plain
   * spaces inside, and the same non-whitespace characters as the tweet.
   */
  lemma CleanTextShape(textContent: string)
    ensures var r := CleanText(textContent);
      && (r == [] || (!IsSpace(r[0]) && !IsSpace(r[|r| - 1])))
      && Collapsed(r)
      && NonSpace(r) == NonSpace(textContent)
  {
    var collapsed := CollapseSpaces(textContent);
    CollapseIsCollapsed(textContent);
    assert CleanText(textContent) == Trim(collapsed);
    TrimCollapsed(collapsed);
    CollapseKeepsText(textContent);
    TrimKeepsText(collapsed);
  }

  /**
   * Words stay apart: cleaning text, a run of whitespace and more text gives
   * the two cleaned pieces joined by exactly one space.
   */
  lemma CleanTextJoinsWords(a: string, w: string, b: string)
    requires w != [] && forall i :: 0 <= i < |w| ==> IsSpace(w[i])
    requires a != [] && !IsSpace(a[|a| - 1])
    requires b != [] && !IsSpace(b[0])
    ensures CleanText(a + w + b) == CleanText(a) + " " + CleanText(b)
  {
    var x, y := CollapseSpaces(a), CollapseSpaces(b);
    var front := TrimStart(x);
    assert x != [] && !IsSpace(x[|x| - 1]) && y != [] && !IsSpace(y[0]) by {
      CollapseKeepsLast(a);
    }
    assert CleanText(a) == front by {
      TrimStartKeepsLast(x);
      TrimEndOfText(front);
    }
    assert CleanText(b) == TrimEnd(y) by {
      TrimStartOfTextStart(y);
    }
    assert TrimStart(x + " " + y) == front + " " + y by {
      TrimStartAppend(x, " " + y);
      Regroup(x, " ", y);
      Regroup(front, " ", y);
    }
    assert TrimEnd(front + " " + y) == front + " " + TrimEnd(y) by {
      TrimEndAppend(front + " ", y);
    }
    CollapseRun(a, w, b);
  }

  /** Cleaning clean text changes nothing. */
  lemma CleanTextIdempotent(textContent: string)
    ensures CleanText(CleanText(textContent)) == CleanText(textContent)
  {
    CleanTextShape(textContent);
    var r := CleanText(textContent);
    CollapseFixed(r);
    assert TrimStart(r) == r;
    assert TrimEnd(r) == r;
  }

  /**
   * The two `translateText` calls of `performTranslation`: the second, with
   * the responses the first left over, only when the first returned null.
   */
  function TranslateTwice(cache: map<string, string>, text: string, settings: Settings, script: seq<Response>): (r: Run)
    ensures r.consumed <= |script|
  {
    var first := TranslateRun(cache, text, settings, script);
    if first.call.Returned? && !Truthy(first.call.value) then
      var second := TranslateRun(first.cache, text, settings, script[first.consumed..]);
      Run(second.call, second.cache, first.effects + second.effects, first.consumed + second.consumed)
    else first
  }

  /**
   * A first call that returns null leaves the cache as it was and the text not
   * in it, so the second call is a miss that reads the settings again.
   */
  lemma SecondAttemptMisses(cache: map<string, string>, text: string, settings: Settings, script: seq<Response>)
    requires TranslateRun(cache, text, settings, script).call == Returned(None)
    ensures var first := TranslateRun(cache, text, settings, script);
      var second := TranslateRun(first.cache, text, settings, script[first.consumed..]);
      && first.cache == cache && text !in cache
      && second.effects != [] && second.effects[0] == ReadSettings
  {
    CacheUpdate(cache, text, settings, script);
  }

  /**
   * A translation the flow shows is never empty and is cached under the
   * text; a failed flow leaves the cache as it was.
   */
  lemma TranslateTwiceOutcome(cache: map<string, string>, text: string, settings: Settings, script: seq<Response>)
    requires forall k | k in cache :: cache[k] != ""
    ensures var r := TranslateTwice(cache, text, settings, script);
      && (Succeeded(r) ==> r.call.value.value != "" && text in r.cache && r.cache[text] == r.call.value.value)
      && (r.call == Returned(None) ==> r.cache == cache)
  {
    var first := TranslateRun(cache, text, settings, script);
    CacheUpdate(cache, text, settings, script);
    ReturnedIsTruthy(cache, text, settings, script);
    if first.call.Returned? && !Truthy(first.call.value) {
      CacheUpdate(first.cache, text, settings, script[first.consumed..]);
    }
  }

  /**
   * A refresh deletes the entry and translates again: with a key it always
   * goes to the network; on success the entry holds the new translation, and
   * otherwise the entry is gone.
   */
  lemma RefreshOutcome(cache: map<string, string>, text: string, settings: Settings, script: seq<Response>)
    requires Truthy(settings.apiKey)
    ensures var r := TranslateRun(cache - {text}, text, settings, script);
      && r.effects[..2] == [ReadSettings, Post(RenderPromptAsWritten(settings.translationPrompt, text))]
      && r.cache == (if Succeeded(r) then (cache - {text})[text := r.call.value.value] else cache - {text})
  {
    DeletedEntryMisses(cache, text, settings, script);
    CacheUpdate(cache - {text}, text, settings, script);
  }

  /** The two calls of `translateText` in `performTranslation`: a second one only when the first gives null. */
  method TranslateWithSecondAttempt(client: Client, text: string, settings: Settings, script: seq<Response>)
    returns (call: Call, effects: seq<Effect>, consumed: nat)
    requires client.Valid()
    modifies client
    ensures client.Valid()
    ensures Run(call, client.cache, effects, consumed) == TranslateTwice(old(client.cache), text, settings, script)
  {
    call, effects, consumed := client.Translate(text, settings, script);
    if call.Returned? && !Truthy(call.value) {
      var call2, effects2, consumed2 := client.Translate(text, settings, script[consumed..]);
      call, effects, consumed := call2, effects + effects2, consumed + consumed2;
    }
  }

  /** The tweet's translate button, or its absence once a translation is shown. */
  datatype ButtonView = Shown(caption: string, disabled: bool) | Removed

  /** One tweet's button and the translation panel inserted after it. */
  class TweetView {
    var button: ButtonView
    /** The text of the panel's `translated-text` div, once a panel is inserted. */
    var panel: Option<string>
    /** `cleanedText`, the key the panel's refresh deletes. */
    var cleanedText: string
    /** The messages shown with `alert`, in order. */
    var alerts: seq<string>

    /** A tweet right after the scan gave it its button. */
    constructor ()
      ensures button == Shown(ButtonLabel, false) && panel == None && cleanedText == "" && alerts == []
    {
      button := Shown(ButtonLabel, false);
      panel := None;
      cleanedText := "";
      alerts := [];
    }

    /** `performTranslation(tweet, textContent, lang, button)`. */
    method PerformTranslation(client: Client, textContent: string, settings: Settings, script: seq<Response>)
      returns (effects: seq<Effect>, consumed: nat)
      requires client.Valid()
      modifies this, client
      ensures client.Valid()
      ensures cleanedText == CleanText(textContent)
      ensures var r := TranslateTwice(old(client.cache), cleanedText, settings, script);
        && client.cache == r.cache && effects == r.effects && consumed == r.consumed
        && match r.call
           case Awaiting => button == Shown(BusyLabel, true) && panel == old(panel) && alerts == old(alerts)
           case Returned(Some(t)) => button == Removed && panel == Some(t) && alerts == old(alerts)
           case Returned(None) => button == Shown(RetryLabel, false) && panel == old(panel) && alerts == old(alerts) + [FailureAlert]
    {
      button := Shown(BusyLabel, true);
      cleanedText := CleanText(textContent);
      ghost var cache0 := client.cache;
      var call;
      call, effects, consumed := TranslateWithSecondAttempt(client, cleanedText, settings, script);
      TranslateTwiceOutcome(cache0, cleanedText, settings, script);
      ShowOutcome(call);
    }

    /** What the button and panel show once the calls settle; still busy while a call awaits. */
    method ShowOutcome(call: Call)
      requires call.Returned? && call.value.Some? ==> call.value.value != ""
      modifies this`button, this`panel, this`alerts
      ensures match call
        case Awaiting => button == old(button) && panel == old(panel) && alerts == old(alerts)
        case Returned(Some(t)) => button == Removed && panel == Some(t) && alerts == old(alerts)
        case Returned(None) => button == Shown(RetryLabel, false) && panel == old(panel) && alerts == old(alerts) + [FailureAlert]
    {
      if call.Awaiting? {
        return;
      }
      if Truthy(call.value) {
        button := Removed;
        panel := Some(call.value.value);
      } else {
        alerts := alerts + [FailureAlert];
        button := Shown(RetryLabel, false);
      }
    }

    /** The panel's refresh icon: delete the cache entry, translate again, show the outcome. */
    method Refresh(client: Client, settings: Settings, script: seq<Response>)
      returns (effects: seq<Effect>, consumed: nat)
      requires client.Valid() && panel.Some?
      modifies this`panel, client
      ensures client.Valid()
      ensures var r := TranslateRun(old(client.cache) - {cleanedText}, cleanedText, settings, script);
        && client.cache == r.cache && effects == r.effects && consumed == r.consumed
        && panel == Some(match r.call
                         case Awaiting => RefreshingText
                         case Returned(Some(t)) => t
                         case Returned(None) => RefreshFailedText)
    {
      panel := Some(RefreshingText);
      ghost var cache0 := client.cache;
      client.Delete(cleanedText);
      var call;
      call, effects, consumed := client.Translate(cleanedText, settings, script);
      ReturnedIsTruthy(cache0 - {cleanedText}, cleanedText, settings, script);
      if call.Returned? {
        panel := Some(if Truthy(call.value) then call.value.value else RefreshFailedText);
      }
    }
  }
}
