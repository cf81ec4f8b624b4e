/**
 * The translation client of content.js: `translateText` with its memo cache
 * `translationCache`, and the prompt it sends to the generation endpoint.
 *
 * The settings store and the network are an oracle: the settings the call
 * reads, and a finite script of the responses its requests get, in order.
 * A call that runs out of script while a request is in flight is `Awaiting`.
 */
module Translation {
  import opened Wrappers
  import opened JsStrings

  /** The placeholder in the prompt template that the source text replaces. */
  const Placeholder := "<TEXT>"
  /** The HTTP status that means "rate limited": the only one that is retried. */
  const TooManyRequests := 429

  /** What `chrome.storage.sync.get(['apiKey', 'translationPrompt'])` yields; either may be missing. */
  datatype Settings = Settings(apiKey: Option<string>, translationPrompt: Option<string>)

  /**
   * What one `fetch` to the generation endpoint comes to: a response with its
   * HTTP status and the value at `candidates[0].content.parts[0].text` (None
   * when that path is missing or the body is not JSON), or a rejected fetch.
   */
  datatype Response = Reply(status: int, text: Option<string>) | NetworkError

  /** What a call does to the world outside the page, in order. */
  datatype Effect = ReadSettings | Post(prompt: string)

  /** A call that has returned its value (None for `null`), or one still awaiting a response. */
  datatype Call = Returned(value: Option<string>) | Awaiting

  /** Where a call ends: its outcome, the cache after it, its effects and how many responses it used. */
  datatype Run = Run(call: Call, cache: map<string, string>, effects: seq<Effect>, consumed: nat)

  /** `response.ok`. */
  predicate IsOk(status: int) {
    200 <= status <= 299
  }

  predicate IsRateLimited(response: Response) {
    response.Reply? && response.status == TooManyRequests
  }

  predicate Succeeded(r: Run) {
    r.call.Returned? && r.call.value.Some?
  }

  /** `translationPrompt || ''`. */
  function TemplateOf(template: Option<string>): string {
    if Truthy(template) then template.value else ""
  }

  /**
   * The prompt as content.js builds it, `(translationPrompt || '').replace('<TEXT>', text)`:
   * `$` patterns in `text` are expanded by `replace`.
   */
  function RenderPromptAsWritten(template: Option<string>, text: string): string {
    ReplaceFirst(TemplateOf(template), Placeholder, text)
  }

  /** The prompt as intended: the first placeholder replaced by `text`, character for character. */
  function RenderPrompt(template: Option<string>, text: string): string {
    var t := TemplateOf(template);
    match IndexOf(t, Placeholder)
    case None => t
    case Some(p) => t[..p] + text + t[p + |Placeholder|..]
  }

  /** Every attempt of a call that misses the cache with a key present: one settings read, one request. */
  function Attempts(prompt: string, n: nat): seq<Effect> {
    if n == 0 then [] else [ReadSettings, Post(prompt)] + Attempts(prompt, n - 1)
  }

  /** `translateText(text)` started with `cache` as `translationCache`. */
  function TranslateRun(cache: map<string, string>, text: string, settings: Settings, script: seq<Response>): (r: Run)
    ensures r.consumed <= |script|
    ensures r.call.Awaiting? ==> r.consumed == |script|
    decreases |script|
  {
    if text in cache then Run(Returned(Some(cache[text])), cache, [], 0)
    else if !Truthy(settings.apiKey) then Run(Returned(None), cache, [ReadSettings], 0)
    else
      var request := [ReadSettings, Post(RenderPromptAsWritten(settings.translationPrompt, text))];
      if script == [] then Run(Awaiting, cache, request, 0)
      else match script[0]
        case NetworkError => Run(Returned(None), cache, request, 1)
        case Reply(status, body) =>
          if status == TooManyRequests then
            var retry := TranslateRun(cache, text, settings, script[1..]);
            Run(retry.call, retry.cache, request + retry.effects, 1 + retry.consumed)
          else if !IsOk(status) then Run(Returned(None), cache, request, 1)
          else if Truthy(body) then Run(Returned(body), cache[text := body.value], request, 1)
          else Run(Returned(None), cache, request, 1)
  }

  /** The cache of translations: `translationCache`, a Map that content.js updates in place. */
  class Client {
    var cache: map<string, string>

    /** Only truthy translations are ever stored. */
    ghost predicate Valid()
      reads this
    {
      forall k | k in cache :: cache[k] != ""
    }

    constructor ()
      ensures Valid() && cache == map[]
    {
      cache := map[];
    }

    /** `translateText(text)`; a 429 re-invokes it on the same text. */
    method Translate(text: string, settings: Settings, script: seq<Response>)
      returns (call: Call, effects: seq<Effect>, consumed: nat)
      requires Valid()
      modifies this
      ensures Valid()
      ensures Run(call, cache, effects, consumed) == TranslateRun(old(cache), text, settings, script)
      decreases |script|
    {
      if text in cache {
        return Returned(Some(cache[text])), [], 0;
      }
      effects := [ReadSettings];
      if !Truthy(settings.apiKey) {
        return Returned(None), effects, 0;
      }
      var prompt := RenderPromptAsWritten(settings.translationPrompt, text);
      effects := effects + [Post(prompt)];
      if script == [] {
        return Awaiting, effects, 0;
      }
      match script[0]
      case NetworkError =>
        call, consumed := Returned(None), 1;
      case Reply(status, body) =>
        if status == TooManyRequests {
          var retryCall, retryEffects, retryConsumed := Translate(text, settings, script[1..]);
          call, effects, consumed := retryCall, effects + retryEffects, 1 + retryConsumed;
        } else if !IsOk(status) {
          call, consumed := Returned(None), 1;
        } else {
          if Truthy(body) {
            cache := cache[text := body.value];
          }
          call := Returned(if Truthy(body) then body else None);
          consumed := 1;
        }
    }

    /** `translationCache.delete(text)`. */
    method Delete(text: string)
      requires Valid()
      modifies this
      ensures Valid()
      ensures cache == old(cache) - {text}
    {
      cache := cache - {text};
    }
  }

  // ---------------------------------------------------------------------
  // The prompt

  /** A template without the placeholder is sent as it is; a missing template gives the empty prompt. */
  lemma PromptWithoutPlaceholder(template: Option<string>, text: string)
    requires IndexOf(TemplateOf(template), Placeholder).None?
    ensures RenderPrompt(template, text) == TemplateOf(template)
    ensures RenderPromptAsWritten(template, text) == TemplateOf(template)
    ensures !Truthy(template) ==> RenderPrompt(template, text) == ""
  {
  }

  /**
   * The rendered prompt is the template with its first placeholder cut out and
   * `text` put in its place: putting the placeholder back gives the template.
   */
  lemma PromptRoundTrip(template: Option<string>, text: string)
    requires IndexOf(TemplateOf(template), Placeholder).Some?
    ensures var t := TemplateOf(template);
      var p := IndexOf(t, Placeholder).value;
      var prompt := RenderPrompt(template, text);
      && |prompt| == |t| - |Placeholder| + |text|
      && prompt[p..p + |text|] == text
      && (forall j :: 0 <= j < p ==> !OccursAt(t, Placeholder, j))
      && prompt[..p] + Placeholder + prompt[p + |text|..] == t
  {
    var t := TemplateOf(template);
    var p := IndexOf(t, Placeholder).value;
    var prompt := RenderPrompt(template, text);
    assert prompt == t[..p] + text + t[p + |Placeholder|..];
    assert prompt[..p] == t[..p];
    assert prompt[p..p + |text|] == text;
    assert prompt[p + |text|..] == t[p + |Placeholder|..];
    assert t[p..p + |Placeholder|] == Placeholder;
    assert t == t[..p] + t[p..p + |Placeholder|] + t[p + |Placeholder|..];
  }

  /** For text without `$`, the prompt content.js builds is the intended one. */
  lemma PromptAsWrittenAgrees(template: Option<string>, text: string)
    requires '$' !in text
    ensures RenderPromptAsWritten(template, text) == RenderPrompt(template, text)
  {
    var t := TemplateOf(template);
    match IndexOf(t, Placeholder)
    case None =>
    case Some(p) =>
      SubstitutionLiteral(Placeholder, t, p, text);
  }

  /** `'<TEXT>'.replace('<TEXT>', '$$')` is `'$'`: the text sent is not the text selected. */
  lemma PromptAsWrittenLosesDollar()
    ensures RenderPromptAsWritten(Some(Placeholder), "$$") == "$"
    ensures RenderPrompt(Some(Placeholder), "$$") == "$$"
  {
    assert OccursAt(Placeholder, Placeholder, 0);
    assert IndexOf(Placeholder, Placeholder) == Some(0);
    assert Placeholder[..0] == "" && Placeholder[|Placeholder|..] == "";
    assert "$$"[2..] == "";
    assert Substitution(Placeholder, Placeholder, 0, "$$") == "$";
  }

  // ---------------------------------------------------------------------
  // translateText

  /** A cache hit returns the stored value at once: no settings read, no request, cache unchanged. */
  lemma CacheHit(cache: map<string, string>, text: string, settings: Settings, script: seq<Response>)
    requires text in cache
    ensures TranslateRun(cache, text, settings, script) == Run(Returned(Some(cache[text])), cache, [], 0)
  {
  }

  /** Without an API key a miss returns null after reading the settings: no request, cache unchanged. */
  lemma MissingKey(cache: map<string, string>, text: string, settings: Settings, script: seq<Response>)
    requires text !in cache && !Truthy(settings.apiKey)
    ensures TranslateRun(cache, text, settings, script) == Run(Returned(None), cache, [ReadSettings], 0)
  {
  }

  /**
   * A 429 is answered by running `translateText` on the same text again: the
   * call's outcome and cache are those of the retry.
   */
  lemma RateLimitRetries(cache: map<string, string>, text: string, settings: Settings, script: seq<Response>)
    requires text !in cache && Truthy(settings.apiKey)
    requires script != [] && IsRateLimited(script[0])
    ensures var r := TranslateRun(cache, text, settings, script);
      var retry := TranslateRun(cache, text, settings, script[1..]);
      && r.call == retry.call && r.cache == retry.cache && r.consumed == 1 + retry.consumed
      && r.effects == [ReadSettings, Post(RenderPromptAsWritten(settings.translationPrompt, text))] + retry.effects
  {
  }

  /**
   * A rejected fetch, a status outside 2xx other than 429, or a 2xx whose text
   * is missing or empty: null after exactly one request, cache unchanged.
   */
  lemma FailuresGiveNull(cache: map<string, string>, text: string, settings: Settings, script: seq<Response>)
    requires text !in cache && Truthy(settings.apiKey) && script != []
    requires || script[0].NetworkError?
             || (script[0].Reply? && script[0].status != TooManyRequests && !IsOk(script[0].status))
             || (script[0].Reply? && IsOk(script[0].status) && !Truthy(script[0].text))
    ensures TranslateRun(cache, text, settings, script)
         == Run(Returned(None), cache, [ReadSettings, Post(RenderPromptAsWritten(settings.translationPrompt, text))], 1)
  {
  }

  /**
   * The cache changes only by gaining the entry `text` -> the returned
   * translation, on a miss that succeeds; that translation is never empty, and
   * every other key keeps its value.
   */
  lemma {:induction false} CacheUpdate(cache: map<string, string>, text: string, settings: Settings, script: seq<Response>)
    ensures var r := TranslateRun(cache, text, settings, script);
      && r.cache == (if text !in cache && Succeeded(r) then cache[text := r.call.value.value] else cache)
      && (text !in cache && Succeeded(r) ==> r.call.value.value != "")
      && (forall k :: k != text ==> (k in r.cache <==> k in cache) && (k in cache ==> r.cache[k] == cache[k]))
    decreases |script|
  {
    if text !in cache && Truthy(settings.apiKey) && script != [] && IsRateLimited(script[0]) {
      CacheUpdate(cache, text, settings, script[1..]);
    }
  }

  /** With a cache whose values are all truthy, a returned translation is always truthy. */
  lemma ReturnedIsTruthy(cache: map<string, string>, text: string, settings: Settings, script: seq<Response>)
    requires forall k | k in cache :: cache[k] != ""
    ensures var r := TranslateRun(cache, text, settings, script);
      && (Succeeded(r) ==> r.call.value.value != "")
      && (forall k | k in r.cache :: r.cache[k] != "")
  {
    CacheUpdate(cache, text, settings, script);
  }

  /**
   * A miss with a key makes one attempt per response it uses (plus the one in
   * flight when it is still awaiting), each a settings read and a request with
   * the same prompt; every response it used but the last was a 429, and a
   * returned call's last response was not.
   */
  lemma {:induction false} RequestsAndResponses(cache: map<string, string>, text: string, settings: Settings, script: seq<Response>)
    requires text !in cache && Truthy(settings.apiKey)
    ensures var r := TranslateRun(cache, text, settings, script);
      && r.effects == Attempts(RenderPromptAsWritten(settings.translationPrompt, text), r.consumed + (if r.call.Awaiting? then 1 else 0))
      && (forall i :: 0 <= i < r.consumed - 1 ==> IsRateLimited(script[i]))
      && (r.call.Returned? ==> r.consumed > 0 && !IsRateLimited(script[r.consumed - 1]))
    decreases |script|
  {
    if script != [] && IsRateLimited(script[0]) {
      RequestsAndResponses(cache, text, settings, script[1..]);
      var retry := TranslateRun(cache, text, settings, script[1..]);
      forall i | 0 <= i < retry.consumed ensures IsRateLimited(script[i]) {
        if i > 0 {
          assert script[i] == script[1..][i - 1];
        }
      }
    }
  }

  /** Once a translation has been returned, asking again returns it from the cache with no effect, whatever the network does. */
  lemma WarmCacheRepeats(cache: map<string, string>, text: string, settings: Settings, script: seq<Response>, later: seq<Response>)
    requires Succeeded(TranslateRun(cache, text, settings, script))
    ensures var r := TranslateRun(cache, text, settings, script);
      TranslateRun(r.cache, text, settings, later) == Run(r.call, r.cache, [], 0)
  {
    CacheUpdate(cache, text, settings, script);
  }

  /** After its entry is deleted, a text is a cache miss again: with a key, the next call reads the settings and sends a request. */
  lemma DeletedEntryMisses(cache: map<string, string>, text: string, settings: Settings, script: seq<Response>)
    requires Truthy(settings.apiKey)
    ensures var r := TranslateRun(cache - {text}, text, settings, script);
      |r.effects| >= 2 && r.effects[..2] == [ReadSettings, Post(RenderPromptAsWritten(settings.translationPrompt, text))]
  {
    var r := TranslateRun(cache - {text}, text, settings, script);
    RequestsAndResponses(cache - {text}, text, settings, script);
  }

  /** A 429 followed by a good reply: exactly one retry, and the translation is returned and cached. */
  lemma RateLimitThenSuccess(cache: map<string, string>, text: string, settings: Settings, body: string, other: seq<Response>)
    requires text !in cache && Truthy(settings.apiKey) && body != ""
    ensures var r := TranslateRun(cache, text, settings, [Reply(TooManyRequests, None), Reply(200, Some(body))] + other);
      var prompt := RenderPromptAsWritten(settings.translationPrompt, text);
      r == Run(Returned(Some(body)), cache[text := body], [ReadSettings, Post(prompt), ReadSettings, Post(prompt)], 2)
  {
    var script := [Reply(TooManyRequests, None), Reply(200, Some(body))] + other;
    assert script[1..][0] == Reply(200, Some(body));
  }

  /** A miss answered by a successful reply with a non-empty translation: one request, and the translation is cached and returned. */
  lemma SuccessCaches(cache: map<string, string>, text: string, settings: Settings, status: int, t: string, rest: seq<Response>)
    requires text !in cache && Truthy(settings.apiKey) && IsOk(status) && t != ""
    ensures var prompt := RenderPromptAsWritten(settings.translationPrompt, text);
      TranslateRun(cache, text, settings, [Reply(status, Some(t))] + rest)
        == Run(Returned(Some(t)), cache[text := t], [ReadSettings, Post(prompt)], 1)
  {
    assert ([Reply(status, Some(t))] + rest)[0] == Reply(status, Some(t));
  }
}
