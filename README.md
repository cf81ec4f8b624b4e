# WX-Translator-AI content script, modelled in Dafny

This project models the content script `content.js` of a browser extension
that adds machine translation to web pages: mainly Twitter/X, and any text a
user selects. Translations come from a remote text-generation endpoint and
are memoised in a cache keyed by the exact source text.

The model has six modules:

- `Wrappers` (`wrappers.dfy`): `Option`, which stands for JavaScript's
  `undefined`/`null` versus a value.
- `JsStrings` (`js_strings.dfy`): the JavaScript built-ins the script relies on.
  These are truthiness, the `\s` character class, `trim`, the global
  `replace(/\s+/g, ' ')`, `indexOf`, and `replace` with a string pattern,
  including the `$` patterns of ECMA-262 GetSubstitution. The `[؀-ۿ]`
  test is here too.
- `Translation` (`translation.dfy`): `translateText` and `translationCache`.
  The settings store and the network are an oracle:
  - the settings the call reads (API key and prompt template);
  - a finite script of the responses its requests get: a status with the
    extracted text, or a rejected fetch.

  `TranslateRun` is the reference definition. Class `Client` holds the cache
  as a `map` field. Its recursive method `Translate` is proved equal to
  `TranslateRun`. A call that runs out of script while a request is in flight
  is `Awaiting`. That makes the unbounded retry on 429 terminate in the model.
- `Timers` (`timers.dfy`): `setTimeout`/`clearTimeout` as a queue of pending
  timers with ids.
- `Debounce` (`debounce.dfy`): `debounce`, as a class whose invariant is that
  at most one call is scheduled.
- `TweetFlow` (`tweet_flow.dfy`): `isTwitterSite`, and the feed scan
  `addTranslateButtons` as a loop over an array of elements.
  `performTranslation` and its refresh action are methods of a per-tweet view
  class.
- `Selection` (`selection.dfy`): the mouse handlers, the Translate button with
  id `translate-selected-text`, `performSelectionTranslation`, and the
  translation box with its text direction. These form a state machine class
  whose invariant is "at most one button".

Behaviour of the code worth noting:

- On HTTP 429 the code calls `translateText` again. The number of retries has
  no limit.
- A mouse-up schedules a new selection timer without clearing an earlier one
  that is still pending. Only a mouse-down clears a timer, and only the one
  `selectionTimer` names. The model keeps every pending timer.
- `performTranslation` calls `translateText` a second time when the first call
  gives `null`.
- After a failure the button's label is set back to "ترجمه توییت". The scan
  created it with the label "ترجمه".
- `translateText` does not check that its text is non-empty.

## Model

| member | source | states |
|---|---|---|
| `JsStrings.Trim` | content.js:49 | the trimmed text neither starts nor ends with a whitespace character |
| `JsStrings.TrimKeepsText` | content.js:49 | trimming removes whitespace only: the non-whitespace characters are unchanged, in order |
| `JsStrings.CollapseSpaces` | content.js:312 | the global `\s+` to `' '` replace keeps the first character when it is not whitespace and turns it into a plain space when it is; its other properties are `CollapseIsCollapsed`, `CollapseRun`, `CollapseKeepsText` and `CollapseFixed` |
| `JsStrings.CollapseIsCollapsed` | content.js:312 | after the replace, the only whitespace is the plain space, and no two whitespace characters are adjacent |
| `JsStrings.CollapseSplit` | content.js:312 | the replace works piece by piece: on a text ending in a non-whitespace character followed by a text starting with whitespace, it is the replace of each part, concatenated |
| `JsStrings.CollapseRun` | content.js:312 | each whitespace run between two pieces of text becomes exactly one space, and the pieces on either side are replaced on their own |
| `JsStrings.CollapseKeepsText` | content.js:312 | collapsing whitespace leaves the non-whitespace characters unchanged, in order |
| `JsStrings.CollapseFixed` | content.js:312 | a string that is already collapsed is unchanged by the replace |
| `JsStrings.IndexOfFrom` | content.js:267 | the index found is an occurrence of the pattern and no earlier index is one; `None` means that no occurrence exists |
| `JsStrings.ReplaceFirst` | content.js:267 | `replace` with a string pattern; its properties are `SubstitutionLiteral`, `Translation.PromptWithoutPlaceholder`, `Translation.PromptAsWrittenAgrees` and `Translation.PromptAsWrittenLosesDollar` |
| `JsStrings.Substitution` | content.js:267 | the `$` patterns of a replacement text; `SubstitutionLiteral` states that a text without `$` is inserted as it is, and `Translation.PromptAsWrittenLosesDollar` that `$$` becomes `$` |
| `JsStrings.SubstitutionLiteral` | content.js:267 | a replacement text without `$` is inserted literally by `replace` |
| `JsStrings.HasArabicBlockChar` | content.js:207 | the regex test holds if and only if some character lies in U+0600 to U+06FF |
| `Translation.TemplateOf` | content.js:267 | `translationPrompt`, or the empty string when it is falsy; `PromptWithoutPlaceholder` states that a missing or empty template gives the empty prompt |
| `Translation.RenderPromptAsWritten` | content.js:267 | the prompt exactly as the code builds it; `PromptAsWrittenAgrees` states that it is the intended prompt for text without `$`, and `PromptAsWrittenLosesDollar` that it loses a `$` of `$$` |
| `Translation.RenderPrompt` | content.js:267 | the intended prompt; `PromptRoundTrip` states that it is the template with the text at the first placeholder, and `PromptWithoutPlaceholder` what happens without one |
| `Translation.PromptWithoutPlaceholder` | content.js:267 | a template without `<TEXT>` is sent unchanged; a missing or empty template gives the empty prompt |
| `Translation.PromptRoundTrip` | content.js:267 | the prompt is the template with its first `<TEXT>` replaced by the text: it has the right length, the text appears at the first placeholder's index, and restoring the placeholder gives the template back |
| `Translation.PromptAsWrittenAgrees` | content.js:267 | for text without `$`, the `replace` call builds exactly the intended prompt |
| `Translation.PromptAsWrittenLosesDollar` | content.js:267 | the `replace` call turns the text `$$` into `$` in the prompt, while the intended prompt keeps `$$` |
| `Translation.TranslateRun` | content.js:254-301 | a call uses no more responses than the script has, and a call still awaiting has used all of them; every request carries the prompt as the code builds it (`RenderPromptAsWritten`), as `RequestsAndResponses` states |
| `Translation.Client.constructor` | content.js:252 | the cache starts empty |
| `Translation.Client.Translate` | content.js:254-301 | the method's outcome, effects, responses used and new cache are those of `TranslateRun` on the old cache, so its requests carry the prompt as the code builds it; only truthy translations are ever cached |
| `Translation.Client.Delete` | content.js:394 | the cache loses exactly the entry for the text |
| `Translation.CacheHit` | content.js:255-257 | a cache hit returns the stored value with no settings read and no request, and leaves the cache unchanged |
| `Translation.MissingKey` | content.js:260-265 | with no API key, a miss returns null after one settings read, with no request and the cache unchanged |
| `Translation.RateLimitRetries` | content.js:281-285 | after a 429, the outcome and the cache are those of `translateText` re-run on the same text |
| `Translation.FailuresGiveNull` | content.js:287-299 | a rejected fetch, a non-2xx status other than 429, or a 2xx with a missing or empty text each give null after one request, with the cache unchanged |
| `Translation.CacheUpdate` | content.js:292-296 | the cache changes only by gaining the entry text to the returned translation, on a miss that succeeds; that value is non-empty; every other key is unchanged |
| `Translation.ReturnedIsTruthy` | content.js:292-296 | with a cache of non-empty values, any translation returned is non-empty and the cache stays so |
| `Translation.RequestsAndResponses` | content.js:274-285 | a miss with a key makes one settings read and one request, always with the same prompt, per response used, plus one more while awaiting; every response used before the last was a 429, and the last was not |
| `Translation.WarmCacheRepeats` | content.js:255-257 | once a call has returned a translation, asking again returns the same value with no effect, whatever the network does |
| `Translation.DeletedEntryMisses` | content.js:394-395 | after the entry is deleted, a call with a key reads the settings and sends a request again |
| `Translation.SuccessCaches` | content.js:274-296 | a miss answered by a 2xx reply with a non-empty text makes one settings read and one request, returns the text and caches it under the source text |
| `Translation.RateLimitThenSuccess` | content.js:281-296 | a 429 then a good reply: two requests, exactly one retry, and the translation is returned and cached |
| `Timers.ClearTimeout` | content.js:21-23 | clearing removes every timer with that id and keeps the others in order; clearing an id that is not pending, or no id, changes nothing |
| `Timers.ClearRemovesOne` | content.js:21-23 | when ids are distinct, clearing the id of the timer at index k gives the pending timers with exactly that one cut out |
| `Timers.IncreasingIdsDistinct` | content.js:21-23 | timers set in order have distinct ids |
| `Timers.RemoveKeepsIncreasing` | content.js:21-23 | cutting one timer out keeps the rest in the order they were set |
| `Timers.ClearKeepsIncreasing` | content.js:21-23 | clearing a timer keeps the pending timers in the order they were set |
| `Timers.AppendKeepsIncreasing` | content.js:47 | a new timer with an id above every pending one keeps the order |
| `Timers.DropKeepsIncreasing` | content.js:47-48 | the oldest timer firing keeps the rest in order |
| `Timers.ClearKeepsBound` | content.js:21-24 | clearing a timer never brings in a new id: every id left is below any bound that all pending ids were below |
| `Debounce.Debouncer.constructor` | content.js:463-464 | a fresh debounced function has no timer and nothing scheduled |
| `Debounce.Debouncer.Call` | content.js:465-468 | each call clears the previous timer and schedules exactly one call with its own arguments, so at most one is ever scheduled |
| `Debounce.Debouncer.Fire` | content.js:467 | the timer runs `func` with the arguments of the last call, and nothing is left scheduled |
| `Debounce.BurstCoalesces` | content.js:463-469 | a burst of three calls runs `func` once, with the third call's arguments |
| `TweetFlow.IsTwitterSite` | content.js:408-410 | the feed is scanned only on twitter.com and x.com; `ScanEffect` states that elsewhere nothing changes |
| `TweetFlow.Selected` | content.js:417 | the selector `article div[dir="auto"]:not([lang="fa"])`; `ScanEffect` states that exactly these elements are marked |
| `TweetFlow.Visit` | content.js:418-449 | one turn of the loop keeps where the element is and its `lang`, leaves a selected element marked, and adds at most one button, only to a selected unmarked element |
| `TweetFlow.Scanned` | content.js:413-451 | the page after a scan; `ScanEffect`, `ScanIdempotent` and `ScanButtonCount` state its properties |
| `TweetFlow.AddTranslateButtons` | content.js:413-451 | the elements after the loop are `Scanned` of the elements before it |
| `TweetFlow.VisitAllAt` | content.js:418-450 | each element is treated on its own: element k after the loop is element k visited |
| `TweetFlow.ScanEffect` | content.js:408-420 | off twitter.com and x.com nothing changes; on them, every selected element ends up marked, gains one button exactly when it was unmarked, and nothing else changes |
| `TweetFlow.ScanIdempotent` | content.js:419-420 | scanning twice is the same as scanning once |
| `TweetFlow.ScanButtonCount` | content.js:418-449 | a scan adds exactly one button per selected unmarked element, and none off Twitter/X |
| `TweetFlow.SecondScanAddsNothing` | content.js:419-420 | a second scan adds no button |
| `TweetFlow.CleanText` | content.js:312 | the cleaned tweet text; `CleanTextShape`, `CleanTextJoinsWords` and `CleanTextIdempotent` state its properties |
| `TweetFlow.CleanTextJoinsWords` | content.js:312 | two words separated by any run of whitespace are cleaned to the two words cleaned on their own, joined by exactly one space |
| `TweetFlow.CleanTextShape` | content.js:312 | the cleaned text has no whitespace at either end, only single plain spaces inside, and the same non-whitespace characters |
| `TweetFlow.CleanTextIdempotent` | content.js:312 | cleaning the cleaned text changes nothing |
| `TweetFlow.TranslateTwice` | content.js:315-319 | the two attempts together use no more responses than the script has |
| `TweetFlow.TranslateWithSecondAttempt` | content.js:315-319 | the two calls on the cache give exactly the outcome, effects, responses used and new cache of `TranslateTwice`, and keep every cached value non-empty |
| `TweetFlow.SecondAttemptMisses` | content.js:315-319 | when the first attempt gives null, the cache is unchanged and the second attempt misses it and reads the settings again |
| `TweetFlow.TranslateTwiceOutcome` | content.js:315-323 | a translation the flow shows is non-empty and cached under the cleaned text; a failed flow leaves the cache unchanged |
| `TweetFlow.RefreshOutcome` | content.js:391-399 | a refresh always reaches the network when a key is set; the entry then holds the new translation, or is gone if the refresh fails |
| `TweetFlow.TweetView.constructor` | content.js:422-423 | a scanned tweet has an enabled button labelled "ترجمه" and no panel |
| `TweetFlow.TweetView.PerformTranslation` | content.js:306-405 | the cache and effects are those of the two attempts. On a translation the button is removed and the panel shows it. On null there is one alert and the button is enabled with its retry label. While awaiting, the button stays busy and disabled |
| `TweetFlow.TweetView.ShowOutcome` | content.js:321-404 | a translation removes the button and fills the panel; null raises one alert and re-enables the button with its retry label; a call still awaiting changes nothing |
| `TweetFlow.TweetView.Refresh` | content.js:391-399 | the refresh deletes the entry and translates again; the panel shows the new translation, the failure message, or the busy text while awaiting |
| `Selection.LayoutFor` | content.js:206-209 | the layout is `rtl`/`right` exactly when some character lies in U+0600 to U+06FF, and `ltr`/`left` otherwise |
| `Selection.PersianIsRightToLeft` | content.js:245-247 | the Persian text "سلام دنیا" is laid out right to left |
| `Selection.EnglishIsLeftToRight` | content.js:245-247 | the English text "Hello" is laid out left to right |
| `Selection.SelectionCapture.constructor` | content.js:6-9 | no mouse press, no timer, no button and an empty last selection |
| `Selection.SelectionCapture.RemoveButton` | content.js:27-30 | after the removal there is no button |
| `Selection.SelectionCapture.MouseDown` | content.js:12-31 | a press on the button changes nothing. Any other press sets `isMouseDown`, clears the timer `selectionTimer` names and removes the button |
| `Selection.SelectionCapture.Press` | content.js:19-30 | a press outside the button sets `isMouseDown`, clears the timer `selectionTimer` names and removes the button, keeping pending timers in order |
| `Selection.SelectionCapture.ClearSelectionTimer` | content.js:21-24 | after the clear, `selectionTimer` is null and exactly the timer it named is cut out of the pending timers, the others staying in order |
| `Selection.SelectionCapture.MouseUp` | content.js:34-47 | a release outside the button schedules one new timer carrying the Shift state; earlier timers stay pending |
| `Selection.SelectionCapture.SelectionTimerFires` | content.js:47-68 | the oldest timer is consumed. A non-empty trimmed selection becomes `lastSelectedText`, and becomes the only button's text unless Shift was held |
| `Selection.SelectionCapture.CaptureSelection` | content.js:51-66 | a non-empty selection is remembered, and shown as the only button unless Shift was held |
| `Selection.SelectionCapture.ShowTranslationButton` | content.js:78-118 | an empty text changes nothing; otherwise the new button is the only one and a dismissal listener is scheduled |
| `Selection.SelectionCapture.DismissTimeoutFires` | content.js:118-129 | a pending dismissal timeout installs its click-outside listener |
| `Selection.SelectionCapture.ClickButton` | content.js:108-112 | the click hands over the button's non-empty captured text and removes the button |
| `Selection.SelectionCapture.ClickElsewhere` | content.js:119-128 | an outside click removes the button if any listener is installed, and all listeners remove themselves |
| `Selection.SelectionCapture.DisplayTranslation` | content.js:145-249 | the box shows the translation with the layout that `LayoutFor` gives |
| `Selection.SelectionCapture.CloseBox` | content.js:180-193 | closing an open box removes it and the button |
| `Selection.SelectionCapture.PerformSelectionTranslation` | content.js:133-142 | an empty selection does nothing. Otherwise the cache and effects are those of `translateText`; a translation opens the box and null raises the alert |
| `Selection.NewSelectionReplacesButton` | content.js:12-85 | after two selections in a row, only the second selection's button remains, with its own text |
| `Selection.ShiftReleaseShowsNoButton` | content.js:43-66 | a release with Shift held records the selection but shows no button |

## Findings

| source | as written | input that shows it | evidently intended | confidence | as-written member | corrected member |
|---|---|---|---|---|---|---|
| content.js:267 | `replace('<TEXT>', text)` expands the `$$`, `$&`, `` $` `` and `$'` patterns found in the source text | template `<TEXT>` with text `$$` gives the prompt `$` | the source text is inserted into the prompt character for character | high; not executed | `Translation.PromptAsWrittenLosesDollar` | `Translation.PromptRoundTrip` |

`Translation.RenderPromptAsWritten` models the code as written.
`TranslateRun`, and so every request of the model, uses it.
`Translation.RenderPrompt` is the corrected rendering, with `PromptRoundTrip`
proved about it. `Translation.PromptAsWrittenAgrees` proves that the two agree
on every text without `$`.

## Left out

- HTTP, URL building, request bodies and JSON parsing are not modelled. The endpoint is a script of responses: a status and the extracted text, or a rejected fetch. A body that is not JSON counts as a missing text.
- The response text is modelled only as a string or missing. A non-string JSON value at that path is not modelled.
- `chrome.storage` is not modelled. Each call gets one `Settings` value, read on every attempt, so a store that changes between the attempts of one call is not modelled.
- Time is not modelled: the 2000 ms retry delay and the 300 ms, 100 ms and 250 ms timeouts. Timers are discrete events, and timers with the same delay fire in the order they were set.
- `requestAnimationFrame`, fades, inline styles, dark-mode detection and button positions from the selection rectangle are not modelled. They are presentation only.
- `innerHTML` is not modelled: the box is taken to show the translation text. HTML parsing of the translation is left out.
- `alert` is recorded as a message in a list. `window.getSelection().removeAllRanges()` is not modelled.
- Overlapping asynchronous calls are not modelled. Each call runs alone until it returns or its script runs out, so interleaved awaits and duplicate in-flight requests are left out.
- The `lang` argument passed to `translateText` is not modelled; the function ignores it.
- Hovering is not modelled: the `mouseenter`/`mouseleave` listeners only show and hide the feed button.
- The `MutationObserver` wiring is not modelled. Its two parts are modelled on their own: the debouncer and the scan.
- The CSS selector match is not modelled in full. `autoDirDivInArticle` stands for "a `div` with `dir="auto"` inside an `article`". Only the `lang` test is written out, compared ASCII case-insensitively as HTML does for that attribute.
- The translation box's own click-outside listener is not modelled separately. Its close path is `CloseBox`, shared with the close button.
- `TweetFlow.TweetView.PerformTranslation` takes the text that `performTranslation` receives. The click handler's extra `trim()` before the call is not modelled.
- Lone UTF-16 surrogates are not modelled: Dafny characters are Unicode scalar values. Every character the model tests for lies in the Basic Multilingual Plane.
- popup.js and background.js are not part of this model. They only read and write settings and handle extension lifecycle messages.
