/**
 * Text-selection translation in content.js: the mouse handlers that show a
 * "Translate" button (id `translate-selected-text`) under a selection, the
 * button's click, and the translation box it opens.
 *
 * Events are method calls: a mouse press, a release, a click, and the firing
 * of a timer. Positions, styles and fades are not modelled.
 */
module Selection {
  import opened Wrappers
  import opened JsStrings
  import opened Timers
  import opened Translation

  /** The alert shown when a selection cannot be translated. */
  const FailureAlert := "Translation failed."

  /** The `style.direction` and `style.textAlign` of the translated text. */
  datatype Layout = Layout(direction: string, textAlign: string)

  /** The `translation-box` element: the translation it shows and how it lays it out. */
  datatype Box = Box(text: string, layout: Layout)

  /** Right-to-left and right-aligned exactly when the translation has a character of U+0600 to U+06FF. */
  function LayoutFor(translation: string): (l: Layout)
    ensures l == Layout("rtl", "right") || l == Layout("ltr", "left")
    ensures l.direction == "rtl" <==> exists i :: 0 <= i < |translation| && IsArabicBlock(translation[i])
  {
    if HasArabicBlockChar(translation) then Layout("rtl", "right") else Layout("ltr", "left")
  }

  /** A Persian translation is laid out right to left. */
  lemma PersianIsRightToLeft()
    ensures LayoutFor("سلام دنیا") == Layout("rtl", "right")
  {
    assert IsArabicBlock("سلام دنیا"[0]);
  }

  /** An English translation is laid out left to right. */
  lemma EnglishIsLeftToRight()
    ensures LayoutFor("Hello") == Layout("ltr", "left")
  {
    assert !HasArabicBlockChar("Hello");
  }

  /** The page's selection-translation state: the globals of content.js and the elements it adds. */
  class SelectionCapture {
    /** `isMouseDown`. */
    var isMouseDown: bool
    /** `selectionTimer`: the id of the last mouse-up timer, `null` once cleared. */
    var selectionTimer: Option<nat>
    /** Mouse-up timers not yet fired or cleared, oldest first, each with the Shift state of its release. */
    var timers: seq<Timer<bool>>
    /** The id the next `setTimeout` returns. */
    var nextTimerId: nat
    /** The elements with id `translate-selected-text` in the page, in document order, each with the text it captured. */
    var buttons: seq<string>
    /** Pending 100 ms timeouts that each install a click-outside listener for the button. */
    var dismissTimeouts: nat
    /** Installed click-outside listeners. */
    var dismissListeners: nat
    /** `lastSelectedText`. */
    var lastSelectedText: string
    /** The translation box, while it is open. */
    var box: Option<Box>
    /** The messages shown with `alert`, in order. */
    var alerts: seq<string>

    /**
     * At most one button, each with a non-empty captured text; timer ids come
     * from the counter, and pending timers are in the order they were set.
     */
    ghost predicate Valid()
      reads this
    {
      && |buttons| <= 1
      && (forall k | 0 <= k < |buttons| :: buttons[k] != "")
      && (forall k | 0 <= k < |timers| :: timers[k].id < nextTimerId)
      && IdsIncreasing(timers)
      && (selectionTimer.Some? ==> selectionTimer.value < nextTimerId)
    }

    /** The page as the content script starts on it. */
    constructor ()
      ensures Valid()
      ensures !isMouseDown && selectionTimer == None && timers == [] && buttons == []
      ensures dismissTimeouts == 0 && dismissListeners == 0 && lastSelectedText == ""
      ensures box == None && alerts == []
    {
      isMouseDown := false;
      selectionTimer := None;
      timers := [];
      nextTimerId := 1;
      buttons := [];
      dismissTimeouts := 0;
      dismissListeners := 0;
      lastSelectedText := "";
      box := None;
      alerts := [];
    }

    /** `document.getElementById('translate-selected-text').remove()`, when there is one. */
    method RemoveButton()
      requires Valid()
      modifies this`buttons
      ensures Valid()
      ensures buttons == []
    {
      if buttons != [] {
        buttons := buttons[1..];
      }
    }

    /**
     * The document's `mousedown` listener. A press on the button itself never
     * reaches it (the button stops its propagation, and the listener ignores
     * its id); any other press clears the last mouse-up timer and removes the button.
     */
    method MouseDown(onButton: bool)
      requires Valid()
      modifies this
      ensures Valid()
      ensures onButton ==> isMouseDown == old(isMouseDown) && selectionTimer == old(selectionTimer)
                           && timers == old(timers) && buttons == old(buttons)
      ensures !onButton ==> isMouseDown && selectionTimer == None
                            && timers == ClearTimeout(old(timers), old(selectionTimer)) && buttons == []
      ensures nextTimerId == old(nextTimerId) && dismissTimeouts == old(dismissTimeouts)
      ensures dismissListeners == old(dismissListeners) && lastSelectedText == old(lastSelectedText)
      ensures box == old(box) && alerts == old(alerts)
    {
      if !onButton {
        Press();
      }
    }

    /** A press outside the button: the mouse is down, the last mouse-up timer is cleared and the button removed. */
    method Press()
      requires Valid()
      modifies this`isMouseDown, this`timers, this`selectionTimer, this`buttons
      ensures Valid()
      ensures isMouseDown && selectionTimer == None
      ensures timers == ClearTimeout(old(timers), old(selectionTimer)) && buttons == []
    {
      isMouseDown := true;
      ClearSelectionTimer();
      RemoveButton();
    }

    /** `clearTimeout(selectionTimer); selectionTimer = null`, done only when a timer is named. */
    method ClearSelectionTimer()
      requires Valid()
      modifies this`timers, this`selectionTimer
      ensures Valid()
      ensures selectionTimer == None && timers == ClearTimeout(old(timers), old(selectionTimer))
      ensures forall k | 0 <= k < |old(timers)| && old(selectionTimer) == Some(old(timers)[k].id) ::
                timers == old(timers)[..k] + old(timers)[k + 1..]
    {
      if selectionTimer.Some? {
        ghost var before := timers;
        ClearKeepsBound(timers, selectionTimer, nextTimerId);
        ClearKeepsIncreasing(timers, selectionTimer);
        forall k | 0 <= k < |before| && selectionTimer == Some(before[k].id)
          ensures ClearTimeout(before, selectionTimer) == before[..k] + before[k + 1..]
        {
          IncreasingIdsDistinct(before, k);
          ClearRemovesOne(before, k);
        }
        timers := ClearTimeout(timers, selectionTimer);
        selectionTimer := None;
      }
    }

    /**
     * The document's `mouseup` listener: outside the button, it schedules a
     * timer that will read the selection, remembering whether Shift was held.
     * An earlier timer still pending is not cleared.
     */
    method MouseUp(onButton: bool, shiftKey: bool)
      requires Valid()
      modifies this
      ensures Valid()
      ensures onButton ==> isMouseDown == old(isMouseDown) && selectionTimer == old(selectionTimer)
                           && timers == old(timers) && nextTimerId == old(nextTimerId)
      ensures !onButton ==> !isMouseDown && selectionTimer == Some(old(nextTimerId))
                            && timers == old(timers) + [Timer(old(nextTimerId), shiftKey)]
                            && nextTimerId == old(nextTimerId) + 1
      ensures buttons == old(buttons) && dismissTimeouts == old(dismissTimeouts)
      ensures dismissListeners == old(dismissListeners) && lastSelectedText == old(lastSelectedText)
      ensures box == old(box) && alerts == old(alerts)
    {
      if onButton {
        return;
      }
      isMouseDown := false;
      AppendKeepsIncreasing(timers, Timer(nextTimerId, shiftKey));
      timers := timers + [Timer(nextTimerId, shiftKey)];
      selectionTimer := Some(nextTimerId);
      nextTimerId := nextTimerId + 1;
    }

    /**
     * The oldest mouse-up timer fires; `selection` is `window.getSelection().toString()`
     * at that moment. A non-empty trimmed selection is remembered and, unless
     * Shift was held at the release, shown as the button's captured text.
     */
    method SelectionTimerFires(selection: string)
      requires Valid() && timers != []
      modifies this
      ensures Valid()
      ensures timers == old(timers)[1..] && selectionTimer == old(selectionTimer) && nextTimerId == old(nextTimerId)
      ensures Trim(selection) != "" ==> lastSelectedText == Trim(selection)
      ensures Trim(selection) == "" ==> lastSelectedText == old(lastSelectedText)
      ensures Trim(selection) != "" && !old(timers[0].payload) ==>
                buttons == [Trim(selection)] && dismissTimeouts == old(dismissTimeouts) + 1
      ensures Trim(selection) == "" || old(timers[0].payload) ==>
                buttons == old(buttons) && dismissTimeouts == old(dismissTimeouts)
      ensures isMouseDown == old(isMouseDown) && dismissListeners == old(dismissListeners)
      ensures box == old(box) && alerts == old(alerts)
    {
      var shiftKeyPressed := timers[0].payload;
      DropKeepsIncreasing(timers);
      timers := timers[1..];
      CaptureSelection(Trim(selection), shiftKeyPressed);
    }

    /** The rest of the mouse-up timer's callback, once the selection is read and trimmed. */
    method CaptureSelection(selectedText: string, shiftKeyPressed: bool)
      requires Valid()
      modifies this`lastSelectedText, this`buttons, this`dismissTimeouts
      ensures Valid()
      ensures selectedText != "" ==> lastSelectedText == selectedText
      ensures selectedText == "" ==> lastSelectedText == old(lastSelectedText)
      ensures selectedText != "" && !shiftKeyPressed ==>
                buttons == [selectedText] && dismissTimeouts == old(dismissTimeouts) + 1
      ensures selectedText == "" || shiftKeyPressed ==>
                buttons == old(buttons) && dismissTimeouts == old(dismissTimeouts)
    {
      if selectedText != "" {
        // enhanceSelectionIfNeeded does nothing, so the selection read again is the same text
        lastSelectedText := selectedText;
        if !shiftKeyPressed {
          ShowTranslationButton(selectedText);
        }
      }
    }

    /**
     * `showTranslationButton(event, selectedText)`: any existing button is
     * removed first, so the new one is the only one; a listener that removes
     * it on an outside click is installed after 100 ms.
     */
    method ShowTranslationButton(selectedText: string)
      requires Valid()
      modifies this`buttons, this`dismissTimeouts
      ensures Valid()
      ensures selectedText == "" ==> buttons == old(buttons) && dismissTimeouts == old(dismissTimeouts)
      ensures selectedText != "" ==> buttons == [selectedText] && dismissTimeouts == old(dismissTimeouts) + 1
    {
      if selectedText == "" {
        return;
      }
      RemoveButton();
      buttons := buttons + [selectedText];
      dismissTimeouts := dismissTimeouts + 1;
    }

    /** A 100 ms timeout of `showTranslationButton` fires and installs its click-outside listener. */
    method DismissTimeoutFires()
      requires Valid() && dismissTimeouts > 0
      modifies this`dismissTimeouts, this`dismissListeners
      ensures Valid()
      ensures dismissTimeouts == old(dismissTimeouts) - 1 && dismissListeners == old(dismissListeners) + 1
    {
      dismissTimeouts := dismissTimeouts - 1;
      dismissListeners := dismissListeners + 1;
    }

    /**
     * A click on the button: its listener stops the click there, hands its
     * captured text to `performSelectionTranslation` (returned here) and removes the button.
     */
    method ClickButton() returns (captured: string)
      requires Valid() && buttons != []
      modifies this`buttons
      ensures Valid()
      ensures captured == old(buttons[0]) && captured != "" && buttons == []
    {
      captured := buttons[0];
      RemoveButton();
    }

    /** A click anywhere else: each installed click-outside listener removes the button, if any, and then itself. */
    method ClickElsewhere()
      requires Valid()
      modifies this`buttons, this`dismissListeners
      ensures Valid()
      ensures old(dismissListeners) > 0 ==> buttons == [] && dismissListeners == 0
      ensures old(dismissListeners) == 0 ==> buttons == old(buttons) && dismissListeners == 0
    {
      if dismissListeners > 0 {
        RemoveButton();
        dismissListeners := 0;
      }
    }

    /** `displayTranslation(translation)`: the box, new or reused, shows the translation in its direction. */
    method DisplayTranslation(translation: string)
      requires Valid()
      modifies this`box
      ensures Valid()
      ensures box == Some(Box(translation, LayoutFor(translation)))
    {
      box := Some(Box(translation, LayoutFor(translation)));
    }

    /** The box's close button or an outside click, once the fade is over: the box and the button go. */
    method CloseBox()
      requires Valid()
      modifies this`box, this`buttons
      ensures Valid()
      ensures box == None
      ensures old(box).Some? ==> buttons == []
      ensures old(box).None? ==> buttons == old(buttons)
    {
      if box.Some? {
        box := None;
        RemoveButton();
      }
    }

    /** `performSelectionTranslation(selectedText)`: translate, then show the box or alert. */
    method PerformSelectionTranslation(client: Client, selectedText: string, settings: Settings, script: seq<Response>)
      returns (effects: seq<Effect>, consumed: nat)
      requires Valid() && client.Valid()
      modifies this`box, this`alerts, client
      ensures Valid() && client.Valid()
      ensures selectedText == "" ==> client.cache == old(client.cache) && effects == [] && consumed == 0
                                     && box == old(box) && alerts == old(alerts)
      ensures selectedText != "" ==>
        var r := TranslateRun(old(client.cache), selectedText, settings, script);
        && client.cache == r.cache && effects == r.effects && consumed == r.consumed
        && match r.call
           case Awaiting => box == old(box) && alerts == old(alerts)
           case Returned(Some(t)) => box == Some(Box(t, LayoutFor(t))) && alerts == old(alerts)
           case Returned(None) => box == old(box) && alerts == old(alerts) + [FailureAlert]
    {
      if selectedText == "" {
        return [], 0;
      }
      ghost var cache0 := client.cache;
      var call;
      call, effects, consumed := client.Translate(selectedText, settings, script);
      ReturnedIsTruthy(cache0, selectedText, settings, script);
      if call.Returned? {
        if Truthy(call.value) {
          DisplayTranslation(call.value.value);
        } else {
          alerts := alerts + [FailureAlert];
        }
      }
    }
  }

  /**
   * Two selections in a row: the second press removes the first button, so
   * only the second selection's button is left, holding its own text.
   */
  method NewSelectionReplacesButton(first: string, second: string) returns (shown: seq<string>)
    requires Trim(first) != ""
    ensures shown == (if Trim(second) != "" then [Trim(second)] else [])
  {
    var page := new SelectionCapture();
    page.MouseDown(false);
    page.MouseUp(false, false);
    page.SelectionTimerFires(first);
    assert page.buttons == [Trim(first)];
    page.MouseDown(false);
    page.MouseUp(false, false);
    page.SelectionTimerFires(second);
    shown := page.buttons;
  }

  /** A release with Shift held remembers the selection but shows no button. */
  method ShiftReleaseShowsNoButton(selection: string) returns (shown: seq<string>, remembered: string)
    requires Trim(selection) != ""
    ensures shown == [] && remembered == Trim(selection)
  {
    var page := new SelectionCapture();
    page.MouseDown(false);
    page.MouseUp(false, true);
    page.SelectionTimerFires(selection);
    shown, remembered := page.buttons, page.lastSelectedText;
  }
}
