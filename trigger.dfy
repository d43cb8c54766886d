/**
 * The automatic trigger: the copy event, the Cmd/Ctrl+C fallback and the
 * suppression window that keeps the tool's own copies and the second of two
 * detection channels from opening the panel again.
 *
 * The two closure variables are the fields of `TriggerGate`; the clock, the
 * clipboard and the DOM selection are parameters. Times are milliseconds.
 */
module Trigger {
  import opened Wrappers
  import opened Text
  import opened Classifier

  /** Default suppression after a copy button of the tool itself. */
  const DefaultIgnoreMs: int := 900
  /** Suppression after a detection has opened the panel. */
  const DetectionIgnoreMs: int := 400
  /** How long after Cmd/Ctrl+C the deferred clipboard read still counts. */
  const GestureWindowMs: int := 800

  /** What a detection shows for a text: the trimmed text, when it is not blank
      and looks like a separated list. */
  function PopupFor(text: string): Option<string> {
    var trimmed := Trim(text);
    if trimmed == [] then None
    else if LooksLikeSeparatedList(trimmed) then Some(trimmed)
    else None
  }

  /** The blank check before the classifier changes nothing: a detection shows
      exactly the texts the classifier accepts, and shows them trimmed. */
  lemma PopupForIsClassifier(text: string)
    ensures PopupFor(text).Some? <==> LooksLikeSeparatedList(text)
    ensures PopupFor(text).Some? ==> PopupFor(text).value == Trim(text) && !IsBlank(text)
  {
    ClassifyOfTrim(text);
  }

  /** `text` of the copy handler: the clipboard data, else the page selection,
      else the selection inside the focused input, each skipped when blank. */
  function PickCopyText(clipboard: string, selection: string, inputSelection: string): (r: string)
    ensures !IsBlank(clipboard) ==> r == clipboard
    ensures IsBlank(clipboard) && !IsBlank(selection) ==> r == selection
    ensures IsBlank(clipboard) && IsBlank(selection) ==> r == inputSelection
  {
    if !IsBlank(clipboard) then clipboard
    else if !IsBlank(selection) then selection
    else inputSelection
  }

  /** `(e.key || '').toLowerCase() === 'c' && (e.metaKey || e.ctrlKey)` */
  predicate IsCopyGesture(key: string, meta: bool, ctrl: bool) {
    (key == "c" || key == "C") && (meta || ctrl)
  }

  class TriggerGate {
    var ignoreAutoPopupUntil: int
    var lastCopyGestureAt: int

    constructor()
      ensures ignoreAutoPopupUntil == 0 && lastCopyGestureAt == 0
    {
      ignoreAutoPopupUntil := 0;
      lastCopyGestureAt := 0;
    }

    /** `shouldIgnoreAutoPopup()` at time `now`. */
    predicate ShouldIgnoreAutoPopup(now: int)
      reads this
    {
      now < ignoreAutoPopupUntil
    }

    /** `markIgnoreAutoPopup(ms)` at time `now`: the suppression window ends at
        `now + ms`, whatever it was before. */
    method MarkIgnoreAutoPopup(now: int, ms: int)
      modifies this
      ensures ignoreAutoPopupUntil == now + ms
      ensures lastCopyGestureAt == old(lastCopyGestureAt)
      ensures forall t :: ShouldIgnoreAutoPopup(t) <==> t < now + ms
    {
      ignoreAutoPopupUntil := now + ms;
    }

    /** A click on one of the tool's copy buttons: `markIgnoreAutoPopup()`. */
    method OnToolCopyButton(now: int)
      modifies this
      ensures ignoreAutoPopupUntil == now + DefaultIgnoreMs
      ensures lastCopyGestureAt == old(lastCopyGestureAt)
      ensures forall t :: ShouldIgnoreAutoPopup(t) <==> t < now + DefaultIgnoreMs
    {
      MarkIgnoreAutoPopup(now, DefaultIgnoreMs);
    }

    /**
     * `tryAutoPopupFromText(text)` at time `now`. Inside the suppression window
     * nothing happens. Otherwise the panel is shown with `PopupFor(text)` when
     * there is one, and the window is then reset to end at `now + 400`.
     */
    method TryAutoPopupFromText(text: string, now: int) returns (shown: Option<string>)
      modifies this
      ensures shown == if old(ShouldIgnoreAutoPopup(now)) then None else PopupFor(text)
      ensures shown.Some? ==> ignoreAutoPopupUntil == now + DetectionIgnoreMs
      ensures shown.None? ==> ignoreAutoPopupUntil == old(ignoreAutoPopupUntil)
      ensures lastCopyGestureAt == old(lastCopyGestureAt)
    {
      if ShouldIgnoreAutoPopup(now) {
        return None;
      }
      var trimmed := Trim(text);
      if trimmed == [] {
        return None;
      }
      if LooksLikeSeparatedList(trimmed) {
        MarkIgnoreAutoPopup(now, DetectionIgnoreMs);
        return Some(trimmed);
      }
      return None;
    }

    /**
     * The copy event. Events from the tool's own panel or logo are ignored;
     * otherwise the text is picked and handed to `TryAutoPopupFromText` when the
     * short timer fires, at time `firedAt`.
     */
    method OnCopyEvent(insideTool: bool, clipboard: string, selection: string, inputSelection: string,
                       firedAt: int) returns (shown: Option<string>)
      modifies this
      ensures insideTool ==> shown == None
      ensures insideTool ==> ignoreAutoPopupUntil == old(ignoreAutoPopupUntil)
      ensures !insideTool ==> shown == if old(ShouldIgnoreAutoPopup(firedAt)) then None
                                       else PopupFor(PickCopyText(clipboard, selection, inputSelection))
      ensures shown.Some? ==> ignoreAutoPopupUntil == firedAt + DetectionIgnoreMs
      ensures shown.None? ==> ignoreAutoPopupUntil == old(ignoreAutoPopupUntil)
      ensures lastCopyGestureAt == old(lastCopyGestureAt)
    {
      if insideTool {
        return None;
      }
      var text := PickCopyText(clipboard, selection, inputSelection);
      shown := TryAutoPopupFromText(text, firedAt);
    }

    /** The keydown handler: a Cmd/Ctrl+C outside the tool records the gesture
        time and schedules the deferred clipboard read (`scheduled`). */
    method OnKeyDown(key: string, meta: bool, ctrl: bool, insideTool: bool, now: int)
      returns (scheduled: bool)
      modifies this
      ensures scheduled <==> IsCopyGesture(key, meta, ctrl) && !insideTool
      ensures lastCopyGestureAt == if scheduled then now else old(lastCopyGestureAt)
      ensures ignoreAutoPopupUntil == old(ignoreAutoPopupUntil)
    {
      if !IsCopyGesture(key, meta, ctrl) || insideTool {
        return false;
      }
      lastCopyGestureAt := now;
      return true;
    }

    /**
     * The timer scheduled by `OnKeyDown`, firing at `firedAt`. It goes on to read
     * the clipboard (`read`) unless more than 800 ms have passed since the last
     * gesture or the suppression window is open. Nothing changes. The clipboard
     * read is asynchronous: when its text arrives, other handlers may already
     * have run, and the caller hands the text to `TryAutoPopupFromText` at the
     * time of arrival, which checks the window again.
     */
    method OnDeferredTimer(firedAt: int) returns (read: bool)
      ensures read <==> firedAt - lastCopyGestureAt <= GestureWindowMs && !ShouldIgnoreAutoPopup(firedAt)
    {
      if firedAt - lastCopyGestureAt > GestureWindowMs {
        return false;
      }
      if ShouldIgnoreAutoPopup(firedAt) {
        return false;
      }
      return true;
    }
  }

  /**
   * One Cmd/Ctrl+C reaches both channels: the copy event fires first and opens
   * the panel, and the deferred clipboard read of the same gesture, arriving
   * less than 400 ms later, is dropped.
   */
  method CopyThenDeferredRead(g: TriggerGate, text: string, copyAt: int, firedAt: int, readAt: int)
    returns (first: Option<string>, second: Option<string>)
    requires copyAt <= firedAt < copyAt + DetectionIgnoreMs
    modifies g
    ensures first == if old(g.ShouldIgnoreAutoPopup(copyAt)) then None else PopupFor(text)
    ensures first.Some? ==> second == None
    ensures g.lastCopyGestureAt == old(g.lastCopyGestureAt)
  {
    first := g.OnCopyEvent(false, text, "", "", copyAt);
    assert PickCopyText(text, "", "") == text || IsBlank(text);
    if IsBlank(text) {
      assert PickCopyText(text, "", "") == "";
      assert Trim(text) == [];
    }
    var read := g.OnDeferredTimer(firedAt);
    second := None;
    if read {
      second := g.TryAutoPopupFromText(text, readAt);
    }
  }

  /**
   * A click on one of the tool's copy buttons while a clipboard read is under
   * way: the text that then arrives is not shown, even though the read was
   * allowed when its timer fired.
   */
  method ToolCopyDuringClipboardRead(g: TriggerGate, text: string, firedAt: int, clickAt: int, readAt: int)
    returns (read: bool, shown: Option<string>)
    requires firedAt <= clickAt <= readAt < clickAt + DefaultIgnoreMs
    modifies g
    ensures read <==> firedAt - old(g.lastCopyGestureAt) <= GestureWindowMs
                      && !old(g.ShouldIgnoreAutoPopup(firedAt))
    ensures shown == None
  {
    read := g.OnDeferredTimer(firedAt);
    g.OnToolCopyButton(clickAt);
    shown := None;
    if read {
      shown := g.TryAutoPopupFromText(text, readAt);
    }
  }
}
