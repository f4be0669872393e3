/** The floating "Ask my AI" button on ordinary pages
    (`src/content/selection-popup.ts`): when a selection counts, where the
    button goes, which key releases re-check the selection, what a click on
    the button or its menu sends, and how a failed send is reported. */
module SelectionPopup {
  import opened Js
  import opened Constants
  import AskMenu

  // ---- isValidSelection ----

  datatype ParentElement = ParentElement(tagName: string, isContentEditable: bool)
  datatype AnchorNode = AnchorNode(parent: Option<ParentElement>)
  /** `window.getSelection()`: collapsed or not, its text, and its anchor. */
  datatype Selection = Selection(isCollapsed: bool, text: string, anchor: Option<AnchorNode>)

  /** Whether the anchor's parent is a form control or editable, the places
      where the page's own editing takes precedence over the button. */
  predicate InEditable(p: ParentElement) {
    LowerAscii(p.tagName) == "input" || LowerAscii(p.tagName) == "textarea" || p.isContentEditable
  }

  /** `isValidSelection`; `inSidePanel` is the session-storage flag the side
      panel's own frames set. */
  predicate IsValidSelection(inSidePanel: Option<string>, sel: Option<Selection>)
  {
    if Truthy(inSidePanel) then false
    else if sel.None? || sel.value.isCollapsed || Trim(sel.value.text) == "" then false
    else if sel.value.anchor.None? then false
    else if sel.value.anchor.value.parent.None? then false
    else
      var tag := LowerAscii(sel.value.anchor.value.parent.value.tagName);
      if tag == "input" || tag == "textarea" then false
      else !sel.value.anchor.value.parent.value.isContentEditable
  }

  /** The selection counts exactly when the page is not a side-panel frame,
      the selection is a non-collapsed range with some non-whitespace text,
      and it is anchored under an element that is neither a form control nor
      editable. */
  lemma {:induction false} ValidSelectionCases(inSidePanel: Option<string>, sel: Option<Selection>)
    ensures IsValidSelection(inSidePanel, sel) <==>
      && (inSidePanel.None? || inSidePanel.value == "")
      && sel.Some? && !sel.value.isCollapsed && !AllWhitespace(sel.value.text)
      && sel.value.anchor.Some? && sel.value.anchor.value.parent.Some?
      && !InEditable(sel.value.anchor.value.parent.value)
  {
  }

  // ---- positionButton ----

  const CursorOffset := 5
  const EdgeMargin := 20
  const DefaultButtonWidth := 120
  const DefaultButtonHeight := 40

  /** `Math.max(lo, Math.min(v, hi))`. */
  function Clamp(v: int, lo: int, hi: int): (r: int)
    ensures r >= lo
    ensures lo <= hi ==> r <= hi
    ensures lo <= v <= hi ==> r == v
  {
    var m := if v < hi then v else hi;
    if lo > m then lo else m
  }

  /** One axis of `positionButton`: `lo` and `hi` are the margin-adjusted
      edges, `size` the button's extent.  The far side (right, below) is
      preferred, then the near side; when neither has room the roomier one is
      taken and clamped; finally the result is clamped again. */
  function PlaceOnAxis(mouse: int, lo: int, hi: int, size: int): int {
    var spaceFar := hi - mouse - CursorOffset;
    var spaceNear := mouse - lo - CursorOffset;
    var first :=
      if spaceFar >= size then mouse + CursorOffset
      else if spaceNear >= size then mouse - size - CursorOffset
      else Clamp(if spaceFar > spaceNear then mouse + CursorOffset else mouse - size - CursorOffset, lo, hi - size);
    Clamp(first, lo, hi - size)
  }

  /** On one axis the button never starts before `lo`; it ends by `hi` when
      there is room; with the cursor inside, the far side is taken when it
      has room and otherwise the near side when that has room, and either
      way the cursor stays uncovered. */
  lemma AxisPlacement(mouse: int, lo: int, hi: int, size: int)
    ensures var r := PlaceOnAxis(mouse, lo, hi, size);
      && r >= lo
      && (hi - lo >= size ==> r <= hi - size)
      && (lo <= mouse && hi - mouse - CursorOffset >= size ==> r == mouse + CursorOffset)
      && (mouse <= hi && hi - mouse - CursorOffset < size && mouse - lo - CursorOffset >= size ==>
            r == mouse - size - CursorOffset)
      && (lo <= mouse <= hi && (hi - mouse - CursorOffset >= size || mouse - lo - CursorOffset >= size) ==>
            mouse < r || r + size < mouse)
  {
  }

  /** The page's scroll position and the window's inner size. */
  datatype Viewport = Viewport(scrollX: int, scrollY: int, innerWidth: int, innerHeight: int)

  datatype Place = Place(top: int, left: int)

  /** `button.offsetWidth || 120`. */
  function ButtonWidth(offsetWidth: nat): nat {
    if offsetWidth == 0 then DefaultButtonWidth else offsetWidth
  }

  /** `button.offsetHeight || 40`. */
  function ButtonHeight(offsetHeight: nat): nat {
    if offsetHeight == 0 then DefaultButtonHeight else offsetHeight
  }

  /** `positionButton(button, mouseX, mouseY)`: each axis placed on its own. */
  function PositionButton(vp: Viewport, offsetWidth: nat, offsetHeight: nat, mouseX: int, mouseY: int): Place
  {
    var top := PlaceOnAxis(mouseY, vp.scrollY + EdgeMargin, vp.scrollY + vp.innerHeight - EdgeMargin, ButtonHeight(offsetHeight));
    var left := PlaceOnAxis(mouseX, vp.scrollX + EdgeMargin, vp.scrollX + vp.innerWidth - EdgeMargin, ButtonWidth(offsetWidth));
    Place(top, left)
  }

  /** The button never starts above or left of the margin-adjusted view;
      when the view has room for it, it lies wholly inside; and with the
      cursor inside the view, a side with room is used as preferred (below,
      then above; right, then left) and the button then leaves the cursor
      uncovered. */
  lemma ButtonPlacement(vp: Viewport, offsetWidth: nat, offsetHeight: nat, mouseX: int, mouseY: int)
    ensures var r := PositionButton(vp, offsetWidth, offsetHeight, mouseX, mouseY);
      var vt := vp.scrollY + EdgeMargin;
      var vb := vp.scrollY + vp.innerHeight - EdgeMargin;
      var h := ButtonHeight(offsetHeight);
      && r.top >= vt
      && (vb - vt >= h ==> r.top <= vb - h)
      && (vt <= mouseY && vb - mouseY - CursorOffset >= h ==> r.top == mouseY + CursorOffset)
      && (mouseY <= vb && vb - mouseY - CursorOffset < h && mouseY - vt - CursorOffset >= h ==>
            r.top == mouseY - h - CursorOffset)
      && (vt <= mouseY <= vb && (vb - mouseY - CursorOffset >= h || mouseY - vt - CursorOffset >= h) ==>
            mouseY < r.top || r.top + h < mouseY)
    ensures var r := PositionButton(vp, offsetWidth, offsetHeight, mouseX, mouseY);
      var vl := vp.scrollX + EdgeMargin;
      var vr := vp.scrollX + vp.innerWidth - EdgeMargin;
      var w := ButtonWidth(offsetWidth);
      && r.left >= vl
      && (vr - vl >= w ==> r.left <= vr - w)
      && (vl <= mouseX && vr - mouseX - CursorOffset >= w ==> r.left == mouseX + CursorOffset)
      && (mouseX <= vr && vr - mouseX - CursorOffset < w && mouseX - vl - CursorOffset >= w ==>
            r.left == mouseX - w - CursorOffset)
      && (vl <= mouseX <= vr && (vr - mouseX - CursorOffset >= w || mouseX - vl - CursorOffset >= w) ==>
            mouseX < r.left || r.left + w < mouseX)
  {
    AxisPlacement(mouseY, vp.scrollY + EdgeMargin, vp.scrollY + vp.innerHeight - EdgeMargin, ButtonHeight(offsetHeight));
    AxisPlacement(mouseX, vp.scrollX + EdgeMargin, vp.scrollX + vp.innerWidth - EdgeMargin, ButtonWidth(offsetWidth));
  }

  // ---- the keyup filter ----

  /** The keys that extend a selection from the keyboard. */
  const TextSelectionKeys := ["ArrowLeft", "ArrowRight", "ArrowUp", "ArrowDown", "Home", "End", "PageUp", "PageDown"]

  /** `textSelectionKeys.includes(key)`. */
  predicate IsSelectionKey(key: string) {
    key in TextSelectionKeys
  }

  datatype KeyEvent = KeyEvent(key: string, ctrl: bool, alt: bool, meta: bool, shift: bool)

  /** The keyup handler re-checks the selection only for a selection key
      released with no Ctrl, Alt or Meta held. */
  predicate ReactsToKey(e: KeyEvent) {
    !(e.ctrl || e.alt || e.meta) && IsSelectionKey(e.key)
  }

  /** Shift, the modifier that actually extends a selection, makes no
      difference; a shortcut modifier always silences the handler; and keys
      outside the eight never trigger it. */
  lemma KeyFilter(e: KeyEvent)
    ensures ReactsToKey(e) == ReactsToKey(e.(shift := !e.shift))
    ensures e.ctrl || e.alt || e.meta ==> !ReactsToKey(e)
    ensures ReactsToKey(e) ==> e.key in {"ArrowLeft", "ArrowRight", "ArrowUp", "ArrowDown", "Home", "End", "PageUp", "PageDown"}
    ensures ReactsToKey(KeyEvent("ArrowLeft", false, false, false, true))
    ensures !ReactsToKey(KeyEvent("a", false, false, false, true))
    ensures |TextSelectionKeys| == 8 && Distinct(TextSelectionKeys)
  {
  }

  // ---- sendSelectionToSidePanel ----

  datatype ToastKind = InfoToast | ErrorToast
  datatype Toast = Toast(kind: ToastKind, durationMs: int)

  const InvalidatedPhrase := "Extension context invalidated"
  const NoConnectionPhrase := "Could not establish connection"

  /** The toast for a failed send, from the error's message (which may be
      missing), checked in this order. */
  function ClassifySendError(message: Option<string>): (r: Toast)
    ensures message.Some? && Includes(message.value, InvalidatedPhrase) ==> r == Toast(InfoToast, 7000)
    ensures message.Some? && !Includes(message.value, InvalidatedPhrase) && Includes(message.value, NoConnectionPhrase) ==>
      r == Toast(ErrorToast, 5000)
    ensures message.None? || (!Includes(message.value, InvalidatedPhrase) && !Includes(message.value, NoConnectionPhrase)) ==>
      r == Toast(ErrorToast, 4000)
  {
    if message.Some? && Includes(message.value, InvalidatedPhrase) then Toast(InfoToast, 7000)
    else if message.Some? && Includes(message.value, NoConnectionPhrase) then Toast(ErrorToast, 5000)
    else Toast(ErrorToast, 4000)
  }

  /** Only an invalidated context yields an info toast, and every error toast
      lasts 5 or 4 seconds; a bare "Could not establish connection" is the
      5-second kind and a missing message the 4-second kind. */
  lemma SendErrorToasts(message: Option<string>)
    ensures ClassifySendError(message).kind == InfoToast <==> message.Some? && Includes(message.value, InvalidatedPhrase)
    ensures ClassifySendError(message).kind == ErrorToast ==> ClassifySendError(message).durationMs in {4000, 5000}
    ensures ClassifySendError(Some(NoConnectionPhrase)) == Toast(ErrorToast, 5000)
    ensures ClassifySendError(None) == Toast(ErrorToast, 4000)
  {
    assert OccursAt(NoConnectionPhrase, NoConnectionPhrase, 0);
    assert !Includes(NoConnectionPhrase, InvalidatedPhrase) by {
      forall i | 0 <= i <= |NoConnectionPhrase| - |InvalidatedPhrase|
        ensures !OccursAt(NoConnectionPhrase, InvalidatedPhrase, i)
      {
        assert NoConnectionPhrase[i..i + |InvalidatedPhrase|][0] == NoConnectionPhrase[i];
        assert i == 0 || i == 1;
        assert NoConnectionPhrase[0] == 'C' && NoConnectionPhrase[1] == 'o';
      }
    }
  }

  /** The page the button lives on: `window.location.href` and `document.title`. */
  datatype Page = Page(href: string, title: string)

  /** The `OPEN_SIDE_PANEL_WITH_TEXT` request sent to the worker, with the
      page's address and title. */
  datatype Request = Request(text: string, formatType: ContextMenuItem, customPrompt: Option<string>,
                             url: string, title: string)

  /** What one send leads to: the request handed to the runtime, if any, and
      the toast shown, if any. */
  datatype SendResult = SendResult(sent: Option<Request>, toast: Option<Toast>)

  /** `sendSelectionToSidePanel` and its custom-prompt twin.  `runtimeAlive`
      stands for `chrome.runtime?.id` being set; `failure` is the outcome of
      `sendMessage`: none when it succeeds, otherwise the error's message. */
  function Send(req: Request, runtimeAlive: bool, failure: Option<Option<string>>): SendResult {
    if !runtimeAlive then SendResult(None, Some(Toast(InfoToast, 7000)))
    else if failure.None? then SendResult(Some(req), None)
    else SendResult(Some(req), Some(ClassifySendError(failure.value)))
  }

  /** The request reaches the runtime exactly when the extension context is
      alive, and then unchanged; the user sees a toast exactly when something
      went wrong, and an info toast exactly when the page needs a refresh
      because the extension was reloaded. */
  lemma SendOutcomes(req: Request, runtimeAlive: bool, failure: Option<Option<string>>)
    ensures var r := Send(req, runtimeAlive, failure);
      && (r.sent.Some? <==> runtimeAlive)
      && (r.sent.Some? ==> r.sent.value == req)
      && (r.toast.None? <==> runtimeAlive && failure.None?)
      && (r.toast.Some? && r.toast.value.kind == InfoToast <==>
            !runtimeAlive || (failure.Some? && failure.value.Some? && Includes(failure.value.value, InvalidatedPhrase)))
      && (r.toast.Some? && r.toast.value.kind == InfoToast ==> r.toast.value.durationMs == 7000)
  {
  }

  // ---- the button's state ----

  /** What the page script keeps between events: the text captured when the
      pointer entered the button, and where the button is shown, if it is. */
  datatype Popup = Popup(saved: string, button: Option<Place>)

  const Hidden := Popup("", None)

  /** Either empty or free of surrounding whitespace, as everything `trim`
      returns is. */
  predicate Trimmed(s: string) {
    s == [] || (!IsWhitespace(s[0]) && !IsWhitespace(s[|s| - 1]))
  }

  predicate Valid(p: Popup) {
    Trimmed(p.saved)
  }

  /** The re-check after a mouse release or a selection key: the button is
      shown, at the given point, exactly when the selection counts, and
      otherwise hidden with the captured text forgotten. */
  function Settle(p: Popup, inSidePanel: Option<string>, sel: Option<Selection>,
                  vp: Viewport, offsetWidth: nat, offsetHeight: nat, x: int, y: int): (r: Popup)
    ensures r.button.Some? <==> IsValidSelection(inSidePanel, sel)
    ensures r.button.Some? ==> r.button.value == PositionButton(vp, offsetWidth, offsetHeight, x, y) && r.saved == p.saved
    ensures r.button.None? ==> r.saved == ""
    ensures Valid(p) ==> Valid(r)
  {
    if IsValidSelection(inSidePanel, sel) then p.(button := Some(PositionButton(vp, offsetWidth, offsetHeight, x, y)))
    else Hidden
  }

  /** The mouseup handler: releases on the button or its menu are ignored;
      otherwise the selection is re-checked at the release point. */
  function OnMouseUp(p: Popup, onButtonOrMenu: bool, inSidePanel: Option<string>, sel: Option<Selection>,
                     vp: Viewport, offsetWidth: nat, offsetHeight: nat, pageX: int, pageY: int): Popup {
    if onButtonOrMenu then p else Settle(p, inSidePanel, sel, vp, offsetWidth, offsetHeight, pageX, pageY)
  }

  /** The keyup handler: only filtered keys re-check the selection, which
      places the button at the bottom-right corner of the selection's
      rectangle (given in viewport coordinates). */
  function OnKeyUp(p: Popup, e: KeyEvent, inSidePanel: Option<string>, sel: Option<Selection>,
                   vp: Viewport, offsetWidth: nat, offsetHeight: nat, rectRight: int, rectBottom: int): Popup {
    if !ReactsToKey(e) then p
    else Settle(p, inSidePanel, sel, vp, offsetWidth, offsetHeight, vp.scrollX + rectRight, vp.scrollY + rectBottom)
  }

  /** The mousedown handler: outside the button and its menu, a selection
      that no longer counts hides the button. */
  function OnMouseDown(p: Popup, onButtonOrMenu: bool, inSidePanel: Option<string>, sel: Option<Selection>): Popup {
    if onButtonOrMenu || IsValidSelection(inSidePanel, sel) then p else Hidden
  }

  /** Pointer events on the button or its menu never move or hide it; a
      release elsewhere shows the button exactly for a selection that counts,
      never above or left of the margin; a press elsewhere hides it exactly
      when the selection stopped counting.  The captured text stays trimmed. */
  lemma PointerEvents(p: Popup, onButtonOrMenu: bool, inSidePanel: Option<string>, sel: Option<Selection>,
                      vp: Viewport, offsetWidth: nat, offsetHeight: nat, pageX: int, pageY: int)
    ensures var up := OnMouseUp(p, onButtonOrMenu, inSidePanel, sel, vp, offsetWidth, offsetHeight, pageX, pageY);
      && (onButtonOrMenu ==> up == p)
      && (!onButtonOrMenu ==> (up.button.Some? <==> IsValidSelection(inSidePanel, sel)))
      && (!onButtonOrMenu && up.button.Some? ==>
            up.button.value.top >= vp.scrollY + EdgeMargin && up.button.value.left >= vp.scrollX + EdgeMargin)
      && (Valid(p) ==> Valid(up))
    ensures var down := OnMouseDown(p, onButtonOrMenu, inSidePanel, sel);
      && (onButtonOrMenu || IsValidSelection(inSidePanel, sel) ==> down == p)
      && (!onButtonOrMenu && !IsValidSelection(inSidePanel, sel) ==> down == Hidden)
      && (Valid(p) ==> Valid(down))
  {
    ButtonPlacement(vp, offsetWidth, offsetHeight, pageX, pageY);
  }

  /** Keys the filter rejects change nothing. */
  lemma OtherKeysIgnored(p: Popup, e: KeyEvent, inSidePanel: Option<string>, sel: Option<Selection>,
                         vp: Viewport, offsetWidth: nat, offsetHeight: nat, rectRight: int, rectBottom: int)
    requires !ReactsToKey(e)
    ensures OnKeyUp(p, e, inSidePanel, sel, vp, offsetWidth, offsetHeight, rectRight, rectBottom) == p
  {
  }

  /** A selection key re-checks the selection: the button appears exactly
      for a selection that counts. */
  lemma SelectionKeyShowsButton(p: Popup, e: KeyEvent, inSidePanel: Option<string>, sel: Option<Selection>,
                                vp: Viewport, offsetWidth: nat, offsetHeight: nat, rectRight: int, rectBottom: int)
    requires ReactsToKey(e)
    ensures OnKeyUp(p, e, inSidePanel, sel, vp, offsetWidth, offsetHeight, rectRight, rectBottom).button.Some?
        <==> IsValidSelection(inSidePanel, sel)
  {
  }

  /** A shown button sits where `PositionButton` puts it for the bottom-right
      corner of the selection's rectangle. */
  lemma {:induction false} SelectionKeyPlacesButton(p: Popup, e: KeyEvent, inSidePanel: Option<string>, sel: Option<Selection>,
                                 vp: Viewport, offsetWidth: nat, offsetHeight: nat, rectRight: int, rectBottom: int)
    requires ReactsToKey(e)
    ensures var r := OnKeyUp(p, e, inSidePanel, sel, vp, offsetWidth, offsetHeight, rectRight, rectBottom);
      r.button.Some? ==>
        r.button.value == PositionButton(vp, offsetWidth, offsetHeight, vp.scrollX + rectRight, vp.scrollY + rectBottom)
  {
  }

  /** No key release disturbs the captured text's invariant. */
  lemma KeyUpKeepsValid(p: Popup, e: KeyEvent, inSidePanel: Option<string>, sel: Option<Selection>,
                        vp: Viewport, offsetWidth: nat, offsetHeight: nat, rectRight: int, rectBottom: int)
    requires Valid(p)
    ensures Valid(OnKeyUp(p, e, inSidePanel, sel, vp, offsetWidth, offsetHeight, rectRight, rectBottom))
  {
  }

  /** Hovering the button captures the trimmed selection, if it has any
      non-whitespace text, and opens the menu beside the button. */
  function OnButtonHover(p: Popup, sel: Option<Selection>): (r: Popup)
    ensures sel.Some? && !AllWhitespace(sel.value.text) ==> r.saved == Trim(sel.value.text) && r.saved != []
    ensures !(sel.Some? && !AllWhitespace(sel.value.text)) ==> r == p
    ensures r.button == p.button
    ensures Valid(p) ==> Valid(r)
  {
    if sel.Some? && Trim(sel.value.text) != "" then p.(saved := Trim(sel.value.text)) else p
  }

  /** What a click leads to: the popup afterwards and the send, if one was made. */
  datatype ClickResult = ClickResult(popup: Popup, send: Option<SendResult>)

  /** `savedSelectedText || window.getSelection()?.toString().trim() || ""`:
      the captured text if there is one, else the trimmed live selection.
      It is empty exactly when neither has any non-whitespace text, and it
      is trimmed whenever the captured text is. */
  function ButtonText(p: Popup, live: Option<Selection>): (t: string)
    ensures t == [] <==> p.saved == [] && (live.None? || AllWhitespace(live.value.text))
    ensures p.saved != [] ==> t == p.saved
    ensures p.saved == [] && live.Some? ==> t == Trim(live.value.text)
    ensures Trimmed(p.saved) ==> Trimmed(t)
  {
    if p.saved != "" then p.saved
    else if live.Some? then Trim(live.value.text)
    else ""
  }

  /** The button's own click: the text above, when there is one, is sent as
      "ask-my-ai" and the button is hidden; otherwise nothing happens. */
  function OnButtonClick(p: Popup, live: Option<Selection>, page: Page, runtimeAlive: bool,
                         failure: Option<Option<string>>): (r: ClickResult)
    ensures r.send.Some? <==> ButtonText(p, live) != []
    ensures r.send.None? ==> r.popup == p
    ensures r.send.Some? ==>
      r.popup == Hidden && r.send.value == Send(Request(ButtonText(p, live), AskMyAi, None, page.href, page.title), runtimeAlive, failure)
  {
    var text := ButtonText(p, live);
    if text == "" then ClickResult(p, None)
    else ClickResult(Hidden, Some(Send(Request(text, AskMyAi, None, page.href, page.title), runtimeAlive, failure)))
  }

  /** A preset in the menu: it sends the captured text with that preset's
      format and hides the button; without a captured text it does nothing. */
  function OnMenuItemClick(p: Popup, item: ContextMenuItem, page: Page, runtimeAlive: bool,
                           failure: Option<Option<string>>): (r: ClickResult)
    ensures r.send.Some? <==> p.saved != ""
    ensures r.send.None? ==> r.popup == p
    ensures r.send.Some? ==> r.popup == Hidden && r.send.value == Send(Request(p.saved, item, None, page.href, page.title), runtimeAlive, failure)
  {
    if p.saved == "" then ClickResult(p, None)
    else ClickResult(Hidden, Some(Send(Request(p.saved, item, None, page.href, page.title), runtimeAlive, failure)))
  }

  /** Enter in the custom-prompt box: with a captured text and a prompt that
      is not blank, both are sent, the prompt trimmed, and the button is
      hidden. */
  function OnCustomPromptEnter(p: Popup, input: string, page: Page, runtimeAlive: bool,
                               failure: Option<Option<string>>): (r: ClickResult)
    ensures r.send.Some? <==> p.saved != "" && !AllWhitespace(input)
    ensures r.send.None? ==> r.popup == p
    ensures r.send.Some? ==>
      r.popup == Hidden && r.send.value == Send(Request(p.saved, AskMyAi, Some(Trim(input)), page.href, page.title), runtimeAlive, failure)
  {
    var prompt := Trim(input);
    if p.saved != "" && prompt != "" then
      ClickResult(Hidden, Some(Send(Request(p.saved, AskMyAi, Some(prompt), page.href, page.title), runtimeAlive, failure)))
    else ClickResult(p, None)
  }

  /** Every text the button hands to the worker is non-empty and free of
      surrounding whitespace and goes with the page's address and title, and
      the popup keeps its invariant. */
  lemma ButtonSendsTrimmedText(p: Popup, live: Option<Selection>, page: Page, runtimeAlive: bool, failure: Option<Option<string>>)
    requires Valid(p)
    ensures var r := OnButtonClick(p, live, page, runtimeAlive, failure);
      Valid(r.popup) && (r.send.Some? && r.send.value.sent.Some? ==>
        && r.send.value.sent.value.text != [] && Trimmed(r.send.value.sent.value.text)
        && r.send.value.sent.value.url == page.href && r.send.value.sent.value.title == page.title)
  {
  }

  /** The same for a preset in the menu. */
  lemma MenuSendsTrimmedText(p: Popup, item: ContextMenuItem, page: Page, runtimeAlive: bool, failure: Option<Option<string>>)
    requires Valid(p)
    ensures var r := OnMenuItemClick(p, item, page, runtimeAlive, failure);
      Valid(r.popup) && (r.send.Some? && r.send.value.sent.Some? ==>
        && r.send.value.sent.value.text != [] && Trimmed(r.send.value.sent.value.text)
        && r.send.value.sent.value.url == page.href && r.send.value.sent.value.title == page.title)
  {
  }

  /** The same for the custom-prompt box, whose prompt is trimmed and
      non-empty too. */
  lemma CustomPromptSendsTrimmedText(p: Popup, input: string, page: Page, runtimeAlive: bool, failure: Option<Option<string>>)
    requires Valid(p)
    ensures var r := OnCustomPromptEnter(p, input, page, runtimeAlive, failure);
      Valid(r.popup) && (r.send.Some? && r.send.value.sent.Some? ==>
        && r.send.value.sent.value.text != [] && Trimmed(r.send.value.sent.value.text)
        && r.send.value.sent.value.customPrompt.Some? && r.send.value.sent.value.customPrompt.value != []
        && Trimmed(r.send.value.sent.value.customPrompt.value)
        && r.send.value.sent.value.url == page.href && r.send.value.sent.value.title == page.title)
  {
    var r := OnCustomPromptEnter(p, input, page, runtimeAlive, failure);
    if r.send.Some? && r.send.value.sent.Some? {
      assert r.send.value.sent.value == Request(p.saved, AskMyAi, Some(Trim(input)), page.href, page.title);
    }
  }

  /** Whenever the button is shown for a valid selection, a click on it has
      something to send, even if the pointer never hovered the button. */
  lemma ShownButtonHasText(inSidePanel: Option<string>, sel: Selection, page: Page, runtimeAlive: bool,
                           failure: Option<Option<string>>)
    requires IsValidSelection(inSidePanel, Some(sel))
    ensures OnButtonClick(Hidden, Some(sel), page, runtimeAlive, failure).send.Some?
  {
  }
}
