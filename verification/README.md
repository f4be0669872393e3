# ask-my-ai, modelled in Dafny

ask-my-ai is a Chrome extension. It sends text selected on any page to an AI chat site that is open in the browser's side panel. The text travels along this path:

- The selection starts from a context-menu item, or from a floating "Ask my AI" button on the page.
- The background worker wraps the text in a fixed prompt and stores it as a selection record. The record holds the prompt, the tab's address and title, a timestamp, and the current and previous AI.
- The worker pushes the record to every iframe-side script connected to it.
- The side panel answers the embedded page's handshake and selection requests.
- The iframe-side script finds the AI page's prompt inputs and writes the text into them.

The model covers the current TypeScript version of each piece and the legacy JavaScript version of the worker and the iframe script. Browser APIs, storage areas, the clock and the DOM's answers are parameters.

The modules:

- `Js`: the JavaScript behaviour the code relies on: truthiness, `|| null` and `|| fallback` on possibly-missing strings, template interpolation, `trim`, `includes` and ASCII `toLowerCase`.
- `Types`: the `SelectionInfo` record and the click info a context-menu click reports.
- `Constants`: the `URLs` destination table, `ContextMenu` ids and `MessageAction` tags.
- `Storage`: `ExtStorage`. Each storage area is a map from keys to JavaScript values. The typed getters fall back to a default when the stored value has the wrong type. Reading an expired selection record returns nothing and deletes it.
- `Port`: the named port between worker and iframe script, its message shapes, and the one-shot "connected" acknowledgement wait.
- `Prompt`: `formatSelectionText`, the prompt template shared by both workers.
- `ServiceWorker`: the current worker (`src/service-worker.ts`). It covers the context-menu click, the selection record with its current/previous AI shift, the registry of live connections, and the `getSelection` port handler.
- `LegacyBackground`: the legacy worker (`background.js`). Its registry is a map keyed by tab id. A click is pushed through the tab's port when one is registered and otherwise falls back to storage. It also has the `getSelectionText` handler.
- `Injection`: prompt-input discovery, the growing candidate set (an insertion-ordered JavaScript `Set`, kept as a sequence without repeats), `new Set(...)` deduplication, and writing a text plus synthetic events into every target.
- `ContentScript`: the current iframe script (`src/content.ts`) as a state machine. It covers the acknowledgement wait, the port handler, the pending record, the 11-tick polling loop and the staleness gate.
- `LegacyContentScript`: the legacy iframe script (`content.js`). It focuses each input before writing, has no staleness gate, and keeps its pending text after polling stops.
- `SidePanel`: `src/side-panel.ts`. It covers `sendMessageToContent`, the window-message dispatch (handshake, selection request), the `SELECTION_INFO_SAVED` forwarder, the start-up AI, and the storage updates of `loadAIInIframe`.
- `SelectionPopup`: the floating button (`src/content/selection-popup.ts`). It covers selection validity, button placement, the keyup key filter, the mouse handlers, the click, menu and custom-prompt sends, and how send errors become toasts.
- `AskMenu`: `positionMenu` and the preset actions of the button's menu (`src/content/ui/ask.ts`).
- `Relay`: how the current worker and the current iframe script fit together. A click's record is read back by the iframe script's request with the AIs shifted, and the staleness gate decides on the shifted pair.

## Model

| member | source | states |
|---|---|---|
| Js.Trim | src/content/selection-popup.ts:103 | The result is no longer than the input. It is empty exactly when the input is all whitespace, and otherwise it neither starts nor ends with whitespace. |
| Js.TrimIsSlice | src/content/selection-popup.ts:103 | What `trim` keeps is the slice of the input that starts after its leading whitespace, character for character. Everything before and after that slice is whitespace. |
| Js.TrimStart | src/content/selection-popup.ts:331 | The result is a suffix of the input that does not start with whitespace. Everything dropped is whitespace. |
| Js.TrimEnd | src/content/selection-popup.ts:331 | The result is a prefix of the input that does not end with whitespace. Everything dropped is whitespace. |
| Js.LowerAscii | src/content/selection-popup.ts:114 | The result has the input's length and no upper-case letter. Each 'A'..'Z' becomes the matching 'a'..'z', and every other character is kept. |
| Js.LowerAsciiIdempotent | src/content/selection-popup.ts:114-115 | Lower-casing twice is lower-casing once, and "TextArea" and "INPUT" compare equal to the tag names the code checks for. |
| Constants.UrlsTable | src/constants.ts:5-51 | The destination table has nine entries with distinct keys, and its first key is "chatgpt". Every entry has a non-empty label and an https address. |
| Constants.MenuItemOf | src/constants.ts:53-58 | An id read back as a menu item is that item's own id. |
| Constants.ContextMenuIds | src/constants.ts:53-58 | The four menu ids are distinct and each reads back as its own item. The top-level item's id is "ask-my-ai". |
| Constants.ActionIndex | src/constants.ts:62-88 | Every message action has a row in the five-row tag table. |
| Constants.ActionOf | src/constants.ts:62-88 | A tag read back as an action is exactly that action's tag. |
| Constants.MessageActionTags | src/constants.ts:62-88 | There are five tags. Each equals its own key name, they are pairwise distinct, and each reads back as its action. |
| Storage.Put | src/storage.ts:14-16 | A write sets exactly one key, adds it to the area's keys, and leaves every other key's value alone. |
| Storage.Remove | src/storage.ts:81-83 | A removal deletes exactly one key and leaves every other key's value alone. |
| Storage.GetSelectedAI | src/storage.ts:5-12 | The getter answers a value exactly when a string is stored, and then it answers that string. Anything else reads as null. |
| Storage.GetPrevSelectedAI | src/storage.ts:18-25 | The getter answers a value exactly when a string is stored, and then it answers that string. Anything else reads as null. |
| Storage.GetEnabledAIs | src/storage.ts:35-41 | The getter answers a list exactly when an array is stored, and then it answers that array. Anything else reads as null. |
| Storage.Strs | src/storage.ts:43-45 | The stored array holds the given names, in order. |
| Storage.GetSelectionButtonEnabled | src/storage.ts:51-57 | The getter answers the stored boolean if there is one and true otherwise. |
| Storage.LocalRoundTrips | src/storage.ts:5-61 | Each local setter is read back by its own getter. Every other getter's answer is unchanged by it. |
| Storage.GetSelectionInfo | src/storage.ts:65-77 | With no record stored, the answer is null and nothing changes. An expired record reads as null and is removed, with the other keys untouched. A record within the ttl, exactly the ttl included, is returned and nothing changes. |
| Storage.SetThenGetSelectionInfo | src/storage.ts:65-80 | A written record replaces any earlier one. Reading it back within the ttl returns exactly that record and leaves the area unchanged. Reading it after the ttl returns nothing. |
| Storage.DefaultTtlBoundary | src/storage.ts:65-77 | The default ttl is 180000 ms. A record stamped T is still returned at T+180000. At T+180001 it is gone, and it stays gone for every later read. |
| Storage.GetPanelOpenState | src/storage.ts:85-88 | The panel state is true exactly when the stored value is the boolean true. |
| Storage.SessionKeysIndependent | src/storage.ts:65-91 | The panel flag round-trips. The selection record and the panel flag never disturb each other. |
| Port.AckStep | src/content.ts:6-21 | Once decided, the acknowledgement wait never changes. While it is awaited, the first message decides it: resolved exactly when that message's action is "connected". |
| Port.AckDecidedByFirstMessage | src/content.ts:6-21 | Over any non-empty message sequence, the first message alone decides the wait. Later messages do not matter, because the listener is removed. |
| Port.AckSettled | content.js:4-19 | A decided wait stays decided whatever messages follow. |
| Prompt.FormatSelectionText | src/service-worker.ts:81-89 | The prompt is a header naming the address and the quoted title, ending in an opening `"""` line. The selected text follows verbatim, then a closing `"""` line. The address, the quoted title and the fenced text each sit at their stated positions. |
| Prompt.Layout | src/service-worker.ts:81-89 | For any address, title and text, each part of the template sits at its position: header prefix, verbatim text, closing fence, address, quoted title, fenced text. |
| Prompt.SnippetRoundTrip | src/service-worker.ts:81-89 | The text reads back out of the prompt unchanged. Two different selections on the same page never produce the same prompt. |
| Prompt.PromptIncludes | src/service-worker.ts:81-89 | Every prompt contains its address, its title and its text. |
| Prompt.WorkedExample | src/service-worker.ts:81-89 | A selection on https://example.com/bio titled "Biology 101" gives a prompt containing the host and path, the title and the sentence. |
| ServiceWorker.StoredCurrentAi | src/service-worker.ts:57-64 | The previous AI of a new record is the stored record's current AI when that is a non-empty string, and null otherwise, including when no record is stored. |
| ServiceWorker.SelectedAiOrNull | src/service-worker.ts:57-64 | The current AI of a new record is the stored selected AI when that is a non-empty string, and null otherwise. |
| ServiceWorker.NewRecord | src/service-worker.ts:54-64 | The record holds: the prompt around the selected text; the tab's address and title, or "wtf" when missing; the click time; the previously stored record's current AI as its previous AI; and the selected AI as its current AI. |
| ServiceWorker.PushAll | src/service-worker.ts:68-74 | Every registered connection receives the message exactly once, in registry order. |
| ServiceWorker.OnContextMenuClick | src/service-worker.ts:39-79 | A foreign menu id or a missing tab does nothing. With no selected text, only the panel opens. Otherwise the panel opens, the new record is stored under "selectionInfo" with every other session key untouched, and the record is pushed to every connection. |
| ServiceWorker.ClicksShiftAi | src/service-worker.ts:54-66 | After two clicks, the second record's previous AI is the AI selected at the first click and its current AI is the one selected at the second. |
| ServiceWorker.OnConnect | src/service-worker.ts:95-117 | A foreign port name or no active tab registers nothing and sends no ack. Otherwise exactly one fresh connection is appended and acknowledged with "connected". Registry validity is preserved. |
| ServiceWorker.Without | src/service-worker.ts:147-151 | The entries kept are exactly those of other connections. |
| ServiceWorker.WithoutKeepsDistinct | src/service-worker.ts:147-151 | Deleting a connection keeps the remaining connections distinct. |
| ServiceWorker.HeadNotInRest | src/service-worker.ts:147-151 | In a registry without repeats, nothing left in the tail after a deletion repeats the head's connection. |
| ServiceWorker.OnDisconnect | src/service-worker.ts:147-151 | The registry loses exactly the disconnected connection and stays valid. |
| ServiceWorker.ConnectThenDisconnect | src/service-worker.ts:107-151 | Connecting adds one entry. Disconnecting that same port restores the previous set of live connections. |
| ServiceWorker.OnPortMessage | src/service-worker.ts:120-144 | There is a reply exactly to "getSelection" while a record is stored, with no expiry check. The reply is that record with its previous AI set to its stored current AI and its current AI set to the selected AI. All other fields are unchanged. |
| LegacyBackground.FormatFor | background.js:62-72 | The prompt is the shared template's header for the connection's address and title, with a missing one rendered as "undefined", then the text, then the closing fence. It contains the address, the title and the text, and the text reads back out of it unchanged. |
| LegacyBackground.StoreText | background.js:51-58 | The fallback writes the raw text under "selectionText" and nothing else. |
| LegacyBackground.OnContextMenuClick | background.js:37-60 | A foreign menu id or an empty text does nothing. A tab with a registered connection gets the formatted prompt on that connection's port, with storage untouched. A missing tab, a failed panel open, or a tab with no connection stores the raw text instead. |
| LegacyBackground.ClickDeliversOnce | background.js:37-60 | A handled click delivers by exactly one route. Either one push goes to the tab's port, the text reads back from it and storage is untouched, or nothing is pushed and the text is stored. |
| LegacyBackground.OnConnect | background.js:78-105 | A foreign port name or no active tab changes nothing. Otherwise the connection is stored under the active tab's id, replacing any earlier one for that tab with every other tab's entry unchanged, and acknowledged with "connected". |
| LegacyBackground.ConnectThenClickPushes | background.js:37-105 | A click on a tab right after its script connected is pushed through that port. The prompt names the tab's address and title. |
| LegacyBackground.OnPortMessage | background.js:108-124 | There is a reply, on the connection's own port, exactly to "getSelectionText" while a non-empty text is stored. The reply is the prompt built from that text and the connection's address and title. |
| LegacyBackground.FallbackThenRequest | background.js:51-124 | After a click fell back to storage, a request from any connection is answered with a prompt from which the clicked text reads back. |
| LegacyBackground.DisconnectAsWritten | background.js:127-131 | The disconnect handler as written: the entry under the tab id captured at connection is deleted whichever connection it now holds, and the other entries are untouched. |
| LegacyBackground.DisconnectDropsLiveConnection | background.js:127-131 | Two scripts connect on one tab and the older one disconnects. The newer, still-open connection is then unregistered, and the next click falls back to storage. |
| LegacyBackground.OnDisconnect | background.js:127-131 | The corrected disconnect: an entry is removed only by its own port's disconnect, and afterwards that port is no longer registered for the tab. |
| LegacyBackground.DisconnectKeepsLiveConnection | background.js:127-131 | With the corrected disconnect, the same scenario keeps the newer connection, and the next click reaches its port. |
| Injection.PromptElements | src/content.ts:26-44 | At most three candidates are found, each query contributing its match if there is one, in the order contenteditable, textarea, text input. |
| Injection.AddAll | src/content.ts:71-75 | The candidate set never shrinks or reorders: the old set is a prefix of the new. Exactly the found elements are added, and the set stays free of repeats. |
| Injection.AddAllGrows | src/content.ts:71-79 | The set grows exactly when some found element was not in it yet. |
| Injection.Dedup | src/content.ts:106 | `new Set(...)` keeps each element once and loses none. |
| Injection.DispatchBlocks | src/content.ts:121-133 | The event log of an injection is one block per target, in target order. Each block is exactly input, change, keydown and keyup, all bubbling, preceded by a focus in the legacy script. |
| Injection.WriteEach | src/content.ts:110-134 | Every target ends up holding the text, written through `value` for form controls and `innerText` otherwise. Other elements keep what they held. Each target's events are logged in order. |
| Injection.Inject | src/content.ts:106-134 | The same holds for the deduplicated targets. |
| Injection.InjectIdempotent | src/content.ts:106-119 | Injecting the same text into the same targets twice leaves the elements as one injection does. |
| ContentScript.InjectText | src/content.ts:99-135 | A stale record changes nothing. A stale record is one whose previous and current AI are equal, two nulls included, and that is more than 3000 ms old. Otherwise every target holds the record's text and gets its four events. |
| ContentScript.Tick | src/content.ts:68-95 | A tick adds exactly this tick's discoveries to the candidate set. It acts only if the set grew. It then injects the pending record into this tick's discoveries, or else asks for the selection. It reschedules through the tenth attempt. After the eleventh it stops and drops the pending record. |
| ContentScript.Receive | src/content.ts:6-63 | Before the ack, "connected" starts polling at once and anything else makes `init` fail. Afterwards only "getSelection" is handled: discovery first. Then the record is parked if there is no input yet, and otherwise injected into every known input. |
| ContentScript.StepKeepsValid | src/content.ts:23-95 | Every step keeps the state valid. |
| ContentScript.RunKeepsValidAndGrows | src/content.ts:23-95 | In any sequence of messages and timer firings, the state stays valid. At most eleven ticks ever run, and the candidate set only grows. |
| ContentScript.InitialIsValid | src/content.ts:23-24 | The start state is valid. |
| ContentScript.StoppedTicksChangeNothing | src/content.ts:90-94 | Once polling stopped, timer firings change nothing. |
| ContentScript.PollingStopsAndDropsPending | src/content.ts:90-94 | Left alone, running polling stops after its eleventh tick with the pending record dropped. |
| LegacyContentScript.InjectText | content.js:96-123 | There is no gate. Every target is focused, then holds the text and gets input, change, keydown and keyup. Other elements keep what they held. |
| LegacyContentScript.Tick | content.js:66-92 | A tick adds exactly this tick's discoveries to the candidate set. It acts only if the set grew. It then injects a non-empty pending text into this tick's discoveries, or else asks for the text. It stops after the eleventh attempt, and the pending text is kept. |
| LegacyContentScript.Receive | content.js:4-61 | It has the same ack wait. On "getSelectionText" with no input yet, the text is parked, whatever it is. With inputs, a non-empty text is written into all of them, and an empty or missing one changes nothing. |
| LegacyContentScript.RunKeepsValidAndGrows | content.js:21-92 | In any sequence of events, the state stays valid. At most eleven ticks run, and the candidate set only grows. |
| LegacyContentScript.PollingStopsKeepingPending | content.js:89-91 | Left alone, a running script has stopped polling after its eleventh tick, however many further timer firings come, and the pending text survives. |
| SidePanel.SendToContent | src/side-panel.ts:9-21 | Nothing is posted exactly when there is no iframe or it has no content window. Otherwise exactly the given message is posted. |
| SidePanel.OnWindowMessage | src/side-panel.ts:23-51 | A handshake with the panel's own id is answered with that id. A handshake with a foreign id gets no answer. A selection request is answered exactly when an unexpired record is stored, with the stored current and previous AI, and reading an expired record deletes it. Any other action gets nothing. |
| SidePanel.WindowMessageGuarantees | src/side-panel.ts:23-51 | A handshake reply only answers a handshake carrying the panel's own id. A selection reply only carries a stored, unexpired record, with the stored AIs and not forced. |
| SidePanel.OnRuntimeMessage | src/side-panel.ts:53-67 | Nothing is posted exactly when the action is not `SELECTION_INFO_SAVED` or there is no iframe with a content window. Otherwise one reply is posted, with the record unchanged, forced, and both AIs null. |
| SidePanel.PushAndRequestAgree | src/side-panel.ts:34-63 | The forwarded push and the answer to a request for a stored, unexpired record carry the same record. Only the push is forced, and only the answer names the stored AIs. |
| SidePanel.StartupAi | src/side-panel.ts:93-96 | The AI loaded at start-up is always a destination key: the stored one if it is a key, otherwise "chatgpt". |
| SidePanel.LoadAi | src/side-panel.ts:99-109 | The new AI becomes the selected one. The old one becomes the previous one only if it was non-empty. No other key changes. |
| SidePanel.SwitchRecordsPrevious | src/side-panel.ts:99-109 | Switching from destination a to destination b leaves b current and a previous, whatever was stored before. |
| SelectionPopup.ValidSelectionCases | src/content/selection-popup.ts:97-124 | A selection counts exactly when all of these hold: the page is not a side-panel frame; it is a non-collapsed range with non-whitespace text; it is anchored under an element; and that element is neither an input, a textarea nor editable. |
| SelectionPopup.Clamp | src/content/selection-popup.ts:58 | The result is never below the lower bound. It is never above the upper bound when the bounds are ordered, and it is unchanged when already between them. |
| SelectionPopup.AxisPlacement | src/content/selection-popup.ts:20-86 | On one axis the button never starts before the margin, and ends by the far margin when there is room. With the cursor inside, the far side is taken if it has room, and otherwise the near side if it has. Then the cursor stays uncovered. |
| SelectionPopup.ButtonPlacement | src/content/selection-popup.ts:20-86 | The button's top and left are never above or left of the margin-adjusted view. They lie within the view when it has room. With the cursor inside, placement is below then above, and right then left, leaving the cursor uncovered. |
| SelectionPopup.KeyFilter | src/content/selection-popup.ts:273-284 | Only the eight navigation keys, released without Ctrl, Alt or Meta, trigger a re-check. Shift makes no difference. |
| SelectionPopup.ClassifySendError | src/content/selection-popup.ts:146-157 | An invalidated context gives an info toast for 7000 ms. Otherwise a failed connection gives an error toast for 5000 ms. Anything else, a missing message included, gives an error toast for 4000 ms. |
| SelectionPopup.SendErrorToasts | src/content/selection-popup.ts:146-157 | Only an invalidated context gives an info toast. Every error toast lasts 4 or 5 seconds. The bare connection phrase gives 5 s and a missing message 4 s. |
| SelectionPopup.SendOutcomes | src/content/selection-popup.ts:127-159 | The request reaches the runtime, unchanged, exactly when the extension context is alive. A toast appears exactly when something failed. It is an info toast, lasting 7 s, exactly when the page needs a refresh. |
| SelectionPopup.Settle | src/content/selection-popup.ts:260-268 | After the re-check the button is shown exactly for a selection that counts, at the placement for the given point. Otherwise it is hidden and the captured text is forgotten. |
| SelectionPopup.PointerEvents | src/content/selection-popup.ts:239-323 | Events on the button or its menu change nothing. A release elsewhere shows the button exactly for a selection that counts, inside the margin. A press elsewhere hides it exactly when the selection stopped counting. |
| SelectionPopup.OtherKeysIgnored | src/content/selection-popup.ts:275-284 | Keys the filter rejects change nothing. |
| SelectionPopup.SelectionKeyShowsButton | src/content/selection-popup.ts:286-301 | After a selection key, the button is shown exactly for a selection that counts. |
| SelectionPopup.SelectionKeyPlacesButton | src/content/selection-popup.ts:293-297 | After a selection key, a shown button is placed for the bottom-right corner of the selection's rectangle, in page coordinates. |
| SelectionPopup.KeyUpKeepsValid | src/content/selection-popup.ts:275-302 | A key release keeps the captured text trimmed. |
| SelectionPopup.OnButtonHover | src/content/selection-popup.ts:326-336 | Hovering captures the trimmed selection if it has non-whitespace text, and leaves the button where it is. |
| SelectionPopup.ButtonText | src/content/selection-popup.ts:422 | The click text is the captured text if there is one, else the trimmed live selection. It is empty exactly when neither has non-whitespace text. |
| SelectionPopup.OnButtonClick | src/content/selection-popup.ts:417-431 | A click sends exactly when there is a text, as "ask-my-ai" with the page's address and title, and hides the button. Otherwise nothing changes. |
| SelectionPopup.OnMenuItemClick | src/content/selection-popup.ts:375-390 | A preset sends the captured text with its own format and the page's address and title, and hides the button. It does nothing without a captured text. |
| SelectionPopup.OnCustomPromptEnter | src/content/selection-popup.ts:393-409 | Enter sends exactly when there is a captured text and a non-blank prompt. The prompt goes trimmed, and the button is hidden. |
| SelectionPopup.ButtonSendsTrimmedText | src/content/selection-popup.ts:417-431 | Every text the button sends is non-empty and trimmed, and goes with the page's address and title. |
| SelectionPopup.MenuSendsTrimmedText | src/content/selection-popup.ts:375-390 | Every text a preset sends is non-empty and trimmed, and goes with the page's address and title. |
| SelectionPopup.CustomPromptSendsTrimmedText | src/content/selection-popup.ts:393-409 | The custom prompt send carries a non-empty trimmed text, a non-empty trimmed prompt, and the page's address and title. |
| SelectionPopup.ShownButtonHasText | src/content/selection-popup.ts:417-431 | A button shown for a valid selection always has something to send, even without a hover. |
| AskMenu.PositionMenu | src/content/ui/ask.ts:207-222 | The menu is level with the button. By default it sits to the button's right and then ends within the visible width. It flips to the left exactly when the default would overflow, and the flipped position is not clamped. |
| AskMenu.MenuBesideButton | src/content/ui/ask.ts:207-222 | The menu never covers the button. It lies a full gap to the right exactly when it fits there, and otherwise a full gap to the left. |
| Relay.ClickThenRequest | src/service-worker.ts:120-144 | After a click, the iframe script's request is answered with the clicked text's prompt and the click time. Its previous AI is the AI selected at the click and its current AI the one selected at the request. With the same AI kept, the content script's gate lets it through only within 3000 ms of the click. After a switch of AI it always lets it through. |
| AskMenu.PresetActionsAreTheFormats | src/content/ui/ask.ts:187-189 | There are three distinct presets: every context-menu item except "Ask my AI", each with an id that reads back as the item. |

## Left out

- Browser APIs are not modelled as such. `chrome.storage`, ports, `runtime.sendMessage`, `sidePanel.open`, `tabs.query` and `postMessage` become maps, lists of outgoing messages and boolean or optional parameters, and nothing is asynchronous.
- Timers and animation delays (`setTimeout`, the 10 ms and 100 ms debounces, the 500 ms polling period) are not modelled as time. Each one is an explicit step, and `Date.now()` is a parameter.
- The `declarativeNetRequest` header rule (src/service-worker.ts:11-35, background.js:9-33) is configuration with no logic.
- The iframe creation and the `onerror` fallback page in `loadAIInIframe` (src/side-panel.ts:111-179) are DOM construction. Only the storage updates before them are modelled.
- The panel's dropdown population, clipboard copy (`src/utils.ts`), logging (`src/logger.ts`), toasts' rendering (`src/content/ui/toast.ts`), `src/popup.ts` and the button and menu markup are presentation or I/O.
- `hideMenu` and `hideButton` animations, the mousemove tracker and the mouse-leave menu timer are not modelled. The menu's visibility is not part of the state, only the captured text and the button's placement.
- The scroll handler (src/content/selection-popup.ts:433-459) is not modelled. It acts only while the button's display is "flex", but `positionButton` sets "block", so it never runs.
- The page script's `SHOW_TOAST` listener (src/content/selection-popup.ts:198-202) is left out. It only forwards a message to the toast renderer.
- `ignorePatterns` and `main` (src/content.ts:138-151) are left out. They decide whether the iframe script starts at all, from the page address.
- The `info` payload of the "connected" acknowledgement is not modelled. No script reads it.
- `src/constants.ts` as given defines no `OPEN_SIDE_PANEL_WITH_TEXT`, `SHOW_TOAST` or `SESSION_STORAGE_KEYS`. The page script uses them, so the request action is kept abstract in `SelectionPopup.Request`. The in-side-panel flag is a parameter.
- The worker handler for `OPEN_SIDE_PANEL_WITH_TEXT`, the receiver of the button's requests, is not part of this model.
- `AiType` in src/types.ts names seven AIs while `URLs` has nine keys. AI identifiers are modelled as strings, as the code casts them.
- Pixel coordinates are modelled as integers, not floating-point numbers.
- Storage.GetSelectionInfo: a stored "selectionInfo" that is not a record object reads as absent. The code would return any truthy value.
- ServiceWorker.StoredCurrentAi: a stored "selectionInfo" that is not a record object reads as having no current AI. The code reads `currentAi` off whatever value is stored.
- ServiceWorker.SelectedAiOrNull: a stored non-string selected AI reads as null. The code passes any truthy value through.
- SidePanel.StartupAi: `selectedAI in URLs` is modelled as own keys only, so inherited `Object.prototype` names are not treated as destinations.
- SidePanel.OnWindowMessage: the reply to a selection request has no `forced` field in the code. It is modelled as `forced` false, since no reader distinguishes the two.
- ServiceWorker.OnContextMenuClick: a failing `sidePanel.open` is not modelled. The handler is taken to continue after opening the panel.
- LegacyBackground.OnPortMessage: a stored truthy value that is not a string is not modelled. Only string values under "selectionText" are answered.
- LegacyContentScript.Receive: only string payloads are modelled for `selectionText`, and a missing one reads as undefined.
- SelectionPopup.IsValidSelection: `toLowerCase` is modelled for ASCII letters only, which covers every HTML tag name.
- SelectionPopup.ButtonPlacement: it is stated for integer coordinates, and the placement with no room on either side is bounded but not pinned to a value.
- SelectionPopup.SendErrorToasts: its concrete examples are the bare phrases and a missing message, not full browser error messages.

## Findings

| source | as written | input that shows it | evidently intended | confidence | as-written member | corrected member |
|---|---|---|---|---|---|---|
| background.js:127-131 | On disconnect, the entry under the tab id captured at connection time is deleted, whichever connection the entry now holds. | Port 1 connects while tab 7 is active, then port 2 connects on tab 7 and replaces it in the map. Then port 1 disconnects: tab 7's entry, which holds the still-open port 2, is deleted, and the next click on tab 7 falls back to storage. | Remove the tab's entry only while it still holds the disconnecting port. | not executed | LegacyBackground.DisconnectDropsLiveConnection | LegacyBackground.DisconnectKeepsLiveConnection |
