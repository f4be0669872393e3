/** The side panel (`src/side-panel.ts`): it embeds the chosen AI in an iframe,
    answers the iframe's handshake and selection requests over `postMessage`,
    forwards the worker's "selection saved" push, and records which AI was
    chosen before the current one. */
module SidePanel {
  import opened Js
  import opened Types
  import opened Storage
  import opened Constants

  /** The panel's iframe, if one has been created, and whether it currently has
      a content window to post to. */
  datatype Frame = Frame(hasContentWindow: bool)

  /** What the panel posts into the iframe.  `forced` false stands for the
      field being absent, as it is in replies to a selection request. */
  datatype PanelMessage =
    | HandshakeRespMsg(extId: string)
    | SelectionRespMsg(info: SelectionInfo, forced: bool, currentAi: Option<string>, previousAi: Option<string>)

  /** `sendMessageToContent`: the message goes out only when there is an
      iframe with a content window; the result is what was posted. */
  function SendToContent(iframe: Option<Frame>, m: PanelMessage): (r: seq<PanelMessage>)
    ensures r == [] <==> iframe.None? || !iframe.value.hasContentWindow
    ensures r != [] ==> r == [m]
  {
    if iframe.None? then []
    else if !iframe.value.hasContentWindow then []
    else [m]
  }

  /** `e.data` of a window message: its action and, for a handshake, the
      sender's extension id. */
  datatype WindowMessage = WindowMessage(action: string, extId: Option<string>)

  /** What one window message leads to: the messages posted to the iframe and
      the session area afterwards (reading an expired selection removes it). */
  datatype Dispatched = Dispatched(sent: seq<PanelMessage>, session: Store)

  /** `window.onmessage`, with the panel's own extension id, both storage areas
      and the clock as parameters. */
  function OnWindowMessage(iframe: Option<Frame>, e: WindowMessage, ownId: string,
                           local: Store, session: Store, now: int): (r: Dispatched)
    ensures |r.sent| <= 1
    ensures e.action == Tag(HandshakeInit) && e.extId == Some(ownId) ==>
      r == Dispatched(SendToContent(iframe, HandshakeRespMsg(ownId)), session)
    ensures e.action == Tag(HandshakeInit) && e.extId != Some(ownId) ==> r == Dispatched([], session)
    ensures e.action == Tag(SelectionInfoReq) ==>
      var read := GetSelectionInfo(session, now, DefaultTtlMs);
      && r.session == read.session
      && (read.info.None? ==> r.sent == [])
      && (read.info.Some? ==> r.sent == SendToContent(iframe,
            SelectionRespMsg(read.info.value, false, GetSelectedAI(local), GetPrevSelectedAI(local))))
    ensures e.action != Tag(HandshakeInit) && e.action != Tag(SelectionInfoReq) ==> r == Dispatched([], session)
  {
    if e.action == Tag(HandshakeInit) then
      if e.extId == Some(ownId) then Dispatched(SendToContent(iframe, HandshakeRespMsg(ownId)), session)
      else Dispatched([], session)
    else if e.action == Tag(SelectionInfoReq) then
      var read := GetSelectionInfo(session, now, DefaultTtlMs);
      if read.info.Some? then
        var msg := SelectionRespMsg(read.info.value, false, GetSelectedAI(local), GetPrevSelectedAI(local));
        Dispatched(SendToContent(iframe, msg), read.session)
      else Dispatched([], read.session)
    else Dispatched([], session)
  }

  /** What the iframe can learn from the panel: a handshake reply only ever
      answers a handshake carrying the panel's own id and echoes that id; a
      selection reply only ever carries a record that is stored and unexpired,
      together with the AIs stored as current and previous. */
  lemma WindowMessageGuarantees(iframe: Option<Frame>, e: WindowMessage, ownId: string,
                                local: Store, session: Store, now: int, m: PanelMessage)
    requires m in OnWindowMessage(iframe, e, ownId, local, session, now).sent
    ensures m.HandshakeRespMsg? ==> e.extId == Some(ownId) && m.extId == ownId && e.action == Tag(HandshakeInit)
    ensures m.SelectionRespMsg? ==>
      && Get(session, SelectionInfoKey) == Record(m.info)
      && !Expired(m.info, now, DefaultTtlMs)
      && m.currentAi == GetSelectedAI(local) && m.previousAi == GetPrevSelectedAI(local)
      && !m.forced
  {
    MessageActionTags(HandshakeInit, SelectionInfoReq);
  }

  /** A message from the runtime: only `action` and `selectionInfo` are read. */
  datatype RuntimeMessage = RuntimeMessage(action: string, info: SelectionInfo)

  /** The `SELECTION_INFO_SAVED` forwarder: the record goes on unchanged, marked
      forced and with no AI information; any other action posts nothing. */
  function OnRuntimeMessage(iframe: Option<Frame>, m: RuntimeMessage): (r: seq<PanelMessage>)
    ensures r == [] <==> m.action != Tag(SelectionInfoSaved) || iframe.None? || !iframe.value.hasContentWindow
    ensures r != [] ==>
      && |r| == 1 && r[0].SelectionRespMsg?
      && r[0].info == m.info && r[0].forced && r[0].currentAi.None? && r[0].previousAi.None?
  {
    if m.action == Tag(SelectionInfoSaved) then SendToContent(iframe, SelectionRespMsg(m.info, true, None, None))
    else []
  }

  /** The two routes by which the iframe learns of a record agree on the
      record: the forwarded push and the answer to a later request (while the
      record is stored and unexpired) carry the same record.  Only the push is
      forced, and only the answer names the stored AIs. */
  lemma PushAndRequestAgree(info: SelectionInfo, ownId: string, local: Store, session: Store, now: int)
    requires Get(session, SelectionInfoKey) == Record(info) && !Expired(info, now, DefaultTtlMs)
    ensures var iframe := Some(Frame(true));
      var pushed := OnRuntimeMessage(iframe, RuntimeMessage(Tag(SelectionInfoSaved), info));
      var asked := OnWindowMessage(iframe, WindowMessage(Tag(SelectionInfoReq), None), ownId, local, session, now);
      && |pushed| == 1 && |asked.sent| == 1
      && pushed[0].SelectionRespMsg? && asked.sent[0].SelectionRespMsg?
      && pushed[0].info == info && asked.sent[0].info == info
      && pushed[0].forced && !asked.sent[0].forced
      && pushed[0].currentAi.None? && asked.sent[0].currentAi == GetSelectedAI(local)
      && asked.session == session
  {
    MessageActionTags(HandshakeInit, SelectionInfoReq);
  }

  /** The AI loaded at start-up: the stored one if it names a destination,
      otherwise the first destination, "chatgpt". */
  function StartupAi(local: Store): (r: string)
    ensures IsUrlKey(r)
    ensures GetSelectedAI(local).Some? && IsUrlKey(GetSelectedAI(local).value) ==> r == GetSelectedAI(local).value
    ensures !(GetSelectedAI(local).Some? && IsUrlKey(GetSelectedAI(local).value)) ==> r == "chatgpt"
  {
    UrlsTable();
    var stored := GetSelectedAI(local);
    if Truthy(stored) && IsUrlKey(stored.value) then stored.value else UrlKeys()[0]
  }

  /** The storage updates of `loadAIInIframe(ai)`: the previously selected AI, if
      there was a non-empty one, becomes the previous AI; then `ai` becomes the
      selected one.  No other key changes. */
  function LoadAi(local: Store, ai: string): (r: Store)
    ensures GetSelectedAI(r) == Some(ai)
    ensures Truthy(GetSelectedAI(local)) ==> GetPrevSelectedAI(r) == GetSelectedAI(local)
    ensures !Truthy(GetSelectedAI(local)) ==> GetPrevSelectedAI(r) == GetPrevSelectedAI(local)
    ensures forall k :: k != SelectedAiKey && k != PrevSelectedAiKey ==> Get(r, k) == Get(local, k)
  {
    var before := GetSelectedAI(local);
    var withPrev := if Truthy(before) then SetPrevSelectedAI(local, before.value) else local;
    SetSelectedAI(withPrev, ai)
  }

  /** Switching from destination `a` to destination `b` leaves `b` as the
      current AI and `a` as the previous one, whatever was stored before. */
  lemma SwitchRecordsPrevious(local: Store, a: string, b: string)
    requires IsUrlKey(a)
    ensures GetSelectedAI(LoadAi(LoadAi(local, a), b)) == Some(b)
    ensures GetPrevSelectedAI(LoadAi(LoadAi(local, a), b)) == Some(a)
  {
    UrlsTable();
    assert a != "";
  }
}
