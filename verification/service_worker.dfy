/** The background worker (`src/service-worker.ts`): it turns an "Ask my AI"
    context-menu click into a stored selection record, pushes that record to
    every connected iframe script, keeps the registry of those connections, and
    answers their "getSelection" requests. */
module ServiceWorker {
  import opened Js
  import opened Types
  import opened Storage
  import opened Constants
  import opened Port
  import opened Prompt

  /** The placeholder the worker writes for a tab without an address or title. */
  const Placeholder := "wtf"

  datatype Tab = Tab(windowId: int, url: Option<string>, title: Option<string>)

  /** `selectedAI || null` as read straight from the local area. */
  function SelectedAiOrNull(local: Store): (r: Option<string>)
    ensures r.Some? ==> r.value != "" && Get(local, SelectedAiKey) == Str(r.value)
    ensures r.None? ==> !(Get(local, SelectedAiKey).Str? && Get(local, SelectedAiKey).s != "")
  {
    match Get(local, SelectedAiKey)
    case Str(s) => if s != "" then Some(s) else None
    case _ => None
  }

  /** `selectionInfo?.currentAi || null` as read straight from the session
      area, with no expiry check. */
  function StoredCurrentAi(session: Store): (r: Option<string>)
    ensures r.Some? <==> Get(session, SelectionInfoKey).Record? && Truthy(Get(session, SelectionInfoKey).info.currentAi)
    ensures r.Some? ==> r == Get(session, SelectionInfoKey).info.currentAi
  {
    match Get(session, SelectionInfoKey)
    case Record(info) => OrNull(info.currentAi)
    case _ => None
  }

  /** The record built for a click: the prompt around the selected text, the
      tab's address and title (or the placeholder), the click time, the AI of
      the record stored before (expired or not) as the previous AI, and the
      selected AI as the current one. */
  function NewRecord(text: string, tab: Tab, now: int, session: Store, local: Store): (r: SelectionInfo)
    ensures r.text == FormatSelectionText(text, Interpolate(tab.url), Interpolate(tab.title))
    ensures r.tabUrl == OrElse(tab.url, Placeholder) && r.tabTitle == OrElse(tab.title, Placeholder)
    ensures r.timestamp == now
    ensures r.previousAi == StoredCurrentAi(session)
    ensures r.currentAi == SelectedAiOrNull(local)
  {
    SelectionInfo(
      FormatSelectionText(text, Interpolate(tab.url), Interpolate(tab.title)),
      OrElse(tab.url, Placeholder),
      OrElse(tab.title, Placeholder),
      now,
      SelectedAiOrNull(local),
      StoredCurrentAi(session))
  }

  /** One live iframe script.  `handle` stands for the identity of the
      connection object, which the code keys its `Set` on. */
  datatype Connection = Connection(handle: nat, tabUrl: string, tabTitle: string, connectedAt: int)

  /** `activeConnections`, in insertion order, plus the next fresh identity. */
  datatype Registry = Registry(entries: seq<Connection>, next: nat)

  /** No connection object occurs twice. */
  predicate DistinctHandles(entries: seq<Connection>) {
    forall i, j :: 0 <= i < j < |entries| ==> entries[i].handle != entries[j].handle
  }

  /** Every connection object is distinct and was created before `next`. */
  predicate Valid(reg: Registry) {
    && DistinctHandles(reg.entries)
    && forall i :: 0 <= i < |reg.entries| ==> reg.entries[i].handle < reg.next
  }

  const EmptyRegistry := Registry([], 0)

  /** The record sent to every connection, in registry order. */
  function PushAll(entries: seq<Connection>, msg: PortMessage): (r: seq<Push>)
    ensures |r| == |entries|
    ensures forall i :: 0 <= i < |entries| ==> r[i] == Push(entries[i].handle, msg)
  {
    seq(|entries|, i requires 0 <= i < |entries| => Push(entries[i].handle, msg))
  }

  /** Whether the side panel was opened, the session area afterwards, and the
      port messages sent. */
  datatype ClickOutcome = ClickOutcome(panelOpened: bool, session: Store, pushes: seq<Push>)

  /** The context-menu click handler.  Only "ask-my-ai" is handled; a click
      without a tab fails before anything happens; a click without selected
      text only opens the panel; otherwise the new record replaces the stored
      one and is pushed to every live connection. */
  function OnContextMenuClick(info: ClickInfo, tab: Option<Tab>, now: int,
                              session: Store, local: Store, reg: Registry): (r: ClickOutcome)
    ensures info.menuItemId != MenuId(AskMyAi) || tab.None? ==> r == ClickOutcome(false, session, [])
    ensures info.menuItemId == MenuId(AskMyAi) && tab.Some? && !Truthy(info.selectionText) ==>
      r == ClickOutcome(true, session, [])
    ensures info.menuItemId == MenuId(AskMyAi) && tab.Some? && Truthy(info.selectionText) ==>
      var rec := NewRecord(info.selectionText.value, tab.value, now, session, local);
      && r.panelOpened
      && Get(r.session, SelectionInfoKey) == Record(rec)
      && (forall k :: k != SelectionInfoKey ==> Get(r.session, k) == Get(session, k))
      && r.pushes == PushAll(reg.entries, PortMessage(GetSelectionAction, Info(rec)))
  {
    if info.menuItemId != "ask-my-ai" then ClickOutcome(false, session, [])
    else if tab.None? then ClickOutcome(false, session, [])
    else if !Truthy(info.selectionText) then ClickOutcome(true, session, [])
    else
      var rec := NewRecord(info.selectionText.value, tab.value, now, session, local);
      ClickOutcome(true, SetSelectionInfo(session, rec),
                   PushAll(reg.entries, PortMessage(GetSelectionAction, Info(rec))))
  }

  /** Two handled clicks in a row: the second record's previous AI is the
      first record's current AI, so the pair (previous, current) shifts by one
      AI per click. */
  lemma {:induction false} ClicksShiftAi(t1: string, t2: string, tab1: Tab, tab2: Tab, now1: int, now2: int,
                      session: Store, local1: Store, local2: Store, reg: Registry)
    requires t1 != "" && t2 != ""
    ensures var first := OnContextMenuClick(ClickInfo("ask-my-ai", Some(t1)), Some(tab1), now1, session, local1, reg);
      var second := OnContextMenuClick(ClickInfo("ask-my-ai", Some(t2)), Some(tab2), now2, first.session, local2, reg);
      && Get(second.session, SelectionInfoKey).Record?
      && Get(second.session, SelectionInfoKey).info.previousAi == SelectedAiOrNull(local1)
      && Get(second.session, SelectionInfoKey).info.currentAi == SelectedAiOrNull(local2)
  {
    ContextMenuIds(AskMyAi, AskMyAi);
  }

  /** What a connection attempt leads to: the registry afterwards and the
      acknowledgement sent, if any. */
  datatype ConnectOutcome = ConnectOutcome(reg: Registry, acks: seq<Push>)

  /** `onConnect`: ports with another name are ignored; with no active tab the
      handler fails before registering; otherwise exactly one new connection is
      added and acknowledged with "connected". */
  function OnConnect(reg: Registry, portName: string, activeTab: Option<Tab>, now: int): (r: ConnectOutcome)
    ensures portName != PortName || activeTab.None? ==> r == ConnectOutcome(reg, [])
    ensures portName == PortName && activeTab.Some? ==>
      && r.reg.entries == reg.entries
           + [Connection(reg.next, OrElse(activeTab.value.url, Placeholder), OrElse(activeTab.value.title, Placeholder), now)]
      && r.acks == [Push(reg.next, PortMessage(ConnectedAction, NoPayload))]
    ensures Valid(reg) ==> Valid(r.reg)
  {
    if portName != PortName || activeTab.None? then ConnectOutcome(reg, [])
    else
      var tab := activeTab.value;
      var c := Connection(reg.next, OrElse(tab.url, Placeholder), OrElse(tab.title, Placeholder), now);
      var reg' := Registry(reg.entries + [c], reg.next + 1);
      ConnectOutcome(reg', [Push(reg.next, PortMessage(ConnectedAction, NoPayload))])
  }

  /** `activeConnections.delete(connection)`. */
  function Without(entries: seq<Connection>, handle: nat): (r: seq<Connection>)
    ensures forall c :: c in r <==> c in entries && c.handle != handle
    ensures |r| <= |entries|
    decreases |entries|
  {
    if entries == [] then []
    else if entries[0].handle == handle then Without(entries[1..], handle)
    else [entries[0]] + Without(entries[1..], handle)
  }

  /** Deleting a connection keeps the remaining ones distinct. */
  lemma {:induction false} WithoutKeepsDistinct(entries: seq<Connection>, handle: nat)
    requires DistinctHandles(entries)
    ensures DistinctHandles(Without(entries, handle))
    decreases |entries|
  {
    if entries != [] {
      WithoutKeepsDistinct(entries[1..], handle);
      var rest := Without(entries[1..], handle);
      if entries[0].handle != handle {
        HeadNotInRest(entries, handle);
        var r := [entries[0]] + rest;
        forall i, j | 0 <= i < j < |r|
          ensures r[i].handle != r[j].handle
        {
          assert r[j] == rest[j - 1];
          if i > 0 {
            assert r[i] == rest[i - 1];
          }
        }
      }
    }
  }

  /** What survives of the tail holds no copy of the head's connection. */
  lemma HeadNotInRest(entries: seq<Connection>, handle: nat)
    requires DistinctHandles(entries) && entries != []
    ensures forall j :: 0 <= j < |Without(entries[1..], handle)| ==>
      Without(entries[1..], handle)[j].handle != entries[0].handle
  {
    var tail := entries[1..];
    var rest := Without(tail, handle);
    forall j | 0 <= j < |rest|
      ensures rest[j].handle != entries[0].handle
    {
      assert rest[j] in tail;
      var k :| 0 <= k < |tail| && tail[k] == rest[j];
      assert entries[k + 1] == rest[j];
    }
  }

  /** `onDisconnect`: the registry loses exactly the disconnected connection. */
  function OnDisconnect(reg: Registry, handle: nat): (r: Registry)
    ensures forall c :: c in r.entries <==> c in reg.entries && c.handle != handle
    ensures Valid(reg) ==> Valid(r)
  {
    var r := Registry(Without(reg.entries, handle), reg.next);
    assert Valid(reg) ==> Valid(r) by {
      if Valid(reg) {
        WithoutKeepsDistinct(reg.entries, handle);
      }
    }
    r
  }

  /** Connecting and then disconnecting the same port leaves the same live
      connections as before, and a valid registry stays valid. */
  lemma ConnectThenDisconnect(reg: Registry, tab: Tab, now: int)
    requires Valid(reg)
    ensures var c := OnConnect(reg, PortName, Some(tab), now);
      && |c.reg.entries| == |reg.entries| + 1
      && forall x :: x in OnDisconnect(c.reg, reg.next).entries <==> x in reg.entries
  {
  }

  /** The port message handler: "getSelection" is answered only when a record
      is stored (with no expiry check), with the record's previous AI set to
      its stored current AI and its current AI set to the selected AI, all
      other fields unchanged. */
  function OnPortMessage(m: PortMessage, session: Store, local: Store): (r: seq<PortMessage>)
    ensures |r| <= 1
    ensures r != [] <==> m.action == GetSelectionAction && Get(session, SelectionInfoKey).Record?
    ensures r != [] ==>
      var stored := Get(session, SelectionInfoKey).info;
      && r[0].action == GetSelectionAction && r[0].payload.Info?
      && r[0].payload.info == stored.(previousAi := OrNull(stored.currentAi), currentAi := SelectedAiOrNull(local))
  {
    if m.action != GetSelectionAction then []
    else match Get(session, SelectionInfoKey)
      case Record(stored) =>
        [PortMessage(GetSelectionAction, Info(stored.(previousAi := OrNull(stored.currentAi), currentAi := SelectedAiOrNull(local))))]
      case _ => []
  }
}
