/** The legacy background script (`background.js`): connections are kept in a
    map keyed by tab id; a context-menu click pushes the formatted prompt
    through the tab's port when there is one and otherwise stores the raw text
    under "selectionText", which the iframe script later asks for. */
module LegacyBackground {
  import opened Js
  import opened Types
  import opened Storage
  import opened Constants
  import opened Port
  import opened Prompt

  /** The session key of the legacy protocol: the bare selected text. */
  const SelectionTextKey := "selectionText"

  datatype Tab = Tab(id: int, windowId: int, url: Option<string>, title: Option<string>)

  /** `connectionInfo`: the port object (by identity) and the tab that was
      active when it connected; address and title are kept as the tab reported
      them, possibly undefined. */
  datatype ConnInfo = ConnInfo(port: nat, tabId: int, tabUrl: Option<string>, tabTitle: Option<string>, connectedAt: int)

  /** `activeConnections`, keyed by tab id. */
  type Registry = map<int, ConnInfo>

  /** `formatSelectionText(text, connectionInfo)`: the address and title are
      interpolated as they are, so a missing one reads "undefined". */
  function FormatFor(text: string, conn: ConnInfo): (r: string)
    ensures |r| == |Header(Interpolate(conn.tabUrl), Interpolate(conn.tabTitle))| + |text| + |Fence|
    ensures SnippetOf(r, Interpolate(conn.tabUrl), Interpolate(conn.tabTitle)) == text
    ensures r == Header(Interpolate(conn.tabUrl), Interpolate(conn.tabTitle)) + text + Fence
    ensures Includes(r, Interpolate(conn.tabUrl)) && Includes(r, Interpolate(conn.tabTitle)) && Includes(r, text)
  {
    PromptIncludes(text, Interpolate(conn.tabUrl), Interpolate(conn.tabTitle));
    SnippetRoundTrip(text, text, Interpolate(conn.tabUrl), Interpolate(conn.tabTitle));
    FormatSelectionText(text, Interpolate(conn.tabUrl), Interpolate(conn.tabTitle))
  }

  /** The raw text written to the session area as the fallback route. */
  function StoreText(session: Store, text: string): (r: Store)
    ensures Get(r, SelectionTextKey) == Str(text)
    ensures forall k :: k != SelectionTextKey ==> Get(r, k) == Get(session, k)
  {
    Put(session, SelectionTextKey, Str(text))
  }

  /** The session area afterwards and the messages posted. */
  datatype ClickOutcome = ClickOutcome(session: Store, pushes: seq<Push>)

  /** The context-menu click handler.  `tab` is absent when the browser gives
      none and `openFails` says whether opening the side panel throws; either
      makes the handler fall into its `catch`, which stores the raw text.  A
      tab with a registered connection gets the formatted prompt on that
      connection's port and the session area is left alone; any other tab
      gets the raw text stored. */
  function OnContextMenuClick(info: ClickInfo, tab: Option<Tab>, openFails: bool,
                              reg: Registry, session: Store): (r: ClickOutcome)
    ensures info.menuItemId != MenuId(AskMyAi) || !Truthy(info.selectionText) ==>
      r == ClickOutcome(session, [])
    ensures info.menuItemId == MenuId(AskMyAi) && Truthy(info.selectionText) ==>
      var text := info.selectionText.value;
      if tab.Some? && !openFails && tab.value.id in reg then
        var conn := reg[tab.value.id];
        r == ClickOutcome(session, [Push(conn.port, PortMessage(GetSelectionTextAction, Text(FormatFor(text, conn))))])
      else
        r == ClickOutcome(StoreText(session, text), [])
  {
    if info.menuItemId != "ask-my-ai" || !Truthy(info.selectionText) then ClickOutcome(session, [])
    else
      var text := info.selectionText.value;
      if tab.None? || openFails then ClickOutcome(StoreText(session, text), [])
      else if tab.value.id in reg then
        var conn := reg[tab.value.id];
        ClickOutcome(session, [Push(conn.port, PortMessage(GetSelectionTextAction, Text(FormatFor(text, conn))))])
      else ClickOutcome(StoreText(session, text), [])
  }

  /** A handled click delivers the text by exactly one route: either one push
      on the port registered for the tab, from which the text can be read back,
      with the session area untouched; or no push and the raw text stored. */
  lemma ClickDeliversOnce(info: ClickInfo, tab: Option<Tab>, openFails: bool, reg: Registry, session: Store)
    requires info.menuItemId == MenuId(AskMyAi) && Truthy(info.selectionText)
    ensures var r := OnContextMenuClick(info, tab, openFails, reg, session);
      && |r.pushes| <= 1
      && (|r.pushes| == 1 ==>
            && tab.Some? && tab.value.id in reg
            && r.pushes[0].handle == reg[tab.value.id].port
            && r.pushes[0].msg.payload.Text?
            && SnippetOf(r.pushes[0].msg.payload.text, Interpolate(reg[tab.value.id].tabUrl),
                         Interpolate(reg[tab.value.id].tabTitle)) == info.selectionText.value
            && r.session == session)
      && (r.pushes == [] ==> Get(r.session, SelectionTextKey) == Str(info.selectionText.value))
  {
  }

  /** What a connection attempt leads to: the registry afterwards and the
      acknowledgement posted, if any. */
  datatype ConnectOutcome = ConnectOutcome(reg: Registry, acks: seq<Push>)

  /** `onConnect`.  Ports with another name are ignored; with no active tab the
      handler throws before registering; otherwise the connection is stored
      under the active tab's id, replacing any connection already stored for
      that tab, and acknowledged with "connected". */
  function OnConnect(reg: Registry, portName: string, port: nat, activeTab: Option<Tab>, now: int): (r: ConnectOutcome)
    ensures portName != PortName || activeTab.None? ==> r == ConnectOutcome(reg, [])
    ensures portName == PortName && activeTab.Some? ==>
      var tab := activeTab.value;
      && r.reg.Keys == reg.Keys + {tab.id}
      && r.reg[tab.id] == ConnInfo(port, tab.id, tab.url, tab.title, now)
      && (forall t :: t in reg && t != tab.id ==> r.reg[t] == reg[t])
      && r.acks == [Push(port, PortMessage(ConnectedAction, NoPayload))]
  {
    if portName != PortName || activeTab.None? then ConnectOutcome(reg, [])
    else
      var tab := activeTab.value;
      ConnectOutcome(reg[tab.id := ConnInfo(port, tab.id, tab.url, tab.title, now)],
                     [Push(port, PortMessage(ConnectedAction, NoPayload))])
  }

  /** A click on a tab right after its iframe script connected goes through
      that script's port, and the prompt names the tab's address and title as
      they were at connection time. */
  lemma ConnectThenClickPushes(reg: Registry, port: nat, tab: Tab, now: int, text: string, session: Store)
    requires text != ""
    ensures var reg' := OnConnect(reg, PortName, port, Some(tab), now).reg;
      var r := OnContextMenuClick(ClickInfo(MenuId(AskMyAi), Some(text)), Some(tab), false, reg', session);
      && r.session == session
      && |r.pushes| == 1 && r.pushes[0].handle == port
      && r.pushes[0].msg.action == GetSelectionTextAction
      && r.pushes[0].msg.payload == Text(FormatSelectionText(text, Interpolate(tab.url), Interpolate(tab.title)))
  {
    ContextMenuIds(AskMyAi, AskMyAi);
  }

  /** The port message handler of one connection: "getSelectionText" is
      answered, on that connection's own port, only when the stored text is a
      non-empty string, and the answer is the prompt built with the address
      and title this connection recorded. */
  function OnPortMessage(conn: ConnInfo, m: PortMessage, session: Store): (r: seq<Push>)
    ensures |r| <= 1
    ensures r != [] <==> m.action == GetSelectionTextAction && Get(session, SelectionTextKey).Str?
                         && Get(session, SelectionTextKey).s != ""
    ensures r != [] ==>
      && r[0].handle == conn.port
      && r[0].msg == PortMessage(GetSelectionTextAction, Text(FormatFor(Get(session, SelectionTextKey).s, conn)))
  {
    if m.action != GetSelectionTextAction then []
    else match Get(session, SelectionTextKey)
      case Str(s) => if s != "" then [Push(conn.port, PortMessage(GetSelectionTextAction, Text(FormatFor(s, conn))))] else []
      case _ => []
  }

  /** The storage route completes the delivery: after a click that fell back
      to storage, a request from any connection is answered with a prompt
      from which the clicked text reads back. */
  lemma FallbackThenRequest(info: ClickInfo, tab: Option<Tab>, openFails: bool, reg: Registry,
                            session: Store, conn: ConnInfo)
    requires info.menuItemId == MenuId(AskMyAi) && Truthy(info.selectionText)
    requires OnContextMenuClick(info, tab, openFails, reg, session).pushes == []
    ensures var s := OnContextMenuClick(info, tab, openFails, reg, session).session;
      var reply := OnPortMessage(conn, PortMessage(GetSelectionTextAction, NoPayload), s);
      && |reply| == 1
      && reply[0].msg.payload.Text?
      && SnippetOf(reply[0].msg.payload.text, Interpolate(conn.tabUrl), Interpolate(conn.tabTitle))
         == info.selectionText.value
  {
  }

  /** `onDisconnect` as written: the entry under the tab id captured at
      connection time is deleted, whichever connection it now holds. */
  function DisconnectAsWritten(reg: Registry, tabId: int): (r: Registry)
    ensures tabId !in r
    ensures forall t :: t in r <==> t in reg && t != tabId
    ensures forall t :: t in r ==> r[t] == reg[t]
  {
    reg - {tabId}
  }

  /** Two iframe scripts connect while the same tab is active, the second
      replacing the first in the map; when the first one disconnects, the
      second one's entry is deleted although its port is still open, so the
      next click on that tab falls back to storage instead of reaching it. */
  lemma DisconnectDropsLiveConnection(tab: Tab, text: string, session: Store)
    requires text != ""
    ensures var r1 := OnConnect(map[], PortName, 1, Some(tab), 0).reg;
      var r2 := OnConnect(r1, PortName, 2, Some(tab), 1).reg;
      var r3 := DisconnectAsWritten(r2, tab.id);
      && r2[tab.id].port == 2
      && tab.id !in r3
      && OnContextMenuClick(ClickInfo(MenuId(AskMyAi), Some(text)), Some(tab), false, r3, session).pushes == []
  {
    ContextMenuIds(AskMyAi, AskMyAi);
  }

  /** `onDisconnect` as intended: the tab's entry is deleted only while it
      still holds the disconnecting port.  An entry is removed only by its own
      port's disconnect, and afterwards the port is no longer registered for
      that tab. */
  function OnDisconnect(reg: Registry, tabId: int, port: nat): (r: Registry)
    ensures forall t :: t in r ==> t in reg && r[t] == reg[t]
    ensures forall t :: t in reg && t !in r ==> t == tabId && reg[t].port == port
    ensures tabId in r ==> r[tabId].port != port
  {
    if tabId in reg && reg[tabId].port == port then reg - {tabId} else reg
  }

  /** With the intended disconnect, the scenario above keeps the second
      connection, and the next click on the tab is pushed through its port. */
  lemma DisconnectKeepsLiveConnection(tab: Tab, text: string, session: Store)
    requires text != ""
    ensures var r1 := OnConnect(map[], PortName, 1, Some(tab), 0).reg;
      var r2 := OnConnect(r1, PortName, 2, Some(tab), 1).reg;
      var r3 := OnDisconnect(r2, tab.id, 1);
      var click := OnContextMenuClick(ClickInfo(MenuId(AskMyAi), Some(text)), Some(tab), false, r3, session);
      && r3 == r2
      && |click.pushes| == 1 && click.pushes[0].handle == 2
  {
    ContextMenuIds(AskMyAi, AskMyAi);
  }
}
