/** The extension's constant tables: the AI destinations offered in the side
    panel, the context-menu ids, and the message tags of the side-panel channel.
    Each table is kept as the ordered list of (key, value) pairs of the object
    literal it models, since the code relies on key order (`Object.keys(URLs)[0]`). */
module Constants {
  import opened Js

  datatype AiConfig = AiConfig(displayName: string, url: string)

  /** `URLs`, in declaration order.  The `icon` paths are presentation only. */
  const Urls: seq<(string, AiConfig)> := [
    ("chatgpt", AiConfig("ChatGPT", "https://chatgpt.com/")),
    ("claude", AiConfig("Claude", "https://claude.ai/new")),
    ("gemini", AiConfig("Gemini", "https://gemini.google.com/")),
    ("aistudio", AiConfig("Google AI Studio", "https://aistudio.google.com/")),
    ("scira", AiConfig("Scira", "https://scira.ai/")),
    ("deepseek", AiConfig("Deepseek", "https://chat.deepseek.com/")),
    ("google", AiConfig("Google ", "https://google.com/")),
    ("perplexity", AiConfig("Perplexity", "https://perplexity.ai/")),
    ("mistral", AiConfig("Mistral Le Chat", "https://chat.mistral.ai/chat"))
  ]

  function UrlKeys(): seq<string> {
    seq(|Urls|, i requires 0 <= i < |Urls| => Urls[i].0)
  }

  /** `key in URLs` (own keys only). */
  predicate IsUrlKey(key: string) {
    key in UrlKeys()
  }

  /** The destination table has nine entries, distinct keys, first key
      "chatgpt", and every entry has a display name and an https address. */
  lemma UrlsTable()
    ensures |Urls| == 9 && |UrlKeys()| == 9
    ensures UrlKeys()[0] == "chatgpt"
    ensures Distinct(UrlKeys())
    ensures forall i :: 0 <= i < |Urls| ==> Urls[i].1.displayName != "" && StartsWith(Urls[i].1.url, "https://")
  {
  }

  datatype ContextMenuItem = AskMyAi | Explain | Summarize | Simplify

  /** `ContextMenu`, in declaration order: key name and id. */
  const ContextMenuTable: seq<(ContextMenuItem, string)> := [
    (AskMyAi, "ask-my-ai"),
    (Explain, "explain"),
    (Summarize, "summarize"),
    (Simplify, "simplify")
  ]

  function MenuId(item: ContextMenuItem): string {
    match item
    case AskMyAi => ContextMenuTable[0].1
    case Explain => ContextMenuTable[1].1
    case Summarize => ContextMenuTable[2].1
    case Simplify => ContextMenuTable[3].1
  }

  /** Reads a `data-action` / `menuItemId` string back as a menu item. */
  function MenuItemOf(id: string): (r: Option<ContextMenuItem>)
    ensures r.Some? ==> MenuId(r.value) == id
  {
    if id == "ask-my-ai" then Some(AskMyAi)
    else if id == "explain" then Some(Explain)
    else if id == "summarize" then Some(Summarize)
    else if id == "simplify" then Some(Simplify)
    else None
  }

  /** The four context-menu ids are distinct, each id reads back as its own
      item, and the top-level item is "ask-my-ai". */
  lemma ContextMenuIds(a: ContextMenuItem, b: ContextMenuItem)
    ensures MenuItemOf(MenuId(a)) == Some(a)
    ensures a != b ==> MenuId(a) != MenuId(b)
    ensures MenuId(AskMyAi) == "ask-my-ai"
  {
  }

  datatype MessageAction =
    | HandshakeInit
    | HandshakeResp
    | SelectionInfoSaved
    | SelectionInfoReq
    | SelectionInfoResp

  /** `MessageAction`, in declaration order: (key name, tag). */
  const MessageActionTable: seq<(string, string)> := [
    ("EXT_IFRAME_HANDSHAKE_INIT", "EXT_IFRAME_HANDSHAKE_INIT"),
    ("EXT_IFRAME_HANDSHAKE_RESP", "EXT_IFRAME_HANDSHAKE_RESP"),
    ("SELECTION_INFO_SAVED", "SELECTION_INFO_SAVED"),
    ("SELECTION_INFO_REQ", "SELECTION_INFO_REQ"),
    ("SELECTION_INFO_RESP", "SELECTION_INFO_RESP")
  ]

  function ActionIndex(a: MessageAction): (i: nat)
    ensures i < |MessageActionTable|
  {
    match a
    case HandshakeInit => 0
    case HandshakeResp => 1
    case SelectionInfoSaved => 2
    case SelectionInfoReq => 3
    case SelectionInfoResp => 4
  }

  /** The string carried in a message's `action` field. */
  function Tag(a: MessageAction): string {
    MessageActionTable[ActionIndex(a)].1
  }

  /** Reads an `action` string back; any other string is no tag of this table. */
  function ActionOf(tag: string): (r: Option<MessageAction>)
    ensures r.Some? ==> Tag(r.value) == tag
  {
    if tag == Tag(HandshakeInit) then Some(HandshakeInit)
    else if tag == Tag(HandshakeResp) then Some(HandshakeResp)
    else if tag == Tag(SelectionInfoSaved) then Some(SelectionInfoSaved)
    else if tag == Tag(SelectionInfoReq) then Some(SelectionInfoReq)
    else if tag == Tag(SelectionInfoResp) then Some(SelectionInfoResp)
    else None
  }

  /** Five tags, each equal to its own key name, pairwise distinct, and each
      read back as the action it tags. */
  lemma MessageActionTags(a: MessageAction, b: MessageAction)
    ensures |MessageActionTable| == 5
    ensures forall i :: 0 <= i < |MessageActionTable| ==> MessageActionTable[i].0 == MessageActionTable[i].1
    ensures a != b ==> Tag(a) != Tag(b)
    ensures ActionOf(Tag(a)) == Some(a)
  {
  }
}
