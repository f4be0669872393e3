/** How the current worker and the current iframe script work together: a
    context-menu click stores a record, the iframe script's "getSelection"
    request reads it back with the AIs shifted, and the staleness gate then
    decides on the shifted pair. */
module Relay {
  import opened Js
  import opened Types
  import opened Storage
  import opened Port
  import opened Prompt
  import opened ServiceWorker
  import ContentScript

  /** A click followed by a request: the answer carries the clicked text's
      prompt and the click time; its previous AI is the AI selected at the
      click and its current AI the one selected at the request.  If the user
      kept the same AI, the gate lets the record through only within three
      seconds of the click; if the user switched AI in between, it always lets
      it through. */
  lemma {:induction false} ClickThenRequest(t: string, tab: Tab, now: int, session: Store, local1: Store,
                                            local2: Store, reg: Registry, later: int)
    requires t != ""
    ensures var click := OnContextMenuClick(ClickInfo("ask-my-ai", Some(t)), Some(tab), now, session, local1, reg);
      var reply := OnPortMessage(PortMessage(GetSelectionAction, NoPayload), click.session, local2);
      && |reply| == 1 && reply[0].payload.Info?
      && reply[0].payload.info.text == FormatSelectionText(t, Interpolate(tab.url), Interpolate(tab.title))
      && reply[0].payload.info.timestamp == now
      && reply[0].payload.info.previousAi == SelectedAiOrNull(local1)
      && reply[0].payload.info.currentAi == SelectedAiOrNull(local2)
      && (SelectedAiOrNull(local2) == SelectedAiOrNull(local1) ==>
            (ContentScript.IsStale(reply[0].payload.info, later) <==> later - now > ContentScript.StaleAfterMs))
      && (SelectedAiOrNull(local2) != SelectedAiOrNull(local1) ==> !ContentScript.IsStale(reply[0].payload.info, later))
  {
    var click := OnContextMenuClick(ClickInfo("ask-my-ai", Some(t)), Some(tab), now, session, local1, reg);
    var rec := NewRecord(t, tab, now, session, local1);
    assert Get(click.session, SelectionInfoKey) == Record(rec);
    assert OrNull(rec.currentAi) == rec.currentAi;
  }
}
