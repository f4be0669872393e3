/** The privileged port between the background worker and the iframe-side
    script (`chrome.runtime.connect({ name: "content-background-port" })`), and
    the acknowledgement the iframe script waits for before doing anything. */
module Port {
  import opened Types

  const PortName := "content-background-port"
  const ConnectedAction := "connected"
  /** The request/response action of the current scripts. */
  const GetSelectionAction := "getSelection"
  /** The request/response action of the legacy scripts. */
  const GetSelectionTextAction := "getSelectionText"

  /** The payload field a port message carries, if any: `selectionInfo` in the
      current protocol, `selectionText` in the legacy one. */
  datatype Payload = NoPayload | Info(info: SelectionInfo) | Text(text: string)

  datatype PortMessage = PortMessage(action: string, payload: Payload)

  /** A message posted by the worker on the port object identified by `handle`. */
  datatype Push = Push(handle: nat, msg: PortMessage)

  /** The promise `init` awaits: pending until the first message arrives. */
  datatype AckWait = Awaiting | Resolved | Rejected

  /** The one-shot listener: while awaiting, the first message resolves the wait
      if its action is "connected" and rejects it otherwise; the listener then
      removes itself, so later messages do not touch the outcome. */
  function AckStep(w: AckWait, m: PortMessage): (r: AckWait)
    ensures w != Awaiting ==> r == w
    ensures w == Awaiting ==> (r == Resolved <==> m.action == ConnectedAction)
    ensures r != Awaiting
  {
    if w != Awaiting then w
    else if m.action == ConnectedAction then Resolved
    else Rejected
  }

  function AckRun(w: AckWait, ms: seq<PortMessage>): AckWait
    decreases |ms|
  {
    if ms == [] then w else AckRun(AckStep(w, ms[0]), ms[1..])
  }

  /** Over any non-empty sequence of messages the wait is decided by the first
      one alone: resolved if it is "connected", rejected otherwise. */
  lemma {:induction false} AckDecidedByFirstMessage(ms: seq<PortMessage>)
    requires |ms| > 0
    ensures AckRun(Awaiting, ms) == (if ms[0].action == ConnectedAction then Resolved else Rejected)
  {
    AckSettled(AckStep(Awaiting, ms[0]), ms[1..]);
  }

  lemma {:induction false} AckSettled(w: AckWait, ms: seq<PortMessage>)
    requires w != Awaiting
    ensures AckRun(w, ms) == w
    decreases |ms|
  {
    if ms != [] {
      AckSettled(AckStep(w, ms[0]), ms[1..]);
    }
  }
}
