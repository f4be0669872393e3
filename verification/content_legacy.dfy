/** The legacy iframe-side script (`content.js`): the same acknowledgement wait,
    candidate set and eleven-tick polling loop as the current script, but it
    relays a bare text (`selectionText`), focuses each input before writing,
    has no staleness gate, and keeps its pending text after the loop stops. */
module LegacyContentScript {
  import opened Js
  import opened Injection
  import opened Port

  const LastReschedulingAttempt := 10

  datatype Phase = AwaitingAck | Running | InitFailed

  datatype Agent = Agent(
    phase: Phase,
    pending: Option<string>,
    inputs: seq<Element>,
    attempts: nat,
    scheduled: bool,
    dom: Dom,
    outbox: seq<PortMessage>)

  const Initial := Agent(AwaitingAck, None, [], 0, false, EmptyDom, [])

  /** `message.selectionText`: undefined unless the message carries a text. */
  function TextOf(p: Payload): Option<string> {
    if p.Text? then Some(p.text) else None
  }

  /** `injectText(text, targets)`: no gate; every target is focused, then holds
      the text and receives input, change, keydown and keyup. */
  function InjectText(d: Dom, text: string, targets: seq<Element>): (r: Dom)
    ensures forall e :: e in targets ==> e in r.written && r.written[e] == Written(AccessorFor(e.kind), text)
    ensures forall e :: e !in targets ==> (e in r.written <==> e in d.written)
    ensures forall e :: e !in targets && e in d.written ==> r.written[e] == d.written[e]
    ensures r.log == d.log + Dispatches(Dedup(targets), true)
  {
    Inject(d, targets, text, true)
  }

  /** One run of the polling function.  As in the current script it acts only
      when the set grew, injecting the pending text (if it is a non-empty
      string) into this tick's discoveries or else asking for the text; it
      stops after the eleventh attempt but leaves the pending text in place. */
  function Tick(a: Agent, snap: Snapshot): (r: Agent)
    ensures a.inputs <= r.inputs && r.phase == a.phase && r.pending == a.pending
    ensures a.phase != Running || !a.scheduled ==> r == a
    ensures a.phase == Running && a.scheduled ==>
      && r.attempts == a.attempts + 1
      && r.inputs == AddAll(a.inputs, PromptElements(snap))
      && (r.scheduled <==> r.attempts <= LastReschedulingAttempt)
      && (|r.inputs| == |a.inputs| ==> r.dom == a.dom && r.outbox == a.outbox)
      && (|r.inputs| > |a.inputs| && Truthy(a.pending) ==>
            r.dom == InjectText(a.dom, a.pending.value, PromptElements(snap)) && r.outbox == a.outbox)
      && (|r.inputs| > |a.inputs| && !Truthy(a.pending) ==>
            r.dom == a.dom && r.outbox == a.outbox + [PortMessage(GetSelectionTextAction, NoPayload)])
  {
    if a.phase != Running || !a.scheduled then a
    else
      var attempts := a.attempts + 1;
      var found := PromptElements(snap);
      var inputs := AddAll(a.inputs, found);
      var grew := |inputs| > |a.inputs|;
      var dom := if grew && Truthy(a.pending) then InjectText(a.dom, a.pending.value, found) else a.dom;
      var outbox := if grew && !Truthy(a.pending) then a.outbox + [PortMessage(GetSelectionTextAction, NoPayload)] else a.outbox;
      a.(attempts := attempts, inputs := inputs, dom := dom, outbox := outbox,
         scheduled := attempts <= LastReschedulingAttempt)
  }

  /** A port message: the acknowledgement wait first, then only
      "getSelectionText" is handled.  With no input yet the text is parked
      (whatever it is, even missing); otherwise a non-empty text is written
      into every known input and an empty or missing one changes nothing. */
  function Receive(a: Agent, m: PortMessage, snap: Snapshot): (r: Agent)
    ensures a.inputs <= r.inputs
    ensures a.phase == AwaitingAck && m.action == ConnectedAction ==>
      r == Tick(a.(phase := Running, scheduled := true), snap)
    ensures a.phase == AwaitingAck && m.action != ConnectedAction ==> r == a.(phase := InitFailed)
    ensures a.phase == InitFailed ==> r == a
    ensures a.phase == Running && m.action != GetSelectionTextAction ==> r == a
    ensures a.phase == Running && m.action == GetSelectionTextAction ==>
      && r.inputs == AddAll(a.inputs, PromptElements(snap))
      && r.outbox == a.outbox && r.attempts == a.attempts && r.scheduled == a.scheduled
      && (r.inputs == [] ==> r.pending == TextOf(m.payload) && r.dom == a.dom)
      && (r.inputs != [] ==> r.pending == a.pending)
      && (r.inputs != [] && Truthy(TextOf(m.payload)) ==> r.dom == InjectText(a.dom, m.payload.text, r.inputs))
      && (r.inputs != [] && !Truthy(TextOf(m.payload)) ==> r.dom == a.dom)
  {
    match a.phase
    case AwaitingAck =>
      if AckStep(Awaiting, m) == Resolved then Tick(a.(phase := Running, scheduled := true), snap)
      else a.(phase := InitFailed)
    case InitFailed => a
    case Running =>
      if m.action != GetSelectionTextAction then a
      else
        var inputs := AddAll(a.inputs, PromptElements(snap));
        var text := TextOf(m.payload);
        if |inputs| == 0 then a.(inputs := inputs, pending := text)
        else if Truthy(text) then a.(inputs := inputs, dom := InjectText(a.dom, text.value, inputs))
        else a.(inputs := inputs)
  }

  datatype Step = Deliver(m: PortMessage, snap: Snapshot) | TimerFires(snap: Snapshot)

  function Apply(a: Agent, s: Step): Agent {
    match s
    case Deliver(m, snap) => Receive(a, m, snap)
    case TimerFires(snap) => Tick(a, snap)
  }

  function Run(a: Agent, steps: seq<Step>): Agent
    decreases |steps|
  {
    if steps == [] then a else Run(Apply(a, steps[0]), steps[1..])
  }

  predicate Valid(a: Agent) {
    && Distinct(a.inputs)
    && (a.phase != Running ==> a.attempts == 0 && !a.scheduled)
    && (a.phase == Running ==>
          1 <= a.attempts <= LastReschedulingAttempt + 1 && (a.scheduled <==> a.attempts <= LastReschedulingAttempt))
  }

  /** Whatever happens, in any order: the state stays valid (at most eleven
      polling ticks) and the candidate set only grows. */
  lemma {:induction false} RunKeepsValidAndGrows(a: Agent, steps: seq<Step>)
    requires Valid(a)
    ensures Valid(Run(a, steps))
    ensures a.inputs <= Run(a, steps).inputs
    ensures Run(a, steps).attempts <= LastReschedulingAttempt + 1
    decreases |steps|
  {
    if steps != [] {
      var b := Apply(a, steps[0]);
      assert Valid(b);
      RunKeepsValidAndGrows(b, steps[1..]);
    }
  }

  function RunTicks(a: Agent, snaps: seq<Snapshot>): Agent
    decreases |snaps|
  {
    if snaps == [] then a else RunTicks(Tick(a, snaps[0]), snaps[1..])
  }

  /** Left to itself a running loop, stopped or not, has stopped after its
      eleventh tick, and, unlike the current script, the pending text survives
      the stop. */
  lemma {:induction false} PollingStopsKeepingPending(a: Agent, snaps: seq<Snapshot>)
    requires Valid(a) && a.phase == Running
    requires |snaps| >= LastReschedulingAttempt + 1 - a.attempts
    ensures var r := RunTicks(a, snaps);
      !r.scheduled && r.attempts == LastReschedulingAttempt + 1 && r.pending == a.pending
    decreases |snaps|
  {
    if snaps != [] {
      var b := Tick(a, snaps[0]);
      assert Valid(b) by {
        assert b == Apply(a, TimerFires(snaps[0]));
      }
      PollingStopsKeepingPending(b, snaps[1..]);
    }
  }
}
