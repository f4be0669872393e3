/** The current iframe-side script (`src/content.ts`): it waits for the
    worker's "connected" acknowledgement, then keeps a growing set of prompt
    inputs, a pending selection, and a polling loop of at most eleven ticks
    that injects the selection into newly found inputs.  Each event handler is
    a step function over the script's state; the clock and the page's query
    results at that moment are parameters. */
module ContentScript {
  import opened Js
  import opened Types
  import opened Injection
  import opened Port

  /** A selection older than this, for an unchanged AI, is not injected. */
  const StaleAfterMs := 3000
  /** `attempts <= 10` reschedules; the eleventh tick is the last. */
  const LastReschedulingAttempt := 10

  datatype Phase = AwaitingAck | Running | InitFailed

  datatype Agent = Agent(
    phase: Phase,
    pending: Option<SelectionInfo>,
    inputs: seq<Element>,
    attempts: nat,
    scheduled: bool,
    dom: Dom,
    outbox: seq<PortMessage>)

  const Initial := Agent(AwaitingAck, None, [], 0, false, EmptyDom, [])

  /** The staleness gate: the record names the same AI twice (two nulls count
      as the same) and is more than three seconds old. */
  predicate IsStale(sel: SelectionInfo, now: int) {
    sel.previousAi == sel.currentAi && now - sel.timestamp > StaleAfterMs
  }

  /** `injectText(selection, targets)`: nothing when stale, otherwise every
      target ends holding the record's text and receives its four events. */
  function InjectText(d: Dom, sel: SelectionInfo, targets: seq<Element>, now: int): (r: Dom)
    ensures IsStale(sel, now) ==> r == d
    ensures !IsStale(sel, now) ==>
      && (forall e :: e in targets ==> e in r.written && r.written[e] == Written(AccessorFor(e.kind), sel.text))
      && (forall e :: e !in targets ==> (e in r.written <==> e in d.written))
      && (forall e :: e !in targets && e in d.written ==> r.written[e] == d.written[e])
      && r.log == d.log + Dispatches(Dedup(targets), false)
  {
    if IsStale(sel, now) then d else Inject(d, targets, sel.text, false)
  }

  function InfoOf(p: Payload): Option<SelectionInfo> {
    if p.Info? then Some(p.info) else None
  }

  /** One run of the polling function: counts the attempt, adds this tick's
      discoveries, and only if the set grew either injects the pending record
      into this tick's discoveries or asks the worker for the selection; it
      reschedules itself through the tenth attempt and after the eleventh drops
      the pending record. */
  function Tick(a: Agent, snap: Snapshot, now: int): (r: Agent)
    ensures a.inputs <= r.inputs && r.phase == a.phase
    ensures a.phase != Running || !a.scheduled ==> r == a
    ensures a.phase == Running && a.scheduled ==>
      && r.attempts == a.attempts + 1
      && r.inputs == AddAll(a.inputs, PromptElements(snap))
      && (r.scheduled <==> r.attempts <= LastReschedulingAttempt)
      && r.pending == (if r.scheduled then a.pending else None)
      && (|r.inputs| == |a.inputs| ==> r.dom == a.dom && r.outbox == a.outbox)
      && (|r.inputs| > |a.inputs| && a.pending.Some? ==>
            r.dom == InjectText(a.dom, a.pending.value, PromptElements(snap), now) && r.outbox == a.outbox)
      && (|r.inputs| > |a.inputs| && a.pending.None? ==>
            r.dom == a.dom && r.outbox == a.outbox + [PortMessage(GetSelectionAction, NoPayload)])
  {
    if a.phase != Running || !a.scheduled then a
    else
      var attempts := a.attempts + 1;
      var found := PromptElements(snap);
      var inputs := AddAll(a.inputs, found);
      var grew := |inputs| > |a.inputs|;
      var dom := if grew && a.pending.Some? then InjectText(a.dom, a.pending.value, found, now) else a.dom;
      var outbox := if grew && a.pending.None? then a.outbox + [PortMessage(GetSelectionAction, NoPayload)] else a.outbox;
      var again := attempts <= LastReschedulingAttempt;
      a.(attempts := attempts, inputs := inputs, dom := dom, outbox := outbox,
         scheduled := again, pending := if again then a.pending else None)
  }

  /** A message on the port.  Before the acknowledgement the one-shot listener
      decides the wait; on "connected" `init` goes on, registers the handler and
      runs the first polling tick at once; on anything else `init` fails and
      the script does nothing more.  Afterwards only "getSelection" is handled:
      discovery first, then the record is parked if there is still no input,
      or injected into every known input. */
  function Receive(a: Agent, m: PortMessage, snap: Snapshot, now: int): (r: Agent)
    ensures a.inputs <= r.inputs
    ensures a.phase == AwaitingAck && m.action == ConnectedAction ==>
      r == Tick(a.(phase := Running, scheduled := true), snap, now)
    ensures a.phase == AwaitingAck && m.action != ConnectedAction ==> r == a.(phase := InitFailed)
    ensures a.phase == InitFailed ==> r == a
    ensures a.phase == Running && m.action != GetSelectionAction ==> r == a
    ensures a.phase == Running && m.action == GetSelectionAction ==>
      && r.inputs == AddAll(a.inputs, PromptElements(snap))
      && r.outbox == a.outbox && r.attempts == a.attempts && r.scheduled == a.scheduled
      && (r.inputs == [] ==> r.pending == InfoOf(m.payload) && r.dom == a.dom)
      && (r.inputs != [] ==> r.pending == a.pending)
      && (r.inputs != [] && m.payload.Info? ==> r.dom == InjectText(a.dom, m.payload.info, r.inputs, now))
      && (r.inputs != [] && !m.payload.Info? ==> r.dom == a.dom)
  {
    match a.phase
    case AwaitingAck =>
      if AckStep(Awaiting, m) == Resolved then Tick(a.(phase := Running, scheduled := true), snap, now)
      else a.(phase := InitFailed)
    case InitFailed => a
    case Running =>
      if m.action != GetSelectionAction then a
      else
        var inputs := AddAll(a.inputs, PromptElements(snap));
        if |inputs| == 0 then a.(inputs := inputs, pending := InfoOf(m.payload))
        else if m.payload.Info? then a.(inputs := inputs, dom := InjectText(a.dom, m.payload.info, inputs, now))
        else a.(inputs := inputs)
  }

  /** Something that can happen to the script: a port message, or the polling
      timer firing. */
  datatype Step = Deliver(m: PortMessage, snap: Snapshot, now: int) | TimerFires(snap: Snapshot, now: int)

  function Apply(a: Agent, s: Step): Agent {
    match s
    case Deliver(m, snap, now) => Receive(a, m, snap, now)
    case TimerFires(snap, now) => Tick(a, snap, now)
  }

  function Run(a: Agent, steps: seq<Step>): Agent
    decreases |steps|
  {
    if steps == [] then a else Run(Apply(a, steps[0]), steps[1..])
  }

  /** What holds of the script's state at every moment: the candidate set has
      no repeats; before the acknowledgement nothing has run; once running,
      between one and eleven ticks have run and the loop is scheduled exactly
      while fewer than eleven have. */
  predicate Valid(a: Agent) {
    && Distinct(a.inputs)
    && (a.phase == AwaitingAck ==> a.attempts == 0 && !a.scheduled)
    && (a.phase == InitFailed ==> a.attempts == 0 && !a.scheduled)
    && (a.phase == Running ==>
          1 <= a.attempts <= LastReschedulingAttempt + 1 && (a.scheduled <==> a.attempts <= LastReschedulingAttempt))
  }

  lemma StepKeepsValid(a: Agent, s: Step)
    requires Valid(a)
    ensures Valid(Apply(a, s))
  {
  }

  /** Whatever happens, in any order, from the script's start: the state stays
      valid (so the polling function runs at most eleven times), and the
      candidate set only ever grows, the earlier set being a prefix of the later. */
  lemma {:induction false} RunKeepsValidAndGrows(a: Agent, steps: seq<Step>)
    requires Valid(a)
    ensures Valid(Run(a, steps))
    ensures a.inputs <= Run(a, steps).inputs
    ensures Run(a, steps).attempts <= LastReschedulingAttempt + 1
    decreases |steps|
  {
    if steps != [] {
      StepKeepsValid(a, steps[0]);
      RunKeepsValidAndGrows(Apply(a, steps[0]), steps[1..]);
    }
  }

  lemma InitialIsValid()
    ensures Valid(Initial)
  {
  }

  function RunTicks(a: Agent, ticks: seq<(Snapshot, int)>): Agent
    decreases |ticks|
  {
    if ticks == [] then a else RunTicks(Tick(a, ticks[0].0, ticks[0].1), ticks[1..])
  }

  /** Once the loop has stopped, further timer firings change nothing. */
  lemma {:induction false} StoppedTicksChangeNothing(a: Agent, ticks: seq<(Snapshot, int)>)
    requires !a.scheduled
    ensures RunTicks(a, ticks) == a
    decreases |ticks|
  {
    if ticks != [] {
      StoppedTicksChangeNothing(a, ticks[1..]);
    }
  }

  /** Left to itself, a running loop stops after its eleventh tick, and at that
      point the pending record has been dropped. */
  lemma {:induction false} PollingStopsAndDropsPending(a: Agent, ticks: seq<(Snapshot, int)>)
    requires Valid(a) && a.phase == Running && a.scheduled
    requires |ticks| >= LastReschedulingAttempt + 1 - a.attempts
    ensures var r := RunTicks(a, ticks);
      !r.scheduled && r.attempts == LastReschedulingAttempt + 1 && r.pending == None
    decreases |ticks|
  {
    var b := Tick(a, ticks[0].0, ticks[0].1);
    if b.scheduled {
      PollingStopsAndDropsPending(b, ticks[1..]);
    } else {
      StoppedTicksChangeNothing(b, ticks[1..]);
    }
  }
}
