/** What the iframe-side scripts do to the embedded AI page: find up to three
    prompt inputs, remember them in an insertion-ordered set, and write a text
    into each one followed by synthetic events.  Elements are abstract: an id
    and whether the element is a form control (textarea/input, written through
    `value`) or anything else (written through `innerText`). */
module Injection {
  import opened Js

  datatype Kind = FormControl | TextContent

  datatype Element = Element(id: nat, kind: Kind)

  datatype Accessor = ValueProperty | InnerText

  /** Form controls are written through `value`, everything else through `innerText`. */
  function AccessorFor(k: Kind): Accessor {
    if k == FormControl then ValueProperty else InnerText
  }

  /** The last write an element received and the property it went through. */
  datatype Written = Written(via: Accessor, text: string)

  /** `Focus` stands for the legacy script's `focus()` call, which fires a
      non-bubbling focus event; the others are the dispatched events. */
  datatype EventKind = Focus | Input | Change | KeyDown | KeyUp

  datatype Event = Event(target: Element, kind: EventKind, bubbles: bool)

  /** The observable effect of injection on the embedded page. */
  datatype Dom = Dom(written: map<Element, Written>, log: seq<Event>)

  const EmptyDom := Dom(map[], [])

  /** The first match, if any, of the three queries `[contenteditable]`,
      `textarea` and `input[type=text]` at one moment. */
  datatype Snapshot = Snapshot(editable: Option<Element>, textarea: Option<Element>, textInput: Option<Element>)

  function OptionSeq(o: Option<Element>): seq<Element> {
    if o.Some? then [o.value] else []
  }

  /** `getPromptElement`: at most three elements, in the order contenteditable,
      textarea, text input. */
  function PromptElements(p: Snapshot): (r: seq<Element>)
    ensures |r| == |OptionSeq(p.editable)| + |OptionSeq(p.textarea)| + |OptionSeq(p.textInput)| <= 3
    ensures forall e :: e in r <==> Some(e) in {p.editable, p.textarea, p.textInput}
    ensures p.editable.Some? ==> r[0] == p.editable.value
    ensures p.textarea.Some? ==> r[|OptionSeq(p.editable)|] == p.textarea.value
    ensures p.textInput.Some? ==> r[|r| - 1] == p.textInput.value
  {
    OptionSeq(p.editable) + OptionSeq(p.textarea) + OptionSeq(p.textInput)
  }

  /** `found.forEach(el => known.add(el))` on a JavaScript `Set`, which keeps
      insertion order: the old set is a prefix of the new one (nothing is ever
      removed or reordered), and exactly the elements of `found` are added. */
  function AddAll(known: seq<Element>, found: seq<Element>): (r: seq<Element>)
    ensures known <= r
    ensures forall e :: e in r <==> e in known || e in found
    ensures Distinct(known) ==> Distinct(r)
    decreases |found|
  {
    if found == [] then known
    else AddAll(if found[0] in known then known else known + [found[0]], found[1..])
  }

  /** The set grows exactly when some found element was not yet in it. */
  lemma AddAllGrows(known: seq<Element>, found: seq<Element>)
    requires Distinct(known)
    ensures |AddAll(known, found)| > |known| <==> exists e :: e in found && e !in known
  {
    var r := AddAll(known, found);
    if |r| > |known| {
      assert r[|known|] in found && r[|known|] !in known by {
        assert r[|known|] !in r[..|known|];
        assert r[..|known|] == known;
      }
    } else {
      assert r == known;
    }
  }

  /** `new Set(elements)`: the elements without repeats, first occurrence first. */
  function Dedup(elements: seq<Element>): (r: seq<Element>)
    ensures Distinct(r)
    ensures forall e :: e in r <==> e in elements
  {
    AddAll([], elements)
  }

  /** The events one target receives: for the current script input, change,
      keydown, keyup, all bubbling; the legacy script focuses first. */
  function EventsFor(e: Element, focus: bool): (r: seq<Event>)
  {
    (if focus then [Event(e, Focus, false)] else [])
    + [Event(e, Input, true), Event(e, Change, true), Event(e, KeyDown, true), Event(e, KeyUp, true)]
  }

  function Dispatches(targets: seq<Element>, focus: bool): seq<Event>
  {
    if targets == [] then [] else EventsFor(targets[0], focus) + Dispatches(targets[1..], focus)
  }

  function EventsPerTarget(focus: bool): nat {
    if focus then 5 else 4
  }

  /** The event log of an injection is one block of events per target, in
      target order, each block exactly the target's input, change, keydown,
      keyup (after a focus in the legacy script). */
  lemma {:induction false} DispatchBlocks(targets: seq<Element>, focus: bool, i: nat)
    requires i < |targets|
    ensures |Dispatches(targets, focus)| == |targets| * EventsPerTarget(focus)
    ensures var n := EventsPerTarget(focus);
      Dispatches(targets, focus)[i * n .. i * n + n] == EventsFor(targets[i], focus)
  {
    var n := EventsPerTarget(focus);
    assert |EventsFor(targets[0], focus)| == n;
    if i == 0 {
      if |targets| > 1 {
        DispatchBlocks(targets[1..], focus, 0);
      }
    } else {
      DispatchBlocks(targets[1..], focus, i - 1);
      var rest := Dispatches(targets[1..], focus);
      assert Dispatches(targets, focus) == EventsFor(targets[0], focus) + rest;
      assert i * n == n + (i - 1) * n;
      assert Dispatches(targets, focus)[i * n .. i * n + n] == rest[(i - 1) * n .. (i - 1) * n + n];
    }
  }

  lemma ConcatAssoc<T>(a: seq<T>, b: seq<T>, c: seq<T>)
    ensures a + (b + c) == (a + b) + c
  {
  }

  /** Writes `text` into every target in order, through the target's accessor,
      logging each target's events.  Elements that are not targets keep what
      they held. */
  function WriteEach(d: Dom, targets: seq<Element>, text: string, focus: bool): (r: Dom)
    ensures forall e :: e in targets ==> e in r.written && r.written[e] == Written(AccessorFor(e.kind), text)
    ensures forall e :: e !in targets ==> (e in r.written <==> e in d.written)
    ensures forall e :: e !in targets && e in d.written ==> r.written[e] == d.written[e]
    ensures r.log == d.log + Dispatches(targets, focus)
    decreases |targets|
  {
    if targets == [] then d
    else
      var e := targets[0];
      var d' := Dom(d.written[e := Written(AccessorFor(e.kind), text)], d.log + EventsFor(e, focus));
      var r := WriteEach(d', targets[1..], text, focus);
      assert forall x :: x in targets ==> x == e || x in targets[1..];
      var here, rest := EventsFor(e, focus), Dispatches(targets[1..], focus);
      assert Dispatches(targets, focus) == here + rest;
      ConcatAssoc(d.log, here, rest);
      r
  }

  /** `injectText`'s loop over `new Set(targets)`. */
  function Inject(d: Dom, targets: seq<Element>, text: string, focus: bool): (r: Dom)
    ensures forall e :: e in targets ==> e in r.written && r.written[e] == Written(AccessorFor(e.kind), text)
    ensures forall e :: e !in targets ==> (e in r.written <==> e in d.written)
    ensures forall e :: e !in targets && e in d.written ==> r.written[e] == d.written[e]
    ensures r.log == d.log + Dispatches(Dedup(targets), focus)
  {
    WriteEach(d, Dedup(targets), text, focus)
  }

  /** Injecting the same text into the same targets twice leaves every element
      holding what one injection leaves; only the event log grows. */
  lemma InjectIdempotent(d: Dom, targets: seq<Element>, text: string, focus: bool)
    ensures Inject(Inject(d, targets, text, focus), targets, text, focus).written
         == Inject(d, targets, text, focus).written
  {
    var once := Inject(d, targets, text, focus);
    var twice := Inject(once, targets, text, focus);
    assert twice.written.Keys == once.written.Keys;
  }
}
