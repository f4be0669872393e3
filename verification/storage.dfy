/** `ExtStorage`: typed accessors over the browser's two key-value areas.  Each
    area is a map from key to a JavaScript value; the accessors check the type
    of what they find and fall back to a default, as the code does. */
module Storage {
  import opened Js
  import opened Types

  /** The JavaScript values a storage area can hold. */
  datatype Value =
    | Undefined
    | Null
    | Bool(b: bool)
    | Num(n: int)
    | Str(s: string)
    | Arr(items: seq<Value>)
    | Record(info: SelectionInfo)

  /** One storage area (`chrome.storage.local` or `chrome.storage.session`). */
  type Store = map<string, Value>

  const SelectedAiKey := "selectedAI"
  const PrevSelectedAiKey := "prevSelectedAI"
  const EnabledAisKey := "enabledAIs"
  const SelectionButtonEnabledKey := "selectionButtonEnabled"
  const SelectionInfoKey := "selectionInfo"
  const PanelOpenKey := "panelOpen"

  /** Three minutes, the default age after which a stored selection is dropped. */
  const DefaultTtlMs: int := 3 * 60 * 1000

  /** `get(key)`: a missing key reads as undefined. */
  function Get(store: Store, key: string): Value {
    if key in store then store[key] else Undefined
  }

  /** `set({ key: v })`: writes one key, every other key keeps its value. */
  function Put(store: Store, key: string, v: Value): (r: Store)
    ensures Get(r, key) == v
    ensures forall k :: k != key ==> Get(r, k) == Get(store, k)
    ensures r.Keys == store.Keys + {key}
  {
    store[key := v]
  }

  /** `remove(key)`: the key is gone, every other key keeps its value. */
  function Remove(store: Store, key: string): (r: Store)
    ensures key !in r
    ensures forall k :: k != key ==> Get(r, k) == Get(store, k)
    ensures r.Keys == store.Keys - {key}
  {
    store - {key}
  }

  // ---- local area ----

  /** `getSelectedAI`: the stored value if it is a string, otherwise null. */
  function GetSelectedAI(local: Store): (r: Option<string>)
    ensures r.Some? <==> Get(local, SelectedAiKey).Str?
    ensures r.Some? ==> Get(local, SelectedAiKey) == Str(r.value)
  {
    match Get(local, SelectedAiKey)
    case Str(s) => Some(s)
    case _ => None
  }

  function SetSelectedAI(local: Store, ai: string): Store {
    Put(local, SelectedAiKey, Str(ai))
  }

  /** `getPrevSelectedAI`: the stored value if it is a string, otherwise null. */
  function GetPrevSelectedAI(local: Store): (r: Option<string>)
    ensures r.Some? <==> Get(local, PrevSelectedAiKey).Str?
    ensures r.Some? ==> Get(local, PrevSelectedAiKey) == Str(r.value)
  {
    match Get(local, PrevSelectedAiKey)
    case Str(s) => Some(s)
    case _ => None
  }

  function SetPrevSelectedAI(local: Store, ai: string): Store {
    Put(local, PrevSelectedAiKey, Str(ai))
  }

  /** `getEnabledAIs`: the stored list if it is an array, otherwise null. */
  function GetEnabledAIs(local: Store): (r: Option<seq<Value>>)
    ensures r.Some? <==> Get(local, EnabledAisKey).Arr?
    ensures r.Some? ==> Get(local, EnabledAisKey) == Arr(r.value)
  {
    match Get(local, EnabledAisKey)
    case Arr(items) => Some(items)
    case _ => None
  }

  function Strs(ais: seq<string>): (r: seq<Value>)
    ensures |r| == |ais| && forall i :: 0 <= i < |ais| ==> r[i] == Str(ais[i])
  {
    seq(|ais|, i requires 0 <= i < |ais| => Str(ais[i]))
  }

  function SetEnabledAIs(local: Store, ais: seq<string>): Store {
    Put(local, EnabledAisKey, Arr(Strs(ais)))
  }

  /** `getSelectionButtonEnabled`: the stored boolean, true when none is stored. */
  function GetSelectionButtonEnabled(local: Store): (r: bool)
    ensures Get(local, SelectionButtonEnabledKey).Bool? ==> r == Get(local, SelectionButtonEnabledKey).b
    ensures !Get(local, SelectionButtonEnabledKey).Bool? ==> r
  {
    match Get(local, SelectionButtonEnabledKey)
    case Bool(b) => b
    case _ => true
  }

  function SetSelectionButtonEnabled(local: Store, enabled: bool): Store {
    Put(local, SelectionButtonEnabledKey, Bool(enabled))
  }

  /** Each local setter is read back by its own getter and leaves the other
      getters' answers alone. */
  lemma {:induction false} LocalRoundTrips(local: Store, ai: string, ais: seq<string>, enabled: bool)
    ensures GetSelectedAI(SetSelectedAI(local, ai)) == Some(ai)
    ensures GetPrevSelectedAI(SetPrevSelectedAI(local, ai)) == Some(ai)
    ensures GetEnabledAIs(SetEnabledAIs(local, ais)) == Some(Strs(ais))
    ensures GetSelectionButtonEnabled(SetSelectionButtonEnabled(local, enabled)) == enabled
    ensures var l := SetSelectedAI(local, ai);
      GetPrevSelectedAI(l) == GetPrevSelectedAI(local) && GetEnabledAIs(l) == GetEnabledAIs(local)
      && GetSelectionButtonEnabled(l) == GetSelectionButtonEnabled(local)
    ensures var l := SetPrevSelectedAI(local, ai);
      GetSelectedAI(l) == GetSelectedAI(local) && GetEnabledAIs(l) == GetEnabledAIs(local)
      && GetSelectionButtonEnabled(l) == GetSelectionButtonEnabled(local)
    ensures var l := SetEnabledAIs(local, ais);
      GetSelectedAI(l) == GetSelectedAI(local) && GetPrevSelectedAI(l) == GetPrevSelectedAI(local)
      && GetSelectionButtonEnabled(l) == GetSelectionButtonEnabled(local)
    ensures var l := SetSelectionButtonEnabled(local, enabled);
      GetSelectedAI(l) == GetSelectedAI(local) && GetPrevSelectedAI(l) == GetPrevSelectedAI(local)
      && GetEnabledAIs(l) == GetEnabledAIs(local)
  {
  }

  // ---- session area ----

  /** The answer of `getSelectionInfo` together with the session area after the
      call (an expired record is removed as a side effect). */
  datatype SelectionRead = SelectionRead(info: Option<SelectionInfo>, session: Store)

  predicate Expired(info: SelectionInfo, now: int, ttl: int) {
    now - info.timestamp > ttl
  }

  /** `getSelectionInfo(ttl)` at wall-clock time `now`. */
  function GetSelectionInfo(session: Store, now: int, ttl: int): (r: SelectionRead)
    ensures !Get(session, SelectionInfoKey).Record? ==> r == SelectionRead(None, session)
    ensures Get(session, SelectionInfoKey).Record? && Expired(Get(session, SelectionInfoKey).info, now, ttl) ==>
      && r.info == None
      && SelectionInfoKey !in r.session
      && forall k :: k != SelectionInfoKey ==> Get(r.session, k) == Get(session, k)
    ensures Get(session, SelectionInfoKey).Record? && !Expired(Get(session, SelectionInfoKey).info, now, ttl) ==>
      r == SelectionRead(Some(Get(session, SelectionInfoKey).info), session)
  {
    match Get(session, SelectionInfoKey)
    case Record(info) =>
      if Expired(info, now, ttl) then SelectionRead(None, RemoveSelectionInfo(session))
      else SelectionRead(Some(info), session)
    case _ => SelectionRead(None, session)
  }

  function SetSelectionInfo(session: Store, info: SelectionInfo): Store {
    Put(session, SelectionInfoKey, Record(info))
  }

  function RemoveSelectionInfo(session: Store): Store {
    Remove(session, SelectionInfoKey)
  }

  /** Writing a record replaces any earlier one: reading it back at any time up
      to and including `ttl` after its timestamp returns exactly that record and
      changes nothing; reading it later returns nothing. */
  lemma SetThenGetSelectionInfo(session: Store, info: SelectionInfo, now: int, ttl: int)
    ensures var s := SetSelectionInfo(session, info);
      now - info.timestamp <= ttl ==> GetSelectionInfo(s, now, ttl) == SelectionRead(Some(info), s)
    ensures var s := SetSelectionInfo(session, info);
      now - info.timestamp > ttl ==> GetSelectionInfo(s, now, ttl).info == None
  {
  }

  /** With the default three-minute ttl: a record stamped T is still returned at
      T + 180000 and is gone, from that read on, at T + 180001. */
  lemma DefaultTtlBoundary(session: Store, info: SelectionInfo, later: int, ttl: int)
    ensures DefaultTtlMs == 180000
    ensures var s := SetSelectionInfo(session, info);
      GetSelectionInfo(s, info.timestamp + DefaultTtlMs, DefaultTtlMs).info == Some(info)
    ensures var s := SetSelectionInfo(session, info);
      var r := GetSelectionInfo(s, info.timestamp + DefaultTtlMs + 1, DefaultTtlMs);
      r.info == None && GetSelectionInfo(r.session, later, ttl).info == None
  {
  }

  /** `getPanelOpenState`: true only when the stored value is exactly `true`. */
  function GetPanelOpenState(session: Store): (r: bool)
    ensures r <==> Get(session, PanelOpenKey) == Bool(true)
  {
    Get(session, PanelOpenKey) == Bool(true)
  }

  function SetPanelOpenState(session: Store, isOpen: bool): Store {
    Put(session, PanelOpenKey, Bool(isOpen))
  }

  /** The panel flag round-trips, and the selection slot and the panel flag do
      not disturb each other. */
  lemma SessionKeysIndependent(session: Store, info: SelectionInfo, isOpen: bool, now: int, ttl: int)
    ensures GetPanelOpenState(SetPanelOpenState(session, isOpen)) == isOpen
    ensures GetPanelOpenState(SetSelectionInfo(session, info)) == GetPanelOpenState(session)
    ensures GetPanelOpenState(RemoveSelectionInfo(session)) == GetPanelOpenState(session)
    ensures GetSelectionInfo(SetPanelOpenState(session, isOpen), now, ttl).info == GetSelectionInfo(session, now, ttl).info
  {
  }
}
