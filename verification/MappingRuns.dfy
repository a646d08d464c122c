/** What holds in every state a run of the mapping server reaches. */
module MappingRuns {
  import opened Environment
  import opened MappingKeys
  import opened Mappings
  import opened MappingStorage
  import opened MappingSteps
  import opened Wrappers

  datatype CamEvent = CamRequest(payload: seq<string>) | CamRestart

  function CamNext(w: World, st: CamState, e: CamEvent): CamState {
    match e
    case CamRequest(payload) => HandleMapping(w, st, payload).0
    case CamRestart => StartMapping(w, st.file).OrElse(st)
  }

  /** The state after the events of a run, the last one last. */
  function CamRun(w: World, st: CamState, events: seq<CamEvent>): CamState
    decreases |events|
  {
    if events == [] then st else CamNext(w, CamRun(w, st, events[..|events| - 1]), events[|events| - 1])
  }

  /** Every mapping is under its own key, and the file holds what the store holds. */
  ghost predicate CamInvariant(w: World, st: CamState) {
    Keyed(st.store) && st == Save(w, st.store)
  }

  // ---------------------------------------------------------------- one change

  /** Exactly the mapping of one key was created, replaced or removed; the new store was saved. */
  ghost predicate ChangesKey(w: World, before: CamState, after: CamState, key: string) {
    after == Save(w, after.store) && after.store - {key} == before.store - {key}
  }

  /** The key a change is about. */
  function ChangedKey(w: World, cmd: string, params: Params): Option<string> {
    if cmd == REMOVE_MAPPING then
      match ReadIds(params)
      case Success(t) => Some(ComputeHash(t))
      case Failure(_) => None
    else
      match ReadReceived(w, params)
      case Success(m) => Some(ComputeHash(m.triple))
      case Failure(_) => None
  }

  function PartOf(cmd: string): Option<Part> {
    if cmd == UPDATE_PORT_MAPPING then Some(Port)
    else if cmd == UPDATE_CREDENTIAL_MAPPING then Some(Credential)
    else if cmd == UPDATE_STATUS_MAPPING then Some(StatusOnly)
    else if cmd == UPDATE_INFO_MAPPING then Some(Info)
    else None
  }

  /** What a successful change other than a removal stores, and from what. */
  ghost predicate Stores(before: Store, cmd: string, received: Mapping, stored: Mapping) {
    && IsComplete(stored.triple)
    && ComputeHash(stored.triple) == ComputeHash(received.triple)
    && match PartOf(cmd)
       case None => stored == received
       case Some(part) => IsMappingExisting(before, received.triple)
                          && stored == Amend(part, before[ComputeHash(received.triple)], received)
  }

  lemma PartStores(w: World, st: CamState, params: Params, part: Part) returns (received: Mapping, stored: Mapping)
    requires Keyed(st.store) && UpdatePart(w, st, params, part).Success?
    ensures ReadReceived(w, params) == Success(received) && IsMappingExisting(st.store, received.triple)
    ensures stored == Amend(part, st.store[ComputeHash(received.triple)], received)
    ensures IsComplete(stored.triple) && ComputeHash(stored.triple) == ComputeHash(received.triple)
    ensures UpdatePart(w, st, params, part).value == Save(w, st.store[ComputeHash(received.triple) := stored])
  {
    received := ReadReceived(w, params).value;
    stored := Amend(part, st.store[ComputeHash(received.triple)], received);
  }

  lemma ChangeStores(w: World, st: CamState, cmd: string, params: Params) returns (received: Mapping, stored: Mapping)
    requires Keyed(st.store) && IsChange(cmd) && cmd != REMOVE_MAPPING && Change(w, st, cmd, params).Success?
    ensures ReadReceived(w, params) == Success(received)
    ensures Stores(st.store, cmd, received, stored)
    ensures Change(w, st, cmd, params).value == Save(w, st.store[ComputeHash(received.triple) := stored])
  {
    match PartOf(cmd)
    case Some(part) => received, stored := PartStores(w, st, params, part);
    case None => received, stored := ReadReceived(w, params).value, ReadReceived(w, params).value;
  }

  lemma StoredAt(w: World, before: CamState, key: string, stored: Mapping)
    requires Keyed(before.store) && key == ComputeHash(stored.triple) && IsComplete(stored.triple)
    ensures ChangesKey(w, before, Save(w, before.store[key := stored]), key)
    ensures Keyed(before.store[key := stored])
  {
    SetKeepsKeyed(before.store, stored);
    OneKey(before.store, key, stored);
  }

  lemma OneKey<K, V>(m: map<K, V>, k: K, v: V)
    ensures m[k := v] - {k} == m - {k}
  {
  }

  lemma RemovedAtKey(w: World, before: CamState, key: string)
    requires Keyed(before.store)
    ensures ChangesKey(w, before, Save(w, before.store - {key}), key)
    ensures Keyed(before.store - {key})
  {
  }

  /** A change that succeeds keeps the store keyed and touches the key of the ids it names only, even when
      the mapping stored there has other ids. */
  lemma ChangeTouchesOneKey(w: World, st: CamState, cmd: string, params: Params)
    requires Keyed(st.store) && IsChange(cmd) && Change(w, st, cmd, params).Success?
    ensures ChangedKey(w, cmd, params).Some?
    ensures ChangesKey(w, st, Change(w, st, cmd, params).value, ChangedKey(w, cmd, params).value)
    ensures Keyed(Change(w, st, cmd, params).value.store)
  {
    if cmd == REMOVE_MAPPING {
      RemovedAtKey(w, st, ComputeHash(ReadIds(params).value));
    } else {
      var received, stored := ChangeStores(w, st, cmd, params);
      StoredAt(w, st, ComputeHash(received.triple), stored);
    }
  }

  /** An error reply leaves store and file as they were; so does every read. */
  lemma CamReplyTellsChange(w: World, st: CamState, payload: seq<string>)
    requires Keyed(st.store)
    ensures var (after, frames) := HandleMapping(w, st, payload);
            && (|frames| != 1 ==> after == st)
            && (|frames| == 1 && !IsChange(payload[0]) ==> after == st)
            && (|frames| == 1 && IsChange(payload[0]) ==>
                  && frames == [""] && ChangedKey(w, payload[0], payload[1..]).Some?
                  && ChangesKey(w, st, after, ChangedKey(w, payload[0], payload[1..]).value))
  {
    if payload != [] && IsChange(payload[0]) && Change(w, st, payload[0], payload[1..]).Success? {
      ChangeTouchesOneKey(w, st, payload[0], payload[1..]);
    }
  }

  // ---------------------------------------------------------------- the invariant

  lemma StartEstablishes(w: World, file: Option<string>)
    requires StartMapping(w, file).Success?
    ensures CamInvariant(w, StartMapping(w, file).value)
  {
    LoadedIsKeyed(w, file);
  }

  /** A restart gives back exactly the state before it. */
  lemma RestartIsIdentity(w: World, st: CamState)
    requires w.Sound() && CamInvariant(w, st)
    ensures CamNext(w, st, CamRestart) == st
  {
    SaveThenLoadMappings(w, st.store);
  }

  /** A request leaves the state its change gives, if it is a change and succeeds, and else the same. */
  lemma NextOfRequest(w: World, st: CamState, payload: seq<string>)
    ensures CamNext(w, st, CamRequest(payload)) ==
            if payload != [] && IsChange(payload[0]) then Change(w, st, payload[0], payload[1..]).OrElse(st) else st
  {
  }

  lemma CamEventKeepsInvariant(w: World, st: CamState, e: CamEvent)
    requires w.Sound() && CamInvariant(w, st)
    ensures CamInvariant(w, CamNext(w, st, e))
  {
    match e
    case CamRequest(payload) =>
      NextOfRequest(w, st, payload);
      if payload != [] && IsChange(payload[0]) && Change(w, st, payload[0], payload[1..]).Success? {
        ChangeTouchesOneKey(w, st, payload[0], payload[1..]);
      }
    case CamRestart => RestartIsIdentity(w, st);
  }

  lemma {:induction false} CamInvariantHolds(w: World, st: CamState, events: seq<CamEvent>)
    requires w.Sound() && CamInvariant(w, st)
    ensures CamInvariant(w, CamRun(w, st, events))
    decreases |events|
  {
    if events == [] {
    } else {
      var n := |events| - 1;
      CamInvariantHolds(w, st, events[..n]);
      CamEventKeepsInvariant(w, CamRun(w, st, events[..n]), events[n]);
    }
  }

  // ---------------------------------------------------------------- status and settings

  /** The event is a successful command that records a status for `key` along with, or for, its settings. */
  predicate RecordsStatus(w: World, st: CamState, e: CamEvent, key: string) {
    && e.CamRequest? && e.payload != []
    && e.payload[0] in {CREATE_MAPPING, UPDATE_MAPPING, UPDATE_STATUS_MAPPING}
    && Change(w, st, e.payload[0], e.payload[1..]).Success?
    && ChangedKey(w, e.payload[0], e.payload[1..]) == Some(key)
  }

  predicate SameSettings(a: Mapping, b: Mapping) {
    a.port == b.port && a.credentialId == b.credentialId && a.status == b.status
  }

  ghost predicate HasSettings(st: CamState, key: string, m: Mapping) {
    key in st.store && SameSettings(st.store[key], m)
  }

  ghost predicate KnownStatus(st: CamState, key: string) {
    key in st.store && st.store[key].status != UNKNOWN
  }

  /** What a recording event leaves under `key` is the status it was sent and, unless it was sent for the
      status only, the settings it was sent. */
  lemma RecordedAsReceived(w: World, st: CamState, e: CamEvent, key: string) returns (received: Mapping)
    requires Keyed(st.store) && RecordsStatus(w, st, e, key)
    ensures ReadReceived(w, e.payload[1..]) == Success(received) && key == ComputeHash(received.triple)
    ensures key in CamNext(w, st, e).store
    ensures var now := CamNext(w, st, e).store[key];
            if e.payload[0] == UPDATE_STATUS_MAPPING
            then key in st.store && SameSettings(now, st.store[key].(status := received.status))
            else now == received
  {
    var stored;
    received, stored := ChangeStores(w, st, e.payload[0], e.payload[1..]);
  }

  /** The same for what one command stores. */
  lemma StoredKeepsKnown(before: Store, cmd: string, received: Mapping, stored: Mapping, key: string)
    requires IsChange(cmd) && cmd != REMOVE_MAPPING && Stores(before, cmd, received, stored)
    requires key == ComputeHash(received.triple) && stored.status != UNKNOWN
    ensures cmd in {CREATE_MAPPING, UPDATE_MAPPING, UPDATE_STATUS_MAPPING}
            || (key in before && SameSettings(before[key], stored))
  {
  }

  lemma KnownStatusKept(w: World, st: CamState, cmd: string, params: Params, key: string)
    requires Keyed(st.store) && IsChange(cmd) && Change(w, st, cmd, params).Success?
    requires KnownStatus(Change(w, st, cmd, params).value, key)
    ensures || (cmd in {CREATE_MAPPING, UPDATE_MAPPING, UPDATE_STATUS_MAPPING}
                && ChangedKey(w, cmd, params) == Some(key))
            || HasSettings(st, key, Change(w, st, cmd, params).value.store[key])
  {
    ChangeTouchesOneKey(w, st, cmd, params);
    var after, changed := Change(w, st, cmd, params).value.store, ChangedKey(w, cmd, params).value;
    if key != changed {
      assert key in after - {changed} && (after - {changed})[key] == (st.store - {changed})[key];
    } else if cmd != REMOVE_MAPPING {
      var received, stored := ChangeStores(w, st, cmd, params);
      StoredKeepsKnown(st.store, cmd, received, stored, key);
    }
  }

  /** A known status that an event did not record was there before, for the same port and credential. */
  lemma KnownStatusStays(w: World, st: CamState, e: CamEvent, key: string)
    requires w.Sound() && CamInvariant(w, st)
    requires KnownStatus(CamNext(w, st, e), key)
    ensures RecordsStatus(w, st, e, key) || HasSettings(st, key, CamNext(w, st, e).store[key])
  {
    match e
    case CamRestart => RestartIsIdentity(w, st);
    case CamRequest(payload) =>
      NextOfRequest(w, st, payload);
      if payload != [] && IsChange(payload[0]) && Change(w, st, payload[0], payload[1..]).Success? {
        KnownStatusKept(w, st, payload[0], payload[1..], key);
      }
  }

  /** Along any sequence of states in which a known status is either recorded or was there before, the last
      one was recorded at some point, or there from the start, and kept its settings from then on. */
  lemma {:induction false} RecordedBefore(states: seq<CamState>, recorded: set<nat>, key: string) returns (i: nat)
    requires states != [] && KnownStatus(states[|states| - 1], key)
    requires forall j: nat | 0 < j < |states| && KnownStatus(states[j], key) ::
               j in recorded || HasSettings(states[j - 1], key, states[j].store[key])
    ensures i < |states| && (i == 0 || i in recorded)
    ensures forall j | i <= j < |states| :: HasSettings(states[j], key, states[|states| - 1].store[key])
    decreases |states|
  {
    i := |states| - 1;
    if i > 0 && i !in recorded {
      i := RecordedBefore(states[..i], recorded, key);
    }
  }

  /** The states a run goes through, the first one first. */
  function States(w: World, st: CamState, events: seq<CamEvent>): seq<CamState> {
    seq(|events| + 1, j requires 0 <= j <= |events| => CamRun(w, st, events[..j]))
  }

  lemma StatesStep(w: World, st: CamState, events: seq<CamEvent>, j: nat)
    requires j < |events|
    ensures States(w, st, events)[j + 1] == CamNext(w, States(w, st, events)[j], events[j])
  {
    assert events[..j + 1][..j] == events[..j];
  }

  /** The `j`th event of the run recorded a status for `key`. */
  ghost predicate RecordedAt(w: World, st: CamState, events: seq<CamEvent>, key: string, j: nat) {
    0 < j <= |events| && RecordsStatus(w, CamRun(w, st, events[..j - 1]), events[j - 1], key)
  }

  /** In every run, a known status stored at the end was recorded at some point of it, at the start or by a
      create, an update of the mapping or of the status, and from then on the port, the credential and the
      status stayed what they were then. */
  lemma StatusNeverOutlivesSettings(w: World, st: CamState, events: seq<CamEvent>, key: string) returns (i: nat)
    requires w.Sound() && CamInvariant(w, st)
    requires KnownStatus(CamRun(w, st, events), key)
    ensures i <= |events|
    ensures i == 0 || RecordedAt(w, st, events, key, i)
    ensures forall j | i <= j <= |events| ::
              HasSettings(CamRun(w, st, events[..j]), key, CamRun(w, st, events).store[key])
  {
    var states, n := States(w, st, events), |events|;
    var recorded := set j: nat | 0 < j <= n && RecordedAt(w, st, events, key, j);
    assert events[..n] == events;
    forall j: nat | 0 < j <= n && KnownStatus(states[j], key)
      ensures j in recorded || HasSettings(states[j - 1], key, states[j].store[key])
    {
      StatesStep(w, st, events, j - 1);
      CamInvariantHolds(w, st, events[..j - 1]);
      KnownStatusStays(w, states[j - 1], events[j - 1], key);
    }
    i := RecordedBefore(states, recorded, key);
    forall j | i <= j <= n ensures HasSettings(CamRun(w, st, events[..j]), key, CamRun(w, st, events).store[key]) {
      assert HasSettings(states[j], key, states[n].store[key]);
    }
  }
}
