/** What each mapping command answers and leaves, for every payload: the first condition that bars it, or its
    effect field by field. */
module MappingReplies {
  import opened Environment
  import opened MappingClients
  import opened MappingErrors
  import opened MappingExchanges
  import opened MappingKeys
  import opened MappingRuns
  import opened Mappings
  import opened MappingStorage
  import opened MappingSteps
  import opened Ordering
  import opened ReadReplies
  import opened Serialization
  import opened Wrappers

  /** An exception by its class and that class's own fields, or one of the libraries. */
  datatype Bar = Thrown(code: CamErrorCode, fields: map<string, string>) | Foreign

  ghost predicate CamRefused(w: World, frames: seq<string>, bar: Bar) {
    match bar
    case Thrown(code, fields) =>
      exists what: string :: frames == ["ERROR", w.toText(WriteCamError(CamException(code, what, fields)))]
    case Foreign => frames == ["ERROR", ""]
  }

  /** The request is refused and changes nothing, or answers the empty text and leaves this store, saved. */
  ghost predicate Leaves(w: World, st: CamState, payload: seq<string>, bar: Option<Bar>, store: Store) {
    var (after, frames) := HandleMapping(w, st, payload);
    match bar
    case None => frames == [""] && after == CamState(store, Some(SaveMappings(w, store)))
    case Some(b) => CamRefused(w, frames, b) && after == st
  }

  /** The request is refused, or answers this text; it changes nothing. */
  ghost predicate Tells(w: World, st: CamState, payload: seq<string>, bar: Option<Bar>, text: string) {
    var (after, frames) := HandleMapping(w, st, payload);
    && after == st
    && match bar
       case None => frames == [text]
       case Some(b) => CamRefused(w, frames, b)
  }

  // ---------------------------------------------------------------- what bars a request

  const NO_ARGUMENT := Thrown(CamBadCommandArgument, map["argument" := ""])

  function IdFields(t: Triple): map<string, string> {
    map["asset" := t.asset, "service" := t.service, "protocol" := t.protocol]
  }

  /** A command with a mapping needs one that can be read. */
  function Unreceived(w: World, payload: seq<string>): Option<Bar> {
    if |payload| < 2 then Some(NO_ARGUMENT)
    else
      match w.fromText(payload[1])
      case BadJson(_) => Some(Thrown(CamProtocolError, map[]))
      case Json(si) => if ReadMapping(si).None? then Some(Foreign) else None
  }

  function Received(w: World, payload: seq<string>): Mapping
    requires Unreceived(w, payload) == None
  {
    ReadMapping(w.fromText(payload[1]).tree).value
  }

  predicate HasEmptyId(t: Triple) {
    t.asset == "" || t.service == "" || t.protocol == ""
  }

  function CreateBar(w: World, store: Store, payload: seq<string>): Option<Bar> {
    if Unreceived(w, payload).Some? then Unreceived(w, payload)
    else
      var t := Received(w, payload).triple;
      if ComputeHash(t) in store then Some(Thrown(MappingAlreadyExists, IdFields(t)))
      else if HasEmptyId(t) then Some(Thrown(CamGeneric, map[]))
      else None
  }

  function UpdateBar(w: World, store: Store, payload: seq<string>): Option<Bar> {
    if Unreceived(w, payload).Some? then Unreceived(w, payload)
    else
      var t := Received(w, payload).triple;
      if ComputeHash(t) !in store then Some(Thrown(MappingDoesNotExist, IdFields(t)))
      else if HasEmptyId(t) then Some(Thrown(CamGeneric, map[]))
      else None
  }

  /** A partial update takes the ids of the mapping stored. */
  function PartBar(w: World, store: Store, payload: seq<string>): Option<Bar> {
    if Unreceived(w, payload).Some? then Unreceived(w, payload)
    else
      var t := Received(w, payload).triple;
      if ComputeHash(t) !in store then Some(Thrown(MappingDoesNotExist, IdFields(t))) else None
  }

  /** A command with ids: two of them pass the check of the arguments, and the third is then missing. */
  function IdsBar(store: Store, payload: seq<string>): Option<Bar> {
    if |payload| < 3 then Some(NO_ARGUMENT)
    else if |payload| == 3 then Some(Foreign)
    else
      var t := Triple(payload[1], payload[2], payload[3]);
      if ComputeHash(t) !in store then Some(Thrown(MappingDoesNotExist, IdFields(t))) else None
  }

  function CountBar(payload: seq<string>, n: nat): Option<Bar> {
    if |payload| <= n then Some(NO_ARGUMENT) else None
  }

  // ---------------------------------------------------------------- steps and replies

  /** The exception of a step. */
  ghost predicate Bars<T>(r: CamReading<T>, bar: Bar) {
    r.Failure? && match r.error
                  case Cam(e) => bar == Thrown(e.code, e.fields)
                  case Unexpected => bar == Foreign
  }

  lemma RefusedByBar(w: World, f: CamFailure, bar: Bar)
    requires match f case Cam(e) => bar == Thrown(e.code, e.fields) case Unexpected => bar == Foreign
    ensures CamRefused(w, CamErrorReply(w, f), bar)
  {
    match f
    case Cam(e) =>
      assert e == CamException(e.code, e.what, e.fields);
      assert CamErrorReply(w, f) == ["ERROR", w.toText(WriteCamError(CamException(e.code, e.what, e.fields)))];
    case Unexpected =>
  }

  lemma ChangeLeaves(w: World, st: CamState, payload: seq<string>, bar: Option<Bar>, store: Store)
    requires payload != [] && IsChange(payload[0])
    requires var r := Change(w, st, payload[0], payload[1..]);
             if bar == None then r == Success(Save(w, store)) else Bars(r, bar.value)
    ensures Leaves(w, st, payload, bar, store)
  {
    var r := Change(w, st, payload[0], payload[1..]);
    if bar.Some? {
      RefusedByBar(w, r.error, bar.value);
    }
  }

  lemma ReadTells(w: World, st: CamState, payload: seq<string>, bar: Option<Bar>, text: string)
    requires payload != [] && !IsChange(payload[0]) && payload[0] != "ERROR" && payload[0] != "OK"
    requires var r := Read(w, st, payload[0], payload[1..]);
             if bar == None then r == Success(text) else Bars(r, bar.value)
    ensures Tells(w, st, payload, bar, text)
  {
    var r := Read(w, st, payload[0], payload[1..]);
    if bar.Some? {
      RefusedByBar(w, r.error, bar.value);
    }
  }

  lemma ReceivedIs(w: World, payload: seq<string>)
    requires payload != []
    ensures var r := ReadReceived(w, payload[1..]);
            if Unreceived(w, payload) == None then r == Success(Received(w, payload))
            else Bars(r, Unreceived(w, payload).value)
  {
  }

  // ---------------------------------------------------------------- changes

  /** The store with a mapping under the key of its ids. */
  function Entered(store: Store, m: Mapping): Store {
    store[ComputeHash(m.triple) := m]
  }

  /** A create is refused for ids in use or empty, and else puts the mapping under its key. */
  lemma CreateMappingReply(w: World, st: CamState, payload: seq<string>)
    requires payload != [] && payload[0] == "CREATE_MAPPING"
    ensures var bar := CreateBar(w, st.store, payload);
            Leaves(w, st, payload, bar,
                   if bar == None then Entered(st.store, Received(w, payload)) else map[])
  {
    var bar := CreateBar(w, st.store, payload);
    ReceivedIs(w, payload);
    ChangeLeaves(w, st, payload, bar,
                 if bar == None then Entered(st.store, Received(w, payload)) else map[]);
  }

  lemma UpdateMappingReply(w: World, st: CamState, payload: seq<string>)
    requires payload != [] && payload[0] == "UPDATE_MAPPING"
    ensures var bar := UpdateBar(w, st.store, payload);
            Leaves(w, st, payload, bar,
                   if bar == None then Entered(st.store, Received(w, payload)) else map[])
  {
    var bar := UpdateBar(w, st.store, payload);
    ReceivedIs(w, payload);
    ChangeLeaves(w, st, payload, bar,
                 if bar == None then Entered(st.store, Received(w, payload)) else map[]);
  }

  /** What each partial update leaves of the mapping stored and the one received: one field of the latter; a new
      port or credential makes the status unknown. */
  function PartLeft(cmd: string, former: Mapping, m: Mapping): Mapping {
    if cmd == "UPDATE_PORT_MAPPING" then Mapping(former.triple, m.port, former.credentialId, 0, former.extendedInfo)
    else if cmd == "UPDATE_CREDENTIAL_MAPPING" then
      Mapping(former.triple, former.port, m.credentialId, 0, former.extendedInfo)
    else if cmd == "UPDATE_STATUS_MAPPING" then
      Mapping(former.triple, former.port, former.credentialId, m.status, former.extendedInfo)
    else Mapping(former.triple, former.port, former.credentialId, former.status, m.extendedInfo)
  }

  predicate IsPartial(cmd: string) {
    cmd in {"UPDATE_PORT_MAPPING", "UPDATE_CREDENTIAL_MAPPING", "UPDATE_STATUS_MAPPING", "UPDATE_INFO_MAPPING"}
  }

  lemma AmendLeaves(cmd: string, former: Mapping, m: Mapping)
    requires IsPartial(cmd)
    ensures PartOf(cmd).Some? && Amend(PartOf(cmd).value, former, m) == PartLeft(cmd, former, m)
    ensures PartLeft(cmd, former, m).triple == former.triple
  {
  }

  lemma ChangeIsPart(w: World, st: CamState, cmd: string, params: Params)
    requires IsPartial(cmd)
    ensures PartOf(cmd).Some? && Change(w, st, cmd, params) == UpdatePart(w, st, params, PartOf(cmd).value)
  {
  }

  lemma PartStored(w: World, st: CamState, payload: seq<string>)
    requires Keyed(st.store) && payload != [] && PartBar(w, st.store, payload) == None && IsPartial(payload[0])
    ensures var key := ComputeHash(Received(w, payload).triple);
            Change(w, st, payload[0], payload[1..])
            == Success(Save(w, st.store[key := PartLeft(payload[0], st.store[key], Received(w, payload))]))
  {
    ReceivedIs(w, payload);
    var m := Received(w, payload);
    var former := st.store[ComputeHash(m.triple)];
    assert ComputeHash(m.triple) == ComputeHash(former.triple) && IsComplete(former.triple);
    ChangeIsPart(w, st, payload[0], payload[1..]);
    AmendLeaves(payload[0], former, m);
  }

  /** A partial update leaves that under the key, and nothing else changes. */
  lemma PartReply(w: World, st: CamState, payload: seq<string>)
    requires Keyed(st.store) && payload != [] && IsPartial(payload[0])
    ensures var bar := PartBar(w, st.store, payload);
            Leaves(w, st, payload, bar,
                   if bar == None then
                     var key := ComputeHash(Received(w, payload).triple);
                     st.store[key := PartLeft(payload[0], st.store[key], Received(w, payload))]
                   else map[])
  {
    var bar := PartBar(w, st.store, payload);
    ReceivedIs(w, payload);
    if bar == None {
      var key := ComputeHash(Received(w, payload).triple);
      PartStored(w, st, payload);
      ChangeLeaves(w, st, payload, bar, st.store[key := PartLeft(payload[0], st.store[key], Received(w, payload))]);
    } else {
      ChangeIsPart(w, st, payload[0], payload[1..]);
      ChangeLeaves(w, st, payload, bar, map[]);
    }
  }

  lemma IdsRead(payload: seq<string>)
    requires payload != []
    ensures var r := ReadIds(payload[1..]);
            if |payload| < 3 then Bars(r, NO_ARGUMENT)
            else if |payload| == 3 then Bars(r, Foreign)
            else r == Success(Triple(payload[1], payload[2], payload[3]))
  {
  }

  lemma RemoveReply(w: World, st: CamState, payload: seq<string>)
    requires payload != [] && payload[0] == "REMOVE_MAPPING"
    ensures var bar := IdsBar(st.store, payload);
            Leaves(w, st, payload, bar,
                   if bar == None then st.store - {ComputeHash(Triple(payload[1], payload[2], payload[3]))} else map[])
  {
    var bar := IdsBar(st.store, payload);
    IdsRead(payload);
    ChangeLeaves(w, st, payload, bar,
                 if bar == None then st.store - {ComputeHash(Triple(payload[1], payload[2], payload[3]))} else map[]);
  }

  /** So a client reads back, for a partial update, the former mapping with that field. */
  lemma LeftByPart(w: World, st: CamState, cmd: string, m: Mapping)
    requires IsPartial(cmd) && IsMappingExisting(st.store, m.triple)
    ensures Left(st.store, cmd, m) == PartLeft(cmd, st.store[ComputeHash(m.triple)], m)
  {
    AmendLeaves(cmd, st.store[ComputeHash(m.triple)], m);
  }

  // ---------------------------------------------------------------- reads

  lemma GetReply(w: World, st: CamState, payload: seq<string>)
    requires payload != [] && payload[0] == "GET_MAPPING"
    ensures var bar := IdsBar(st.store, payload);
            Tells(w, st, payload, bar,
                  if bar == None then
                    w.toText(WriteMapping(st.store[ComputeHash(Triple(payload[1], payload[2], payload[3]))]))
                  else "")
  {
    var bar := IdsBar(st.store, payload);
    IdsRead(payload);
    ReadTells(w, st, payload, bar,
              if bar == None then
                w.toText(WriteMapping(st.store[ComputeHash(Triple(payload[1], payload[2], payload[3]))]))
              else "");
  }

  /** The keys of the mappings a query is about, in order; each stands once. */
  ghost predicate KeysInOrder(store: Store, keys: seq<string>, chosen: Mapping -> bool) {
    && Sorted(keys)
    && (forall k :: k in keys <==> k in store && chosen(store[k]))
  }

  function MappingsAt(store: Store, keys: seq<string>): seq<Mapping>
    requires forall k | k in keys :: k in store
  {
    seq(|keys|, i requires 0 <= i < |keys| => store[keys[i]])
  }

  lemma SelectInOrder(store: Store, chosen: Mapping -> bool) returns (keys: seq<string>)
    ensures KeysInOrder(store, keys, chosen) && Select(store, chosen) == MappingsAt(store, keys)
    ensures |keys| == |set k | k in store && chosen(store[k])|
  {
    keys := Ascending(KeysOf(store, chosen));
    AscendingIsSorted(KeysOf(store, chosen));
    assert KeysOf(store, chosen) == set k | k in store && chosen(store[k]);
  }

  /** The mappings asked for by a query. */
  predicate Matches(payload: seq<string>, m: Mapping) {
    if payload == [] then false
    else if payload[0] == "GET_ALL_MAPPINGS" then true
    else if |payload| < 2 then false
    else if payload[0] == "GET_ASSET_MAPPINGS" then m.triple.asset == payload[1]
    else if payload[0] == "GET_MAPPINGS" then
      |payload| > 2 && m.triple.asset == payload[1] && m.triple.service == payload[2]
    else m.credentialId == payload[1]
  }

  function QueryBar(payload: seq<string>): Option<Bar>
    requires payload != []
  {
    if payload[0] == "GET_ALL_MAPPINGS" then None
    else CountBar(payload, if payload[0] == "GET_MAPPINGS" then 2 else 1)
  }

  lemma SameSelection(store: Store, keep: Mapping -> bool, chosen: Mapping -> bool)
    requires forall m :: keep(m) <==> chosen(m)
    ensures Select(store, keep) == Select(store, chosen)
  {
    assert KeysOf(store, keep) == KeysOf(store, chosen);
  }

  lemma QueryReads(w: World, st: CamState, payload: seq<string>, chosen: Mapping -> bool)
    requires payload != [] && QueryBar(payload) == None && forall m :: chosen(m) <==> Matches(payload, m)
    requires IsQuery(payload[0])
    ensures Read(w, st, payload[0], payload[1..]) == Success(ListText(w, Select(st.store, chosen)))
  {
    if payload[0] == "GET_ALL_MAPPINGS" {
      SameSelection(st.store, Any(), chosen);
    } else if payload[0] == "GET_ASSET_MAPPINGS" {
      SameSelection(st.store, OfAsset(payload[1]), chosen);
    } else if payload[0] == "GET_MAPPINGS" {
      SameSelection(st.store, OfService(payload[1], payload[2]), chosen);
    } else {
      SameSelection(st.store, OfCredential(payload[1]), chosen);
    }
  }

  predicate IsQuery(cmd: string) {
    cmd in {"GET_ALL_MAPPINGS", "GET_ASSET_MAPPINGS", "GET_MAPPINGS", "GET_CRED_MAPPINGS"}
  }

  lemma QueryTells(w: World, st: CamState, payload: seq<string>, chosen: Mapping -> bool, list: seq<Mapping>)
    requires payload != [] && IsQuery(payload[0]) && forall m :: chosen(m) <==> Matches(payload, m)
    requires Select(st.store, chosen) == list
    ensures Tells(w, st, payload, QueryBar(payload), ListText(w, list))
  {
    if QueryBar(payload) == None {
      QueryReads(w, st, payload, chosen);
    }
    ReadTells(w, st, payload, QueryBar(payload), ListText(w, list));
  }

  /** A query by asset, by asset and service, by credential or of everything answers the mappings it is about, one
      for each of their keys, in the order of the keys, and a client reads exactly those. */
  lemma QueryReply(w: World, st: CamState, payload: seq<string>) returns (keys: seq<string>)
    requires w.Sound() && payload != [] && IsQuery(payload[0])
    ensures KeysInOrder(st.store, keys, m => Matches(payload, m))
    ensures Tells(w, st, payload, QueryBar(payload), ListText(w, MappingsAt(st.store, keys)))
    ensures var answer := ParseAnswer(w, [ListText(w, MappingsAt(st.store, keys))]);
            answer.Success? && AsMappings(answer.value) == Success(MappingsAt(st.store, keys))
  {
    var chosen := (m: Mapping) => Matches(payload, m);
    keys := SelectInOrder(st.store, chosen);
    QueryTells(w, st, payload, chosen, MappingsAt(st.store, keys));
    ListParses(w, MappingsAt(st.store, keys));
  }

  lemma ListParses(w: World, list: seq<Mapping>)
    requires w.Sound()
    ensures var answer := ParseAnswer(w, [ListText(w, list)]);
            answer.Success? && AsMappings(answer.value) == Success(list)
  {
    TextAnswer(w, Array(WriteMappings(list)));
    MappingsRoundTrip(list);
  }

  /** A count is that of the keys of the credential, in 32 bits. */
  lemma CountReply(w: World, st: CamState, payload: seq<string>)
    requires payload != [] && payload[0] == "COUNT_CRED_MAPPINGS"
    ensures Tells(w, st, payload, CountBar(payload, 1),
                  if |payload| < 2 then ""
                  else w.toText(Number(
                         |set k | k in st.store && st.store[k].credentialId == payload[1]| % 4294967296)))
  {
    if |payload| >= 2 {
      var keys := SelectInOrder(st.store, OfCredential(payload[1]));
      assert (set k | k in st.store && OfCredential(payload[1])(st.store[k]))
             == (set k | k in st.store && st.store[k].credentialId == payload[1]);
      ReadTells(w, st, payload, CountBar(payload, 1),
                w.toText(Number(|set k | k in st.store && st.store[k].credentialId == payload[1]| % 4294967296)));
    } else {
      ReadTells(w, st, payload, CountBar(payload, 1), "");
    }
  }

  /** A command of another name is refused, a payload without any is an error of the protocol, and an answer is
      not answered. */
  lemma OtherMappingReply(w: World, st: CamState, payload: seq<string>)
    ensures payload == [] ==> Tells(w, st, payload, Some(Thrown(CamProtocolError, map[])), "")
    ensures payload != [] && payload[0] in {"OK", "ERROR"} ==> HandleMapping(w, st, payload) == (st, [])
    ensures payload != [] && payload[0] !in {
              "OK", "ERROR", "CREATE_MAPPING", "GET_MAPPING", "UPDATE_MAPPING", "UPDATE_PORT_MAPPING",
              "UPDATE_CREDENTIAL_MAPPING", "UPDATE_STATUS_MAPPING", "UPDATE_INFO_MAPPING", "REMOVE_MAPPING",
              "GET_ASSET_MAPPINGS", "GET_CRED_MAPPINGS", "GET_MAPPINGS", "GET_ALL_MAPPINGS", "COUNT_CRED_MAPPINGS"} ==>
              Tells(w, st, payload,
                    Some(Thrown(CamUnsupportedCommand, map["command" := payload[0] + " not supported"])), "")
  {
    if payload == [] {
      RefusedByBar(w, Cam(CamProtocolException("Command frame is empty")), Thrown(CamProtocolError, map[]));
    } else if payload[0] !in {"OK", "ERROR"} && !IsChange(payload[0])
              && Read(w, st, payload[0], payload[1..]).Failure? && Read(w, st, payload[0], payload[1..])
                 == Failure(Cam(UnsupportedError(payload[0] + " not supported"))) {
      ReadTells(w, st, payload, Some(Thrown(CamUnsupportedCommand, map["command" := payload[0] + " not supported"])),
                "");
    }
  }
}
