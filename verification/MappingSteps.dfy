/** One request to the mapping server as one step (`cam_credential_asset_mapping_server`). */
module MappingSteps {
  import opened Environment
  import opened MappingErrors
  import opened MappingKeys
  import opened Mappings
  import opened MappingStorage
  import opened Serialization
  import opened Wrappers

  const CREATE_MAPPING := "CREATE_MAPPING"
  const GET_MAPPING := "GET_MAPPING"
  const UPDATE_MAPPING := "UPDATE_MAPPING"
  const UPDATE_PORT_MAPPING := "UPDATE_PORT_MAPPING"
  const UPDATE_CREDENTIAL_MAPPING := "UPDATE_CREDENTIAL_MAPPING"
  const UPDATE_STATUS_MAPPING := "UPDATE_STATUS_MAPPING"
  const UPDATE_INFO_MAPPING := "UPDATE_INFO_MAPPING"
  const REMOVE_MAPPING := "REMOVE_MAPPING"
  const GET_ASSET_MAPPINGS := "GET_ASSET_MAPPINGS"
  const GET_CRED_MAPPINGS := "GET_CRED_MAPPINGS"
  const GET_MAPPINGS := "GET_MAPPINGS"
  const GET_ALL_MAPPINGS := "GET_ALL_MAPPINGS"
  const COUNT_CRED_MAPPINGS := "COUNT_CRED_MAPPINGS"

  const TWO_TO_THE_32 := 0x1_0000_0000

  datatype CamState = CamState(store: Store, file: Option<string>)

  type Params = seq<string>

  // ---------------------------------------------------------------- parameters

  function NeedsOne(params: Params): CamReading<string> {
    if |params| >= 1 then Success(params[0]) else Failure(Cam(ArgumentError("", "Command needs at least 1 argument")))
  }

  function NeedsTwo(params: Params): CamReading<(string, string)> {
    if |params| >= 2 then Success((params[0], params[1]))
    else Failure(Cam(ArgumentError("", "Command needs at least 2 arguments")))
  }

  /** The three ids of a request; the check lets two pass, and the third is then out of range. */
  function ReadIds(params: Params): CamReading<Triple> {
    var (asset, service) :- NeedsTwo(params);
    if |params| == 2 then Failure(Unexpected) else Success(Triple(asset, service, params[2]))
  }

  function ReadReceived(w: World, params: Params): CamReading<Mapping> {
    var json :- NeedsOne(params);
    match w.fromText(json)
    case BadJson(what) => Failure(Cam(CamProtocolException("Error in the json from server: " + what)))
    case Json(si) => OrThrow(ReadMapping(si), Unexpected)
  }

  // ---------------------------------------------------------------- changes

  function Save(w: World, store: Store): CamState {
    CamState(store, Some(SaveMappings(w, store)))
  }

  function CreateMapping(w: World, st: CamState, params: Params): CamReading<CamState> {
    var m :- ReadReceived(w, params);
    :- Require(!IsMappingExisting(st.store, m.triple), Cam(AlreadyExistsError(m.triple)));
    var store :- SetMapping(st.store, m);
    Success(Save(w, store))
  }

  function UpdateMapping(w: World, st: CamState, params: Params): CamReading<CamState> {
    var m :- ReadReceived(w, params);
    :- Require(IsMappingExisting(st.store, m.triple), Cam(DoesNotExistError(m.triple)));
    var store :- SetMapping(st.store, m);
    Success(Save(w, store))
  }

  /** The part of the stored mapping that a command takes from the one received. */
  datatype Part = Port | Credential | StatusOnly | Info

  function Amend(part: Part, existing: Mapping, received: Mapping): Mapping {
    match part
    case Port => existing.(port := received.port, status := UNKNOWN)
    case Credential => existing.(credentialId := received.credentialId, status := UNKNOWN)
    case StatusOnly => existing.(status := received.status)
    case Info => existing.(extendedInfo := received.extendedInfo)
  }

  function UpdatePart(w: World, st: CamState, params: Params, part: Part): CamReading<CamState> {
    var received :- ReadReceived(w, params);
    var existing :- GetMapping(st.store, received.triple);
    var store :- SetMapping(st.store, Amend(part, existing, received));
    Success(Save(w, store))
  }

  function RemoveIds(w: World, st: CamState, params: Params): CamReading<CamState> {
    var t :- ReadIds(params);
    var store :- RemoveMapping(st.store, t);
    Success(Save(w, store))
  }

  // ---------------------------------------------------------------- reads

  function GetIds(w: World, st: CamState, params: Params): CamReading<string> {
    var t :- ReadIds(params);
    var m :- GetMapping(st.store, t);
    Success(w.toText(WriteMapping(m)))
  }

  function ListText(w: World, list: seq<Mapping>): string {
    w.toText(Array(WriteMappings(list)))
  }

  function GetOfAsset(w: World, st: CamState, params: Params): CamReading<string> {
    var asset :- NeedsOne(params);
    Success(ListText(w, Select(st.store, OfAsset(asset))))
  }

  function GetOfService(w: World, st: CamState, params: Params): CamReading<string> {
    var (asset, service) :- NeedsTwo(params);
    Success(ListText(w, Select(st.store, OfService(asset, service))))
  }

  function GetOfCredential(w: World, st: CamState, params: Params): CamReading<string> {
    var credential :- NeedsOne(params);
    Success(ListText(w, Select(st.store, OfCredential(credential))))
  }

  /** The count is cast to 32 bits. */
  function CountOfCredential(w: World, st: CamState, params: Params): CamReading<string> {
    var credential :- NeedsOne(params);
    Success(w.toText(Number(|Select(st.store, OfCredential(credential))| % TWO_TO_THE_32)))
  }

  // ---------------------------------------------------------------- dispatch

  function Change(w: World, st: CamState, cmd: string, params: Params): CamReading<CamState> {
    if cmd == CREATE_MAPPING then CreateMapping(w, st, params)
    else if cmd == UPDATE_MAPPING then UpdateMapping(w, st, params)
    else if cmd == UPDATE_PORT_MAPPING then UpdatePart(w, st, params, Port)
    else if cmd == UPDATE_CREDENTIAL_MAPPING then UpdatePart(w, st, params, Credential)
    else if cmd == UPDATE_STATUS_MAPPING then UpdatePart(w, st, params, StatusOnly)
    else if cmd == UPDATE_INFO_MAPPING then UpdatePart(w, st, params, Info)
    else RemoveIds(w, st, params)
  }

  function Read(w: World, st: CamState, cmd: string, params: Params): CamReading<string> {
    if cmd == GET_MAPPING then GetIds(w, st, params)
    else if cmd == GET_ASSET_MAPPINGS then GetOfAsset(w, st, params)
    else if cmd == GET_CRED_MAPPINGS then GetOfCredential(w, st, params)
    else if cmd == GET_MAPPINGS then GetOfService(w, st, params)
    else if cmd == GET_ALL_MAPPINGS then Success(ListText(w, Select(st.store, Any())))
    else if cmd == COUNT_CRED_MAPPINGS then CountOfCredential(w, st, params)
    else Failure(Cam(UnsupportedError(cmd + " not supported")))
  }

  predicate IsChange(cmd: string) {
    cmd in {CREATE_MAPPING, UPDATE_MAPPING, UPDATE_PORT_MAPPING, UPDATE_CREDENTIAL_MAPPING, UPDATE_STATUS_MAPPING,
            UPDATE_INFO_MAPPING, REMOVE_MAPPING}
  }

  function CamErrorReply(w: World, f: CamFailure): seq<string> {
    match f
    case Cam(e) => ["ERROR", w.toText(WriteCamError(e))]
    case Unexpected => ["ERROR", ""]
  }

  function HandleMapping(w: World, st: CamState, payload: seq<string>): (CamState, seq<string>) {
    if payload == [] then (st, CamErrorReply(w, Cam(CamProtocolException("Command frame is empty"))))
    else if payload[0] == "ERROR" || payload[0] == "OK" then (st, [])
    else if IsChange(payload[0]) then
      match Change(w, st, payload[0], payload[1..])
      case Success(after) => (after, [""])
      case Failure(f) => (st, CamErrorReply(w, f))
    else
      match Read(w, st, payload[0], payload[1..])
      case Success(text) => (st, [text])
      case Failure(f) => (st, CamErrorReply(w, f))
  }

  /** The constructor: load, then save; a failure ends the process. */
  function StartMapping(w: World, file: Option<string>): CamReading<CamState> {
    var store :- LoadMappings(w, file);
    Success(Save(w, store))
  }
}
