/** The client of the mapping server (`cam_accessor`); the bus between them carries frames unchanged. */
module MappingClients {
  import opened Environment
  import opened MappingCounters
  import opened MappingErrors
  import opened MappingKeys
  import opened MappingObjects
  import opened Mappings
  import opened MappingStorage
  import opened MappingSteps
  import opened Serialization
  import opened Wrappers

  function CamThrown(w: World, data: string): CamFailure {
    match w.fromText(data)
    case BadJson(_) => Unexpected
    case Json(si) => ReadCamError(si)
  }

  /** The frames of an answer, unless it is an error. */
  function CamAnswer(w: World, frames: seq<string>): CamReading<seq<string>>
    requires frames != []
  {
    if frames[0] != "ERROR" then Success(frames)
    else if |frames| == 2 then Failure(CamThrown(w, frames[1]))
    else Failure(Cam(CamProtocolException("Missing data for error")))
  }

  function ParseAnswer(w: World, frames: seq<string>): CamReading<Tree> {
    if frames == [] then Failure(Unexpected)
    else
      var answer :- CamAnswer(w, frames);
      match w.fromText(answer[0])
      case BadJson(what) => Failure(Cam(CamProtocolException("Error in the json from server: " + what)))
      case Json(si) => Success(si)
  }

  function AsMappings(si: Tree): CamReading<seq<Mapping>> {
    OrThrow(ReadMappings(Items(si)), Unexpected)
  }

  function AsUint32(si: Tree): CamReading<nat> {
    if si.Number? && 0 <= si.number < TWO_TO_THE_32 then Success(si.number) else Failure(Unexpected)
  }

  /** A mapping exists if it can be read, and does not if the answer says so; any other failure is thrown. */
  function Existence(r: CamReading<Tree>): CamReading<bool> {
    match r
    case Success(si) => if ReadMapping(si).Some? then Success(true) else Failure(Unexpected)
    case Failure(Cam(e)) => if e.code == MappingDoesNotExist then Success(false) else Failure(Cam(e))
    case Failure(Unexpected) => Failure(Unexpected)
  }

  // ---------------------------------------------------------------- what the answers say

  lemma TextAnswer(w: World, si: Tree)
    requires w.Sound()
    ensures ParseAnswer(w, [w.toText(si)]) == Success(si)
  {
    assert w.fromText(w.toText(si)) == Json(si) && w.toText(si) != "ERROR";
  }

  lemma ErrorAnswer(w: World, e: CamException)
    requires w.Sound() && WellFormedCam(e) && e.code == MappingDoesNotExist
    ensures ParseAnswer(w, CamErrorReply(w, Cam(e))) == Failure(Cam(e))
  {
    CamErrorRoundTrip(e);
    assert w.fromText(w.toText(WriteCamError(e))) == Json(WriteCamError(e));
  }

  /** The list of all mappings arrives as it is in the store. */
  lemma AllArrive(w: World, st: CamState)
    requires w.Sound()
    ensures var answer := ParseAnswer(w, HandleMapping(w, st, [GET_ALL_MAPPINGS]).1);
            answer.Success? && AsMappings(answer.value) == Success(Select(st.store, Any()))
  {
    var list := Select(st.store, Any());
    assert HandleMapping(w, st, [GET_ALL_MAPPINGS]).1 == [ListText(w, list)];
    TextAnswer(w, Array(WriteMappings(list)));
    MappingsRoundTrip(list);
  }

  lemma CountArrives(w: World, st: CamState, c: string)
    requires w.Sound()
    ensures var answer := ParseAnswer(w, HandleMapping(w, st, [COUNT_CRED_MAPPINGS, c]).1);
            answer.Success? && AsUint32(answer.value) == Success(|Select(st.store, OfCredential(c))| % TWO_TO_THE_32)
  {
    assert [COUNT_CRED_MAPPINGS, c][1..] == [c];
    TextAnswer(w, Number(|Select(st.store, OfCredential(c))| % TWO_TO_THE_32));
  }

  /** What a client reads for three ids. */
  function ReadBack(w: World, st: CamState, t: Triple): CamReading<Tree> {
    ParseAnswer(w, HandleMapping(w, st, [GET_MAPPING, t.asset, t.service, t.protocol]).1)
  }

  /** It is the mapping under their key, or the exception that there is none. */
  lemma ReadBackIs(w: World, st: CamState, t: Triple)
    requires w.Sound()
    ensures ReadBack(w, st, t) == if ComputeHash(t) in st.store then Success(WriteMapping(st.store[ComputeHash(t)]))
                              else Failure(Cam(DoesNotExistError(t)))
  {
    var payload := [GET_MAPPING, t.asset, t.service, t.protocol];
    assert payload[1..] == [t.asset, t.service, t.protocol];
    assert ReadIds(payload[1..]) == Success(t);
    match GetMapping(st.store, t)
    case Success(m) =>
      assert HandleMapping(w, st, payload).1 == [w.toText(WriteMapping(m))];
      TextAnswer(w, WriteMapping(m));
    case Failure(_) =>
      assert HandleMapping(w, st, payload).1 == CamErrorReply(w, Cam(DoesNotExistError(t)));
      ErrorAnswer(w, DoesNotExistError(t));
  }

  /** A client is told that a mapping exists exactly when the store has its key. */
  lemma ExistenceArrives(w: World, st: CamState, t: Triple)
    requires w.Sound()
    ensures Existence(ReadBack(w, st, t)) == Success(IsMappingExisting(st.store, t))
  {
    ReadBackIs(w, st, t);
    if IsMappingExisting(st.store, t) {
      MappingRoundTrip(st.store[ComputeHash(t)]);
    }
  }

  /** For every credential the client's counter is what the server counts; there is one exactly if some
      mapping uses the credential. */
  lemma CountersAgree(w: World, st: CamState, c: string)
    requires w.Sound() && c != ""
    ensures var counters := CountAll(Select(st.store, Any()));
            var server := ParseAnswer(w, HandleMapping(w, st, [COUNT_CRED_MAPPINGS, c]).1);
            && (c in counters <==> exists k :: k in st.store && st.store[k].credentialId == c)
            && server.Success? && AsUint32(server.value) == Success(if c in counters then counters[c] else 0)
  {
    var list := Select(st.store, Any());
    CountArrives(w, st, c);
    CountersAreUses(list, c);
    CountOfStore(st.store, OfCredential(c));
    var users := KeysOf(st.store, OfCredential(c));
    assert |Select(st.store, OfCredential(c))| == |users|;
    if k :| k in st.store && st.store[k].credentialId == c {
      assert k in users;
    }
    if users != {} {
      var k :| k in users;
    }
  }

  /** Below 2^32 the counters sum to the number of mappings in the store that have a credential. */
  lemma CountersSumToStore(st: CamState)
    requires |KeysOf(st.store, HasCredential())| < TWO_TO_THE_32
    ensures Sum(CountAll(Select(st.store, Any()))) == |KeysOf(st.store, HasCredential())|
  {
    CountOfStore(st.store, HasCredential());
    CountersSum(Select(st.store, Any()));
  }

  class Accessor {
    const server: CredentialAssetMappingServer

    constructor (server: CredentialAssetMappingServer)
      ensures this.server == server
    {
      this.server := server;
    }

    method GetAllMappings() returns (r: CamReading<seq<Mapping>>)
      requires server.Valid()
      modifies server.activeMapping
      ensures server.Value() == old(server.Value())
      ensures server.world.Sound() ==> r == Success(Select(server.Value().store, Any()))
    {
      ghost var st := server.Value();
      var frames := server.HandleRequest([GET_ALL_MAPPINGS]);
      if server.world.Sound() { AllArrive(server.world, st); }
      var si :- ParseAnswer(server.world, frames);
      r := AsMappings(si);
    }

    method CountCredentialMappingsForCredential(c: string) returns (r: CamReading<nat>)
      requires server.Valid()
      modifies server.activeMapping
      ensures server.Value() == old(server.Value())
      ensures server.world.Sound() ==> r == Success(|Select(server.Value().store, OfCredential(c))| % TWO_TO_THE_32)
    {
      ghost var st := server.Value();
      var frames := server.HandleRequest([COUNT_CRED_MAPPINGS, c]);
      if server.world.Sound() { CountArrives(server.world, st, c); }
      var si :- ParseAnswer(server.world, frames);
      r := AsUint32(si);
    }

    method IsMappingExistingAtServer(t: Triple) returns (r: CamReading<bool>)
      requires server.Valid()
      modifies server.activeMapping
      ensures server.Value() == old(server.Value())
      ensures server.world.Sound() ==> r == Success(IsMappingExisting(server.Value().store, t))
    {
      ghost var st := server.Value();
      var frames := server.HandleRequest([GET_MAPPING, t.asset, t.service, t.protocol]);
      if server.world.Sound() { ExistenceArrives(server.world, st, t); }
      r := Existence(ParseAnswer(server.world, frames));
    }

    static method CountEach(mappings: seq<Mapping>) returns (counters: map<string, nat>)
      ensures counters == CountAll(mappings)
      ensures forall c :: c in counters <==> c != "" && Uses(mappings, c) > 0
      ensures forall c | c in counters :: counters[c] == Uses(mappings, c) % TWO_TO_THE_32
    {
      counters := map[];
      for k := 0 to |mappings|
        invariant counters == CountAll(mappings[..k])
      {
        assert mappings[..k + 1][..k] == mappings[..k];
        var c := mappings[k].credentialId;
        if c != "" {
          if c !in counters {
            counters := counters[c := 1];
          } else {
            counters := counters[c := (counters[c] + 1) % TWO_TO_THE_32];
          }
        }
      }
      assert mappings[..|mappings|] == mappings;
      forall c
        ensures c in counters <==> c != "" && Uses(mappings, c) > 0
        ensures c in counters ==> counters[c] == Uses(mappings, c) % TWO_TO_THE_32
      {
        CountersAreUses(mappings, c);
      }
    }

    method GetAllCredentialCounter() returns (r: CamReading<map<string, nat>>)
      requires server.Valid()
      modifies server.activeMapping
      ensures server.Value() == old(server.Value())
      ensures server.world.Sound() ==> r == Success(CountAll(Select(server.Value().store, Any())))
    {
      var mappings :- GetAllMappings();
      var counters := CountEach(mappings);
      r := Success(counters);
    }
  }
}
