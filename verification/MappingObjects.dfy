/** The mapping store and its server as objects. */
module MappingObjects {
  import opened Environment
  import opened MappingErrors
  import opened MappingKeys
  import opened MappingRuns
  import opened Mappings
  import opened MappingStorage
  import opened MappingSteps
  import opened Ordering
  import opened Serialization
  import opened Wrappers

  /** The wanted ones of the first `k` keys, in order. */
  ghost predicate Chosen(keys: seq<string>, wanted: set<string>, k: nat, chosen: seq<string>)
    requires k <= |keys|
  {
    && (forall i, j | 0 <= i < j < |chosen| :: Below(chosen[i], chosen[j]))
    && (forall x :: x in chosen <==> x in keys[..k] && x in wanted)
  }

  lemma ChosenGrows(keys: seq<string>, wanted: set<string>, k: nat, chosen: seq<string>)
    requires k < |keys| && (forall i, j | 0 <= i < j < |keys| :: Below(keys[i], keys[j]))
    requires Chosen(keys, wanted, k, chosen)
    ensures Chosen(keys, wanted, k + 1, if keys[k] in wanted then chosen + [keys[k]] else chosen)
  {
    assert keys[..k + 1] == keys[..k] + [keys[k]];
    if keys[k] in wanted {
      var more := chosen + [keys[k]];
      forall i, j | 0 <= i < j < |more| ensures Below(more[i], more[j]) {
        if j == |chosen| {
          assert chosen[i] in chosen;
          var n :| 0 <= n < k && keys[..k][n] == chosen[i];
        }
      }
    }
  }

  /** `list` holds the mappings under these keys. */
  ghost predicate HoldsKeys(store: Store, chosen: seq<string>, list: seq<Mapping>) {
    |list| == |chosen| && forall i | 0 <= i < |list| :: chosen[i] in store && list[i] == store[chosen[i]]
  }

  lemma KeyIsWanted(store: Store, keep: Mapping -> bool, key: string)
    requires key in Ascending(store.Keys)
    ensures key in store && (key in KeysOf(store, keep) <==> keep(store[key]))
  {
  }

  /** The scan behind every query: the whole store, in the order of its keys. */
  method Scan(store: Store, keep: Mapping -> bool) returns (list: seq<Mapping>)
    ensures list == Select(store, keep)
  {
    var keys := Ascending(store.Keys);
    ghost var chosen: seq<string>, wanted := [], KeysOf(store, keep);
    AscendingIsSorted(store.Keys);
    list := [];
    for k := 0 to |keys|
      invariant Chosen(keys, wanted, k, chosen) && HoldsKeys(store, chosen, list)
    {
      KeyIsWanted(store, keep, keys[k]);
      ChosenGrows(keys, wanted, k, chosen);
      if keep(store[keys[k]]) {
        list := list + [store[keys[k]]];
        chosen := chosen + [keys[k]];
      }
    }
    ScanEnds(store, keys, wanted, chosen, list);
  }

  lemma ScanEnds(store: Store, keys: seq<string>, wanted: set<string>, chosen: seq<string>, list: seq<Mapping>)
    requires Chosen(keys, wanted, |keys|, chosen) && HoldsKeys(store, chosen, list)
    requires forall x | x in wanted :: x in keys
    ensures (forall k | k in Ascending(wanted) :: k in store) && list == AtKeys(store, Ascending(wanted))
  {
    assert keys[..|keys|] == keys;
    AscendingIsUnique(chosen, wanted);
  }

  class CredentialAssetMappingStorage {
    const world: World
    var mappings: Store
    var file: Option<string>

    constructor (world: World, file: Option<string>)
      ensures this.world == world && Value() == CamState(map[], file)
    {
      this.world, mappings, this.file := world, map[], file;
    }

    function Value(): CamState
      reads this
    {
      CamState(mappings, file)
    }

    method Save()
      modifies this`file
      ensures Value() == MappingSteps.Save(world, mappings)
    {
      var list := Collect(Any());
      file := Some(world.toText(MappingsTree(WriteMappings(list))));
    }

    method GetMapping(t: Triple) returns (r: CamReading<Mapping>)
      ensures r == MappingStorage.GetMapping(mappings, t)
    {
      var hash := ComputeHash(t);
      if hash !in mappings { return Failure(Cam(DoesNotExistError(t))); }
      return Success(mappings[hash]);
    }

    method SetMapping(m: Mapping) returns (r: Outcome<CamFailure>)
      modifies this`mappings
      ensures match MappingStorage.SetMapping(old(mappings), m)
              case Success(store) => r == Pass && mappings == store
              case Failure(f) => r == Fail(f) && mappings == old(mappings)
    {
      if m.triple.asset == "" || m.triple.service == "" || m.triple.protocol == "" {
        return Fail(Cam(CamException(CamGeneric, "Bad format", map[])));
      }
      mappings := mappings[ComputeHash(m.triple) := m];
      return Pass;
    }

    method RemoveMapping(t: Triple) returns (r: Outcome<CamFailure>)
      modifies this`mappings
      ensures match MappingStorage.RemoveMapping(old(mappings), t)
              case Success(store) => r == Pass && mappings == store
              case Failure(f) => r == Fail(f) && mappings == old(mappings)
    {
      var hash := ComputeHash(t);
      if hash !in mappings { return Fail(Cam(DoesNotExistError(t))); }
      mappings := mappings - {hash};
      return Pass;
    }

    method Collect(keep: Mapping -> bool) returns (list: seq<Mapping>)
      ensures list == Select(mappings, keep)
    {
      list := Scan(mappings, keep);
    }

    /** The mappings of a list are set one by one; one that cannot be set is skipped. */
    method SetEach(list: seq<Mapping>)
      requires mappings == map[]
      modifies this`mappings
      ensures mappings == SetAll(list)
    {
      for k := 0 to |list|
        invariant mappings == SetAll(list[..k])
      {
        assert list[..k + 1][..k] == list[..k];
        var skipped := SetMapping(list[k]);
      }
      assert list[..|list|] == list;
    }

    method Load() returns (r: Outcome<CamFailure>)
      requires mappings == map[]
      modifies this`mappings
      ensures match LoadMappings(world, file)
              case Success(store) => r == Pass && mappings == store
              case Failure(f) => r == Fail(f)
    {
      if file.None? { return Pass; }
      var parsed := world.fromText(file.value);
      if parsed.BadJson? { return Fail(Unexpected); }
      var version := FindByte(parsed.tree, "version");
      if version != Some(MAPPING_VERSION) { return Fail(Unexpected); }
      var items := FindMember(parsed.tree, "mappings");
      if items.None? { return Fail(Unexpected); }
      var list := ReadMappings(Items(items.value));
      if list.None? { return Fail(Unexpected); }
      SetEach(list.value);
      return Pass;
    }

    /** What the program does with a new store: load, then save; a failure ends the process. */
    method Start() returns (r: Outcome<CamFailure>)
      requires mappings == map[]
      modifies this
      ensures match StartMapping(world, old(file))
              case Success(st) => r == Pass && Value() == st
              case Failure(f) => r == Fail(f)
      ensures r.Pass? ==> CamInvariant(world, Value())
    {
      r := Load();
      if r.Pass? {
        Save();
        StartEstablishes(world, old(file));
      }
    }
  }

  class CredentialAssetMappingServer {
    const world: World
    const activeMapping: CredentialAssetMappingStorage

    constructor (activeMapping: CredentialAssetMappingStorage)
      ensures this.activeMapping == activeMapping && world == activeMapping.world
    {
      this.world, this.activeMapping := activeMapping.world, activeMapping;
    }

    ghost predicate Valid() {
      activeMapping.world == world
    }

    ghost function Value(): CamState
      reads activeMapping
    {
      activeMapping.Value()
    }

    method SetAndSave(m: Mapping) returns (r: Outcome<CamFailure>)
      requires Valid()
      modifies activeMapping
      ensures match MappingStorage.SetMapping(old(activeMapping.mappings), m)
              case Success(store) => r == Pass && Value() == MappingSteps.Save(world, store)
              case Failure(f) => r == Fail(f) && Value() == old(Value())
    {
      r := activeMapping.SetMapping(m);
      if r.Pass? {
        activeMapping.Save();
      }
    }

    method HandleCreateMapping(params: Params) returns (r: Outcome<CamFailure>)
      requires Valid()
      modifies activeMapping
      ensures match CreateMapping(world, old(Value()), params)
              case Success(after) => r == Pass && Value() == after
              case Failure(f) => r == Fail(f) && Value() == old(Value())
    {
      var received := ReadReceived(world, params);
      if received.Failure? { return Fail(received.error); }
      if IsMappingExisting(activeMapping.mappings, received.value.triple) {
        return Fail(Cam(AlreadyExistsError(received.value.triple)));
      }
      r := SetAndSave(received.value);
    }

    method HandleUpdateMapping(params: Params) returns (r: Outcome<CamFailure>)
      requires Valid()
      modifies activeMapping
      ensures match UpdateMapping(world, old(Value()), params)
              case Success(after) => r == Pass && Value() == after
              case Failure(f) => r == Fail(f) && Value() == old(Value())
    {
      var received := ReadReceived(world, params);
      if received.Failure? { return Fail(received.error); }
      if !IsMappingExisting(activeMapping.mappings, received.value.triple) {
        return Fail(Cam(DoesNotExistError(received.value.triple)));
      }
      r := SetAndSave(received.value);
    }

    /** A local copy of the stored mapping takes one part of the received one; a new port or credential
        takes the status back. */
    method HandleUpdatePart(params: Params, part: Part) returns (r: Outcome<CamFailure>)
      requires Valid()
      modifies activeMapping
      ensures match UpdatePart(world, old(Value()), params, part)
              case Success(after) => r == Pass && Value() == after
              case Failure(f) => r == Fail(f) && Value() == old(Value())
    {
      var received := ReadReceived(world, params);
      if received.Failure? { return Fail(received.error); }
      var stored := activeMapping.GetMapping(received.value.triple);
      if stored.Failure? { return Fail(stored.error); }
      var existing := stored.value;
      match part {
        case Port =>
          existing := existing.(port := received.value.port);
          existing := existing.(status := UNKNOWN);
        case Credential =>
          existing := existing.(credentialId := received.value.credentialId);
          existing := existing.(status := UNKNOWN);
        case StatusOnly => existing := existing.(status := received.value.status);
        case Info => existing := existing.(extendedInfo := received.value.extendedInfo);
      }
      r := SetAndSave(existing);
    }

    method HandleRemoveMapping(params: Params) returns (r: Outcome<CamFailure>)
      requires Valid()
      modifies activeMapping
      ensures match RemoveIds(world, old(Value()), params)
              case Success(after) => r == Pass && Value() == after
              case Failure(f) => r == Fail(f) && Value() == old(Value())
    {
      var t := ReadIds(params);
      if t.Failure? { return Fail(t.error); }
      r := activeMapping.RemoveMapping(t.value);
      if r.Pass? {
        activeMapping.Save();
      }
    }

    method HandleGetMapping(params: Params) returns (r: CamReading<string>)
      requires Valid()
      ensures r == GetIds(world, Value(), params)
    {
      var t :- ReadIds(params);
      var m :- activeMapping.GetMapping(t);
      return Success(world.toText(WriteMapping(m)));
    }

    method HandleGetAssetMappings(params: Params) returns (r: CamReading<string>)
      requires Valid()
      ensures r == GetOfAsset(world, Value(), params)
    {
      var asset :- NeedsOne(params);
      var list := activeMapping.Collect(OfAsset(asset));
      return Success(ListText(world, list));
    }

    method HandleGetMappings(params: Params) returns (r: CamReading<string>)
      requires Valid()
      ensures r == GetOfService(world, Value(), params)
    {
      var ids :- NeedsTwo(params);
      var list := activeMapping.Collect(OfService(ids.0, ids.1));
      return Success(ListText(world, list));
    }

    method HandleGetCredentialMappings(params: Params) returns (r: CamReading<string>)
      requires Valid()
      ensures r == GetOfCredential(world, Value(), params)
    {
      var credential :- NeedsOne(params);
      var list := activeMapping.Collect(OfCredential(credential));
      return Success(ListText(world, list));
    }

    method HandleCountCredentialMappings(params: Params) returns (r: CamReading<string>)
      requires Valid()
      ensures r == CountOfCredential(world, Value(), params)
    {
      var credential :- NeedsOne(params);
      var list := activeMapping.Collect(OfCredential(credential));
      return Success(world.toText(Number(|list| % TWO_TO_THE_32)));
    }

    method HandleChange(cmd: string, params: Params) returns (r: Outcome<CamFailure>)
      requires Valid() && IsChange(cmd)
      modifies activeMapping
      ensures match Change(world, old(Value()), cmd, params)
              case Success(after) => r == Pass && Value() == after
              case Failure(f) => r == Fail(f) && Value() == old(Value())
    {
      if cmd == CREATE_MAPPING {
        r := HandleCreateMapping(params);
      } else if cmd == UPDATE_MAPPING {
        r := HandleUpdateMapping(params);
      } else if cmd == UPDATE_PORT_MAPPING {
        r := HandleUpdatePart(params, Port);
      } else if cmd == UPDATE_CREDENTIAL_MAPPING {
        r := HandleUpdatePart(params, Credential);
      } else if cmd == UPDATE_STATUS_MAPPING {
        r := HandleUpdatePart(params, StatusOnly);
      } else if cmd == UPDATE_INFO_MAPPING {
        r := HandleUpdatePart(params, Info);
      } else {
        r := HandleRemoveMapping(params);
      }
    }

    method HandleRead(cmd: string, params: Params) returns (r: CamReading<string>)
      requires Valid()
      ensures r == Read(world, Value(), cmd, params)
    {
      if cmd == GET_MAPPING {
        r := HandleGetMapping(params);
      } else if cmd == GET_ASSET_MAPPINGS {
        r := HandleGetAssetMappings(params);
      } else if cmd == GET_CRED_MAPPINGS {
        r := HandleGetCredentialMappings(params);
      } else if cmd == GET_MAPPINGS {
        r := HandleGetMappings(params);
      } else if cmd == GET_ALL_MAPPINGS {
        var list := activeMapping.Collect(Any());
        r := Success(ListText(world, list));
      } else if cmd == COUNT_CRED_MAPPINGS {
        r := HandleCountCredentialMappings(params);
      } else {
        r := Failure(Cam(UnsupportedError(cmd + " not supported")));
      }
    }

    /** One request; a good state stays good. */
    method HandleRequest(payload: seq<string>) returns (frames: seq<string>)
      requires Valid()
      modifies activeMapping
      ensures (Value(), frames) == HandleMapping(world, old(Value()), payload)
      ensures old(world.Sound() && CamInvariant(world, Value())) ==> CamInvariant(world, Value())
    {
      ghost var before := Value();
      if payload == [] {
        frames := CamErrorReply(world, Cam(CamProtocolException("Command frame is empty")));
      } else if payload[0] == "ERROR" || payload[0] == "OK" {
        frames := [];
      } else if IsChange(payload[0]) {
        var r := HandleChange(payload[0], payload[1..]);
        frames := if r.Pass? then [""] else CamErrorReply(world, r.error);
      } else {
        var r := HandleRead(payload[0], payload[1..]);
        frames := if r.Success? then [r.value] else CamErrorReply(world, r.error);
      }
      if world.Sound() && CamInvariant(world, before) {
        CamEventKeepsInvariant(world, before, CamRequest(payload));
      }
    }
  }
}
