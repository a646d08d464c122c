/** What one client writes to the mapping server is what the next one reads. */
module MappingExchanges {
  import opened Environment
  import opened MappingClients
  import opened MappingErrors
  import opened MappingKeys
  import opened MappingRuns
  import opened Mappings
  import opened MappingStorage
  import opened MappingSteps
  import opened Ordering
  import opened Serialization
  import opened Wrappers

  /** A command a client sends with a mapping in it. */
  function Command(w: World, cmd: string, m: Mapping): seq<string> {
    [cmd, w.toText(WriteMapping(m))]
  }

  lemma SentMapping(w: World, cmd: string, m: Mapping)
    requires w.Sound()
    ensures ReadReceived(w, Command(w, cmd, m)[1..]) == Success(m)
  {
    MappingRoundTrip(m);
    assert w.fromText(w.toText(WriteMapping(m))) == Json(WriteMapping(m));
  }

  /** What a command with a mapping leaves under its key. */
  function Left(store: Store, cmd: string, m: Mapping): Mapping
    requires PartOf(cmd).Some? ==> IsMappingExisting(store, m.triple)
  {
    match PartOf(cmd)
    case None => m
    case Some(part) => Amend(part, store[ComputeHash(m.triple)], m)
  }

  lemma CommandSucceeds(w: World, st: CamState, cmd: string, m: Mapping)
    requires w.Sound() && Keyed(st.store) && IsComplete(m.triple) && IsChange(cmd) && cmd != REMOVE_MAPPING
    ensures Change(w, st, cmd, Command(w, cmd, m)[1..]).Success?
       <==> (cmd == CREATE_MAPPING) != IsMappingExisting(st.store, m.triple)
    ensures Change(w, st, cmd, Command(w, cmd, m)[1..]).Success? ==>
              (PartOf(cmd).Some? ==> IsMappingExisting(st.store, m.triple))
              && Change(w, st, cmd, Command(w, cmd, m)[1..]).value
                 == Save(w, st.store[ComputeHash(m.triple) := Left(st.store, cmd, m)])
  {
    SentMapping(w, cmd, m);
    if IsMappingExisting(st.store, m.triple) {
      assert IsComplete(st.store[ComputeHash(m.triple)].triple);
    }
    if Change(w, st, cmd, Command(w, cmd, m)[1..]).Success? {
      var received, stored := ChangeStores(w, st, cmd, Command(w, cmd, m)[1..]);
    }
  }

  lemma ReplyToCommand(w: World, st: CamState, cmd: string, m: Mapping)
    requires IsChange(cmd)
    ensures var change := Change(w, st, cmd, Command(w, cmd, m)[1..]);
            && (HandleMapping(w, st, Command(w, cmd, m)).1 == [""] <==> change.Success?)
            && HandleMapping(w, st, Command(w, cmd, m)).0 == change.OrElse(st)
  {
  }

  /** A create succeeds exactly if there is no mapping under its key, any update exactly if there is one.
      Afterwards every client reads, for all ids with that key, the mapping as sent or as amended, and for
      all others what it read before. */
  lemma WriteThenRead(w: World, st: CamState, cmd: string, m: Mapping, t: Triple)
    requires w.Sound() && Keyed(st.store) && IsComplete(m.triple) && IsChange(cmd) && cmd != REMOVE_MAPPING
    ensures var (after, frames) := HandleMapping(w, st, Command(w, cmd, m));
            && (frames == [""] <==> (cmd == CREATE_MAPPING) != IsMappingExisting(st.store, m.triple))
            && (frames == [""] ==>
                  && (PartOf(cmd).Some? ==> IsMappingExisting(st.store, m.triple))
                  && ReadBack(w, after, t)
                     == if Canonical(t) == Canonical(m.triple) then Success(WriteMapping(Left(st.store, cmd, m)))
                                          else ReadBack(w, st, t))
  {
    CommandSucceeds(w, st, cmd, m);
    ReplyToCommand(w, st, cmd, m);
    CollideIff(t, m.triple);
    ReadBackIs(w, st, t);
    ReadBackIs(w, HandleMapping(w, st, Command(w, cmd, m)).0, t);
  }

  /** A removal succeeds exactly if there is a mapping to remove; afterwards no ids with that key read
      anything, and all others read what they did before. */
  lemma RemoveThenRead(w: World, st: CamState, gone: Triple, t: Triple)
    requires w.Sound() && Keyed(st.store)
    ensures var (after, frames) := HandleMapping(w, st, [REMOVE_MAPPING, gone.asset, gone.service, gone.protocol]);
            && (frames == [""] <==> IsMappingExisting(st.store, gone))
            && (frames == [""] ==>
                  ReadBack(w, after, t)
                  == if Canonical(t) == Canonical(gone) then Failure(Cam(DoesNotExistError(t)))
                     else ReadBack(w, st, t))
  {
    var payload := [REMOVE_MAPPING, gone.asset, gone.service, gone.protocol];
    assert payload[1..] == [gone.asset, gone.service, gone.protocol];
    assert ReadIds(payload[1..]) == Success(gone);
    CollideIff(t, gone);
    ReadBackIs(w, st, t);
    ReadBackIs(w, HandleMapping(w, st, payload).0, t);
  }

  // ---------------------------------------------------------------- queries

  /** A selection has exactly the mappings of its condition, and as many as there are keys to them. */
  lemma SelectionIs(store: Store, keep: Mapping -> bool)
    ensures forall m :: m in Select(store, keep) <==> keep(m) && exists k :: k in store && store[k] == m
    ensures |Select(store, keep)| == |KeysOf(store, keep)|
  {
    var keys := Ascending(KeysOf(store, keep));
    forall m ensures m in Select(store, keep) <==> keep(m) && exists k :: k in store && store[k] == m {
      if keep(m) && exists k :: k in store && store[k] == m {
        var k :| k in store && store[k] == m;
        assert k in KeysOf(store, keep);
        var i :| 0 <= i < |keys| && keys[i] == k;
        assert Select(store, keep)[i] == m;
      }
      if m in Select(store, keep) {
        var i :| 0 <= i < |keys| && Select(store, keep)[i] == m;
        assert keys[i] in KeysOf(store, keep);
      }
    }
  }

  /** The condition behind a query, and the request that makes it. */
  datatype Query =
    | AssetQuery(asset: string)
    | ServiceQuery(asset: string, service: string)
    | CredentialQuery(credentialId: string)

  function Condition(q: Query): Mapping -> bool {
    match q
    case AssetQuery(asset) => OfAsset(asset)
    case ServiceQuery(asset, service) => OfService(asset, service)
    case CredentialQuery(credentialId) => OfCredential(credentialId)
  }

  function Asked(q: Query): seq<string> {
    match q
    case AssetQuery(asset) => [GET_ASSET_MAPPINGS, asset]
    case ServiceQuery(asset, service) => [GET_MAPPINGS, asset, service]
    case CredentialQuery(credentialId) => [GET_CRED_MAPPINGS, credentialId]
  }

  lemma AskedReply(w: World, st: CamState, q: Query)
    ensures HandleMapping(w, st, Asked(q)).1 == [ListText(w, Select(st.store, Condition(q)))]
  {
    match q
    case AssetQuery(asset) => assert Asked(q)[1..] == [asset];
    case ServiceQuery(asset, service) => assert Asked(q)[1..] == [asset, service];
    case CredentialQuery(credentialId) => assert Asked(q)[1..] == [credentialId];
  }

  /** A client that asks gets exactly the stored mappings that meet the condition, in the order of their
      keys. */
  lemma QueryArrives(w: World, st: CamState, q: Query)
    requires w.Sound()
    ensures var answer := ParseAnswer(w, HandleMapping(w, st, Asked(q)).1);
            answer.Success? && AsMappings(answer.value) == Success(Select(st.store, Condition(q)))
  {
    var list := Select(st.store, Condition(q));
    AskedReply(w, st, q);
    TextAnswer(w, Array(WriteMappings(list)));
    MappingsRoundTrip(list);
  }
}
