/** The store of mappings as a value, its file, and the map by triple that it refines
    (`cam_credential_asset_mapping_storage`). */
module MappingStorage {
  import opened Environment
  import opened MappingErrors
  import opened MappingKeys
  import opened Mappings
  import opened Ordering
  import opened Serialization
  import opened Wrappers

  const MAPPING_VERSION := 1

  type Store = map<string, Mapping>
  type CamReading<T> = Result<T, CamFailure>

  // ---------------------------------------------------------------- single operations

  function GetMapping(store: Store, t: Triple): CamReading<Mapping> {
    if ComputeHash(t) in store then Success(store[ComputeHash(t)]) else Failure(Cam(DoesNotExistError(t)))
  }

  predicate IsComplete(t: Triple) {
    t.asset != "" && t.service != "" && t.protocol != ""
  }

  function SetMapping(store: Store, m: Mapping): CamReading<Store> {
    if IsComplete(m.triple) then Success(store[ComputeHash(m.triple) := m])
    else Failure(Cam(CamException(CamGeneric, "Bad format", map[])))
  }

  function RemoveMapping(store: Store, t: Triple): CamReading<Store> {
    if ComputeHash(t) in store then Success(store - {ComputeHash(t)}) else Failure(Cam(DoesNotExistError(t)))
  }

  predicate IsMappingExisting(store: Store, t: Triple) {
    ComputeHash(t) in store
  }

  // ---------------------------------------------------------------- queries

  function KeysOf(store: Store, keep: Mapping -> bool): set<string> {
    set k | k in store && keep(store[k])
  }

  function AtKeys(store: Store, keys: seq<string>): seq<Mapping>
    requires forall k | k in keys :: k in store
  {
    seq(|keys|, i requires 0 <= i < |keys| => store[keys[i]])
  }

  /** The mappings that satisfy a condition, each once, in the order of their keys. */
  function Select(store: Store, keep: Mapping -> bool): seq<Mapping> {
    AtKeys(store, Ascending(KeysOf(store, keep)))
  }

  function OfAsset(asset: string): Mapping -> bool {
    (m: Mapping) => m.triple.asset == asset
  }

  function OfService(asset: string, service: string): Mapping -> bool {
    (m: Mapping) => m.triple.asset == asset && m.triple.service == service
  }

  function OfCredential(credentialId: string): Mapping -> bool {
    (m: Mapping) => m.credentialId == credentialId
  }

  function Any(): Mapping -> bool {
    (m: Mapping) => true
  }

  // ---------------------------------------------------------------- saving and loading

  function WriteMappings(list: seq<Mapping>): seq<Tree> {
    seq(|list|, i requires 0 <= i < |list| => WriteMapping(list[i]))
  }

  function MappingsTree(items: seq<Tree>): Tree {
    Object(map["version" := Number(MAPPING_VERSION), "mappings" := Array(items)])
  }

  function SaveMappings(w: World, store: Store): string {
    w.toText(MappingsTree(WriteMappings(Select(store, Any()))))
  }

  function ReadMappings(items: seq<Tree>): Option<seq<Mapping>> {
    ReadAll(ReadMapping, items)
  }

  /** The mappings of a list are set one after the other; those that cannot be set are left out. */
  function SetAll(list: seq<Mapping>): Store {
    if list == [] then map[]
    else
      var before := SetAll(list[..|list| - 1]);
      SetMapping(before, list[|list| - 1]).OrElse(before)
  }

  function LoadMappings(w: World, file: Option<string>): CamReading<Store> {
    match file
    case None => Success(map[])
    case Some(text) =>
      match w.fromText(text)
      case BadJson(_) => Failure(Unexpected)
      case Json(root) =>
        if FindByte(root, "version") != Some(MAPPING_VERSION) then Failure(Unexpected)
        else
          var items :- OrThrow(FindMember(root, "mappings"), Unexpected);
          var list :- OrThrow(ReadMappings(Items(items)), Unexpected);
          Success(SetAll(list))
  }

  // ---------------------------------------------------------------- the key of a stored mapping

  /** Every mapping is under the key of its own ids, none of which is empty. */
  predicate Keyed(store: Store) {
    forall k | k in store :: k == ComputeHash(store[k].triple) && IsComplete(store[k].triple)
  }

  lemma SetKeepsKeyed(store: Store, m: Mapping)
    requires Keyed(store)
    ensures SetMapping(store, m).Success? ==> Keyed(SetMapping(store, m).value)
  {
  }

  lemma {:induction false} SetAllIsKeyed(list: seq<Mapping>)
    ensures Keyed(SetAll(list))
  {
    if list == [] {
    } else {
      SetAllIsKeyed(list[..|list| - 1]);
      SetKeepsKeyed(SetAll(list[..|list| - 1]), list[|list| - 1]);
    }
  }

  /** Whatever the file holds, what is loaded from it is keyed. */
  lemma LoadedIsKeyed(w: World, file: Option<string>)
    ensures LoadMappings(w, file).Success? ==> Keyed(LoadMappings(w, file).value)
  {
    if file.Some? && LoadMappings(w, file).Success? {
      var root := w.fromText(file.value).tree;
      SetAllIsKeyed(ReadMappings(Items(FindMember(root, "mappings").value)).value);
    }
  }

  lemma MappingsRoundTrip(list: seq<Mapping>)
    ensures ReadMappings(WriteMappings(list)) == Some(list)
  {
    forall i | 0 <= i < |list| ensures ReadMapping(WriteMappings(list)[i]) == Some(list[i]) {
      MappingRoundTrip(list[i]);
    }
    EachItemRead(ReadMapping, WriteMappings(list), list);
  }

  lemma SetLast(list: seq<Mapping>, n: nat)
    requires |list| == n + 1 && IsComplete(list[n].triple)
    ensures SetAll(list) == SetAll(list[..n])[ComputeHash(list[n].triple) := list[n]]
  {
  }

  lemma {:induction false} SetBack(store: Store, keys: seq<string>)
    requires Keyed(store) && forall k | k in keys :: k in store
    ensures SetAll(AtKeys(store, keys)) == map k | k in keys :: store[k]
    decreases |keys|
  {
    if keys == [] {
    } else {
      var n := |keys| - 1;
      var list := AtKeys(store, keys);
      SetBack(store, keys[..n]);
      assert list[..n] == AtKeys(store, keys[..n]);
      SetLast(list, n);
      assert keys == keys[..n] + [keys[n]];
    }
  }

  lemma SavedMembers(items: seq<Tree>)
    ensures FindByte(MappingsTree(items), "version") == Some(MAPPING_VERSION)
    ensures FindMember(MappingsTree(items), "mappings") == Some(Array(items))
  {
  }

  lemma WholeStore(store: Store)
    requires Keyed(store)
    ensures SetAll(Select(store, Any())) == store
  {
    var keys := Ascending(KeysOf(store, Any()));
    assert KeysOf(store, Any()) == store.Keys;
    SetBack(store, keys);
    assert (map k | k in keys :: store[k]) == store;
  }

  lemma LoadRoot(w: World, text: string, root: Tree, items: seq<Tree>, list: seq<Mapping>)
    requires w.fromText(text) == Json(root) && ReadMappings(items) == Some(list)
    requires FindByte(root, "version") == Some(MAPPING_VERSION) && FindMember(root, "mappings") == Some(Array(items))
    ensures LoadMappings(w, Some(text)) == Success(SetAll(list))
  {
  }

  /** Loading what was saved from a keyed store rebuilds the same store, whatever its ids are. */
  lemma SaveThenLoadMappings(w: World, store: Store)
    requires w.Sound() && Keyed(store)
    ensures LoadMappings(w, Some(SaveMappings(w, store))) == Success(store)
  {
    var list := Select(store, Any());
    var items := WriteMappings(list);
    assert w.fromText(w.toText(MappingsTree(items))) == Json(MappingsTree(items));
    SavedMembers(items);
    MappingsRoundTrip(list);
    LoadRoot(w, SaveMappings(w, store), MappingsTree(items), items, list);
    WholeStore(store);
  }

  // ---------------------------------------------------------------- the map by triple

  /** What the store is: a map from canonical triples to mappings. */
  function ByTriple(store: Store): map<Triple, Mapping> {
    map t | t in (set k | k in store :: Canonical(store[k].triple)) && ComputeHash(t) in store :: store[ComputeHash(t)]
  }

  lemma HashOfCanonical(t: Triple)
    ensures ComputeHash(Canonical(t)) == ComputeHash(t)
    ensures Canonical(Canonical(t)) == Canonical(t)
  {
    CanonicalForm(t);
    CanonicalForm(Canonical(t));
  }

  lemma InByTriple(store: Store, t: Triple)
    requires Keyed(store)
    ensures t in ByTriple(store) <==> Canonical(t) == t && ComputeHash(t) in store
  {
    if t in ByTriple(store) {
      var k :| k in store && t == Canonical(store[k].triple);
      HashOfCanonical(store[k].triple);
    }
    if ComputeHash(t) in store {
      CollideIff(t, store[ComputeHash(t)].triple);
    }
  }

  lemma CanonicalInByTriple(store: Store, t: Triple)
    requires Keyed(store)
    ensures ComputeHash(t) in store <==> Canonical(t) in ByTriple(store)
    ensures ComputeHash(t) in store ==> ByTriple(store)[Canonical(t)] == store[ComputeHash(t)]
  {
    HashOfCanonical(t);
    InByTriple(store, Canonical(t));
  }

  /** Among canonical triples the key tells which. */
  lemma SameKey(t: Triple, u: Triple)
    requires Canonical(u) == u
    ensures ComputeHash(u) == ComputeHash(t) <==> u == Canonical(t)
  {
    CollideIff(t, u);
  }

  /** `after` is `before` without `gone`, as far as `u` is concerned. */
  ghost predicate ErasedAt<K, V>(before: map<K, V>, after: map<K, V>, gone: K, u: K) {
    (u in after <==> u in before && u != gone) && (u in after ==> after[u] == before[u])
  }

  lemma Erased<K(!new), V>(before: map<K, V>, after: map<K, V>, gone: K)
    requires forall u :: ErasedAt(before, after, gone, u)
    ensures after == before - {gone}
  {
    forall u ensures u in after <==> u in before - {gone} { assert ErasedAt(before, after, gone, u); }
    forall u | u in after ensures after[u] == (before - {gone})[u] { assert ErasedAt(before, after, gone, u); }
  }

  /** `after` is `before` with `v` at `k`, as far as `u` is concerned. */
  ghost predicate AddedAt<K, V>(before: map<K, V>, after: map<K, V>, k: K, v: V, u: K) {
    (u in after <==> u in before || u == k) && (u in after ==> after[u] == if u == k then v else before[u])
  }

  lemma Added<K(!new), V>(before: map<K, V>, after: map<K, V>, k: K, v: V)
    requires forall u :: AddedAt(before, after, k, v, u)
    ensures after == before[k := v]
  {
    forall u ensures u in after <==> u in before[k := v] { assert AddedAt(before, after, k, v, u); }
    forall u | u in after ensures after[u] == before[k := v][u] { assert AddedAt(before, after, k, v, u); }
  }

  lemma RemovedAt(store: Store, t: Triple, u: Triple)
    requires Keyed(store) && RemoveMapping(store, t).Success?
    ensures ErasedAt(ByTriple(store), ByTriple(RemoveMapping(store, t).value), Canonical(t), u)
  {
    InByTriple(store, u);
    InByTriple(RemoveMapping(store, t).value, u);
    if Canonical(u) == u { SameKey(t, u); }
  }

  lemma SetAt(store: Store, m: Mapping, u: Triple)
    requires Keyed(store) && SetMapping(store, m).Success?
    ensures AddedAt(ByTriple(store), ByTriple(SetMapping(store, m).value), Canonical(m.triple), m, u)
  {
    HashOfCanonical(m.triple);
    InByTriple(store, u);
    InByTriple(SetMapping(store, m).value, u);
    if Canonical(u) == u { SameKey(m.triple, u); }
  }

  lemma RemovedByTriple(store: Store, t: Triple)
    requires Keyed(store) && RemoveMapping(store, t).Success?
    ensures ByTriple(RemoveMapping(store, t).value) == ByTriple(store) - {Canonical(t)}
  {
    var before, after, gone := ByTriple(store), ByTriple(RemoveMapping(store, t).value), Canonical(t);
    forall u ensures ErasedAt(before, after, gone, u) { RemovedAt(store, t, u); }
    Erased(before, after, gone);
  }

  lemma SetByTriple(store: Store, m: Mapping)
    requires Keyed(store) && SetMapping(store, m).Success?
    ensures ByTriple(SetMapping(store, m).value) == ByTriple(store)[Canonical(m.triple) := m]
  {
    var before, after, at := ByTriple(store), ByTriple(SetMapping(store, m).value), Canonical(m.triple);
    forall u ensures AddedAt(before, after, at, m, u) { SetAt(store, m, u); }
    Added(before, after, at, m);
  }

  /** Every operation of the store is that operation on the map by canonical triple. */
  lemma StoreRefinesMap(store: Store, t: Triple, m: Mapping)
    requires Keyed(store)
    ensures IsMappingExisting(store, t) <==> Canonical(t) in ByTriple(store)
    ensures GetMapping(store, t) == if Canonical(t) in ByTriple(store) then Success(ByTriple(store)[Canonical(t)])
                                    else Failure(Cam(DoesNotExistError(t)))
    ensures RemoveMapping(store, t).Success? <==> Canonical(t) in ByTriple(store)
    ensures RemoveMapping(store, t).Success? ==>
              ByTriple(RemoveMapping(store, t).value) == ByTriple(store) - {Canonical(t)}
    ensures SetMapping(store, m).Success? <==> IsComplete(m.triple)
    ensures SetMapping(store, m).Success? ==>
              ByTriple(SetMapping(store, m).value) == ByTriple(store)[Canonical(m.triple) := m]
  {
    CanonicalInByTriple(store, t);
    if RemoveMapping(store, t).Success? {
      RemovedByTriple(store, t);
    }
    if SetMapping(store, m).Success? {
      SetByTriple(store, m);
    }
  }

  predicate PlainIds(t: Triple) {
    BarFree(t.asset) && BarFree(t.service)
  }

  /** With asset and service ids free of bars the map is by the triples themselves. */
  lemma PlainIdsAreCanonical(store: Store)
    requires Keyed(store) && forall k | k in store :: PlainIds(store[k].triple)
    ensures forall t | PlainIds(t) :: Canonical(t) == t
    ensures forall t | t in ByTriple(store) :: ByTriple(store)[t].triple == t
  {
    forall t | PlainIds(t) ensures Canonical(t) == t {
      BarFreeHasNoMark(t.asset, SERVICE_MARK);
      BarFreeHasNoMark(t.service, PROTOCOL_MARK);
      CanonicalForm(t);
    }
    forall t | t in ByTriple(store) ensures ByTriple(store)[t].triple == t {
      var k :| k in store && t == Canonical(store[k].triple);
      assert PlainIds(store[k].triple);
    }
  }
}
