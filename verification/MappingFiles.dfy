/** The mapping server's trees and file, member by member, and what is read of them. */
module MappingFiles {
  import opened Environment
  import opened MappingKeys
  import opened MappingReplies
  import opened Mappings
  import opened MappingStorage
  import opened MappingSteps
  import opened Serialization
  import opened Wrappers

  // ---------------------------------------------------------------- a mapping

  /** A list of pairs that can be read. */
  predicate ArePairs(items: seq<Tree>) {
    forall i | 0 <= i < |items| :: FindText(items[i], "first").Some? && FindText(items[i], "second").Some?
  }

  predicate HasKey(items: seq<Tree>, i: nat, key: string) {
    i < |items| && FindText(items[i], "first") == Some(key)
  }

  ghost predicate SomeHasKey(items: seq<Tree>, key: string) {
    exists i: nat :: HasKey(items, i, key)
  }

  ghost predicate FirstHasKey(items: seq<Tree>, i: nat, key: string) {
    HasKey(items, i, key) && !SomeHasKey(items[..i], key)
  }

  lemma KeyInFront(items: seq<Tree>, key: string)
    requires items != []
    ensures var n := |items| - 1;
            SomeHasKey(items, key) <==> SomeHasKey(items[..n], key) || FindText(items[n], "first") == Some(key)
  {
    var n := |items| - 1;
    if i: nat :| HasKey(items[..n], i, key) { assert HasKey(items, i, key); }
    if FindText(items[n], "first") == Some(key) { assert HasKey(items, n, key); }
    if i: nat :| HasKey(items, i, key) { assert i < n ==> HasKey(items[..n], i, key); }
  }

  lemma ReadPairsLast(items: seq<Tree>)
    requires items != []
    ensures var front, last := items[..|items| - 1], items[|items| - 1];
            && (ReadPairs(items).Some? <==>
                  ReadPairs(front).Some? && FindText(last, "first").Some? && FindText(last, "second").Some?)
            && (ReadPairs(items).Some? ==>
                  var before, key := ReadPairs(front).value, FindText(last, "first").value;
                  ReadPairs(items).value
                  == if key in before then before else before[key := FindText(last, "second").value])
  {
  }

  /** The map has the keys of the list, each with the value of the first pair that has it. */
  ghost predicate FirstPairs(info: map<string, string>, items: seq<Tree>) {
    && (forall key :: key in info <==> SomeHasKey(items, key))
    && (forall i: nat, key | FirstHasKey(items, i, key) ::
          key in info && Some(info[key]) == FindText(items[i], "second"))
  }

  lemma FirstPairsGrow(before: map<string, string>, items: seq<Tree>, key: string, value: string)
    requires items != [] && FirstPairs(before, items[..|items| - 1])
    requires FindText(items[|items| - 1], "first") == Some(key) && FindText(items[|items| - 1], "second") == Some(value)
    ensures FirstPairs(if key in before then before else before[key := value], items)
  {
    var n := |items| - 1;
    var front, info := items[..n], if key in before then before else before[key := value];
    forall k ensures k in info <==> SomeHasKey(items, k) {
      KeyInFront(items, k);
    }
    forall i: nat, k | FirstHasKey(items, i, k) ensures k in info && Some(info[k]) == FindText(items[i], "second") {
      if i < n {
        assert front[..i] == items[..i];
        assert FirstHasKey(front, i, k);
      }
    }
  }

  /** A list of pairs is read exactly if each of its items is one; the first pair of a key counts. */
  lemma {:induction false} ReadPairsIs(items: seq<Tree>)
    ensures ReadPairs(items).Some? <==> ArePairs(items)
    ensures ArePairs(items) ==> FirstPairs(ReadPairs(items).value, items)
    decreases |items|
  {
    if items == [] {
    } else {
      var n := |items| - 1;
      var front := items[..n];
      ReadPairsIs(front);
      ReadPairsLast(items);
      assert forall i | 0 <= i < n :: front[i] == items[i];
      if ArePairs(items) {
        FirstPairsGrow(ReadPairs(front).value, items, FindText(items[n], "first").value,
                       FindText(items[n], "second").value);
      }
    }
  }

  /** A mapping is read exactly from a tree with these seven members, and gives what they hold. */
  lemma ReadMappingIs(si: Tree)
    ensures ReadMapping(si).Some? <==>
            && FindText(si, "cam_asset").Some? && FindText(si, "cam_service").Some?
            && FindText(si, "cam_protocol").Some? && FindText(si, "cam_port").Some?
            && FindText(si, "cam_credential").Some? && FindByte(si, "cam_status").Some?
            && FindMember(si, "cam_extended_info").Some?
            && ArePairs(Items(FindMember(si, "cam_extended_info").value))
    ensures ReadMapping(si).Some? ==>
              var m := ReadMapping(si).value;
              && FindText(si, "cam_asset") == Some(m.triple.asset)
              && FindText(si, "cam_service") == Some(m.triple.service)
              && FindText(si, "cam_protocol") == Some(m.triple.protocol)
              && FindText(si, "cam_port") == Some(m.port)
              && FindText(si, "cam_credential") == Some(m.credentialId)
              && FindByte(si, "cam_status") == Some(m.status)
              && ReadPairs(Items(FindMember(si, "cam_extended_info").value)) == Some(m.extendedInfo)
  {
    if FindMember(si, "cam_extended_info").Some? {
      ReadPairsIs(Items(FindMember(si, "cam_extended_info").value));
    }
  }

  // ---------------------------------------------------------------- a file of mappings

  /** The last mapping of a list with that key and no empty id. */
  ghost predicate LastWithKey(list: seq<Mapping>, i: nat, key: string) {
    && i < |list| && ComputeHash(list[i].triple) == key && !HasEmptyId(list[i].triple)
    && forall j | i < j < |list| && ComputeHash(list[j].triple) == key :: HasEmptyId(list[j].triple)
  }

  /** The store holds under each key the last such mapping of the list. */
  ghost predicate LastOnes(store: Store, list: seq<Mapping>) {
    && (forall i: nat, key | LastWithKey(list, i, key) :: key in store && store[key] == list[i])
    && (forall key | key in store :: exists i: nat :: LastWithKey(list, i, key))
  }

  lemma LastInFront(list: seq<Mapping>, i: nat, key: string)
    requires list != []
    ensures var n := |list| - 1;
            LastWithKey(list, i, key) <==>
              if !HasEmptyId(list[n].triple) && ComputeHash(list[n].triple) == key then i == n
              else LastWithKey(list[..n], i, key)
  {
    var n := |list| - 1;
    assert forall j | 0 <= j < n :: list[..n][j] == list[j];
  }

  lemma LastOnesGrow(before: Store, store: Store, list: seq<Mapping>)
    requires list != [] && LastOnes(before, list[..|list| - 1])
    requires var last := list[|list| - 1];
             store == if HasEmptyId(last.triple) then before else before[ComputeHash(last.triple) := last]
    ensures LastOnes(store, list)
  {
    var n := |list| - 1;
    forall i: nat, key | LastWithKey(list, i, key) ensures key in store && store[key] == list[i] {
      LastInFront(list, i, key);
    }
    forall key | key in store ensures exists i: nat :: LastWithKey(list, i, key) {
      LastInFront(list, n, key);
      if i: nat :| LastWithKey(list[..n], i, key) {
        LastInFront(list, i, key);
      }
    }
  }

  lemma {:induction false} SetAllIs(list: seq<Mapping>)
    ensures LastOnes(SetAll(list), list)
    decreases |list|
  {
    if list == [] {
    } else {
      SetAllIs(list[..|list| - 1]);
      SetLastIs(list);
      LastOnesGrow(SetAll(list[..|list| - 1]), SetAll(list), list);
    }
  }

  lemma SetLastIs(list: seq<Mapping>)
    requires list != []
    ensures var n := |list| - 1;
            SetAll(list) == if HasEmptyId(list[n].triple) then SetAll(list[..n])
                            else SetAll(list[..n])[ComputeHash(list[n].triple) := list[n]]
  {
  }

  /** What a file must hold: it may be missing, but its version must be 1 and each mapping must be readable. */
  predicate MappingFileReadable(w: World, file: Option<string>) {
    match file
    case None => true
    case Some(text) =>
      match w.fromText(text)
      case BadJson(_) => false
      case Json(root) =>
        && FindByte(root, "version") == Some(1) && FindMember(root, "mappings").Some?
        && forall i | 0 <= i < |Items(FindMember(root, "mappings").value)| ::
             ReadMapping(Items(FindMember(root, "mappings").value)[i]).Some?
  }

  /** The mappings of a readable file, in order. */
  function FileMappings(w: World, file: Option<string>): seq<Mapping>
    requires MappingFileReadable(w, file)
  {
    match file
    case None => []
    case Some(text) =>
      var items := Items(FindMember(w.fromText(text).tree, "mappings").value);
      seq(|items|, i requires 0 <= i < |items| => ReadMapping(items[i]).value)
  }

  /** A store is loaded exactly from a readable file; each key then holds the last mapping of the file under it
      that has no empty id. */
  lemma LoadMappingsIs(w: World, file: Option<string>)
    ensures LoadMappings(w, file).Success? <==> MappingFileReadable(w, file)
    ensures MappingFileReadable(w, file) ==>
              LastOnes(LoadMappings(w, file).value, FileMappings(w, file))
  {
    if file.Some? && w.fromText(file.value).Json? && FindMember(w.fromText(file.value).tree, "mappings").Some? {
      var items := Items(FindMember(w.fromText(file.value).tree, "mappings").value);
      ReadAllIs(ReadMapping, items);
      if MappingFileReadable(w, file) {
        assert ReadMappings(items).value == FileMappings(w, file);
        SetAllIs(FileMappings(w, file));
      }
    }
  }

  /** The file written: version 1, and the mappings in the order of their keys. */
  lemma SavedIs(w: World, store: Store) returns (root: Tree, keys: seq<string>)
    ensures SaveMappings(w, store) == w.toText(root)
    ensures FindByte(root, "version") == Some(1)
    ensures KeysInOrder(store, keys, _ => true)
    ensures FindMember(root, "mappings") == Some(Array(WriteMappings(MappingsAt(store, keys))))
  {
    root := MappingsTree(WriteMappings(Select(store, Any())));
    keys := SelectInOrder(store, Any());
  }

  /** The server starts exactly from a readable file, with its store, and saves it. */
  lemma StartMappingIs(w: World, file: Option<string>)
    ensures StartMapping(w, file).Success? <==> MappingFileReadable(w, file)
    ensures MappingFileReadable(w, file) ==>
              var st := StartMapping(w, file).value;
              LoadMappings(w, file) == Success(st.store) && st.file == Some(SaveMappings(w, st.store))
  {
    LoadMappingsIs(w, file);
  }
}
