/** The mapping of a credential to an asset, a service and a protocol
    (`cam_credential_asset_mapping`). */
module Mappings {
  import opened MappingKeys
  import opened Ordering
  import opened Serialization
  import opened Wrappers

  const SERVICE_ID_ENTRY := "cam_service"
  const ASSET_ID_ENTRY := "cam_asset"
  const PROTOCOL_ENTRY := "cam_protocol"
  const PORT_ENTRY := "cam_port"
  const CREDENTIAL_ID_ENTRY := "cam_credential"
  const CREDENTIAL_STATUS_ENTRY := "cam_status"
  const EXTENDED_INFO_ENTRY := "cam_extended_info"

  /** A status is stored in one byte; a byte read is cast without a check. */
  type Status = n: int | 0 <= n < 256
  const UNKNOWN: Status := 0

  datatype Mapping = Mapping(
    triple: Triple,
    port: string,
    credentialId: string,
    status: Status,
    extendedInfo: map<string, string>)

  // ---------------------------------------------------------------- writing and reading

  function Pair(key: string, value: string): Tree {
    Object(map["first" := Text(key), "second" := Text(value)])
  }

  function WritePairs(info: map<string, string>, keys: seq<string>): seq<Tree>
    requires forall k | k in keys :: k in info
  {
    seq(|keys|, i requires 0 <= i < |keys| => Pair(keys[i], info[keys[i]]))
  }

  function WriteInfo(info: map<string, string>): Tree {
    Array(WritePairs(info, Ascending(info.Keys)))
  }

  function WriteMapping(m: Mapping): Tree {
    Object(map[SERVICE_ID_ENTRY := Text(m.triple.service), ASSET_ID_ENTRY := Text(m.triple.asset),
               PROTOCOL_ENTRY := Text(m.triple.protocol), PORT_ENTRY := Text(m.port),
               CREDENTIAL_ID_ENTRY := Text(m.credentialId), CREDENTIAL_STATUS_ENTRY := Number(m.status),
               EXTENDED_INFO_ENTRY := WriteInfo(m.extendedInfo)])
  }

  /** Reading a map of strings: it is cleared, then every pair is inserted unless its key is there. */
  function ReadPairs(items: seq<Tree>): Option<map<string, string>> {
    if items == [] then Some(map[])
    else
      var last := items[|items| - 1];
      match (ReadPairs(items[..|items| - 1]), FindText(last, "first"), FindText(last, "second"))
      case (Some(before), Some(key), Some(value)) => Some(if key in before then before else before[key := value])
      case _ => None
  }

  /** Every field must be there and of its type; otherwise the library throws. */
  function ReadMapping(si: Tree): Option<Mapping> {
    match (FindText(si, SERVICE_ID_ENTRY), FindText(si, ASSET_ID_ENTRY), FindText(si, PROTOCOL_ENTRY),
           FindText(si, PORT_ENTRY), FindText(si, CREDENTIAL_ID_ENTRY), FindByte(si, CREDENTIAL_STATUS_ENTRY),
           FindMember(si, EXTENDED_INFO_ENTRY))
    case (Some(service), Some(asset), Some(protocol), Some(port), Some(credential), Some(status), Some(info)) =>
      (match ReadPairs(Items(info))
       case Some(extendedInfo) =>
         Some(Mapping(Triple(asset, service, protocol), port, credential, status, extendedInfo))
       case None => None)
    case _ => None
  }

  function Restrict(info: map<string, string>, keys: seq<string>): map<string, string>
    requires forall k | k in keys :: k in info
  {
    map k | k in keys :: info[k]
  }

  lemma ReadLastPair(items: seq<Tree>, key: string, value: string)
    requires items != [] && items[|items| - 1] == Pair(key, value)
    ensures ReadPairs(items[..|items| - 1]).Some? && key !in ReadPairs(items[..|items| - 1]).value ==>
              ReadPairs(items) == Some(ReadPairs(items[..|items| - 1]).value[key := value])
  {
  }

  lemma RestrictGrows(info: map<string, string>, keys: seq<string>)
    requires keys != [] && forall k | k in keys :: k in info
    ensures var n := |keys| - 1; Restrict(info, keys) == Restrict(info, keys[..n])[keys[n] := info[keys[n]]]
  {
    var n := |keys| - 1;
    assert keys == keys[..n] + [keys[n]];
  }

  lemma WritePairsGrows(info: map<string, string>, keys: seq<string>)
    requires keys != [] && forall k | k in keys :: k in info
    ensures var n := |keys| - 1; WritePairs(info, keys) == WritePairs(info, keys[..n]) + [Pair(keys[n], info[keys[n]])]
  {
  }

  lemma {:induction false} PairsRoundTrip(info: map<string, string>, keys: seq<string>)
    requires forall k | k in keys :: k in info
    requires forall i, j | 0 <= i < j < |keys| :: keys[i] != keys[j]
    ensures ReadPairs(WritePairs(info, keys)) == Some(Restrict(info, keys))
    decreases |keys|
  {
    if keys == [] {
    } else {
      var n := |keys| - 1;
      PairsRoundTrip(info, keys[..n]);
      WritePairsGrows(info, keys);
      assert WritePairs(info, keys)[..n] == WritePairs(info, keys[..n]);
      ReadLastPair(WritePairs(info, keys), keys[n], info[keys[n]]);
      RestrictGrows(info, keys);
    }
  }

  lemma WrittenFields(m: Mapping)
    ensures var si := WriteMapping(m);
            && FindText(si, SERVICE_ID_ENTRY) == Some(m.triple.service)
            && FindText(si, ASSET_ID_ENTRY) == Some(m.triple.asset)
            && FindText(si, PROTOCOL_ENTRY) == Some(m.triple.protocol)
            && FindText(si, PORT_ENTRY) == Some(m.port)
            && FindText(si, CREDENTIAL_ID_ENTRY) == Some(m.credentialId)
            && FindByte(si, CREDENTIAL_STATUS_ENTRY) == Some(m.status)
            && FindMember(si, EXTENDED_INFO_ENTRY) == Some(WriteInfo(m.extendedInfo))
  {
  }

  /** Written and read back, a mapping is the same, whatever its ids, status byte and extended data. */
  lemma MappingRoundTrip(m: Mapping)
    ensures ReadMapping(WriteMapping(m)) == Some(m)
  {
    WrittenFields(m);
    var keys := Ascending(m.extendedInfo.Keys);
    AscendingIsDistinct(m.extendedInfo.Keys);
    PairsRoundTrip(m.extendedInfo, keys);
    assert Restrict(m.extendedInfo, keys) == m.extendedInfo;
  }
}
