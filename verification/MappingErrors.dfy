/** The exceptions of the mapping server and their encoding in an error reply (`cam_exception`). */
module MappingErrors {
  import opened Errors
  import opened MappingKeys
  import opened Serialization
  import opened Wrappers

  datatype CamErrorCode =
    | CamGeneric
    | CamUnsupportedCommand
    | CamProtocolError
    | CamBadCommandArgument
    | MappingDoesNotExist
    | MappingAlreadyExists
    | MappingInvalid
    | CamClientIsNull
    | CamInterrupted
    | CamFailed

  /** The class of an exception is fixed by its code; `fields` are that class's own. */
  datatype CamException = CamException(code: CamErrorCode, what: string, fields: map<string, string>)

  /** What a handler may throw: an exception of its own, or one of the libraries. */
  datatype CamFailure = Cam(e: CamException) | Unexpected

  function CamCodeByte(c: CamErrorCode): (n: int)
    ensures 0 <= n <= 9
  {
    match c
    case CamGeneric => 0
    case CamUnsupportedCommand => 1
    case CamProtocolError => 2
    case CamBadCommandArgument => 3
    case MappingDoesNotExist => 4
    case MappingAlreadyExists => 5
    case MappingInvalid => 6
    case CamClientIsNull => 7
    case CamInterrupted => 8
    case CamFailed => 9
  }

  /** The names of the fields a class writes. */
  function FieldNames(c: CamErrorCode): set<string> {
    match c
    case CamUnsupportedCommand => {"command"}
    case CamBadCommandArgument => {"argument"}
    case MappingDoesNotExist => {"asset", "service", "protocol"}
    case MappingAlreadyExists => {"asset", "service", "protocol"}
    case _ => {}
  }

  predicate WellFormedCam(e: CamException) {
    e.fields.Keys == FieldNames(e.code)
  }

  function UnsupportedError(command: string): CamException {
    CamException(CamUnsupportedCommand, "Unsupported command: '" + command + "'", map["command" := command])
  }

  function ArgumentError(argument: string, reason: string): CamException {
    CamException(CamBadCommandArgument, "Command argument error: '" + argument + "' " + reason,
                 map["argument" := argument])
  }

  function TripleFields(t: Triple): map<string, string> {
    map["asset" := t.asset, "service" := t.service, "protocol" := t.protocol]
  }

  function NamedMapping(t: Triple): string {
    "Mapping for asset '" + t.asset + "', service '" + t.service + "' and protocol '" + t.protocol
  }

  function DoesNotExistError(t: Triple): CamException {
    CamException(MappingDoesNotExist, NamedMapping(t) + "' do not exist", TripleFields(t))
  }

  function AlreadyExistsError(t: Triple): CamException {
    CamException(MappingAlreadyExists, NamedMapping(t) + "' already exist", TripleFields(t))
  }

  function CamProtocolException(what: string): CamException {
    CamException(CamProtocolError, what, map[])
  }

  function WriteFields(fields: map<string, string>): Tree {
    Section(map n | n in fields :: Text(fields[n]))
  }

  function WriteCamError(e: CamException): Tree {
    Object(map["errorCode" := Number(CamCodeByte(e.code)), "whatArg" := Text(e.what),
               "extraData" := WriteFields(e.fields)])
  }

  function ReadFields(si: Tree, names: set<string>): Option<map<string, string>> {
    if forall n | n in names :: FindText(si, n).Some? then Some(map n | n in names :: FindText(si, n).value) else None
  }

  /** The class built for a received code; the switch has no case for the bus errors. */
  function ThrownCamCode(n: int): CamErrorCode {
    if n == 1 then CamUnsupportedCommand
    else if n == 2 then CamProtocolError
    else if n == 3 then CamBadCommandArgument
    else if n == 4 then MappingDoesNotExist
    else if n == 5 then MappingAlreadyExists
    else if n == 6 then MappingInvalid
    else CamGeneric
  }

  /** The exception a client throws for an error reply. For an unsupported command it passes the received
      message where the constructor takes a command. */
  function ReadCamError(si: Tree): CamFailure {
    var (n, what, extraData) := ReadErrorMembers(si);
    var code := ThrownCamCode(n);
    if code == CamUnsupportedCommand then Cam(UnsupportedError(what))
    else
      match ReadFields(extraData, FieldNames(code))
      case Some(fields) => Cam(CamException(code, what, fields))
      case None => Unexpected
  }

  lemma FieldsRoundTrip(fields: map<string, string>)
    ensures ReadFields(WriteFields(fields), fields.Keys) == Some(fields)
  {
    var members := map n | n in fields :: Text(fields[n]);
    forall n | n in fields ensures FindText(Section(members), n) == Some(fields[n]) {
      FindInSection(members, n);
    }
    assert (map n | n in fields.Keys :: FindText(WriteFields(fields), n).value) == fields;
  }

  lemma WrittenErrorMembers(e: CamException)
    ensures ReadErrorMembers(WriteCamError(e)) == (CamCodeByte(e.code), e.what, WriteFields(e.fields))
  {
  }

  /** The encoding keeps every exception, except those of the message bus and the one for an unsupported
      command. */
  lemma CamErrorRoundTrip(e: CamException)
    requires WellFormedCam(e)
    ensures ReadCamError(WriteCamError(e)) == Cam(e) <==>
            e.code !in {CamUnsupportedCommand, CamClientIsNull, CamInterrupted, CamFailed}
  {
    WrittenErrorMembers(e);
    if e.code == CamUnsupportedCommand {
      assert |UnsupportedError(e.what).what| > |e.what|;
    } else if e.code !in {CamClientIsNull, CamInterrupted, CamFailed} {
      FieldsRoundTrip(e.fields);
    }
  }

  const CAM_CLASSES := [CamGeneric, CamUnsupportedCommand, CamProtocolError, CamBadCommandArgument,
                        MappingDoesNotExist, MappingAlreadyExists, MappingInvalid]

  /** An exception is sent as the number of its class, its text, and its fields by their names. */
  lemma CamErrorMembers(e: CamException, k: nat)
    requires k < |CAM_CLASSES| && e.code == CAM_CLASSES[k]
    ensures FindByte(WriteCamError(e), "errorCode") == Some(k) && FindText(WriteCamError(e), "whatArg") == Some(e.what)
    ensures FindMember(WriteCamError(e), "extraData").Some?
    ensures forall n | n in e.fields ::
              FindText(FindMember(WriteCamError(e), "extraData").value, n) == Some(e.fields[n])
  {
    FieldsRoundTrip(e.fields);
    WrittenErrorMembers(e);
    forall n | n in e.fields ensures FindText(WriteFields(e.fields), n) == Some(e.fields[n]) {
      FindInSection(map m | m in e.fields :: Text(e.fields[m]), n);
    }
  }
}
