/** The wallet's exceptions and their encoding in an error reply (`secw_exception`). */
module Errors {
  import opened Serialization
  import opened Wrappers

  datatype ErrorCode =
    | Generic
    | UnsupportedCommand
    | ProtocolError
    | BadCommandArgument
    | UnknownDocumentType
    | UnknownPortfolio
    | InvalidDocumentFormat
    | ImpossibleToLoadPortfolio
    | UnknownTag
    | DocumentDoNotExist
    | IllegalAccess
    | UnknownUsageId
    | NameAlreadyExists
    | NameDoesNotExist
    | MlmClientIsNull
    | MlmInterrupted
    | MlmFailed

  /** The class of an exception is fixed by its code; `extra` is that class's own field. */
  datatype SecwException = SecwException(code: ErrorCode, what: string, extra: string)

  /** The text of a library exception is not modelled. */
  const LIBRARY_ERROR := SecwException(Generic, "", "")

  function IllegalAccessError(what: string): SecwException {
    SecwException(IllegalAccess, what, "")
  }

  function BadArgumentError(what: string): SecwException {
    SecwException(BadCommandArgument, what, "")
  }

  function UnknownPortfolioError(name: string): SecwException {
    SecwException(UnknownPortfolio, "Unknown portfolio '" + name + "'", name)
  }

  function InvalidFormatError(field: string): SecwException {
    SecwException(InvalidDocumentFormat, "Error in field '" + field + "'", field)
  }

  function LoadError(what: string): SecwException {
    SecwException(ImpossibleToLoadPortfolio, what, "")
  }

  function DocumentDoNotExistError(id: string): SecwException {
    SecwException(DocumentDoNotExist, "Document '" + id + "'does not exist", id)
  }

  function UnknownUsageIdError(usage: string): SecwException {
    SecwException(UnknownUsageId, "Unknown usage ID '" + usage + "'", usage)
  }

  function NameAlreadyExistsError(name: string): SecwException {
    SecwException(NameAlreadyExists, "Document with name '" + name + "' already exists", name)
  }

  function NameDoesNotExistError(name: string): SecwException {
    SecwException(NameDoesNotExist, "Document with name '" + name + "' does not exist", name)
  }

  function CodeByte(c: ErrorCode): (n: int)
    ensures 0 <= n <= 16
  {
    match c
    case Generic => 0
    case UnsupportedCommand => 1
    case ProtocolError => 2
    case BadCommandArgument => 3
    case UnknownDocumentType => 4
    case UnknownPortfolio => 5
    case InvalidDocumentFormat => 6
    case ImpossibleToLoadPortfolio => 7
    case UnknownTag => 8
    case DocumentDoNotExist => 9
    case IllegalAccess => 10
    case UnknownUsageId => 11
    case NameAlreadyExists => 12
    case NameDoesNotExist => 13
    case MlmClientIsNull => 14
    case MlmInterrupted => 15
    case MlmFailed => 16
  }

  /** The exception class built for a received code; the switch has no case for the bus errors. */
  function ThrownCode(n: int): ErrorCode {
    if n == 1 then UnsupportedCommand
    else if n == 2 then ProtocolError
    else if n == 3 then BadCommandArgument
    else if n == 4 then UnknownDocumentType
    else if n == 5 then UnknownPortfolio
    else if n == 6 then InvalidDocumentFormat
    else if n == 7 then ImpossibleToLoadPortfolio
    else if n == 8 then UnknownTag
    else if n == 9 then DocumentDoNotExist
    else if n == 10 then IllegalAccess
    else if n == 11 then UnknownUsageId
    else if n == 12 then NameAlreadyExists
    else if n == 13 then NameDoesNotExist
    else Generic
  }

  /** The member of the extra data an exception class writes and requires when it is rebuilt. */
  function ExtraField(c: ErrorCode): Option<string> {
    match c
    case UnknownDocumentType => Some("documentType")
    case UnknownPortfolio => Some("portfolioName")
    case InvalidDocumentFormat => Some("documentField")
    case DocumentDoNotExist => Some("documentId")
    case UnknownUsageId => Some("usageId")
    case NameAlreadyExists => Some("name")
    case NameDoesNotExist => Some("name")
    case _ => None
  }

  predicate WellFormed(e: SecwException) {
    ExtraField(e.code) == None ==> e.extra == ""
  }

  function WriteError(e: SecwException): Tree {
    var extraData := match ExtraField(e.code)
                     case Some(field) => Object(map[field := Text(e.extra)])
                     case None => Void;
    Object(map["errorCode" := Number(CodeByte(e.code)), "whatArg" := Text(e.what), "extraData" := extraData])
  }

  /** What was read before the first of the three reads that fails; the rest keeps its default. */
  function ReadErrorMembers(si: Tree): (int, string, Tree) {
    match FindByte(si, "errorCode")
    case None => (0, "", Void)
    case Some(n) =>
      match FindText(si, "whatArg")
      case None => (n, "", Void)
      case Some(what) =>
        match FindMember(si, "extraData")
        case None => (n, what, Void)
        case Some(extra) => (n, what, extra)
  }

  /** The exception a client throws for an error reply; a missing field of its class makes the
      constructor itself fail. */
  function ReadError(si: Tree): Result<SecwException, SecwException> {
    var (n, what, extraData) := ReadErrorMembers(si);
    var code := ThrownCode(n);
    match ExtraField(code)
    case None => Success(SecwException(code, what, ""))
    case Some(field) =>
      var extra :- OrThrow(FindText(extraData, field), LIBRARY_ERROR);
      Success(SecwException(code, what, extra))
  }

  /** The encoding keeps every exception, except those of the message bus. */
  lemma ErrorRoundTrip(e: SecwException)
    requires WellFormed(e)
    ensures ReadError(WriteError(e)) == Success(e) <==>
            e.code != MlmClientIsNull && e.code != MlmInterrupted && e.code != MlmFailed
    ensures e.code in {MlmClientIsNull, MlmInterrupted, MlmFailed} ==>
              ReadError(WriteError(e)) == Success(SecwException(Generic, e.what, ""))
  {
    assert ReadErrorMembers(WriteError(e)).0 == CodeByte(e.code);
  }

  /** The classes an error reply can name, in the order of their numbers. */
  const CLASSES := [Generic, UnsupportedCommand, ProtocolError, BadCommandArgument, UnknownDocumentType,
                    UnknownPortfolio, InvalidDocumentFormat, ImpossibleToLoadPortfolio, UnknownTag,
                    DocumentDoNotExist, IllegalAccess, UnknownUsageId, NameAlreadyExists, NameDoesNotExist]

  /** An exception is sent as the number of its class, its text, and the field of the class by its name. */
  lemma ErrorMembers(e: SecwException, k: nat)
    requires k < |CLASSES| && e.code == CLASSES[k]
    ensures FindByte(WriteError(e), "errorCode") == Some(k) && FindText(WriteError(e), "whatArg") == Some(e.what)
    ensures FindMember(WriteError(e), "extraData").Some?
    ensures var extra := FindMember(WriteError(e), "extraData").value;
            && (k == 4 ==> FindText(extra, "documentType") == Some(e.extra))
            && (k == 5 ==> FindText(extra, "portfolioName") == Some(e.extra))
            && (k == 6 ==> FindText(extra, "documentField") == Some(e.extra))
            && (k == 9 ==> FindText(extra, "documentId") == Some(e.extra))
            && (k == 11 ==> FindText(extra, "usageId") == Some(e.extra))
            && (k == 12 || k == 13 ==> FindText(extra, "name") == Some(e.extra))
  {
  }

  /** What is rebuilt from a tree that no server wrote: a class without a number is the general one, and a class
      without its field cannot be built. */
  lemma ReadErrorIs(si: Tree, k: nat)
    ensures FindByte(si, "errorCode") == None ==> ReadError(si) == Success(SecwException(Generic, "", ""))
    ensures FindByte(si, "errorCode") == Some(k) && (k == 0 || k >= |CLASSES|) && FindText(si, "whatArg").Some? ==>
              ReadError(si) == Success(SecwException(Generic, FindText(si, "whatArg").value, ""))
    ensures FindByte(si, "errorCode") == Some(k) && k in {4, 5, 6, 9, 11, 12, 13}
            && FindMember(si, "extraData") == None ==>
              ReadError(si) == Failure(LIBRARY_ERROR)
  {
  }
}
