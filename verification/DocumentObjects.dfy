/** The document object: its readers overwrite it field by field, and may stop half way. */
module DocumentObjects {
  import opened Documents
  import opened Encryption
  import opened Environment
  import opened Errors
  import opened Serialization
  import opened Wrappers

  /** A snmpv3 content after its public fields were overwritten up to the first that cannot be read. */
  function Overwritten(c: Content, si: Tree): Content
    requires c.Snmpv3?
  {
    var level := ReadBounded(si, SECURITY_LEVEL, MAX_SECURITY_LEVEL);
    if level.Failure? then c
    else
      var name := ReadText(si, SECURITY_NAME);
      if name.Failure? then c.(level := level.value)
      else
        var auth := ReadBounded(si, AUTH_PROTOCOL, MAX_AUTH_PROTOCOL);
        if auth.Failure? then c.(level := level.value, securityName := name.value)
        else
          var priv := ReadBounded(si, PRIV_PROTOCOL, MAX_PRIV_PROTOCOL);
          if priv.Failure? then c.(level := level.value, securityName := name.value, authProtocol := auth.value)
          else c.(level := level.value, securityName := name.value, authProtocol := auth.value,
                  privProtocol := priv.value)
  }

  /** A content after its secret fields were assigned up to the first that cannot be read: only the first of
      two can have been. */
  function SecretsAssigned(c: Content, si: Tree): Content {
    match ReadSecret(c, si)
    case Success(d) => d
    case Failure(_) =>
      if c.Snmpv3? then c.(authPassword := ReadOptional(si, AUTH_PASSWORD, c.authPassword).OrElse(c.authPassword))
      else c
  }

  class Document {
    var id: string
    var name: string
    var tags: set<string>
    var usages: set<string>
    var content: Content
    var containPrivateData: bool

    /** A new document, as a factory builds it. */
    constructor (content: Content)
      ensures Value() == Doc("", "", {}, {}, content, true)
    {
      this.id, this.name, this.tags, this.usages := "", "", {}, {};
      this.content, this.containPrivateData := content, true;
    }

    constructor Copy(d: Doc)
      ensures Value() == d
    {
      id, name, tags, usages := d.id, d.name, d.tags, d.usages;
      content, containPrivateData := d.content, d.containPrivateData;
    }

    function Value(): Doc
      reads this
    {
      Doc(id, name, tags, usages, content, containPrivateData)
    }

    method Clone() returns (copy: Document)
      ensures fresh(copy) && copy.Value() == Value()
    {
      copy := new Document.Copy(Value());
    }

    /** Name, tags and usages, in that order; what was read before a failure stays. */
    method UpdateHeader(si: Tree) returns (r: Outcome<SecwException>)
      modifies this`name, this`tags, this`usages
      ensures match ReadHeader(old(Value()), si)
              case Success(d) => r == Pass && Value() == d
              case Failure(e) => r == Fail(e)
    {
      match FindText(si, DOC_NAME_ENTRY) {
        case None => return Fail(InvalidFormatError(DOC_NAME_ENTRY));
        case Some(text) => name := text;
      }
      match FindTexts(si, DOC_TAGS_ENTRY) {
        case None => return Fail(InvalidFormatError(DOC_TAGS_ENTRY));
        case Some(texts) => tags := texts;
      }
      match FindTexts(si, DOC_USAGES_ENTRY) {
        case None => return Fail(InvalidFormatError(DOC_USAGES_ENTRY));
        case Some(texts) => usages := texts;
      }
      r := Pass;
    }

    /** The four public fields of a snmpv3 document, each assigned as soon as it is read. */
    method UpdateSnmpv3Public(si: Tree) returns (r: Outcome<SecwException>)
      requires content.Snmpv3?
      modifies this`content
      ensures content == Overwritten(old(content), si)
      ensures match ReadPublic(old(content), si)
              case Success(c) => r == Pass && content == c
              case Failure(e) => r == Fail(e)
    {
      var level := ReadBounded(si, SECURITY_LEVEL, MAX_SECURITY_LEVEL);
      if level.Failure? { return Fail(level.error); }
      content := content.(level := level.value);
      var securityName := ReadText(si, SECURITY_NAME);
      if securityName.Failure? { return Fail(securityName.error); }
      content := content.(securityName := securityName.value);
      var auth := ReadBounded(si, AUTH_PROTOCOL, MAX_AUTH_PROTOCOL);
      if auth.Failure? { return Fail(auth.error); }
      content := content.(authProtocol := auth.value);
      var priv := ReadBounded(si, PRIV_PROTOCOL, MAX_PRIV_PROTOCOL);
      if priv.Failure? { return Fail(priv.error); }
      content := content.(privProtocol := priv.value);
      r := Pass;
    }

    method UpdatePublic(si: Tree) returns (r: Outcome<SecwException>)
      modifies this`content
      ensures r.Fail? ==> content == if old(content).Snmpv3? then Overwritten(old(content), si) else old(content)
      ensures match ReadPublic(old(content), si)
              case Success(c) => r == Pass && content == c
              case Failure(e) => r == Fail(e)
    {
      if content.Snmpv3? {
        r := UpdateSnmpv3Public(si);
      } else {
        match ReadPublic(content, si) {
          case Success(c) => content := c; r := Pass;
          case Failure(e) => r := Fail(e);
        }
      }
    }

    /** Each secret field is assigned if it is present. */
    method UpdatePrivate(si: Tree) returns (r: Outcome<SecwException>)
      modifies this`content
      ensures content == SecretsAssigned(old(content), si)
      ensures match ReadSecret(old(content), si)
              case Success(c) => r == Pass && content == c
              case Failure(e) => r == Fail(e)
    {
      if content.Snmpv3? {
        var auth := ReadOptional(si, AUTH_PASSWORD, content.authPassword);
        if auth.Failure? { return Fail(auth.error); }
        content := content.(authPassword := auth.value);
        var priv := ReadOptional(si, PRIV_PASSWORD, content.privPassword);
        if priv.Failure? { return Fail(priv.error); }
        content := content.(privPassword := priv.value);
        r := Pass;
      } else {
        match ReadSecret(content, si) {
          case Success(c) => content := c; r := Pass;
          case Failure(e) => r := Fail(e);
        }
      }
    }

    /** Header and public part, assigned in place. */
    method UpdateOpenParts(si: Tree, publicEntry: Tree) returns (r: Outcome<SecwException>)
      modifies this`name, this`tags, this`usages, this`content
      ensures match ReadOpenParts(old(Value()), si, publicEntry)
              case Success(d) => r == Pass && Value() == d
              case Failure(e) => r == Fail(e)
    {
      r := UpdateHeader(si);
      if r.Fail? { return; }
      r := UpdatePublic(publicEntry);
    }

    /** Read a document: into `existing`, or into a new object when there is none. A failure may leave
        `existing` partly overwritten, and creates nothing the caller can see. */
    static method Deserialize(si: Tree, existing: Document?) returns (r: Result<Document, SecwException>)
      modifies if existing == null then {} else {existing}
      ensures var before := old(if existing == null then None else Some(existing.Value()));
              match Load(si, before)
              case Success(d) => r.Success? && r.value.Value() == d
              case Failure(e) => r == Failure(e)
      ensures r.Success? ==> if existing == null then fresh(r.value) else r.value == existing
    {
      var docType :- OrThrow(FindText(si, DOC_TYPE_ENTRY), LIBRARY_ERROR);
      var id :- OrThrow(FindText(si, DOC_ID_ENTRY), LIBRARY_ERROR);
      var publicEntry :- OrThrow(FindMember(si, DOC_PUBLIC_ENTRY), LIBRARY_ERROR);
      var privateEntry := FindMember(si, DOC_PRIVATE_ENTRY);
      var doc: Document;
      if existing != null {
        doc := existing;
        if TypeOf(doc.content) != docType { return Failure(InvalidFormatError(DOC_TYPE_ENTRY)); }
        if doc.id != id { return Failure(InvalidFormatError(DOC_ID_ENTRY)); }
      } else {
        var content :- OrThrow(Blank(docType), LIBRARY_ERROR);
        doc := new Document(content);
        doc.id := id;
      }
      var done := doc.UpdateOpenParts(si, publicEntry);
      if done.Fail? { return Failure(done.error); }
      if privateEntry.Some? {
        done := doc.UpdatePrivate(privateEntry.value);
        if done.Fail? { return Failure(done.error); }
      }
      if existing == null {
        doc.containPrivateData := privateEntry.Some?;
      }
      r := Success(doc);
    }

    /** Read a document of a backup. */
    static method FromSrr(w: World, si: Tree, key: ByteString) returns (r: Result<Document, SecwException>)
      ensures match CreateFromSrr(w, si, key)
              case Success(d) => r.Success? && fresh(r.value) && r.value.Value() == d
              case Failure(e) => r == Failure(e)
    {
      var docType :- OrThrow(FindText(si, DOC_TYPE_ENTRY), LIBRARY_ERROR);
      var id :- OrThrow(FindText(si, DOC_ID_ENTRY), LIBRARY_ERROR);
      var publicEntry :- OrThrow(FindMember(si, DOC_PUBLIC_ENTRY), LIBRARY_ERROR);
      var privateSection :- OrThrow(FindMember(si, DOC_PRIVATE_ENTRY), LIBRARY_ERROR);
      var content :- OrThrow(Blank(docType), LIBRARY_ERROR);
      var doc := new Document(content);
      doc.id := id;
      var done := doc.UpdateOpenParts(si, publicEntry);
      if done.Fail? { return Failure(done.error); }
      var privateEntry :- OpenSection(w, privateSection, key);
      done := doc.UpdatePrivate(privateEntry);
      if done.Fail? { return Failure(done.error); }
      doc.containPrivateData := true;
      r := Success(doc);
    }
  }
}
