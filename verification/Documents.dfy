/** Documents as values: what is written, what is read back, what a merge gives (`secw_document` and
    the five document types). */
module Documents {
  import opened Encryption
  import opened Environment
  import opened Errors
  import opened Serialization
  import opened Wrappers

  const DOC_ID_ENTRY := "secw_doc_id"
  const DOC_NAME_ENTRY := "secw_doc_name"
  const DOC_TYPE_ENTRY := "secw_doc_type"
  const DOC_TAGS_ENTRY := "secw_doc_tags"
  const DOC_USAGES_ENTRY := "secw_doc_usages"
  const DOC_PUBLIC_ENTRY := "secw_doc_public"
  const DOC_PRIVATE_ENTRY := "secw_doc_private"

  const SNMPV3_TYPE := "Snmpv3"
  const SNMPV1_TYPE := "Snmpv1"
  const USER_AND_PASSWORD_TYPE := "UserAndPassword"
  const EXTERNAL_CERTIFICATE_TYPE := "ExternalCertificate"
  const INTERNAL_CERTIFICATE_TYPE := "InternalCertificate"

  const SECURITY_LEVEL := "secw_snmpv3_security_level"
  const SECURITY_NAME := "secw_snmpv3_security_name"
  const AUTH_PROTOCOL := "secw_snmpv3_auth_protocol"
  const AUTH_PASSWORD := "secw_snmpv3_auth_password"
  const PRIV_PROTOCOL := "secw_snmpv3_priv_protocol"
  const PRIV_PASSWORD := "secw_snmpv3_priv_password"
  const COMMUNITY_NAME := "secw_snmpv1_community_name"
  const USERNAME := "secw_user_and_password_username"
  const PASSWORD := "secw_user_and_password_password"
  const EXTERNAL_PEM := "secw_external_certificate_pem"
  const INTERNAL_PEM := "secw_internal_certificate_pem"
  const PRIVATE_KEY_PEM := "secw_internal_certificate_private_key_pem"

  // The bytes below which an enumeration of snmpv3 is in range.
  const MAX_SECURITY_LEVEL := 3
  const MAX_AUTH_PROTOCOL := 2
  const MAX_PRIV_PROTOCOL := 2

  const NO_AUTH_NO_PRIV := 0
  const AUTH_NO_PRIV := 1
  const AUTH_PRIV := 2

  type SecurityLevel = n: int | 0 <= n < MAX_SECURITY_LEVEL
  type Protocol = n: int | 0 <= n < 2

  /** The public and the secret fields of each document type. */
  datatype Content =
    | Snmpv3(level: SecurityLevel, securityName: string, authProtocol: Protocol, privProtocol: Protocol,
             authPassword: string, privPassword: string)
    | Snmpv1(communityName: string)
    | UserAndPassword(username: string, password: string)
    | ExternalCertificate(externalPem: string)
    | InternalCertificate(pem: string, privateKeyPem: string)

  datatype Doc = Doc(
    id: string,
    name: string,
    tags: set<string>,
    usages: set<string>,
    content: Content,
    containPrivateData: bool)

  function TypeOf(c: Content): string {
    match c
    case Snmpv3(_, _, _, _, _, _) => SNMPV3_TYPE
    case Snmpv1(_) => SNMPV1_TYPE
    case UserAndPassword(_, _) => USER_AND_PASSWORD_TYPE
    case ExternalCertificate(_) => EXTERNAL_CERTIFICATE_TYPE
    case InternalCertificate(_, _) => INTERNAL_CERTIFICATE_TYPE
  }

  /** The document factories: a new document of the given type. */
  function Blank(docType: string): Option<Content> {
    if docType == SNMPV3_TYPE then Some(Snmpv3(NO_AUTH_NO_PRIV, "", 0, 0, "", ""))
    else if docType == SNMPV1_TYPE then Some(Snmpv1(""))
    else if docType == USER_AND_PASSWORD_TYPE then Some(UserAndPassword("", ""))
    else if docType == EXTERNAL_CERTIFICATE_TYPE then Some(ExternalCertificate(""))
    else if docType == INTERNAL_CERTIFICATE_TYPE then Some(InternalCertificate("", ""))
    else None
  }

  // ---------------------------------------------------------------- writing

  function WritePublic(c: Content): Tree {
    match c
    case Snmpv3(level, name, auth, priv, _, _) =>
      Object(map[SECURITY_LEVEL := Number(level), SECURITY_NAME := Text(name),
                 AUTH_PROTOCOL := Number(auth), PRIV_PROTOCOL := Number(priv)])
    case Snmpv1(community) => Object(map[COMMUNITY_NAME := Text(community)])
    case UserAndPassword(username, _) => Object(map[USERNAME := Text(username)])
    case ExternalCertificate(pem) => Object(map[EXTERNAL_PEM := Text(pem)])
    case InternalCertificate(pem, _) => Object(map[INTERNAL_PEM := Text(pem)])
  }

  /** A secret is written only when it is not empty. */
  function SecretMember(name: string, secret: string): map<string, Tree> {
    if secret == "" then map[] else map[name := Text(secret)]
  }

  function WriteSecret(c: Content): Tree {
    match c
    case Snmpv3(_, _, _, _, auth, priv) =>
      Section(SecretMember(AUTH_PASSWORD, auth) + SecretMember(PRIV_PASSWORD, priv))
    case UserAndPassword(_, password) => Section(SecretMember(PASSWORD, password))
    case InternalCertificate(_, key) => Section(SecretMember(PRIVATE_KEY_PEM, key))
    case Snmpv1(_) => Void
    case ExternalCertificate(_) => Void
  }

  function HeaderMembers(d: Doc): map<string, Tree> {
    map[DOC_ID_ENTRY := Text(d.id), DOC_NAME_ENTRY := Text(d.name), DOC_TYPE_ENTRY := Text(TypeOf(d.content)),
        DOC_TAGS_ENTRY := TextArray(d.tags), DOC_USAGES_ENTRY := TextArray(d.usages)]
  }

  function WithoutSecret(d: Doc): Tree {
    Object(HeaderMembers(d)[DOC_PUBLIC_ENTRY := WritePublic(d.content)])
  }

  function WithSecret(d: Doc): Tree {
    Object(HeaderMembers(d)[DOC_PUBLIC_ENTRY := WritePublic(d.content)][DOC_PRIVATE_ENTRY := WriteSecret(d.content)])
  }

  // ---------------------------------------------------------------- reading

  type Reading<T> = Result<T, SecwException>

  function ReadText(si: Tree, name: string): Reading<string> {
    OrThrow(FindText(si, name), InvalidFormatError(name))
  }

  function ReadBounded(si: Tree, name: string, bound: int): Reading<int> {
    match FindByte(si, name)
    case None => Failure(InvalidFormatError(name))
    case Some(n) => if n < bound then Success(n) else Failure(InvalidFormatError(name))
  }

  /** The public fields of `c` are overwritten; its secret fields are kept. */
  function ReadPublic(c: Content, si: Tree): Reading<Content> {
    match c
    case Snmpv3(_, _, _, _, authPassword, privPassword) =>
      var level :- ReadBounded(si, SECURITY_LEVEL, MAX_SECURITY_LEVEL);
      var name :- ReadText(si, SECURITY_NAME);
      var auth :- ReadBounded(si, AUTH_PROTOCOL, MAX_AUTH_PROTOCOL);
      var priv :- ReadBounded(si, PRIV_PROTOCOL, MAX_PRIV_PROTOCOL);
      Success(Snmpv3(level, name, auth, priv, authPassword, privPassword))
    case Snmpv1(_) =>
      var community :- ReadText(si, COMMUNITY_NAME);
      Success(Snmpv1(community))
    case UserAndPassword(_, password) =>
      var username :- ReadText(si, USERNAME);
      Success(UserAndPassword(username, password))
    case ExternalCertificate(_) =>
      var pem :- ReadText(si, EXTERNAL_PEM);
      Success(ExternalCertificate(pem))
    case InternalCertificate(_, key) =>
      var pem :- ReadText(si, INTERNAL_PEM);
      Success(InternalCertificate(pem, key))
  }

  /** A secret field is overwritten only when it is present. */
  function ReadOptional(si: Tree, name: string, current: string): Reading<string> {
    match FindMember(si, name)
    case None => Success(current)
    case Some(_) => ReadText(si, name)
  }

  function ReadSecret(c: Content, si: Tree): Reading<Content> {
    match c
    case Snmpv3(_, _, _, _, authPassword, privPassword) =>
      var auth :- ReadOptional(si, AUTH_PASSWORD, authPassword);
      var priv :- ReadOptional(si, PRIV_PASSWORD, privPassword);
      Success(c.(authPassword := auth, privPassword := priv))
    case UserAndPassword(_, password) =>
      var secret :- ReadOptional(si, PASSWORD, password);
      Success(c.(password := secret))
    case InternalCertificate(_, key) =>
      var secret :- ReadOptional(si, PRIVATE_KEY_PEM, key);
      Success(c.(privateKeyPem := secret))
    case Snmpv1(_) => Success(c)
    case ExternalCertificate(_) => Success(c)
  }

  function ReadHeader(d: Doc, si: Tree): Reading<Doc> {
    var name :- ReadText(si, DOC_NAME_ENTRY);
    var tags :- OrThrow(FindTexts(si, DOC_TAGS_ENTRY), InvalidFormatError(DOC_TAGS_ENTRY));
    var usages :- OrThrow(FindTexts(si, DOC_USAGES_ENTRY), InvalidFormatError(DOC_USAGES_ENTRY));
    Success(d.(name := name, tags := tags, usages := usages))
  }

  /** Header and public part of `d` overwritten from `si`. */
  function ReadOpenParts(d: Doc, si: Tree, publicEntry: Tree): Reading<Doc> {
    var headed :- ReadHeader(d, si);
    var content :- ReadPublic(headed.content, publicEntry);
    Success(headed.(content := content))
  }

  /** The document the reader starts from: a new one of the type and id read, or `existing`, which
      must have them. */
  function StartingFrom(docType: string, id: string, existing: Option<Doc>): Reading<Doc> {
    match existing
    case Some(d) =>
      :- Require(TypeOf(d.content) == docType, InvalidFormatError(DOC_TYPE_ENTRY));
      :- Require(d.id == id, InvalidFormatError(DOC_ID_ENTRY));
      Success(d)
    case None =>
      var content :- OrThrow(Blank(docType), LIBRARY_ERROR);
      Success(Doc(id, "", {}, {}, content, true))
  }

  /** `si >>= doc`: create a document, or merge into an existing one. */
  function Load(si: Tree, existing: Option<Doc>): Reading<Doc> {
    var docType :- OrThrow(FindText(si, DOC_TYPE_ENTRY), LIBRARY_ERROR);
    var id :- OrThrow(FindText(si, DOC_ID_ENTRY), LIBRARY_ERROR);
    var publicEntry :- OrThrow(FindMember(si, DOC_PUBLIC_ENTRY), LIBRARY_ERROR);
    var privateEntry := FindMember(si, DOC_PRIVATE_ENTRY);
    var start :- StartingFrom(docType, id, existing);
    var open :- ReadOpenParts(start, si, publicEntry);
    var content :- match privateEntry
                   case Some(entry) => ReadSecret(open.content, entry)
                   case None => Success(open.content);
    var flag := if existing.Some? then open.containPrivateData else privateEntry.Some?;
    Success(open.(content := content, containPrivateData := flag))
  }

  // ---------------------------------------------------------------- backup (SRR)

  function Serialize(w: World, si: Tree): ByteString {
    w.toText(si)
  }

  function Deserialize(w: World, json: string): Reading<Tree> {
    match w.fromText(json)
    case Json(si) => Success(si)
    case BadJson(what) => Failure(SecwException(ProtocolError, "Error in the json from server: " + what, ""))
  }

  function SrrSection(w: World, secret: Tree, key: ByteString, iv: InitVector): Tree {
    Object(map["format" := Text("ENC"), "data" := Text(Encrypt(w.cipher, Serialize(w, secret), key, iv))])
  }

  /** The document with its secret part encrypted under a fresh vector. */
  function WriteSrr(w: World, d: Doc, key: ByteString, iv: InitVector): Tree {
    var section := SrrSection(w, WriteSecret(d.content), key, iv);
    Object(HeaderMembers(d)[DOC_PUBLIC_ENTRY := WritePublic(d.content)][DOC_PRIVATE_ENTRY := section])
  }

  function DecryptSection(w: World, privateSection: Tree, key: ByteString): Reading<Tree> {
    var data :- OrThrow(FindText(privateSection, "data"), LIBRARY_ERROR);
    match Decrypt(w.cipher, data, key)
    case Failure(_) => Failure(LIBRARY_ERROR)
    case Success(plain) => Deserialize(w, plain)
  }

  function OpenSection(w: World, privateSection: Tree, key: ByteString): Reading<Tree> {
    var format :- OrThrow(FindText(privateSection, "format"), LIBRARY_ERROR);
    if format == "plaintext" then OrThrow(FindMember(privateSection, "data"), LIBRARY_ERROR)
    else if format == "ENC" && key != "" then DecryptSection(w, privateSection, key)
    else Failure(SecwException(Generic, "Bad data format", ""))
  }

  function CreateFromSrr(w: World, si: Tree, key: ByteString): Reading<Doc> {
    var docType :- OrThrow(FindText(si, DOC_TYPE_ENTRY), LIBRARY_ERROR);
    var id :- OrThrow(FindText(si, DOC_ID_ENTRY), LIBRARY_ERROR);
    var publicEntry :- OrThrow(FindMember(si, DOC_PUBLIC_ENTRY), LIBRARY_ERROR);
    var privateSection :- OrThrow(FindMember(si, DOC_PRIVATE_ENTRY), LIBRARY_ERROR);
    var start :- StartingFrom(docType, id, None);
    var open :- ReadOpenParts(start, si, publicEntry);
    var privateEntry :- OpenSection(w, privateSection, key);
    var content :- ReadSecret(open.content, privateEntry);
    Success(open.(content := content, containPrivateData := true))
  }

  // ---------------------------------------------------------------- validity and comparison

  function ValidateSnmpv3(c: Content, containPrivateData: bool): Outcome<SecwException>
    requires c.Snmpv3?
  {
    if !containPrivateData && c.authPassword == "" then Fail(InvalidFormatError(AUTH_PASSWORD))
    else if !containPrivateData && c.privPassword == "" then Fail(InvalidFormatError(PRIV_PASSWORD))
    else if c.securityName == "" then Fail(InvalidFormatError(SECURITY_NAME))
    else if c.level == AUTH_PRIV && c.authPassword == "" then Fail(InvalidFormatError(AUTH_PASSWORD))
    else if c.level == AUTH_PRIV && c.privPassword == "" then Fail(InvalidFormatError(PRIV_PASSWORD))
    else if c.level == AUTH_NO_PRIV && c.authPassword == "" then Fail(InvalidFormatError(AUTH_PASSWORD))
    else Pass
  }

  function Validate(w: World, d: Doc): Outcome<SecwException> {
    match d.content
    case Snmpv3(_, _, _, _, _, _) => ValidateSnmpv3(d.content, d.containPrivateData)
    case Snmpv1(community) => Require(community != "", InvalidFormatError(COMMUNITY_NAME))
    case UserAndPassword(username, password) =>
      if !d.containPrivateData then Fail(InvalidFormatError(PASSWORD))
      else if username == "" then Fail(InvalidFormatError(USERNAME))
      else Require(password != "", InvalidFormatError(PASSWORD))
    case ExternalCertificate(pem) =>
      Require(pem != "" && w.certificateKey(pem).Some?, InvalidFormatError(EXTERNAL_PEM))
    case InternalCertificate(pem, key) =>
      if !d.containPrivateData then Fail(InvalidFormatError(PRIVATE_KEY_PEM))
      else if pem == "" then Fail(InvalidFormatError(INTERNAL_PEM))
      else if key == "" then Fail(InvalidFormatError(PRIVATE_KEY_PEM))
      else Require(w.certificateKey(pem).Some? && w.certificateKey(pem) == w.privateKey(key),
                   InvalidFormatError(INTERNAL_PEM))
  }

  predicate IsValid(w: World, d: Doc) {
    Validate(w, d).Pass?
  }

  /** Both comparisons are made on the serialized text. */
  predicate NonSecretEquals(w: World, a: Doc, b: Doc) {
    w.toText(Object(map[DOC_PUBLIC_ENTRY := WritePublic(a.content)]))
    == w.toText(Object(map[DOC_PUBLIC_ENTRY := WritePublic(b.content)]))
  }

  predicate SecretEquals(w: World, a: Doc, b: Doc) {
    && TypeOf(a.content) == TypeOf(b.content)
    && a.containPrivateData && b.containPrivateData
    && w.toText(Object(map[DOC_PRIVATE_ENTRY := WriteSecret(a.content)]))
       == w.toText(Object(map[DOC_PRIVATE_ENTRY := WriteSecret(b.content)]))
  }
}
