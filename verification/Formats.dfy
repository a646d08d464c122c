/** The trees and texts documents are exchanged in, member by member, and which of them can be read. */
module Formats {
  import opened Base64
  import opened DocumentLaws
  import opened Documents
  import opened Encryption
  import opened Environment
  import opened Errors
  import opened Serialization
  import opened Wrappers

  // ---------------------------------------------------------------- the public and the secret part

  predicate HasByteBelow(si: Tree, name: string, bound: int) {
    FindByte(si, name).Some? && FindByte(si, name).value < bound
  }

  /** The members a public part must have, by type. */
  predicate PublicReadable(docType: string, si: Tree) {
    if docType == "Snmpv3" then
      && HasByteBelow(si, "secw_snmpv3_security_level", 3) && FindText(si, "secw_snmpv3_security_name").Some?
      && HasByteBelow(si, "secw_snmpv3_auth_protocol", 2) && HasByteBelow(si, "secw_snmpv3_priv_protocol", 2)
    else if docType == "Snmpv1" then FindText(si, "secw_snmpv1_community_name").Some?
    else if docType == "UserAndPassword" then FindText(si, "secw_user_and_password_username").Some?
    else if docType == "ExternalCertificate" then FindText(si, "secw_external_certificate_pem").Some?
    else FindText(si, "secw_internal_certificate_pem").Some?
  }

  /** The content has the public fields of that tree. */
  predicate HasPublic(c: Content, si: Tree) {
    match c
    case Snmpv3(level, name, auth, priv, _, _) =>
      && FindByte(si, "secw_snmpv3_security_level") == Some(level)
      && FindText(si, "secw_snmpv3_security_name") == Some(name)
      && FindByte(si, "secw_snmpv3_auth_protocol") == Some(auth)
      && FindByte(si, "secw_snmpv3_priv_protocol") == Some(priv)
    case Snmpv1(community) => FindText(si, "secw_snmpv1_community_name") == Some(community)
    case UserAndPassword(username, _) => FindText(si, "secw_user_and_password_username") == Some(username)
    case ExternalCertificate(pem) => FindText(si, "secw_external_certificate_pem") == Some(pem)
    case InternalCertificate(pem, _) => FindText(si, "secw_internal_certificate_pem") == Some(pem)
  }

  predicate TextIfPresent(si: Tree, name: string) {
    FindMember(si, name).Some? ==> FindText(si, name).Some?
  }

  predicate SecretReadable(docType: string, si: Tree) {
    if docType == "Snmpv3" then
      TextIfPresent(si, "secw_snmpv3_auth_password") && TextIfPresent(si, "secw_snmpv3_priv_password")
    else if docType == "UserAndPassword" then TextIfPresent(si, "secw_user_and_password_password")
    else if docType == "InternalCertificate" then TextIfPresent(si, "secw_internal_certificate_private_key_pem")
    else true
  }

  /** The content has the secret fields of that tree, and those of `former` where it has none. */
  predicate HasSecrets(c: Content, si: Tree, former: Content) {
    match (c, former)
    case (Snmpv3(_, _, _, _, auth, priv), Snmpv3(_, _, _, _, formerAuth, formerPriv)) =>
      && auth == FindText(si, "secw_snmpv3_auth_password").GetOr(formerAuth)
      && priv == FindText(si, "secw_snmpv3_priv_password").GetOr(formerPriv)
    case (UserAndPassword(_, password), UserAndPassword(_, formerPassword)) =>
      password == FindText(si, "secw_user_and_password_password").GetOr(formerPassword)
    case (InternalCertificate(_, key), InternalCertificate(_, formerKey)) =>
      key == FindText(si, "secw_internal_certificate_private_key_pem").GetOr(formerKey)
    case (Snmpv1(_), Snmpv1(_)) => true
    case (ExternalCertificate(_), ExternalCertificate(_)) => true
    case _ => false
  }

  lemma ReadPublicIs(c: Content, si: Tree)
    ensures ReadPublic(c, si).Success? <==> PublicReadable(TypeOf(c), si)
    ensures ReadPublic(c, si).Success? ==>
              HasPublic(ReadPublic(c, si).value, si) && HasSecrets(ReadPublic(c, si).value, Void, c)
    ensures ReadPublic(c, si).Failure? ==> ReadPublic(c, si).error.code == InvalidDocumentFormat
  {
  }

  lemma ReadSecretIs(c: Content, si: Tree)
    ensures ReadSecret(c, si).Success? <==> SecretReadable(TypeOf(c), si)
    ensures ReadSecret(c, si).Success? ==>
              HasSecrets(ReadSecret(c, si).value, si, c) && EraseSecrets(ReadSecret(c, si).value) == EraseSecrets(c)
    ensures ReadSecret(c, si).Failure? ==> ReadSecret(c, si).error.code == InvalidDocumentFormat
  {
  }

  // ---------------------------------------------------------------- a document

  const TYPES := {"Snmpv3", "Snmpv1", "UserAndPassword", "ExternalCertificate", "InternalCertificate"}

  /** What a document must have before its fields are looked at; else the error is one of the library. */
  predicate HasFrame(si: Tree) {
    && FindText(si, "secw_doc_type").Some? && FindText(si, "secw_doc_type").value in TYPES
    && FindText(si, "secw_doc_id").Some? && FindMember(si, "secw_doc_public").Some?
  }

  predicate HasHead(si: Tree) {
    && FindText(si, "secw_doc_name").Some? && FindTexts(si, "secw_doc_tags").Some?
    && FindTexts(si, "secw_doc_usages").Some?
  }

  /** Header and public part of the document are those of the tree. */
  predicate HasOpenParts(d: Doc, si: Tree) {
    && FindText(si, "secw_doc_type") == Some(TypeOf(d.content)) && FindText(si, "secw_doc_id") == Some(d.id)
    && FindText(si, "secw_doc_name") == Some(d.name) && FindTexts(si, "secw_doc_tags") == Some(d.tags)
    && FindTexts(si, "secw_doc_usages") == Some(d.usages)
    && FindMember(si, "secw_doc_public").Some? && HasPublic(d.content, FindMember(si, "secw_doc_public").value)
  }

  predicate OpenReadable(si: Tree) {
    && HasFrame(si) && HasHead(si)
    && PublicReadable(FindText(si, "secw_doc_type").value, FindMember(si, "secw_doc_public").value)
  }

  /** A document of that type with empty fields. */
  predicate IsBlank(c: Content) {
    c in {Snmpv3(0, "", 0, 0, "", ""), Snmpv1(""), UserAndPassword("", ""), ExternalCertificate(""),
          InternalCertificate("", "")}
  }

  lemma BlankIs(docType: string)
    ensures Blank(docType).Some? <==> docType in TYPES
    ensures Blank(docType).Some? ==> IsBlank(Blank(docType).value) && TypeOf(Blank(docType).value) == docType
  {
  }

  lemma ReadOpenPartsIs(start: Doc, si: Tree)
    requires HasFrame(si) && FindText(si, "secw_doc_type") == Some(TypeOf(start.content))
    requires FindText(si, "secw_doc_id") == Some(start.id)
    ensures var r := ReadOpenParts(start, si, FindMember(si, "secw_doc_public").value);
            && (r.Success? <==> OpenReadable(si))
            && (r.Success? ==> HasOpenParts(r.value, si) && HasSecrets(r.value.content, Void, start.content)
                               && r.value.containPrivateData == start.containPrivateData)
            && (r.Failure? ==> r.error.code == InvalidDocumentFormat)
  {
    ReadPublicIs(start.content, FindMember(si, "secw_doc_public").value);
  }

  /** The secret part of a tree that was asked for, void when there is none. */
  function PrivatePart(si: Tree): Tree {
    FindMember(si, "secw_doc_private").GetOr(Void)
  }

  lemma SecretsOverOpen(open: Content, r: Content, section: Tree, start: Content, si: Tree)
    requires HasPublic(open, si) && HasSecrets(open, Void, start)
    requires HasSecrets(r, section, open) && EraseSecrets(r) == EraseSecrets(open)
    ensures HasPublic(r, si) && HasSecrets(r, section, start) && TypeOf(r) == TypeOf(open)
  {
  }

  /** The document has the fields of the tree, and is empty where the tree has no secret. */
  ghost predicate IsReadFrom(d: Doc, si: Tree, section: Tree) {
    HasOpenParts(d, si) && exists blank :: IsBlank(blank) && HasSecrets(d.content, section, blank)
  }

  /** A new document is read exactly from a tree with a known type, an id, the header, the public part of its type
      and, if it has a secret part, one that can be read; the error is one of the library if the frame is
      missing. */
  lemma LoadNewIs(si: Tree)
    ensures Load(si, None).Success? <==>
            OpenReadable(si) && SecretReadable(FindText(si, "secw_doc_type").value, PrivatePart(si))
    ensures Load(si, None).Success? ==>
              && IsReadFrom(Load(si, None).value, si, PrivatePart(si))
              && Load(si, None).value.containPrivateData == FindMember(si, "secw_doc_private").Some?
    ensures Load(si, None).Failure? ==>
              Load(si, None).error.code == if HasFrame(si) then InvalidDocumentFormat else Generic
  {
    if HasFrame(si) {
      var docType, id := FindText(si, "secw_doc_type").value, FindText(si, "secw_doc_id").value;
      BlankIs(docType);
      var start := StartingFrom(docType, id, None).value;
      ReadOpenPartsIs(start, si);
      if OpenReadable(si) {
        var open := ReadOpenParts(start, si, FindMember(si, "secw_doc_public").value).value;
        ReadSecretIs(open.content, PrivatePart(si));
        VoidSecret(docType);
        if FindMember(si, "secw_doc_private").Some? && ReadSecret(open.content, PrivatePart(si)).Success? {
          SecretsOverOpen(open.content, ReadSecret(open.content, PrivatePart(si)).value, PrivatePart(si), start.content,
                          FindMember(si, "secw_doc_public").value);
        }
      }
    } else {
      BlankIs(FindText(si, "secw_doc_type").GetOr(""));
    }
  }

  lemma VoidSecret(docType: string)
    ensures SecretReadable(docType, Void)
  {
  }

  // ---------------------------------------------------------------- a document of a backup

  /** The secret part that a section of a backup holds: in the clear, or encrypted under a key that is not
      empty. */
  function SectionSecret(w: World, section: Tree, key: ByteString): Option<Tree> {
    if FindText(section, "format") == Some("plaintext") then FindMember(section, "data")
    else if FindText(section, "format") == Some("ENC") && key != "" && FindText(section, "data").Some? then
      match Decrypt(w.cipher, FindText(section, "data").value, key)
      case Failure(_) => None
      case Success(plain) =>
        match w.fromText(plain)
        case BadJson(_) => None
        case Json(secret) => Some(secret)
    else None
  }

  lemma OpenSectionIs(w: World, section: Tree, key: ByteString)
    ensures OpenSection(w, section, key).Success? <==> SectionSecret(w, section, key).Some?
    ensures OpenSection(w, section, key).Success? ==>
              OpenSection(w, section, key).value == SectionSecret(w, section, key).value
  {
  }

  /** A document of a backup is read exactly from a tree with the same open parts and a section that opens to a
      secret part; it is marked as holding private data. */
  lemma CreateFromSrrIs(w: World, si: Tree, key: ByteString)
    ensures var secret := SectionSecret(w, PrivatePart(si), key);
            && (CreateFromSrr(w, si, key).Success? <==>
                  && OpenReadable(si) && FindMember(si, "secw_doc_private").Some? && secret.Some?
                  && SecretReadable(FindText(si, "secw_doc_type").value, secret.value))
            && (CreateFromSrr(w, si, key).Success? ==>
                  && IsReadFrom(CreateFromSrr(w, si, key).value, si, secret.value)
                  && CreateFromSrr(w, si, key).value.containPrivateData)
  {
    if HasFrame(si) && FindMember(si, "secw_doc_private").Some? {
      var docType, id := FindText(si, "secw_doc_type").value, FindText(si, "secw_doc_id").value;
      BlankIs(docType);
      var start := StartingFrom(docType, id, None).value;
      ReadOpenPartsIs(start, si);
      OpenSectionIs(w, PrivatePart(si), key);
      if OpenReadable(si) && SectionSecret(w, PrivatePart(si), key).Some? {
        var open := ReadOpenParts(start, si, FindMember(si, "secw_doc_public").value).value;
        var secret := SectionSecret(w, PrivatePart(si), key).value;
        ReadSecretIs(open.content, secret);
        if ReadSecret(open.content, secret).Success? {
          SecretsOverOpen(open.content, ReadSecret(open.content, secret).value, secret, start.content,
                          FindMember(si, "secw_doc_public").value);
        }
      }
    } else {
      BlankIs(FindText(si, "secw_doc_type").GetOr(""));
    }
  }

  // ---------------------------------------------------------------- validity

  /** What each type demands; snmpv3 of its security levels 1 and 2. */
  predicate MeetsDemands(w: World, d: Doc) {
    match d.content
    case Snmpv3(level, name, _, _, auth, priv) =>
      && name != "" && (d.containPrivateData || (auth != "" && priv != ""))
      && (level == 1 || level == 2 ==> auth != "") && (level == 2 ==> priv != "")
    case Snmpv1(community) => community != ""
    case UserAndPassword(username, password) => d.containPrivateData && username != "" && password != ""
    case ExternalCertificate(pem) => pem != "" && w.certificateKey(pem).Some?
    case InternalCertificate(pem, key) =>
      && d.containPrivateData && pem != "" && key != ""
      && w.certificateKey(pem).Some? && w.certificateKey(pem) == w.privateKey(key)
  }

  /** The field an error of the validation names: a secret that was not received, an empty one, or the
      certificate. */
  ghost predicate Blames(d: Doc, field: string) {
    match d.content
    case Snmpv3(_, name, _, _, auth, priv) =>
      || (field == "secw_snmpv3_auth_password" && auth == "") || (field == "secw_snmpv3_priv_password" && priv == "")
      || (field == "secw_snmpv3_security_name" && name == "")
    case Snmpv1(_) => field == "secw_snmpv1_community_name"
    case UserAndPassword(username, password) =>
      || (field == "secw_user_and_password_password" && (!d.containPrivateData || (username != "" && password == "")))
      || (field == "secw_user_and_password_username" && d.containPrivateData && username == "")
    case ExternalCertificate(_) => field == "secw_external_certificate_pem"
    case InternalCertificate(pem, key) =>
      || (field == "secw_internal_certificate_private_key_pem" && (!d.containPrivateData || key == ""))
      || (field == "secw_internal_certificate_pem" && d.containPrivateData && (pem == "" || key != ""))
  }

  lemma ValidMeetsDemands(w: World, d: Doc)
    ensures IsValid(w, d) <==> MeetsDemands(w, d)
    ensures !IsValid(w, d) ==>
              Validate(w, d).error.code == InvalidDocumentFormat && Blames(d, Validate(w, d).error.extra)
  {
  }

  // ---------------------------------------------------------------- encrypted texts

  /** An encrypted text is the vector, a colon at the 25th place and the blocks, both in base64; the key is the
      digest of the passphrase. */
  lemma EncryptedText(c: Cipher, plain: ByteString, passphrase: ByteString, iv: InitVector)
    ensures var text := Encrypt(c, plain, passphrase, iv);
            && |text| >= 25 && text[24] == ':' && Decode(text[..24]) == Some(iv)
            && Decode(text[25..]) == Some(c.encryptBlocks(StrToBytes(plain), c.digest(StrToBytes(passphrase)), iv))
  {
    var text := Encrypt(c, plain, passphrase, iv);
    var body := c.encryptBlocks(StrToBytes(plain), c.digest(StrToBytes(passphrase)), iv);
    Base64SizeIsEncodedLength(IV_SIZE, iv);
    assert text[..24] == Encode(iv) && text[25..] == Encode(body);
    RoundTrip(iv);
    RoundTrip(body);
  }

  predicate Splits(text: string) {
    && |text| > 25 && text[24] == ':' && Decode(text[..24]).Some? && |Decode(text[..24]).value| == 16
    && Decode(text[25..]).Some? && Decode(text[25..]).value != []
  }

  /** What a text of that form decrypts to. */
  function Decrypted(c: Cipher, text: string, passphrase: ByteString): ByteString
    requires Splits(text)
  {
    BytesToStr(c.decryptBlocks(Decode(text[25..]).value, c.digest(StrToBytes(passphrase)), Decode(text[..24]).value))
  }

  lemma BlocksDecrypt(c: Cipher, data: Bytes, key: Bytes, iv: Bytes)
    requires |key| == 32
    ensures DecryptBytes(c, data, key, iv).Success? <==> |iv| == 16 && data != []
    ensures |iv| == 16 && data != [] ==> DecryptBytes(c, data, key, iv) == Success(c.decryptBlocks(data, key, iv))
  {
  }

  lemma DecryptParts(c: Cipher, text: string, passphrase: ByteString)
    requires |text| > 24 && text[24] == ':'
    ensures var iv, body := Decode(text[..24]), Decode(text[25..]);
            Decrypt(c, text, passphrase)
            == if iv.None? || body.None? then Failure("Invalid base64")
               else
                 match DecryptBytes(c, body.value, c.digest(StrToBytes(passphrase)), iv.value)
                 case Success(plain) => Success(BytesToStr(plain))
                 case Failure(what) => Failure(what)
  {
  }

  /** A text decrypts exactly if it is empty or splits there into a vector of 16 bytes and some blocks; it then
      gives what the cipher gives under the digest of the passphrase. */
  lemma DecryptIs(c: Cipher, text: string, passphrase: ByteString)
    requires c.Sound()
    ensures Decrypt(c, text, passphrase).Success? <==> text == "" || Splits(text)
    ensures text == "" ==> Decrypt(c, text, passphrase) == Success("")
    ensures Splits(text) ==> Decrypt(c, text, passphrase) == Success(Decrypted(c, text, passphrase))
  {
    if |text| > 24 && text[24] == ':' {
      DecryptParts(c, text, passphrase);
      var iv, body := Decode(text[..24]), Decode(text[25..]);
      if iv.Some? && body.Some? {
        BlocksDecrypt(c, body.value, c.digest(StrToBytes(passphrase)), iv.value);
        assert body.value != [] ==> |text| > 25;
      }
    }
  }

  // ---------------------------------------------------------------- what is written

  const OPEN_NAMES := {"secw_doc_id", "secw_doc_name", "secw_doc_type", "secw_doc_tags", "secw_doc_usages",
                       "secw_doc_public"}

  /** The public view has the header and the public part and nothing else, and no secret shows in it. */
  lemma OpenView(d: Doc, mark: bool)
    ensures WithoutSecret(d).Object? && WithoutSecret(d).members.Keys == OPEN_NAMES
    ensures HasOpenParts(d, WithoutSecret(d))
    ensures WithoutSecret(d.(content := EraseSecrets(d.content), containPrivateData := mark)) == WithoutSecret(d)
  {
    LoadWithoutSecret(d);
    LoadNewIs(WithoutSecret(d));
    PublicSurvives(d.content, FindMember(WithoutSecret(d), "secw_doc_public").value);
  }

  lemma PublicSurvives(c: Content, si: Tree)
    ensures HasPublic(EraseSecrets(c), si) <==> HasPublic(c, si)
    ensures TypeOf(EraseSecrets(c)) == TypeOf(c) && WritePublic(EraseSecrets(c)) == WritePublic(c)
  {
  }

  /** The view with secret adds the secret part and nothing else. */
  lemma SecretView(d: Doc)
    ensures WithSecret(d).Object? && WithSecret(d).members.Keys == OPEN_NAMES + {"secw_doc_private"}
    ensures HasOpenParts(d, WithSecret(d))
    ensures HasSecrets(d.content, PrivatePart(WithSecret(d)), EraseSecrets(d.content))
    ensures forall n | n in OPEN_NAMES :: FindMember(WithSecret(d), n) == FindMember(WithoutSecret(d), n)
  {
    LoadWithSecret(d);
    LoadNewIs(WithSecret(d));
    var blank :| IsBlank(blank) && HasSecrets(d.content, PrivatePart(WithSecret(d)), blank);
  }

  /** In a backup the secret part is one encrypted text, and the secrets show nowhere else. */
  lemma BackupView(w: World, d: Doc, key: ByteString, iv: InitVector)
    ensures WriteSrr(w, d, key, iv).Object? && WriteSrr(w, d, key, iv).members.Keys == OPEN_NAMES + {"secw_doc_private"}
    ensures forall n | n in OPEN_NAMES :: FindMember(WriteSrr(w, d, key, iv), n) == FindMember(WithoutSecret(d), n)
    ensures PrivatePart(WriteSrr(w, d, key, iv))
         == Object(map["format" := Text("ENC"),
                       "data" := Text(Encrypt(w.cipher, w.toText(PrivatePart(WithSecret(d))), key, iv))])
  {
  }
}
