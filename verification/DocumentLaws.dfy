/** What reading, writing, merging and validating documents have to do with each other. */
module DocumentLaws {
  import opened Documents
  import opened Encryption
  import opened Environment
  import opened Serialization
  import opened Wrappers

  function MarkPrivate(d: Doc): Doc {
    d.(containPrivateData := true)
  }

  /** The content of a document received without its secret part. */
  function EraseSecrets(c: Content): Content {
    match c
    case Snmpv3(level, name, auth, priv, _, _) => Snmpv3(level, name, auth, priv, "", "")
    case UserAndPassword(username, _) => UserAndPassword(username, "")
    case InternalCertificate(pem, _) => InternalCertificate(pem, "")
    case _ => c
  }

  /** The secret fields by the name of their member. */
  function SecretFields(c: Content): map<string, string> {
    match c
    case Snmpv3(_, _, _, _, auth, priv) => map[AUTH_PASSWORD := auth, PRIV_PASSWORD := priv]
    case UserAndPassword(_, password) => map[PASSWORD := password]
    case InternalCertificate(_, key) => map[PRIVATE_KEY_PEM := key]
    case _ => map[]
  }

  // ---------------------------------------------------------------- round trips

  /** `si` has the header and the public part of `d`, whatever it says of the secret part. */
  ghost predicate Carries(si: Tree, d: Doc) {
    && FindText(si, DOC_ID_ENTRY) == Some(d.id)
    && FindText(si, DOC_TYPE_ENTRY) == Some(TypeOf(d.content))
    && FindText(si, DOC_NAME_ENTRY) == Some(d.name)
    && FindTexts(si, DOC_TAGS_ENTRY) == Some(d.tags)
    && FindTexts(si, DOC_USAGES_ENTRY) == Some(d.usages)
    && FindMember(si, DOC_PUBLIC_ENTRY) == Some(WritePublic(d.content))
  }

  lemma WrittenMembers(d: Doc)
    ensures var si := WithoutSecret(d);
            && FindMember(si, DOC_ID_ENTRY) == Some(Text(d.id))
            && FindMember(si, DOC_NAME_ENTRY) == Some(Text(d.name))
            && FindMember(si, DOC_TYPE_ENTRY) == Some(Text(TypeOf(d.content)))
            && FindMember(si, DOC_TAGS_ENTRY) == Some(TextArray(d.tags))
            && FindMember(si, DOC_USAGES_ENTRY) == Some(TextArray(d.usages))
            && FindMember(si, DOC_PUBLIC_ENTRY) == Some(WritePublic(d.content))
            && FindMember(si, DOC_PRIVATE_ENTRY) == None
  {
  }

  lemma WrittenCarries(d: Doc)
    ensures Carries(WithoutSecret(d), d)
    ensures FindMember(WithoutSecret(d), DOC_PRIVATE_ENTRY) == None
  {
    WrittenMembers(d);
    TextArrayRoundTrip(d.tags);
    TextArrayRoundTrip(d.usages);
  }

  lemma WithPrivateCarries(d: Doc, section: Tree)
    ensures var si := Object(WithoutSecret(d).members[DOC_PRIVATE_ENTRY := section]);
            Carries(si, d) && FindMember(si, DOC_PRIVATE_ENTRY) == Some(section)
  {
    WrittenCarries(d);
    var open := WithoutSecret(d);
    var si := Object(open.members[DOC_PRIVATE_ENTRY := section]);
    forall n | n != DOC_PRIVATE_ENTRY ensures FindMember(si, n) == FindMember(open, n) {}
  }

  /** The public fields of one content with the secret fields of another of the same type. */
  function Combine(open: Content, secret: Content): Content {
    match (open, secret)
    case (Snmpv3(level, name, auth, priv, _, _), Snmpv3(_, _, _, _, authPassword, privPassword)) =>
      Snmpv3(level, name, auth, priv, authPassword, privPassword)
    case (UserAndPassword(username, _), UserAndPassword(_, password)) => UserAndPassword(username, password)
    case (InternalCertificate(pem, _), InternalCertificate(_, key)) => InternalCertificate(pem, key)
    case _ => open
  }

  lemma PublicRoundTrip(c: Content, start: Content)
    requires TypeOf(start) == TypeOf(c)
    ensures ReadPublic(start, WritePublic(c)) == Success(Combine(c, start))
  {
  }

  lemma OptionalRoundTrip(name: string, secret: string, current: string)
    requires current == "" || current == secret
    ensures ReadOptional(Section(SecretMember(name, secret)), name, current) == Success(secret)
  {
    FindInSection(SecretMember(name, secret), name);
  }

  lemma TwoOptionalsRoundTrip(auth: string, priv: string, currentAuth: string, currentPriv: string)
    requires currentAuth == "" || currentAuth == auth
    requires currentPriv == "" || currentPriv == priv
    ensures var si := Section(SecretMember(AUTH_PASSWORD, auth) + SecretMember(PRIV_PASSWORD, priv));
            && ReadOptional(si, AUTH_PASSWORD, currentAuth) == Success(auth)
            && ReadOptional(si, PRIV_PASSWORD, currentPriv) == Success(priv)
  {
    var members := SecretMember(AUTH_PASSWORD, auth) + SecretMember(PRIV_PASSWORD, priv);
    FindInSection(members, AUTH_PASSWORD);
    FindInSection(members, PRIV_PASSWORD);
  }

  /** An empty secret is not written, and reads back as empty. */
  lemma SecretRoundTrip(c: Content, start: Content)
    requires start == EraseSecrets(c) || start == c
    ensures ReadSecret(start, WriteSecret(c)) == Success(c)
  {
    match c
    case Snmpv3(_, _, _, _, auth, priv) => TwoOptionalsRoundTrip(auth, priv, start.authPassword, start.privPassword);
    case UserAndPassword(_, password) => OptionalRoundTrip(PASSWORD, password, start.password);
    case InternalCertificate(_, key) => OptionalRoundTrip(PRIVATE_KEY_PEM, key, start.privateKeyPem);
    case _ =>
  }

  lemma BlankOfType(c: Content)
    ensures Blank(TypeOf(c)).Some? && TypeOf(Blank(TypeOf(c)).value) == TypeOf(c)
    ensures Combine(c, Blank(TypeOf(c)).value) == EraseSecrets(c)
  {
  }

  lemma ReadCarried(si: Tree, d: Doc, start: Doc)
    requires Carries(si, d)
    requires start.id == d.id && TypeOf(start.content) == TypeOf(d.content)
    ensures ReadOpenParts(start, si, WritePublic(d.content))
         == Success(d.(content := Combine(d.content, start.content), containPrivateData := start.containPrivateData))
  {
    PublicRoundTrip(d.content, start.content);
  }

  /** A new document read from a tree that carries `d`, before its secret part is looked at. */
  lemma ReadNew(si: Tree, d: Doc) returns (start: Doc)
    requires Carries(si, d)
    ensures StartingFrom(TypeOf(d.content), d.id, None) == Success(start)
    ensures ReadOpenParts(start, si, WritePublic(d.content))
         == Success(Doc(d.id, d.name, d.tags, d.usages, EraseSecrets(d.content), true))
  {
    BlankOfType(d.content);
    start := StartingFrom(TypeOf(d.content), d.id, None).value;
    ReadCarried(si, d, start);
  }

  lemma LoadCarried(si: Tree, d: Doc)
    requires Carries(si, d)
    ensures FindMember(si, DOC_PRIVATE_ENTRY) == None ==>
              Load(si, None) == Success(Doc(d.id, d.name, d.tags, d.usages, EraseSecrets(d.content), false))
    ensures FindMember(si, DOC_PRIVATE_ENTRY) == Some(WriteSecret(d.content)) ==>
              Load(si, None) == Success(MarkPrivate(d))
  {
    var start := ReadNew(si, d);
    SecretRoundTrip(d.content, EraseSecrets(d.content));
  }

  /** Written with its secret and read back, a document is the same; it is now marked as holding
      private data. */
  lemma LoadWithSecret(d: Doc)
    ensures Load(WithSecret(d), None) == Success(MarkPrivate(d))
  {
    WithPrivateCarries(d, WriteSecret(d.content));
    LoadCarried(WithSecret(d), d);
  }

  /** The view without secrets parses to the document with its secrets erased. */
  lemma LoadWithoutSecret(d: Doc)
    ensures Load(WithoutSecret(d), None) == Success(Doc(d.id, d.name, d.tags, d.usages, EraseSecrets(d.content), false))
  {
    WrittenCarries(d);
    LoadCarried(WithoutSecret(d), d);
  }

  lemma CreateCarried(w: World, si: Tree, d: Doc, section: Tree, key: ByteString)
    requires Carries(si, d) && FindMember(si, DOC_PRIVATE_ENTRY) == Some(section)
    requires OpenSection(w, section, key) == Success(WriteSecret(d.content))
    ensures CreateFromSrr(w, si, key) == Success(MarkPrivate(d))
  {
    var start := ReadNew(si, d);
    SecretRoundTrip(d.content, EraseSecrets(d.content));
  }

  /** Encrypted for a backup under a non-empty key and read back under the same key. */
  lemma SrrRoundTrip(w: World, d: Doc, key: ByteString, iv: InitVector)
    requires w.Sound() && key != ""
    ensures CreateFromSrr(w, WriteSrr(w, d, key, iv), key) == Success(MarkPrivate(d))
  {
    var secret := WriteSecret(d.content);
    var section := SrrSection(w, secret, key, iv);
    WithPrivateCarries(d, section);
    SectionRoundTrip(w, secret, key, iv);
    CreateCarried(w, WriteSrr(w, d, key, iv), d, section, key);
  }

  lemma OpenEncrypted(w: World, section: Tree, secret: Tree, key: ByteString, iv: InitVector)
    requires w.Sound() && key != ""
    requires FindText(section, "format") == Some("ENC")
    requires FindText(section, "data") == Some(Encrypt(w.cipher, Serialize(w, secret), key, iv))
    ensures OpenSection(w, section, key) == Success(secret)
  {
    DecryptUndoesEncrypt(w.cipher, Serialize(w, secret), key, iv);
    assert w.fromText(w.toText(secret)) == Json(secret);
  }

  lemma SectionRoundTrip(w: World, secret: Tree, key: ByteString, iv: InitVector)
    requires w.Sound() && key != ""
    ensures OpenSection(w, SrrSection(w, secret, key, iv), key) == Success(secret)
  {
    OpenEncrypted(w, SrrSection(w, secret, key, iv), secret, key, iv);
  }

  // ---------------------------------------------------------------- merging

  lemma ReadPublicIgnoresStart(c: Content, d: Content, si: Tree)
    requires TypeOf(c) == TypeOf(d)
    ensures ReadPublic(c, si).Success? == ReadPublic(d, si).Success?
    ensures ReadPublic(c, si).Success? ==>
              var p, q := ReadPublic(c, si).value, ReadPublic(d, si).value;
              WritePublic(p) == WritePublic(q) && TypeOf(p) == TypeOf(q) == TypeOf(c)
              && SecretFields(p) == SecretFields(c)
  {
  }

  lemma ReadSecretFields(c: Content, d: Content, si: Tree)
    requires TypeOf(c) == TypeOf(d)
    ensures ReadSecret(c, si).Success? == ReadSecret(d, si).Success?
    ensures ReadSecret(c, si).Success? ==>
              var r := ReadSecret(c, si).value;
              && TypeOf(r) == TypeOf(c) && WritePublic(r) == WritePublic(c)
              && SecretFields(r).Keys == SecretFields(c).Keys
              && forall f | f in SecretFields(c) ::
                   SecretFields(r)[f] == FindText(si, f).GetOr(SecretFields(c)[f])
  {
  }

  /** The secret field `f` as a request sends it. */
  function RequestedSecret(si: Tree, f: string): Option<string> {
    match FindMember(si, DOC_PRIVATE_ENTRY)
    case None => None
    case Some(section) => FindText(section, f)
  }

  /** Header and public part read the same whatever document they are read into. */
  lemma OpenPartsIgnoreStart(a: Doc, b: Doc, si: Tree, publicEntry: Tree)
    requires TypeOf(a.content) == TypeOf(b.content) && a.id == b.id
    ensures ReadOpenParts(a, si, publicEntry).Success? == ReadOpenParts(b, si, publicEntry).Success?
    ensures ReadOpenParts(a, si, publicEntry).Success? ==>
              var p, q := ReadOpenParts(a, si, publicEntry).value, ReadOpenParts(b, si, publicEntry).value;
              && p.id == q.id == a.id && p.name == q.name && p.tags == q.tags && p.usages == q.usages
              && WritePublic(p.content) == WritePublic(q.content)
              && TypeOf(p.content) == TypeOf(q.content) == TypeOf(a.content)
              && p.containPrivateData == a.containPrivateData
              && SecretFields(p.content) == SecretFields(a.content)
  {
    ReadPublicIgnoresStart(a.content, b.content, publicEntry);
  }

  lemma BlankHasType(docType: string)
    ensures Blank(docType).Some? ==> TypeOf(Blank(docType).value) == docType
  {
  }

  /** A request that merges into a stored document parses on its own, to a document of the same type
      and id. */
  lemma MergeParses(si: Tree, stored: Doc)
    requires Load(si, Some(stored)).Success?
    ensures Load(si, None).Success?
    ensures Load(si, None).value.id == stored.id
    ensures TypeOf(Load(si, None).value.content) == TypeOf(stored.content)
    ensures WithoutSecret(Load(si, Some(stored)).value) == WithoutSecret(Load(si, None).value)
  {
    var docType, id := FindText(si, DOC_TYPE_ENTRY).value, FindText(si, DOC_ID_ENTRY).value;
    var publicEntry := FindMember(si, DOC_PUBLIC_ENTRY).value;
    BlankOfType(stored.content);
    var start := StartingFrom(docType, id, None).value;
    OpenPartsIgnoreStart(stored, start, si, publicEntry);
    var open, merged := ReadOpenParts(start, si, publicEntry).value, ReadOpenParts(stored, si, publicEntry).value;
    match FindMember(si, DOC_PRIVATE_ENTRY)
    case None =>
    case Some(section) =>
      ReadSecretFields(open.content, merged.content, section);
      ReadSecretFields(merged.content, open.content, section);
  }

  /** A request merges into a stored document exactly when it parses on its own and names the same
      type and id. */
  lemma MergeSucceeds(si: Tree, stored: Doc)
    ensures Load(si, Some(stored)).Success? <==>
            Load(si, None).Success?
            && Load(si, None).value.id == stored.id
            && TypeOf(Load(si, None).value.content) == TypeOf(stored.content)
  {
    if Load(si, Some(stored)).Success? {
      MergeParses(si, stored);
    } else if Load(si, None).Success? {
      var docType, id := FindText(si, DOC_TYPE_ENTRY).value, FindText(si, DOC_ID_ENTRY).value;
      var publicEntry := FindMember(si, DOC_PUBLIC_ENTRY).value;
      BlankHasType(docType);
      var start := StartingFrom(docType, id, None).value;
      OpenPartsIgnoreStart(start, start, si, publicEntry);
      var open := ReadOpenParts(start, si, publicEntry).value;
      if FindMember(si, DOC_PRIVATE_ENTRY).Some? {
        ReadSecretFields(open.content, open.content, FindMember(si, DOC_PRIVATE_ENTRY).value);
      }
      if docType == TypeOf(stored.content) && id == stored.id {
        OpenPartsIgnoreStart(start, stored, si, publicEntry);
        var merged := ReadOpenParts(stored, si, publicEntry).value;
        if FindMember(si, DOC_PRIVATE_ENTRY).Some? {
          ReadSecretFields(open.content, merged.content, FindMember(si, DOC_PRIVATE_ENTRY).value);
        }
      }
    }
  }

  lemma MergeSecrets(si: Tree, stored: Doc)
    requires Load(si, Some(stored)).Success?
    ensures var merged := Load(si, Some(stored)).value;
            && merged.containPrivateData == stored.containPrivateData
            && SecretFields(merged.content).Keys == SecretFields(stored.content).Keys
            && forall f | f in SecretFields(stored.content) ::
                 SecretFields(merged.content)[f] == RequestedSecret(si, f).GetOr(SecretFields(stored.content)[f])
  {
    var publicEntry := FindMember(si, DOC_PUBLIC_ENTRY).value;
    OpenPartsIgnoreStart(stored, stored, si, publicEntry);
    var open := ReadOpenParts(stored, si, publicEntry).value;
    match FindMember(si, DOC_PRIVATE_ENTRY)
    case None =>
    case Some(section) => ReadSecretFields(open.content, open.content, section);
  }

  lemma WithoutSecretShowsIdentity(a: Doc, b: Doc)
    requires WithoutSecret(a) == WithoutSecret(b)
    ensures a.id == b.id && TypeOf(a.content) == TypeOf(b.content) && a.name == b.name
    ensures a.tags == b.tags && a.usages == b.usages && WritePublic(a.content) == WritePublic(b.content)
  {
    WrittenCarries(a);
    WrittenCarries(b);
  }

  /** An update is a field-wise merge: header and public part become the request's, each secret field
      becomes the request's if present and else stays. */
  lemma MergeIsFieldWise(si: Tree, stored: Doc)
    requires Load(si, Some(stored)).Success?
    ensures Load(si, None).Success?
    ensures var request, merged := Load(si, None).value, Load(si, Some(stored)).value;
            && WithoutSecret(merged) == WithoutSecret(request)
            && merged.id == stored.id && TypeOf(merged.content) == TypeOf(stored.content)
            && merged.containPrivateData == stored.containPrivateData
            && SecretFields(merged.content).Keys == SecretFields(stored.content).Keys
            && forall f | f in SecretFields(stored.content) ::
                 SecretFields(merged.content)[f] == RequestedSecret(si, f).GetOr(SecretFields(stored.content)[f])
  {
    MergeParses(si, stored);
    MergeSecrets(si, stored);
    WithoutSecretShowsIdentity(Load(si, None).value, Load(si, Some(stored)).value);
  }

  lemma MergeCarried(si: Tree, seen: Doc, d: Doc)
    requires Carries(si, seen)
    requires seen.id == d.id && seen.name == d.name && seen.tags == d.tags && seen.usages == d.usages
    requires seen.content == d.content || seen.content == EraseSecrets(d.content)
    requires FindMember(si, DOC_PRIVATE_ENTRY) in {None, Some(Void)}
    ensures Load(si, Some(d)) == Success(d)
  {
    EmptySection(d.content);
    ReadCarried(si, seen, d);
  }

  /** Merging back what was read without secrets changes nothing. */
  lemma MergeOwnView(d: Doc)
    ensures Load(WithoutSecret(d), Some(d)) == Success(d)
  {
    WrittenCarries(d);
    MergeCarried(WithoutSecret(d), d, d);
  }

  /** Nor does merging back what a client parsed from that view and serialized again, with a secret
      section that is then empty. */
  lemma MergeOwnParsedView(d: Doc)
    ensures Load(WithoutSecret(d), None).Success?
    ensures Load(WithSecret(Load(WithoutSecret(d), None).value), Some(d)) == Success(d)
  {
    LoadWithoutSecret(d);
    var seen := Load(WithoutSecret(d), None).value;
    EmptySection(d.content);
    WithPrivateCarries(seen, Void);
    MergeCarried(WithSecret(seen), seen, d);
  }

  /** Nor does merging back the document with its secret. */
  lemma MergeOwnSecret(d: Doc)
    ensures Load(WithSecret(d), Some(d)) == Success(d)
  {
    WithPrivateCarries(d, WriteSecret(d.content));
    ReadCarried(WithSecret(d), d, d);
    SecretRoundTrip(d.content, d.content);
  }

  lemma EmptySection(c: Content)
    ensures WriteSecret(EraseSecrets(c)) == Void
    ensures ReadSecret(c, Void) == Success(c)
    ensures WritePublic(EraseSecrets(c)) == WritePublic(c)
    ensures TypeOf(EraseSecrets(c)) == TypeOf(c)
    ensures Combine(EraseSecrets(c), c) == c && Combine(c, c) == c
  {
    assert SecretMember(AUTH_PASSWORD, "") + SecretMember(PRIV_PASSWORD, "") == map[];
  }

  // ---------------------------------------------------------------- validity and comparison

  /** What a document lacked to be valid was never the mark itself. */
  lemma ValidityKept(w: World, d: Doc)
    requires IsValid(w, d)
    ensures IsValid(w, MarkPrivate(d))
  {
  }

  /** The texts of a content by the name of their member. */
  function TextFields(c: Content): map<string, string> {
    SecretFields(c) + match c
                      case Snmpv3(_, name, _, _, _, _) => map[SECURITY_NAME := name]
                      case Snmpv1(community) => map[COMMUNITY_NAME := community]
                      case UserAndPassword(username, _) => map[USERNAME := username]
                      case ExternalCertificate(pem) => map[EXTERNAL_PEM := pem]
                      case InternalCertificate(pem, _) => map[INTERNAL_PEM := pem]
  }

  /** The texts that may be left empty: the passwords a security level does not use. */
  function Optional(c: Content): set<string> {
    if !c.Snmpv3? || c.level == AUTH_PRIV then {}
    else if c.level == AUTH_NO_PRIV then {PRIV_PASSWORD}
    else {AUTH_PASSWORD, PRIV_PASSWORD}
  }

  predicate CertificateFits(w: World, c: Content) {
    match c
    case ExternalCertificate(pem) => w.certificateKey(pem).Some?
    case InternalCertificate(pem, key) => w.certificateKey(pem).Some? && w.certificateKey(pem) == w.privateKey(key)
    case _ => true
  }

  /** A document is valid exactly when no text but an optional one is empty, its certificate fits, and its
      secrets were received if its type has any; for snmpv3 having both passwords is as good. */
  lemma ValidIff(w: World, d: Doc)
    ensures IsValid(w, d) <==>
            && (forall f | f in TextFields(d.content) :: TextFields(d.content)[f] == "" ==> f in Optional(d.content))
            && CertificateFits(w, d.content)
            && (d.containPrivateData || SecretFields(d.content) == map[]
                || (d.content.Snmpv3? && forall f | f in SecretFields(d.content) :: SecretFields(d.content)[f] != ""))
  {
    var texts, secrets := TextFields(d.content), SecretFields(d.content);
    match d.content
    case Snmpv3(_, name, _, _, auth, priv) =>
      assert texts[SECURITY_NAME] == name && texts[AUTH_PASSWORD] == auth && texts[PRIV_PASSWORD] == priv;
      assert secrets[AUTH_PASSWORD] == auth && secrets[PRIV_PASSWORD] == priv;
    case Snmpv1(community) => assert texts[COMMUNITY_NAME] == community;
    case UserAndPassword(username, password) =>
      assert texts[USERNAME] == username && texts[PASSWORD] == password && PASSWORD in secrets;
    case ExternalCertificate(pem) => assert texts[EXTERNAL_PEM] == pem;
    case InternalCertificate(pem, key) =>
      assert texts[INTERNAL_PEM] == pem && texts[PRIVATE_KEY_PEM] == key && PRIVATE_KEY_PEM in secrets;
  }

  /** What is read of a document without its secret is itself a valid document exactly when the type has no
      secret. */
  lemma ViewIsValidIff(w: World, d: Doc)
    requires IsValid(w, d)
    ensures Load(WithoutSecret(d), None).Success?
    ensures IsValid(w, Load(WithoutSecret(d), None).value) <==> SecretFields(d.content) == map[]
  {
    LoadWithoutSecret(d);
    match d.content
    case Snmpv3(_, _, _, _, auth, _) => assert SecretFields(d.content)[AUTH_PASSWORD] == auth;
    case UserAndPassword(_, password) => assert SecretFields(d.content)[PASSWORD] == password;
    case InternalCertificate(_, key) => assert SecretFields(d.content)[PRIVATE_KEY_PEM] == key;
    case _ =>
  }

  lemma NonSecretEqualsIsEquality(w: World, a: Doc, b: Doc)
    requires w.Sound()
    ensures NonSecretEquals(w, a, b) <==> WritePublic(a.content) == WritePublic(b.content)
  {
    var p := Object(map[DOC_PUBLIC_ENTRY := WritePublic(a.content)]);
    var q := Object(map[DOC_PUBLIC_ENTRY := WritePublic(b.content)]);
    w.TextInjective(p, q);
    assert p == q ==> p.members[DOC_PUBLIC_ENTRY] == q.members[DOC_PUBLIC_ENTRY];
  }

  /** Comparing the written secrets is comparing the secret fields: an omitted one is empty. */
  lemma SecretEqualsIsEquality(w: World, a: Doc, b: Doc)
    requires w.Sound()
    ensures SecretEquals(w, a, b) <==>
            TypeOf(a.content) == TypeOf(b.content) && a.containPrivateData && b.containPrivateData
            && SecretFields(a.content) == SecretFields(b.content)
  {
    var p, q := WriteSecret(a.content), WriteSecret(b.content);
    var si, sj := Object(map[DOC_PRIVATE_ENTRY := p]), Object(map[DOC_PRIVATE_ENTRY := q]);
    w.TextInjective(si, sj);
    assert si == sj ==> si.members[DOC_PRIVATE_ENTRY] == sj.members[DOC_PRIVATE_ENTRY];
    if TypeOf(a.content) == TypeOf(b.content) {
      SecretsDetermined(a.content, b.content);
    }
  }

  lemma SecretsDetermined(c: Content, d: Content)
    requires TypeOf(c) == TypeOf(d)
    ensures WriteSecret(c) == WriteSecret(d) <==> SecretFields(c) == SecretFields(d)
  {
    if WriteSecret(c) == WriteSecret(d) {
      SecretRoundTrip(c, EraseSecrets(c));
      SecretRoundTrip(d, EraseSecrets(d));
      ReadSecretFields(EraseSecrets(c), EraseSecrets(d), WriteSecret(c));
      ReadSecretFields(EraseSecrets(d), EraseSecrets(c), WriteSecret(c));
    }
    if SecretFields(c) == SecretFields(d) {
      var p, q := SecretFields(c), SecretFields(d);
      match c
      case Snmpv3(_, _, _, _, _, _) =>
        assert p[AUTH_PASSWORD] == q[AUTH_PASSWORD] && p[PRIV_PASSWORD] == q[PRIV_PASSWORD];
      case UserAndPassword(_, _) => assert p[PASSWORD] == q[PASSWORD];
      case InternalCertificate(_, _) => assert p[PRIVATE_KEY_PEM] == q[PRIVATE_KEY_PEM];
      case _ =>
    }
  }
}
