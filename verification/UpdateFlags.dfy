/** What the two flags of an update notification say about the stored document. */
module UpdateFlags {
  import opened DocumentLaws
  import opened Documents
  import opened Environment
  import opened Notifications
  import opened Portfolios
  import opened Serialization
  import opened ServerSteps
  import opened StepLaws
  import opened WalletLaws
  import opened Wallets
  import opened Wrappers

  /** A document read from scratch holds the secrets that were sent, and empty ones for the others. */
  lemma LoadedSecrets(si: Tree)
    requires Load(si, None).Success?
    ensures var request := Load(si, None).value;
            && request.containPrivateData == FindMember(si, DOC_PRIVATE_ENTRY).Some?
            && forall f | f in SecretFields(request.content) ::
                 SecretFields(request.content)[f] == RequestedSecret(si, f).GetOr("")
  {
    var docType, id := FindText(si, DOC_TYPE_ENTRY).value, FindText(si, DOC_ID_ENTRY).value;
    var publicEntry := FindMember(si, DOC_PUBLIC_ENTRY).value;
    var start := StartingFrom(docType, id, None).value;
    NewHasNoSecrets(docType);
    OpenPartsIgnoreStart(start, start, si, publicEntry);
    var open := ReadOpenParts(start, si, publicEntry).value;
    match FindMember(si, DOC_PRIVATE_ENTRY)
    case None =>
    case Some(section) => ReadSecretFields(open.content, open.content, section);
  }

  lemma NewHasNoSecrets(docType: string)
    ensures Blank(docType).Some? ==>
              forall f | f in SecretFields(Blank(docType).value) :: SecretFields(Blank(docType).value)[f] == ""
  {
  }

  lemma SameTypeSameSecrets(c: Content, d: Content)
    requires TypeOf(c) == TypeOf(d)
    ensures SecretFields(c).Keys == SecretFields(d).Keys
  {
  }

  /** The request says again, with an empty value for what it leaves out, each secret that is stored. */
  ghost predicate RestatesSecrets(si: Tree, stored: Doc) {
    && FindMember(si, DOC_PRIVATE_ENTRY).Some? && stored.containPrivateData
    && forall f | f in SecretFields(stored.content) ::
         RequestedSecret(si, f).GetOr("") == SecretFields(stored.content)[f]
  }

  /** The comparison behind `secret_changed`, in terms of the request. */
  lemma SecretFlag(w: World, si: Tree, stored: Doc)
    requires w.Sound() && Load(si, Some(stored)).Success?
    ensures Load(si, None).Success?
    ensures SecretEquals(w, Load(si, None).value, stored) <==> RestatesSecrets(si, stored)
  {
    MergeParses(si, stored);
    var request := Load(si, None).value;
    LoadedSecrets(si);
    SecretEqualsIsEquality(w, request, stored);
    SameTypeSameSecrets(request.content, stored.content);
  }

  /** The request sends, for some secret, another value than the one stored. */
  ghost predicate SendsOtherSecret(si: Tree, stored: Doc) {
    exists f :: f in SecretFields(stored.content) && RequestedSecret(si, f).Some?
                && RequestedSecret(si, f).value != SecretFields(stored.content)[f]
  }

  /** A merge changes a secret exactly if the request sends another one. */
  lemma MergeChangesSecretIff(si: Tree, stored: Doc)
    requires Load(si, Some(stored)).Success?
    ensures SecretFields(Load(si, Some(stored)).value.content) != SecretFields(stored.content)
       <==> SendsOtherSecret(si, stored)
  {
    MergeIsFieldWise(si, stored);
    SameFieldsIff(SecretFields(Load(si, Some(stored)).value.content), SecretFields(stored.content));
  }

  lemma SameFieldsIff(a: map<string, string>, b: map<string, string>)
    requires a.Keys == b.Keys
    ensures a == b <==> forall f | f in b :: a[f] == b[f]
  {
  }

  /** A secret that is restated is not changed by the merge. */
  lemma RestatedIsUnchanged(si: Tree, stored: Doc)
    requires Load(si, Some(stored)).Success? && RestatesSecrets(si, stored)
    ensures SecretFields(Load(si, Some(stored)).value.content) == SecretFields(stored.content)
  {
    MergeIsFieldWise(si, stored);
    var merged := Load(si, Some(stored)).value;
    forall f | f in SecretFields(stored.content)
      ensures SecretFields(merged.content)[f] == SecretFields(stored.content)[f]
    {
      if RequestedSecret(si, f).Some? {
        assert RequestedSecret(si, f).GetOr("") == SecretFields(stored.content)[f];
      }
    }
  }

  lemma CommittedTarget(w: World, st: State, after: State, name: string, p: Portfolio, note: string)
    requires Commits(w, st, after, name, p, note)
    ensures HasPortfolio(after.wallet.portfolios, name) && Target(after, name) == p
  {
    var ps := st.wallet.portfolios;
    SameNames(ps, ps[FirstNamed(ps, name) := p], name);
  }

  /** The tree published for an update. */
  function PublishedTree(w: World, portfolio: string, before: Doc, request: Doc): Tree {
    UpdatedTree(portfolio, WithoutSecret(before), WithoutSecret(request),
                !NonSecretEquals(w, request, before), !SecretEquals(w, request, before))
  }

  /** What the notification of a merge says. */
  ghost predicate SaysChange(note: Tree, si: Tree, before: Doc, now: Doc) {
    && FindMember(note, "old_data") == Some(WithoutSecret(before))
    && FindMember(note, "new_data") == Some(WithoutSecret(now))
    && FindBoolean(note, "non_secret_changed") == Some(WritePublic(now.content) != WritePublic(before.content))
    && FindBoolean(note, "secret_changed") == Some(!RestatesSecrets(si, before))
    && (SecretFields(now.content) != SecretFields(before.content) <==> SendsOtherSecret(si, before))
    && (SecretFields(now.content) != SecretFields(before.content) ==> FindBoolean(note, "secret_changed") == Some(true))
  }

  lemma MergeNotification(w: World, portfolio: string, si: Tree, before: Doc)
    requires w.Sound() && Load(si, Some(before)).Success?
    ensures Load(si, None).Success?
    ensures SaysChange(PublishedTree(w, portfolio, before, Load(si, None).value), si, before,
                       Load(si, Some(before)).value)
  {
    MergeIsFieldWise(si, before);
    var request, now := Load(si, None).value, Load(si, Some(before)).value;
    UpdatedMembers(portfolio, WithoutSecret(before), WithoutSecret(request),
                   !NonSecretEquals(w, request, before), !SecretEquals(w, request, before));
    WithoutSecretShowsIdentity(now, request);
    NonSecretEqualsIsEquality(w, request, before);
    SecretFlag(w, si, before);
    MergeChangesSecretIff(si, before);
    if RestatesSecrets(si, before) {
      RestatedIsUnchanged(si, before);
    }
  }

  lemma UpdateStores(p: Portfolio, d: Doc)
    requires Update(p, d).Success?
    ensures GetDocument(Update(p, d).value, d.id) == Success(d)
  {
  }

  lemma RequestTree(w: World, json: string, si: Tree, doc: Doc)
    requires ReadRequest(w, json) == Success((si, doc))
    ensures Deserialize(w, json) == Success(si)
  {
  }

  lemma MergedHasId(si: Tree, before: Doc)
    requires Load(si, Some(before)).Success?
    ensures Load(si, None).Success? && Load(si, None).value.id == Load(si, Some(before)).value.id
  {
    MergeIsFieldWise(si, before);
    WithoutSecretShowsIdentity(Load(si, Some(before)).value, Load(si, None).value);
  }

  /** After a successful update: `non_secret_changed` is true exactly when the stored public part changed;
      `secret_changed` is false exactly when the request restates the stored secrets, so it is true
      whenever a stored secret changed. */
  lemma FlagsTellChange(w: World, st: State, sender: string, params: Params)
    returns (si: Tree, before: Doc, now: Doc, note: Tree)
    requires w.Sound() && UpdateDocument(w, st, sender, params).Success?
    ensures var after := UpdateDocument(w, st, sender, params).value.0;
            && Deserialize(w, params[1]) == Success(si)
            && after.published == st.published + [Serialize(w, note)]
            && HasPortfolio(st.wallet.portfolios, params[0]) && HasPortfolio(after.wallet.portfolios, params[0])
            && GetDocument(Target(st, params[0]), now.id) == Success(before)
            && GetDocument(Target(after, params[0]), now.id) == Success(now)
    ensures SaysChange(note, si, before, now)
  {
    var request, p;
    si, request, before, now, p := UpdateParts(w, st, sender, params);
    note := PublishedTree(w, params[0], before, request);
    MergeNotification(w, params[0], si, before);
    CommittedTarget(w, st, UpdateDocument(w, st, sender, params).value.0, params[0], p, Serialize(w, note));
    UpdateStores(Target(st, params[0]), now);
    RequestTree(w, params[1], si, request);
    MergedHasId(si, before);
  }

  /** The flag agrees with what happened to the secrets if and only if the request restates all of them or
      sends another value for one; else nothing changed and the flag says it did. */
  lemma SecretFlagIsRightIff(w: World, portfolio: string, si: Tree, before: Doc)
    requires w.Sound() && Load(si, Some(before)).Success?
    ensures Load(si, None).Success?
    ensures var note, now := PublishedTree(w, portfolio, before, Load(si, None).value), Load(si, Some(before)).value;
            && (FindBoolean(note, "secret_changed") == Some(SecretFields(now.content) != SecretFields(before.content))
                <==> RestatesSecrets(si, before) || SendsOtherSecret(si, before))
            && (!RestatesSecrets(si, before) && !SendsOtherSecret(si, before) ==>
                  SecretFields(now.content) == SecretFields(before.content)
                  && FindBoolean(note, "secret_changed") == Some(true))
  {
    MergeNotification(w, portfolio, si, before);
    MergeChangesSecretIff(si, before);
  }

  /** One family in which the flag is wrong: the request has no secret section. */
  lemma UpdateWithoutSecretSectionIsFlagged(w: World, si: Tree, stored: Doc)
    requires w.Sound() && Load(si, Some(stored)).Success? && FindMember(si, DOC_PRIVATE_ENTRY) == None
    ensures !RestatesSecrets(si, stored) && !SendsOtherSecret(si, stored)
    ensures Load(si, None).Success? && !SecretEquals(w, Load(si, None).value, stored)
  {
    SecretFlag(w, si, stored);
  }

  /** Another: the stored document was received without its secrets, and the request sends none that
      differs. */
  lemma UnmarkedIsFlagged(w: World, si: Tree, stored: Doc)
    requires w.Sound() && Load(si, Some(stored)).Success? && !stored.containPrivateData && !SendsOtherSecret(si, stored)
    ensures !RestatesSecrets(si, stored)
    ensures SecretFields(Load(si, Some(stored)).value.content) == SecretFields(stored.content)
    ensures Load(si, None).Success? && !SecretEquals(w, Load(si, None).value, stored)
  {
    SecretFlag(w, si, stored);
    MergeChangesSecretIff(si, stored);
  }
}
