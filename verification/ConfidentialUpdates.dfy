/** When an update hides from a client the secrets it may not read. */
module ConfidentialUpdates {
  import opened Confidentiality
  import opened ConfidentialSteps
  import opened DocumentLaws
  import opened Documents
  import opened Encryption
  import opened Environment
  import opened Errors
  import opened Portfolios
  import opened ReadPaths
  import opened Serialization
  import opened ServerSteps
  import opened StepLaws
  import opened UpdateFlags
  import opened Wallets
  import opened Wrappers

  // ---------------------------------------------------------------- update

  lemma OpenPartsFailAlike(d: Doc, e: Doc, si: Tree, publicEntry: Tree)
    requires TypeOf(d.content) == TypeOf(e.content)
    ensures ReadOpenParts(d, si, publicEntry).Failure? ==>
              ReadOpenParts(e, si, publicEntry) == ReadOpenParts(d, si, publicEntry)
  {
  }

  lemma SecretsFailAlike(c: Content, d: Content, si: Tree)
    requires TypeOf(c) == TypeOf(d)
    ensures ReadSecret(c, si).Failure? ==> ReadSecret(d, si) == ReadSecret(c, si)
  {
  }

  /** Merged into two documents of one view, a request fails in the same way or gives one view again. */
  lemma MergeAlike(si: Tree, d: Doc, e: Doc)
    requires d.id == e.id && TypeOf(d.content) == TypeOf(e.content)
    ensures match Load(si, Some(d))
            case Success(m) => && Load(si, None).Success? && Load(si, Some(e)).Success?
                               && WithoutSecret(m) == WithoutSecret(Load(si, Some(e)).value)
                               && m.usages == Load(si, None).value.usages
            case Failure(error) => Load(si, Some(e)) == Failure(error)
  {
    MergeSucceeds(si, d);
    MergeSucceeds(si, e);
    if Load(si, Some(d)).Success? {
      MergeIsFieldWise(si, d);
      MergeIsFieldWise(si, e);
      WithoutSecretShowsIdentity(Load(si, Some(d)).value, Load(si, None).value);
    } else if FindMember(si, DOC_PUBLIC_ENTRY).Some? {
      var publicEntry := FindMember(si, DOC_PUBLIC_ENTRY).value;
      OpenPartsFailAlike(d, e, si, publicEntry);
      OpenPartsFailAlike(e, d, si, publicEntry);
      OpenPartsIgnoreStart(d, e, si, publicEntry);
      if ReadOpenParts(d, si, publicEntry).Success? && FindMember(si, DOC_PRIVATE_ENTRY).Some? {
        SecretsFailAlike(ReadOpenParts(d, si, publicEntry).value.content,
                         ReadOpenParts(e, si, publicEntry).value.content,
                         FindMember(si, DOC_PRIVATE_ENTRY).value);
      }
    }
  }

  /** The stored document with the request merged into it, before it is validated. */
  function MergeStored(stored: Doc, si: Tree, doc: Doc, allowed: set<string>): Reading<Doc> {
    var changed := SymmetricDifference(doc.usages, stored.usages);
    :- CheckUsages(changed, allowed);
    Load(si, Some(stored))
  }

  /** The request, the document it is about, and the two merged. */
  function Merge(w: World, p: Portfolio, json: string, allowed: set<string>): Reading<(Tree, Doc, Doc)> {
    var (si, doc) :- ReadRequest(w, json);
    var stored :- GetDocument(p, doc.id);
    var merged :- MergeStored(stored, si, doc, allowed);
    Success((si, stored, merged))
  }

  lemma MergedThenValidated(w: World, p: Portfolio, json: string, allowed: set<string>)
    ensures match Merge(w, p, json, allowed)
            case Failure(e) => ReadMerged(w, p, json, allowed) == Failure(e)
            case Success((si, stored, merged)) =>
              match Validate(w, merged)
              case Fail(e) => ReadMerged(w, p, json, allowed) == Failure(e)
              case Pass => && Load(si, None).Success?
                           && ReadMerged(w, p, json, allowed) == Success((Load(si, None).value, stored, merged))
  {
  }

  lemma SameMergeStored(d: Doc, e: Doc, si: Tree, doc: Doc, allowed: set<string>)
    requires d.id == e.id && TypeOf(d.content) == TypeOf(e.content) && d.usages == e.usages
    requires Load(si, None) == Success(doc)
    ensures MergeStored(d, si, doc, allowed).Success? ==> doc.id == d.id
    ensures match MergeStored(d, si, doc, allowed)
            case Success(m) => && Load(si, Some(d)) == Success(m) && MergeStored(e, si, doc, allowed).Success?
                               && Load(si, Some(e)) == MergeStored(e, si, doc, allowed)
                               && WithoutSecret(m) == WithoutSecret(Load(si, Some(e)).value)
            case Failure(error) => MergeStored(e, si, doc, allowed) == Failure(error)
  {
    MergeAlike(si, d, e);
    MergeSucceeds(si, d);
  }

  lemma RequestLoads(w: World, json: string)
    requires ReadRequest(w, json).Success?
    ensures Load(ReadRequest(w, json).value.0, None) == Success(ReadRequest(w, json).value.1)
  {
  }

  /** Two merges of one request into documents that are the same to the observer. */
  ghost predicate SameMerges(usages: set<string>, p: Portfolio, q: Portfolio, a: (Tree, Doc, Doc),
                             b: (Tree, Doc, Doc)) {
    var (si, d, m) := a;
    var (sj, e, n) := b;
    && sj == si && d.id in p.byId && d.id in q.byId && d == p.byId[d.id] && e == q.byId[d.id]
    && SameTo(usages, d, e)
    && Load(si, Some(d)) == Success(m) && Load(si, Some(e)) == Success(n) && WithoutSecret(m) == WithoutSecret(n)
  }

  lemma SameMerge(w: World, usages: set<string>, p: Portfolio, q: Portfolio, json: string, allowed: set<string>)
    requires SamePortfolio(usages, p, q)
    ensures match Merge(w, p, json, allowed)
            case Success(a) => Merge(w, q, json, allowed).Success?
                               && SameMerges(usages, p, q, a, Merge(w, q, json, allowed).value)
            case Failure(error) => Merge(w, q, json, allowed) == Failure(error)
  {
    if ReadRequest(w, json).Success? {
      RequestLoads(w, json);
      var (si, doc) := ReadRequest(w, json).value;
      if doc.id in p.byId {
        var d, e := p.byId[doc.id], q.byId[doc.id];
        SameView(usages, d, e);
        SameMergeStored(d, e, si, doc, allowed);
      }
    }
  }

  /** What becomes of a merge. */
  function Finish(w: World, st: State, k: nat, name: string, a: (Tree, Doc, Doc)): Stepped
    requires k < |st.wallet.portfolios| && Load(a.0, None).Success?
  {
    match Validate(w, a.2)
    case Fail(e) => Failure(e)
    case Pass =>
      match Update(st.wallet.portfolios[k], a.2)
      case Failure(e) => Failure(e)
      case Success(p) => Success((Commit(w, st, k, p, UpdatedNote(w, name, a.1, Load(a.0, None).value)), "OK"))
  }

  lemma UpdateInParts(w: World, st: State, k: nat, allowed: set<string>, name: string, json: string)
    requires k < |st.wallet.portfolios|
    ensures match Merge(w, st.wallet.portfolios[k], json, allowed)
            case Failure(e) => UpdateIn(w, st, k, allowed, name, json) == Failure(e)
            case Success(a) => Load(a.0, None).Success?
                               && UpdateIn(w, st, k, allowed, name, json) == Finish(w, st, k, name, a)
  {
    if ReadRequest(w, json).Success? { RequestLoads(w, json); }
    MergedThenValidated(w, st.wallet.portfolios[k], json, allowed);
  }

  lemma SamePutIff(usages: set<string>, p: Portfolio, q: Portfolio, m: Doc, n: Doc)
    requires SamePortfolio(usages, p, q) && WithoutSecret(m) == WithoutSecret(n)
    ensures SamePortfolio(usages, Put(p, m.id, m), Put(q, n.id, n)) <==> SameTo(usages, m, n)
  {
    WithoutSecretShowsIdentity(m, n);
    if SameTo(usages, m, n) {
      SamePut(usages, p, q, m.id, m, n);
    } else {
      assert Put(p, m.id, m).byId[m.id] == m && Put(q, n.id, n).byId[m.id] == n;
    }
  }

  lemma SameIndexFreed(usages: set<string>, a: map<string, Doc>, b: map<string, Doc>, name: string)
    requires SameIndex(usages, a, b)
    ensures SameIndex(usages, a - {name}, b - {name})
  {
    var rest, other := a - {name}, b - {name};
    assert rest.Keys == other.Keys;
    forall n | n in rest ensures SameTo(usages, rest[n], other[n]) {
      var d, e := a[n], b[n];
      assert SameTo(usages, d, e);
      assert rest[n] == d && other[n] == e;
    }
  }

  lemma SameFreed(usages: set<string>, p: Portfolio, q: Portfolio, name: string)
    requires SamePortfolio(usages, p, q)
    ensures SamePortfolio(usages, p.(byName := p.byName - {name}), q.(byName := q.byName - {name}))
  {
    SameIndexFreed(usages, p.byName, q.byName, name);
  }

  lemma UpdateFails(p: Portfolio, m: Doc)
    requires m.id in p.byId
    ensures Update(p, m).Failure? <==> m.name != p.byId[m.id].name && m.name in p.byName
    ensures Update(p, m).Failure? ==> Update(p, m) == Failure(NameAlreadyExistsError(m.name))
  {
  }

  lemma SameUpdateFails(usages: set<string>, p: Portfolio, q: Portfolio, m: Doc, n: Doc)
    requires SamePortfolio(usages, p, q) && WithoutSecret(m) == WithoutSecret(n) && m.id in p.byId
    ensures Update(p, m).Success? <==> Update(q, n).Success?
    ensures Update(p, m).Failure? ==> Update(q, n) == Update(p, m) && Update(p, m).error.code == NameAlreadyExists
  {
    WithoutSecretShowsIdentity(m, n);
    UpdateFails(p, m);
    UpdateFails(q, n);
    SameView(usages, p.byId[m.id], q.byId[m.id]);
  }

  lemma SameUpdatedIff(usages: set<string>, p: Portfolio, q: Portfolio, m: Doc, n: Doc)
    requires SamePortfolio(usages, p, q) && WithoutSecret(m) == WithoutSecret(n) && m.id in p.byId
    requires Update(p, m).Success? && Update(q, n).Success?
    ensures Update(p, m).value.name == p.name
    ensures SamePortfolio(usages, Update(p, m).value, Update(q, n).value) <==> SameTo(usages, m, n)
  {
    WithoutSecretShowsIdentity(m, n);
    SameView(usages, p.byId[m.id], q.byId[m.id]);
    var former := p.byId[m.id].name;
    if m.name == former {
      SamePutIff(usages, p, q, m, n);
    } else {
      SameFreed(usages, p, q, former);
      SamePutIff(usages, p.(byName := p.byName - {former}), q.(byName := q.byName - {former}), m, n);
    }
  }

  lemma SameUpdatedNotesIff(w: World, name: string, d: Doc, e: Doc, request: Doc)
    requires w.Sound() && WithoutSecret(d) == WithoutSecret(e)
    ensures UpdatedNote(w, name, d, request) == UpdatedNote(w, name, e, request)
       <==> SecretEquals(w, request, d) == SecretEquals(w, request, e)
  {
    WithoutSecretShowsIdentity(d, e);
    var former, requested := WithoutSecret(d), WithoutSecret(request);
    var a := UpdatedTree(name, former, requested, !NonSecretEquals(w, request, d), !SecretEquals(w, request, d));
    var b := UpdatedTree(name, former, requested, !NonSecretEquals(w, request, d), !SecretEquals(w, request, e));
    assert a.members["secret_changed"] == Boolean(!SecretEquals(w, request, d));
    assert b.members["secret_changed"] == Boolean(!SecretEquals(w, request, e));
    w.TextInjective(a, b);
  }

  lemma SameCommitIff(w: World, st: State, su: State, observer: string, k: nat, p: Portfolio, q: Portfolio,
                      note: string, other: string)
    requires Alike(w, st, su, observer) && k < |st.wallet.portfolios| && p.name == st.wallet.portfolios[k].name
    ensures Alike(w, Commit(w, st, k, p, note), Commit(w, su, k, q, other), observer)
       <==> note == other && SamePortfolio(Consumable(w, st, p.name, observer), p, q)
  {
    var after, afterOther := Commit(w, st, k, p, note), Commit(w, su, k, q, other);
    assert after.wallet.portfolios[k] == p && afterOther.wallet.portfolios[k] == q;
    assert Consumable(w, after, p.name, observer) == Consumable(w, st, p.name, observer);
    if note == other && SamePortfolio(Consumable(w, st, p.name, observer), p, q) {
      SameCommit(w, st, su, observer, k, p, q, note);
    } else {
      assert after.published[|st.published|] == note && afterOther.published[|su.published|] == other;
    }
  }

  lemma ValidationError(w: World, d: Doc)
    ensures Validate(w, d).Fail? ==> Validate(w, d).error.code == InvalidDocumentFormat
  {
  }

  /** Of two documents that look the same, the one stored does not show in an update: both merges are judged
      alike; and if they are stored, the request restates the secrets of both or of neither, and whoever may
      then read the result finds the same in both. */
  ghost predicate Hides(w: World, usages: set<string>, p: Portfolio, a: (Tree, Doc, Doc), b: (Tree, Doc, Doc)) {
    var (si, d, m) := a;
    var (sj, e, n) := b;
    && Validate(w, m) == Validate(w, n)
    && (IsValid(w, m) && Update(p, m).Success? ==>
          (RestatesSecrets(si, d) <==> RestatesSecrets(si, e)) && (m.usages * usages != {} ==> m == n))
  }

  /** The merges are stored. */
  lemma StoredHidesIff(w: World, st: State, su: State, observer: string, k: nat, name: string, a: (Tree, Doc, Doc),
                       b: (Tree, Doc, Doc))
    requires w.Sound() && Alike(w, st, su, observer) && k < |st.wallet.portfolios|
             && st.wallet.portfolios[k].name == name
    requires SameMerges(Consumable(w, st, name, observer), st.wallet.portfolios[k], su.wallet.portfolios[k], a, b)
    requires Load(a.0, None).Success? && a.2.id in st.wallet.portfolios[k].byId
    requires Update(st.wallet.portfolios[k], a.2).Success? && Update(su.wallet.portfolios[k], b.2).Success?
    ensures var after := Commit(w, st, k, Update(st.wallet.portfolios[k], a.2).value,
                                UpdatedNote(w, name, a.1, Load(a.0, None).value));
            var afterOther := Commit(w, su, k, Update(su.wallet.portfolios[k], b.2).value,
                                     UpdatedNote(w, name, b.1, Load(b.0, None).value));
            (Alike(w, after, afterOther, observer)
             <==> (RestatesSecrets(a.0, a.1) <==> RestatesSecrets(a.0, b.1))
                  && (a.2.usages * Consumable(w, st, name, observer) != {} ==> a.2 == b.2))
  {
    var usages, p, q := Consumable(w, st, name, observer), st.wallet.portfolios[k], su.wallet.portfolios[k];
    var (si, d, m) := a;
    var (sj, e, n) := b;
    var request := Load(si, None).value;
    SecretFlag(w, si, d);
    SecretFlag(w, si, e);
    SameUpdatedIff(usages, p, q, m, n);
    SameUpdatedNotesIff(w, name, d, e, request);
    SameCommitIff(w, st, su, observer, k, Update(p, m).value, Update(q, n).value,
                  UpdatedNote(w, name, d, request), UpdatedNote(w, name, e, request));
  }

  lemma Finished(w: World, st: State, k: nat, name: string, a: (Tree, Doc, Doc))
    requires k < |st.wallet.portfolios| && Load(a.0, None).Success?
    ensures !IsValid(w, a.2) ==> Finish(w, st, k, name, a) == Failure(Validate(w, a.2).error)
    ensures IsValid(w, a.2) && Update(st.wallet.portfolios[k], a.2).Failure? ==>
              Finish(w, st, k, name, a) == Failure(Update(st.wallet.portfolios[k], a.2).error)
    ensures IsValid(w, a.2) && Update(st.wallet.portfolios[k], a.2).Success? ==>
              Finish(w, st, k, name, a)
              == Success((Commit(w, st, k, Update(st.wallet.portfolios[k], a.2).value,
                                 UpdatedNote(w, name, a.1, Load(a.0, None).value)), "OK"))
  {
  }

  /** Unless both are stored, two updates come to the same exactly if both merges are judged alike. */
  lemma RefusedAlikeIff(w: World, observer: string, v: Outcome<SecwException>, u: Outcome<SecwException>, x: Stepped,
                        y: Stepped)
    requires v.Fail? ==> x == Failure(v.error) && v.error.code == InvalidDocumentFormat
    requires u.Fail? ==> y == Failure(u.error) && u.error.code == InvalidDocumentFormat
    requires v.Pass? && x.Failure? ==> x.error.code == NameAlreadyExists
    requires u.Pass? && y.Failure? ==> y.error.code == NameAlreadyExists
    requires v.Pass? && u.Pass? ==> (x.Success? <==> y.Success?) && (x.Failure? ==> y == x)
    ensures !(v.Pass? && u.Pass? && x.Success?) ==> (SameStep(w, observer, x, y) <==> v == u)
  {
  }

  lemma FinishAlikeIff(w: World, st: State, su: State, observer: string, k: nat, name: string, a: (Tree, Doc, Doc),
                       b: (Tree, Doc, Doc))
    requires w.Sound() && Alike(w, st, su, observer) && k < |st.wallet.portfolios|
             && st.wallet.portfolios[k].name == name
    requires Load(a.0, None).Success?
    requires SameMerges(Consumable(w, st, name, observer), st.wallet.portfolios[k], su.wallet.portfolios[k], a, b)
    ensures var x, y := Finish(w, st, k, name, a), Finish(w, su, k, name, b);
            var stored := IsValid(w, a.2) && Update(st.wallet.portfolios[k], a.2).Success?;
            && (!(stored && IsValid(w, b.2)) ==>
                  (SameStep(w, observer, x, y) <==> Validate(w, a.2) == Validate(w, b.2)))
            && (stored && IsValid(w, b.2) ==>
                  (SameStep(w, observer, x, y)
                   <==> (RestatesSecrets(a.0, a.1) <==> RestatesSecrets(a.0, b.1))
                        && (a.2.usages * Consumable(w, st, name, observer) != {} ==> a.2 == b.2)))
  {
    var p, q := st.wallet.portfolios[k], su.wallet.portfolios[k];
    assert SamePortfolio(Consumable(w, st, name, observer), p, q);
    Finished(w, st, k, name, a);
    Finished(w, su, k, name, b);
    MergeIsFieldWise(a.0, a.1);
    SameUpdateFails(Consumable(w, st, name, observer), p, q, a.2, b.2);
    ValidationError(w, a.2);
    ValidationError(w, b.2);
    RefusedAlikeIff(w, observer, Validate(w, a.2), Validate(w, b.2), Finish(w, st, k, name, a),
                    Finish(w, su, k, name, b));
    if IsValid(w, a.2) && IsValid(w, b.2) && Update(p, a.2).Success? {
      StoredHidesIff(w, st, su, observer, k, name, a, b);
    }
  }

  lemma FinishHidesIff(w: World, st: State, su: State, observer: string, k: nat, name: string, a: (Tree, Doc, Doc),
                       b: (Tree, Doc, Doc))
    requires w.Sound() && Alike(w, st, su, observer) && k < |st.wallet.portfolios|
             && st.wallet.portfolios[k].name == name
    requires Load(a.0, None).Success?
    requires SameMerges(Consumable(w, st, name, observer), st.wallet.portfolios[k], su.wallet.portfolios[k], a, b)
    ensures SameStep(w, observer, Finish(w, st, k, name, a), Finish(w, su, k, name, b))
       <==> Hides(w, Consumable(w, st, name, observer), st.wallet.portfolios[k], a, b)
  {
    FinishAlikeIff(w, st, su, observer, k, name, a, b);
  }

  /** If the request gets as far as the merge. */
  ghost predicate MergesHide(w: World, usages: set<string>, p: Portfolio, q: Portfolio, json: string,
                             allowed: set<string>) {
    Merge(w, p, json, allowed).Success? && Merge(w, q, json, allowed).Success? ==>
      Hides(w, usages, p, Merge(w, p, json, allowed).value, Merge(w, q, json, allowed).value)
  }

  lemma UpdateInHidesIff(w: World, st: State, su: State, observer: string, k: nat, allowed: set<string>, name: string,
                         json: string)
    requires w.Sound() && Alike(w, st, su, observer) && k < |st.wallet.portfolios|
             && st.wallet.portfolios[k].name == name
    ensures var p, q := st.wallet.portfolios[k], su.wallet.portfolios[k];
            (SameStep(w, observer, UpdateIn(w, st, k, allowed, name, json), UpdateIn(w, su, k, allowed, name, json))
             <==> MergesHide(w, Consumable(w, st, name, observer), p, q, json, allowed))
  {
    var usages, p, q := Consumable(w, st, name, observer), st.wallet.portfolios[k], su.wallet.portfolios[k];
    assert SamePortfolio(usages, p, q);
    UpdateInParts(w, st, k, allowed, name, json);
    UpdateInParts(w, su, k, allowed, name, json);
    SameMerge(w, usages, p, q, json, allowed);
    if Merge(w, p, json, allowed).Success? {
      FinishHidesIff(w, st, su, observer, k, name, Merge(w, p, json, allowed).value, Merge(w, q, json, allowed).value);
    }
  }

  /** The stored documents do not show in this update to the observer. */
  ghost predicate UpdateHides(w: World, st: State, su: State, observer: string, sender: string, params: Params) {
    OpenForChange(w, st, sender, params).Success? && HasPortfolio(su.wallet.portfolios, params[0]) ==>
      MergesHide(w, Consumable(w, st, params[0], observer), Target(st, params[0]), Target(su, params[0]), params[1],
                 Producible(w, st, params[0], sender))
  }

  /** An update comes to the same for the observer, in its answer, its notification and the state it leaves, if
      and only if the stored documents do not show in it. */
  lemma UpdateHidesIff(w: World, st: State, su: State, observer: string, sender: string, params: Params)
    requires w.Sound() && Alike(w, st, su, observer)
    ensures SameStep(w, observer, UpdateDocument(w, st, sender, params), UpdateDocument(w, su, sender, params))
       <==> UpdateHides(w, st, su, observer, sender, params)
  {
    SameOpen(w, st, su, observer, sender, params);
    if OpenForChange(w, st, sender, params).Success? {
      OpenParts(w, st, sender, params);
      SameTargets(w, st, su, observer, params[0]);
      UpdateInHidesIff(w, st, su, observer, FirstNamed(st.wallet.portfolios, params[0]),
                       Producible(w, st, params[0], sender), params[0], params[1]);
    }
  }

  /** An update of a document that the observer may read hides nothing from it, nor from anybody. */
  lemma ReadableUpdateHides(w: World, usages: set<string>, p: Portfolio, q: Portfolio, json: string,
                            allowed: set<string>)
    requires SamePortfolio(usages, p, q)
    requires Merge(w, p, json, allowed).Success? ==> Merge(w, p, json, allowed).value.1.usages * usages != {}
    ensures MergesHide(w, usages, p, q, json, allowed)
  {
    SameMerge(w, usages, p, q, json, allowed);
  }

  /** A document sent with its secret restates the secrets stored exactly where they are its own. */
  lemma OwnSecretRestated(d: Doc, e: Doc)
    requires d.containPrivateData && TypeOf(d.content) == TypeOf(e.content)
    ensures RestatesSecrets(WithSecret(d), d)
    ensures RestatesSecrets(WithSecret(d), e) ==> SecretFields(d.content) == SecretFields(e.content)
  {
    LoadWithSecret(d);
    LoadedSecrets(WithSecret(d));
    SameTypeSameSecrets(d.content, e.content);
    WithPrivateCarries(d, WriteSecret(d.content));
    assert MarkPrivate(d) == d;
  }

  lemma OwnMerge(w: World, p: Portfolio, d: Doc, allowed: set<string>)
    requires w.Sound() && d.id in p.byId && p.byId[d.id] == d
    ensures Merge(w, p, Serialize(w, WithSecret(d)), allowed) == Success((WithSecret(d), d, d))
  {
    var si := WithSecret(d);
    assert w.fromText(w.toText(si)) == Json(si);
    LoadWithSecret(d);
    MergeOwnSecret(d);
    assert SymmetricDifference(d.usages, d.usages) == {};
  }

  lemma RestatedShows(w: World, usages: set<string>, p: Portfolio, q: Portfolio, d: Doc, allowed: set<string>)
    requires w.Sound() && SamePortfolio(usages, p, q) && d.id in p.byId && p.byId[d.id] == d
    requires d.containPrivateData && IsValid(w, d) && SecretFields(d.content) != SecretFields(q.byId[d.id].content)
    ensures !MergesHide(w, usages, p, q, Serialize(w, WithSecret(d)), allowed)
  {
    var json, e := Serialize(w, WithSecret(d)), q.byId[d.id];
    OwnMerge(w, p, d, allowed);
    SameMerge(w, usages, p, q, json, allowed);
    SameView(usages, d, e);
    OwnSecretRestated(d, e);
  }

  lemma Opens(w: World, st: State, sender: string, name: string, text: string)
    requires HasPortfolio(st.wallet.portfolios, name)
    requires name in st.wallet.configurations && Producible(w, st, name, sender) != {}
    ensures OpenForChange(w, st, sender, [name, text]).Success?
  {
  }

  lemma RestatedDoesNotHide(w: World, st: State, su: State, observer: string, sender: string, name: string, d: Doc)
    requires w.Sound() && Alike(w, st, su, observer)
    requires OpenForChange(w, st, sender, [name, Serialize(w, WithSecret(d))]).Success?
    requires HasPortfolio(st.wallet.portfolios, name) && HasPortfolio(su.wallet.portfolios, name)
    requires SamePortfolio(Consumable(w, st, name, observer), Target(st, name), Target(su, name))
    requires d.id in Target(st, name).byId && Target(st, name).byId[d.id] == d
    requires d.containPrivateData && IsValid(w, d)
    requires SecretFields(d.content) != SecretFields(Target(su, name).byId[d.id].content)
    ensures !UpdateHides(w, st, su, observer, sender, [name, Serialize(w, WithSecret(d))])
  {
    RestatedShows(w, Consumable(w, st, name, observer), Target(st, name), Target(su, name), d,
                  Producible(w, st, name, sender));
  }

  /** The condition fails where one document is sent back with its secret and the other has another secret: only
      the first update is announced as one that leaves the secret as it was. */
  lemma RestatingUpdateShows(w: World, st: State, su: State, observer: string, sender: string, name: string, d: Doc)
    requires w.Sound() && Alike(w, st, su, observer) && HasPortfolio(st.wallet.portfolios, name)
    requires name in st.wallet.configurations && Producible(w, st, name, sender) != {}
    requires d.id in Target(st, name).byId && Target(st, name).byId[d.id] == d
    requires HasPortfolio(su.wallet.portfolios, name) && d.id in Target(su, name).byId
    requires d.containPrivateData && IsValid(w, d)
    requires SecretFields(d.content) != SecretFields(Target(su, name).byId[d.id].content)
    ensures var params := [name, Serialize(w, WithSecret(d))];
            !SameStep(w, observer, UpdateDocument(w, st, sender, params), UpdateDocument(w, su, sender, params))
  {
    SameTargets(w, st, su, observer, name);
    Opens(w, st, sender, name, Serialize(w, WithSecret(d)));
    RestatedDoesNotHide(w, st, su, observer, sender, name, d);
    UpdateHidesIff(w, st, su, observer, sender, [name, Serialize(w, WithSecret(d))]);
  }
}
