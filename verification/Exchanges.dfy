/** What a producer writes is what a consumer then reads. */
module Exchanges {
  import opened DocumentLaws
  import opened Documents
  import opened Environment
  import opened Errors
  import opened PortfolioLaws
  import opened Portfolios
  import opened ReadPaths
  import opened Serialization
  import opened ServerSteps
  import opened StepLaws
  import opened UpdateFlags
  import opened Wallets
  import opened Wrappers

  /** What a fetch gives: the stored document, if it exists and shares a usage with the client. */
  lemma FetchStored(w: World, st: State, client: string, portfolio: string, id: string)
    requires w.Sound() && portfolio in st.wallet.configurations && HasPortfolio(st.wallet.portfolios, portfolio)
    ensures var p, usages := Target(st, portfolio), Consumable(w, st, portfolio, client);
            var fetched := Fetch(w, st, client, portfolio, id);
            && (fetched.Success? <==> id in p.byId && usages * p.byId[id].usages != {})
            && (fetched.Success? ==> fetched == Success(MarkPrivate(p.byId[id])))
            && (fetched.Failure? && usages != {} && id !in p.byId ==> fetched.error == DocumentDoNotExistError(id))
  {
    GetReply(w, st, client, portfolio, id);
    match GetWithSecret(w, st, client, [portfolio, id], false)
    case Success(_) => DocumentAnswer(w, Target(st, portfolio).byId[id]);
    case Failure(e) => ErrorAnswer(w, e);
  }

  /** Who may consume what does not depend on the documents. */
  lemma SameConsumable(w: World, st: State, after: State, name: string, target: string, p: Portfolio, note: string,
                       client: string)
    requires Commits(w, st, after, target, p, note)
    ensures Consumable(w, after, name, client) == Consumable(w, st, name, client)
    ensures after.wallet.configurations == st.wallet.configurations
  {
  }

  lemma OpenIsConfigured(w: World, st: State, sender: string, params: Params)
    requires OpenForChange(w, st, sender, params).Success?
    ensures params[0] in st.wallet.configurations && Producible(w, st, params[0], sender) != {}
  {
  }

  // ---------------------------------------------------------------- create

  /** A serialized document can be created exactly by a sender with usages in a portfolio that is
      configured, if it is valid, carries usages of the sender only, and its name is free. */
  lemma CreateSucceedsIff(w: World, st: State, sender: string, portfolio: string, d: Doc, newId: string)
    requires w.Sound() && (portfolio in st.wallet.configurations ==> HasPortfolio(st.wallet.portfolios, portfolio))
    ensures Create(w, st, sender, [portfolio, Serialize(w, WithSecret(d))], newId).Success? <==>
            && portfolio in st.wallet.configurations
            && Producible(w, st, portfolio, sender) != {}
            && IsValid(w, MarkPrivate(d))
            && d.usages <= Producible(w, st, portfolio, sender)
            && d.name !in Target(st, portfolio).byName
  {
    var params := [portfolio, Serialize(w, WithSecret(d))];
    if OpenForChange(w, st, sender, params).Success? {
      OpenParts(w, st, sender, params);
      ReadSent(w, d, Producible(w, st, portfolio, sender));
    }
  }

  lemma ReadSent(w: World, d: Doc, allowed: set<string>)
    requires w.Sound()
    ensures ReadNewDocument(w, Serialize(w, WithSecret(d)), allowed).Success? <==>
            IsValid(w, MarkPrivate(d)) && d.usages <= allowed
    ensures ReadNewDocument(w, Serialize(w, WithSecret(d)), allowed).Success? ==>
            ReadNewDocument(w, Serialize(w, WithSecret(d)), allowed).value == MarkPrivate(d)
  {
    LoadWithSecret(d);
    assert w.fromText(w.toText(WithSecret(d))) == Json(WithSecret(d));
    assert d.usages - allowed == {} <==> d.usages <= allowed;
  }

  /** A document created by a producer is fetched by exactly the clients that share a usage with it, with
      every field it was sent with, under the new id. */
  lemma CreateThenFetch(w: World, st: State, sender: string, client: string, portfolio: string, d: Doc, newId: string)
    requires w.Sound() && Create(w, st, sender, [portfolio, Serialize(w, WithSecret(d))], newId).Success?
    ensures var after := Create(w, st, sender, [portfolio, Serialize(w, WithSecret(d))], newId).value.0;
            var fetched := Fetch(w, after, client, portfolio, newId);
            && (fetched.Success? <==> Consumable(w, st, portfolio, client) * d.usages != {})
            && (fetched.Success? ==> fetched == Success(MarkPrivate(d).(id := newId)))
  {
    var params := [portfolio, Serialize(w, WithSecret(d))];
    var after := Create(w, st, sender, params, newId).value.0;
    var doc, p := CreateParts(w, st, sender, params, newId);
    var note := CreatedNote(w, portfolio, doc.(id := newId));
    OpenIsConfigured(w, st, sender, params);
    SentRequest(w, d);
    AddPuts(Target(st, portfolio), doc, newId);
    CommittedTarget(w, st, after, portfolio, p, note);
    SameConsumable(w, st, after, portfolio, portfolio, p, note, client);
    FetchStored(w, after, client, portfolio, newId);
  }

  lemma SentRequest(w: World, d: Doc)
    requires w.Sound()
    ensures ReadRequest(w, Serialize(w, WithSecret(d))) == Success((WithSecret(d), MarkPrivate(d)))
  {
    LoadWithSecret(d);
    assert w.fromText(w.toText(WithSecret(d))) == Json(WithSecret(d));
  }

  // ---------------------------------------------------------------- update

  /** After an update a client fetches the stored document with the request merged into it, if it shares a
      usage with the document as it is now. */
  lemma UpdateThenFetch(w: World, st: State, sender: string, client: string, params: Params)
    returns (si: Tree, before: Doc, now: Doc)
    requires w.Sound() && UpdateDocument(w, st, sender, params).Success?
    ensures |params| >= 2 && HasPortfolio(st.wallet.portfolios, params[0]) && Deserialize(w, params[1]) == Success(si)
    ensures GetDocument(Target(st, params[0]), now.id) == Success(before)
    ensures Load(si, Some(before)) == Success(now)
    ensures var after := UpdateDocument(w, st, sender, params).value.0;
            var fetched := Fetch(w, after, client, params[0], now.id);
            && (fetched.Success? <==> Consumable(w, st, params[0], client) * now.usages != {})
            && (fetched.Success? ==> fetched == Success(MarkPrivate(now)))
  {
    var after := UpdateDocument(w, st, sender, params).value.0;
    var request, p;
    si, request, before, now, p := UpdateParts(w, st, sender, params);
    var note := UpdatedNote(w, params[0], before, request);
    OpenIsConfigured(w, st, sender, params);
    RequestTree(w, params[1], si, request);
    MergedHasId(si, before);
    UpdateStores(Target(st, params[0]), now);
    CommittedTarget(w, st, after, params[0], p, note);
    SameConsumable(w, st, after, params[0], params[0], p, note, client);
    FetchStored(w, after, client, params[0], now.id);
  }

  // ---------------------------------------------------------------- delete

  /** After a delete nobody fetches the document, and its name is free. */
  lemma DeleteThenFetch(w: World, st: State, sender: string, client: string, params: Params)
    requires w.Sound() && Delete(w, st, sender, params).Success?
    ensures var after := Delete(w, st, sender, params).value.0;
            && |params| >= 2 && HasPortfolio(st.wallet.portfolios, params[0])
            && HasPortfolio(after.wallet.portfolios, params[0])
            && params[1] in Target(st, params[0]).byId
            && Target(st, params[0]).byId[params[1]].name !in Target(after, params[0]).byName
            && Fetch(w, after, client, params[0], params[1]).Failure?
            && (Consumable(w, st, params[0], client) != {} ==>
                  Fetch(w, after, client, params[0], params[1]) == Failure(DocumentDoNotExistError(params[1])))
  {
    var after := Delete(w, st, sender, params).value.0;
    var doc, p := DeleteParts(w, st, sender, params);
    var note := DeletedNote(w, params[0], doc);
    OpenIsConfigured(w, st, sender, params);
    CommittedTarget(w, st, after, params[0], p, note);
    SameConsumable(w, st, after, params[0], params[0], p, note, client);
    FetchStored(w, after, client, params[0], params[1]);
  }
}
