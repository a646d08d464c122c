/** The three ways to read secrets, and the client's fetch by a list of ids. */
module ReadPaths {
  import opened Configuration
  import opened DocumentLaws
  import opened Documents
  import opened Environment
  import opened Errors
  import opened PortfolioLaws
  import opened Portfolios
  import opened Serialization
  import opened ServerSteps
  import opened StepLaws
  import opened WalletLaws
  import opened Wallets
  import opened Wrappers

  // ---------------------------------------------------------------- the server's read paths

  lemma {:induction false} SharingMembers(docs: seq<Doc>, usages: set<string>, d: Doc)
    ensures d in Sharing(docs, usages) <==> d in docs && d.usages * usages != {}
  {
    if docs == [] {
    } else {
      var n := |docs| - 1;
      SharingMembers(docs[..n], usages, d);
      assert d in docs <==> d in docs[..n] || d == docs[n];
    }
  }

  /** The usages a client may consume in a portfolio. */
  function Consumable(w: World, st: State, name: string, sender: string): set<string> {
    if name in st.wallet.configurations then ConsumerUsages(w.matches, st.wallet.configurations[name], sender) else {}
  }

  ghost predicate MayConsume(w: World, st: State, name: string, sender: string) {
    && name in st.wallet.configurations && HasPortfolio(st.wallet.portfolios, name)
    && Consumable(w, st, name, sender) != {}
  }

  predicate Shares(w: World, st: State, name: string, sender: string, d: Doc) {
    Consumable(w, st, name, sender) * d.usages != {}
  }

  lemma ReadOne(w: World, st: State, sender: string, name: string, key: string, byName: bool, d: Doc)
    requires MayConsume(w, st, name, sender)
    requires Lookup(Target(st, name), key, byName) == Success(d)
    ensures GetWithSecret(w, st, sender, [name, key], byName).Success? <==> Shares(w, st, name, sender, d)
    ensures Shares(w, st, name, sender, d) ==>
              GetWithSecret(w, st, sender, [name, key], byName) == Success(Serialize(w, WithSecret(d)))
  {
  }

  /** The reply to a request for the list of secrets without a usage. */
  lemma UnfilteredList(w: World, st: State, sender: string, name: string)
    requires MayConsume(w, st, name, sender)
    ensures GetListWithSecret(w, st, sender, [name])
         == Success(PrivateList(w, Target(st, name), Consumable(w, st, name, sender)))
  {
  }

  /** A stored document is in the unfiltered list of a sender exactly when the sender may read it by its
      id, and exactly when it may by its name; both reads then give that document. */
  lemma SecretReadsAgree(w: World, st: State, sender: string, name: string, id: string)
    requires Good(w, st.wallet.portfolios) && MayConsume(w, st, name, sender)
    requires id in Target(st, name).byId
    ensures var p := Target(st, name);
            var d := p.byId[id];
            var listed := Sharing(ListDocuments(p), Consumable(w, st, name, sender));
            var byId, byName := GetWithSecret(w, st, sender, [name, id], false), GetWithSecret(w, st, sender,
                                              [name, d.name], true);
            && GetListWithSecret(w, st, sender, [name]) == Success(Serialize(w, Array(WriteList(listed))))
            && (d in listed <==> byId.Success?)
            && (byId.Success? <==> byName.Success?)
            && (byId.Success? ==> byId == byName == Success(Serialize(w, WithSecret(d))))
  {
    var p := Target(st, name);
    var d := p.byId[id];
    assert d in ListDocuments(p);
    UnfilteredList(w, st, sender, name);
    SharingMembers(ListDocuments(p), Consumable(w, st, name, sender), d);
    assert Consumable(w, st, name, sender) * d.usages == d.usages * Consumable(w, st, name, sender);
    assert p.byName[d.name] == d;
    ReadOne(w, st, sender, name, id, false, d);
    ReadOne(w, st, sender, name, d.name, true, d);
  }

  /** Asked with a usage, the list has the documents of that usage; without one, those of all the usages
      of the sender together. */
  lemma ListsPerUsage(w: World, st: State, sender: string, name: string)
    requires MayConsume(w, st, name, sender)
    ensures GetListWithSecret(w, st, sender, [name])
         == Success(PrivateList(w, Target(st, name), Consumable(w, st, name, sender)))
    ensures forall u | u in Consumable(w, st, name, sender) && u != "" ::
              GetListWithSecret(w, st, sender, [name, u]) == Success(PrivateList(w, Target(st, name), {u}))
    ensures forall u | u !in Consumable(w, st, name, sender) && u != "" ::
              GetListWithSecret(w, st, sender, [name, u]).Failure?
    ensures forall docs: seq<Doc>, d: Doc :: d in Sharing(docs, Consumable(w, st, name, sender)) <==>
              exists u :: u in Consumable(w, st, name, sender) && d in Sharing(docs, {u})
  {
    var all := Consumable(w, st, name, sender);
    UnfilteredList(w, st, sender, name);
    forall docs: seq<Doc>, d: Doc
      ensures d in Sharing(docs, all) <==> exists u :: u in all && d in Sharing(docs, {u})
    {
      UnionOfUsages(docs, d, all);
    }
  }

  lemma UnionOfUsages(docs: seq<Doc>, d: Doc, all: set<string>)
    ensures d in Sharing(docs, all) <==> exists u :: u in all && d in Sharing(docs, {u})
  {
  }

  /** The public list, filtered by a usage or not, shows documents as the notifications do: its items are
      the public views of the stored documents, of those with the usage if one is asked for. */
  lemma PublicListShows(w: World, st: State, name: string, usage: string)
    requires name in st.wallet.configurations && HasPortfolio(st.wallet.portfolios, name)
    requires usage != "" ==> usage in st.wallet.configurations[name].usages
    ensures exists shown: seq<Doc> ::
              && GetListWithoutSecret(w, st, [name, usage]) == Success(Serialize(w, Array(WriteOpenList(shown))))
              && forall d :: d in shown <==> d in ListDocuments(Target(st, name)) && (usage == "" || usage in d.usages)
  {
    var docs := ListDocuments(Target(st, name));
    var usages := if usage == "" then {} else {usage};
    var shown := Shown(docs, usages);
    forall d ensures d in shown <==> d in docs && (usage == "" || usage in d.usages) {
      SharingMembers(docs, usages, d);
      if usage != "" { assert usage in d.usages * usages <==> usage in d.usages; }
    }
    assert GetListWithoutSecret(w, st, [name, usage]) == Success(PublicList(w, Target(st, name), usages));
  }

  /** Both public reads of a stored document give its public view. */
  lemma OpenReadsAgree(w: World, st: State, name: string, id: string)
    requires Good(w, st.wallet.portfolios) && HasPortfolio(st.wallet.portfolios, name) && id in Target(st, name).byId
    ensures var d := Target(st, name).byId[id];
            GetWithoutSecret(w, st, [name, id], false) == GetWithoutSecret(w, st, [name, d.name], true)
            == Success(Serialize(w, WithoutSecret(d)))
  {
    assert Agree(Target(st, name));
  }

  // ---------------------------------------------------------------- what a client is told it may do

  /** The set of texts in a reply. */
  function ToldTexts(w: World, text: string): Option<set<string>> {
    match w.fromText(text)
    case BadJson(_) => None
    case Json(si) => AsTexts(si)
  }

  lemma TextsTold(w: World, s: set<string>)
    requires w.Sound()
    ensures ToldTexts(w, Serialize(w, TextArray(s))) == Some(s)
  {
    assert w.fromText(w.toText(TextArray(s))) == Json(TextArray(s));
    TextArrayRoundTrip(s);
  }

  /** A client is told of exactly those consumer usages for which it may then list the secrets. */
  lemma ConsumerUsagesTold(w: World, st: State, sender: string, name: string, u: string)
    requires w.Sound() && name in st.wallet.configurations && HasPortfolio(st.wallet.portfolios, name) && u != ""
    ensures ListUsages(w, st, sender, [name], false).Success?
    ensures var told := ToldTexts(w, ListUsages(w, st, sender, [name], false).value);
            told.Some? && (u in told.value <==> GetListWithSecret(w, st, sender, [name, u]).Success?)
  {
    TextsTold(w, Consumable(w, st, name, sender));
  }

  lemma ListedUsages(w: World, st: State, sender: string, name: string)
    requires name in st.wallet.configurations
    ensures ListUsages(w, st, sender, [name], true) == Success(Serialize(w, TextArray(Producible(w, st, name, sender))))
  {
  }

  lemma WithinUsages(usages: set<string>, allowed: set<string>)
    ensures CheckUsages(usages, allowed).Pass? <==> usages <= allowed
  {
    forall x | x in usages ensures x in usages - allowed || x in allowed {}
    if usages <= allowed {
      assert usages - allowed == {};
    }
  }

  /** And of exactly those producer usages with which its documents pass the check of a change. */
  lemma ProducerUsagesTold(w: World, st: State, sender: string, name: string, usages: set<string>)
    requires w.Sound() && name in st.wallet.configurations
    ensures ListUsages(w, st, sender, [name], true).Success?
    ensures var told := ToldTexts(w, ListUsages(w, st, sender, [name], true).value);
            told.Some? && (usages <= told.value <==> CheckUsages(usages, Producible(w, st, name, sender)).Pass?)
  {
    ListedUsages(w, st, sender, name);
    TextsTold(w, Producible(w, st, name, sender));
    WithinUsages(usages, Producible(w, st, name, sender));
  }

  /** The portfolios listed are exactly those whose documents can be listed. */
  lemma PortfoliosTold(w: World, st: State, name: string)
    requires w.Sound() && forall n | n in st.wallet.configurations :: HasPortfolio(st.wallet.portfolios, n)
    ensures var told := ToldTexts(w, ListPortfolios(w, st));
            told.Some? && (name in told.value <==> GetListWithoutSecret(w, st, [name]).Success?)
  {
    TextsTold(w, st.wallet.configurations.Keys);
  }

  // ---------------------------------------------------------------- the client

  /** The exception a client throws for the data of an error reply. */
  function Thrown(w: World, data: string): SecwException {
    match w.fromText(data)
    case BadJson(_) => LIBRARY_ERROR
    case Json(si) =>
      match ReadError(si)
      case Success(e) => e
      case Failure(e) => e
  }

  /** The frames of an answer, unless it is an error. */
  function Answer(w: World, frames: seq<string>): Reading<seq<string>>
    requires frames != []
  {
    if frames[0] != "ERROR" then Success(frames)
    else if |frames| == 2 then Failure(Thrown(w, frames[1]))
    else Failure(SecwException(ProtocolError, "Missing data for error", ""))
  }

  function ParseDocument(w: World, frames: seq<string>): Reading<Doc>
    requires frames != []
  {
    var answer :- Answer(w, frames);
    :- Require(answer != [], SecwException(ProtocolError, "Empty answer from server", ""));
    var si :- Deserialize(w, answer[0]);
    Load(si, None)
  }

  function Fetch(w: World, st: State, client: string, portfolio: string, id: string): Reading<Doc> {
    ParseDocument(w, HandleRequest(w, st, client, [GET_WITH_SECRET, portfolio, id], "").1)
  }

  /** Ids that do not exist or may not be read are left out; any other error ends the fetch. */
  function Collect(docs: seq<Doc>, r: Reading<Doc>): Reading<seq<Doc>> {
    match r
    case Success(d) => Success(docs + [d])
    case Failure(e) => if e.code in {DocumentDoNotExist, IllegalAccess} then Success(docs) else Failure(e)
  }

  function CollectAll(fetch: string -> Reading<Doc>, ids: seq<string>): Reading<seq<Doc>> {
    if ids == [] then Success([])
    else
      var before :- CollectAll(fetch, ids[..|ids| - 1]);
      Collect(before, fetch(ids[|ids| - 1]))
  }

  function FetchAll(w: World, st: State, client: string, portfolio: string, ids: seq<string>): Reading<seq<Doc>> {
    CollectAll(id => Fetch(w, st, client, portfolio, id), ids)
  }

  /** The documents of a portfolio with the given ids, in that order and as often as asked, that exist and
      share a usage with `usages`. */
  function Readable(p: Portfolio, ids: seq<string>, usages: set<string>): seq<Doc> {
    if ids == [] then [] else Readable(p, ids[..|ids| - 1], usages) + ReadableOne(p, ids[|ids| - 1], usages)
  }

  function ReadableOne(p: Portfolio, id: string, usages: set<string>): seq<Doc> {
    if id in p.byId && usages * p.byId[id].usages != {} then [MarkPrivate(p.byId[id])] else []
  }

  lemma {:induction false} CollectGivesReadable(fetch: string -> Reading<Doc>, p: Portfolio, ids: seq<string>,
                                                usages: set<string>)
    requires forall id, docs :: Collect(docs, fetch(id)) == Success(docs + ReadableOne(p, id, usages))
    ensures CollectAll(fetch, ids) == Success(Readable(p, ids, usages))
    decreases |ids|
  {
    if ids == [] {
    } else {
      CollectGivesReadable(fetch, p, ids[..|ids| - 1], usages);
    }
  }

  lemma ErrorAnswer(w: World, e: SecwException)
    requires w.Sound() && WellFormed(e) && e.code in {DocumentDoNotExist, IllegalAccess}
    ensures ParseDocument(w, ErrorReply(w, e)) == Failure(e)
  {
    ErrorRoundTrip(e);
    assert w.fromText(w.toText(WriteError(e))) == Json(WriteError(e));
  }

  lemma DocumentAnswer(w: World, d: Doc)
    requires w.Sound()
    ensures ParseDocument(w, [Serialize(w, WithSecret(d))]) == Success(MarkPrivate(d))
  {
    LoadWithSecret(d);
    assert w.fromText(w.toText(WithSecret(d))) == Json(WithSecret(d));
    assert w.toText(WithSecret(d)) != "ERROR";
  }

  lemma GetReply(w: World, st: State, client: string, portfolio: string, id: string)
    ensures HandleRequest(w, st, client, [GET_WITH_SECRET, portfolio, id], "").1
         == match GetWithSecret(w, st, client, [portfolio, id], false)
            case Success(text) => [text]
            case Failure(e) => ErrorReply(w, e)
  {
    assert [GET_WITH_SECRET, portfolio, id][1..] == [portfolio, id];
  }

  lemma FetchOne(w: World, st: State, client: string, portfolio: string, id: string, docs: seq<Doc>)
    requires w.Sound() && portfolio in st.wallet.configurations && HasPortfolio(st.wallet.portfolios, portfolio)
    ensures Collect(docs, Fetch(w, st, client, portfolio, id))
         == Success(docs + ReadableOne(Target(st, portfolio), id, Consumable(w, st, portfolio, client)))
  {
    GetReply(w, st, client, portfolio, id);
    match GetWithSecret(w, st, client, [portfolio, id], false)
    case Success(_) => DocumentAnswer(w, Target(st, portfolio).byId[id]);
    case Failure(e) => ErrorAnswer(w, e); assert docs + [] == docs;
  }

  /** End to end: from a configured portfolio, the fetch never fails and gives exactly the documents that
      exist and share a consumer usage with the client, in order and with repetitions. */
  lemma FetchGivesReadable(w: World, st: State, client: string, portfolio: string, ids: seq<string>)
    requires w.Sound() && portfolio in st.wallet.configurations && HasPortfolio(st.wallet.portfolios, portfolio)
    ensures FetchAll(w, st, client, portfolio, ids)
         == Success(Readable(Target(st, portfolio), ids, Consumable(w, st, portfolio, client)))
  {
    var p, usages := Target(st, portfolio), Consumable(w, st, portfolio, client);
    var fetch := id => Fetch(w, st, client, portfolio, id);
    forall id, docs ensures Collect(docs, fetch(id)) == Success(docs + ReadableOne(p, id, usages)) {
      FetchOne(w, st, client, portfolio, id, docs);
    }
    CollectGivesReadable(fetch, p, ids, usages);
  }
}
