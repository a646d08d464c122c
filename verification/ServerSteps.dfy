/** One locked request as one step on the server's state (`secw_security_wallet_server`). */
module ServerSteps {
  import opened Configuration
  import opened Documents
  import opened Environment
  import opened Errors
  import opened Ordering
  import opened Portfolios
  import opened Serialization
  import opened Wallets
  import opened Wrappers

  const GET_PORTFOLIO_LIST := "GET_PORTFOLIO_LIST"
  const GET_CONSUMER_USAGES := "GET_CONSUMER_USAGES"
  const GET_PRODUCER_USAGES := "GET_PRODUCER_USAGES"
  const GET_LIST_WITH_SECRET := "GET_LIST_WITH_SECRET"
  const GET_LIST_WITHOUT_SECRET := "GET_LIST_WITHOUT_SECRET"
  const GET_WITHOUT_SECRET := "GET_WITHOUT_SECRET"
  const GET_WITHOUT_SECRET_BY_NAME := "GET_WITHOUT_SECRET_BY_NAME"
  const GET_WITH_SECRET := "GET_WITH_SECRET"
  const GET_WITH_SECRET_BY_NAME := "GET_WITH_SECRET_BY_NAME"
  const CREATE := "CREATE"
  const DELETE := "DELETE"
  const UPDATE := "UPDATE"

  /** The wallet, and the texts published on the notification stream. */
  datatype State = State(wallet: Wallet, published: seq<string>)

  type Params = seq<string>

  // ---------------------------------------------------------------- checks

  /** The usages a client holds in a configured portfolio; holding none is an access error. */
  function ConsumerAccess(w: World, st: State, portfolio: string, sender: string, what: string): Reading<set<string>> {
    var config :- GetConfiguration(st.wallet.configurations, portfolio);
    var allowed := ConsumerUsages(w.matches, config, sender);
    if allowed == {} then Failure(IllegalAccessError(what)) else Success(allowed)
  }

  function ProducerAccess(w: World, st: State, portfolio: string, sender: string): Reading<set<string>> {
    var config :- GetConfiguration(st.wallet.configurations, portfolio);
    var allowed := ProducerUsages(w.matches, config, sender);
    if allowed == {} then Failure(IllegalAccessError("You do not have access to this command")) else Success(allowed)
  }

  /** Every usage must be held; the error names the first that is not. */
  function CheckUsages(usages: set<string>, allowed: set<string>): Outcome<SecwException> {
    if usages - allowed == {} then Pass
    else Fail(IllegalAccessError("You do not have access to usage <" + Least(usages - allowed) + ">"))
  }

  function SymmetricDifference(a: set<string>, b: set<string>): set<string> {
    (a - b) + (b - a)
  }

  // ---------------------------------------------------------------- notifications

  function CreatedTree(portfolio: string, newData: Tree): Tree {
    Object(map["action" := Text("CREATED"), "portfolio" := Text(portfolio), "old_data" := Void, "new_data" := newData])
  }

  function DeletedTree(portfolio: string, oldData: Tree): Tree {
    Object(map["action" := Text("DELETED"), "portfolio" := Text(portfolio), "new_data" := Void, "old_data" := oldData])
  }

  function UpdatedTree(portfolio: string, oldData: Tree, newData: Tree, nonSecret: bool, secret: bool): Tree {
    Object(map["action" := Text("UPDATED"), "portfolio" := Text(portfolio),
               "old_data" := oldData, "new_data" := newData,
               "non_secret_changed" := Boolean(nonSecret), "secret_changed" := Boolean(secret)])
  }

  function CreatedNote(w: World, portfolio: string, newDocument: Doc): string {
    Serialize(w, CreatedTree(portfolio, WithoutSecret(newDocument)))
  }

  function DeletedNote(w: World, portfolio: string, oldDocument: Doc): string {
    Serialize(w, DeletedTree(portfolio, WithoutSecret(oldDocument)))
  }

  function UpdatedNote(w: World, portfolio: string, oldDocument: Doc, newDocument: Doc): string {
    Serialize(w, UpdatedTree(portfolio, WithoutSecret(oldDocument), WithoutSecret(newDocument),
                             !NonSecretEquals(w, newDocument, oldDocument), !SecretEquals(w, newDocument, oldDocument)))
  }

  /** The portfolio at `k` is replaced, the database is saved and one notification is published. */
  function Commit(w: World, st: State, k: nat, p: Portfolio, note: string): State
    requires k < |st.wallet.portfolios|
  {
    var ps := st.wallet.portfolios[k := p];
    State(Wallet(st.wallet.configurations, ps, Some(SaveText(w, ps))), st.published + [note])
  }

  // ---------------------------------------------------------------- changes

  /** The checks common to all changes: the usages the sender may produce, and the portfolio. */
  function OpenForChange(w: World, st: State, sender: string, params: Params): (r: Reading<(set<string>, nat)>)
    ensures r.Success? ==> |params| >= 2 && r.value.1 < |st.wallet.portfolios|
  {
    if |params| < 2 then Failure(BadArgumentError("Command need 2 arguments"))
    else
      var allowed :- ProducerAccess(w, st, params[0], sender);
      var k :- GetPortfolio(st.wallet.portfolios, params[0]);
      Success((allowed, k))
  }

  /** The document to create: it must parse, be valid, and carry usages of the sender only. */
  function ReadNewDocument(w: World, json: string, allowed: set<string>): Reading<Doc> {
    var si :- Deserialize(w, json);
    var doc :- Load(si, None);
    :- Validate(w, doc);
    :- CheckUsages(doc.usages, allowed);
    Success(doc)
  }

  function Create(w: World, st: State, sender: string, params: Params, newId: string): Reading<(State, string)> {
    var (allowed, k) :- OpenForChange(w, st, sender, params);
    var doc :- ReadNewDocument(w, params[1], allowed);
    var p :- Add(st.wallet.portfolios[k], doc, newId);
    Success((Commit(w, st, k, p, CreatedNote(w, params[0], doc.(id := newId))), newId))
  }

  /** The document to delete: it may carry usages of the sender only. */
  function ReadDiscarded(p: Portfolio, id: string, allowed: set<string>): Reading<Doc> {
    var doc :- GetDocument(p, id);
    :- CheckUsages(doc.usages, allowed);
    Success(doc)
  }

  function DeleteIn(w: World, st: State, k: nat, allowed: set<string>, portfolio: string, id: string): Reading<(State,
                    string)>
    requires k < |st.wallet.portfolios|
  {
    var doc :- ReadDiscarded(st.wallet.portfolios[k], id, allowed);
    var p :- Remove(st.wallet.portfolios[k], id);
    Success((Commit(w, st, k, p, DeletedNote(w, portfolio, doc)), "OK"))
  }

  function Delete(w: World, st: State, sender: string, params: Params): Reading<(State, string)> {
    var (allowed, k) :- OpenForChange(w, st, sender, params);
    DeleteIn(w, st, k, allowed, params[0], params[1])
  }

  /** The request as a tree and as a document of its own. */
  function ReadRequest(w: World, json: string): Reading<(Tree, Doc)> {
    var si :- Deserialize(w, json);
    var doc :- Load(si, None);
    Success((si, doc))
  }

  /** The stored document with the request merged into it; only usages of the sender may change. */
  function MergeRequest(w: World, existing: Doc, si: Tree, doc: Doc, allowed: set<string>): Reading<Doc> {
    var changed := SymmetricDifference(doc.usages, existing.usages);
    :- CheckUsages(changed, allowed);
    var merged :- Load(si, Some(existing));
    :- Validate(w, merged);
    Success(merged)
  }

  /** The document the request parses to, the stored document of its id, and the two merged. */
  function ReadMerged(w: World, p: Portfolio, json: string, allowed: set<string>): Reading<(Doc, Doc, Doc)> {
    var (si, doc) :- ReadRequest(w, json);
    var existing :- GetDocument(p, doc.id);
    var merged :- MergeRequest(w, existing, si, doc, allowed);
    Success((doc, existing, merged))
  }

  /** The notification is made of the stored document and of the document the request parses to, not of
      the merged one. */
  function UpdateIn(w: World, st: State, k: nat, allowed: set<string>, portfolio: string, json: string): Reading<(State,
                    string)>
    requires k < |st.wallet.portfolios|
  {
    var (doc, existing, merged) :- ReadMerged(w, st.wallet.portfolios[k], json, allowed);
    var p :- Update(st.wallet.portfolios[k], merged);
    Success((Commit(w, st, k, p, UpdatedNote(w, portfolio, existing, doc)), "OK"))
  }

  function UpdateDocument(w: World, st: State, sender: string, params: Params): Reading<(State, string)> {
    var (allowed, k) :- OpenForChange(w, st, sender, params);
    UpdateIn(w, st, k, allowed, params[0], params[1])
  }

  // ---------------------------------------------------------------- reads

  function ListPortfolios(w: World, st: State): string {
    Serialize(w, TextArray(st.wallet.configurations.Keys))
  }

  function ListUsages(w: World, st: State, sender: string, params: Params, producer: bool): Reading<string> {
    if |params| != 1 then Failure(BadArgumentError("Command needs at least 1 argument"))
    else
      var config :- GetConfiguration(st.wallet.configurations, params[0]);
      Success(Serialize(w, TextArray(
        if producer then ProducerUsages(w.matches, config, sender) else ConsumerUsages(w.matches, config, sender))))
  }

  function Lookup(p: Portfolio, key: string, byName: bool): Reading<Doc> {
    if byName then GetDocumentByName(p, key) else GetDocument(p, key)
  }

  function GetWithSecret(w: World, st: State, sender: string, params: Params, byName: bool): Reading<string> {
    if |params| != 2 then Failure(BadArgumentError("Command needs at least 2 arguments"))
    else
      var what := "You do not have access to this document";
      var allowed :- ConsumerAccess(w, st, params[0], sender, what);
      var k :- GetPortfolio(st.wallet.portfolios, params[0]);
      var doc :- Lookup(st.wallet.portfolios[k], params[1], byName);
      if allowed * doc.usages == {} then Failure(IllegalAccessError(what))
      else Success(Serialize(w, WithSecret(doc)))
  }

  function GetWithoutSecret(w: World, st: State, params: Params, byName: bool): Reading<string> {
    if |params| != 2 then Failure(BadArgumentError("Command needs at least 2 arguments"))
    else
      var k :- GetPortfolio(st.wallet.portfolios, params[0]);
      var doc :- Lookup(st.wallet.portfolios[k], params[1], byName);
      Success(Serialize(w, WithoutSecret(doc)))
  }

  /** The documents of a list that share a usage with `usages`, in order. */
  function Sharing(docs: seq<Doc>, usages: set<string>): seq<Doc> {
    if docs == [] then []
    else
      var d := docs[|docs| - 1];
      Sharing(docs[..|docs| - 1], usages) + if d.usages * usages != {} then [d] else []
  }

  function PrivateList(w: World, p: Portfolio, usages: set<string>): string {
    Serialize(w, Array(WriteList(Sharing(ListDocuments(p), usages))))
  }

  function WriteOpenList(docs: seq<Doc>): seq<Tree> {
    seq(|docs|, i requires 0 <= i < |docs| => WithoutSecret(docs[i]))
  }

  /** Without any usage asked for, the public list is not filtered. */
  function Shown(docs: seq<Doc>, usages: set<string>): seq<Doc> {
    if usages == {} then docs else Sharing(docs, usages)
  }

  function PublicList(w: World, p: Portfolio, usages: set<string>): string {
    Serialize(w, Array(WriteOpenList(Shown(ListDocuments(p), usages))))
  }

  function AskedUsage(params: Params): string {
    if |params| >= 2 then params[1] else ""
  }

  function GetListWithSecret(w: World, st: State, sender: string, params: Params): Reading<string> {
    if |params| < 1 then Failure(BadArgumentError("Command needs at least argument"))
    else
      var what := "You do not have access to this command";
      var allowed :- ConsumerAccess(w, st, params[0], sender, what);
      var usage := AskedUsage(params);
      :- Require(usage == "" || usage in allowed, IllegalAccessError(what));
      var k :- GetPortfolio(st.wallet.portfolios, params[0]);
      Success(PrivateList(w, st.wallet.portfolios[k], if usage == "" then allowed else {usage}))
  }

  function GetListWithoutSecret(w: World, st: State, params: Params): Reading<string> {
    if |params| < 1 then Failure(BadArgumentError("Command needs at least argument"))
    else
      var usage := AskedUsage(params);
      var config :- GetConfiguration(st.wallet.configurations, params[0]);
      :- Require(usage == "" || usage in config.usages, UnknownUsageIdError(usage));
      var k :- GetPortfolio(st.wallet.portfolios, params[0]);
      Success(PublicList(w, st.wallet.portfolios[k], if usage == "" then {} else {usage}))
  }

  // ---------------------------------------------------------------- dispatch

  function Unchanged(st: State, r: Reading<string>): Reading<(State, string)> {
    match r
    case Success(text) => Success((st, text))
    case Failure(e) => Failure(e)
  }

  function Dispatch(w: World, st: State, sender: string, cmd: string, params: Params, newId: string): Reading<(State,
                    string)> {
    if cmd == CREATE then Create(w, st, sender, params, newId)
    else if cmd == DELETE then Delete(w, st, sender, params)
    else if cmd == UPDATE then UpdateDocument(w, st, sender, params)
    else Unchanged(st, DispatchRead(w, st, sender, cmd, params))
  }

  function DispatchRead(w: World, st: State, sender: string, cmd: string, params: Params): Reading<string> {
    if cmd == GET_PORTFOLIO_LIST then Success(ListPortfolios(w, st))
    else if cmd == GET_CONSUMER_USAGES then ListUsages(w, st, sender, params, false)
    else if cmd == GET_PRODUCER_USAGES then ListUsages(w, st, sender, params, true)
    else if cmd == GET_LIST_WITH_SECRET then GetListWithSecret(w, st, sender, params)
    else if cmd == GET_LIST_WITHOUT_SECRET then GetListWithoutSecret(w, st, params)
    else if cmd == GET_WITHOUT_SECRET then GetWithoutSecret(w, st, params, false)
    else if cmd == GET_WITH_SECRET then GetWithSecret(w, st, sender, params, false)
    else if cmd == GET_WITHOUT_SECRET_BY_NAME then GetWithoutSecret(w, st, params, true)
    else if cmd == GET_WITH_SECRET_BY_NAME then GetWithSecret(w, st, sender, params, true)
    else Failure(SecwException(UnsupportedCommand, cmd + " not supported", ""))
  }

  function ErrorReply(w: World, e: SecwException): seq<string> {
    ["ERROR", Serialize(w, WriteError(e))]
  }

  /** `newId` is the identifier the id source gives if the request creates a document. */
  function HandleRequest(w: World, st: State, sender: string, payload: seq<string>, newId: string): (State,
                         seq<string>) {
    if payload == [] then (st, ErrorReply(w, SecwException(ProtocolError, "Command frame is empty", "")))
    else if payload[0] == "ERROR" || payload[0] == "OK" then (st, [])
    else
      match Dispatch(w, st, sender, payload[0], payload[1..], newId)
      case Success((after, text)) => (after, [text])
      case Failure(e) => (st, ErrorReply(w, e))
  }
}
