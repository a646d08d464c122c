/** The server object: one locked request at a time on its wallet, and the notification stream. */
module ServerObjects {
  import opened Configuration
  import opened DocumentObjects
  import opened Documents
  import opened Encryption
  import opened Environment
  import opened Errors
  import opened Ordering
  import opened PortfolioLaws
  import opened PortfolioObjects
  import opened Portfolios
  import opened Restores
  import opened Runs
  import opened Serialization
  import opened ServerSteps
  import opened Sources
  import opened WalletLaws
  import opened WalletObjects
  import opened Wallets
  import opened Wrappers

  // ---------------------------------------------------------------- checks that keep no state

  method CheckAllowed(usages: set<string>, allowed: set<string>) returns (r: Outcome<SecwException>)
    ensures r == CheckUsages(usages, allowed)
  {
    var found, usage := FirstForbidden(usages, allowed);
    if found {
      LeastUnique(usages - allowed);
      return Fail(IllegalAccessError("You do not have access to usage <" + usage + ">"));
    }
    return Pass;
  }

  method CheckChanged(asked: set<string>, stored: set<string>, allowed: set<string>) returns (r: Outcome<SecwException>)
    ensures r == CheckUsages(SymmetricDifference(asked, stored), allowed)
  {
    var diff := DifferenceBetween2UsagesIdSet(asked, stored);
    assert diff == SymmetricDifference(asked, stored);
    r := CheckAllowed(diff, allowed);
  }

  method ReadNew(w: World, json: string, allowed: set<string>) returns (r: Result<Document, SecwException>)
    ensures match ReadNewDocument(w, json, allowed)
            case Success(d) => r.Success? && fresh(r.value) && r.value.Value() == d
            case Failure(e) => r == Failure(e)
  {
    var si :- Deserialize(w, json);
    var doc :- Document.Deserialize(si, null);
    :- Validate(w, doc.Value());
    var check := CheckAllowed(doc.usages, allowed);
    :- check;
    return Success(doc);
  }

  method ReadRequestDocument(w: World, json: string) returns (r: Result<(Tree, Document), SecwException>)
    ensures match ReadRequest(w, json)
            case Success((si, d)) => r.Success? && r.value.0 == si && fresh(r.value.1) && r.value.1.Value() == d
            case Failure(e) => r == Failure(e)
  {
    var si :- Deserialize(w, json);
    var doc :- Document.Deserialize(si, null);
    return Success((si, doc));
  }

  /** The working copy is overwritten by the request; after a failure it may be half overwritten. */
  method MergeInto(w: World, si: Tree, doc: Document, copy: Document, allowed: set<string>)
    returns (r: Outcome<SecwException>)
    modifies copy
    ensures match old(MergeRequest(w, copy.Value(), si, doc.Value(), allowed))
            case Success(d) => r == Pass && copy.Value() == d
            case Failure(e) => r == Fail(e)
  {
    r := CheckChanged(doc.usages, copy.usages, allowed);
    if r.Fail? { return; }
    var merged := Document.Deserialize(si, copy);
    if merged.Failure? { return Fail(merged.error); }
    r := Validate(w, copy.Value());
  }

  /** A second copy of the document is kept for the notification before the first is overwritten. */
  method CloneAndMerge(w: World, si: Tree, doc: Document, copy: Document, allowed: set<string>)
    returns (r: Result<Document, SecwException>)
    modifies copy
    ensures match old(MergeRequest(w, copy.Value(), si, doc.Value(), allowed))
            case Success(d) => r.Success? && fresh(r.value) && r.value.Value() == old(copy.Value()) && copy.Value() == d
            case Failure(e) => r == Failure(e)
  {
    var before := copy.Clone();
    var merged := MergeInto(w, si, doc, copy, allowed);
    if merged.Fail? { return Failure(merged.error); }
    return Success(before);
  }

  lemma ShownGrows(docs: seq<Doc>, k: nat, usages: set<string>)
    requires k < |docs|
    ensures Shown(docs[..k + 1], usages)
         == Shown(docs[..k], usages) + if usages == {} || docs[k].usages * usages != {} then [docs[k]] else []
  {
    assert docs[..k + 1][..k] == docs[..k];
  }

  // ---------------------------------------------------------------- identifiers

  lemma {:induction false} LongerThanAll(s: set<string>) returns (n: nat)
    ensures forall x | x in s :: |x| < n
    decreases |s|
  {
    n := 0;
    if s != {} {
      var x :| x in s;
      n := LongerThanAll(s - {x});
      n := if n > |x| then n else |x| + 1;
      assert s == (s - {x}) + {x};
    }
  }

  lemma UnusedId(st: State, payload: seq<string>) returns (id: string)
    ensures FreshId(st, payload, id)
  {
    id := "";
    if |payload| >= 2 && HasPortfolio(st.wallet.portfolios, payload[1]) {
      var used := st.wallet.portfolios[FirstNamed(st.wallet.portfolios, payload[1])].byId.Keys;
      var n := LongerThanAll(used);
      id := seq(n, i => 'a');
    }
  }

  /** A request that fails does so whatever identifier would have been drawn. */
  lemma FailureNeedsNoId(w: World, st: State, sender: string, payload: seq<string>, a: string, b: string)
    requires |HandleRequest(w, st, sender, payload, a).1| == 2
    ensures HandleRequest(w, st, sender, payload, b) == HandleRequest(w, st, sender, payload, a)
  {
  }

  ghost predicate FreshFor(st: State, params: Params, newId: string) {
    |params| >= 1 && HasPortfolio(st.wallet.portfolios, params[0]) ==>
      newId !in st.wallet.portfolios[FirstNamed(st.wallet.portfolios, params[0])].byId
  }

  lemma RestoreStep(w: World, st: State, si: Tree, passphrase: ByteString, version: string)
    requires w.Sound() && Invariant(w, st)
    ensures var restored := Restore(w, si, passphrase, version);
            && (restored.Success? <==> ReadBackup(w, si, passphrase, version).Success?)
            && Next(w, st, RestoreBackup(si, passphrase, version)) == st.(wallet := restored.OrElse(st.wallet))
            && (restored.Success? ==> (AllAgree(LoadDatabase(w, restored.value.database).value)
                                       <==> BringsNamesApart(w, si, passphrase, version)))
  {
    DurableIsConfigured(w, st.wallet);
    RestoreFailsEarly(w, si, passphrase, version);
    RestoreKeepsInvariantIff(w, st, si, passphrase, version);
  }

  class SecurityWalletServer {
    const world: World
    const wallet: SecurityWallet
    const ids: IdSource
    var published: seq<string>

    ghost predicate Valid()
      reads wallet, wallet.portfolios, wallet.held
    {
      wallet.world == world && wallet.Valid() && ids.Valid()
    }

    ghost function Value(): State
      reads this`published, wallet
    {
      State(wallet.Value(), published)
    }

    constructor (wallet: SecurityWallet, ids: IdSource)
      requires wallet.Valid() && ids.Valid()
      ensures Valid() && this.wallet == wallet && this.ids == ids && Value() == State(wallet.Value(), [])
    {
      world, this.wallet, this.ids, published := wallet.world, wallet, ids, [];
    }

    /** What the program does when it starts: a new wallet is loaded and saved, and served. Its indexes share
        their objects exactly if the state is good. */
    static method Boot(world: World, database: Option<string>, ids: IdSource)
      returns (r: Result<SecurityWalletServer, SecwException>)
      requires ids.Valid()
      ensures match Startup(world, database)
              case Success(v) => && r.Success? && fresh(r.value) && fresh(r.value.wallet) && r.value.world == world
                                 && r.value.ids == ids && r.value.Valid() && r.value.Value() == State(v, [])
              case Failure(e) => r == Failure(e)
      ensures r.Success? && world.Sound() ==> (r.value.wallet.sharing <==> Invariant(world, r.value.Value()))
    {
      var wallet := new SecurityWallet(world, database);
      var started := wallet.Start();
      if started.Fail? { return Failure(started.error); }
      var server := new SecurityWalletServer(wallet, ids);
      if world.Sound() {
        StartAgreesIff(world, database);
      }
      return Success(server);
    }

    // -------------------------------------------------------------- checks

    method AllowedToConsume(portfolio: string, sender: string, what: string)
      returns (r: Result<set<string>, SecwException>)
      ensures r == ConsumerAccess(world, Value(), portfolio, sender, what)
    {
      var config :- GetConfiguration(wallet.configurations, portfolio);
      var allowed := CollectUsages(world.matches, config.consumers, sender);
      if allowed == {} { return Failure(IllegalAccessError(what)); }
      return Success(allowed);
    }

    method AllowedToProduce(portfolio: string, sender: string) returns (r: Result<set<string>, SecwException>)
      ensures r == ProducerAccess(world, Value(), portfolio, sender)
    {
      var config :- GetConfiguration(wallet.configurations, portfolio);
      var allowed := CollectUsages(world.matches, config.producers, sender);
      if allowed == {} { return Failure(IllegalAccessError("You do not have access to this command")); }
      return Success(allowed);
    }

    /** The portfolio to change and the usages the sender may produce in it. */
    method Open(sender: string, params: Params)
      returns (r: Result<(set<string>, PortfolioObject), SecwException>, ghost k: nat)
      requires Valid()
      ensures match OpenForChange(world, Value(), sender, params)
              case Success((allowed, i)) => k == i && r == Success((allowed, wallet.portfolios[k]))
              case Failure(e) => r == Failure(e)
    {
      if |params| < 2 { return Failure(BadArgumentError("Command need 2 arguments")), 0; }
      var allowed := AllowedToProduce(params[0], sender);
      if allowed.Failure? { return Failure(allowed.error), 0; }
      var p;
      p, k := wallet.GetPortfolio(params[0]);
      if p.Failure? { return Failure(p.error), k; }
      return Success((allowed.value, p.value)), k;
    }

    // -------------------------------------------------------------- notifications

    /** `st` with the portfolio at `k` replaced and saved, but nothing announced yet. */
    ghost predicate SavedOnly(st: State, k: nat, q: Portfolio)
      reads this`published, wallet
    {
      && k < |st.wallet.portfolios| && published == st.published
      && wallet.Value() == Commit(world, st, k, q, "").wallet
    }

    method Publish(note: string, ghost st: State, ghost k: nat, ghost q: Portfolio)
      requires SavedOnly(st, k, q)
      modifies this`published
      ensures Value() == Commit(world, st, k, q, note)
    {
      published := published + [note];
    }

    method SendNotificationOnCreate(portfolio: string, newDocument: Document, ghost d: Doc, ghost st: State,
                                    ghost k: nat, ghost q: Portfolio)
      requires newDocument.Value() == d && SavedOnly(st, k, q)
      modifies this`published
      ensures Value() == Commit(world, st, k, q, CreatedNote(world, portfolio, d))
    {
      Publish(CreatedNote(world, portfolio, newDocument.Value()), st, k, q);
    }

    method SendNotificationOnDelete(portfolio: string, oldDocument: Document, ghost d: Doc, ghost st: State,
                                    ghost k: nat, ghost q: Portfolio)
      requires oldDocument.Value() == d && SavedOnly(st, k, q)
      modifies this`published
      ensures Value() == Commit(world, st, k, q, DeletedNote(world, portfolio, d))
    {
      Publish(DeletedNote(world, portfolio, oldDocument.Value()), st, k, q);
    }

    method SendNotificationOnUpdate(portfolio: string, oldDocument: Document, newDocument: Document, ghost before: Doc,
                                    ghost d: Doc, ghost st: State, ghost k: nat, ghost q: Portfolio)
      requires oldDocument.Value() == before && newDocument.Value() == d && SavedOnly(st, k, q)
      modifies this`published
      ensures Value() == Commit(world, st, k, q, UpdatedNote(world, portfolio, before, d))
    {
      Publish(UpdatedNote(world, portfolio, oldDocument.Value(), newDocument.Value()), st, k, q);
    }

    // -------------------------------------------------------------- changes

    method StoredCopy(ghost k: nat, p: PortfolioObject, id: string) returns (copy: Document)
      requires Valid() && k < |wallet.portfolios| && p == wallet.portfolios[k] && id in wallet.state[k].byId
      ensures fresh(copy) && copy.Value() == wallet.state[k].byId[id]
    {
      var stored := wallet.CopyById(k, p, id);
      copy := stored.value;
    }

    /** The document is added and the wallet saved. */
    method SaveNew(ghost k: nat, p: PortfolioObject, doc: Document)
      returns (r: Result<string, SecwException>, ghost newId: string, ghost q: Portfolio)
      requires Valid() && k < |wallet.portfolios| && p == wallet.portfolios[k]
      modifies wallet`state, wallet`held, wallet`database, p, ids
      ensures Valid()
      ensures r.Success? ==>
                && r.value == newId && newId !in old(wallet.state[k]).byId
                && Portfolios.Add(old(wallet.state[k]), old(doc.Value()), newId) == Success(q)
                && SavedOnly(old(Value()), k, q) && wallet.state[k] == q
                && newId in q.byId && q.byId[newId] == old(doc.Value()).(id := newId)
      ensures r.Failure? ==>
                Portfolios.Add(old(wallet.state[k]), old(doc.Value()), newId) == Failure(r.error)
                && Value() == old(Value())
    {
      r, newId, q := wallet.AddAndSave(k, p, doc, ids);
      if r.Success? {
        AddPuts(old(wallet.state[k]), old(doc.Value()), newId);
      }
    }

    method AnnounceNew(portfolio: string, ghost k: nat, p: PortfolioObject, id: string, ghost stored: Doc,
                       ghost st: State)
      requires Valid() && k < |wallet.portfolios| && p == wallet.portfolios[k]
      requires id in wallet.state[k].byId && wallet.state[k].byId[id] == stored && SavedOnly(st, k, wallet.state[k])
      modifies this`published
      ensures Valid() && Value() == Commit(world, st, k, wallet.state[k], CreatedNote(world, portfolio, stored))
    {
      var copy := StoredCopy(k, p, id);
      SendNotificationOnCreate(portfolio, copy, stored, st, k, wallet.state[k]);
    }

    /** Then the stored copy is announced. */
    method StoreNew(portfolio: string, ghost k: nat, p: PortfolioObject, doc: Document, ghost d: Doc)
      returns (r: Result<string, SecwException>, ghost newId: string, ghost q: Portfolio)
      requires Valid() && k < |wallet.portfolios| && p == wallet.portfolios[k] && doc.Value() == d
      modifies this`published, wallet`state, wallet`held, wallet`database, p, ids
      ensures Valid()
      ensures r.Success? ==>
                && r.value == newId && newId !in old(wallet.state[k]).byId
                && Portfolios.Add(old(wallet.state[k]), d, newId) == Success(q)
                && Value() == Commit(world, old(Value()), k, q, CreatedNote(world, portfolio, d.(id := newId)))
      ensures r.Failure? ==>
                Portfolios.Add(old(wallet.state[k]), d, newId) == Failure(r.error) && Value() == old(Value())
    {
      r, newId, q := SaveNew(k, p, doc);
      if r.Success? {
        AnnounceNew(portfolio, k, p, r.value, d.(id := newId), old(Value()));
      }
    }

    method FindDiscarded(ghost k: nat, p: PortfolioObject, id: string, allowed: set<string>)
      returns (r: Result<Document, SecwException>)
      requires Valid() && k < |wallet.portfolios| && p == wallet.portfolios[k]
      ensures match ReadDiscarded(wallet.state[k], id, allowed)
              case Success(d) => r.Success? && fresh(r.value) && r.value.Value() == d
              case Failure(e) => r == Failure(e)
    {
      r := wallet.CopyById(k, p, id);
      if r.Success? {
        var check := CheckAllowed(r.value.usages, allowed);
        if check.Fail? { return Failure(check.error); }
      }
    }

    /** A copy of the stored document of the request's id, and another with the request merged in. */
    method MergeStored(ghost k: nat, p: PortfolioObject, si: Tree, doc: Document, ghost request: Doc,
                       allowed: set<string>)
      returns (r: Result<(Document, Document), SecwException>)
      requires Valid() && k < |wallet.portfolios| && p == wallet.portfolios[k] && doc.Value() == request
      ensures Valid()
      ensures r.Success? ==>
                && fresh(r.value.0) && fresh(r.value.1)
                && Portfolios.GetDocument(wallet.state[k], request.id) == Success(r.value.0.Value())
                && MergeRequest(world, r.value.0.Value(), si, request, allowed) == Success(r.value.1.Value())
      ensures r.Failure? ==>
                match Portfolios.GetDocument(wallet.state[k], request.id)
                case Success(existing) => MergeRequest(world, existing, si, request, allowed) == Failure(r.error)
                case Failure(e) => r.error == e
    {
      var existing := wallet.CopyById(k, p, doc.id);
      if existing.Failure? { return Failure(existing.error); }
      var docBeforeUpdate := CloneAndMerge(world, si, doc, existing.value, allowed);
      if docBeforeUpdate.Failure? { return Failure(docBeforeUpdate.error); }
      return Success((docBeforeUpdate.value, existing.value));
    }

    /** The request, the document before the update, and the working copy with the request merged in. */
    method FindMerged(ghost k: nat, p: PortfolioObject, json: string, allowed: set<string>)
      returns (r: Result<(Document, Document, Document), SecwException>)
      requires Valid() && k < |wallet.portfolios| && p == wallet.portfolios[k]
      ensures Valid()
      ensures match ReadMerged(world, wallet.state[k], json, allowed)
              case Success((request, before, merged)) =>
                && r.Success? && fresh(r.value.0) && fresh(r.value.1) && fresh(r.value.2)
                && r.value.0.Value() == request && r.value.1.Value() == before && r.value.2.Value() == merged
              case Failure(e) => r == Failure(e)
    {
      var request := ReadRequestDocument(world, json);
      if request.Failure? { return Failure(request.error); }
      var (si, doc) := request.value;
      var docs := MergeStored(k, p, si, doc, doc.Value(), allowed);
      if docs.Failure? { return Failure(docs.error); }
      return Success((doc, docs.value.0, docs.value.1));
    }

    method SaveRemoved(ghost k: nat, p: PortfolioObject, id: string)
      returns (r: Outcome<SecwException>, ghost q: Portfolio)
      requires Valid() && k < |wallet.portfolios| && p == wallet.portfolios[k]
      modifies wallet`state, wallet`held, wallet`database, p
      ensures Valid()
      ensures r.Pass? ==> Portfolios.Remove(old(wallet.state[k]), id) == Success(q) && SavedOnly(old(Value()), k, q)
      ensures r.Fail? ==> Portfolios.Remove(old(wallet.state[k]), id) == Failure(r.error) && Value() == old(Value())
    {
      r, q := wallet.RemoveAndSave(k, p, id);
    }

    method SaveUpdated(ghost k: nat, p: PortfolioObject, merged: Document, ghost now: Doc)
      returns (r: Outcome<SecwException>, ghost q: Portfolio)
      requires Valid() && k < |wallet.portfolios| && p == wallet.portfolios[k] && merged.Value() == now
      modifies wallet`state, wallet`held, wallet`database, p
      ensures Valid()
      ensures r.Pass? ==> Portfolios.Update(old(wallet.state[k]), now) == Success(q) && SavedOnly(old(Value()), k, q)
      ensures r.Fail? ==> Portfolios.Update(old(wallet.state[k]), now) == Failure(r.error) && Value() == old(Value())
    {
      r, q := wallet.UpdateAndSave(k, p, merged);
    }

    /** The document is removed, the wallet saved and the copy taken before announced. */
    method Discard(portfolio: string, ghost k: nat, p: PortfolioObject, id: string, doc: Document, ghost d: Doc)
      returns (r: Result<string, SecwException>, ghost q: Portfolio)
      requires Valid() && k < |wallet.portfolios| && p == wallet.portfolios[k] && doc.Value() == d
      modifies this`published, wallet`state, wallet`held, wallet`database, p
      ensures Valid()
      ensures r.Success? ==>
                && r.value == "OK" && Portfolios.Remove(old(wallet.state[k]), id) == Success(q)
                && Value() == Commit(world, old(Value()), k, q, DeletedNote(world, portfolio, d))
      ensures r.Failure? ==> Portfolios.Remove(old(wallet.state[k]), id) == Failure(r.error) && Value() == old(Value())
    {
      var removed;
      removed, q := SaveRemoved(k, p, id);
      if removed.Fail? { return Failure(removed.error), q; }
      SendNotificationOnDelete(portfolio, doc, d, old(Value()), k, q);
      return Success("OK"), q;
    }

    /** The merged copy is stored, the wallet saved, and the request announced. */
    method StoreMerged(portfolio: string, ghost k: nat, p: PortfolioObject, merged: Document, before: Document,
                       request: Document, ghost now: Doc, ghost former: Doc, ghost d: Doc)
      returns (r: Result<string, SecwException>, ghost q: Portfolio)
      requires Valid() && k < |wallet.portfolios| && p == wallet.portfolios[k]
      requires merged.Value() == now && before.Value() == former && request.Value() == d
      modifies this`published, wallet`state, wallet`held, wallet`database, p
      ensures Valid()
      ensures r.Success? ==>
                && r.value == "OK" && Portfolios.Update(old(wallet.state[k]), now) == Success(q)
                && Value() == Commit(world, old(Value()), k, q, UpdatedNote(world, portfolio, former, d))
      ensures r.Failure? ==> Portfolios.Update(old(wallet.state[k]), now) == Failure(r.error) && Value() == old(Value())
    {
      var updated;
      updated, q := SaveUpdated(k, p, merged, now);
      if updated.Fail? { return Failure(updated.error), q; }
      SendNotificationOnUpdate(portfolio, before, request, former, d, old(Value()), k, q);
      return Success("OK"), q;
    }

    method HandleCreate(sender: string, params: Params) returns (r: Result<string, SecwException>, ghost newId: string)
      requires Valid()
      modifies this`published, wallet`state, wallet`held, wallet`database, wallet.portfolios, ids
      ensures Valid()
      ensures match Create(world, old(Value()), sender, params, newId)
              case Success((after, text)) => r == Success(text) && Value() == after
                                             && FreshFor(old(Value()), params, newId)
              case Failure(e) => r == Failure(e) && Value() == old(Value())
    {
      var open;
      ghost var k;
      newId := "";
      open, k := Open(sender, params);
      if open.Failure? { return Failure(open.error), ""; }
      var doc := ReadNew(world, params[1], open.value.0);
      if doc.Failure? { return Failure(doc.error), ""; }
      ghost var q;
      r, newId, q := StoreNew(params[0], k, open.value.1, doc.value, doc.value.Value());
    }

    method DeleteOpened(ghost k: nat, p: PortfolioObject, allowed: set<string>, portfolio: string, id: string)
      returns (r: Result<string, SecwException>)
      requires Valid() && k < |wallet.portfolios| && p == wallet.portfolios[k]
      modifies this`published, wallet`state, wallet`held, wallet`database, p
      ensures Valid()
      ensures match DeleteIn(world, old(Value()), k, allowed, portfolio, id)
              case Success((after, text)) => r == Success(text) && Value() == after
              case Failure(e) => r == Failure(e) && Value() == old(Value())
    {
      var doc := FindDiscarded(k, p, id, allowed);
      if doc.Failure? { return Failure(doc.error); }
      ghost var q;
      r, q := Discard(portfolio, k, p, id, doc.value, doc.value.Value());
    }

    method HandleDelete(sender: string, params: Params) returns (r: Result<string, SecwException>)
      requires Valid()
      modifies this`published, wallet`state, wallet`held, wallet`database, wallet.portfolios
      ensures Valid()
      ensures match Delete(world, old(Value()), sender, params)
              case Success((after, text)) => r == Success(text) && Value() == after
              case Failure(e) => r == Failure(e) && Value() == old(Value())
    {
      var open;
      ghost var k;
      open, k := Open(sender, params);
      if open.Failure? { return Failure(open.error); }
      r := DeleteOpened(k, open.value.1, open.value.0, params[0], params[1]);
    }

    method UpdateOpened(ghost k: nat, p: PortfolioObject, allowed: set<string>, portfolio: string, json: string)
      returns (r: Result<string, SecwException>)
      requires Valid() && k < |wallet.portfolios| && p == wallet.portfolios[k]
      modifies this`published, wallet`state, wallet`held, wallet`database, p
      ensures Valid()
      ensures match UpdateIn(world, old(Value()), k, allowed, portfolio, json)
              case Success((after, text)) => r == Success(text) && Value() == after
              case Failure(e) => r == Failure(e) && Value() == old(Value())
    {
      var docs := FindMerged(k, p, json, allowed);
      if docs.Failure? { return Failure(docs.error); }
      var (doc, docBeforeUpdate, copyOfExistingDoc) := docs.value;
      ghost var q;
      r, q := StoreMerged(portfolio, k, p, copyOfExistingDoc, docBeforeUpdate, doc,
                          copyOfExistingDoc.Value(), docBeforeUpdate.Value(), doc.Value());
    }

    method HandleUpdate(sender: string, params: Params) returns (r: Result<string, SecwException>)
      requires Valid()
      modifies this`published, wallet`state, wallet`held, wallet`database, wallet.portfolios
      ensures Valid()
      ensures match UpdateDocument(world, old(Value()), sender, params)
              case Success((after, text)) => r == Success(text) && Value() == after
              case Failure(e) => r == Failure(e) && Value() == old(Value())
    {
      var open;
      ghost var k;
      open, k := Open(sender, params);
      if open.Failure? { return Failure(open.error); }
      r := UpdateOpened(k, open.value.1, open.value.0, params[0], params[1]);
    }

    // -------------------------------------------------------------- reads

    method HandleGetListPortfolio() returns (text: string)
      ensures text == ListPortfolios(world, Value())
    {
      text := Serialize(world, TextArray(wallet.configurations.Keys));
    }

    method HandleGetUsages(sender: string, params: Params, producer: bool) returns (r: Result<string, SecwException>)
      ensures r == ListUsages(world, Value(), sender, params, producer)
    {
      if |params| != 1 { return Failure(BadArgumentError("Command needs at least 1 argument")); }
      var config :- GetConfiguration(wallet.configurations, params[0]);
      var usages := CollectUsages(world.matches, if producer then config.producers else config.consumers, sender);
      return Success(Serialize(world, TextArray(usages)));
    }

    method FindDocument(ghost k: nat, p: PortfolioObject, key: string, byName: bool)
      returns (r: Result<Document, SecwException>)
      requires Valid() && k < |wallet.portfolios| && p == wallet.portfolios[k]
      ensures match Lookup(wallet.state[k], key, byName)
              case Success(d) => r.Success? && r.value.Value() == d
              case Failure(e) => r == Failure(e)
    {
      if byName {
        r := wallet.CopyByName(k, p, key);
      } else {
        r := wallet.CopyById(k, p, key);
      }
    }

    method HandleGetDocumentWithSecret(sender: string, params: Params, byName: bool)
      returns (r: Result<string, SecwException>)
      requires Valid()
      ensures r == GetWithSecret(world, Value(), sender, params, byName)
    {
      if |params| != 2 { return Failure(BadArgumentError("Command needs at least 2 arguments")); }
      var what := "You do not have access to this document";
      var allowed := AllowedToConsume(params[0], sender, what);
      if allowed.Failure? { return Failure(allowed.error); }
      var p;
      ghost var k;
      p, k := wallet.GetPortfolio(params[0]);
      if p.Failure? { return Failure(p.error); }
      var doc := FindDocument(k, p.value, params[1], byName);
      if doc.Failure? { return Failure(doc.error); }
      var common := HasCommonUsageIds(allowed.value, doc.value.usages);
      if !common { return Failure(IllegalAccessError(what)); }
      return Success(Serialize(world, WithSecret(doc.value.Value())));
    }

    method HandleGetDocumentWithoutSecret(params: Params, byName: bool) returns (r: Result<string, SecwException>)
      requires Valid()
      ensures r == GetWithoutSecret(world, Value(), params, byName)
    {
      if |params| != 2 { return Failure(BadArgumentError("Command needs at least 2 arguments")); }
      var p;
      ghost var k;
      p, k := wallet.GetPortfolio(params[0]);
      if p.Failure? { return Failure(p.error); }
      var doc := FindDocument(k, p.value, params[1], byName);
      if doc.Failure? { return Failure(doc.error); }
      return Success(Serialize(world, WithoutSecret(doc.value.Value())));
    }

    static method FilterWithSecret(list: seq<Document>, ghost docs: seq<Doc>, usages: set<string>)
      returns (items: seq<Tree>)
      requires |list| == |docs| && forall i | 0 <= i < |list| :: list[i].Value() == docs[i]
      ensures items == WriteList(Sharing(docs, usages))
    {
      items := [];
      for k := 0 to |list|
        invariant items == WriteList(Sharing(docs[..k], usages))
      {
        assert docs[..k + 1][..k] == docs[..k];
        var common := HasCommonUsageIds(list[k].usages, usages);
        if common {
          items := items + [WithSecret(list[k].Value())];
        }
      }
      assert docs[..|list|] == docs;
    }

    static method FilterWithoutSecret(list: seq<Document>, ghost docs: seq<Doc>, usages: set<string>)
      returns (items: seq<Tree>)
      requires |list| == |docs| && forall i | 0 <= i < |list| :: list[i].Value() == docs[i]
      ensures items == WriteOpenList(Shown(docs, usages))
    {
      ghost var shown: seq<Doc> := [];
      items := [];
      for k := 0 to |list|
        invariant shown == Shown(docs[..k], usages)
        invariant |items| == |shown| && forall i | 0 <= i < |items| :: items[i] == WithoutSecret(shown[i])
      {
        ShownGrows(docs, k, usages);
        var common := HasCommonUsageIds(list[k].usages, usages);
        if usages == {} || common {
          items := items + [WithoutSecret(list[k].Value())];
          shown := shown + [docs[k]];
        }
      }
      assert docs[..|list|] == docs;
    }

    method SerializeListDocuments(name: string, usages: set<string>, secret: bool)
      returns (r: Result<string, SecwException>)
      requires Valid()
      ensures match Wallets.GetPortfolio(wallet.state, name)
              case Success(k) =>
                r == Success(if secret then PrivateList(world, wallet.state[k], usages)
                             else PublicList(world, wallet.state[k], usages))
              case Failure(e) => r == Failure(e)
    {
      var p;
      ghost var k;
      p, k := wallet.GetPortfolio(name);
      if p.Failure? { return Failure(p.error); }
      assert RepresentsOne(wallet.portfolios[k], wallet.state[k], wallet.sharing, wallet.held);
      var list := p.value.GetListDocuments();
      var items;
      if secret {
        items := FilterWithSecret(list, ListDocuments(wallet.state[k]), usages);
      } else {
        items := FilterWithoutSecret(list, ListDocuments(wallet.state[k]), usages);
      }
      return Success(Serialize(world, Array(items)));
    }

    method HandleGetListDocumentsWithSecret(sender: string, params: Params) returns (r: Result<string, SecwException>)
      requires Valid()
      ensures r == GetListWithSecret(world, Value(), sender, params)
    {
      if |params| < 1 { return Failure(BadArgumentError("Command needs at least argument")); }
      var what := "You do not have access to this command";
      var allowed := AllowedToConsume(params[0], sender, what);
      if allowed.Failure? { return Failure(allowed.error); }
      var usage := "";
      if |params| >= 2 {
        usage := params[1];
      }
      if usage != "" {
        if usage !in allowed.value { return Failure(IllegalAccessError(what)); }
        r := SerializeListDocuments(params[0], {usage}, true);
      } else {
        r := SerializeListDocuments(params[0], allowed.value, true);
      }
    }

    method HandleGetListDocumentsWithoutSecret(params: Params) returns (r: Result<string, SecwException>)
      requires Valid()
      ensures r == GetListWithoutSecret(world, Value(), params)
    {
      if |params| < 1 { return Failure(BadArgumentError("Command needs at least argument")); }
      var usage := "";
      if |params| >= 2 {
        usage := params[1];
      }
      var config :- GetConfiguration(wallet.configurations, params[0]);
      if usage != "" && usage !in config.usages { return Failure(UnknownUsageIdError(usage)); }
      if usage != "" {
        r := SerializeListDocuments(params[0], {usage}, false);
      } else {
        r := SerializeListDocuments(params[0], {}, false);
      }
    }

    // -------------------------------------------------------------- requests

    method HandleRead(sender: string, cmd: string, params: Params) returns (r: Result<string, SecwException>)
      requires Valid()
      ensures r == DispatchRead(world, Value(), sender, cmd, params)
    {
      if cmd == GET_PORTFOLIO_LIST {
        var text := HandleGetListPortfolio();
        r := Success(text);
      } else if cmd == GET_CONSUMER_USAGES {
        r := HandleGetUsages(sender, params, false);
      } else if cmd == GET_PRODUCER_USAGES {
        r := HandleGetUsages(sender, params, true);
      } else if cmd == GET_LIST_WITH_SECRET {
        r := HandleGetListDocumentsWithSecret(sender, params);
      } else if cmd == GET_LIST_WITHOUT_SECRET {
        r := HandleGetListDocumentsWithoutSecret(params);
      } else if cmd == GET_WITHOUT_SECRET {
        r := HandleGetDocumentWithoutSecret(params, false);
      } else if cmd == GET_WITH_SECRET {
        r := HandleGetDocumentWithSecret(sender, params, false);
      } else if cmd == GET_WITHOUT_SECRET_BY_NAME {
        r := HandleGetDocumentWithoutSecret(params, true);
      } else if cmd == GET_WITH_SECRET_BY_NAME {
        r := HandleGetDocumentWithSecret(sender, params, true);
      } else {
        r := Failure(SecwException(UnsupportedCommand, cmd + " not supported", ""));
      }
    }

    /** Every handler answers with a text, or throws. */
    method Handle(sender: string, cmd: string, params: Params)
      returns (r: Result<string, SecwException>, ghost newId: string)
      requires Valid()
      modifies this`published, wallet`state, wallet`held, wallet`database, wallet.portfolios, ids
      ensures Valid()
      ensures match Dispatch(world, old(Value()), sender, cmd, params, newId)
              case Success((after, text)) => r == Success(text) && Value() == after
              case Failure(e) => r == Failure(e) && Value() == old(Value())
      ensures cmd == CREATE && r.Success? ==> FreshFor(old(Value()), params, newId)
    {
      newId := "";
      if cmd == CREATE {
        r, newId := HandleCreate(sender, params);
      } else if cmd == DELETE {
        r := HandleDelete(sender, params);
      } else if cmd == UPDATE {
        r := HandleUpdate(sender, params);
      } else {
        r := HandleRead(sender, cmd, params);
      }
    }

    method Reply(sender: string, payload: seq<string>) returns (frames: seq<string>, ghost newId: string)
      requires Valid()
      modifies this`published, wallet`state, wallet`held, wallet`database, wallet.portfolios, ids
      ensures Valid()
      ensures (Value(), frames) == ServerSteps.HandleRequest(world, old(Value()), sender, payload, newId)
      ensures |frames| == 2 || FreshId(old(Value()), payload, newId)
    {
      newId := "";
      if payload == [] {
        frames := ErrorReply(world, SecwException(ProtocolError, "Command frame is empty", ""));
      } else if payload[0] == "ERROR" || payload[0] == "OK" {
        frames := [];
      } else {
        var r;
        r, newId := Handle(sender, payload[0], payload[1..]);
        frames := if r.Success? then [r.value] else ErrorReply(world, r.error);
      }
    }

    /** One request: the state it leaves and the frames it answers are those of one legal step, so a good
        state stays good. */
    method HandleRequest(sender: string, payload: seq<string>) returns (frames: seq<string>, ghost newId: string)
      requires Valid()
      modifies this`published, wallet`state, wallet`held, wallet`database, wallet.portfolios, ids
      ensures Valid()
      ensures (Value(), frames) == ServerSteps.HandleRequest(world, old(Value()), sender, payload, newId)
      ensures Legal(world, old(Value()), Request(sender, payload, newId))
      ensures Value() == Next(world, old(Value()), Request(sender, payload, newId))
      ensures old(world.Sound() && Invariant(world, Value())) ==> Invariant(world, Value())
      ensures old(wallet.sharing) ==> wallet.sharing && wallet.SharesObjects()
    {
      ghost var before := Value();
      frames, newId := Reply(sender, payload);
      if wallet.sharing {
        wallet.SharedEverywhere();
      }
      if |frames| == 2 {
        ghost var unused := UnusedId(before, payload);
        FailureNeedsNoId(world, before, sender, payload, newId, unused);
        newId := unused;
      }
      if world.Sound() && Invariant(world, before) {
        RequestKeepsInvariant(world, before, sender, payload, newId);
      }
    }

    // -------------------------------------------------------------- backup and restore

    /** The text of a backup of the wallet. */
    method HandleSave(passphrase: ByteString, random: VectorSource) returns (r: Result<string, SecwException>)
      requires Valid()
      modifies random
      ensures r.Success? <==> |passphrase| >= MIN_PASSPHRASE
      ensures r.Success? ==> exists si ::
                r.value == Serialize(world, si) && IsBackup(world, world.hardwareUuid, wallet.state, passphrase, si)
    {
      var si := wallet.GetSrrSaveData(passphrase, random);
      if si.Failure? { return Failure(si.error); }
      return Success(Serialize(world, si.value));
    }

    /** A restore whose payload is refused touches nothing; one that succeeds leaves what the restore function
        gives, and objects shared exactly if the portfolios in the new file agree. */
    method RestoreTree(si: Tree, passphrase: ByteString, version: string) returns (r: Outcome<SecwException>)
      requires Valid()
      modifies wallet
      ensures r.Pass? <==> Restore(world, si, passphrase, version).Success?
      ensures r.Pass? ==>
                && Valid() && Value() == old(Value()).(wallet := Restore(world, si, passphrase, version).value)
                && wallet.sharing
                   == AllAgree(LoadDatabase(world, Restore(world, si, passphrase, version).value.database).value)
      ensures match ReadBackup(world, si, passphrase, version)
              case Failure(_) => Valid() && unchanged(wallet)
              case Success(ps) =>
                LoadConfigurations(world.configurationFile).Failure? ==>
                  Valid() && Value() == old(Value()).(wallet := Unconfigured(world, Some(SaveText(world, ps))))
    {
      r := wallet.RestoreSrrData(si, passphrase, version);
    }

    /** A payload that is refused changes nothing; one that is read and then fails, which takes a configuration
        file that no longer loads, leaves a wallet without portfolios. In a good state a restore is one step of a
        run, one that fails changes nothing, and one that keeps the state good keeps the indexes sharing their
        objects. */
    method HandleRestore(text: string, passphrase: ByteString, version: string) returns (r: Outcome<SecwException>)
      requires Valid()
      modifies wallet
      ensures match world.fromText(text)
              case BadJson(_) => r.Fail? && Valid() && unchanged(wallet)
              case Json(si) =>
                && (r.Pass? <==> Restore(world, si, passphrase, version).Success?)
                && (r.Pass? ==>
                      Valid() && Value() == old(Value()).(wallet := Restore(world, si, passphrase, version).value))
                && (match ReadBackup(world, si, passphrase, version)
                    case Failure(_) => r.Fail? && Valid() && unchanged(wallet)
                    case Success(ps) =>
                      r.Fail? && world.Sound() ==>
                        Valid() && Value() == old(Value()).(wallet := Unconfigured(world, Some(SaveText(world, ps)))))
                && (old(world.Sound() && Invariant(world, Value())) ==>
                      && Valid() && Value() == Next(world, old(Value()), RestoreBackup(si, passphrase, version))
                      && (r.Fail? ==> unchanged(wallet))
                      && (r.Pass? ==> (wallet.sharing <==> BringsNamesApart(world, si, passphrase, version))))
    {
      var si := Deserialize(world, text);
      if si.Failure? { return Fail(si.error); }
      ghost var before := Value();
      r := RestoreTree(si.value, passphrase, version);
      if world.Sound() && LoadConfigurations(world.configurationFile).Success? {
        RestoreFailsEarly(world, si.value, passphrase, version);
      }
      if world.Sound() && Invariant(world, before) {
        RestoreStep(world, before, si.value, passphrase, version);
      }
    }
  }
}
