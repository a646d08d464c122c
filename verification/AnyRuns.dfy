/** What holds after every run whatever it was made of: documents with one name brought by a restore, ids drawn
    twice, foreign code that keeps none of its promises. */
module AnyRuns {
  import opened Documents
  import opened Environment
  import opened Loading
  import opened Ordering
  import opened PortfolioLaws
  import opened Portfolios
  import opened Restores
  import opened Runs
  import opened Serialization
  import opened ServerSteps
  import opened StepLaws
  import opened WalletLaws
  import opened Wallets
  import opened Wrappers

  /** Every entry of either index is a valid document under its own id, or its own name. */
  ghost predicate Sane(w: World, p: Portfolio) {
    && (forall id | id in p.byId :: p.byId[id].id == id && IsValid(w, p.byId[id]))
    && (forall n | n in p.byName :: p.byName[n].name == n && IsValid(w, p.byName[n]))
  }

  ghost predicate AllSane(w: World, ps: seq<Portfolio>) {
    forall p | p in ps :: Sane(w, p)
  }

  /** The configurations are those of the file, each has its portfolio, and the portfolios are sane. */
  ghost predicate Lasting(w: World, st: State) {
    && LoadConfigurations(w.configurationFile) == Success(st.wallet.configurations)
    && Resolves(st.wallet.configurations, st.wallet.portfolios)
    && AllSane(w, st.wallet.portfolios)
  }

  lemma InvariantIsLasting(w: World, st: State)
    requires Invariant(w, st)
    ensures Lasting(w, st)
  {
    DurableIsConfigured(w, st.wallet);
    forall p | p in st.wallet.portfolios ensures Sane(w, p) {
      var i :| 0 <= i < |st.wallet.portfolios| && st.wallet.portfolios[i] == p;
      assert Agree(st.wallet.portfolios[i]);
    }
  }

  // ---------------------------------------------------------------- loaded portfolios

  lemma IndexedIsSane(w: World, name: string, docs: seq<Doc>)
    requires forall d | d in docs :: IsValid(w, d)
    ensures Sane(w, Indexed(name, docs))
  {
    IndexedKeepsIds(w, name, docs);
    forall n | n in IndexByName(docs) ensures IndexByName(docs)[n].name == n && IsValid(w, IndexByName(docs)[n]) {
      var i := NameHasLast(docs, n);
      IndexHoldsLast(docs, i);
      assert docs[i] in docs;
    }
  }

  lemma {:induction false} LoadedAreSane(w: World, items: seq<Tree>)
    requires LoadPortfolios(w, items).Success?
    ensures AllSane(w, LoadPortfolios(w, items).value)
    decreases |items|
  {
    if items == [] {
    } else {
      var n := |items| - 1;
      LoadedAreSane(w, items[..n]);
      var (name, documents) := ReadPortfolioHeader(items[n]).value;
      AcceptedAreValid(w, documents);
      IndexedIsSane(w, name, Accepted(w, documents));
    }
  }

  lemma DatabaseIsSane(w: World, database: Option<string>)
    requires LoadDatabase(w, database).Success?
    ensures AllSane(w, LoadDatabase(w, database).value)
  {
    match database
    case None =>
    case Some(text) =>
      match w.fromText(text)
      case Json(root) =>
        if FindByte(root, "version") == Some(1) { LoadedAreSane(w, FilePortfolios(w, database)); }
  }

  lemma ReloadIsLasting(w: World, database: Option<string>, published: seq<string>)
    requires Reload(w, database).Success?
    ensures Lasting(w, State(Reload(w, database).value, published))
  {
    var c, loaded := LoadConfigurations(w.configurationFile).value, LoadDatabase(w, database).value;
    DatabaseIsSane(w, database);
    ConfiguredResolve(c, loaded);
    MissingAdded(loaded, Ascending(c.Keys));
    var all := AddMissing(loaded, Ascending(c.Keys));
    forall p | p in all ensures Sane(w, p) {
      var i :| 0 <= i < |all| && all[i] == p;
      assert i < |loaded| ==> p in loaded;
    }
  }

  // ---------------------------------------------------------------- steps

  lemma AddKeepsSane(w: World, p: Portfolio, d: Doc, newId: string)
    requires Sane(w, p) && IsValid(w, d) && Add(p, d, newId).Success?
    ensures Sane(w, Add(p, d, newId).value)
  {
  }

  lemma RemoveKeepsSane(w: World, p: Portfolio, id: string)
    requires Sane(w, p) && Remove(p, id).Success?
    ensures Sane(w, Remove(p, id).value)
  {
  }

  lemma UpdateKeepsSane(w: World, p: Portfolio, d: Doc)
    requires Sane(w, p) && IsValid(w, d) && Update(p, d).Success?
    ensures Sane(w, Update(p, d).value)
  {
  }

  lemma CommitIsLasting(w: World, st: State, after: State, name: string, p: Portfolio, note: string)
    requires Lasting(w, st) && Commits(w, st, after, name, p, note) && Sane(w, p)
    ensures Lasting(w, after)
  {
    var c, ps, k := st.wallet.configurations, st.wallet.portfolios, FirstNamed(st.wallet.portfolios, name);
    forall n | n in c ensures HasPortfolio(ps[k := p], n) {
      FirstNamedIn(ps[k := p], n, FirstNamed(ps, n));
    }
  }

  lemma RequestIsLasting(w: World, st: State, sender: string, payload: seq<string>, newId: string)
    requires Lasting(w, st)
    ensures Lasting(w, HandleRequest(w, st, sender, payload, newId).0)
  {
    var after := HandleRequest(w, st, sender, payload, newId).0;
    if after != st {
      var params := payload[1..];
      if payload[0] == CREATE {
        var doc, p := CreateParts(w, st, sender, params, newId);
        AddKeepsSane(w, Target(st, params[0]), doc, newId);
        CommitIsLasting(w, st, after, params[0], p, CreatedNote(w, params[0], doc.(id := newId)));
      } else if payload[0] == DELETE {
        var doc, p := DeleteParts(w, st, sender, params);
        RemoveKeepsSane(w, Target(st, params[0]), params[1]);
        CommitIsLasting(w, st, after, params[0], p, DeletedNote(w, params[0], doc));
      } else {
        var si, request, existing, merged, p := UpdateParts(w, st, sender, params);
        UpdateKeepsSane(w, Target(st, params[0]), merged);
        CommitIsLasting(w, st, after, params[0], p, UpdatedNote(w, params[0], existing, request));
      }
    }
  }

  lemma EventIsLasting(w: World, st: State, e: Event)
    requires Lasting(w, st)
    ensures Lasting(w, Next(w, st, e))
  {
    match e
    case Request(sender, payload, newId) => RequestIsLasting(w, st, sender, payload, newId);
    case Restart =>
      if Reload(w, st.wallet.database).Success? { ReloadIsLasting(w, st.wallet.database, st.published); }
    case RestoreBackup(si, passphrase, version) =>
      if ReadBackup(w, si, passphrase, version).Success? {
        var database := Some(SaveText(w, ReadBackup(w, si, passphrase, version).value));
        if Reload(w, database).Success? { ReloadIsLasting(w, database, st.published); }
      }
  }

  /** In every run at all, legal or not and whatever the foreign code does: the configurations stay those of the
      file, each of them resolves, and no index ever holds a document that is not valid or not its own. */
  lemma {:induction false} LastingHolds(w: World, st: State, events: seq<Event>)
    requires Lasting(w, st)
    ensures Lasting(w, Run(w, st, events))
    decreases |events|
  {
    if events == [] {
    } else {
      EventIsLasting(w, st, events[0]);
      LastingHolds(w, Next(w, st, events[0]), events[1..]);
    }
  }

  /** Every start that succeeds gives such a state, whatever the file holds. */
  lemma StartIsLasting(w: World, database: Option<string>)
    requires Startup(w, database).Success?
    ensures Lasting(w, State(Startup(w, database).value, []))
  {
    ReloadIsLasting(w, database, []);
  }
}
