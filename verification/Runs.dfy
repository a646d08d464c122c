/** What holds in every state a run of the server reaches. */
module Runs {
  import opened Documents
  import opened Encryption
  import opened Environment
  import opened Loading
  import opened Ordering
  import opened PortfolioLaws
  import opened Portfolios
  import opened Restores
  import opened Serialization
  import opened ServerSteps
  import opened StepLaws
  import opened WalletLaws
  import opened Wallets
  import opened Wrappers

  /** What happens to a server: a request with the identifier its creation would draw, a restart of the
      process, or the restoration of a backup. */
  datatype Event =
    | Request(sender: string, payload: seq<string>, newId: string)
    | Restart
    | RestoreBackup(si: Tree, passphrase: ByteString, version: string)

  function Next(w: World, st: State, e: Event): State {
    match e
    case Request(sender, payload, newId) => HandleRequest(w, st, sender, payload, newId).0
    case Restart => st.(wallet := Startup(w, st.wallet.database).OrElse(st.wallet))
    case RestoreBackup(si, passphrase, version) => st.(wallet := Restore(w, si, passphrase, version).OrElse(st.wallet))
  }

  /** The id source never gives an identifier in use in the portfolio a document is created in. */
  ghost predicate FreshId(st: State, payload: seq<string>, newId: string) {
    |payload| >= 2 && payload[0] == CREATE && HasPortfolio(st.wallet.portfolios, payload[1]) ==>
      newId !in st.wallet.portfolios[FirstNamed(st.wallet.portfolios, payload[1])].byId
  }

  /** A backup that some good wallet made, on this platform or another. */
  ghost predicate MadeByBackup(w: World, si: Tree, passphrase: ByteString) {
    exists savedOn: ByteString, ps: seq<Portfolio> :: Good(w, ps) && IsBackup(w, savedOn, ps, passphrase, si)
  }

  ghost predicate Legal(w: World, st: State, e: Event) {
    match e
    case Request(_, payload, newId) => FreshId(st, payload, newId)
    case Restart => true
    case RestoreBackup(si, passphrase, version) => BringsNamesApart(w, si, passphrase, version)
  }

  function Run(w: World, st: State, events: seq<Event>): State
    decreases |events|
  {
    if events == [] then st else Run(w, Next(w, st, events[0]), events[1..])
  }

  ghost predicate LegalRun(w: World, st: State, events: seq<Event>)
    decreases |events|
  {
    events != [] ==> Legal(w, st, events[0]) && LegalRun(w, Next(w, st, events[0]), events[1..])
  }

  // ---------------------------------------------------------------- the invariant

  ghost predicate Resolves(c: Configurations, ps: seq<Portfolio>) {
    forall n | n in c :: HasPortfolio(ps, n)
  }

  /** What a restart would load is what the wallet holds, up to the private data marks. */
  ghost predicate Durable(w: World, v: Wallet) {
    Reload(w, v.database) == Success(Wallet(v.configurations, MarkEach(v.portfolios), v.database))
  }

  ghost predicate Invariant(w: World, st: State) {
    var v := st.wallet;
    && Good(w, v.portfolios)
    && Resolves(v.configurations, v.portfolios)
    && Durable(w, v)
  }

  lemma DurableIsConfigured(w: World, v: Wallet)
    requires Durable(w, v)
    ensures LoadConfigurations(w.configurationFile) == Success(v.configurations)
  {
  }

  lemma MarkEachResolves(c: Configurations, ps: seq<Portfolio>)
    requires Resolves(c, ps)
    ensures Resolves(c, MarkEach(ps))
  {
    forall n | n in c ensures HasPortfolio(MarkEach(ps), n) {
      FirstNamedIn(MarkEach(ps), n, FirstNamed(ps, n));
    }
  }

  /** A good wallet that has just been saved loses nothing in a reload. */
  lemma SavedIsDurable(w: World, c: Configurations, ps: seq<Portfolio>)
    requires w.Sound() && LoadConfigurations(w.configurationFile) == Success(c)
    requires Good(w, ps) && Resolves(c, ps)
    ensures Durable(w, Wallet(c, ps, Some(SaveText(w, ps))))
  {
    LoadSaved(w, ps);
    LoadWritten(w, ps);
    MarkEachResolves(c, ps);
    MissingAdded(MarkEach(ps), Ascending(c.Keys));
  }

  lemma ReplacedIsGood(w: World, c: Configurations, ps: seq<Portfolio>, k: nat, p: Portfolio)
    requires Good(w, ps) && Resolves(c, ps)
    requires k < |ps| && p.name == ps[k].name && Agree(p) && AllValid(w, p)
    ensures Good(w, ps[k := p]) && Resolves(c, ps[k := p])
  {
    forall n | n in c ensures HasPortfolio(ps[k := p], n) {
      FirstNamedIn(ps[k := p], n, FirstNamed(ps, n));
    }
  }

  /** Replacing one portfolio by a good one of the same name keeps the invariant. */
  lemma CommitKeepsInvariant(w: World, st: State, after: State, name: string, p: Portfolio, note: string)
    requires w.Sound() && Invariant(w, st)
    requires Commits(w, st, after, name, p, note) && Agree(p) && AllValid(w, p)
    ensures Invariant(w, after)
  {
    var c, ps, k := st.wallet.configurations, st.wallet.portfolios, FirstNamed(st.wallet.portfolios, name);
    DurableIsConfigured(w, st.wallet);
    ReplacedIsGood(w, c, ps, k, p);
    SavedIsDurable(w, c, ps[k := p]);
  }

  lemma CreateKeepsInvariant(w: World, st: State, sender: string, params: Params, newId: string)
    requires w.Sound() && Invariant(w, st) && FreshId(st, [CREATE] + params, newId)
    ensures Create(w, st, sender, params, newId).Success? ==> Invariant(w, Create(w, st, sender, params, newId).value.0)
  {
    if Create(w, st, sender, params, newId).Success? {
      var doc, p := CreateParts(w, st, sender, params, newId);
      assert ([CREATE] + params)[1] == params[0];
      AddKeepsAgreement(w, Target(st, params[0]), doc, newId);
      CommitKeepsInvariant(w, st, Create(w, st, sender, params, newId).value.0, params[0], p,
                           CreatedNote(w, params[0], doc.(id := newId)));
    }
  }

  lemma DeleteKeepsInvariant(w: World, st: State, sender: string, params: Params)
    requires w.Sound() && Invariant(w, st)
    ensures Delete(w, st, sender, params).Success? ==> Invariant(w, Delete(w, st, sender, params).value.0)
  {
    if Delete(w, st, sender, params).Success? {
      var doc, p := DeleteParts(w, st, sender, params);
      RemoveKeepsAgreement(w, Target(st, params[0]), params[1]);
      CommitKeepsInvariant(w, st, Delete(w, st, sender, params).value.0, params[0], p, DeletedNote(w, params[0], doc));
    }
  }

  lemma UpdateKeepsInvariant(w: World, st: State, sender: string, params: Params)
    requires w.Sound() && Invariant(w, st)
    ensures UpdateDocument(w, st, sender, params).Success? ==>
              Invariant(w, UpdateDocument(w, st, sender, params).value.0)
  {
    if UpdateDocument(w, st, sender, params).Success? {
      var si, request, existing, merged, p := UpdateParts(w, st, sender, params);
      UpdateKeepsAgreement(w, Target(st, params[0]), merged);
      CommitKeepsInvariant(w, st, UpdateDocument(w, st, sender, params).value.0, params[0], p,
                           UpdatedNote(w, params[0], existing, request));
    }
  }

  lemma RequestKeepsInvariant(w: World, st: State, sender: string, payload: seq<string>, newId: string)
    requires w.Sound() && Invariant(w, st) && FreshId(st, payload, newId)
    ensures Invariant(w, HandleRequest(w, st, sender, payload, newId).0)
  {
    if payload != [] {
      var params := payload[1..];
      if payload[0] == CREATE {
        assert payload == [CREATE] + params;
        CreateKeepsInvariant(w, st, sender, params, newId);
      } else if payload[0] == DELETE {
        DeleteKeepsInvariant(w, st, sender, params);
      } else if payload[0] == UPDATE {
        UpdateKeepsInvariant(w, st, sender, params);
      }
    }
  }

  lemma RestartGives(w: World, v: Wallet)
    requires Durable(w, v)
    ensures var ps := MarkEach(v.portfolios);
            Startup(w, v.database) == Success(Wallet(v.configurations, ps, Some(SaveText(w, ps))))
  {
  }

  lemma RestartKeepsInvariant(w: World, st: State)
    requires w.Sound() && Invariant(w, st)
    ensures Invariant(w, Next(w, st, Restart))
    ensures Next(w, st, Restart).wallet.portfolios == MarkEach(st.wallet.portfolios)
  {
    RestartGives(w, st.wallet);
    DurableIsConfigured(w, st.wallet);
    MarkEachGood(w, st.wallet.portfolios);
    MarkEachResolves(st.wallet.configurations, st.wallet.portfolios);
    SavedIsDurable(w, st.wallet.configurations, MarkEach(st.wallet.portfolios));
  }

  lemma GoodWithMissing(w: World, ps: seq<Portfolio>, names: seq<string>)
    ensures Good(w, AddMissing(ps, names)) <==> Good(w, ps)
  {
    MissingAdded(ps, names);
    if Good(w, ps) {
      MissingKeepsGood(w, ps, names);
    }
    if Good(w, AddMissing(ps, names)) {
      forall i | 0 <= i < |ps| ensures Agree(ps[i]) && AllValid(w, ps[i]) { assert AddMissing(ps, names)[i] == ps[i]; }
    }
  }

  lemma ConfiguredResolve(c: Configurations, ps: seq<Portfolio>)
    ensures Resolves(c, AddMissing(ps, Ascending(c.Keys)))
  {
    MissingAdded(ps, Ascending(c.Keys));
  }

  /** What a restore does once the payload is read, in a wallet that is configured. */
  lemma RestoredWallet(w: World, c: Configurations, si: Tree, passphrase: ByteString, version: string)
    requires w.Sound() && LoadConfigurations(w.configurationFile) == Success(c)
    requires ReadBackup(w, si, passphrase, version).Success?
    ensures var ps := ReadBackup(w, si, passphrase, version).value;
            && LoadDatabase(w, Some(SaveText(w, ps))) == Success(ReloadedEach(ps))
            && Restore(w, si, passphrase, version)
               == Success(Wallet(c, AddMissing(ReloadedEach(ps), Ascending(c.Keys)), Some(SaveText(w, ps))))
            && MarkEach(ReloadedEach(ps)) == ReloadedEach(ps)
            && (Good(w, ReloadedEach(ps)) <==> BringsNamesApart(w, si, passphrase, version))
            && (AllAgree(ReloadedEach(ps)) <==> BringsNamesApart(w, si, passphrase, version))
  {
    var ps := ReadBackup(w, si, passphrase, version).value;
    ReadBackupKeepsIds(w, si, passphrase, version);
    SavedListIsGoodIff(w, ps);
    EachAgreesIff(w, ps);
  }

  lemma ReloadedIsDurable(w: World, c: Configurations, loaded: seq<Portfolio>, database: Option<string>)
    requires LoadConfigurations(w.configurationFile) == Success(c)
    requires LoadDatabase(w, database) == Success(loaded) && MarkEach(loaded) == loaded
    ensures var v := Wallet(c, AddMissing(loaded, Ascending(c.Keys)), database);
            Durable(w, v) && Resolves(c, v.portfolios)
  {
    ConfiguredResolve(c, loaded);
    MarkMissing(loaded, Ascending(c.Keys));
  }

  /** A restore keeps the invariant exactly if the payload is refused or brings no portfolio in which two
      documents share a name; the same decides whether the indexes loaded in it agree. */
  lemma RestoreKeepsInvariantIff(w: World, st: State, si: Tree, passphrase: ByteString, version: string)
    requires w.Sound() && Invariant(w, st)
    ensures Invariant(w, Next(w, st, RestoreBackup(si, passphrase, version)))
       <==> BringsNamesApart(w, si, passphrase, version)
    ensures Restore(w, si, passphrase, version).Success? ==>
              LoadDatabase(w, Restore(w, si, passphrase, version).value.database).Success?
              && (AllAgree(LoadDatabase(w, Restore(w, si, passphrase, version).value.database).value)
                  <==> BringsNamesApart(w, si, passphrase, version))
  {
    if ReadBackup(w, si, passphrase, version).Success? {
      var c, loaded := st.wallet.configurations, ReloadedEach(ReadBackup(w, si, passphrase, version).value);
      DurableIsConfigured(w, st.wallet);
      RestoredWallet(w, c, si, passphrase, version);
      GoodWithMissing(w, loaded, Ascending(c.Keys));
      ReloadedIsDurable(w, c, loaded, Some(SaveText(w, ReadBackup(w, si, passphrase, version).value)));
    }
  }

  /** A payload that is accepted and breaks the invariant: any two valid documents with one name and two ids. */
  lemma NamesakesBreakInvariant(w: World, st: State, name: string, one: Doc, two: Doc, passphrase: ByteString,
                                iv: InitVector)
    requires w.Sound() && Invariant(w, st) && |passphrase| >= MIN_PASSPHRASE
    requires IsValid(w, one) && IsValid(w, two) && one.id != two.id && one.name == two.name
    ensures var si := BackupOf(w, name, [one, two], passphrase, iv);
            && Restore(w, si, passphrase, "1.0").Success?
            && !Invariant(w, Next(w, st, RestoreBackup(si, passphrase, "1.0")))
  {
    var si := BackupOf(w, name, [one, two], passphrase, iv);
    NamesakesNotApart(w, name, one, two, passphrase, iv);
    DurableIsConfigured(w, st.wallet);
    RestoreFailsEarly(w, si, passphrase, "1.0");
    RestoreKeepsInvariantIff(w, st, si, passphrase, "1.0");
  }

  /** Backups of good wallets may be restored in any run. */
  lemma OwnBackupsAreLegal(w: World, st: State, si: Tree, passphrase: ByteString, version: string)
    requires w.Sound() && MadeByBackup(w, si, passphrase)
    ensures Legal(w, st, RestoreBackup(si, passphrase, version))
  {
    var savedOn: ByteString, ps: seq<Portfolio> :| Good(w, ps) && IsBackup(w, savedOn, ps, passphrase, si);
    BackupBringsNamesApart(w, savedOn, ps, passphrase, si, version);
  }

  /** Marking adds nothing to portfolios already marked, nor to the empty ones added to them. */
  lemma MarkMissing(ps: seq<Portfolio>, names: seq<string>)
    requires MarkEach(ps) == ps
    ensures MarkEach(AddMissing(ps, names)) == AddMissing(ps, names)
  {
    MissingAdded(ps, names);
    var all := AddMissing(ps, names);
    forall i | 0 <= i < |all| ensures MarkAll(all[i]) == all[i] {
      if i < |ps| { assert all[i] == ps[i] == MarkEach(ps)[i]; } else { assert all[i] == EmptyPortfolio(all[i].name); }
    }
  }

  lemma EventKeepsInvariant(w: World, st: State, e: Event)
    requires w.Sound() && Invariant(w, st) && Legal(w, st, e)
    ensures Invariant(w, Next(w, st, e))
  {
    match e
    case Request(sender, payload, newId) => RequestKeepsInvariant(w, st, sender, payload, newId);
    case Restart => RestartKeepsInvariant(w, st);
    case RestoreBackup(si, passphrase, version) => RestoreKeepsInvariantIff(w, st, si, passphrase, version);
  }

  /** In every reachable state: the indexes of every portfolio agree, every stored document is valid,
      every configured portfolio resolves, and a restart gives back exactly the portfolios held. */
  lemma {:induction false} InvariantHolds(w: World, st: State, events: seq<Event>)
    requires w.Sound() && Invariant(w, st) && LegalRun(w, st, events)
    ensures Invariant(w, Run(w, st, events))
    decreases |events|
  {
    if events == [] {
    } else {
      EventKeepsInvariant(w, st, events[0]);
      InvariantHolds(w, Next(w, st, events[0]), events[1..]);
    }
  }

  // ---------------------------------------------------------------- the first state

  lemma {:induction false} AcceptedAreValid(w: World, items: seq<Tree>)
    ensures forall d | d in Accepted(w, items) :: IsValid(w, d)
  {
    if items == [] {
    } else {
      AcceptedAreValid(w, items[..|items| - 1]);
    }
  }

  lemma LoadedIsValid(w: World, name: string, items: seq<Tree>)
    ensures AllValid(w, Indexed(name, Accepted(w, items)))
  {
    var docs := Accepted(w, items);
    AcceptedAreValid(w, items);
    forall id | id in IndexById(docs) ensures IsValid(w, IndexById(docs)[id]) {
      var i := IdHasLast(docs, id);
      IndexHoldsLast(docs, i);
      assert docs[i] in docs;
    }
  }

  /** No accepted document of this portfolio is shadowed by a later one in one index only. */
  ghost predicate Unshadowed(w: World, si: Tree) {
    ReadPortfolioHeader(si).Success? ==> ShadowedTogether(Accepted(w, ReadPortfolioHeader(si).value.1))
  }

  lemma LoadedIsGood(w: World, si: Tree)
    requires LoadPortfolio(w, si).Success?
    ensures AllValid(w, LoadPortfolio(w, si).value)
    ensures Agree(LoadPortfolio(w, si).value) <==> Unshadowed(w, si)
  {
    var (name, items) := ReadPortfolioHeader(si).value;
    LoadedIsValid(w, name, items);
    LoadedIndexesAgree(name, Accepted(w, items));
  }

  lemma {:induction false} LoadedAreGood(w: World, items: seq<Tree>)
    requires LoadPortfolios(w, items).Success?
    ensures Good(w, LoadPortfolios(w, items).value) <==> forall si | si in items :: Unshadowed(w, si)
  {
    if items == [] {
    } else {
      var n := |items| - 1;
      LoadedAreGood(w, items[..n]);
      LoadedIsGood(w, items[n]);
      var before, all := LoadPortfolios(w, items[..n]).value, LoadPortfolios(w, items).value;
      assert all == before + [LoadPortfolio(w, items[n]).value];
      assert forall si | si in items :: si in items[..n] || si == items[n];
      assert Good(w, all) ==> Good(w, before) by {
        if Good(w, all) {
          forall i | 0 <= i < |before| ensures Agree(before[i]) && AllValid(w, before[i]) {
            assert all[i] == before[i];
          }
        }
      }
      assert Good(w, all) ==> Agree(all[|before|]);
    }
  }

  lemma DatabaseIsGood(w: World, database: Option<string>)
    requires LoadDatabase(w, database).Success?
    ensures Good(w, LoadDatabase(w, database).value)
       <==> forall si | si in FilePortfolios(w, database) :: Unshadowed(w, si)
  {
    match database
    case None =>
    case Some(text) =>
      match w.fromText(text)
      case Json(root) =>
        if FindByte(root, "version") == Some(1) { LoadedAreGood(w, FilePortfolios(w, database)); }
  }

  lemma {:induction false} LoadedAreValid(w: World, items: seq<Tree>)
    requires LoadPortfolios(w, items).Success?
    ensures forall p | p in LoadPortfolios(w, items).value :: AllValid(w, p)
  {
    if items == [] {
    } else {
      var n := |items| - 1;
      LoadedAreValid(w, items[..n]);
      LoadedIsGood(w, items[n]);
    }
  }

  /** The same condition decides whether the loaded indexes agree. */
  lemma DatabaseAgrees(w: World, database: Option<string>)
    requires LoadDatabase(w, database).Success?
    ensures AllAgree(LoadDatabase(w, database).value)
       <==> forall si | si in FilePortfolios(w, database) :: Unshadowed(w, si)
  {
    DatabaseIsGood(w, database);
    var ps := LoadDatabase(w, database).value;
    if database.Some? && FindByte(w.fromText(database.value).tree, "version") == Some(1) {
      LoadedAreValid(w, FilePortfolios(w, database));
    }
    assert forall i | 0 <= i < |ps| :: ps[i] in ps;
    assert Good(w, ps) <==> AllAgree(ps);
  }

  /** A server starts in a good state exactly when no document of its file is shadowed in one index
      only. */
  lemma StartupEstablishesInvariant(w: World, database: Option<string>)
    requires w.Sound() && Startup(w, database).Success?
    ensures Invariant(w, State(Startup(w, database).value, []))
       <==> forall si | si in FilePortfolios(w, database) :: Unshadowed(w, si)
  {
    var loaded, c := LoadDatabase(w, database).value, LoadConfigurations(w.configurationFile).value;
    DatabaseIsGood(w, database);
    GoodWithMissing(w, loaded, Ascending(c.Keys));
    ConfiguredResolve(c, loaded);
    if Good(w, loaded) {
      SavedIsDurable(w, c, AddMissing(loaded, Ascending(c.Keys)));
    }
  }

  /** The first start of all, without a file: every configured portfolio, empty. */
  lemma FirstStart(w: World)
    requires w.Sound() && LoadConfigurations(w.configurationFile).Success?
    ensures Startup(w, None).Success? && Invariant(w, State(Startup(w, None).value, []))
    ensures forall p | p in Startup(w, None).value.portfolios :: p == EmptyPortfolio(p.name)
  {
    var names := Ascending(LoadConfigurations(w.configurationFile).value.Keys);
    StartupEstablishesInvariant(w, None);
    MissingAdded([], names);
  }

  /** A start gives a good state exactly if the indexes it loads agree. */
  lemma StartAgreesIff(w: World, database: Option<string>)
    requires w.Sound() && Startup(w, database).Success?
    ensures LoadDatabase(w, database).Success?
    ensures AllAgree(LoadDatabase(w, database).value) <==> Invariant(w, State(Startup(w, database).value, []))
  {
    DatabaseAgrees(w, database);
    StartupEstablishesInvariant(w, database);
  }
}
