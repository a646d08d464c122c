/** No sender changes who holds a usage it may not produce. */
module Confinement {
  import opened Configuration
  import opened DocumentLaws
  import opened Documents
  import opened Environment
  import opened Notifications
  import opened PortfolioLaws
  import opened Portfolios
  import opened Runs
  import opened ServerSteps
  import opened StepLaws
  import opened WalletLaws
  import opened Wallets
  import opened Wrappers

  function HoldersIn(p: Portfolio, usage: string): set<string> {
    set id | id in p.byId && usage in p.byId[id].usages
  }

  /** The documents of a portfolio that carry a usage. */
  function Holders(st: State, name: string, usage: string): set<string> {
    if HasPortfolio(st.wallet.portfolios, name) then HoldersIn(Target(st, name), usage) else {}
  }

  lemma CommittedHolders(w: World, st: State, after: State, target: string, p: Portfolio, note: string, name: string,
                         usage: string)
    requires Commits(w, st, after, target, p, note)
    requires target == name ==> HoldersIn(p, usage) == HoldersIn(Target(st, name), usage)
    ensures Holders(after, name, usage) == Holders(st, name, usage)
  {
    var ps := st.wallet.portfolios;
    SameNames(ps, ps[FirstNamed(ps, target) := p], name);
  }

  lemma AddedHolders(p: Portfolio, d: Doc, newId: string, usage: string)
    requires Add(p, d, newId).Success? && newId !in p.byId && usage !in d.usages
    ensures HoldersIn(Add(p, d, newId).value, usage) == HoldersIn(p, usage)
  {
  }

  lemma RemovedHolders(p: Portfolio, id: string, usage: string)
    requires Remove(p, id).Success? && usage !in p.byId[id].usages
    ensures HoldersIn(Remove(p, id).value, usage) == HoldersIn(p, usage)
  {
  }

  lemma UpdatedHolders(p: Portfolio, d: Doc, usage: string)
    requires Update(p, d).Success? && (usage in d.usages <==> usage in p.byId[d.id].usages)
    ensures HoldersIn(Update(p, d).value, usage) == HoldersIn(p, usage)
  {
  }

  lemma RequestKeepsHolders(w: World, st: State, sender: string, payload: seq<string>, newId: string, name: string,
                            usage: string)
    requires FreshId(st, payload, newId)
    requires usage !in Producible(w, st, name, sender)
    ensures Holders(HandleRequest(w, st, sender, payload, newId).0, name, usage) == Holders(st, name, usage)
  {
    if payload != [] {
      var params := payload[1..];
      var after := HandleRequest(w, st, sender, payload, newId).0;
      if payload[0] == CREATE && Create(w, st, sender, params, newId).Success? {
        var doc, p := CreateParts(w, st, sender, params, newId);
        if params[0] == name { AddedHolders(Target(st, name), doc, newId, usage); }
        CommittedHolders(w, st, after, params[0], p, CreatedNote(w, params[0], doc.(id := newId)), name, usage);
      } else if payload[0] == DELETE && Delete(w, st, sender, params).Success? {
        var doc, p := DeleteParts(w, st, sender, params);
        if params[0] == name { RemovedHolders(Target(st, name), params[1], usage); }
        CommittedHolders(w, st, after, params[0], p, DeletedNote(w, params[0], doc), name, usage);
      } else if payload[0] == UPDATE && UpdateDocument(w, st, sender, params).Success? {
        var si, request, existing, merged, p := UpdateParts(w, st, sender, params);
        MergeIsFieldWise(si, existing);
        WithoutSecretShowsIdentity(merged, request);
        if params[0] == name { UpdatedHolders(Target(st, name), merged, usage); }
        CommittedHolders(w, st, after, params[0], p, UpdatedNote(w, params[0], existing, request), name, usage);
      }
    }
  }

  lemma MarkedHolders(p: Portfolio, usage: string)
    ensures HoldersIn(MarkAll(p), usage) == HoldersIn(p, usage)
  {
  }

  lemma MarkEachKeepsHolders(st: State, after: State, name: string, usage: string)
    requires after.wallet.portfolios == MarkEach(st.wallet.portfolios)
    ensures Holders(after, name, usage) == Holders(st, name, usage)
  {
    SameNames(st.wallet.portfolios, after.wallet.portfolios, name);
    if HasPortfolio(st.wallet.portfolios, name) {
      MarkedHolders(Target(st, name), usage);
    }
  }

  lemma RestartKeepsHolders(w: World, st: State, name: string, usage: string)
    requires w.Sound() && Invariant(w, st)
    ensures Holders(Next(w, st, Restart), name, usage) == Holders(st, name, usage)
  {
    RestartKeepsInvariant(w, st);
    MarkEachKeepsHolders(st, Next(w, st, Restart), name, usage);
  }

  lemma ConfigurationsFixed(w: World, st: State, e: Event)
    requires w.Sound() && Invariant(w, st) && Legal(w, st, e)
    ensures Next(w, st, e).wallet.configurations == st.wallet.configurations
  {
    EventKeepsInvariant(w, st, e);
  }

  ghost predicate NobodyProduces(w: World, c: Configurations, events: seq<Event>, name: string, usage: string) {
    forall e | e in events && e.Request? ::
      name in c ==> usage !in ProducerUsages(w.matches, c[name], e.sender)
  }

  /** Whatever mix of requests and restarts, the documents that carry a usage no sender of the run may
      produce are the same before and after. */
  lemma {:induction false} UsageConfined(w: World, st: State, events: seq<Event>, name: string, usage: string)
    requires w.Sound() && Invariant(w, st) && LegalRun(w, st, events) && NoRestore(events)
    requires NobodyProduces(w, st.wallet.configurations, events, name, usage)
    ensures Holders(Run(w, st, events), name, usage) == Holders(st, name, usage)
    decreases |events|
  {
    if events == [] {
    } else {
      var e := events[0];
      assert e in events;
      EventKeepsInvariant(w, st, e);
      ConfigurationsFixed(w, st, e);
      EventKeepsHolders(w, st, e, name, usage);
      UsageConfined(w, Next(w, st, e), events[1..], name, usage);
    }
  }

  lemma EventKeepsHolders(w: World, st: State, e: Event, name: string, usage: string)
    requires w.Sound() && Invariant(w, st) && Legal(w, st, e) && !e.RestoreBackup?
    requires e.Request? ==> usage !in Producible(w, st, name, e.sender)
    ensures Holders(Next(w, st, e), name, usage) == Holders(st, name, usage)
  {
    match e
    case Request(sender, payload, newId) => RequestKeepsHolders(w, st, sender, payload, newId, name, usage);
    case Restart => RestartKeepsHolders(w, st, name, usage);
  }
}
