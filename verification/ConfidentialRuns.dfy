/** What a client can learn over a whole run of the secrets it may not read. */
module ConfidentialRuns {
  import opened Confidentiality
  import opened ConfidentialSteps
  import opened ConfidentialUpdates
  import opened Changes
  import opened DocumentLaws
  import opened Encryption
  import opened Environment
  import opened PortfolioLaws
  import opened Portfolios
  import opened ReadPaths
  import opened Runs
  import opened ServerSteps
  import opened Wallets
  import opened Wrappers

  // ---------------------------------------------------------------- one event

  /** If the event is an update, the stored documents do not show in it. */
  ghost predicate EventHides(w: World, st: State, su: State, observer: string, e: Event) {
    match e
    case Request(sender, payload, _) =>
      payload != [] && payload[0] == UPDATE ==> UpdateHides(w, st, su, observer, sender, payload[1..])
    case _ => true
  }

  lemma ChangeTellsNothing(w: World, st: State, su: State, observer: string, sender: string, cmd: string,
                           params: Params, newId: string)
    requires w.Sound() && Alike(w, st, su, observer) && IsChangeCommand(cmd)
    requires cmd == UPDATE ==> UpdateHides(w, st, su, observer, sender, params)
    ensures SameStep(w, observer, Dispatch(w, st, sender, cmd, params, newId),
                     Dispatch(w, su, sender, cmd, params, newId))
  {
    if cmd == CREATE {
      CreateTellsNothing(w, st, su, observer, sender, params, newId);
    } else if cmd == DELETE {
      DeleteTellsNothing(w, st, su, observer, sender, params);
    } else {
      UpdateHidesIff(w, st, su, observer, sender, params);
    }
  }

  lemma ReadIs(w: World, st: State, sender: string, cmd: string, params: Params, newId: string)
    requires !IsChangeCommand(cmd)
    ensures Dispatch(w, st, sender, cmd, params, newId) == Unchanged(st, DispatchRead(w, st, sender, cmd, params))
  {
  }

  /** The states stay the same to the observer, and so is the reply, to the observer or to whoever asked for a
      change. */
  lemma RequestTellsNothing(w: World, st: State, su: State, observer: string, sender: string, payload: seq<string>,
                            newId: string)
    requires w.Sound() && Alike(w, st, su, observer)
    requires EventHides(w, st, su, observer, Request(sender, payload, newId))
    ensures var a, b := HandleRequest(w, st, sender, payload, newId), HandleRequest(w, su, sender, payload, newId);
            && Alike(w, a.0, b.0, observer)
            && (sender == observer || (payload != [] && IsChangeCommand(payload[0])) ==> a.1 == b.1)
  {
    if payload != [] {
      if IsChangeCommand(payload[0]) {
        ChangeTellsNothing(w, st, su, observer, sender, payload[0], payload[1..], newId);
      } else {
        ReadIs(w, st, sender, payload[0], payload[1..], newId);
        ReadIs(w, su, sender, payload[0], payload[1..], newId);
        if sender == observer {
          ReadsTellNothing(w, st, su, observer, payload[0], payload[1..]);
        }
      }
    }
  }

  lemma SameMarked(usages: set<string>, p: Portfolio, q: Portfolio)
    requires SamePortfolio(usages, p, q)
    ensures SamePortfolio(usages, MarkAll(p), MarkAll(q))
  {
    forall id | id in p.byId ensures SameTo(usages, MarkPrivate(p.byId[id]), MarkPrivate(q.byId[id])) {
      assert SameTo(usages, p.byId[id], q.byId[id]);
    }
    forall n | n in p.byName ensures SameTo(usages, MarkPrivate(p.byName[n]), MarkPrivate(q.byName[n])) {
      assert SameTo(usages, p.byName[n], q.byName[n]);
    }
  }

  /** Only the portfolios and the file change, and the observer finds the portfolios the same. */
  lemma SameReplaced(w: World, st: State, su: State, observer: string, v: Wallet, u: Wallet)
    requires Alike(w, st, su, observer) && v.configurations == u.configurations == st.wallet.configurations
    requires |v.portfolios| == |u.portfolios|
    requires forall i | 0 <= i < |v.portfolios| ::
               SamePortfolio(Consumable(w, st, v.portfolios[i].name, observer), v.portfolios[i], u.portfolios[i])
    ensures Alike(w, st.(wallet := v), su.(wallet := u), observer)
  {
  }

  lemma RestartTellsNothing(w: World, st: State, su: State, observer: string)
    requires w.Sound() && Alike(w, st, su, observer) && Invariant(w, st) && Invariant(w, su)
    ensures Alike(w, Next(w, st, Restart), Next(w, su, Restart), observer)
  {
    var ps, qs := st.wallet.portfolios, su.wallet.portfolios;
    RestartGives(w, st.wallet);
    RestartGives(w, su.wallet);
    var v, u := Startup(w, st.wallet.database).value, Startup(w, su.wallet.database).value;
    forall i | 0 <= i < |ps|
      ensures SamePortfolio(Consumable(w, st, v.portfolios[i].name, observer), v.portfolios[i], u.portfolios[i])
    {
      SameMarked(Consumable(w, st, ps[i].name, observer), ps[i], qs[i]);
    }
    SameReplaced(w, st, su, observer, v, u);
  }

  lemma SameAsItself(w: World, v: Wallet, published: seq<string>, observer: string)
    ensures Alike(w, State(v, published), State(v, published), observer)
  {
  }

  lemma EventTellsNothing(w: World, st: State, su: State, observer: string, e: Event)
    requires w.Sound() && Invariant(w, st) && Invariant(w, su)
    requires Alike(w, st, su, observer) && EventHides(w, st, su, observer, e)
    ensures Alike(w, Next(w, st, e), Next(w, su, e), observer)
    ensures Heard(w, st, observer, e) == Heard(w, su, observer, e)
  {
    match e
    case Request(sender, payload, newId) => RequestTellsNothing(w, st, su, observer, sender, payload, newId);
    case Restart => RestartTellsNothing(w, st, su, observer);
    case RestoreBackup(si, passphrase, version) =>
      if Restore(w, si, passphrase, version).Success? {
        SameAsItself(w, Restore(w, si, passphrase, version).value, st.published, observer);
      }
  }

  lemma LegalInBoth(w: World, st: State, su: State, observer: string, e: Event)
    requires Alike(w, st, su, observer) && Legal(w, st, e)
    ensures Legal(w, su, e)
  {
    match e
    case Request(_, payload, newId) =>
      if |payload| >= 2 { SameTargets(w, st, su, observer, payload[1]); }
    case _ =>
  }

  // ---------------------------------------------------------------- a whole run

  /** The frames an event answers to the observer. */
  function Heard(w: World, st: State, observer: string, e: Event): seq<seq<string>> {
    match e
    case Request(sender, payload, newId) =>
      if sender == observer then [HandleRequest(w, st, sender, payload, newId).1] else []
    case _ => []
  }

  function HeardInRun(w: World, st: State, observer: string, events: seq<Event>): seq<seq<string>>
    decreases |events|
  {
    if events == [] then []
    else Heard(w, st, observer, events[0]) + HeardInRun(w, Next(w, st, events[0]), observer, events[1..])
  }

  ghost predicate RunHides(w: World, st: State, su: State, observer: string, events: seq<Event>)
    decreases |events|
  {
    events != [] ==>
      && EventHides(w, st, su, observer, events[0])
      && RunHides(w, Next(w, st, events[0]), Next(w, su, events[0]), observer, events[1..])
  }

  /** Two servers that differ only in secrets of documents of which the observer holds no consumer usage answer
      it the same and publish the same over any run, and still differ only in such secrets at its end. */
  lemma {:induction false} RunsTellNothing(w: World, st: State, su: State, observer: string, events: seq<Event>)
    requires w.Sound() && Invariant(w, st) && Invariant(w, su) && LegalRun(w, st, events)
    requires Alike(w, st, su, observer) && RunHides(w, st, su, observer, events)
    ensures Alike(w, Run(w, st, events), Run(w, su, events), observer)
    ensures HeardInRun(w, st, observer, events) == HeardInRun(w, su, observer, events)
    decreases |events|
  {
    if events == [] {
    } else {
      LegalInBoth(w, st, su, observer, events[0]);
      EventTellsNothing(w, st, su, observer, events[0]);
      EventKeepsInvariant(w, st, events[0]);
      EventKeepsInvariant(w, su, events[0]);
      RunsTellNothing(w, Next(w, st, events[0]), Next(w, su, events[0]), observer, events[1..]);
    }
  }
}
