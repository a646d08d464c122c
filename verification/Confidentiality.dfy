/** What a client can learn of the secrets it may not read: two states that differ in such secrets only are the
    same to it. */
module Confidentiality {
  import opened DocumentLaws
  import opened Documents
  import opened Environment
  import opened Ordering
  import opened Portfolios
  import opened ReadPaths
  import opened ServerSteps
  import opened StepLaws
  import opened WalletLaws
  import opened Wallets
  import opened Wrappers

  // ---------------------------------------------------------------- the same to a client

  /** Two documents with one public view; to be the same to a client that holds a usage of theirs they must be
      equal. */
  ghost predicate SameTo(usages: set<string>, d: Doc, e: Doc) {
    WithoutSecret(d) == WithoutSecret(e) && (d.usages * usages != {} ==> d == e)
  }

  ghost predicate SameIndex(usages: set<string>, a: map<string, Doc>, b: map<string, Doc>) {
    a.Keys == b.Keys && forall k | k in a :: SameTo(usages, a[k], b[k])
  }

  ghost predicate SamePortfolio(usages: set<string>, p: Portfolio, q: Portfolio) {
    p.name == q.name && SameIndex(usages, p.byId, q.byId) && SameIndex(usages, p.byName, q.byName)
  }

  /** The two states differ only in secrets of documents of which the observer holds no consumer usage. */
  ghost predicate Alike(w: World, st: State, su: State, observer: string) {
    var ps, qs := st.wallet.portfolios, su.wallet.portfolios;
    && st.wallet.configurations == su.wallet.configurations
    && st.published == su.published
    && |ps| == |qs|
    && forall i | 0 <= i < |ps| :: SamePortfolio(Consumable(w, st, ps[i].name, observer), ps[i], qs[i])
  }

  lemma SameView(usages: set<string>, d: Doc, e: Doc)
    requires SameTo(usages, d, e)
    ensures d.id == e.id && d.name == e.name && d.usages == e.usages && TypeOf(d.content) == TypeOf(e.content)
    ensures WritePublic(d.content) == WritePublic(e.content)
  {
    WithoutSecretShowsIdentity(d, e);
  }

  /** Both states have the portfolio asked for at one place, and it is the same to the observer. */
  lemma SameTargets(w: World, st: State, su: State, observer: string, name: string)
    requires Alike(w, st, su, observer)
    ensures GetPortfolio(st.wallet.portfolios, name) == GetPortfolio(su.wallet.portfolios, name)
    ensures HasPortfolio(st.wallet.portfolios, name) ==>
              HasPortfolio(su.wallet.portfolios, name)
              && SamePortfolio(Consumable(w, st, name, observer), Target(st, name), Target(su, name))
  {
    var ps, qs := st.wallet.portfolios, su.wallet.portfolios;
    forall i | 0 <= i < |ps| ensures ps[i].name == qs[i].name {
      assert SamePortfolio(Consumable(w, st, ps[i].name, observer), ps[i], qs[i]);
    }
    SameNames(ps, qs, name);
  }

  // ---------------------------------------------------------------- reads

  ghost predicate SameList(usages: set<string>, docs: seq<Doc>, others: seq<Doc>) {
    |docs| == |others| && forall i | 0 <= i < |docs| :: SameTo(usages, docs[i], others[i])
  }

  lemma SameDocuments(usages: set<string>, p: Portfolio, q: Portfolio)
    requires SamePortfolio(usages, p, q)
    ensures SameList(usages, ListDocuments(p), ListDocuments(q))
  {
    var ids, docs, others := Ascending(p.byId.Keys), ListDocuments(p), ListDocuments(q);
    forall i | 0 <= i < |ids| ensures SameTo(usages, docs[i], others[i]) {
      assert ids[i] in ids && docs[i] == p.byId[ids[i]] && others[i] == q.byId[ids[i]];
    }
  }

  lemma SameShares(usages: set<string>, d: Doc, e: Doc, asked: set<string>)
    requires SameTo(usages, d, e)
    ensures d.usages == e.usages
    ensures asked <= usages && d.usages * asked != {} ==> d == e
  {
    SameView(usages, d, e);
    if asked <= usages && d.usages * asked != {} {
      var u :| u in d.usages * asked;
      assert u in d.usages * usages;
    }
  }

  lemma SameAppended(usages: set<string>, docs: seq<Doc>, others: seq<Doc>, more: seq<Doc>, moreOthers: seq<Doc>)
    requires SameList(usages, docs, others) && SameList(usages, more, moreOthers)
    ensures SameList(usages, docs + more, others + moreOthers)
  {
  }

  /** Filtered by usages the client holds, the lists are equal; by any other they look the same. */
  lemma {:induction false} SameSharing(usages: set<string>, docs: seq<Doc>, others: seq<Doc>, asked: set<string>)
    requires SameList(usages, docs, others)
    ensures SameList(usages, Sharing(docs, asked), Sharing(others, asked))
    ensures asked <= usages ==> Sharing(docs, asked) == Sharing(others, asked)
    decreases |docs|
  {
    if docs == [] {
    } else {
      var n := |docs| - 1;
      var last, lastOther := if docs[n].usages * asked != {} then [docs[n]] else [],
                             if others[n].usages * asked != {} then [others[n]] else [];
      SameSharing(usages, docs[..n], others[..n], asked);
      SameShares(usages, docs[n], others[n], asked);
      SameAppended(usages, Sharing(docs[..n], asked), Sharing(others[..n], asked), last, lastOther);
    }
  }

  lemma SameOpenLists(usages: set<string>, docs: seq<Doc>, others: seq<Doc>)
    requires SameList(usages, docs, others)
    ensures WriteOpenList(docs) == WriteOpenList(others)
  {
  }

  lemma SamePublicList(w: World, usages: set<string>, p: Portfolio, q: Portfolio, asked: set<string>)
    requires SamePortfolio(usages, p, q)
    ensures PublicList(w, p, asked) == PublicList(w, q, asked)
  {
    SameDocuments(usages, p, q);
    if asked == {} {
      SameOpenLists(usages, ListDocuments(p), ListDocuments(q));
    } else {
      SameSharing(usages, ListDocuments(p), ListDocuments(q), asked);
      SameOpenLists(usages, Sharing(ListDocuments(p), asked), Sharing(ListDocuments(q), asked));
    }
  }

  lemma SamePrivateList(w: World, usages: set<string>, p: Portfolio, q: Portfolio, asked: set<string>)
    requires SamePortfolio(usages, p, q) && asked <= usages
    ensures PrivateList(w, p, asked) == PrivateList(w, q, asked)
  {
    SameDocuments(usages, p, q);
    SameSharing(usages, ListDocuments(p), ListDocuments(q), asked);
  }

  lemma SameLookup(usages: set<string>, p: Portfolio, q: Portfolio, key: string, byName: bool)
    requires SamePortfolio(usages, p, q)
    ensures match Lookup(p, key, byName)
            case Success(d) => Lookup(q, key, byName).Success? && SameTo(usages, d, Lookup(q, key, byName).value)
            case Failure(e) => Lookup(q, key, byName) == Failure(e)
  {
  }

  lemma SameReadable(usages: set<string>, d: Doc, e: Doc)
    requires SameTo(usages, d, e)
    ensures usages * d.usages == usages * e.usages
    ensures usages * d.usages != {} ==> d == e
  {
    SameView(usages, d, e);
    assert usages * d.usages == d.usages * usages;
  }

  lemma SecretReadTellsNothing(w: World, st: State, su: State, observer: string, params: Params, byName: bool)
    requires Alike(w, st, su, observer)
    ensures GetWithSecret(w, st, observer, params, byName) == GetWithSecret(w, su, observer, params, byName)
  {
    if |params| == 2 {
      var name := params[0];
      SameTargets(w, st, su, observer, name);
      if MayConsume(w, st, name, observer) {
        var p, q := Target(st, name), Target(su, name);
        SameLookup(Consumable(w, st, name, observer), p, q, params[1], byName);
        if Lookup(p, params[1], byName).Success? {
          var d, e := Lookup(p, params[1], byName).value, Lookup(q, params[1], byName).value;
          SameReadable(Consumable(w, st, name, observer), d, e);
        }
      }
    }
  }

  lemma OpenReadTellsNothing(w: World, st: State, su: State, observer: string, params: Params, byName: bool)
    requires Alike(w, st, su, observer)
    ensures GetWithoutSecret(w, st, params, byName) == GetWithoutSecret(w, su, params, byName)
  {
    if |params| == 2 {
      SameTargets(w, st, su, observer, params[0]);
      if HasPortfolio(st.wallet.portfolios, params[0]) {
        SameLookup(Consumable(w, st, params[0], observer), Target(st, params[0]), Target(su, params[0]), params[1],
                   byName);
      }
    }
  }

  lemma SecretListTellsNothing(w: World, st: State, su: State, observer: string, params: Params)
    requires Alike(w, st, su, observer)
    ensures GetListWithSecret(w, st, observer, params) == GetListWithSecret(w, su, observer, params)
  {
    if |params| >= 1 {
      SameTargets(w, st, su, observer, params[0]);
      if MayConsume(w, st, params[0], observer) {
        var usages, usage := Consumable(w, st, params[0], observer), AskedUsage(params);
        var p, q := Target(st, params[0]), Target(su, params[0]);
        SamePrivateList(w, usages, p, q, usages);
        if usage in usages { SamePrivateList(w, usages, p, q, {usage}); }
      }
    }
  }

  lemma OpenListTellsNothing(w: World, st: State, su: State, observer: string, params: Params)
    requires Alike(w, st, su, observer)
    ensures GetListWithoutSecret(w, st, params) == GetListWithoutSecret(w, su, params)
  {
    if |params| >= 1 {
      SameTargets(w, st, su, observer, params[0]);
      if HasPortfolio(st.wallet.portfolios, params[0]) {
        var usages, usage := Consumable(w, st, params[0], observer), AskedUsage(params);
        SamePublicList(w, usages, Target(st, params[0]), Target(su, params[0]), if usage == "" then {} else {usage});
      }
    }
  }

  lemma ConfigurationTellsNothing(w: World, st: State, su: State, observer: string, params: Params, producer: bool)
    requires Alike(w, st, su, observer)
    ensures ListPortfolios(w, st) == ListPortfolios(w, su)
    ensures ListUsages(w, st, observer, params, producer) == ListUsages(w, su, observer, params, producer)
  {
  }

  /** No read tells a client anything of a secret it may not read, whatever the command and its parameters. */
  lemma ReadsTellNothing(w: World, st: State, su: State, observer: string, cmd: string, params: Params)
    requires Alike(w, st, su, observer)
    ensures DispatchRead(w, st, observer, cmd, params) == DispatchRead(w, su, observer, cmd, params)
  {
    if cmd == GET_WITH_SECRET || cmd == GET_WITH_SECRET_BY_NAME {
      SecretReadTellsNothing(w, st, su, observer, params, cmd == GET_WITH_SECRET_BY_NAME);
    } else if cmd == GET_WITHOUT_SECRET || cmd == GET_WITHOUT_SECRET_BY_NAME {
      OpenReadTellsNothing(w, st, su, observer, params, cmd == GET_WITHOUT_SECRET_BY_NAME);
    } else if cmd == GET_LIST_WITH_SECRET {
      SecretListTellsNothing(w, st, su, observer, params);
    } else if cmd == GET_LIST_WITHOUT_SECRET {
      OpenListTellsNothing(w, st, su, observer, params);
    } else {
      ConfigurationTellsNothing(w, st, su, observer, params, cmd == GET_PRODUCER_USAGES);
    }
  }
}
