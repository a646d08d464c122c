/** Creating and deleting: from two states that are the same to a client to two such states. */
module ConfidentialSteps {
  import opened Confidentiality
  import opened Documents
  import opened Environment
  import opened Errors
  import opened Portfolios
  import opened ReadPaths
  import opened ServerSteps
  import opened Wrappers

  type Stepped = Reading<(State, string)>

  /** The same answer, and states that are the same to the observer. */
  ghost predicate SameStep(w: World, observer: string, a: Stepped, b: Stepped) {
    match a
    case Success((st, text)) => b.Success? && text == b.value.1 && Alike(w, st, b.value.0, observer)
    case Failure(e) => b == Failure(e)
  }

  lemma SameIndexPut(usages: set<string>, a: map<string, Doc>, b: map<string, Doc>, k: string, d: Doc, e: Doc)
    requires SameIndex(usages, a, b) && SameTo(usages, d, e)
    ensures SameIndex(usages, a[k := d], b[k := e])
  {
    var after, other := a[k := d], b[k := e];
    assert after.Keys == other.Keys;
    forall x | x in after ensures SameTo(usages, after[x], other[x]) {
      if x != k {
        assert SameTo(usages, a[x], b[x]);
        assert after[x] == a[x] && other[x] == b[x];
      }
    }
  }

  lemma SamePut(usages: set<string>, p: Portfolio, q: Portfolio, id: string, d: Doc, e: Doc)
    requires SamePortfolio(usages, p, q) && SameTo(usages, d, e)
    ensures SamePortfolio(usages, Put(p, id, d), Put(q, id, e))
  {
    SameView(usages, d, e);
    SameIndexPut(usages, p.byId, q.byId, id, d, e);
    SameIndexPut(usages, p.byName, q.byName, d.name, d, e);
  }

  lemma SameRemoved(usages: set<string>, p: Portfolio, q: Portfolio, id: string)
    requires SamePortfolio(usages, p, q) && Remove(p, id).Success?
    ensures Remove(q, id).Success? && SamePortfolio(usages, Remove(p, id).value, Remove(q, id).value)
  {
    SameView(usages, p.byId[id], q.byId[id]);
  }

  lemma SameCommit(w: World, st: State, su: State, observer: string, k: nat, p: Portfolio, q: Portfolio, note: string)
    requires Alike(w, st, su, observer) && k < |st.wallet.portfolios| && p.name == st.wallet.portfolios[k].name
    requires SamePortfolio(Consumable(w, st, p.name, observer), p, q)
    ensures Alike(w, Commit(w, st, k, p, note), Commit(w, su, k, q, note), observer)
  {
  }

  lemma SameOpen(w: World, st: State, su: State, observer: string, sender: string, params: Params)
    requires Alike(w, st, su, observer)
    ensures OpenForChange(w, st, sender, params) == OpenForChange(w, su, sender, params)
  {
    if |params| >= 2 {
      SameTargets(w, st, su, observer, params[0]);
    }
  }

  // ---------------------------------------------------------------- create and delete

  lemma CreateTellsNothing(w: World, st: State, su: State, observer: string, sender: string, params: Params,
                           newId: string)
    requires Alike(w, st, su, observer)
    ensures SameStep(w, observer, Create(w, st, sender, params, newId), Create(w, su, sender, params, newId))
  {
    SameOpen(w, st, su, observer, sender, params);
    if OpenForChange(w, st, sender, params).Success? {
      var (allowed, k) := OpenForChange(w, st, sender, params).value;
      SameTargets(w, st, su, observer, params[0]);
      var p, q := st.wallet.portfolios[k], su.wallet.portfolios[k];
      if ReadNewDocument(w, params[1], allowed).Success? {
        var doc := ReadNewDocument(w, params[1], allowed).value;
        var stored := doc.(id := newId);
        if Add(p, doc, newId).Success? {
          SamePut(Consumable(w, st, params[0], observer), p, q, newId, stored, stored);
          SameCommit(w, st, su, observer, k, Put(p, newId, stored), Put(q, newId, stored),
                     CreatedNote(w, params[0], stored));
        }
      }
    }
  }

  lemma Discarded(p: Portfolio, id: string, allowed: set<string>)
    ensures ReadDiscarded(p, id, allowed)
         == if id !in p.byId then Failure(DocumentDoNotExistError(id))
            else match CheckUsages(p.byId[id].usages, allowed)
                 case Pass => Success(p.byId[id])
                 case Fail(e) => Failure(e)
  {
  }

  lemma SameDiscarded(usages: set<string>, p: Portfolio, q: Portfolio, id: string, allowed: set<string>)
    requires SamePortfolio(usages, p, q)
    ensures match ReadDiscarded(p, id, allowed)
            case Success(d) => && id in p.byId && d == p.byId[id] && ReadDiscarded(q, id, allowed).Success?
                               && WithoutSecret(d) == WithoutSecret(ReadDiscarded(q, id, allowed).value)
            case Failure(e) => ReadDiscarded(q, id, allowed) == Failure(e)
  {
    Discarded(p, id, allowed);
    Discarded(q, id, allowed);
    if id in p.byId {
      SameView(usages, p.byId[id], q.byId[id]);
    }
  }

  lemma DeleteInTellsNothing(w: World, st: State, su: State, observer: string, k: nat, allowed: set<string>,
                             name: string, id: string)
    requires Alike(w, st, su, observer) && k < |st.wallet.portfolios| && st.wallet.portfolios[k].name == name
    ensures SameStep(w, observer, DeleteIn(w, st, k, allowed, name, id), DeleteIn(w, su, k, allowed, name, id))
  {
    var usages, p, q := Consumable(w, st, name, observer), st.wallet.portfolios[k], su.wallet.portfolios[k];
    assert SamePortfolio(usages, p, q);
    SameDiscarded(usages, p, q, id, allowed);
    if ReadDiscarded(p, id, allowed).Success? {
      SameRemoved(usages, p, q, id);
      SameCommit(w, st, su, observer, k, Remove(p, id).value, Remove(q, id).value, DeletedNote(w, name, p.byId[id]));
    }
  }

  lemma DeleteTellsNothing(w: World, st: State, su: State, observer: string, sender: string, params: Params)
    requires Alike(w, st, su, observer)
    ensures SameStep(w, observer, Delete(w, st, sender, params), Delete(w, su, sender, params))
  {
    SameOpen(w, st, su, observer, sender, params);
    if OpenForChange(w, st, sender, params).Success? {
      var (allowed, k) := OpenForChange(w, st, sender, params).value;
      DeleteInTellsNothing(w, st, su, observer, k, allowed, params[0], params[1]);
    }
  }
}
