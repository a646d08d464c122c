/** What a successful change is made of. */
module StepLaws {
  import opened Configuration
  import opened Documents
  import opened Environment
  import opened Portfolios
  import opened Serialization
  import opened ServerSteps
  import opened Wallets
  import opened Wrappers

  /** The portfolio a request is about: the first of that name. */
  function Target(st: State, name: string): Portfolio
    requires HasPortfolio(st.wallet.portfolios, name)
  {
    st.wallet.portfolios[FirstNamed(st.wallet.portfolios, name)]
  }

  /** What the sender may produce in a portfolio; nothing in one that is not configured. */
  function Producible(w: World, st: State, name: string, sender: string): set<string> {
    if name in st.wallet.configurations then ProducerUsages(w.matches, st.wallet.configurations[name], sender) else {}
  }

  /** `after` is `before` with the target portfolio replaced by `p`, saved, and one notification. */
  ghost predicate Commits(w: World, before: State, after: State, name: string, p: Portfolio, note: string) {
    && HasPortfolio(before.wallet.portfolios, name)
    && p.name == name
    && after == Commit(w, before, FirstNamed(before.wallet.portfolios, name), p, note)
  }

  lemma OpenParts(w: World, st: State, sender: string, params: Params)
    requires OpenForChange(w, st, sender, params).Success?
    ensures |params| >= 2 && HasPortfolio(st.wallet.portfolios, params[0])
    ensures OpenForChange(w, st, sender, params).value
         == (Producible(w, st, params[0], sender), FirstNamed(st.wallet.portfolios, params[0]))
  {
  }

  lemma NoneForbidden(usages: set<string>, allowed: set<string>)
    requires CheckUsages(usages, allowed).Pass?
    ensures usages <= allowed
  {
    forall u | u in usages ensures u in allowed {
      assert u in usages - allowed || u in allowed;
    }
  }

  lemma ReadNewParts(w: World, json: string, allowed: set<string>)
    requires ReadNewDocument(w, json, allowed).Success?
    ensures IsValid(w, ReadNewDocument(w, json, allowed).value)
    ensures ReadNewDocument(w, json, allowed).value.usages <= allowed
    ensures ReadRequest(w, json).Success? && ReadRequest(w, json).value.1 == ReadNewDocument(w, json, allowed).value
  {
    NoneForbidden(ReadNewDocument(w, json, allowed).value.usages, allowed);
  }

  lemma CreateParts(w: World, st: State, sender: string, params: Params, newId: string)
    returns (doc: Doc, p: Portfolio)
    requires Create(w, st, sender, params, newId).Success?
    ensures |params| >= 2 && HasPortfolio(st.wallet.portfolios, params[0])
    ensures ReadRequest(w, params[1]).Success? && ReadRequest(w, params[1]).value.1 == doc
    ensures IsValid(w, doc) && doc.usages <= Producible(w, st, params[0], sender)
    ensures Add(Target(st, params[0]), doc, newId) == Success(p)
    ensures Commits(w, st, Create(w, st, sender, params, newId).value.0, params[0], p,
                    CreatedNote(w, params[0], doc.(id := newId)))
    ensures Create(w, st, sender, params, newId).value.1 == newId
  {
    OpenParts(w, st, sender, params);
    var allowed := Producible(w, st, params[0], sender);
    ReadNewParts(w, params[1], allowed);
    doc := ReadNewDocument(w, params[1], allowed).value;
    p := Add(Target(st, params[0]), doc, newId).value;
  }

  lemma DeleteParts(w: World, st: State, sender: string, params: Params) returns (doc: Doc, p: Portfolio)
    requires Delete(w, st, sender, params).Success?
    ensures |params| >= 2 && HasPortfolio(st.wallet.portfolios, params[0])
    ensures GetDocument(Target(st, params[0]), params[1]) == Success(doc)
    ensures doc.usages <= Producible(w, st, params[0], sender)
    ensures Remove(Target(st, params[0]), params[1]) == Success(p)
    ensures Commits(w, st, Delete(w, st, sender, params).value.0, params[0], p, DeletedNote(w, params[0], doc))
    ensures Delete(w, st, sender, params).value.1 == "OK"
  {
    OpenParts(w, st, sender, params);
    var allowed := Producible(w, st, params[0], sender);
    doc := GetDocument(Target(st, params[0]), params[1]).value;
    p := Remove(Target(st, params[0]), params[1]).value;
    NoneForbidden(doc.usages, allowed);
  }

  lemma MergeParts(w: World, p: Portfolio, json: string, allowed: set<string>)
    returns (si: Tree, request: Doc, existing: Doc, merged: Doc)
    requires ReadMerged(w, p, json, allowed).Success?
    ensures ReadMerged(w, p, json, allowed).value == (request, existing, merged)
    ensures ReadRequest(w, json) == Success((si, request)) && Load(si, None) == Success(request)
    ensures GetDocument(p, request.id) == Success(existing)
    ensures Load(si, Some(existing)) == Success(merged) && IsValid(w, merged)
    ensures forall u | (u in request.usages) != (u in existing.usages) :: u in allowed
  {
    si, request := ReadRequest(w, json).value.0, ReadRequest(w, json).value.1;
    existing := p.byId[request.id];
    merged := MergeRequest(w, existing, si, request, allowed).value;
    NoneForbidden(SymmetricDifference(request.usages, existing.usages), allowed);
  }

  /** `request` is the document the request parses to, `merged` the stored document it gives. */
  lemma UpdateParts(w: World, st: State, sender: string, params: Params)
    returns (si: Tree, request: Doc, existing: Doc, merged: Doc, p: Portfolio)
    requires UpdateDocument(w, st, sender, params).Success?
    ensures |params| >= 2 && HasPortfolio(st.wallet.portfolios, params[0])
    ensures ReadRequest(w, params[1]) == Success((si, request)) && Load(si, None) == Success(request)
    ensures GetDocument(Target(st, params[0]), request.id) == Success(existing)
    ensures Load(si, Some(existing)) == Success(merged) && IsValid(w, merged)
    ensures forall u | (u in request.usages) != (u in existing.usages) :: u in Producible(w, st, params[0], sender)
    ensures Update(Target(st, params[0]), merged) == Success(p)
    ensures Commits(w, st, UpdateDocument(w, st, sender, params).value.0, params[0], p,
                    UpdatedNote(w, params[0], existing, request))
    ensures UpdateDocument(w, st, sender, params).value.1 == "OK"
  {
    OpenParts(w, st, sender, params);
    var allowed, target := Producible(w, st, params[0], sender), Target(st, params[0]);
    si, request, existing, merged := MergeParts(w, target, params[1], allowed);
    p := Update(target, merged).value;
  }
}
