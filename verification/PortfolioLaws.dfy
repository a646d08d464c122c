/** The double index of a portfolio, and the round trips of its two encodings. */
module PortfolioLaws {
  import opened DocumentLaws
  import opened Documents
  import opened Encryption
  import opened Environment
  import opened Portfolios
  import opened Serialization
  import opened Wrappers

  /** The two indexes hold the same documents, each under its own id and under its own name. */
  ghost predicate Agree(p: Portfolio) {
    && (forall id | id in p.byId ::
          p.byId[id].id == id && p.byId[id].name in p.byName && p.byName[p.byId[id].name] == p.byId[id])
    && (forall n | n in p.byName ::
          p.byName[n].name == n && p.byName[n].id in p.byId && p.byId[p.byName[n].id] == p.byName[n])
  }

  ghost predicate AllValid(w: World, p: Portfolio) {
    forall id | id in p.byId :: IsValid(w, p.byId[id])
  }

  // ---------------------------------------------------------------- agreement is kept

  lemma AddKeepsAgreement(w: World, p: Portfolio, d: Doc, newId: string)
    requires Agree(p) && newId !in p.byId && Add(p, d, newId).Success?
    ensures Agree(Add(p, d, newId).value)
    ensures AllValid(w, p) && IsValid(w, d) ==> AllValid(w, Add(p, d, newId).value)
  {
  }

  lemma RemoveKeepsAgreement(w: World, p: Portfolio, id: string)
    requires Agree(p) && Remove(p, id).Success?
    ensures Agree(Remove(p, id).value)
    ensures AllValid(w, p) ==> AllValid(w, Remove(p, id).value)
  {
  }

  lemma UpdateKeepsAgreement(w: World, p: Portfolio, d: Doc)
    requires Agree(p) && Update(p, d).Success?
    ensures Agree(Update(p, d).value)
    ensures AllValid(w, p) && IsValid(w, d) ==> AllValid(w, Update(p, d).value)
  {
  }

  /** What was added is found under its new id. */
  lemma AddPuts(p: Portfolio, d: Doc, newId: string)
    requires Add(p, d, newId).Success?
    ensures var q := Add(p, d, newId).value; newId in q.byId && q.byId[newId] == d.(id := newId)
  {
  }

  /** `docs[i]` is the last of its id, of its name. */
  ghost predicate LastOfId(docs: seq<Doc>, i: nat)
    requires i < |docs|
  {
    forall j | i < j < |docs| :: docs[j].id != docs[i].id
  }

  ghost predicate LastOfName(docs: seq<Doc>, i: nat)
    requires i < |docs|
  {
    forall j | i < j < |docs| :: docs[j].name != docs[i].name
  }

  lemma {:induction false} IndexHoldsLast(docs: seq<Doc>, i: nat)
    requires i < |docs|
    ensures LastOfId(docs, i) ==> docs[i].id in IndexById(docs) && IndexById(docs)[docs[i].id] == docs[i]
    ensures LastOfName(docs, i) ==> docs[i].name in IndexByName(docs) && IndexByName(docs)[docs[i].name] == docs[i]
  {
    var n := |docs| - 1;
    if i < n {
      IndexHoldsLast(docs[..n], i);
    }
  }

  lemma {:induction false} IdHasLast(docs: seq<Doc>, id: string) returns (i: nat)
    requires id in IndexById(docs)
    ensures i < |docs| && docs[i].id == id && LastOfId(docs, i)
  {
    i := |docs| - 1;
    if docs[i].id != id {
      i := IdHasLast(docs[..i], id);
    }
  }

  lemma {:induction false} NameHasLast(docs: seq<Doc>, name: string) returns (i: nat)
    requires name in IndexByName(docs)
    ensures i < |docs| && docs[i].name == name && LastOfName(docs, i)
  {
    i := |docs| - 1;
    if docs[i].name != name {
      i := NameHasLast(docs[..i], name);
    }
  }

  /** Loading a list gives agreeing indexes exactly when no document is shadowed in one index only. */
  ghost predicate ShadowedTogether(docs: seq<Doc>) {
    forall i | 0 <= i < |docs| :: LastOfId(docs, i) <==> LastOfName(docs, i)
  }

  lemma LoadedIndexesAgree(name: string, docs: seq<Doc>)
    ensures Agree(Indexed(name, docs)) <==> ShadowedTogether(docs)
  {
    var p := Indexed(name, docs);
    if ShadowedTogether(docs) {
      forall id | id in p.byId
        ensures p.byId[id].id == id && p.byId[id].name in p.byName && p.byName[p.byId[id].name] == p.byId[id]
      {
        var i := IdHasLast(docs, id);
        IndexHoldsLast(docs, i);
      }
      forall n | n in p.byName
        ensures p.byName[n].name == n && p.byName[n].id in p.byId && p.byId[p.byName[n].id] == p.byName[n]
      {
        var i := NameHasLast(docs, n);
        IndexHoldsLast(docs, i);
      }
    }
    if Agree(p) {
      forall i | 0 <= i < |docs| ensures LastOfId(docs, i) <==> LastOfName(docs, i) {
        IndexHoldsLast(docs, i);
        if LastOfId(docs, i) {
          var j := NameHasLast(docs, docs[i].name);
          IndexHoldsLast(docs, j);
        }
        if LastOfName(docs, i) {
          var j := IdHasLast(docs, docs[i].id);
          IndexHoldsLast(docs, j);
        }
      }
    }
  }

  /** They do not for two documents with different ids and one name: the first is in one index only. */
  lemma SharedNameDisagrees(d: Doc)
    ensures !Agree(Indexed("p", [d.(id := "1", name := "n"), d.(id := "2", name := "n")]))
  {
    var docs := [d.(id := "1", name := "n"), d.(id := "2", name := "n")];
    LoadedIndexesAgree("p", docs);
    assert LastOfId(docs, 0) && docs[1].name == docs[0].name;
  }

  // ---------------------------------------------------------------- round trips

  /** The portfolio with every document marked as holding private data, which is what a load does. */
  function MarkAll(p: Portfolio): Portfolio {
    Portfolio(p.name, map id | id in p.byId :: MarkPrivate(p.byId[id]),
              map n | n in p.byName :: MarkPrivate(p.byName[n]))
  }

  /** The part of a portfolio that is restored on a platform. */
  function Keep(p: Portfolio, sameInstance: bool): Portfolio {
    Portfolio(p.name,
              map id | id in p.byId && Restorable(p.byId[id], sameInstance) :: p.byId[id],
              map n | n in p.byName && Restorable(p.byName[n], sameInstance) :: p.byName[n])
  }

  lemma KeepEverything(p: Portfolio)
    ensures Keep(p, true) == p
  {
  }

  /** Any list with exactly the documents of an agreeing portfolio loads to that portfolio. */
  lemma IndexedDetermined(docs: seq<Doc>, p: Portfolio)
    requires Agree(p)
    requires forall d :: d in docs <==> d.id in p.byId && p.byId[d.id] == d
    ensures Indexed(p.name, docs) == p
  {
    forall id ensures id in IndexById(docs) <==> id in p.byId {
      if id in IndexById(docs) {
        var i := IdHasLast(docs, id);
        assert docs[i] in docs;
      }
      if id in p.byId {
        assert p.byId[id] in docs;
        IndexHasIds(docs, p.byId[id]);
      }
    }
    forall id | id in IndexById(docs) ensures IndexById(docs)[id] == p.byId[id] {
      var i := IdHasLast(docs, id);
      IndexHoldsLast(docs, i);
      assert docs[i] in docs;
    }
    assert IndexById(docs) == p.byId;
    forall n ensures n in IndexByName(docs) <==> n in p.byName {
      if n in IndexByName(docs) {
        var i := NameHasLast(docs, n);
        assert docs[i] in docs;
      }
      if n in p.byName {
        assert p.byName[n] in docs;
        IndexHasIds(docs, p.byName[n]);
      }
    }
    forall n | n in IndexByName(docs) ensures IndexByName(docs)[n] == p.byName[n] {
      var i := NameHasLast(docs, n);
      IndexHoldsLast(docs, i);
      assert docs[i] in docs;
    }
    assert IndexByName(docs) == p.byName;
  }

  lemma {:induction false} IndexHasIds(docs: seq<Doc>, d: Doc)
    requires d in docs
    ensures d.id in IndexById(docs) && d.name in IndexByName(docs)
  {
    var n := |docs| - 1;
    if d != docs[n] {
      assert d in docs[..n];
      IndexHasIds(docs[..n], d);
    }
  }

  lemma AcceptWritten(w: World, d: Doc)
    requires IsValid(w, d)
    ensures AcceptedOne(w, Load(WithSecret(d), None)) == [MarkPrivate(d)]
  {
    LoadWithSecret(d);
    ValidityKept(w, d);
  }

  ghost predicate RestoresTo(w: World, si: Tree, key: ByteString, same: bool, d: Doc) {
    RestoredOne(w, CreateFromSrr(w, si, key), same) == if Restorable(d, same) then [MarkPrivate(d)] else []
  }

  lemma RestoreWritten(w: World, d: Doc, key: ByteString, si: Tree, same: bool)
    requires w.Sound() && key != "" && IsSrrOf(w, d, key, si) && IsValid(w, d)
    ensures RestoresTo(w, si, key, same, d)
  {
    var iv: InitVector :| si == WriteSrr(w, d, key, iv);
    SrrRoundTrip(w, d, key, iv);
    ValidityKept(w, d);
  }

  /** The documents of a list that are restored, marked. */
  function KeptOf(docs: seq<Doc>, same: bool): seq<Doc> {
    if docs == [] then []
    else
      var d := docs[|docs| - 1];
      KeptOf(docs[..|docs| - 1], same) + if Restorable(d, same) then [MarkPrivate(d)] else []
  }

  lemma {:induction false} KeptContains(docs: seq<Doc>, same: bool, x: Doc)
    requires x in docs && Restorable(x, same)
    ensures MarkPrivate(x) in KeptOf(docs, same)
  {
    var n := |docs| - 1;
    if x != docs[n] {
      assert x in docs[..n];
      KeptContains(docs[..n], same, x);
    }
  }

  lemma {:induction false} KeptSource(docs: seq<Doc>, same: bool, d: Doc) returns (x: Doc)
    requires d in KeptOf(docs, same)
    ensures x in docs && Restorable(x, same) && d == MarkPrivate(x)
  {
    var n := |docs| - 1;
    if d in KeptOf(docs[..n], same) {
      x := KeptSource(docs[..n], same, d);
    } else {
      x := docs[n];
    }
  }

  lemma {:induction false} AcceptedDocs(w: World, docs: seq<Doc>)
    requires forall d | d in docs :: IsValid(w, d)
    ensures Accepted(w, WriteList(docs)) == KeptOf(docs, true)
  {
    if docs == [] {
    } else {
      var n := |docs| - 1;
      assert WriteList(docs)[..n] == WriteList(docs[..n]);
      AcceptedDocs(w, docs[..n]);
      AcceptWritten(w, docs[n]);
    }
  }

  lemma {:induction false} RestoredDocs(w: World, docs: seq<Doc>, key: ByteString, items: seq<Tree>, same: bool)
    requires |items| == |docs|
    requires forall i | 0 <= i < |docs| :: RestoresTo(w, items[i], key, same, docs[i])
    ensures Restored(w, items, key, same) == KeptOf(docs, same)
  {
    if docs == [] {
    } else {
      var n := |docs| - 1;
      RestoredDocs(w, docs[..n], key, items[..n], same);
      assert RestoresTo(w, items[n], key, same, docs[n]);
    }
  }

  /** The restored documents of an agreeing portfolio are those of the portfolio that is kept. */
  lemma KeptIsIndexed(p: Portfolio, same: bool)
    requires Agree(p)
    ensures Indexed(p.name, KeptOf(ListDocuments(p), same)) == MarkAll(Keep(p, same))
  {
    var docs, target := ListDocuments(p), MarkAll(Keep(p, same));
    forall d ensures d in KeptOf(docs, same) <==> d.id in target.byId && target.byId[d.id] == d {
      if d in KeptOf(docs, same) {
        var x := KeptSource(docs, same, d);
      }
      if d.id in target.byId && target.byId[d.id] == d {
        KeptContains(docs, same, p.byId[d.id]);
      }
    }
    KeepAgrees(p, same);
    MarkAllAgrees(Keep(p, same));
    IndexedDetermined(KeptOf(docs, same), target);
  }

  lemma MarkAllAgrees(p: Portfolio)
    requires Agree(p)
    ensures Agree(MarkAll(p))
  {
  }

  lemma KeepAgrees(p: Portfolio, sameInstance: bool)
    requires Agree(p)
    ensures Agree(Keep(p, sameInstance))
  {
  }

  lemma PortfolioHeaderRoundTrip(name: string, items: seq<Tree>)
    ensures ReadPortfolioHeader(PortfolioTree(name, Array(items))) == Success((name, items))
  {
  }

  /** Saved and loaded again, an agreeing portfolio of valid documents loses nothing. */
  lemma SaveThenLoad(w: World, p: Portfolio)
    requires Agree(p) && AllValid(w, p)
    ensures LoadPortfolio(w, SerializePortfolio(p)) == Success(MarkAll(p))
  {
    var docs := ListDocuments(p);
    PortfolioHeaderRoundTrip(p.name, WriteList(docs));
    AcceptedDocs(w, docs);
    KeptIsIndexed(p, true);
    KeepEverything(p);
  }

  /** Restored from a backup under the same key, a portfolio keeps exactly its restorable documents. */
  lemma BackupThenRestore(w: World, p: Portfolio, key: ByteString, si: Tree, same: bool)
    requires w.Sound() && key != ""
    requires Agree(p) && AllValid(w, p)
    requires IsSrrPortfolio(w, p, key, si)
    ensures LoadPortfolioFromSrr(w, si, key, same) == Success(MarkAll(Keep(p, same)))
  {
    var docs := ListDocuments(p);
    var items :| IsSrrList(w, docs, key, items) && si == PortfolioTree(p.name, Array(items));
    PortfolioHeaderRoundTrip(p.name, items);
    forall i | 0 <= i < |docs| ensures RestoresTo(w, items[i], key, same, docs[i]) {
      assert docs[i] in docs && IsSrrOf(w, docs[i], key, items[i]);
      RestoreWritten(w, docs[i], key, items[i], same);
    }
    RestoredDocs(w, docs, key, items, same);
    KeptIsIndexed(p, same);
  }
}
