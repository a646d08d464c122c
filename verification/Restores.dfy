/** What a restore makes of a payload, wherever the payload comes from. */
module Restores {
  import opened DocumentLaws
  import opened Documents
  import opened Encryption
  import opened Environment
  import opened Ordering
  import opened PortfolioLaws
  import opened Portfolios
  import opened Serialization
  import opened WalletLaws
  import opened Wallets
  import opened Wrappers

  /** No two documents of the id index have the same name. */
  predicate NamesApart(p: Portfolio) {
    forall a, b | a in p.byId && b in p.byId && a != b :: p.byId[a].name != p.byId[b].name
  }

  /** What holds of a loaded portfolio whatever it was loaded from. */
  ghost predicate IdsKept(w: World, p: Portfolio) {
    AllValid(w, p) && forall id | id in p.byId :: p.byId[id].id == id
  }

  lemma AgreementKeepsNamesApart(w: World, p: Portfolio)
    requires Agree(p)
    ensures NamesApart(p)
    ensures AllValid(w, p) ==> IdsKept(w, p)
  {
  }

  lemma {:induction false} RestoredAreValid(w: World, items: seq<Tree>, key: ByteString, same: bool)
    ensures forall d | d in Restored(w, items, key, same) :: IsValid(w, d)
    decreases |items|
  {
    if items == [] {
    } else {
      RestoredAreValid(w, items[..|items| - 1], key, same);
    }
  }

  lemma IndexedKeepsIds(w: World, name: string, docs: seq<Doc>)
    requires forall d | d in docs :: IsValid(w, d)
    ensures IdsKept(w, Indexed(name, docs))
  {
    forall id | id in IndexById(docs) ensures IsValid(w, IndexById(docs)[id]) && IndexById(docs)[id].id == id {
      var i := IdHasLast(docs, id);
      IndexHoldsLast(docs, i);
      assert docs[i] in docs;
    }
  }

  lemma {:induction false} RestoredKeepIds(w: World, items: seq<Tree>, key: ByteString, same: bool)
    requires LoadSrrPortfolios(w, items, key, same).Success?
    ensures forall p | p in LoadSrrPortfolios(w, items, key, same).value :: IdsKept(w, p)
    decreases |items|
  {
    if items == [] {
    } else {
      var n := |items| - 1;
      RestoredKeepIds(w, items[..n], key, same);
      var (name, documents) := ReadPortfolioHeader(items[n]).value;
      RestoredAreValid(w, documents, key, same);
      IndexedKeepsIds(w, name, Restored(w, documents, key, same));
    }
  }

  // ---------------------------------------------------------------- the inner save and reload

  lemma {:induction false} KeptEvery(docs: seq<Doc>)
    ensures |KeptOf(docs, true)| == |docs|
    ensures forall i | 0 <= i < |docs| :: KeptOf(docs, true)[i] == MarkPrivate(docs[i])
    decreases |docs|
  {
    if docs == [] {
    } else {
      KeptEvery(docs[..|docs| - 1]);
    }
  }

  /** What a saved portfolio loads to. */
  function Reloaded(p: Portfolio): Portfolio {
    Indexed(p.name, KeptOf(ListDocuments(p), true))
  }

  lemma ReloadedLoads(w: World, p: Portfolio)
    requires AllValid(w, p)
    ensures LoadPortfolio(w, SerializePortfolio(p)) == Success(Reloaded(p))
  {
    var docs := ListDocuments(p);
    PortfolioHeaderRoundTrip(p.name, WriteList(docs));
    AcceptedDocs(w, docs);
  }

  lemma ListedDocument(p: Portfolio, i: nat)
    requires i < |p.byId|
    ensures |KeptOf(ListDocuments(p), true)| == |p.byId| == |Ascending(p.byId.Keys)|
    ensures Ascending(p.byId.Keys)[i] in p.byId
    ensures KeptOf(ListDocuments(p), true)[i] == MarkPrivate(p.byId[Ascending(p.byId.Keys)[i]])
  {
    KeptEvery(ListDocuments(p));
    assert Ascending(p.byId.Keys)[i] in Ascending(p.byId.Keys);
  }

  /** Read in any order without repetition, the names are different exactly if they are in the index. */
  lemma NamesInOrder(p: Portfolio, ids: seq<string>, names: seq<string>)
    requires |names| == |ids| && (forall i, j | 0 <= i < j < |ids| :: ids[i] != ids[j])
    requires forall id :: id in ids <==> id in p.byId
    requires forall i | 0 <= i < |ids| :: ids[i] in p.byId && names[i] == p.byId[ids[i]].name
    ensures NamesApart(p) <==> forall i, j | 0 <= i < j < |names| :: names[i] != names[j]
  {
    if forall i, j | 0 <= i < j < |names| :: names[i] != names[j] {
      forall a, b | a in p.byId && b in p.byId && a != b ensures p.byId[a].name != p.byId[b].name {
        var i :| 0 <= i < |ids| && ids[i] == a;
        var j :| 0 <= j < |ids| && ids[j] == b;
        assert names[i] == p.byId[a].name && names[j] == p.byId[b].name;
        assert i < j || j < i;
      }
    }
  }

  lemma ListedNames(p: Portfolio, docs: seq<Doc>)
    requires docs == KeptOf(ListDocuments(p), true) && forall id | id in p.byId :: p.byId[id].id == id
    ensures forall i, j | 0 <= i < j < |docs| :: docs[i].id != docs[j].id
    ensures NamesApart(p) <==> forall i, j | 0 <= i < j < |docs| :: docs[i].name != docs[j].name
  {
    var ids := Ascending(p.byId.Keys);
    KeptEvery(ListDocuments(p));
    var names := seq(|docs|, i requires 0 <= i < |docs| => docs[i].name);
    AscendingIsDistinct(p.byId.Keys);
    forall i | 0 <= i < |ids| ensures ids[i] in p.byId && docs[i].id == ids[i] && names[i] == p.byId[ids[i]].name {
      ListedDocument(p, i);
    }
    NamesInOrder(p, ids, names);
  }

  lemma ShadowedTogetherIff(docs: seq<Doc>)
    requires forall i, j | 0 <= i < j < |docs| :: docs[i].id != docs[j].id
    ensures ShadowedTogether(docs) <==> forall i, j | 0 <= i < j < |docs| :: docs[i].name != docs[j].name
  {
    forall i | 0 <= i < |docs| ensures LastOfId(docs, i) {}
    if ShadowedTogether(docs) {
      forall i, j | 0 <= i < j < |docs| ensures docs[i].name != docs[j].name {
        assert LastOfName(docs, i);
      }
    }
  }

  /** Saved and loaded, a portfolio with every document under its own id has agreeing indexes exactly if no
      two of them share a name. */
  lemma ReloadedAgreesIff(p: Portfolio)
    requires forall id | id in p.byId :: p.byId[id].id == id
    ensures Agree(Reloaded(p)) <==> NamesApart(p)
  {
    var docs := KeptOf(ListDocuments(p), true);
    ListedNames(p, docs);
    ShadowedTogetherIff(docs);
    LoadedIndexesAgree(p.name, docs);
  }

  /** So two restored documents with one name leave the wallet with indexes that disagree. */
  lemma SharedNameDisagreesAfterReload(d: Doc)
    ensures var one, two := d.(id := "1", name := "n"), d.(id := "2", name := "n");
            !Agree(Reloaded(Indexed("p", [one, two])))
  {
    var docs := [d.(id := "1", name := "n"), d.(id := "2", name := "n")];
    var p := Indexed("p", docs);
    assert docs[..1] == [docs[0]] && [docs[0]][..0] == [];
    assert IndexById([docs[0]]) == map["1" := docs[0]];
    assert p.byId == map["1" := docs[0], "2" := docs[1]];
    ReloadedAgreesIff(p);
  }

  lemma MarkedIndex(name: string, docs: seq<Doc>)
    requires forall d | d in docs :: d.containPrivateData
    ensures MarkAll(Indexed(name, docs)) == Indexed(name, docs)
  {
    forall id | id in IndexById(docs) ensures MarkPrivate(IndexById(docs)[id]) == IndexById(docs)[id] {
      var i := IdHasLast(docs, id);
      IndexHoldsLast(docs, i);
      assert docs[i] in docs;
    }
    forall n | n in IndexByName(docs) ensures MarkPrivate(IndexByName(docs)[n]) == IndexByName(docs)[n] {
      var i := NameHasLast(docs, n);
      IndexHoldsLast(docs, i);
      assert docs[i] in docs;
    }
    assert MarkAll(Indexed(name, docs)).byId == IndexById(docs);
    assert MarkAll(Indexed(name, docs)).byName == IndexByName(docs);
  }

  lemma ReloadedIsMarked(w: World, p: Portfolio)
    requires AllValid(w, p)
    ensures MarkAll(Reloaded(p)) == Reloaded(p) && AllValid(w, Reloaded(p))
  {
    var docs := KeptOf(ListDocuments(p), true);
    forall d | d in docs ensures d.containPrivateData && IsValid(w, d) {
      var x := KeptSource(ListDocuments(p), true, d);
      ValidityKept(w, x);
    }
    MarkedIndex(p.name, docs);
    IndexedKeepsIds(w, p.name, docs);
  }

  function ReloadedEach(ps: seq<Portfolio>): seq<Portfolio> {
    seq(|ps|, i requires 0 <= i < |ps| => Reloaded(ps[i]))
  }

  lemma EachReloads(w: World, ps: seq<Portfolio>)
    requires forall p | p in ps :: AllValid(w, p)
    ensures LoadPortfolios(w, WritePortfolios(ps)) == Success(ReloadedEach(ps))
  {
    forall i | 0 <= i < |ps| ensures LoadPortfolio(w, WritePortfolios(ps)[i]) == Success(ReloadedEach(ps)[i]) {
      assert ps[i] in ps;
      ReloadedLoads(w, ps[i]);
    }
    EachRead(Saved(w), WritePortfolios(ps), ReloadedEach(ps));
  }

  lemma EachIsMarked(w: World, ps: seq<Portfolio>)
    requires forall p | p in ps :: AllValid(w, p)
    ensures MarkEach(ReloadedEach(ps)) == ReloadedEach(ps)
    ensures forall i | 0 <= i < |ps| :: AllValid(w, ReloadedEach(ps)[i])
  {
    forall i | 0 <= i < |ps|
      ensures MarkAll(ReloadedEach(ps)[i]) == ReloadedEach(ps)[i] && AllValid(w, ReloadedEach(ps)[i])
    {
      assert ps[i] in ps;
      ReloadedIsMarked(w, ps[i]);
    }
  }

  lemma EachAgreesIff(w: World, ps: seq<Portfolio>)
    requires forall p | p in ps :: IdsKept(w, p)
    ensures AllAgree(ReloadedEach(ps)) <==> forall p | p in ps :: NamesApart(p)
  {
    forall i | 0 <= i < |ps| ensures Agree(ReloadedEach(ps)[i]) <==> NamesApart(ps[i]) {
      assert ps[i] in ps;
      ReloadedAgreesIff(ps[i]);
    }
    if AllAgree(ReloadedEach(ps)) {
      forall i | 0 <= i < |ps| ensures NamesApart(ps[i]) { assert Agree(ReloadedEach(ps)[i]); }
    }
    if forall p | p in ps :: NamesApart(p) {
      forall i | 0 <= i < |ps| ensures Agree(ReloadedEach(ps)[i]) { assert ps[i] in ps; }
    }
  }

  lemma GoodMeans(w: World, ps: seq<Portfolio>)
    requires forall i | 0 <= i < |ps| :: AllValid(w, ps[i])
    ensures Good(w, ps) <==> AllAgree(ps)
  {
  }

  /** A saved list loads to portfolios that are good exactly if no two documents of one share a name. */
  lemma SavedListIsGoodIff(w: World, ps: seq<Portfolio>)
    requires w.Sound() && forall p | p in ps :: IdsKept(w, p)
    ensures LoadDatabase(w, Some(SaveText(w, ps))) == Success(ReloadedEach(ps))
    ensures MarkEach(ReloadedEach(ps)) == ReloadedEach(ps)
    ensures Good(w, ReloadedEach(ps)) <==> forall p | p in ps :: NamesApart(p)
  {
    EachReloads(w, ps);
    LoadSaved(w, ps);
    EachIsMarked(w, ps);
    EachAgreesIff(w, ps);
    GoodMeans(w, ReloadedEach(ps));
  }

  // ---------------------------------------------------------------- payloads

  /** The payload is refused, or gives portfolios in each of which no two documents share a name. */
  ghost predicate BringsNamesApart(w: World, si: Tree, passphrase: ByteString, version: string) {
    ReadBackup(w, si, passphrase, version).Success? ==>
      forall p | p in ReadBackup(w, si, passphrase, version).value :: NamesApart(p)
  }

  lemma ReadBackupKeepsIds(w: World, si: Tree, passphrase: ByteString, version: string)
    requires ReadBackup(w, si, passphrase, version).Success?
    ensures forall p | p in ReadBackup(w, si, passphrase, version).value :: IdsKept(w, p)
  {
    var items := Items(FindMember(si, "portfolios").value);
    var platform := DecryptMember(w, si, "check_platform", passphrase).value;
    RestoredKeepIds(w, items, passphrase, platform == w.hardwareUuid);
  }

  /** Every backup of a good wallet is such a payload, on every platform. */
  lemma BackupBringsNamesApart(w: World, savedOn: ByteString, ps: seq<Portfolio>, passphrase: ByteString, si: Tree,
                               version: string)
    requires w.Sound() && Good(w, ps) && IsBackup(w, savedOn, ps, passphrase, si)
    ensures BringsNamesApart(w, si, passphrase, version)
  {
    if version == "1.0" {
      var same := savedOn == w.hardwareUuid;
      var kept := MarkEach(KeepEach(ps, same));
      ReadOwnBackup(w, savedOn, ps, passphrase, si);
      KeepEachGood(w, ps, same);
      MarkEachGood(w, KeepEach(ps, same));
      forall i | 0 <= i < |kept| ensures NamesApart(kept[i]) { AgreementKeepsNamesApart(w, kept[i]); }
    }
  }

  // ---------------------------------------------------------------- a payload with two documents of one name

  function WriteAllSrr(w: World, docs: seq<Doc>, key: ByteString, iv: InitVector): seq<Tree> {
    seq(|docs|, i requires 0 <= i < |docs| => WriteSrr(w, docs[i], key, iv))
  }

  /** A backup made on this platform of one portfolio with these documents, all under one vector. */
  function BackupOf(w: World, name: string, docs: seq<Doc>, passphrase: ByteString, iv: InitVector): Tree {
    BackupTree(Encrypt(w.cipher, passphrase, passphrase, iv), Encrypt(w.cipher, w.hardwareUuid, passphrase, iv),
               [PortfolioTree(name, Array(WriteAllSrr(w, docs, passphrase, iv)))])
  }

  lemma WrittenSrrRestored(w: World, name: string, docs: seq<Doc>, key: ByteString, iv: InitVector)
    requires w.Sound() && key != "" && forall d | d in docs :: IsValid(w, d)
    ensures LoadPortfolioFromSrr(w, PortfolioTree(name, Array(WriteAllSrr(w, docs, key, iv))), key, true)
         == Success(Indexed(name, KeptOf(docs, true)))
  {
    var items := WriteAllSrr(w, docs, key, iv);
    forall i | 0 <= i < |docs| ensures RestoresTo(w, items[i], key, true, docs[i]) {
      assert docs[i] in docs;
      assert IsSrrOf(w, docs[i], key, items[i]);
      RestoreWritten(w, docs[i], key, items[i], true);
    }
    RestoredDocs(w, docs, key, items, true);
    PortfolioHeaderRoundTrip(name, items);
  }

  /** It is read, and brings the documents it was made of. */
  lemma BackupOfRead(w: World, name: string, docs: seq<Doc>, passphrase: ByteString, iv: InitVector)
    requires w.Sound() && |passphrase| >= MIN_PASSPHRASE && forall d | d in docs :: IsValid(w, d)
    ensures ReadBackup(w, BackupOf(w, name, docs, passphrase, iv), passphrase, "1.0")
         == Success([Indexed(name, KeptOf(docs, true))])
  {
    var si := BackupOf(w, name, docs, passphrase, iv);
    var list := [PortfolioTree(name, Array(WriteAllSrr(w, docs, passphrase, iv)))];
    BackupMembers(Encrypt(w.cipher, passphrase, passphrase, iv), Encrypt(w.cipher, w.hardwareUuid, passphrase, iv),
                  list);
    DecryptWritten(w, si, "check_passphrase", passphrase, passphrase, iv);
    DecryptWritten(w, si, "check_platform", w.hardwareUuid, passphrase, iv);
    WrittenSrrRestored(w, name, docs, passphrase, iv);
    EachRead(BackedUp(w, passphrase, true), list, [Indexed(name, KeptOf(docs, true))]);
  }

  /** Two documents with one name and two ids are both brought. */
  lemma NamesakesNotApart(w: World, name: string, one: Doc, two: Doc, passphrase: ByteString, iv: InitVector)
    requires w.Sound() && |passphrase| >= MIN_PASSPHRASE && IsValid(w, one) && IsValid(w, two)
    requires one.id != two.id && one.name == two.name
    ensures ReadBackup(w, BackupOf(w, name, [one, two], passphrase, iv), passphrase, "1.0").Success?
    ensures !BringsNamesApart(w, BackupOf(w, name, [one, two], passphrase, iv), passphrase, "1.0")
  {
    var docs := [one, two];
    BackupOfRead(w, name, docs, passphrase, iv);
    KeptEvery(docs);
    var kept := KeptOf(docs, true);
    var p := Indexed(name, kept);
    IndexHoldsLast(kept, 0);
    IndexHoldsLast(kept, 1);
    assert one.id in p.byId && two.id in p.byId && !NamesApart(p);
    assert p in [p];
  }
}
