/** What survives a save, a reload and a restore of the whole wallet. */
module WalletLaws {
  import opened Configuration
  import opened DocumentLaws
  import opened Documents
  import opened Encryption
  import opened Environment
  import opened Ordering
  import opened PortfolioLaws
  import opened Portfolios
  import opened Serialization
  import opened Wallets
  import opened Wrappers

  function MarkEach(ps: seq<Portfolio>): seq<Portfolio> {
    seq(|ps|, i requires 0 <= i < |ps| => MarkAll(ps[i]))
  }

  function KeepEach(ps: seq<Portfolio>, same: bool): seq<Portfolio> {
    seq(|ps|, i requires 0 <= i < |ps| => Keep(ps[i], same))
  }

  ghost predicate Good(w: World, ps: seq<Portfolio>) {
    forall i | 0 <= i < |ps| :: Agree(ps[i]) && AllValid(w, ps[i])
  }

  ghost predicate AllAgree(ps: seq<Portfolio>) {
    forall i | 0 <= i < |ps| :: Agree(ps[i])
  }

  // ---------------------------------------------------------------- save, then load

  lemma {:induction false} EachRead(read: Tree -> Reading<Portfolio>, items: seq<Tree>, ps: seq<Portfolio>)
    requires |items| == |ps|
    requires forall i | 0 <= i < |ps| :: read(items[i]) == Success(ps[i])
    ensures ReadEach(read, items) == Success(ps)
    decreases |ps|
  {
    if ps == [] {
    } else {
      var n := |ps| - 1;
      EachRead(read, items[..n], ps[..n]);
      assert ps == ps[..n] + [ps[n]];
    }
  }

  lemma LoadWritten(w: World, ps: seq<Portfolio>)
    requires Good(w, ps)
    ensures LoadPortfolios(w, WritePortfolios(ps)) == Success(MarkEach(ps))
  {
    forall i | 0 <= i < |ps| ensures LoadPortfolio(w, WritePortfolios(ps)[i]) == Success(MarkEach(ps)[i]) {
      SaveThenLoad(w, ps[i]);
    }
    EachRead(Saved(w), WritePortfolios(ps), MarkEach(ps));
  }

  lemma LoadSaved(w: World, ps: seq<Portfolio>)
    requires w.Sound()
    ensures LoadDatabase(w, Some(SaveText(w, ps))) == LoadPortfolios(w, WritePortfolios(ps))
  {
    var root := DatabaseTree(WritePortfolios(ps));
    assert w.fromText(w.toText(root)) == Json(root);
  }

  /** What `save` writes always loads, valid or not. */
  lemma {:induction false} WrittenLoads(w: World, ps: seq<Portfolio>)
    ensures LoadPortfolios(w, WritePortfolios(ps)).Success?
  {
    if ps == [] {
    } else {
      var n := |ps| - 1;
      assert WritePortfolios(ps)[..n] == WritePortfolios(ps[..n]);
      WrittenLoads(w, ps[..n]);
      PortfolioHeaderRoundTrip(ps[n].name, WriteList(ListDocuments(ps[n])));
    }
  }

  // ---------------------------------------------------------------- lists are read item by item

  lemma ReadMore(read: Tree -> Reading<Portfolio>, items: seq<Tree>, k: nat, ps: seq<Portfolio>)
    requires k < |items| && ReadEach(read, items[..k]) == Success(ps)
    ensures ReadEach(read, items[..k + 1]) == match read(items[k])
                                              case Success(p) => Success(ps + [p])
                                              case Failure(e) => Failure(e)
  {
    assert items[..k + 1][..k] == items[..k];
  }

  lemma {:induction false} ReadStopsAt(read: Tree -> Reading<Portfolio>, items: seq<Tree>, k: nat)
    requires k <= |items| && ReadEach(read, items[..k]).Failure?
    ensures ReadEach(read, items) == Failure(ReadEach(read, items[..k]).error)
    decreases |items|
  {
    var n := |items| - 1;
    if k <= n {
      assert items[..n][..k] == items[..k];
      ReadStopsAt(read, items[..n], k);
    } else {
      assert items[..k] == items;
    }
  }

  lemma {:induction false} CollectStopsAt(file: seq<PortfolioConfiguration>, k: nat)
    requires k <= |file| && CollectConfigurations(file[..k]).Failure?
    ensures CollectConfigurations(file) == Failure(CollectConfigurations(file[..k]).error)
    decreases |file|
  {
    var n := |file| - 1;
    if k <= n {
      assert file[..n][..k] == file[..k];
      CollectStopsAt(file[..n], k);
    } else {
      assert file[..k] == file;
    }
  }

  /** What was collected before the entry at which the collection stops is what is left. */
  lemma {:induction false} LeftBefore(file: seq<PortfolioConfiguration>, k: nat)
    requires k < |file| && CollectConfigurations(file[..k]).Success? && CollectConfigurations(file[..k + 1]).Failure?
    ensures ConfigurationsLeft(file) == CollectConfigurations(file[..k]).value
    decreases |file|
  {
    var n := |file| - 1;
    CollectStopsAt(file, k + 1);
    if k < n {
      assert file[..n][..k] == file[..k] && file[..n][..k + 1] == file[..k + 1];
      LeftBefore(file[..n], k);
    } else {
      assert file[..k + 1] == file;
      if k > 0 { assert ConfigurationsLeft(file[..k]) == CollectConfigurations(file[..k]).value; }
    }
  }

  // ---------------------------------------------------------------- missing portfolios

  lemma FirstNamedIn(ps: seq<Portfolio>, name: string, i: nat)
    requires i < |ps| && ps[i].name == name
    ensures HasPortfolio(ps, name) && FirstNamed(ps, name) <= i
  {
  }

  /** `all` is `ps` followed by empty portfolios of names that had none. */
  ghost predicate OnlyAdds(ps: seq<Portfolio>, all: seq<Portfolio>, names: seq<string>) {
    && ps <= all
    && forall i | |ps| <= i < |all| ::
         all[i] == EmptyPortfolio(all[i].name) && all[i].name in names && !HasPortfolio(ps, all[i].name)
  }

  lemma AddIfMissingResolves(ps: seq<Portfolio>, name: string, n: string)
    requires n == name || HasPortfolio(ps, n)
    ensures HasPortfolio(AddIfMissing(ps, name), n)
  {
    if HasPortfolio(ps, n) {
      FirstNamedIn(AddIfMissing(ps, name), n, FirstNamed(ps, n));
    } else {
      FirstNamedIn(AddIfMissing(ps, name), n, |ps|);
    }
  }

  lemma NotInPrefix(ps: seq<Portfolio>, all: seq<Portfolio>, n: string)
    requires ps <= all && !HasPortfolio(all, n)
    ensures !HasPortfolio(ps, n)
  {
    if HasPortfolio(ps, n) {
      FirstNamedIn(all, n, FirstNamed(ps, n));
    }
  }

  lemma AddIfMissingOnlyAdds(ps: seq<Portfolio>, before: seq<Portfolio>, names: seq<string>, name: string)
    requires OnlyAdds(ps, before, names)
    ensures OnlyAdds(ps, AddIfMissing(before, name), names + [name])
  {
    if !HasPortfolio(before, name) {
      NotInPrefix(ps, before, name);
      var all := AddIfMissing(before, name);
      forall i | |ps| <= i < |all|
        ensures all[i] == EmptyPortfolio(all[i].name) && all[i].name in names + [name] && !HasPortfolio(ps, all[i].name)
      {
        if i < |before| { assert all[i] == before[i]; }
      }
    }
  }

  /** Only empty portfolios are added, after all those that were there; every name asked for then
      resolves, and a list where each one did is unchanged. */
  lemma {:induction false} MissingAdded(ps: seq<Portfolio>, names: seq<string>)
    ensures OnlyAdds(ps, AddMissing(ps, names), names)
    ensures forall n | n in names || HasPortfolio(ps, n) :: HasPortfolio(AddMissing(ps, names), n)
    ensures (forall n | n in names :: HasPortfolio(ps, n)) ==> AddMissing(ps, names) == ps
    decreases |names|
  {
    if names == [] {
    } else {
      var k := |names| - 1;
      var before := AddMissing(ps, names[..k]);
      MissingAdded(ps, names[..k]);
      assert names == names[..k] + [names[k]];
      AddIfMissingOnlyAdds(ps, before, names[..k], names[k]);
      forall n | n in names || HasPortfolio(ps, n) ensures HasPortfolio(AddMissing(ps, names), n) {
        AddIfMissingResolves(before, names[k], n);
      }
    }
  }

  lemma MissingKeepsGood(w: World, ps: seq<Portfolio>, names: seq<string>)
    requires Good(w, ps)
    ensures Good(w, AddMissing(ps, names))
  {
  }

  lemma MarkEachGood(w: World, ps: seq<Portfolio>)
    requires Good(w, ps)
    ensures Good(w, MarkEach(ps)) && MarkEach(MarkEach(ps)) == MarkEach(ps)
  {
    forall i | 0 <= i < |ps| ensures Agree(MarkAll(ps[i])) && AllValid(w, MarkAll(ps[i])) {
      MarkAllAgrees(ps[i]);
      forall id | id in ps[i].byId ensures IsValid(w, MarkPrivate(ps[i].byId[id])) {
        ValidityKept(w, ps[i].byId[id]);
      }
    }
    forall i | 0 <= i < |ps| ensures MarkAll(MarkAll(ps[i])) == MarkAll(ps[i]) {}
  }

  lemma KeepEachGood(w: World, ps: seq<Portfolio>, same: bool)
    requires Good(w, ps)
    ensures Good(w, KeepEach(ps, same))
  {
    forall i | 0 <= i < |ps| ensures Agree(Keep(ps[i], same)) && AllValid(w, Keep(ps[i], same)) {
      KeepAgrees(ps[i], same);
    }
  }

  lemma SameNames(ps: seq<Portfolio>, qs: seq<Portfolio>, name: string)
    requires |ps| == |qs| && forall i | 0 <= i < |ps| :: ps[i].name == qs[i].name
    ensures FirstNamed(ps, name) == FirstNamed(qs, name)
  {
  }

  // ---------------------------------------------------------------- restore

  lemma BackupMembers(a: string, b: string, items: seq<Tree>)
    ensures FindText(BackupTree(a, b, items), "check_passphrase") == Some(a)
    ensures FindText(BackupTree(a, b, items), "check_platform") == Some(b)
    ensures FindMember(BackupTree(a, b, items), "portfolios") == Some(Array(items))
  {
  }

  lemma DecryptWritten(w: World, si: Tree, name: string, plain: ByteString, passphrase: ByteString, iv: InitVector)
    requires w.Sound() && FindText(si, name) == Some(Encrypt(w.cipher, plain, passphrase, iv))
    ensures DecryptMember(w, si, name, passphrase) == Success(plain)
  {
    DecryptUndoesEncrypt(w.cipher, plain, passphrase, iv);
  }

  /** A backup read under its own passphrase gives the portfolios it was made of: all of them on the
      platform it was made on, without the internal certificates on any other. */
  lemma ReadOwnBackup(w: World, savedOn: ByteString, ps: seq<Portfolio>, passphrase: ByteString, si: Tree)
    requires w.Sound() && Good(w, ps)
    requires IsBackup(w, savedOn, ps, passphrase, si)
    ensures ReadBackup(w, si, passphrase, "1.0") == Success(MarkEach(KeepEach(ps, savedOn == w.hardwareUuid)))
  {
    var check: InitVector, platform: InitVector, items: seq<Tree> :|
      IsBackupWith(w, savedOn, ps, passphrase, si, check, platform, items);
    BackupMembers(Encrypt(w.cipher, passphrase, passphrase, check), Encrypt(w.cipher, savedOn, passphrase, platform),
                  items);
    DecryptWritten(w, si, "check_passphrase", passphrase, passphrase, check);
    DecryptWritten(w, si, "check_platform", savedOn, passphrase, platform);
    var same := savedOn == w.hardwareUuid;
    var kept := MarkEach(KeepEach(ps, same));
    forall i | 0 <= i < |ps| ensures LoadPortfolioFromSrr(w, items[i], passphrase, same) == Success(kept[i]) {
      BackupThenRestore(w, ps[i], passphrase, items[i], same);
    }
    EachRead(BackedUp(w, passphrase, same), items, kept);
  }

  /** Restored through its inner save and reload, a backup gives the portfolios read from it, and every
      configured portfolio it lacks comes back empty. */
  lemma RestoreOwnBackup(w: World, savedOn: ByteString, ps: seq<Portfolio>, passphrase: ByteString, si: Tree)
    requires w.Sound() && Good(w, ps) && LoadConfigurations(w.configurationFile).Success?
    requires IsBackup(w, savedOn, ps, passphrase, si)
    ensures var kept := MarkEach(KeepEach(ps, savedOn == w.hardwareUuid));
            var configurations := LoadConfigurations(w.configurationFile).value;
            Restore(w, si, passphrase, "1.0")
            == Success(Wallet(configurations, AddMissing(kept, Ascending(configurations.Keys)),
                              Some(SaveText(w, kept))))
  {
    var same := savedOn == w.hardwareUuid;
    ReadOwnBackup(w, savedOn, ps, passphrase, si);
    KeepEachGood(w, ps, same);
    var kept := MarkEach(KeepEach(ps, same));
    MarkEachGood(w, KeepEach(ps, same));
    LoadSaved(w, kept);
    LoadWritten(w, kept);
  }

  /** A restore fails in its checks or not at all: once the list is replaced, the inner save and reload
      succeed whatever was read. */
  lemma RestoreFailsEarly(w: World, si: Tree, passphrase: ByteString, version: string)
    requires w.Sound() && LoadConfigurations(w.configurationFile).Success?
    ensures Restore(w, si, passphrase, version).Success? <==> ReadBackup(w, si, passphrase, version).Success?
  {
    if ReadBackup(w, si, passphrase, version).Success? {
      var ps := ReadBackup(w, si, passphrase, version).value;
      LoadSaved(w, ps);
      WrittenLoads(w, ps);
    }
  }
}
