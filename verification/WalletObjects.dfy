/** The wallet object: configuration, a list of portfolio objects, and the database file. */
module WalletObjects {
  import opened DocumentObjects
  import opened Documents
  import opened Encryption
  import opened Environment
  import opened Errors
  import opened Ordering
  import opened PortfolioLaws
  import opened PortfolioObjects
  import opened Portfolios
  import opened Serialization
  import opened Sources
  import opened WalletLaws
  import opened Wallets
  import opened Wrappers

  /** `list` is a list of different portfolio objects with the values `ps` and documents among `held`; if
      `sharing`, both indexes of each hold the same objects. */
  ghost predicate Represents(list: seq<PortfolioObject>, ps: seq<Portfolio>, sharing: bool, held: set<Document>)
    reads list, held
  {
    && |list| == |ps|
    && (forall i, j | 0 <= i < j < |list| :: list[i] != list[j])
    && forall i | 0 <= i < |list| :: RepresentsOne(list[i], ps[i], sharing, held)
  }

  ghost predicate RepresentsOne(p: PortfolioObject, value: Portfolio, sharing: bool, held: set<Document>)
    reads p, held
  {
    p.Held() <= held && p.Value() == value && (sharing ==> p.SharesObjects())
  }

  lemma RepresentsAppend(list: seq<PortfolioObject>, ps: seq<Portfolio>, sharing: bool, held: set<Document>,
                         p: PortfolioObject, value: Portfolio, sharingOne: bool)
    requires Represents(list, ps, sharing, held) && p !in list
    requires RepresentsOne(p, value, sharingOne, p.Held())
    ensures Represents(list + [p], ps + [value], sharing && sharingOne, held + p.Held())
  {
    var all := list + [p];
    forall i | 0 <= i < |list| ensures RepresentsOne(list[i], ps[i], sharing && sharingOne, held + p.Held()) {
      assert RepresentsOne(list[i], ps[i], sharing, held);
    }
  }

  lemma AgreeAppend(ps: seq<Portfolio>, p: Portfolio)
    ensures AllAgree(ps + [p]) <==> AllAgree(ps) && Agree(p)
  {
    if AllAgree(ps + [p]) {
      assert Agree((ps + [p])[|ps|]);
      forall i | 0 <= i < |ps| ensures Agree(ps[i]) { assert Agree((ps + [p])[i]); }
    }
  }

  lemma AppendAgreeing(list: seq<PortfolioObject>, ps: seq<Portfolio>, held: set<Document>, p: PortfolioObject,
                       value: Portfolio)
    requires Represents(list, ps, AllAgree(ps), held) && p !in list
    requires RepresentsOne(p, value, Agree(value), p.Held())
    ensures Represents(list + [p], ps + [value], AllAgree(ps + [value]), held + p.Held())
  {
    RepresentsAppend(list, ps, AllAgree(ps), held, p, value, Agree(value));
    AgreeAppend(ps, value);
  }

  /** `items` are the first portfolios of a list, written for a backup. */
  ghost predicate FirstEncrypted(w: World, ps: seq<Portfolio>, passphrase: ByteString, items: seq<Tree>) {
    |items| <= |ps| && forall i | 0 <= i < |items| :: IsSrrPortfolio(w, ps[i], passphrase, items[i])
  }

  lemma EncryptedGrows(w: World, ps: seq<Portfolio>, passphrase: ByteString, before: seq<Tree>, item: Tree)
    requires FirstEncrypted(w, ps, passphrase, before) && |before| < |ps|
    requires IsSrrPortfolio(w, ps[|before|], passphrase, item)
    ensures FirstEncrypted(w, ps, passphrase, before + [item])
  {
    var items := before + [item];
    forall i | 0 <= i < |items| ensures IsSrrPortfolio(w, ps[i], passphrase, items[i]) {
      if i < |before| {
        assert items[i] == before[i];
      } else {
        assert items[i] == item;
      }
    }
  }

  class SecurityWallet {
    const world: World
    var configurations: Configurations
    var portfolios: seq<PortfolioObject>
    var database: Option<string>
    ghost var state: seq<Portfolio>
    ghost var sharing: bool
    ghost var held: set<Document>

    ghost predicate Valid()
      reads this`portfolios, this`state, this`sharing, this`held, portfolios, held
    {
      Represents(portfolios, state, sharing, held)
    }

    ghost function Value(): Wallet
      reads this
    {
      Wallet(configurations, state, database)
    }

    /** Both indexes of every portfolio hold the same objects. */
    ghost predicate SharesObjects()
      requires Valid()
      reads this`portfolios, this`state, this`sharing, this`held, portfolios, held
    {
      forall i | 0 <= i < |portfolios| ::
        RepresentsOne(portfolios[i], state[i], sharing, held) && portfolios[i].SharesObjects()
    }

    /** That is what `sharing` records, and then the indexes agree as values. */
    lemma SharedEverywhere()
      requires Valid() && sharing
      ensures SharesObjects() && AllAgree(state)
    {
      forall i | 0 <= i < |portfolios| ensures portfolios[i].SharesObjects() && Agree(state[i]) {
        assert RepresentsOne(portfolios[i], state[i], sharing, held);
        portfolios[i].SharingAgrees();
      }
    }

    // -------------------------------------------------------------- lookup

    method GetPortfolio(name: string) returns (r: Result<PortfolioObject, SecwException>, ghost k: nat)
      requires Valid()
      ensures match Wallets.GetPortfolio(state, name)
              case Success(i) => k == i && r == Success(portfolios[k])
              case Failure(e) => r == Failure(e)
    {
      for i := 0 to |portfolios|
        invariant forall j | 0 <= j < i :: state[j].name != name
      {
        assert RepresentsOne(portfolios[i], state[i], sharing, held);
        if portfolios[i].name == name {
          return Success(portfolios[i]), i;
        }
      }
      return Failure(UnknownPortfolioError(name)), 0;
    }

    /** A copy of a document of the portfolio at `k`. */
    method CopyById(ghost k: nat, p: PortfolioObject, id: string) returns (r: Result<Document, SecwException>)
      requires Valid() && k < |portfolios| && p == portfolios[k]
      ensures match Portfolios.GetDocument(state[k], id)
              case Success(d) => r.Success? && fresh(r.value) && r.value.Value() == d
              case Failure(e) => r == Failure(e)
    {
      assert RepresentsOne(portfolios[k], state[k], sharing, held);
      r := p.GetDocument(id);
    }

    method CopyByName(ghost k: nat, p: PortfolioObject, name: string) returns (r: Result<Document, SecwException>)
      requires Valid() && k < |portfolios| && p == portfolios[k]
      ensures match Portfolios.GetDocumentByName(state[k], name)
              case Success(d) => r.Success? && fresh(r.value) && r.value.Value() == d
              case Failure(e) => r == Failure(e)
    {
      assert RepresentsOne(portfolios[k], state[k], sharing, held);
      r := p.GetDocumentByName(name);
    }

    // -------------------------------------------------------------- saving

    method SerializeOne(i: nat) returns (item: Tree)
      requires Valid() && i < |portfolios|
      ensures item == SerializePortfolio(state[i])
    {
      assert RepresentsOne(portfolios[i], state[i], sharing, held);
      item := portfolios[i].SerializePortfolio();
    }

    method SerializeAll() returns (items: seq<Tree>)
      requires Valid()
      ensures items == WritePortfolios(state)
    {
      items := [];
      for i := 0 to |portfolios|
        invariant |items| == i && forall j | 0 <= j < i :: items[j] == SerializePortfolio(state[j])
      {
        var item := SerializeOne(i);
        items := items + [item];
      }
    }

    method Save()
      requires Valid()
      modifies this`database
      ensures Valid() && database == Some(SaveText(world, state))
    {
      var items := SerializeAll();
      database := Some(Serialize(world, DatabaseTree(items)));
    }

    // -------------------------------------------------------------- changing one portfolio

    /** All portfolios but the one at `k` are as recorded. */
    ghost predicate ValidExcept(k: nat, others: set<PortfolioObject>)
      reads this`portfolios, this`state, this`sharing, this`held, others, held
    {
      && k < |portfolios| == |state| && portfolios[k] !in others
      && forall i | 0 <= i < |portfolios| && i != k ::
           portfolios[i] in others && RepresentsOne(portfolios[i], state[i], sharing, held)
    }

    ghost predicate Distinct()
      reads this`portfolios
    {
      forall i, j | 0 <= i < j < |portfolios| :: portfolios[i] != portfolios[j]
    }

    lemma SplitAt(k: nat) returns (others: set<PortfolioObject>)
      requires Valid() && k < |portfolios|
      ensures ValidExcept(k, others) && Distinct() && RepresentsOne(portfolios[k], state[k], sharing, held)
    {
      others := (set i | 0 <= i < |portfolios| :: portfolios[i]) - {portfolios[k]};
    }

    /** After an operation that left the portfolio at `k` with the value `q`: the whole list is saved if it
        succeeded. */
    method Settle(ghost k: nat, ghost others: set<PortfolioObject>, ghost q: Portfolio, changed: bool)
      requires ValidExcept(k, others) && Distinct()
      requires portfolios[k].Value() == q && (sharing ==> portfolios[k].SharesObjects())
      modifies this`state, this`held, this`database
      ensures Valid() && state == old(state)[k := q]
      ensures database == if changed then Some(SaveText(world, state)) else old(database)
    {
      Refresh(k, others, q);
      if changed {
        Save();
      }
    }

    lemma OthersRepresented(k: nat, others: set<PortfolioObject>, all: seq<Portfolio>, more: set<Document>)
      requires ValidExcept(k, others) && |all| == |state| && held <= more
      requires forall i | 0 <= i < |state| && i != k :: all[i] == state[i]
      ensures forall i | 0 <= i < |portfolios| && i != k :: RepresentsOne(portfolios[i], all[i], sharing, more)
    {
      forall i | 0 <= i < |portfolios| && i != k ensures RepresentsOne(portfolios[i], all[i], sharing, more) {
        assert RepresentsOne(portfolios[i], state[i], sharing, held);
      }
    }

    ghost method Refresh(k: nat, others: set<PortfolioObject>, q: Portfolio)
      requires ValidExcept(k, others) && Distinct()
      requires portfolios[k].Value() == q && (sharing ==> portfolios[k].SharesObjects())
      modifies this`state, this`held
      ensures Valid() && state == old(state)[k := q]
    {
      var all, more := state[k := q], held + portfolios[k].Held();
      OthersRepresented(k, others, all, more);
      assert RepresentsOne(portfolios[k], all[k], sharing, more);
      state, held := all, more;
    }

    /** What the operation makes of the portfolio at `k`, while the others stay as recorded. */
    method AddTo(ghost k: nat, ghost others: set<PortfolioObject>, p: PortfolioObject, doc: Document, source: IdSource)
      returns (r: Result<string, SecwException>, ghost newId: string, ghost q: Portfolio)
      requires ValidExcept(k, others) && source.Valid() && p == portfolios[k]
      modifies p, source
      ensures ValidExcept(k, others) && p.Value() == q
      ensures old(p.SharesObjects()) ==> p.SharesObjects()
      ensures r.Success? ==> r.value == newId && newId !in old(p.Value()).byId
                             && Portfolios.Add(old(p.Value()), old(doc.Value()), newId) == Success(q)
      ensures r.Failure? ==>
                q == old(p.Value()) && Portfolios.Add(old(p.Value()), old(doc.Value()), newId) == Failure(r.error)
    {
      r, newId := p.Add(doc, source);
      q := p.Value();
    }

    method RemoveFrom(ghost k: nat, ghost others: set<PortfolioObject>, p: PortfolioObject, id: string)
      returns (r: Outcome<SecwException>, ghost q: Portfolio)
      requires ValidExcept(k, others) && p == portfolios[k]
      modifies p
      ensures ValidExcept(k, others) && p.Value() == q
      ensures old(p.SharesObjects()) ==> p.SharesObjects()
      ensures r.Pass? ==> Portfolios.Remove(old(p.Value()), id) == Success(q)
      ensures r.Fail? ==> q == old(p.Value()) && Portfolios.Remove(old(p.Value()), id) == Failure(r.error)
    {
      r := p.Remove(id);
      q := p.Value();
    }

    method UpdateIn(ghost k: nat, ghost others: set<PortfolioObject>, p: PortfolioObject, doc: Document)
      returns (r: Outcome<SecwException>, ghost q: Portfolio)
      requires ValidExcept(k, others) && p == portfolios[k]
      modifies p
      ensures ValidExcept(k, others) && p.Value() == q
      ensures old(p.SharesObjects()) ==> p.SharesObjects()
      ensures r.Pass? ==> Portfolios.Update(old(p.Value()), old(doc.Value())) == Success(q)
      ensures r.Fail? ==> q == old(p.Value()) && Portfolios.Update(old(p.Value()), old(doc.Value())) == Failure(r.error)
    {
      r := p.Update(doc);
      q := p.Value();
    }

    method AddAndSave(ghost k: nat, p: PortfolioObject, doc: Document, source: IdSource)
      returns (r: Result<string, SecwException>, ghost newId: string, ghost q: Portfolio)
      requires Valid() && source.Valid() && k < |portfolios| && p == portfolios[k]
      modifies this`state, this`held, this`database, p, source
      ensures Valid()
      ensures r.Success? ==>
                && r.value == newId && newId !in old(state[k]).byId
                && Portfolios.Add(old(state[k]), old(doc.Value()), newId) == Success(q)
                && state == old(state)[k := q] && database == Some(SaveText(world, state))
      ensures r.Failure? ==>
                Portfolios.Add(old(state[k]), old(doc.Value()), newId) == Failure(r.error) && Value() == old(Value())
    {
      ghost var others := SplitAt(k);
      r, newId, q := AddTo(k, others, p, doc, source);
      Settle(k, others, q, r.Success?);
    }

    method RemoveAndSave(ghost k: nat, p: PortfolioObject, id: string)
      returns (r: Outcome<SecwException>, ghost q: Portfolio)
      requires Valid() && k < |portfolios| && p == portfolios[k]
      modifies this`state, this`held, this`database, p
      ensures Valid()
      ensures r.Pass? ==>
                && Portfolios.Remove(old(state[k]), id) == Success(q)
                && state == old(state)[k := q] && database == Some(SaveText(world, state))
      ensures r.Fail? ==> Portfolios.Remove(old(state[k]), id) == Failure(r.error) && Value() == old(Value())
    {
      ghost var others := SplitAt(k);
      r, q := RemoveFrom(k, others, p, id);
      Settle(k, others, q, r.Pass?);
    }

    method UpdateAndSave(ghost k: nat, p: PortfolioObject, doc: Document)
      returns (r: Outcome<SecwException>, ghost q: Portfolio)
      requires Valid() && k < |portfolios| && p == portfolios[k]
      modifies this`state, this`held, this`database, p
      ensures Valid()
      ensures r.Pass? ==>
                && Portfolios.Update(old(state[k]), old(doc.Value())) == Success(q)
                && state == old(state)[k := q] && database == Some(SaveText(world, state))
      ensures r.Fail? ==>
                Portfolios.Update(old(state[k]), old(doc.Value())) == Failure(r.error) && Value() == old(Value())
    {
      ghost var others := SplitAt(k);
      r, q := UpdateIn(k, others, p, doc);
      Settle(k, others, q, r.Pass?);
    }

    // -------------------------------------------------------------- loading

    /** The configurations are entered one by one; a failure leaves those entered before. */
    method ReadConfigurations() returns (r: Outcome<SecwException>)
      requires configurations == map[]
      modifies this`configurations
      ensures match LoadConfigurations(world.configurationFile)
              case Success(c) => r == Pass && configurations == c
              case Failure(e) => r == Fail(e) && configurations == ConfigurationsLeft(world.configurationFile)
    {
      var file := world.configurationFile;
      for k := 0 to |file|
        invariant CollectConfigurations(file[..k]) == Success(configurations)
      {
        assert file[..k + 1][..k] == file[..k];
        var config := file[k];
        if config.portfolioName in configurations {
          CollectStopsAt(file, k + 1);
          LeftBefore(file, k);
          return Fail(RuntimeError("Portfolio " + config.portfolioName + " already exist in the configuration."));
        }
        configurations := configurations[config.portfolioName := config];
      }
      assert file[..|file|] == file;
      if configurations == map[] {
        return Fail(RuntimeError("No Portfolio in the configuration."));
      }
      r := Pass;
    }

    static method LoadNew(w: World, si: Tree)
      returns (r: Outcome<SecwException>, p: PortfolioObject, ghost value: Portfolio)
      ensures fresh(p)
      ensures r.Pass? ==> Saved(w)(si) == Success(value) && RepresentsOne(p, value, Agree(value), p.Held())
      ensures r.Fail? ==> Saved(w)(si) == Failure(r.error)
    {
      p := new PortfolioObject("default");
      r := p.LoadPortfolio(w, si);
      value := p.Value();
      if r.Pass? {
        LoadedIndexesAgree(p.name, Accepted(w, ReadPortfolioHeader(si).value.1));
      }
    }

    /** One more item of the list. */
    static method LoadNext(w: World, items: seq<Tree>, k: nat, list: seq<PortfolioObject>, ghost ps: seq<Portfolio>,
                           ghost held: set<Document>)
      returns (r: Outcome<SecwException>, all: seq<PortfolioObject>, ghost qs: seq<Portfolio>,
               ghost docs: set<Document>)
      requires k < |items| && LoadPortfolios(w, items[..k]) == Success(ps) && Represents(list, ps, AllAgree(ps), held)
      ensures r.Pass? ==> LoadPortfolios(w, items[..k + 1]) == Success(qs) && Represents(all, qs, AllAgree(qs), docs)
      ensures r.Fail? ==> LoadPortfolios(w, items) == Failure(r.error)
    {
      ReadMore(Saved(w), items, k, ps);
      var p;
      ghost var value;
      r, p, value := LoadNew(w, items[k]);
      all, qs, docs := list + [p], ps + [value], held + p.Held();
      if r.Pass? {
        AppendAgreeing(list, ps, held, p, value);
      } else {
        ReadStopsAt(Saved(w), items, k + 1);
      }
    }

    static method LoadAll(w: World, items: seq<Tree>)
      returns (r: Outcome<SecwException>, list: seq<PortfolioObject>, ghost ps: seq<Portfolio>,
               ghost held: set<Document>)
      ensures r.Pass? ==> LoadPortfolios(w, items) == Success(ps) && Represents(list, ps, AllAgree(ps), held)
      ensures r.Fail? ==> LoadPortfolios(w, items) == Failure(r.error)
    {
      r, list, ps, held := Pass, [], [], {};
      for k := 0 to |items|
        invariant LoadPortfolios(w, items[..k]) == Success(ps)
        invariant Represents(list, ps, AllAgree(ps), held)
      {
        r, list, ps, held := LoadNext(w, items, k, list, ps, held);
        if r.Fail? { return; }
      }
      assert items[..|items|] == items;
      r := Pass;
    }

    static method ReadDatabase(w: World, database: Option<string>)
      returns (r: Outcome<SecwException>, list: seq<PortfolioObject>, ghost ps: seq<Portfolio>,
               ghost held: set<Document>)
      ensures match LoadDatabase(w, database)
              case Success(loaded) => r == Pass && ps == loaded && Represents(list, ps, AllAgree(ps), held)
              case Failure(e) => r == Fail(e)
    {
      if database.None? { return Pass, [], [], {}; }
      var parsed := w.fromText(database.value);
      if parsed.BadJson? { return Fail(LIBRARY_ERROR), [], [], {}; }
      var version := FindByte(parsed.tree, "version");
      if version.None? { return Fail(LIBRARY_ERROR), [], [], {}; }
      if version.value != 1 { return Pass, [], [], {}; }
      var items := FindMember(parsed.tree, "portfolios");
      if items.None? { return Fail(LIBRARY_ERROR), [], [], {}; }
      r, list, ps, held := LoadAll(w, Items(items.value));
    }

    static method Contains(list: seq<PortfolioObject>, ghost ps: seq<Portfolio>, ghost sharing: bool,
                           ghost held: set<Document>, name: string) returns (found: bool)
      requires Represents(list, ps, sharing, held)
      ensures found == HasPortfolio(ps, name)
    {
      found := false;
      for i := 0 to |list|
        invariant forall j | 0 <= j < i :: ps[j].name != name
      {
        assert RepresentsOne(list[i], ps[i], sharing, held);
        if list[i].name == name {
          return true;
        }
      }
    }

    static method AddIfMissing(list: seq<PortfolioObject>, ghost ps: seq<Portfolio>, ghost sharing: bool,
                               ghost held: set<Document>, name: string)
      returns (all: seq<PortfolioObject>, ghost qs: seq<Portfolio>)
      requires Represents(list, ps, sharing, held)
      ensures Represents(all, qs, sharing, held)
      ensures qs == Wallets.AddIfMissing(ps, name)
    {
      all, qs := list, ps;
      var found := Contains(all, qs, sharing, held, name);
      if !found {
        var p := new PortfolioObject(name);
        RepresentsAppend(all, qs, sharing, held, p, EmptyPortfolio(name), true);
        assert held + p.Held() == held;
        all, qs := all + [p], qs + [EmptyPortfolio(name)];
      }
    }

    static method AddMissingTo(list: seq<PortfolioObject>, ghost ps: seq<Portfolio>, ghost sharing: bool,
                               ghost held: set<Document>, names: seq<string>)
      returns (all: seq<PortfolioObject>, ghost qs: seq<Portfolio>)
      requires Represents(list, ps, sharing, held)
      ensures Represents(all, qs, sharing, held)
      ensures qs == AddMissing(ps, names)
    {
      all, qs := list, ps;
      for k := 0 to |names|
        invariant Represents(all, qs, sharing, held)
        invariant qs == AddMissing(ps, names[..k])
      {
        assert names[..k + 1][..k] == names[..k];
        all, qs := AddIfMissing(all, qs, sharing, held, names[k]);
      }
      assert names[..|names|] == names;
    }

    /** The portfolios of the file; every configured one that was not read is added, empty. */
    static method ReadPortfolios(w: World, database: Option<string>, names: seq<string>)
      returns (r: Outcome<SecwException>, list: seq<PortfolioObject>, ghost ps: seq<Portfolio>,
               ghost share: bool, ghost docs: set<Document>)
      ensures match LoadDatabase(w, database)
              case Success(loaded) => && r == Pass && ps == AddMissing(loaded, names) && share == AllAgree(loaded)
                                      && Represents(list, ps, share, docs)
              case Failure(e) => r == Fail(e)
    {
      ghost var loaded;
      r, list, loaded, docs := ReadDatabase(w, database);
      if r.Fail? { return r, list, loaded, true, docs; }
      share := AllAgree(loaded);
      list, ps := AddMissingTo(list, loaded, share, docs, names);
    }

    /** Configuration and portfolios are cleared and read again. */
    method Reload() returns (r: Outcome<SecwException>)
      modifies this`configurations, this`portfolios, this`state, this`sharing, this`held
      ensures Valid()
      ensures match Wallets.Reload(world, database)
              case Success(v) => r == Pass && Value() == v && sharing == AllAgree(LoadDatabase(world, database).value)
              case Failure(e) => r == Fail(e) && configurations == ConfigurationsLeft(world.configurationFile)
      ensures LoadConfigurations(world.configurationFile).Failure? ==> Value() == Unconfigured(world, database)
    {
      Clear();
      r := ReadConfigurations();
      if r.Fail? { return; }
      var list;
      ghost var ps, share, docs;
      r, list, ps, share, docs := ReadPortfolios(world, database, Ascending(configurations.Keys));
      if r.Pass? {
        Install(list, ps, share, docs);
      }
    }

    method Clear()
      modifies this`configurations, this`portfolios, this`state
      ensures Valid() && configurations == map[] && state == []
    {
      configurations, portfolios, state := map[], [], [];
    }

    method Install(list: seq<PortfolioObject>, ghost ps: seq<Portfolio>, ghost share: bool, ghost docs: set<Document>)
      requires Represents(list, ps, share, docs)
      modifies this`portfolios, this`state, this`sharing, this`held
      ensures Valid() && portfolios == list && state == ps && sharing == share && held == docs
    {
      portfolios, state, sharing, held := list, ps, share, docs;
    }

    constructor (world: World, database: Option<string>)
      ensures this.world == world && this.database == database && Valid()
    {
      this.world, this.database := world, database;
      configurations, portfolios, state, sharing, held := map[], [], [], true, {};
    }

    /** What the program does with a new wallet: reload, then save; a failure ends the process. */
    method Start() returns (r: Outcome<SecwException>)
      modifies this
      ensures r.Pass? ==> Valid() && Startup(world, old(database)) == Success(Value())
                          && sharing == AllAgree(LoadDatabase(world, old(database)).value)
      ensures r.Fail? ==> Startup(world, old(database)) == Failure(r.error)
    {
      r := Reload();
      if r.Pass? {
        Save();
      }
    }

    // -------------------------------------------------------------- backup and restore

    method GetSrrSaveData(passphrase: ByteString, random: VectorSource) returns (r: Result<Tree, SecwException>)
      requires Valid()
      modifies random
      ensures if |passphrase| < MIN_PASSPHRASE then
                r == Failure(RuntimeError("Passphrase must be at least 8 characters!"))
              else r.Success? && IsBackup(world, world.hardwareUuid, state, passphrase, r.value)
    {
      if |passphrase| < MIN_PASSPHRASE {
        return Failure(RuntimeError("Passphrase must be at least 8 characters!"));
      }
      var check := random.Draw();
      var platform := random.Draw();
      var items := EncryptAll(passphrase, random);
      var si := BackupTree(Encrypt(world.cipher, passphrase, passphrase, check),
                           Encrypt(world.cipher, world.hardwareUuid, passphrase, platform), items);
      assert IsBackupWith(world, world.hardwareUuid, state, passphrase, si, check, platform, items);
      r := Success(si);
    }

    method EncryptPortfolio(k: nat, passphrase: ByteString, random: VectorSource) returns (item: Tree)
      requires Valid() && k < |portfolios|
      modifies random
      ensures Valid() && IsSrrPortfolio(world, state[k], passphrase, item)
    {
      assert RepresentsOne(portfolios[k], state[k], sharing, held);
      item := portfolios[k].SerializePortfolioSrr(world, passphrase, random);
    }

    method EncryptNext(before: seq<Tree>, passphrase: ByteString, random: VectorSource) returns (items: seq<Tree>)
      requires Valid() && FirstEncrypted(world, state, passphrase, before) && |before| < |portfolios|
      modifies random
      ensures Valid() && FirstEncrypted(world, state, passphrase, items) && |items| == |before| + 1
    {
      var item := EncryptPortfolio(|before|, passphrase, random);
      EncryptedGrows(world, state, passphrase, before, item);
      items := before + [item];
    }

    method EncryptAll(passphrase: ByteString, random: VectorSource) returns (items: seq<Tree>)
      requires Valid()
      modifies random
      ensures |items| == |state| && FirstEncrypted(world, state, passphrase, items)
    {
      items := [];
      while |items| < |portfolios|
        invariant Valid() && FirstEncrypted(world, state, passphrase, items)
        decreases |portfolios| - |items|
      {
        items := EncryptNext(items, passphrase, random);
      }
    }

    static method RestoreNew(w: World, si: Tree, key: ByteString, same: bool)
      returns (r: Outcome<SecwException>, p: PortfolioObject, ghost value: Portfolio)
      ensures fresh(p)
      ensures r.Pass? ==>
                BackedUp(w, key, same)(si) == Success(value) && RepresentsOne(p, value, Agree(value), p.Held())
      ensures r.Fail? ==> BackedUp(w, key, same)(si) == Failure(r.error)
    {
      p := new PortfolioObject("default");
      r := p.LoadPortfolioFromSrr(w, si, key, same);
      value := p.Value();
      if r.Pass? {
        LoadedIndexesAgree(p.name, Restored(w, ReadPortfolioHeader(si).value.1, key, same));
      }
    }

    /** One more item of the list. */
    static method RestoreNext(w: World, items: seq<Tree>, key: ByteString, same: bool, k: nat,
                              list: seq<PortfolioObject>, ghost ps: seq<Portfolio>, ghost held: set<Document>)
      returns (r: Outcome<SecwException>, all: seq<PortfolioObject>, ghost qs: seq<Portfolio>,
               ghost docs: set<Document>)
      requires k < |items| && LoadSrrPortfolios(w, items[..k], key, same) == Success(ps)
               && Represents(list, ps, AllAgree(ps), held)
      ensures r.Pass? ==>
                && LoadSrrPortfolios(w, items[..k + 1], key, same) == Success(qs)
                && Represents(all, qs, AllAgree(qs), docs)
      ensures r.Fail? ==> LoadSrrPortfolios(w, items, key, same) == Failure(r.error)
    {
      ReadMore(BackedUp(w, key, same), items, k, ps);
      var p;
      ghost var value;
      r, p, value := RestoreNew(w, items[k], key, same);
      all, qs, docs := list + [p], ps + [value], held + p.Held();
      if r.Pass? {
        AppendAgreeing(list, ps, held, p, value);
      } else {
        ReadStopsAt(BackedUp(w, key, same), items, k + 1);
      }
    }

    static method RestoreAll(w: World, items: seq<Tree>, key: ByteString, same: bool)
      returns (r: Outcome<SecwException>, list: seq<PortfolioObject>, ghost ps: seq<Portfolio>,
               ghost held: set<Document>)
      ensures r.Pass? ==>
                LoadSrrPortfolios(w, items, key, same) == Success(ps) && Represents(list, ps, AllAgree(ps), held)
      ensures r.Fail? ==> LoadSrrPortfolios(w, items, key, same) == Failure(r.error)
    {
      r, list, ps, held := Pass, [], [], {};
      for k := 0 to |items|
        invariant LoadSrrPortfolios(w, items[..k], key, same) == Success(ps)
        invariant Represents(list, ps, AllAgree(ps), held)
      {
        r, list, ps, held := RestoreNext(w, items, key, same, k, list, ps, held);
        if r.Fail? { return; }
      }
      assert items[..|items|] == items;
      r := Pass;
    }

    /** The checks of a restore and the list it reads; nothing of the wallet is touched yet. */
    method ReadBackupList(si: Tree, passphrase: ByteString, version: string)
      returns (r: Outcome<SecwException>, list: seq<PortfolioObject>, ghost ps: seq<Portfolio>,
               ghost docs: set<Document>)
      ensures match ReadBackup(world, si, passphrase, version)
              case Success(loaded) => r == Pass && ps == loaded && Represents(list, ps, AllAgree(ps), docs)
              case Failure(e) => r == Fail(e)
    {
      if version != "1.0" { return Fail(RuntimeError("Version " + version + " is not supported")), [], [], {}; }
      if |passphrase| < MIN_PASSPHRASE { return Fail(RuntimeError("Bad passphrase")), [], [], {}; }
      var received := DecryptMember(world, si, "check_passphrase", passphrase);
      if received.Failure? { return Fail(received.error), [], [], {}; }
      if received.value != passphrase { return Fail(RuntimeError("Bad passphrase")), [], [], {}; }
      var platform := DecryptMember(world, si, "check_platform", passphrase);
      if platform.Failure? { return Fail(platform.error), [], [], {}; }
      var items := FindMember(si, "portfolios");
      if items.None? { return Fail(LIBRARY_ERROR), [], [], {}; }
      r, list, ps, docs := RestoreAll(world, Items(items.value), passphrase, platform.value == world.hardwareUuid);
    }

    /** The list takes the place of the portfolios, is saved and loaded again. */
    method Replace(list: seq<PortfolioObject>, ghost ps: seq<Portfolio>, ghost docs: set<Document>)
      returns (r: Outcome<SecwException>)
      requires Represents(list, ps, AllAgree(ps), docs)
      modifies this
      ensures r.Pass? ==> Valid() && Wallets.Reload(world, Some(SaveText(world, ps))) == Success(Value())
                          && database == Some(SaveText(world, ps))
                          && sharing == AllAgree(LoadDatabase(world, database).value)
      ensures r.Fail? ==> Wallets.Reload(world, Some(SaveText(world, ps))) == Failure(r.error)
      ensures LoadConfigurations(world.configurationFile).Failure? ==>
                Valid() && Value() == Unconfigured(world, Some(SaveText(world, ps)))
    {
      Install(list, ps, AllAgree(ps), docs);
      Save();
      r := Reload();
    }

    /** Nothing changes until the whole backup is read. */
    method RestoreSrrData(si: Tree, passphrase: ByteString, version: string) returns (r: Outcome<SecwException>)
      modifies this
      ensures r.Pass? ==> Valid() && Restore(world, si, passphrase, version) == Success(Value())
                          && sharing == AllAgree(LoadDatabase(world, database).value)
      ensures r.Fail? ==> Restore(world, si, passphrase, version) == Failure(r.error)
      ensures match ReadBackup(world, si, passphrase, version)
              case Failure(_) => unchanged(this)
              case Success(ps) => LoadConfigurations(world.configurationFile).Failure? ==>
                                    Valid() && Value() == Unconfigured(world, Some(SaveText(world, ps)))
    {
      ghost var ps, docs;
      var list;
      r, list, ps, docs := ReadBackupList(si, passphrase, version);
      if r.Pass? {
        r := Replace(list, ps, docs);
      }
    }
  }
}
