/** What is read from a file or a payload, item by item, and what is refused. */
module Loading {
  import opened Configuration
  import opened Documents
  import opened Encryption
  import opened Environment
  import opened Errors
  import opened Ordering
  import opened Portfolios
  import opened Serialization
  import opened WalletLaws
  import opened Wallets
  import opened Wrappers

  // ---------------------------------------------------------------- a list of documents

  /** The documents the items of a list stand for; those that stand for none are left out. */
  function Kept(items: seq<Tree>, accept: Tree -> Option<Doc>): seq<Doc> {
    if items == [] then []
    else
      var last := accept(items[|items| - 1]);
      Kept(items[..|items| - 1], accept) + if last.Some? then [last.value] else []
  }

  /** A document of a file: it must parse and be valid. */
  function FileDocument(w: World): Tree -> Option<Doc> {
    si => if Load(si, None).Success? && IsValid(w, Load(si, None).value) then Some(Load(si, None).value) else None
  }

  /** A document of a backup: moreover, on another platform it must not be an internal certificate. */
  function BackupDocument(w: World, key: ByteString, same: bool): Tree -> Option<Doc> {
    si =>
      var r := CreateFromSrr(w, si, key);
      if r.Success? && (same || !r.value.content.InternalCertificate?) && IsValid(w, r.value) then Some(r.value)
      else None
  }

  lemma {:induction false} AcceptedIsKept(w: World, items: seq<Tree>)
    ensures Accepted(w, items) == Kept(items, FileDocument(w))
    decreases |items|
  {
    if items == [] {
    } else {
      AcceptedIsKept(w, items[..|items| - 1]);
    }
  }

  lemma {:induction false} RestoredIsKept(w: World, items: seq<Tree>, key: ByteString, same: bool)
    ensures Restored(w, items, key, same) == Kept(items, BackupDocument(w, key, same))
    decreases |items|
  {
    if items == [] {
    } else {
      RestoredIsKept(w, items[..|items| - 1], key, same);
      InternalType(CreateFromSrr(w, items[|items| - 1], key));
    }
  }

  lemma InternalType(r: Reading<Doc>)
    ensures r.Success? ==>
              (TypeOf(r.value.content) == INTERNAL_CERTIFICATE_TYPE <==> r.value.content.InternalCertificate?)
  {
  }

  /** The item at `j` is the last of the list that stands for a document of that id, or of that name. */
  ghost predicate LastWithId(items: seq<Tree>, accept: Tree -> Option<Doc>, j: nat, id: string) {
    && j < |items| && accept(items[j]).Some? && accept(items[j]).value.id == id
    && forall k | j < k < |items| && accept(items[k]).Some? :: accept(items[k]).value.id != id
  }

  ghost predicate LastWithName(items: seq<Tree>, accept: Tree -> Option<Doc>, j: nat, name: string) {
    && j < |items| && accept(items[j]).Some? && accept(items[j]).value.name == name
    && forall k | j < k < |items| && accept(items[k]).Some? :: accept(items[k]).value.name != name
  }

  /** An index holds, for each key, the last document of the list with that key, and nothing else. */
  lemma {:induction false} KeptById(items: seq<Tree>, accept: Tree -> Option<Doc>, id: string, j: nat)
    requires LastWithId(items, accept, j, id)
    ensures id in IndexById(Kept(items, accept)) && IndexById(Kept(items, accept))[id] == accept(items[j]).value
    decreases |items|
  {
    var n := |items| - 1;
    if j < n {
      assert forall k | 0 <= k < n :: items[..n][k] == items[k];
      KeptById(items[..n], accept, id, j);
    }
    KeptLast(items, accept);
  }

  lemma {:induction false} KeptByName(items: seq<Tree>, accept: Tree -> Option<Doc>, name: string, j: nat)
    requires LastWithName(items, accept, j, name)
    ensures name in IndexByName(Kept(items, accept)) && IndexByName(Kept(items, accept))[name] == accept(items[j]).value
    decreases |items|
  {
    var n := |items| - 1;
    if j < n {
      assert forall k | 0 <= k < n :: items[..n][k] == items[k];
      KeptByName(items[..n], accept, name, j);
    }
    KeptLast(items, accept);
  }

  lemma KeptLast(items: seq<Tree>, accept: Tree -> Option<Doc>)
    requires items != []
    ensures var before, last := Kept(items[..|items| - 1], accept), accept(items[|items| - 1]);
            && IndexById(Kept(items, accept))
               == (if last.Some? then IndexById(before)[last.value.id := last.value] else IndexById(before))
            && IndexByName(Kept(items, accept))
               == (if last.Some? then IndexByName(before)[last.value.name := last.value] else IndexByName(before))
  {
    var before, last := Kept(items[..|items| - 1], accept), accept(items[|items| - 1]);
    if last.Some? {
      assert (before + [last.value])[..|before|] == before;
    } else {
      assert before + [] == before;
    }
  }

  lemma {:induction false} IdHasItem(items: seq<Tree>, accept: Tree -> Option<Doc>, id: string) returns (j: nat)
    requires id in IndexById(Kept(items, accept))
    ensures LastWithId(items, accept, j, id)
    decreases |items|
  {
    var n := |items| - 1;
    KeptLast(items, accept);
    if accept(items[n]).Some? && accept(items[n]).value.id == id {
      j := n;
    } else {
      j := IdHasItem(items[..n], accept, id);
      assert forall k | 0 <= k < n :: items[..n][k] == items[k];
    }
  }

  lemma {:induction false} NameHasItem(items: seq<Tree>, accept: Tree -> Option<Doc>, name: string) returns (j: nat)
    requires name in IndexByName(Kept(items, accept))
    ensures LastWithName(items, accept, j, name)
    decreases |items|
  {
    var n := |items| - 1;
    KeptLast(items, accept);
    if accept(items[n]).Some? && accept(items[n]).value.name == name {
      j := n;
    } else {
      j := NameHasItem(items[..n], accept, name);
      assert forall k | 0 <= k < n :: items[..n][k] == items[k];
    }
  }

  // ---------------------------------------------------------------- a portfolio

  /** A portfolio is indexed from the items of its list. */
  ghost predicate IndexedFrom(p: Portfolio, items: seq<Tree>, accept: Tree -> Option<Doc>) {
    && (forall id :: id in p.byId <==> exists j: nat :: LastWithId(items, accept, j, id))
    && (forall id, j: nat | LastWithId(items, accept, j, id) :: id in p.byId && p.byId[id] == accept(items[j]).value)
    && (forall n :: n in p.byName <==> exists j: nat :: LastWithName(items, accept, j, n))
    && (forall n, j: nat | LastWithName(items, accept, j, n) :: n in p.byName && p.byName[n] == accept(items[j]).value)
  }

  lemma KeptIndexed(name: string, items: seq<Tree>, accept: Tree -> Option<Doc>)
    ensures IndexedFrom(Indexed(name, Kept(items, accept)), items, accept)
  {
    var p := Indexed(name, Kept(items, accept));
    forall id ensures id in p.byId <==> exists j: nat :: LastWithId(items, accept, j, id) {
      if id in p.byId { var j := IdHasItem(items, accept, id); }
      if j: nat :| LastWithId(items, accept, j, id) { KeptById(items, accept, id, j); }
    }
    forall id, j: nat | LastWithId(items, accept, j, id) ensures id in p.byId && p.byId[id] == accept(items[j]).value {
      KeptById(items, accept, id, j);
    }
    forall n ensures n in p.byName <==> exists j: nat :: LastWithName(items, accept, j, n) {
      if n in p.byName { var j := NameHasItem(items, accept, n); }
      if j: nat :| LastWithName(items, accept, j, n) { KeptByName(items, accept, n, j); }
    }
    forall n, j: nat | LastWithName(items, accept, j, n)
      ensures n in p.byName && p.byName[n] == accept(items[j]).value
    {
      KeptByName(items, accept, n, j);
    }
  }

  /** What a portfolio must have to be read at all. */
  predicate HasHeader(si: Tree) {
    FindByte(si, "version") == Some(1) && FindText(si, "name").Some? && FindMember(si, "documents").Some?
  }

  lemma HeaderRead(si: Tree)
    ensures ReadPortfolioHeader(si).Success? <==> HasHeader(si)
    ensures HasHeader(si) ==>
              ReadPortfolioHeader(si)
              == Success((FindText(si, "name").value, Items(FindMember(si, "documents").value)))
    ensures !HasHeader(si) ==> ReadPortfolioHeader(si).error.code == ImpossibleToLoadPortfolio
  {
  }

  /** A portfolio of a file is read if it has its header; each of its indexes then holds the last valid document
      of each key, whatever else is in the list. */
  lemma LoadPortfolioIs(w: World, si: Tree)
    ensures LoadPortfolio(w, si).Success? <==> HasHeader(si)
    ensures LoadPortfolio(w, si).Failure? ==> LoadPortfolio(w, si).error.code == ImpossibleToLoadPortfolio
    ensures HasHeader(si) ==>
              var p := LoadPortfolio(w, si).value;
              p.name == FindText(si, "name").value
              && IndexedFrom(p, Items(FindMember(si, "documents").value), FileDocument(w))
  {
    HeaderRead(si);
    if HasHeader(si) {
      var items := Items(FindMember(si, "documents").value);
      AcceptedIsKept(w, items);
      KeptIndexed(FindText(si, "name").value, items, FileDocument(w));
    }
  }

  /** The same of a backup, where on another platform internal certificates are not documents. */
  lemma LoadPortfolioFromSrrIs(w: World, si: Tree, key: ByteString, same: bool)
    ensures LoadPortfolioFromSrr(w, si, key, same).Success? <==> HasHeader(si)
    ensures LoadPortfolioFromSrr(w, si, key, same).Failure? ==>
              LoadPortfolioFromSrr(w, si, key, same).error.code == ImpossibleToLoadPortfolio
    ensures HasHeader(si) ==>
              var p := LoadPortfolioFromSrr(w, si, key, same).value;
              p.name == FindText(si, "name").value
              && IndexedFrom(p, Items(FindMember(si, "documents").value), BackupDocument(w, key, same))
  {
    HeaderRead(si);
    if HasHeader(si) {
      var items := Items(FindMember(si, "documents").value);
      RestoredIsKept(w, items, key, same);
      KeptIndexed(FindText(si, "name").value, items, BackupDocument(w, key, same));
    }
  }

  // ---------------------------------------------------------------- a list of portfolios

  /** A list is read exactly if each of its items is, and gives what they give, in order. */
  lemma {:induction false} ReadEachIs(read: Tree -> Reading<Portfolio>, items: seq<Tree>)
    ensures ReadEach(read, items).Success? <==> forall i | 0 <= i < |items| :: read(items[i]).Success?
    ensures ReadEach(read, items).Success? ==>
              var ps := ReadEach(read, items).value;
              |ps| == |items| && forall i | 0 <= i < |items| :: read(items[i]) == Success(ps[i])
    decreases |items|
  {
    if items == [] {
    } else {
      var n := |items| - 1;
      ReadEachIs(read, items[..n]);
      assert forall i | 0 <= i < n :: items[..n][i] == items[i];
    }
  }

  /** What a database file must hold: it may be missing; a version other than 1 is read as no portfolio. */
  predicate FileReadable(w: World, database: Option<string>) {
    match database
    case None => true
    case Some(text) =>
      match w.fromText(text)
      case BadJson(_) => false
      case Json(root) =>
        match FindByte(root, "version")
        case None => false
        case Some(version) => version == 1 ==> ListReadable(FindMember(root, "portfolios"))
  }

  predicate ListReadable(list: Option<Tree>) {
    list.Some? && forall i | 0 <= i < |Items(list.value)| :: HasHeader(Items(list.value)[i])
  }

  /** The portfolios written in a database file. */
  function FilePortfolios(w: World, database: Option<string>): seq<Tree> {
    match database
    case None => []
    case Some(text) =>
      match w.fromText(text)
      case BadJson(_) => []
      case Json(root) =>
        if FindByte(root, "version") == Some(1) then Items(FindMember(root, "portfolios").GetOr(Void)) else []
  }

  lemma LoadDatabaseIs(w: World, database: Option<string>)
    ensures LoadDatabase(w, database).Success? <==> FileReadable(w, database)
    ensures FileReadable(w, database) ==>
              var ps, items := LoadDatabase(w, database).value, FilePortfolios(w, database);
              |ps| == |items| && forall i | 0 <= i < |items| :: LoadPortfolio(w, items[i]) == Success(ps[i])
  {
    if database.Some? && w.fromText(database.value).Json? {
      var root := w.fromText(database.value).tree;
      if FindByte(root, "version") == Some(1) && FindMember(root, "portfolios").Some? {
        var items := Items(FindMember(root, "portfolios").value);
        ReadEachIs(Saved(w), items);
        forall i | 0 <= i < |items| ensures LoadPortfolio(w, items[i]).Success? <==> HasHeader(items[i]) {
          LoadPortfolioIs(w, items[i]);
        }
      }
    }
  }

  // ---------------------------------------------------------------- the configuration

  /** No portfolio is configured twice. */
  predicate NamedOnce(file: seq<PortfolioConfiguration>) {
    forall i, j | 0 <= i < j < |file| :: file[i].portfolioName != file[j].portfolioName
  }

  /** The entries of the file by name. */
  ghost predicate ByName(c: Configurations, file: seq<PortfolioConfiguration>) {
    && (forall i | 0 <= i < |file| :: file[i].portfolioName in c && c[file[i].portfolioName] == file[i])
    && (forall n | n in c :: exists i :: 0 <= i < |file| && file[i].portfolioName == n)
  }

  lemma ByNameGrows(c: Configurations, file: seq<PortfolioConfiguration>, last: PortfolioConfiguration)
    requires ByName(c, file)
    ensures last.portfolioName !in c <==> forall i | 0 <= i < |file| :: file[i].portfolioName != last.portfolioName
    ensures last.portfolioName !in c ==> ByName(c[last.portfolioName := last], file + [last])
  {
    var all := file + [last];
    if last.portfolioName !in c {
      var more := c[last.portfolioName := last];
      forall n | n in more ensures exists i :: 0 <= i < |all| && all[i].portfolioName == n {
        if n in c {
          var i :| 0 <= i < |file| && file[i].portfolioName == n;
          assert all[i] == file[i];
        } else {
          assert all[|file|].portfolioName == n;
        }
      }
    }
  }

  lemma {:induction false} CollectIs(file: seq<PortfolioConfiguration>)
    ensures CollectConfigurations(file).Success? <==> NamedOnce(file)
    ensures NamedOnce(file) ==> ByName(CollectConfigurations(file).value, file)
    decreases |file|
  {
    if file == [] {
    } else {
      var n := |file| - 1;
      CollectIs(file[..n]);
      assert file == file[..n] + [file[n]];
      if NamedOnce(file[..n]) {
        ByNameGrows(CollectConfigurations(file[..n]).value, file[..n], file[n]);
      }
    }
  }

  /** The configuration is accepted exactly if there is one and no portfolio comes twice, and is then its entries
      by name. */
  lemma LoadConfigurationsIs(file: seq<PortfolioConfiguration>)
    ensures LoadConfigurations(file).Success? <==> file != [] && NamedOnce(file)
    ensures LoadConfigurations(file).Success? ==> ByName(LoadConfigurations(file).value, file)
  {
    CollectIs(file);
    if file != [] && NamedOnce(file) {
      assert file[0].portfolioName in CollectConfigurations(file).value;
    }
  }

  /** A server starts exactly from files that can be read: it holds the portfolios of the file, then an empty one
      for each configured name that is missing, and saves them. */
  lemma StartupIs(w: World, database: Option<string>)
    ensures Startup(w, database).Success? <==>
            w.configurationFile != [] && NamedOnce(w.configurationFile) && FileReadable(w, database)
    ensures Startup(w, database).Success? ==>
              var v := Startup(w, database).value;
              && ByName(v.configurations, w.configurationFile)
              && OnlyAdds(LoadDatabase(w, database).value, v.portfolios, Ascending(v.configurations.Keys))
              && (forall n | n in v.configurations :: HasPortfolio(v.portfolios, n))
              && v.database == Some(SaveText(w, v.portfolios))
  {
    LoadConfigurationsIs(w.configurationFile);
    LoadDatabaseIs(w, database);
    if Startup(w, database).Success? {
      MissingAdded(LoadDatabase(w, database).value, Ascending(Startup(w, database).value.configurations.Keys));
    }
  }

  // ---------------------------------------------------------------- a backup

  /** The member of a payload is a text that decrypts to something under the passphrase. */
  ghost predicate Opens(w: World, si: Tree, name: string, passphrase: ByteString) {
    FindText(si, name).Some? && Decrypt(w.cipher, FindText(si, name).value, passphrase).Success?
  }

  /** A payload is read exactly with version 1.0 and a passphrase of at least eight characters that its check
      decrypts to, if its platform decrypts, and if each of its portfolios has its header. */
  lemma ReadBackupIs(w: World, si: Tree, passphrase: ByteString, version: string)
    ensures ReadBackup(w, si, passphrase, version).Success? <==>
            && version == "1.0" && |passphrase| >= 8
            && Opens(w, si, "check_passphrase", passphrase)
            && Decrypt(w.cipher, FindText(si, "check_passphrase").value, passphrase).value == passphrase
            && Opens(w, si, "check_platform", passphrase)
            && ListReadable(FindMember(si, "portfolios"))
    ensures ReadBackup(w, si, passphrase, version).Success? ==>
              var ps, items := ReadBackup(w, si, passphrase, version).value, Items(FindMember(si, "portfolios").value);
              var savedOn := Decrypt(w.cipher, FindText(si, "check_platform").value, passphrase).value;
              && |ps| == |items|
              && forall i | 0 <= i < |items| ::
                   LoadPortfolioFromSrr(w, items[i], passphrase, savedOn == w.hardwareUuid) == Success(ps[i])
  {
    var platform := DecryptMember(w, si, "check_platform", passphrase);
    if platform.Success? && FindMember(si, "portfolios").Some? {
      var items, same := Items(FindMember(si, "portfolios").value), platform.value == w.hardwareUuid;
      ReadEachIs(BackedUp(w, passphrase, same), items);
      forall i | 0 <= i < |items|
        ensures LoadPortfolioFromSrr(w, items[i], passphrase, same).Success? <==> HasHeader(items[i])
      {
        LoadPortfolioFromSrrIs(w, items[i], passphrase, same);
      }
    }
  }
}
