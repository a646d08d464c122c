/** The wallet as a value: configuration, portfolios, and the text of the database file
    (`secw_security_wallet`). */
module Wallets {
  import opened Configuration
  import opened Documents
  import opened Encryption
  import opened Environment
  import opened Errors
  import opened Ordering
  import opened Portfolios
  import opened Serialization
  import opened Wrappers

  const SECW_VERSION := 1
  const MIN_PASSPHRASE := 8

  type Configurations = map<string, PortfolioConfiguration>

  datatype Wallet = Wallet(configurations: Configurations, portfolios: seq<Portfolio>, database: Option<string>)

  function RuntimeError(what: string): SecwException {
    SecwException(Generic, what, "")
  }

  // ---------------------------------------------------------------- lookup

  /** The position of the first portfolio of that name, or the length of the list. */
  function FirstNamed(ps: seq<Portfolio>, name: string): (k: nat)
    ensures k <= |ps|
    ensures k < |ps| ==> ps[k].name == name
    ensures forall i | 0 <= i < k :: ps[i].name != name
  {
    if ps == [] then 0
    else if ps[0].name == name then 0
    else
      var rest := FirstNamed(ps[1..], name);
      assert forall i | 0 < i < rest + 1 :: ps[i] == ps[1..][i - 1];
      rest + 1
  }

  predicate HasPortfolio(ps: seq<Portfolio>, name: string) {
    FirstNamed(ps, name) < |ps|
  }

  function GetPortfolio(ps: seq<Portfolio>, name: string): (r: Reading<nat>)
    ensures r.Success? ==> r.value < |ps|
  {
    var k := FirstNamed(ps, name);
    if k < |ps| then Success(k) else Failure(UnknownPortfolioError(name))
  }

  function GetConfiguration(configurations: Configurations, name: string): Reading<PortfolioConfiguration> {
    if name in configurations then Success(configurations[name]) else Failure(UnknownPortfolioError(name))
  }

  // ---------------------------------------------------------------- saving and loading

  function WritePortfolios(ps: seq<Portfolio>): seq<Tree> {
    seq(|ps|, i requires 0 <= i < |ps| => SerializePortfolio(ps[i]))
  }

  function DatabaseTree(items: seq<Tree>): Tree {
    Object(map["version" := Number(SECW_VERSION), "portfolios" := Array(items)])
  }

  function SaveText(w: World, ps: seq<Portfolio>): string {
    Serialize(w, DatabaseTree(WritePortfolios(ps)))
  }

  /** The configurations by name; a name that comes twice is an error. */
  function CollectConfigurations(file: seq<PortfolioConfiguration>): Reading<Configurations> {
    if file == [] then Success(map[])
    else
      var config := file[|file| - 1];
      var before :- CollectConfigurations(file[..|file| - 1]);
      if config.portfolioName in before then
        Failure(RuntimeError("Portfolio " + config.portfolioName + " already exist in the configuration."))
      else Success(before[config.portfolioName := config])
  }

  /** What is collected before the first name that comes twice. */
  function ConfigurationsLeft(file: seq<PortfolioConfiguration>): Configurations {
    if file == [] then map[]
    else
      match CollectConfigurations(file)
      case Success(configurations) => configurations
      case Failure(_) => ConfigurationsLeft(file[..|file| - 1])
  }

  function LoadConfigurations(file: seq<PortfolioConfiguration>): Reading<Configurations> {
    var configurations :- CollectConfigurations(file);
    if configurations == map[] then Failure(RuntimeError("No Portfolio in the configuration."))
    else Success(configurations)
  }

  /** A list of portfolios; the first that cannot be read ends the reading. */
  function ReadEach(read: Tree -> Reading<Portfolio>, items: seq<Tree>): Reading<seq<Portfolio>> {
    if items == [] then Success([])
    else
      var before :- ReadEach(read, items[..|items| - 1]);
      var last :- read(items[|items| - 1]);
      Success(before + [last])
  }

  function Saved(w: World): Tree -> Reading<Portfolio> {
    si => LoadPortfolio(w, si)
  }

  function LoadPortfolios(w: World, items: seq<Tree>): Reading<seq<Portfolio>> {
    ReadEach(Saved(w), items)
  }

  /** A file of another version is read as holding no portfolio. */
  function LoadDatabase(w: World, database: Option<string>): Reading<seq<Portfolio>> {
    match database
    case None => Success([])
    case Some(text) =>
      match w.fromText(text)
      case BadJson(_) => Failure(LIBRARY_ERROR)
      case Json(root) =>
        var version :- OrThrow(FindByte(root, "version"), LIBRARY_ERROR);
        if version != 1 then Success([])
        else
          var list :- OrThrow(FindMember(root, "portfolios"), LIBRARY_ERROR);
          LoadPortfolios(w, Items(list))
  }

  function AddIfMissing(ps: seq<Portfolio>, name: string): seq<Portfolio> {
    if HasPortfolio(ps, name) then ps else ps + [EmptyPortfolio(name)]
  }

  /** Every configured portfolio that is not in the list is appended, empty. */
  function AddMissing(ps: seq<Portfolio>, names: seq<string>): seq<Portfolio> {
    if names == [] then ps
    else AddIfMissing(AddMissing(ps, names[..|names| - 1]), names[|names| - 1])
  }

  function Reload(w: World, database: Option<string>): Reading<Wallet> {
    var configurations :- LoadConfigurations(w.configurationFile);
    var loaded :- LoadDatabase(w, database);
    Success(Wallet(configurations, AddMissing(loaded, Ascending(configurations.Keys)), database))
  }

  /** The constructor: reload, then save. */
  function Startup(w: World, database: Option<string>): Reading<Wallet> {
    var loaded :- Reload(w, database);
    Success(loaded.(database := Some(SaveText(w, loaded.portfolios))))
  }

  /** The wallet when the configuration file cannot be read again. */
  function Unconfigured(w: World, database: Option<string>): Wallet {
    Wallet(ConfigurationsLeft(w.configurationFile), [], database)
  }

  // ---------------------------------------------------------------- backup and restore

  /** `si` is a backup of `ps` made on the platform `savedOn` under `passphrase`, whatever vectors were
      drawn. */
  ghost predicate IsBackup(w: World, savedOn: ByteString, ps: seq<Portfolio>, passphrase: ByteString, si: Tree) {
    && |passphrase| >= MIN_PASSPHRASE
    && exists check: InitVector, platform: InitVector, items: seq<Tree> ::
         IsBackupWith(w, savedOn, ps, passphrase, si, check, platform, items)
  }

  ghost predicate IsBackupWith(w: World, savedOn: ByteString, ps: seq<Portfolio>, passphrase: ByteString, si: Tree,
                               check: InitVector, platform: InitVector, items: seq<Tree>) {
    && si == BackupTree(Encrypt(w.cipher, passphrase, passphrase, check),
                        Encrypt(w.cipher, savedOn, passphrase, platform), items)
    && |items| == |ps|
    && forall i | 0 <= i < |ps| :: IsSrrPortfolio(w, ps[i], passphrase, items[i])
  }

  function BackupTree(checkPassphrase: string, checkPlatform: string, items: seq<Tree>): Tree {
    Object(map["check_passphrase" := Text(checkPassphrase), "check_platform" := Text(checkPlatform),
               "portfolios" := Array(items)])
  }

  function BackedUp(w: World, key: ByteString, same: bool): Tree -> Reading<Portfolio> {
    si => LoadPortfolioFromSrr(w, si, key, same)
  }

  function LoadSrrPortfolios(w: World, items: seq<Tree>, key: ByteString, same: bool): Reading<seq<Portfolio>> {
    ReadEach(BackedUp(w, key, same), items)
  }

  function DecryptMember(w: World, si: Tree, name: string, passphrase: ByteString): Reading<ByteString> {
    var received :- OrThrow(FindText(si, name), LIBRARY_ERROR);
    match Decrypt(w.cipher, received, passphrase)
    case Success(plain) => Success(plain)
    case Failure(what) => Failure(RuntimeError(what))
  }

  /** The portfolios of a backup, after its checks. */
  function ReadBackup(w: World, si: Tree, passphrase: ByteString, version: string): Reading<seq<Portfolio>> {
    if version != "1.0" then Failure(RuntimeError("Version " + version + " is not supported"))
    else
      :- Require(|passphrase| >= MIN_PASSPHRASE, RuntimeError("Bad passphrase"));
      var received :- DecryptMember(w, si, "check_passphrase", passphrase);
      :- Require(received == passphrase, RuntimeError("Bad passphrase"));
      var platform :- DecryptMember(w, si, "check_platform", passphrase);
      var list :- OrThrow(FindMember(si, "portfolios"), LIBRARY_ERROR);
      LoadSrrPortfolios(w, Items(list), passphrase, platform == w.hardwareUuid)
  }

  /** The list read replaces the portfolios, is saved, and is loaded again. */
  function Restore(w: World, si: Tree, passphrase: ByteString, version: string): Reading<Wallet> {
    var ps :- ReadBackup(w, si, passphrase, version);
    Reload(w, Some(SaveText(w, ps)))
  }
}
