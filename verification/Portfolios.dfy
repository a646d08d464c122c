/** A portfolio as a value: the two indexes, and what each operation makes of them
    (`secw_portfolio`). */
module Portfolios {
  import opened Documents
  import opened Encryption
  import opened Environment
  import opened Errors
  import opened Ordering
  import opened Serialization
  import opened Wrappers

  const PORTFOLIO_VERSION := 1

  datatype Portfolio = Portfolio(name: string, byId: map<string, Doc>, byName: map<string, Doc>)

  function EmptyPortfolio(name: string): Portfolio {
    Portfolio(name, map[], map[])
  }

  // ---------------------------------------------------------------- single operations

  function Put(p: Portfolio, id: string, d: Doc): Portfolio {
    p.(byId := p.byId[id := d], byName := p.byName[d.name := d])
  }

  function Add(p: Portfolio, d: Doc, newId: string): Reading<Portfolio> {
    if d.name in p.byName then Failure(NameAlreadyExistsError(d.name))
    else Success(Put(p, newId, d.(id := newId)))
  }

  function Remove(p: Portfolio, id: string): Reading<Portfolio> {
    if id !in p.byId then Failure(DocumentDoNotExistError(id))
    else Success(p.(byId := p.byId - {id}, byName := p.byName - {p.byId[id].name}))
  }

  function Update(p: Portfolio, d: Doc): Reading<Portfolio> {
    if d.id !in p.byId then Failure(DocumentDoNotExistError(d.id))
    else
      var oldName := p.byId[d.id].name;
      if d.name == oldName then Success(Put(p, d.id, d))
      else if d.name in p.byName then Failure(NameAlreadyExistsError(d.name))
      else Success(Put(p.(byName := p.byName - {oldName}), d.id, d))
  }

  function GetDocument(p: Portfolio, id: string): Reading<Doc> {
    if id in p.byId then Success(p.byId[id]) else Failure(DocumentDoNotExistError(id))
  }

  function GetDocumentByName(p: Portfolio, name: string): Reading<Doc> {
    if name in p.byName then Success(p.byName[name]) else Failure(NameDoesNotExistError(name))
  }

  function ListDocuments(p: Portfolio): (docs: seq<Doc>)
    ensures |docs| == |p.byId|
    ensures forall d :: d in docs <==> exists id :: id in p.byId && p.byId[id] == d
  {
    var ids := Ascending(p.byId.Keys);
    var docs := seq(|ids|, i requires 0 <= i < |ids| => p.byId[ids[i]]);
    assert forall i | 0 <= i < |docs| :: docs[i] == p.byId[ids[i]];
    docs
  }

  // ---------------------------------------------------------------- saving and loading

  function WriteList(docs: seq<Doc>): seq<Tree> {
    seq(|docs|, i requires 0 <= i < |docs| => WithSecret(docs[i]))
  }

  function PortfolioTree(name: string, documents: Tree): Tree {
    Object(map["version" := Number(PORTFOLIO_VERSION), "name" := Text(name), "documents" := documents])
  }

  function SerializePortfolio(p: Portfolio): Tree {
    PortfolioTree(p.name, Array(WriteList(ListDocuments(p))))
  }

  /** The documents of a list that parse and are valid, in order; the others are dropped. */
  function Accepted(w: World, items: seq<Tree>): seq<Doc> {
    if items == [] then []
    else Accepted(w, items[..|items| - 1]) + AcceptedOne(w, Load(items[|items| - 1], None))
  }

  function AcceptedOne(w: World, r: Reading<Doc>): seq<Doc> {
    if r.Success? && IsValid(w, r.value) then [r.value] else []
  }

  /** Both indexes are filled in list order: the last document of an id or of a name stays. */
  function IndexById(docs: seq<Doc>): map<string, Doc> {
    if docs == [] then map[]
    else var d := docs[|docs| - 1]; IndexById(docs[..|docs| - 1])[d.id := d]
  }

  function IndexByName(docs: seq<Doc>): map<string, Doc> {
    if docs == [] then map[]
    else var d := docs[|docs| - 1]; IndexByName(docs[..|docs| - 1])[d.name := d]
  }

  function Indexed(name: string, docs: seq<Doc>): Portfolio {
    Portfolio(name, IndexById(docs), IndexByName(docs))
  }

  /** What both loaders check before they look at a document: the version, then name and list. */
  function ReadPortfolioHeader(si: Tree): Reading<(string, seq<Tree>)> {
    var version :- OrThrow(FindByte(si, "version"), LoadError("Bad format of the serialization data"));
    :- Require(version == PORTFOLIO_VERSION, LoadError("Version not supported"));
    var name :- OrThrow(FindText(si, "name"), LoadError("Bad format of the serialization data in portfolio"));
    var documents :- OrThrow(FindMember(si, "documents"),
                             LoadError("Bad format of the serialization data in portfolio"));
    Success((name, Items(documents)))
  }

  function LoadPortfolio(w: World, si: Tree): Reading<Portfolio> {
    var (name, items) :- ReadPortfolioHeader(si);
    Success(Indexed(name, Accepted(w, items)))
  }

  // ---------------------------------------------------------------- backup and restore

  /** `items` are the documents of `docs` written for a backup, each under some vector. */
  ghost predicate IsSrrList(w: World, docs: seq<Doc>, key: ByteString, items: seq<Tree>) {
    |items| == |docs| && forall i | 0 <= i < |docs| :: IsSrrOf(w, docs[i], key, items[i])
  }

  ghost predicate IsSrrOf(w: World, d: Doc, key: ByteString, si: Tree) {
    exists iv: InitVector :: si == WriteSrr(w, d, key, iv)
  }

  ghost predicate IsSrrPortfolio(w: World, p: Portfolio, key: ByteString, si: Tree) {
    exists items :: IsSrrList(w, ListDocuments(p), key, items) && si == PortfolioTree(p.name, Array(items))
  }

  /** A certificate that is internal to a platform is not restored on another one. */
  predicate Restorable(d: Doc, sameInstance: bool) {
    sameInstance || TypeOf(d.content) != INTERNAL_CERTIFICATE_TYPE
  }

  function RestoredOne(w: World, r: Reading<Doc>, sameInstance: bool): seq<Doc> {
    if r.Success? && Restorable(r.value, sameInstance) && IsValid(w, r.value) then [r.value] else []
  }

  function Restored(w: World, items: seq<Tree>, key: ByteString, sameInstance: bool): seq<Doc> {
    if items == [] then []
    else Restored(w, items[..|items| - 1], key, sameInstance)
         + RestoredOne(w, CreateFromSrr(w, items[|items| - 1], key), sameInstance)
  }

  function LoadPortfolioFromSrr(w: World, si: Tree, key: ByteString, sameInstance: bool): Reading<Portfolio> {
    var (name, items) :- ReadPortfolioHeader(si);
    Success(Indexed(name, Restored(w, items, key, sameInstance)))
  }
}
