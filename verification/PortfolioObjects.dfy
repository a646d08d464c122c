/** The portfolio object: two indexes over shared document objects. */
module PortfolioObjects {
  import opened DocumentObjects
  import opened Documents
  import opened Encryption
  import opened Environment
  import opened Errors
  import opened Ordering
  import opened PortfolioLaws
  import opened Portfolios
  import opened Serialization
  import opened Sources
  import opened Wrappers

  lemma SubsetSize(a: set<string>, b: set<string>)
    requires a <= b
    ensures |a| <= |b|
  {
    assert b == a + (b - a);
  }

  /** Each index key holds an object with that key, and both maps hold the same objects. */
  ghost predicate Shared(byId: map<string, Document>, byName: map<string, Document>)
    reads byId.Values, byName.Values
  {
    && (forall id | id in byId :: byId[id].id == id && byId[id].name in byName && byName[byId[id].name] == byId[id])
    && (forall n | n in byName :: byName[n].name == n && byName[n].id in byId && byId[byName[n].id] == byName[n])
  }

  ghost function ValuesOf(index: map<string, Document>): map<string, Doc>
    reads index.Values
  {
    map k | k in index :: index[k].Value()
  }

  lemma ValuesAfterPut(index: map<string, Document>, key: string, doc: Document)
    ensures ValuesOf(index[key := doc]) == ValuesOf(index)[key := doc.Value()]
  {
  }

  lemma ValuesAfterErase(index: map<string, Document>, key: string)
    ensures ValuesOf(index - {key}) == ValuesOf(index) - {key}
  {
  }

  lemma SharedAfterAdd(byId: map<string, Document>, byName: map<string, Document>, doc: Document)
    requires Shared(byId, byName) && doc.id !in byId && doc.name !in byName
    ensures Shared(byId[doc.id := doc], byName[doc.name := doc])
  {
  }

  /** `doc` takes the place of the object of its id; its name is its own or not in use. */
  lemma SharedAfterUpdate(byId: map<string, Document>, byName: map<string, Document>, doc: Document)
    requires Shared(byId, byName) && doc.id in byId
    requires doc.name == byId[doc.id].name || doc.name !in byName
    ensures Shared(byId[doc.id := doc], (byName - {byId[doc.id].name})[doc.name := doc])
  {
  }

  lemma LastAfterAppend(docs: seq<Doc>, d: Doc)
    ensures forall i | 0 <= i < |docs| && LastOfId(docs + [d], i) :: LastOfId(docs, i) && docs[i].id != d.id
    ensures forall i | 0 <= i < |docs| && LastOfName(docs + [d], i) :: LastOfName(docs, i) && docs[i].name != d.name
    ensures IndexById(docs + [d]) == IndexById(docs)[d.id := d]
    ensures IndexByName(docs + [d]) == IndexByName(docs)[d.name := d]
  {
    var all, n := docs + [d], |docs|;
    assert all[..n] == docs;
    forall i | 0 <= i < n && LastOfId(all, i) ensures LastOfId(docs, i) && docs[i].id != d.id {
      assert all[n].id != all[i].id;
      forall j | i < j < n ensures docs[j].id != docs[i].id { assert all[j] == docs[j]; }
    }
    forall i | 0 <= i < n && LastOfName(all, i) ensures LastOfName(docs, i) && docs[i].name != d.name {
      assert all[n].name != all[i].name;
      forall j | i < j < n ensures docs[j].name != docs[i].name { assert all[j] == docs[j]; }
    }
  }

  lemma SharedAfterErase(byId: map<string, Document>, byName: map<string, Document>, id: string)
    requires Shared(byId, byName) && id in byId
    ensures Shared(byId - {id}, byName - {byId[id].name})
  {
  }

  lemma SrrPortfolio(w: World, p: Portfolio, key: ByteString, items: seq<Tree>)
    requires IsSrrList(w, ListDocuments(p), key, items)
    ensures IsSrrPortfolio(w, p, key, PortfolioTree(p.name, Array(items)))
  {
  }

  class PortfolioObject {
    var name: string
    var documents: map<string, Document>
    var mapNameDocuments: map<string, Document>

    constructor (name: string)
      ensures Value() == EmptyPortfolio(name) && SharesObjects() && Held() == {}
    {
      this.name, documents, mapNameDocuments := name, map[], map[];
    }

    /** The stored document objects. */
    ghost function Held(): set<Document>
      reads this
    {
      documents.Values + mapNameDocuments.Values
    }

    ghost function Value(): Portfolio
      reads this, Held()
    {
      Portfolio(name, ValuesOf(documents), ValuesOf(mapNameDocuments))
    }

    ghost predicate SharesObjects()
      reads this, Held()
    {
      Shared(documents, mapNameDocuments)
    }

    lemma SharingAgrees()
      requires SharesObjects()
      ensures Agree(Value())
    {
    }

    // -------------------------------------------------------------- single operations

    /** An identifier that is not in use: one of the next `|documents| + 1` of the source. */
    method FreshId(source: IdSource) returns (id: string)
      requires source.Valid()
      modifies source
      ensures id !in documents
      ensures old(source.next) < source.next <= old(source.next) + |documents| + 1
    {
      var start := source.next;
      id := source.Draw();
      ghost var seen: set<string> := {};
      while id in documents
        invariant start < source.next && id == source.stream(source.next - 1)
        invariant seen <= documents.Keys && |seen| == source.next - 1 - start
        invariant forall x | x in seen :: exists i: nat :: i < source.next - 1 && x == source.stream(i)
        decreases |documents.Keys| - |seen|
      {
        assert id !in seen;
        seen := seen + {id};
        SubsetSize(seen, documents.Keys);
        id := source.Draw();
      }
      SubsetSize(seen, documents.Keys);
    }

    /** The object becomes the one of its id and of its name. */
    method Put(copy: Document)
      modifies this`documents, this`mapNameDocuments
      ensures documents == old(documents)[copy.id := copy]
              && mapNameDocuments == old(mapNameDocuments)[copy.name := copy]
      ensures Value() == Portfolios.Put(old(Value()), copy.id, copy.Value())
    {
      ValuesAfterPut(documents, copy.id, copy);
      ValuesAfterPut(mapNameDocuments, copy.name, copy);
      documents := documents[copy.id := copy];
      mapNameDocuments := mapNameDocuments[copy.name := copy];
    }

    /** `newId` is the identifier drawn, if the document is added. */
    method Add(doc: Document, source: IdSource) returns (r: Result<string, SecwException>, ghost newId: string)
      requires source.Valid()
      modifies this, source
      ensures match Portfolios.Add(old(Value()), old(doc.Value()), newId)
              case Success(p) => r == Success(newId) && newId !in old(documents) && Value() == p
              case Failure(e) => r == Failure(e) && unchanged(this)
      ensures old(SharesObjects()) ==> SharesObjects()
      ensures source.next <= old(source.next) + |old(documents)| + 1
    {
      if doc.name in mapNameDocuments {
        return Failure(NameAlreadyExistsError(doc.name)), "";
      }
      var id := AddFresh(doc, source);
      r, newId := Success(id), id;
    }

    /** Drawing an identifier leaves the portfolio alone. */
    method DrawId(source: IdSource) returns (id: string)
      requires source.Valid()
      modifies source
      ensures id !in documents && source.next <= old(source.next) + |documents| + 1
      ensures Value() == old(Value()) && SharesObjects() == old(SharesObjects())
    {
      id := FreshId(source);
    }

    method AddFresh(doc: Document, source: IdSource) returns (id: string)
      requires source.Valid() && doc.name !in mapNameDocuments
      modifies this`documents, this`mapNameDocuments, source
      ensures id !in old(documents)
      ensures Value() == Portfolios.Put(old(Value()), id, doc.Value().(id := id))
      ensures old(SharesObjects()) ==> SharesObjects()
      ensures source.next <= old(source.next) + |old(documents)| + 1
    {
      id := DrawId(source);
      AddUnder(doc, id);
    }

    static method CloneWithId(doc: Document, id: string) returns (copy: Document)
      ensures fresh(copy) && copy.Value() == doc.Value().(id := id)
    {
      copy := doc.Clone();
      copy.id := id;
    }

    method AddUnder(doc: Document, id: string)
      requires id !in documents && doc.name !in mapNameDocuments
      modifies this`documents, this`mapNameDocuments
      ensures Value() == Portfolios.Put(old(Value()), id, doc.Value().(id := id))
      ensures old(SharesObjects()) ==> SharesObjects()
    {
      var copy := CloneWithId(doc, id);
      AddCopy(copy);
    }

    method AddCopy(copy: Document)
      requires copy.id !in documents && copy.name !in mapNameDocuments
      modifies this`documents, this`mapNameDocuments
      ensures Value() == Portfolios.Put(old(Value()), copy.id, copy.Value())
      ensures old(SharesObjects()) ==> SharesObjects()
    {
      Put(copy);
      if old(SharesObjects()) { SharedAfterAdd(old(documents), old(mapNameDocuments), copy); }
    }

    method Remove(id: string) returns (r: Outcome<SecwException>)
      modifies this
      ensures match Portfolios.Remove(old(Value()), id)
              case Success(p) => r == Pass && Value() == p
              case Failure(e) => r == Fail(e) && unchanged(this)
      ensures old(SharesObjects()) ==> SharesObjects()
    {
      if id !in documents {
        return Fail(DocumentDoNotExistError(id));
      }
      Erase(id, documents[id].name);
      r := Pass;
    }

    method Erase(id: string, name: string)
      requires id in documents && documents[id].name == name
      modifies this`documents, this`mapNameDocuments
      ensures Value() == old(Value()).(byId := old(Value()).byId - {id}, byName := old(Value()).byName - {name})
      ensures old(SharesObjects()) ==> SharesObjects()
    {
      if SharesObjects() { SharedAfterErase(documents, mapNameDocuments, id); }
      EraseName(name);
      EraseId(id);
    }

    method EraseId(id: string)
      modifies this`documents
      ensures documents == old(documents) - {id}
      ensures Value() == old(Value()).(byId := old(Value()).byId - {id})
    {
      ValuesAfterErase(documents, id);
      documents := documents - {id};
    }

    method Update(doc: Document) returns (r: Outcome<SecwException>)
      modifies this
      ensures match Portfolios.Update(old(Value()), old(doc.Value()))
              case Success(p) => r == Pass && Value() == p
              case Failure(e) => r == Fail(e) && unchanged(this)
      ensures old(SharesObjects()) ==> SharesObjects()
    {
      if doc.id !in documents {
        return Fail(DocumentDoNotExistError(doc.id));
      }
      var oldDoc := documents[doc.id];
      if doc.name != oldDoc.name {
        if doc.name in mapNameDocuments {
          return Fail(NameAlreadyExistsError(doc.name));
        }
        EraseName(oldDoc.name);
      }
      var copy := doc.Clone();
      Put(copy);
      r := Pass;
      if old(SharesObjects()) {
        SharedAfterUpdate(old(documents), old(mapNameDocuments), copy);
        assert mapNameDocuments == (old(mapNameDocuments) - {oldDoc.name})[copy.name := copy];
      }
    }

    method EraseName(key: string)
      modifies this`mapNameDocuments
      ensures mapNameDocuments == old(mapNameDocuments) - {key}
      ensures Value() == old(Value()).(byName := old(Value()).byName - {key})
    {
      ValuesAfterErase(mapNameDocuments, key);
      mapNameDocuments := mapNameDocuments - {key};
    }

    method GetDocument(id: string) returns (r: Result<Document, SecwException>)
      ensures match Portfolios.GetDocument(Value(), id)
              case Success(d) => r.Success? && fresh(r.value) && r.value.Value() == d
              case Failure(e) => r == Failure(e)
    {
      if id !in documents {
        return Failure(DocumentDoNotExistError(id));
      }
      var copy := documents[id].Clone();
      r := Success(copy);
    }

    method GetDocumentByName(name: string) returns (r: Result<Document, SecwException>)
      ensures match Portfolios.GetDocumentByName(Value(), name)
              case Success(d) => r.Success? && fresh(r.value) && r.value.Value() == d
              case Failure(e) => r == Failure(e)
    {
      if name !in mapNameDocuments {
        return Failure(NameDoesNotExistError(name));
      }
      var copy := mapNameDocuments[name].Clone();
      r := Success(copy);
    }

    /** The objects under some keys, one after the other. */
    static method Collect(index: map<string, Document>, ids: seq<string>) returns (list: seq<Document>)
      requires forall id | id in ids :: id in index
      ensures |list| == |ids| && forall i | 0 <= i < |ids| :: list[i] == index[ids[i]]
    {
      list := [];
      for k := 0 to |ids|
        invariant |list| == k
        invariant forall i | 0 <= i < k :: list[i] == index[ids[i]]
      {
        list := list + [index[ids[k]]];
      }
    }

    lemma ListedAt(ids: seq<string>, i: nat)
      requires ids == Ascending(documents.Keys) && i < |ids|
      ensures ids[i] in documents && |ListDocuments(Value())| == |ids|
      ensures ListDocuments(Value())[i] == documents[ids[i]].Value()
    {
      assert Value().byId.Keys == documents.Keys;
      assert ids[i] in ids;
    }

    /** The stored objects themselves, in the order of their ids. */
    method GetListDocuments() returns (list: seq<Document>)
      ensures |list| == |ListDocuments(Value())|
      ensures forall i | 0 <= i < |list| :: list[i] in documents.Values && list[i].Value() == ListDocuments(Value())[i]
    {
      var ids := Ascending(documents.Keys);
      list := Collect(documents, ids);
      assert Value().byId.Keys == documents.Keys;
      forall i | 0 <= i < |list| ensures list[i] in documents.Values && list[i].Value() == ListDocuments(Value())[i] {
        ListedAt(ids, i);
      }
    }

    // -------------------------------------------------------------- saving

    method SerializePortfolio() returns (si: Tree)
      ensures si == Portfolios.SerializePortfolio(Value())
    {
      var list := GetListDocuments();
      var items: seq<Tree> := [];
      for k := 0 to |list|
        invariant |items| == k
        invariant forall i | 0 <= i < k :: items[i] == WithSecret(list[i].Value())
      {
        items := items + [WithSecret(list[k].Value())];
      }
      assert items == WriteList(ListDocuments(Value()));
      si := PortfolioTree(name, Array(items));
    }

    static method EncryptDocument(w: World, doc: Document, key: ByteString, random: VectorSource) returns (item: Tree)
      modifies random
      ensures IsSrrOf(w, doc.Value(), key, item)
    {
      var iv := random.Draw();
      item := WriteSrr(w, doc.Value(), key, iv);
    }

    static method EncryptList(w: World, list: seq<Document>, ghost docs: seq<Doc>, key: ByteString,
                              random: VectorSource)
      returns (items: seq<Tree>)
      requires |list| == |docs| && forall i | 0 <= i < |list| :: list[i].Value() == docs[i]
      modifies random
      ensures IsSrrList(w, docs, key, items)
    {
      items := [];
      for k := 0 to |list|
        invariant |items| == k && forall i | 0 <= i < k :: IsSrrOf(w, docs[i], key, items[i])
      {
        var item := EncryptDocument(w, list[k], key, random);
        items := items + [item];
      }
    }

    method EncryptDocuments(w: World, key: ByteString, random: VectorSource) returns (items: seq<Tree>)
      modifies random
      ensures IsSrrList(w, ListDocuments(old(Value())), key, items)
    {
      var list := GetListDocuments();
      items := EncryptList(w, list, ListDocuments(Value()), key, random);
    }

    method SerializePortfolioSrr(w: World, key: ByteString, random: VectorSource) returns (si: Tree)
      modifies random
      ensures IsSrrPortfolio(w, old(Value()), key, si)
    {
      ghost var p := Value();
      var items := EncryptDocuments(w, key, random);
      si := PortfolioTree(name, Array(items));
      SrrPortfolio(w, p, key, items);
    }

    // -------------------------------------------------------------- loading

    /** The indexes after inserting `objects`, whose values are `docs`, one after the other. */
    ghost predicate Indexes(docs: seq<Doc>, objects: seq<Document>)
      reads this, objects
    {
      && |docs| == |objects|
      && (forall i | 0 <= i < |docs| :: objects[i].Value() == docs[i])
      && documents.Keys == IndexById(docs).Keys && mapNameDocuments.Keys == IndexByName(docs).Keys
      && (forall i | 0 <= i < |docs| && LastOfId(docs, i) ::
            docs[i].id in documents && documents[docs[i].id] == objects[i])
      && (forall i | 0 <= i < |docs| && LastOfName(docs, i) ::
            docs[i].name in mapNameDocuments && mapNameDocuments[docs[i].name] == objects[i])
    }

    method Insert(doc: Document, ghost docs: seq<Doc>, ghost objects: seq<Document>)
      requires Indexes(docs, objects)
      modifies this`documents, this`mapNameDocuments
      ensures Indexes(docs + [doc.Value()], objects + [doc])
    {
      documents := documents[doc.id := doc];
      mapNameDocuments := mapNameDocuments[doc.name := doc];
      LastAfterAppend(docs, doc.Value());
    }

    lemma IndexesGiveValue(docs: seq<Doc>, objects: seq<Document>)
      requires Indexes(docs, objects)
      ensures Value() == Indexed(name, docs)
      ensures ShadowedTogether(docs) ==> SharesObjects()
    {
      forall id | id in documents
        ensures documents[id].Value() == IndexById(docs)[id]
        ensures exists i :: 0 <= i < |docs| && LastOfId(docs, i) && docs[i].id == id && documents[id] == objects[i]
      {
        var i := IdHasLast(docs, id);
        IndexHoldsLast(docs, i);
      }
      forall n | n in mapNameDocuments
        ensures mapNameDocuments[n].Value() == IndexByName(docs)[n]
        ensures exists i ::
                  0 <= i < |docs| && LastOfName(docs, i) && docs[i].name == n && mapNameDocuments[n] == objects[i]
      {
        var i := NameHasLast(docs, n);
        IndexHoldsLast(docs, i);
      }
      assert Value().byId == IndexById(docs);
      assert Value().byName == IndexByName(docs);
    }

    /** The document of one item, if it parses and is valid. */
    static method ReadItem(w: World, item: Tree) returns (doc: Document?)
      ensures doc != null ==> fresh(doc) && AcceptedOne(w, Load(item, None)) == [doc.Value()]
      ensures doc == null ==> AcceptedOne(w, Load(item, None)) == []
    {
      var read := Document.Deserialize(item, null);
      if read.Success? && Validate(w, read.value.Value()).Pass? {
        return read.value;
      }
      return null;
    }

    /** Like `Insert`, but there may be no document: it did not parse, or was not valid. */
    method InsertIfAny(doc: Document?, ghost docs: seq<Doc>, ghost objects: seq<Document>)
      returns (ghost read: seq<Doc>, ghost added: seq<Document>)
      requires Indexes(docs, objects)
      modifies this`documents, this`mapNameDocuments
      ensures Indexes(docs + read, objects + added)
      ensures read == if doc == null then [] else [doc.Value()]
    {
      if doc == null {
        assert docs + [] == docs && objects + [] == objects;
        return [], [];
      }
      Insert(doc, docs, objects);
      read, added := [doc.Value()], [doc];
    }

    method LoadOne(w: World, item: Tree, ghost docs: seq<Doc>, ghost objects: seq<Document>)
      returns (ghost added: seq<Document>)
      requires Indexes(docs, objects)
      modifies this`documents, this`mapNameDocuments
      ensures Indexes(docs + AcceptedOne(w, Load(item, None)), objects + added)
    {
      var doc := ReadItem(w, item);
      ghost var read;
      read, added := InsertIfAny(doc, docs, objects);
    }

    method LoadNext(w: World, items: seq<Tree>, k: nat, ghost objects: seq<Document>)
      returns (ghost more: seq<Document>)
      requires k < |items| && Indexes(Accepted(w, items[..k]), objects)
      modifies this`documents, this`mapNameDocuments
      ensures Indexes(Accepted(w, items[..k + 1]), more)
    {
      assert items[..k + 1][..k] == items[..k];
      ghost var added := LoadOne(w, items[k], Accepted(w, items[..k]), objects);
      more := objects + added;
    }

    method LoadList(w: World, items: seq<Tree>) returns (ghost objects: seq<Document>)
      requires documents == map[] && mapNameDocuments == map[]
      modifies this`documents, this`mapNameDocuments
      ensures Indexes(Accepted(w, items), objects)
    {
      objects := [];
      for k := 0 to |items|
        invariant Indexes(Accepted(w, items[..k]), objects)
      {
        objects := LoadNext(w, items, k, objects);
      }
      assert items[..|items|] == items;
    }

    method LoadPortfolio(w: World, si: Tree) returns (r: Outcome<SecwException>)
      modifies this
      ensures match Portfolios.LoadPortfolio(w, si)
              case Success(p) => r == Pass && Value() == p
                && (ShadowedTogether(Accepted(w, ReadPortfolioHeader(si).value.1)) ==> SharesObjects())
              case Failure(e) => r == Fail(e)
    {
      documents, mapNameDocuments := map[], map[];
      var header := ReadPortfolioHeader(si);
      if header.Failure? { return Fail(header.error); }
      name := header.value.0;
      ghost var objects := LoadList(w, header.value.1);
      IndexesGiveValue(Accepted(w, header.value.1), objects);
      r := Pass;
    }

    /** The document of one item of a backup; an internal certificate is skipped on a platform other than
        the one the backup was made on. */
    static method ReadSrrItem(w: World, item: Tree, key: ByteString, sameInstance: bool) returns (doc: Document?)
      ensures doc != null ==> fresh(doc) && RestoredOne(w, CreateFromSrr(w, item, key), sameInstance) == [doc.Value()]
      ensures doc == null ==> RestoredOne(w, CreateFromSrr(w, item, key), sameInstance) == []
    {
      var read := Document.FromSrr(w, item, key);
      if read.Success? {
        if !sameInstance && TypeOf(read.value.content) == INTERNAL_CERTIFICATE_TYPE {
          return null;
        }
        if Validate(w, read.value.Value()).Pass? {
          return read.value;
        }
      }
      return null;
    }

    method LoadOneFromSrr(w: World, item: Tree, key: ByteString, sameInstance: bool,
                          ghost docs: seq<Doc>, ghost objects: seq<Document>) returns (ghost added: seq<Document>)
      requires Indexes(docs, objects)
      modifies this`documents, this`mapNameDocuments
      ensures Indexes(docs + RestoredOne(w, CreateFromSrr(w, item, key), sameInstance), objects + added)
    {
      var doc := ReadSrrItem(w, item, key, sameInstance);
      ghost var read;
      read, added := InsertIfAny(doc, docs, objects);
    }

    method LoadNextFromSrr(w: World, items: seq<Tree>, k: nat, key: ByteString, sameInstance: bool,
                           ghost objects: seq<Document>)
      returns (ghost more: seq<Document>)
      requires k < |items| && Indexes(Restored(w, items[..k], key, sameInstance), objects)
      modifies this`documents, this`mapNameDocuments
      ensures Indexes(Restored(w, items[..k + 1], key, sameInstance), more)
    {
      assert items[..k + 1][..k] == items[..k];
      ghost var added := LoadOneFromSrr(w, items[k], key, sameInstance, Restored(w, items[..k], key, sameInstance),
                                        objects);
      more := objects + added;
    }

    method LoadListFromSrr(w: World, items: seq<Tree>, key: ByteString, sameInstance: bool)
      returns (ghost objects: seq<Document>)
      requires documents == map[] && mapNameDocuments == map[]
      modifies this`documents, this`mapNameDocuments
      ensures Indexes(Restored(w, items, key, sameInstance), objects)
    {
      objects := [];
      for k := 0 to |items|
        invariant Indexes(Restored(w, items[..k], key, sameInstance), objects)
      {
        objects := LoadNextFromSrr(w, items, k, key, sameInstance, objects);
      }
      assert items[..|items|] == items;
    }

    method LoadPortfolioFromSrr(w: World, si: Tree, key: ByteString, sameInstance: bool)
      returns (r: Outcome<SecwException>)
      modifies this
      ensures match Portfolios.LoadPortfolioFromSrr(w, si, key, sameInstance)
              case Success(p) => r == Pass && Value() == p
                && (ShadowedTogether(Restored(w, ReadPortfolioHeader(si).value.1, key, sameInstance)) ==>
                      SharesObjects())
              case Failure(e) => r == Fail(e)
    {
      documents, mapNameDocuments := map[], map[];
      var header := ReadPortfolioHeader(si);
      if header.Failure? { return Fail(header.error); }
      name := header.value.0;
      ghost var objects := LoadListFromSrr(w, header.value.1, key, sameInstance);
      IndexesGiveValue(Restored(w, header.value.1, key, sameInstance), objects);
      r := Pass;
    }
  }
}
