/** The client of a consumer, talking to a server; the socket between them carries frames unchanged. */
module ConsumerObjects {
  import opened DocumentObjects
  import opened Documents
  import opened Environment
  import opened Errors
  import opened ReadPaths
  import opened ServerObjects
  import opened ServerSteps
  import opened StepLaws
  import opened Wallets
  import opened Wrappers

  lemma ReadNeedsNoId(w: World, st: State, client: string, portfolio: string, id: string, newId: string)
    ensures HandleRequest(w, st, client, [GET_WITH_SECRET, portfolio, id], newId)
         == (st, HandleRequest(w, st, client, [GET_WITH_SECRET, portfolio, id], "").1)
  {
    assert [GET_WITH_SECRET, portfolio, id][1..] == [portfolio, id];
  }

  lemma {:induction false} CollectAllStopsAt(fetch: string -> Reading<Doc>, ids: seq<string>, k: nat)
    requires k <= |ids| && CollectAll(fetch, ids[..k]).Failure?
    ensures CollectAll(fetch, ids) == Failure(CollectAll(fetch, ids[..k]).error)
    decreases |ids|
  {
    var n := |ids| - 1;
    if k <= n {
      assert ids[..n][..k] == ids[..k];
      CollectAllStopsAt(fetch, ids[..n], k);
    } else {
      assert ids[..k] == ids;
    }
  }

  lemma CollectMore(fetch: string -> Reading<Doc>, ids: seq<string>, k: nat, docs: seq<Doc>)
    requires k < |ids| && CollectAll(fetch, ids[..k]) == Success(docs)
    ensures CollectAll(fetch, ids[..k + 1]) == Collect(docs, fetch(ids[k]))
  {
    assert ids[..k + 1][..k] == ids[..k];
  }

  ghost predicate HaveValues(objects: seq<Document>, docs: seq<Doc>)
    reads objects
  {
    |objects| == |docs| && forall i | 0 <= i < |docs| :: objects[i].Value() == docs[i]
  }

  class ConsumerAccessor {
    const world: World
    const client: string
    const server: SecurityWalletServer

    constructor (client: string, server: SecurityWalletServer)
      ensures this.client == client && this.server == server && world == server.world
    {
      this.world, this.client, this.server := server.world, client, server;
    }

    /** The frames of the answer; an error reply is thrown as the exception it encodes. */
    static method CheckAnswer(w: World, frames: seq<string>) returns (r: Result<seq<string>, SecwException>)
      requires frames != []
      ensures r == Answer(w, frames)
    {
      if frames[0] == "ERROR" {
        if |frames| == 2 { return Failure(Thrown(w, frames[1])); }
        return Failure(SecwException(ProtocolError, "Missing data for error", ""));
      }
      return Success(frames);
    }

    static method ParseAnswer(w: World, frames: seq<string>) returns (r: Result<Document, SecwException>)
      requires frames != []
      ensures match ParseDocument(w, frames)
              case Success(d) => r.Success? && fresh(r.value) && r.value.Value() == d
              case Failure(e) => r == Failure(e)
    {
      var answer := CheckAnswer(w, frames);
      if answer.Failure? { return Failure(answer.error); }
      var si :- Deserialize(w, answer.value[0]);
      r := Document.Deserialize(si, null);
    }

    method GetDocumentWithPrivateData(portfolio: string, id: string) returns (r: Result<Document, SecwException>)
      requires server.Valid() && server.world == world
      modifies server`published, server.wallet`state, server.wallet`held, server.wallet`database,
               server.wallet.portfolios, server.ids
      ensures server.Valid() && server.Value() == old(server.Value())
      ensures match Fetch(world, old(server.Value()), client, portfolio, id)
              case Success(d) => r.Success? && fresh(r.value) && r.value.Value() == d
              case Failure(e) => r == Failure(e)
    {
      ghost var st := server.Value();
      var frames;
      ghost var newId;
      frames, newId := server.HandleRequest(client, [GET_WITH_SECRET, portfolio, id]);
      ReadNeedsNoId(world, st, client, portfolio, id, newId);
      GetReply(world, st, client, portfolio, id);
      r := ParseAnswer(world, frames);
    }

    /** What the loop does with one answer: a document that does not exist or may not be read is left out. */
    static method KeepAnswer(doc: Result<Document, SecwException>, ghost answer: Reading<Doc>, before: seq<Document>,
                             ghost docs: seq<Doc>)
      returns (r: Result<seq<Document>, SecwException>, ghost all: seq<Doc>)
      requires HaveValues(before, docs)
      requires match answer
               case Success(d) => doc.Success? && doc.value.Value() == d
               case Failure(e) => doc == Failure(e)
      ensures match Collect(docs, answer)
              case Success(found) => r.Success? && all == found && HaveValues(r.value, all)
              case Failure(e) => r == Failure(e)
    {
      all := docs;
      if doc.Success? {
        all := docs + [doc.value.Value()];
        return Success(before + [doc.value]), all;
      }
      if doc.error.code != DocumentDoNotExist && doc.error.code != IllegalAccess { return Failure(doc.error), all; }
      return Success(before), all;
    }

    method FetchNext(portfolio: string, id: string, before: seq<Document>, ghost docs: seq<Doc>)
      returns (r: Result<seq<Document>, SecwException>, ghost all: seq<Doc>)
      requires server.Valid() && server.world == world && HaveValues(before, docs)
      modifies server`published, server.wallet`state, server.wallet`held, server.wallet`database,
               server.wallet.portfolios, server.ids
      ensures server.Valid() && server.Value() == old(server.Value())
      ensures match Collect(docs, Fetch(world, old(server.Value()), client, portfolio, id))
              case Success(found) => r.Success? && all == found && HaveValues(r.value, all)
              case Failure(e) => r == Failure(e)
    {
      ghost var answer := Fetch(world, server.Value(), client, portfolio, id);
      var doc := GetDocumentWithPrivateData(portfolio, id);
      r, all := KeepAnswer(doc, answer, before, docs);
    }

    method FetchEach(portfolio: string, ids: seq<string>)
      returns (r: Result<seq<Document>, SecwException>, ghost docs: seq<Doc>)
      requires server.Valid() && server.world == world
      modifies server`published, server.wallet`state, server.wallet`held, server.wallet`database,
               server.wallet.portfolios, server.ids
      ensures server.Valid() && server.Value() == old(server.Value())
      ensures match FetchAll(world, old(server.Value()), client, portfolio, ids)
              case Success(found) => r.Success? && docs == found && HaveValues(r.value, docs)
              case Failure(e) => r == Failure(e)
    {
      ghost var st := server.Value();
      ghost var fetch := (id: string) => Fetch(world, st, client, portfolio, id);
      assert FetchAll(world, st, client, portfolio, ids) == CollectAll(fetch, ids);
      docs := [];
      r := Success([]);
      for k := 0 to |ids|
        invariant server.Valid() && server.Value() == st
        invariant r.Success? && HaveValues(r.value, docs) && CollectAll(fetch, ids[..k]) == Success(docs)
      {
        CollectMore(fetch, ids, k, docs);
        r, docs := FetchNext(portfolio, ids[k], r.value, docs);
        if r.Failure? {
          CollectAllStopsAt(fetch, ids, k + 1);
          return;
        }
      }
      assert ids[..|ids|] == ids;
    }

    /** The documents of a list of ids, as objects of the client. From a configured portfolio that resolves
        it never throws, and gives exactly the documents that exist and that the client may read. */
    method GetListDocumentsWithPrivateData(portfolio: string, ids: seq<string>)
      returns (r: Result<seq<Document>, SecwException>, ghost docs: seq<Doc>)
      requires server.Valid() && server.world == world
      modifies server`published, server.wallet`state, server.wallet`held, server.wallet`database,
               server.wallet.portfolios, server.ids
      ensures server.Valid() && server.Value() == old(server.Value())
      ensures r.Success? ==> HaveValues(r.value, docs)
      ensures var st := old(server.Value());
              world.Sound() && portfolio in st.wallet.configurations
              && HasPortfolio(st.wallet.portfolios, portfolio) ==>
                r.Success? && docs == Readable(Target(st, portfolio), ids, Consumable(world, st, portfolio, client))
    {
      ghost var st := server.Value();
      if world.Sound() && portfolio in st.wallet.configurations && HasPortfolio(st.wallet.portfolios, portfolio) {
        FetchGivesReadable(world, st, client, portfolio, ids);
      }
      r, docs := FetchEach(portfolio, ids);
    }
  }
}
