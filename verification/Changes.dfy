/** What one change does to the stored documents, and what no change can do. */
module Changes {
  import opened DocumentLaws
  import opened Documents
  import opened Encryption
  import opened Environment
  import opened PortfolioLaws
  import opened Portfolios
  import opened Runs
  import opened Serialization
  import opened ServerSteps
  import opened StepLaws
  import opened UpdateFlags
  import opened WalletLaws
  import opened Wallets
  import opened Wrappers

  // ---------------------------------------------------------------- one id, one notification

  /** `q` is `p` with one more document, under an id and a name that were free. */
  ghost predicate Gains(p: Portfolio, q: Portfolio, id: string) {
    && id !in p.byId && id in q.byId && q.byId[id].id == id && q.byId[id].name !in p.byName
    && q == Portfolio(p.name, p.byId[id := q.byId[id]], p.byName[q.byId[id].name := q.byId[id]])
  }

  /** `q` is `p` without the document of that id, whose name is free again. */
  ghost predicate Loses(p: Portfolio, q: Portfolio, id: string) {
    && id in p.byId
    && q == Portfolio(p.name, p.byId - {id}, p.byName - {p.byId[id].name})
  }

  /** `q` is `p` with another document of that id, under its own name, which was that of the former one or
      free. */
  ghost predicate Replaces(p: Portfolio, q: Portfolio, id: string) {
    && id in p.byId && id in q.byId && q.byId[id].id == id
    && (q.byId[id].name == p.byId[id].name || q.byId[id].name !in p.byName)
    && q == Portfolio(p.name, p.byId[id := q.byId[id]], (p.byName - {p.byId[id].name})[q.byId[id].name := q.byId[id]])
  }

  /** Only the target portfolio may have changed; the new list was saved and one notification was
      published. */
  ghost predicate ChangesTarget(w: World, before: State, after: State, name: string) {
    && HasPortfolio(before.wallet.portfolios, name) && HasPortfolio(after.wallet.portfolios, name)
    && after.wallet.configurations == before.wallet.configurations
    && after.wallet.portfolios
       == before.wallet.portfolios[FirstNamed(before.wallet.portfolios, name) := Target(after, name)]
    && after.wallet.database == Some(SaveText(w, after.wallet.portfolios))
    && |after.published| == |before.published| + 1 && before.published <= after.published
  }

  lemma CommitChangesTarget(w: World, st: State, after: State, name: string, p: Portfolio, note: string)
    requires Commits(w, st, after, name, p, note)
    ensures ChangesTarget(w, st, after, name) && Target(after, name) == p
  {
    CommittedTarget(w, st, after, name, p, note);
  }

  lemma AddGains(p: Portfolio, d: Doc, id: string)
    requires Add(p, d, id).Success? && id !in p.byId
    ensures Gains(p, Add(p, d, id).value, id)
  {
  }

  lemma RemoveLoses(p: Portfolio, id: string)
    requires Remove(p, id).Success?
    ensures Loses(p, Remove(p, id).value, id)
  {
  }

  lemma UpdateReplaces(p: Portfolio, d: Doc)
    requires Update(p, d).Success?
    ensures Replaces(p, Update(p, d).value, d.id)
  {
    var q, former := Update(p, d).value, p.byId[d.id].name;
    if d.name == former {
      assert q.byName == (p.byName - {former})[d.name := d];
    }
  }

  lemma CreateGains(w: World, st: State, sender: string, params: Params, newId: string)
    requires Create(w, st, sender, params, newId).Success? && FreshId(st, [CREATE] + params, newId)
    ensures var (after, reply) := Create(w, st, sender, params, newId).value;
            |params| >= 2 && ChangesTarget(w, st, after, params[0])
            && Gains(Target(st, params[0]), Target(after, params[0]), newId)
            && reply == newId
  {
    var doc, p := CreateParts(w, st, sender, params, newId);
    assert ([CREATE] + params)[1] == params[0];
    AddGains(Target(st, params[0]), doc, newId);
    CommitChangesTarget(w, st, Create(w, st, sender, params, newId).value.0, params[0], p,
                        CreatedNote(w, params[0], doc.(id := newId)));
  }

  lemma DeleteLoses(w: World, st: State, sender: string, params: Params)
    requires Delete(w, st, sender, params).Success?
    ensures var after := Delete(w, st, sender, params).value.0;
            |params| >= 2 && ChangesTarget(w, st, after, params[0])
            && Loses(Target(st, params[0]), Target(after, params[0]), params[1])
  {
    var doc, p := DeleteParts(w, st, sender, params);
    RemoveLoses(Target(st, params[0]), params[1]);
    CommitChangesTarget(w, st, Delete(w, st, sender, params).value.0, params[0], p, DeletedNote(w, params[0], doc));
  }

  /** The id a request to update names. */
  function RequestedId(w: World, json: string): Option<string> {
    match ReadRequest(w, json)
    case Success((_, doc)) => Some(doc.id)
    case Failure(_) => None
  }

  lemma UpdateReplacesStored(w: World, st: State, sender: string, params: Params)
    requires UpdateDocument(w, st, sender, params).Success?
    ensures var after := UpdateDocument(w, st, sender, params).value.0;
            |params| >= 2 && RequestedId(w, params[1]).Some? && ChangesTarget(w, st, after, params[0])
            && Replaces(Target(st, params[0]), Target(after, params[0]), RequestedId(w, params[1]).value)
  {
    var si, request, existing, merged, p := UpdateParts(w, st, sender, params);
    MergedHasId(si, existing);
    UpdateReplaces(Target(st, params[0]), merged);
    CommitChangesTarget(w, st, UpdateDocument(w, st, sender, params).value.0, params[0], p,
                        UpdatedNote(w, params[0], existing, request));
  }

  /** What a reply of one frame to this command means: a create gained a document under the id it answers, a
      delete lost the one of the id it names, an update replaced the one of the id its document has; both
      indexes changed together, everything else stayed, and one notification was published. */
  ghost predicate Done(w: World, before: State, after: State, cmd: string, params: Params, newId: string,
                       reply: string) {
    && |params| >= 2 && ChangesTarget(w, before, after, params[0])
    && (var p, q := Target(before, params[0]), Target(after, params[0]);
        if cmd == CREATE then reply == newId && Gains(p, q, newId)
        else if cmd == DELETE then reply == "OK" && Loses(p, q, params[1])
        else reply == "OK" && RequestedId(w, params[1]).Some? && Replaces(p, q, RequestedId(w, params[1]).value))
  }

  predicate IsChangeCommand(cmd: string) {
    cmd == CREATE || cmd == DELETE || cmd == UPDATE
  }

  lemma ChangeDone(w: World, st: State, sender: string, cmd: string, params: Params, newId: string)
    requires IsChangeCommand(cmd) && FreshId(st, [cmd] + params, newId)
    requires Dispatch(w, st, sender, cmd, params, newId).Success?
    ensures var (after, reply) := Dispatch(w, st, sender, cmd, params, newId).value;
            Done(w, st, after, cmd, params, newId, reply)
  {
    if cmd == CREATE {
      CreateGains(w, st, sender, params, newId);
    } else if cmd == DELETE {
      DeleteLoses(w, st, sender, params);
      var doc, p := DeleteParts(w, st, sender, params);
    } else {
      UpdateReplacesStored(w, st, sender, params);
      var si, request, existing, merged, p := UpdateParts(w, st, sender, params);
    }
  }

  lemma ReadKeepsState(w: World, st: State, sender: string, cmd: string, params: Params, newId: string)
    requires !IsChangeCommand(cmd) && Dispatch(w, st, sender, cmd, params, newId).Success?
    ensures Dispatch(w, st, sender, cmd, params, newId).value.0 == st
  {
  }

  lemma ReplyIs(w: World, st: State, sender: string, payload: seq<string>, newId: string)
    ensures var (after, frames) := HandleRequest(w, st, sender, payload, newId);
            && (|frames| != 1 ==> after == st)
            && (|frames| == 1 ==>
                  && payload != []
                  && Dispatch(w, st, sender, payload[0], payload[1..], newId) == Success((after, frames[0])))
  {
  }

  /** An error reply leaves the state as it was, and so does every read; a change that succeeds is done in
      the sense above. The id of a create is one not in use. */
  lemma ReplyTellsChange(w: World, st: State, sender: string, payload: seq<string>, newId: string)
    ensures var (after, frames) := HandleRequest(w, st, sender, payload, newId);
            && (|frames| != 1 ==> after == st)
            && (|frames| == 1 && !IsChangeCommand(payload[0]) ==> after == st)
            && (|frames| == 1 && IsChangeCommand(payload[0]) && FreshId(st, payload, newId) ==>
                  Done(w, st, after, payload[0], payload[1..], newId, frames[0]))
  {
    var (after, frames) := HandleRequest(w, st, sender, payload, newId);
    ReplyIs(w, st, sender, payload, newId);
    if |frames| == 1 {
      assert payload == [payload[0]] + payload[1..];
      if !IsChangeCommand(payload[0]) {
        ReadKeepsState(w, st, sender, payload[0], payload[1..], newId);
      } else if FreshId(st, payload, newId) {
        ChangeDone(w, st, sender, payload[0], payload[1..], newId);
      }
    }
  }

  // ---------------------------------------------------------------- reading, then updating

  lemma UpdateSame(p: Portfolio, d: Doc)
    requires Agree(p) && d.id in p.byId && p.byId[d.id] == d
    ensures Update(p, d) == Success(p)
  {
    assert p.byId[d.id := d] == p.byId && p.byName[d.name := d] == p.byName;
  }

  lemma MergeUnchanged(w: World, p: Portfolio, si: Tree, d: Doc, allowed: set<string>)
    requires w.Sound() && Agree(p) && AllValid(w, p) && d.id in p.byId && p.byId[d.id] == d
    requires Load(si, Some(d)) == Success(d)
    ensures Load(si, None).Success?
    ensures ReadMerged(w, p, Serialize(w, si), allowed) == Success((Load(si, None).value, d, d))
  {
    assert w.fromText(w.toText(si)) == Json(si);
    MergeParses(si, d);
    var request := Load(si, None).value;
    WithoutSecretShowsIdentity(d, request);
    assert SymmetricDifference(request.usages, d.usages) == {};
  }

  ghost predicate MayProduce(w: World, st: State, name: string, sender: string) {
    && name in st.wallet.configurations && HasPortfolio(st.wallet.portfolios, name)
    && Producible(w, st, name, sender) != {}
  }

  /** An update with a request that merges to the stored document leaves every portfolio as it was. */
  lemma UpdateUnchanged(w: World, st: State, sender: string, name: string, si: Tree, d: Doc)
    requires w.Sound() && Good(w, st.wallet.portfolios) && MayProduce(w, st, name, sender)
    requires d.id in Target(st, name).byId && Target(st, name).byId[d.id] == d
    requires Load(si, Some(d)) == Success(d)
    ensures UpdateDocument(w, st, sender, [name, Serialize(w, si)]).Success?
    ensures UpdateDocument(w, st, sender, [name, Serialize(w, si)]).value.0.wallet.portfolios == st.wallet.portfolios
  {
    var params := [name, Serialize(w, si)];
    var p := Target(st, name);
    MergeUnchanged(w, p, si, d, Producible(w, st, name, sender));
    UpdateSame(p, d);
    assert OpenForChange(w, st, sender, params).Success?;
    OpenParts(w, st, sender, params);
  }

  lemma ReplyWithoutSecret(w: World, st: State, sender: string, name: string, id: string, newId: string)
    requires HasPortfolio(st.wallet.portfolios, name) && id in Target(st, name).byId
    ensures HandleRequest(w, st, sender, [GET_WITHOUT_SECRET, name, id], newId).1
         == [Serialize(w, WithoutSecret(Target(st, name).byId[id]))]
  {
    assert [GET_WITHOUT_SECRET, name, id][1..] == [name, id];
    assert GetWithoutSecret(w, st, [name, id], false)
           == Success(Serialize(w, WithoutSecret(Target(st, name).byId[id])));
  }

  lemma ReplyToUpdate(w: World, st: State, sender: string, name: string, text: string, newId: string)
    requires UpdateDocument(w, st, sender, [name, text]).Success?
    ensures HandleRequest(w, st, sender, [UPDATE, name, text], newId)
         == (UpdateDocument(w, st, sender, [name, text]).value.0, ["OK"])
  {
    assert [UPDATE, name, text][1..] == [name, text];
  }

  /** The requests a client can build from what it read of a document without its secret: the tree as
      received, or the document it parses to, serialized again. */
  ghost predicate SentBack(w: World, received: string, text: string) {
    || text == received
    || (w.fromText(received).Json? && Load(w.fromText(received).tree, None).Success?
        && text == Serialize(w, WithSecret(Load(w.fromText(received).tree, None).value)))
  }

  /** Reading a document without its secret and sending it back as an update is the identity on the
      portfolios, for every type of document and every sender with some producer usage. */
  lemma ReadThenUpdateIsIdentity(w: World, st: State, sender: string, name: string, id: string, newId: string,
                                 text: string)
    requires w.Sound() && Good(w, st.wallet.portfolios) && MayProduce(w, st, name, sender)
    requires id in Target(st, name).byId
    ensures var reply := HandleRequest(w, st, sender, [GET_WITHOUT_SECRET, name, id], newId).1;
            && |reply| == 1
            && (SentBack(w, reply[0], text) ==>
                  var (after, answer) := HandleRequest(w, st, sender, [UPDATE, name, text], newId);
                  after.wallet.portfolios == st.wallet.portfolios && answer == ["OK"])
  {
    var d := Target(st, name).byId[id];
    var view := WithoutSecret(d);
    ReplyWithoutSecret(w, st, sender, name, id, newId);
    if SentBack(w, Serialize(w, view), text) {
      assert d.id == id && w.fromText(w.toText(view)) == Json(view);
      var si := view;
      if text == Serialize(w, view) {
        MergeOwnView(d);
      } else {
        si := WithSecret(Load(view, None).value);
        MergeOwnParsedView(d);
      }
      UpdateUnchanged(w, st, sender, name, si, d);
      ReplyToUpdate(w, st, sender, name, text, newId);
    }
  }

  /** So the public view of any stored document, sent as an update, is accepted, changes nothing, and is
      announced as a change of the secret. */
  lemma OwnViewIsFlagged(w: World, st: State, sender: string, name: string, id: string)
    returns (note: Tree)
    requires w.Sound() && Good(w, st.wallet.portfolios) && MayProduce(w, st, name, sender)
    requires id in Target(st, name).byId
    ensures var params := [name, Serialize(w, WithoutSecret(Target(st, name).byId[id]))];
            && UpdateDocument(w, st, sender, params).Success?
            && (var after := UpdateDocument(w, st, sender, params).value.0;
                && after.wallet.portfolios == st.wallet.portfolios
                && after.published == st.published + [Serialize(w, note)]
                && FindBoolean(note, "secret_changed") == Some(true)
                && FindBoolean(note, "non_secret_changed") == Some(false))
  {
    var d := Target(st, name).byId[id];
    var view := WithoutSecret(d);
    var params := [name, Serialize(w, view)];
    assert d.id == id && w.fromText(w.toText(view)) == Json(view);
    MergeOwnView(d);
    UpdateUnchanged(w, st, sender, name, view, d);
    WrittenCarries(d);
    var si, before, now;
    si, before, now, note := FlagsTellChange(w, st, sender, params);
    assert si == view && before == now;
  }
}
