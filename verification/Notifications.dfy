/** The notification stream against the stored state. */
module Notifications {
  import opened DocumentLaws
  import opened Documents
  import opened Environment
  import opened PortfolioLaws
  import opened Portfolios
  import opened Runs
  import opened Serialization
  import opened ServerSteps
  import opened StepLaws
  import opened WalletLaws
  import opened Wallets
  import opened Wrappers

  /** The documents of a portfolio as anyone may read them, by id. */
  type View = map<string, Tree>

  function Transform<U, V>(m: map<string, U>, f: U -> V): map<string, V> {
    map k | k in m :: f(m[k])
  }

  lemma TransformPut<U, V>(m: map<string, U>, f: U -> V, k: string, u: U)
    ensures Transform(m[k := u], f) == Transform(m, f)[k := f(u)]
  {
  }

  lemma TransformErase<U, V>(m: map<string, U>, f: U -> V, k: string)
    ensures Transform(m - {k}, f) == Transform(m, f) - {k}
  {
  }

  lemma TransformSame<U, V>(m: map<string, U>, n: map<string, U>, f: U -> V)
    requires m.Keys == n.Keys && forall k | k in m :: f(m[k]) == f(n[k])
    ensures Transform(m, f) == Transform(n, f)
  {
  }

  function PortfolioView(p: Portfolio): View {
    Transform(p.byId, WithoutSecret)
  }

  function PublicView(st: State, name: string): View {
    if HasPortfolio(st.wallet.portfolios, name) then PortfolioView(Target(st, name)) else map[]
  }

  function FindId(data: Option<Tree>): Option<string> {
    match data
    case None => None
    case Some(si) => FindText(si, DOC_ID_ENTRY)
  }

  /** What a listener of one portfolio does with a notification: add or replace by id, or remove. */
  function ApplyTree(name: string, view: View, si: Tree): View {
    if FindText(si, "portfolio") != Some(name) then view
    else
      var action, current, former := FindText(si, "action"), FindMember(si, "new_data"), FindMember(si, "old_data");
      if action in {Some("CREATED"), Some("UPDATED")} && FindId(current).Some? then
        view[FindId(current).value := current.value]
      else if action == Some("DELETED") && FindId(former).Some? then view - {FindId(former).value}
      else view
  }

  function Apply(w: World, name: string, view: View, note: string): View {
    match w.fromText(note)
    case BadJson(_) => view
    case Json(si) => ApplyTree(name, view, si)
  }

  function ApplyAll(w: World, name: string, view: View, notes: seq<string>): View
    decreases |notes|
  {
    if notes == [] then view else ApplyAll(w, name, Apply(w, name, view, notes[0]), notes[1..])
  }

  lemma {:induction false} ApplyInTurn(w: World, name: string, view: View, first: seq<string>, second: seq<string>)
    ensures ApplyAll(w, name, view, first + second) == ApplyAll(w, name, ApplyAll(w, name, view, first), second)
    decreases |first|
  {
    if first == [] {
      assert first + second == second;
    } else {
      assert (first + second)[1..] == first[1..] + second;
      ApplyInTurn(w, name, Apply(w, name, view, first[0]), first[1..], second);
    }
  }

  // ---------------------------------------------------------------- one notification

  lemma CreatedMembers(portfolio: string, data: Tree)
    ensures var si := CreatedTree(portfolio, data);
            FindText(si, "portfolio") == Some(portfolio) && FindText(si, "action") == Some("CREATED")
            && FindMember(si, "old_data") == Some(Void) && FindMember(si, "new_data") == Some(data)
  {
  }

  lemma DeletedMembers(portfolio: string, data: Tree)
    ensures var si := DeletedTree(portfolio, data);
            FindText(si, "portfolio") == Some(portfolio) && FindText(si, "action") == Some("DELETED")
            && FindMember(si, "old_data") == Some(data) && FindMember(si, "new_data") == Some(Void)
  {
  }

  lemma UpdatedMembers(portfolio: string, a: Tree, b: Tree, nonSecret: bool, secret: bool)
    ensures var si := UpdatedTree(portfolio, a, b, nonSecret, secret);
            FindText(si, "portfolio") == Some(portfolio) && FindText(si, "action") == Some("UPDATED")
            && FindMember(si, "old_data") == Some(a) && FindMember(si, "new_data") == Some(b)
            && FindBoolean(si, "non_secret_changed") == Some(nonSecret)
            && FindBoolean(si, "secret_changed") == Some(secret)
  {
  }

  lemma ApplyPut(name: string, view: View, si: Tree, portfolio: string, action: string, data: Tree, id: string)
    requires FindText(si, "portfolio") == Some(portfolio) && FindText(si, "action") == Some(action)
    requires action == "CREATED" || action == "UPDATED"
    requires FindMember(si, "new_data") == Some(data) && FindText(data, DOC_ID_ENTRY) == Some(id)
    ensures ApplyTree(name, view, si) == if portfolio == name then view[id := data] else view
  {
  }

  lemma ApplyRemove(name: string, view: View, si: Tree, portfolio: string, data: Tree, id: string)
    requires FindText(si, "portfolio") == Some(portfolio) && FindText(si, "action") == Some("DELETED")
    requires FindMember(si, "old_data") == Some(data) && FindText(data, DOC_ID_ENTRY) == Some(id)
    ensures ApplyTree(name, view, si) == if portfolio == name then view - {id} else view
  {
  }

  lemma ApplyText(w: World, name: string, view: View, si: Tree)
    requires w.Sound()
    ensures Apply(w, name, view, Serialize(w, si)) == ApplyTree(name, view, si)
  {
    assert w.fromText(w.toText(si)) == Json(si);
  }

  lemma ApplyCreated(w: World, name: string, view: View, portfolio: string, d: Doc)
    requires w.Sound()
    ensures Apply(w, name, view, CreatedNote(w, portfolio, d))
         == if portfolio == name then view[d.id := WithoutSecret(d)] else view
  {
    var data := WithoutSecret(d);
    WrittenCarries(d);
    CreatedMembers(portfolio, data);
    ApplyText(w, name, view, CreatedTree(portfolio, data));
    ApplyPut(name, view, CreatedTree(portfolio, data), portfolio, "CREATED", data, d.id);
  }

  lemma ApplyDeleted(w: World, name: string, view: View, portfolio: string, d: Doc)
    requires w.Sound()
    ensures Apply(w, name, view, DeletedNote(w, portfolio, d)) == if portfolio == name then view - {d.id} else view
  {
    var data := WithoutSecret(d);
    WrittenCarries(d);
    DeletedMembers(portfolio, data);
    ApplyText(w, name, view, DeletedTree(portfolio, data));
    ApplyRemove(name, view, DeletedTree(portfolio, data), portfolio, data, d.id);
  }

  lemma ApplyUpdated(w: World, name: string, view: View, portfolio: string, former: Doc, d: Doc)
    requires w.Sound()
    ensures Apply(w, name, view, UpdatedNote(w, portfolio, former, d))
         == if portfolio == name then view[d.id := WithoutSecret(d)] else view
  {
    var data, nonSecret, secret := WithoutSecret(d), !NonSecretEquals(w, d, former), !SecretEquals(w, d, former);
    var si := UpdatedTree(portfolio, WithoutSecret(former), data, nonSecret, secret);
    WrittenCarries(d);
    UpdatedMembers(portfolio, WithoutSecret(former), data, nonSecret, secret);
    ApplyText(w, name, view, si);
    ApplyPut(name, view, si, portfolio, "UPDATED", data, d.id);
  }

  // ---------------------------------------------------------------- one step

  lemma CommittedView(w: World, st: State, after: State, name: string, p: Portfolio, note: string, other: string)
    requires Commits(w, st, after, name, p, note)
    ensures PublicView(after, other) == if other == name then PortfolioView(p) else PublicView(st, other)
    ensures after.published == st.published + [note]
  {
    var ps := st.wallet.portfolios;
    SameNames(ps, ps[FirstNamed(ps, name) := p], other);
  }

  /** What a step published, applied to the view before it, gives the view after it. */
  ghost predicate Tracked(w: World, before: State, after: State, name: string) {
    && before.published <= after.published
    && ApplyAll(w, name, PublicView(before, name), after.published[|before.published|..]) == PublicView(after, name)
  }

  lemma OneNote(w: World, before: State, after: State, name: string, note: string)
    requires after.published == before.published + [note]
    requires Apply(w, name, PublicView(before, name), note) == PublicView(after, name)
    ensures Tracked(w, before, after, name)
  {
    assert after.published[|before.published|..] == [note];
    assert ApplyAll(w, name, PublicView(before, name), [note]) == ApplyAll(w, name, PublicView(after, name), []);
  }

  lemma AddedView(p: Portfolio, d: Doc, newId: string)
    requires Add(p, d, newId).Success?
    ensures PortfolioView(Add(p, d, newId).value) == PortfolioView(p)[newId := WithoutSecret(d.(id := newId))]
  {
    TransformPut(p.byId, WithoutSecret, newId, d.(id := newId));
  }

  lemma RemovedView(p: Portfolio, id: string)
    requires Remove(p, id).Success?
    ensures PortfolioView(Remove(p, id).value) == PortfolioView(p) - {id}
  {
    TransformErase(p.byId, WithoutSecret, id);
  }

  lemma UpdatedView(p: Portfolio, d: Doc)
    requires Update(p, d).Success?
    ensures PortfolioView(Update(p, d).value) == PortfolioView(p)[d.id := WithoutSecret(d)]
  {
    TransformPut(p.byId, WithoutSecret, d.id, d);
  }

  /** A committed change is tracked when its notification says of the target portfolio what happened to
      it. */
  lemma CommitTracked(w: World, st: State, after: State, target: string, p: Portfolio, note: string, name: string)
    requires Commits(w, st, after, target, p, note)
    requires Apply(w, name, PublicView(st, name), note)
          == if target == name then PortfolioView(p) else PublicView(st, name)
    ensures Tracked(w, st, after, name)
  {
    CommittedView(w, st, after, target, p, note, name);
    OneNote(w, st, after, name, note);
  }

  lemma CreateTracked(w: World, st: State, sender: string, params: Params, newId: string, name: string)
    requires w.Sound() && Create(w, st, sender, params, newId).Success?
    ensures Tracked(w, st, Create(w, st, sender, params, newId).value.0, name)
  {
    var doc, p := CreateParts(w, st, sender, params, newId);
    var stored := doc.(id := newId);
    AddedView(Target(st, params[0]), doc, newId);
    ApplyCreated(w, name, PublicView(st, name), params[0], stored);
    CommitTracked(w, st, Create(w, st, sender, params, newId).value.0, params[0], p, CreatedNote(w, params[0], stored),
                  name);
  }

  lemma DeleteTracked(w: World, st: State, sender: string, params: Params, name: string)
    requires w.Sound() && Delete(w, st, sender, params).Success? && Good(w, st.wallet.portfolios)
    ensures Tracked(w, st, Delete(w, st, sender, params).value.0, name)
  {
    var doc, p := DeleteParts(w, st, sender, params);
    assert doc.id == params[1];
    RemovedView(Target(st, params[0]), doc.id);
    ApplyDeleted(w, name, PublicView(st, name), params[0], doc);
    CommitTracked(w, st, Delete(w, st, sender, params).value.0, params[0], p, DeletedNote(w, params[0], doc), name);
  }

  /** The notification shows the request's document, which looks like the merged one. */
  lemma UpdateTracked(w: World, st: State, sender: string, params: Params, name: string)
    requires w.Sound() && UpdateDocument(w, st, sender, params).Success? && Good(w, st.wallet.portfolios)
    ensures Tracked(w, st, UpdateDocument(w, st, sender, params).value.0, name)
  {
    var si, request, existing, merged, p := UpdateParts(w, st, sender, params);
    MergeIsFieldWise(si, existing);
    WithoutSecretShowsIdentity(merged, request);
    UpdatedView(Target(st, params[0]), merged);
    ApplyUpdated(w, name, PublicView(st, name), params[0], existing, request);
    CommitTracked(w, st, UpdateDocument(w, st, sender, params).value.0, params[0], p,
                  UpdatedNote(w, params[0], existing, request), name);
  }

  lemma NothingPublished(w: World, before: State, after: State, name: string)
    requires after.published == before.published && PublicView(after, name) == PublicView(before, name)
    ensures Tracked(w, before, after, name)
  {
    assert after.published[|before.published|..] == [];
  }

  lemma RequestTracked(w: World, st: State, sender: string, payload: seq<string>, newId: string, name: string)
    requires w.Sound() && Invariant(w, st)
    ensures Tracked(w, st, HandleRequest(w, st, sender, payload, newId).0, name)
  {
    NothingPublished(w, st, st, name);
    if payload != [] {
      var params := payload[1..];
      if payload[0] == CREATE && Create(w, st, sender, params, newId).Success? {
        CreateTracked(w, st, sender, params, newId, name);
      } else if payload[0] == DELETE && Delete(w, st, sender, params).Success? {
        DeleteTracked(w, st, sender, params, name);
      } else if payload[0] == UPDATE && UpdateDocument(w, st, sender, params).Success? {
        UpdateTracked(w, st, sender, params, name);
      }
    }
  }

  lemma MarkedShows(d: Doc)
    ensures WithoutSecret(MarkPrivate(d)) == WithoutSecret(d)
  {
  }

  lemma MarkedView(p: Portfolio)
    ensures PortfolioView(MarkAll(p)) == PortfolioView(p)
  {
    var marked := MarkAll(p).byId;
    forall id | id in p.byId ensures WithoutSecret(p.byId[id]) == WithoutSecret(marked[id]) {
      MarkedShows(p.byId[id]);
    }
    TransformSame(p.byId, marked, WithoutSecret);
  }

  lemma MarkedPublicView(st: State, after: State, name: string)
    requires after.wallet.portfolios == MarkEach(st.wallet.portfolios)
    ensures PublicView(after, name) == PublicView(st, name)
  {
    var ps := st.wallet.portfolios;
    SameNames(ps, MarkEach(ps), name);
    if HasPortfolio(ps, name) {
      MarkedView(Target(st, name));
    }
  }

  /** A restart changes nothing anyone may read without secrets, and publishes nothing. */
  lemma RestartTracked(w: World, st: State, name: string)
    requires w.Sound() && Invariant(w, st)
    ensures Tracked(w, st, Next(w, st, Restart), name)
  {
    var after := Next(w, st, Restart);
    RestartKeepsInvariant(w, st);
    MarkedPublicView(st, after, name);
    NothingPublished(w, st, after, name);
  }

  // ---------------------------------------------------------------- whole runs

  ghost predicate NoRestore(events: seq<Event>) {
    forall e | e in events :: !e.RestoreBackup?
  }

  lemma TrackedInTurn(w: World, a: State, b: State, c: State, name: string)
    requires Tracked(w, a, b, name) && Tracked(w, b, c, name)
    ensures Tracked(w, a, c, name)
  {
    var first, second := b.published[|a.published|..], c.published[|b.published|..];
    assert c.published[|a.published|..] == first + second;
    ApplyInTurn(w, name, PublicView(a, name), first, second);
  }

  lemma EventTracked(w: World, st: State, e: Event, name: string)
    requires w.Sound() && Invariant(w, st) && Legal(w, st, e) && !e.RestoreBackup?
    ensures Tracked(w, st, Next(w, st, e), name) && Invariant(w, Next(w, st, e))
  {
    EventKeepsInvariant(w, st, e);
    match e
    case Request(sender, payload, newId) => RequestTracked(w, st, sender, payload, newId, name);
    case Restart => RestartTracked(w, st, name);
  }

  /** Over any run of requests and restarts, applying the published notifications to the initial public
      view of a portfolio gives its final one. */
  lemma {:induction false} NotificationsTrackPublicView(w: World, st: State, events: seq<Event>, name: string)
    requires w.Sound() && Invariant(w, st) && LegalRun(w, st, events) && NoRestore(events)
    ensures Tracked(w, st, Run(w, st, events), name)
    decreases |events|
  {
    if events == [] {
      NothingPublished(w, st, st, name);
    } else {
      var next := Next(w, st, events[0]);
      EventTracked(w, st, events[0], name);
      NotificationsTrackPublicView(w, next, events[1..], name);
      TrackedInTurn(w, st, next, Run(w, st, events), name);
    }
  }
}
