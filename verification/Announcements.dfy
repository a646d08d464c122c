/** What is announced of a change is what happened to the stored document. */
module Announcements {
  import opened Changes
  import opened DocumentLaws
  import opened Documents
  import opened Environment
  import opened Notifications
  import opened PortfolioLaws
  import opened Portfolios
  import opened Runs
  import opened Serialization
  import opened ServerSteps
  import opened StepLaws
  import opened UpdateFlags
  import opened Wallets
  import opened Wrappers

  /** The public view of the document of an id, void when there is none. */
  function ViewAt(p: Portfolio, id: string): Tree {
    if id in p.byId then WithoutSecret(p.byId[id]) else Void
  }

  /** The id a changing command is about. */
  function ChangedId(w: World, cmd: string, params: Params, newId: string): string {
    if cmd == "CREATE" then newId
    else if cmd == "DELETE" && |params| >= 2 then params[1]
    else if |params| >= 2 then RequestedId(w, params[1]).GetOr("")
    else ""
  }

  function ActionOf(cmd: string): string {
    if cmd == "CREATE" then "CREATED" else if cmd == "DELETE" then "DELETED" else "UPDATED"
  }

  /** The names of the members of a note. */
  function NoteNames(action: string): set<string> {
    {"action", "portfolio", "old_data", "new_data"}
    + if action == "UPDATED" then {"non_secret_changed", "secret_changed"} else {}
  }

  /** The members of a note about the document of an id; it has no others. */
  ghost predicate Announces(note: Tree, action: string, name: string, p: Portfolio, q: Portfolio, id: string) {
    && note.Object? && note.members.Keys == NoteNames(action)
    && FindText(note, "action") == Some(action) && FindText(note, "portfolio") == Some(name)
    && FindMember(note, "old_data") == Some(ViewAt(p, id)) && FindMember(note, "new_data") == Some(ViewAt(q, id))
  }

  /** The document a command leaves under that id: the one received under the new id, none, or the request
      merged into the one stored. */
  ghost predicate Stored(w: World, p: Portfolio, q: Portfolio, cmd: string, params: Params, id: string)
    requires |params| >= 2
  {
    if cmd == "DELETE" then id !in q.byId
    else
      && w.fromText(params[1]).Json? && id in q.byId
      && (var si := w.fromText(params[1]).tree;
          if cmd == "CREATE" then Load(si, None).Success? && q.byId[id] == Load(si, None).value.(id := id)
          else id in p.byId && Load(si, Some(p.byId[id])) == Success(q.byId[id]))
  }

  /** One step that changes something: the note it publishes, and the document it is about. */
  ghost predicate Told(w: World, st: State, after: State, cmd: string, params: Params, id: string, note: Tree) {
    && |params| >= 2 && HasPortfolio(st.wallet.portfolios, params[0])
    && HasPortfolio(after.wallet.portfolios, params[0])
    && after.published == st.published + [w.toText(note)]
    && Announces(note, ActionOf(cmd), params[0], Target(st, params[0]), Target(after, params[0]), id)
    && Stored(w, Target(st, params[0]), Target(after, params[0]), cmd, params, id)
  }

  lemma CreatedNames(name: string, data: Tree)
    ensures CreatedTree(name, data).Object? && CreatedTree(name, data).members.Keys == NoteNames("CREATED")
  {
  }

  lemma DeletedNames(name: string, data: Tree)
    ensures DeletedTree(name, data).Object? && DeletedTree(name, data).members.Keys == NoteNames("DELETED")
  {
  }

  lemma UpdatedNames(name: string, a: Tree, b: Tree, nonSecret: bool, secret: bool)
    ensures var note := UpdatedTree(name, a, b, nonSecret, secret);
            note.Object? && note.members.Keys == NoteNames("UPDATED")
  {
  }

  lemma CommitTold(w: World, st: State, after: State, cmd: string, params: Params, id: string, p: Portfolio,
                   note: Tree)
    requires |params| >= 2 && Commits(w, st, after, params[0], p, Serialize(w, note))
    requires Announces(note, ActionOf(cmd), params[0], Target(st, params[0]), p, id)
    requires Stored(w, Target(st, params[0]), p, cmd, params, id)
    ensures Told(w, st, after, cmd, params, id, note)
  {
    CommittedTarget(w, st, after, params[0], p, Serialize(w, note));
  }

  lemma CreateTold(w: World, st: State, sender: string, params: Params, newId: string) returns (note: Tree)
    requires Create(w, st, sender, params, newId).Success? && FreshId(st, [CREATE] + params, newId)
    ensures Told(w, st, Create(w, st, sender, params, newId).value.0, CREATE, params, newId, note)
  {
    var doc, p := CreateParts(w, st, sender, params, newId);
    assert ([CREATE] + params)[1] == params[0];
    var stored := doc.(id := newId);
    note := CreatedTree(params[0], WithoutSecret(stored));
    AddPuts(Target(st, params[0]), doc, newId);
    RequestReads(w, params[1]);
    CreatedMembers(params[0], WithoutSecret(stored));
    CreatedNames(params[0], WithoutSecret(stored));
    CommitTold(w, st, Create(w, st, sender, params, newId).value.0, CREATE, params, newId, p, note);
  }

  lemma RequestReads(w: World, json: string)
    requires ReadRequest(w, json).Success?
    ensures w.fromText(json) == Json(ReadRequest(w, json).value.0)
    ensures Load(ReadRequest(w, json).value.0, None) == Success(ReadRequest(w, json).value.1)
  {
  }

  lemma RemoveErases(p: Portfolio, id: string)
    requires Remove(p, id).Success?
    ensures id in p.byId && id !in Remove(p, id).value.byId
  {
  }

  lemma DeleteTold(w: World, st: State, sender: string, params: Params) returns (note: Tree)
    requires Delete(w, st, sender, params).Success?
    ensures |params| >= 2 && Told(w, st, Delete(w, st, sender, params).value.0, DELETE, params, params[1], note)
  {
    var doc, p := DeleteParts(w, st, sender, params);
    note := DeletedTree(params[0], WithoutSecret(doc));
    RemoveErases(Target(st, params[0]), params[1]);
    DeletedMembers(params[0], WithoutSecret(doc));
    DeletedNames(params[0], WithoutSecret(doc));
    CommitTold(w, st, Delete(w, st, sender, params).value.0, DELETE, params, params[1], p, note);
  }

  lemma UpdatePuts(p: Portfolio, d: Doc)
    requires Update(p, d).Success?
    ensures var q := Update(p, d).value; d.id in q.byId && q.byId[d.id] == d
  {
  }

  /** The update of one document shows the merge. */
  lemma UpdateAnnounces(w: World, name: string, p: Portfolio, q: Portfolio, si: Tree, request: Doc, existing: Doc,
                        merged: Doc)
    requires GetDocument(p, request.id) == Success(existing) && Update(p, merged) == Success(q)
    requires Load(si, None) == Success(request) && Load(si, Some(existing)) == Success(merged)
    ensures merged.id == request.id && request.id in q.byId && q.byId[request.id] == merged
    ensures Announces(PublishedTree(w, name, existing, request), "UPDATED", name, p, q, request.id)
  {
    MergeIsFieldWise(si, existing);
    WithoutSecretShowsIdentity(merged, request);
    UpdatePuts(p, merged);
    UpdatedMembers(name, WithoutSecret(existing), WithoutSecret(request),
                   !NonSecretEquals(w, request, existing), !SecretEquals(w, request, existing));
    UpdatedNames(name, WithoutSecret(existing), WithoutSecret(request),
                 !NonSecretEquals(w, request, existing), !SecretEquals(w, request, existing));
  }

  lemma UpdateTold(w: World, st: State, sender: string, params: Params) returns (note: Tree)
    requires UpdateDocument(w, st, sender, params).Success?
    ensures |params| >= 2 && RequestedId(w, params[1]).Some?
    ensures Told(w, st, UpdateDocument(w, st, sender, params).value.0, UPDATE, params, RequestedId(w, params[1]).value,
                 note)
  {
    var si, request, existing, merged, p := UpdateParts(w, st, sender, params);
    note := PublishedTree(w, params[0], existing, request);
    RequestReads(w, params[1]);
    UpdateAnnounces(w, params[0], Target(st, params[0]), p, si, request, existing, merged);
    CommitTold(w, st, UpdateDocument(w, st, sender, params).value.0, UPDATE, params, request.id, p, note);
  }

  lemma StepTold(w: World, st: State, sender: string, cmd: string, params: Params, newId: string, after: State,
                 text: string) returns (note: Tree)
    requires IsChangeCommand(cmd) && FreshId(st, [cmd] + params, newId)
    requires Dispatch(w, st, sender, cmd, params, newId) == Success((after, text))
    ensures Told(w, st, after, cmd, params, ChangedId(w, cmd, params, newId), note)
  {
    if cmd == CREATE {
      note := CreateTold(w, st, sender, params, newId);
    } else if cmd == DELETE {
      note := DeleteTold(w, st, sender, params);
    } else {
      note := UpdateTold(w, st, sender, params);
    }
  }

  lemma Stepped(w: World, st: State, sender: string, payload: seq<string>, newId: string, after: State,
                frames: seq<string>)
    requires HandleRequest(w, st, sender, payload, newId) == (after, frames) && |frames| == 1
    ensures payload != [] && payload == [payload[0]] + payload[1..]
    ensures Dispatch(w, st, sender, payload[0], payload[1..], newId) == Success((after, frames[0]))
  {
    ReplyIs(w, st, sender, payload, newId);
  }

  /** A change that succeeds leaves under the id it is about the document received, merged or none, publishes one
      note, and the note shows the public views of that id before and after. */
  lemma ChangeAnnounced(w: World, st: State, sender: string, payload: seq<string>, newId: string, after: State,
                        frames: seq<string>) returns (note: Tree)
    requires payload != [] && payload[0] in {"CREATE", "DELETE", "UPDATE"} && FreshId(st, payload, newId)
    requires HandleRequest(w, st, sender, payload, newId) == (after, frames) && |frames| == 1
    ensures Told(w, st, after, payload[0], payload[1..], ChangedId(w, payload[0], payload[1..], newId), note)
  {
    Stepped(w, st, sender, payload, newId, after, frames);
    note := StepTold(w, st, sender, payload[0], payload[1..], newId, after, frames[0]);
  }
}
