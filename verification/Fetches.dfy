/** What a client's fetch gives, in terms of the entries of the configuration and of the stored documents. */
module Fetches {
  import opened ChangeReplies
  import opened Documents
  import opened Environment
  import opened Errors
  import opened ReadPaths
  import opened ReadReplies
  import opened ServerSteps
  import opened StepLaws
  import opened Wrappers

  /** An exception of one of these classes arrives at the client as it was thrown. */
  lemma RefusalArrives(w: World, frames: seq<string>, r: Refusal)
    requires w.Sound() && Refused(w, frames, r)
    requires r.code in {UnknownPortfolio, DocumentDoNotExist} || (r.code == IllegalAccess && r.extra == "")
    ensures var parsed := ParseDocument(w, frames);
            parsed.Failure? && parsed.error.code == r.code && parsed.error.extra == r.extra
  {
    var what :| frames == ["ERROR", w.toText(WriteError(SecwException(r.code, what, r.extra)))];
    var e := SecwException(r.code, what, r.extra);
    ErrorRoundTrip(e);
    assert w.fromText(w.toText(WriteError(e))) == Json(WriteError(e));
  }

  /** One fetch gives the stored document, marked, unless the read is barred; then the exception. */
  lemma FetchOneIs(w: World, st: State, client: string, name: string, id: string)
    requires w.Sound()
    ensures var fetched := Fetch(w, st, client, name, id);
            match SecretBarred(w, st, client, name, id, false)
            case None => fetched == Success(Target(st, name).byId[id].(containPrivateData := true))
            case Some(r) => fetched.Failure? && fetched.error.code == r.code && fetched.error.extra == r.extra
  {
    var payload := [GET_WITH_SECRET, name, id];
    SecretReply(w, st, client, payload, "");
    match SecretBarred(w, st, client, name, id, false)
    case None => DocumentAnswer(w, Target(st, name).byId[id]);
    case Some(r) => RefusalArrives(w, HandleRequest(w, st, client, payload, "").1, r);
  }

  /** The fetch by a list of ids goes on id by id: it adds what may be read, leaves out what does not exist or
      shares no consumer usage with the client, and ends at a portfolio that is not there. */
  lemma FetchAllGoesOn(w: World, st: State, client: string, name: string, ids: seq<string>, id: string)
    requires w.Sound() && FetchAll(w, st, client, name, ids).Success?
    ensures FetchAll(w, st, client, name, []) == Success([])
    ensures var before, all := FetchAll(w, st, client, name, ids).value, FetchAll(w, st, client, name, ids + [id]);
            match SecretBarred(w, st, client, name, id, false)
            case None => all == Success(before + [Target(st, name).byId[id].(containPrivateData := true)])
            case Some(r) =>
              if r.code == UnknownPortfolio then
                all.Failure? && all.error.code == UnknownPortfolio && all.error.extra == name
              else all == Success(before)
  {
    var more := ids + [id];
    assert more[..|more| - 1] == ids;
    FetchOneIs(w, st, client, name, id);
  }

  /** What a client makes of an answer that is not what it expects: an error without its data, a text that is no
      tree, a tree that is no document. */
  lemma MalformedAnswer(w: World, text: string)
    requires text != "ERROR"
    ensures ParseDocument(w, ["ERROR"]).Failure? && ParseDocument(w, ["ERROR"]).error.code == ProtocolError
    ensures w.fromText(text).BadJson? ==>
              ParseDocument(w, [text]).Failure? && ParseDocument(w, [text]).error.code == ProtocolError
    ensures w.fromText(text).Json? ==> ParseDocument(w, [text]) == Load(w.fromText(text).tree, None)
    ensures w.fromText(text).BadJson? ==> ParseDocument(w, ["ERROR", text]) == Failure(LIBRARY_ERROR)
  {
  }
}
