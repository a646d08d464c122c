/** What each changing command answers, for every payload: the first condition that bars it, or success. */
module ChangeReplies {
  import opened DocumentLaws
  import opened Documents
  import opened Environment
  import opened Errors
  import opened Grants
  import opened Portfolios
  import opened ReadPaths
  import opened Serialization
  import opened ServerSteps
  import opened StepLaws
  import opened Wallets
  import opened Wrappers

  /** An exception by its class and that class's own field. */
  datatype Refusal = Refusal(code: ErrorCode, extra: string)

  /** An error reply that carries such an exception. */
  ghost predicate Refused(w: World, frames: seq<string>, r: Refusal) {
    exists what: string :: frames == ["ERROR", w.toText(WriteError(SecwException(r.code, what, r.extra)))]
  }

  ghost predicate Answers(w: World, frames: seq<string>, r: Option<Refusal>, reply: string) {
    match r
    case None => frames == [reply]
    case Some(refusal) => Refused(w, frames, refusal)
  }

  // ---------------------------------------------------------------- what bars a change

  /** Common to the three: a portfolio that is configured, and some usage to produce in it. */
  ghost function Barred(w: World, st: State, sender: string, name: string): Option<Refusal> {
    if name !in st.wallet.configurations then Some(Refusal(UnknownPortfolio, name))
    else if !exists u :: Produces(w, st, name, sender, u) then Some(Refusal(IllegalAccess, ""))
    else if !HasPortfolio(st.wallet.portfolios, name) then Some(Refusal(UnknownPortfolio, name))
    else None
  }

  ghost function CreateBarred(w: World, st: State, sender: string, name: string, json: string): Option<Refusal> {
    if Barred(w, st, sender, name).Some? then Barred(w, st, sender, name)
    else
      match w.fromText(json)
      case BadJson(_) => Some(Refusal(ProtocolError, ""))
      case Json(si) =>
        match Load(si, None)
        case Failure(e) => Some(Refusal(e.code, e.extra))
        case Success(d) =>
          if !IsValid(w, d) then Some(Refusal(InvalidDocumentFormat, Validate(w, d).error.extra))
          else if exists u :: u in d.usages && !Produces(w, st, name, sender, u) then Some(Refusal(IllegalAccess, ""))
          else if d.name in Target(st, name).byName then Some(Refusal(NameAlreadyExists, d.name))
          else None
  }

  ghost function DeleteBarred(w: World, st: State, sender: string, name: string, id: string): Option<Refusal> {
    if Barred(w, st, sender, name).Some? then Barred(w, st, sender, name)
    else if id !in Target(st, name).byId then Some(Refusal(DocumentDoNotExist, id))
    else if exists u :: u in Target(st, name).byId[id].usages && !Produces(w, st, name, sender, u) then
      Some(Refusal(IllegalAccess, ""))
    else None
  }

  /** Of the usages only those that change must be held; the result of the merge must be valid, and its name
      the former one or free. */
  ghost function UpdateBarred(w: World, st: State, sender: string, name: string, json: string): Option<Refusal> {
    if Barred(w, st, sender, name).Some? then Barred(w, st, sender, name)
    else
      match w.fromText(json)
      case BadJson(_) => Some(Refusal(ProtocolError, ""))
      case Json(si) =>
        match Load(si, None)
        case Failure(e) => Some(Refusal(e.code, e.extra))
        case Success(r) => MergeBarred(w, st, sender, name, si, r)
  }

  ghost function MergeBarred(w: World, st: State, sender: string, name: string, si: Tree, r: Doc): Option<Refusal>
    requires HasPortfolio(st.wallet.portfolios, name) && Load(si, None) == Success(r)
  {
    var p := Target(st, name);
    if r.id !in p.byId then Some(Refusal(DocumentDoNotExist, r.id))
    else
      var d := p.byId[r.id];
      if MergeRefused(w, st, sender, name, si, r, d).Some? then MergeRefused(w, st, sender, name, si, r, d)
      else if r.name != d.name && r.name in p.byName then Some(Refusal(NameAlreadyExists, r.name))
      else None
  }

  ghost function MergeRefused(w: World, st: State, sender: string, name: string, si: Tree, r: Doc, d: Doc)
    : Option<Refusal>
    requires Load(si, None) == Success(r)
  {
    if exists u :: (u in r.usages) != (u in d.usages) && !Produces(w, st, name, sender, u) then
      Some(Refusal(IllegalAccess, ""))
    else if TypeOf(d.content) != TypeOf(r.content) then Some(Refusal(InvalidDocumentFormat, "secw_doc_type"))
    else if d.id != r.id then Some(Refusal(InvalidDocumentFormat, "secw_doc_id"))
    else
      MergeSucceeds(si, d);
      var merged := Load(si, Some(d)).value;
      if !IsValid(w, merged) then Some(Refusal(InvalidDocumentFormat, Validate(w, merged).error.extra))
      else None
  }

  // ---------------------------------------------------------------- the steps meet the tables

  /** A step that fails answers its exception, one that succeeds its text. */
  ghost predicate Fits<T>(r: Reading<T>, barred: Option<Refusal>) {
    match r
    case Success(_) => barred == None
    case Failure(e) => barred == Some(Refusal(e.code, e.extra))
  }

  lemma OpenFits(w: World, st: State, sender: string, params: Params)
    requires |params| >= 2
    ensures Fits(OpenForChange(w, st, sender, params), Barred(w, st, sender, params[0]))
    ensures OpenForChange(w, st, sender, params).Success? ==>
              OpenForChange(w, st, sender, params).value
              == (Producible(w, st, params[0], sender), FirstNamed(st.wallet.portfolios, params[0]))
  {
    SomeProduced(w, st, params[0], sender);
  }

  lemma CheckFits(w: World, st: State, sender: string, name: string, usages: set<string>)
    ensures var check := CheckUsages(usages, Producible(w, st, name, sender));
            && (check.Pass? <==> !exists u :: u in usages && !Produces(w, st, name, sender, u))
            && (check.Fail? ==> check.error.code == IllegalAccess && check.error.extra == "")
  {
    GrantedByEntries(w, st, name, sender);
    WithinUsages(usages, Producible(w, st, name, sender));
  }

  lemma CreateFits(w: World, st: State, sender: string, params: Params, newId: string)
    requires |params| >= 2
    ensures Fits(Create(w, st, sender, params, newId), CreateBarred(w, st, sender, params[0], params[1]))
    ensures Create(w, st, sender, params, newId).Success? ==> Create(w, st, sender, params, newId).value.1 == newId
  {
    OpenFits(w, st, sender, params);
    if Barred(w, st, sender, params[0]) == None && w.fromText(params[1]).Json? {
      var loaded := Load(w.fromText(params[1]).tree, None);
      if loaded.Success? {
        CheckFits(w, st, sender, params[0], loaded.value.usages);
        ValidationCode(w, loaded.value);
      }
    }
  }

  lemma ValidationCode(w: World, d: Doc)
    ensures !IsValid(w, d) ==> Validate(w, d).error.code == InvalidDocumentFormat
  {
  }

  lemma DeleteFits(w: World, st: State, sender: string, params: Params)
    requires |params| >= 2
    ensures Fits(Delete(w, st, sender, params), DeleteBarred(w, st, sender, params[0], params[1]))
    ensures Delete(w, st, sender, params).Success? ==> Delete(w, st, sender, params).value.1 == "OK"
  {
    OpenFits(w, st, sender, params);
    if Barred(w, st, sender, params[0]) == None && params[1] in Target(st, params[0]).byId {
      CheckFits(w, st, sender, params[0], Target(st, params[0]).byId[params[1]].usages);
    }
  }

  /** A request that parses on its own is refused by a stored document for its type, then for its id. */
  lemma MergeRefusal(si: Tree, d: Doc)
    requires Load(si, None).Success?
    ensures var r := Load(si, None).value;
            Load(si, Some(d)).Failure? ==>
              Load(si, Some(d)) == Failure(InvalidFormatError(
                if TypeOf(d.content) != TypeOf(r.content) then "secw_doc_type" else "secw_doc_id"))
              && (TypeOf(d.content) == TypeOf(r.content) ==> d.id != r.id)
  {
    MergeSucceeds(si, d);
    LoadedIdentity(si);
  }

  lemma LoadedIdentity(si: Tree)
    requires Load(si, None).Success?
    ensures var r := Load(si, None).value;
            FindText(si, DOC_TYPE_ENTRY) == Some(TypeOf(r.content)) && FindText(si, DOC_ID_ENTRY) == Some(r.id)
  {
    var docType, id := FindText(si, DOC_TYPE_ENTRY).value, FindText(si, DOC_ID_ENTRY).value;
    var publicEntry := FindMember(si, DOC_PUBLIC_ENTRY).value;
    BlankHasType(docType);
    var start := StartingFrom(docType, id, None).value;
    OpenPartsIgnoreStart(start, start, si, publicEntry);
    var open := ReadOpenParts(start, si, publicEntry).value;
    if FindMember(si, DOC_PRIVATE_ENTRY).Some? {
      ReadSecretFields(open.content, open.content, FindMember(si, DOC_PRIVATE_ENTRY).value);
    }
  }

  /** The usages checked are those in which request and stored document differ. */
  lemma ChangedFits(w: World, st: State, sender: string, name: string, a: set<string>, b: set<string>)
    ensures var check := CheckUsages(SymmetricDifference(a, b), Producible(w, st, name, sender));
            && (check.Pass? <==> !exists u :: (u in a) != (u in b) && !Produces(w, st, name, sender, u))
            && (check.Fail? ==> check.error.code == IllegalAccess && check.error.extra == "")
  {
    CheckFits(w, st, sender, name, SymmetricDifference(a, b));
    forall u ensures u in SymmetricDifference(a, b) <==> (u in a) != (u in b) {}
  }

  lemma MergedFits(w: World, st: State, sender: string, name: string, si: Tree, r: Doc, d: Doc)
    requires Load(si, None) == Success(r)
    ensures var merged := MergeRequest(w, d, si, r, Producible(w, st, name, sender));
            && Fits(merged, MergeRefused(w, st, sender, name, si, r, d))
            && (merged.Success? ==>
                  merged == Load(si, Some(d)) && merged.value.id == r.id && merged.value.name == r.name)
  {
    ChangedFits(w, st, sender, name, r.usages, d.usages);
    MergeSucceeds(si, d);
    MergeRefusal(si, d);
    if Load(si, Some(d)).Success? {
      ValidationCode(w, Load(si, Some(d)).value);
      MergeIsFieldWise(si, d);
      WithoutSecretShowsIdentity(Load(si, Some(d)).value, r);
    }
  }

  /** The merge is stored unless it takes another name that is in use. */
  lemma RenameFits(p: Portfolio, d: Doc, merged: Doc)
    requires merged.id in p.byId && d == p.byId[merged.id]
    ensures Update(p, merged).Success? <==> merged.name == d.name || merged.name !in p.byName
    ensures Update(p, merged).Failure? ==> Update(p, merged) == Failure(NameAlreadyExistsError(merged.name))
  {
  }

  lemma UpdateInFits(w: World, st: State, sender: string, name: string, json: string, si: Tree, r: Doc)
    requires HasPortfolio(st.wallet.portfolios, name) && w.fromText(json) == Json(si) && Load(si, None) == Success(r)
    ensures var k := FirstNamed(st.wallet.portfolios, name);
            var step := UpdateIn(w, st, k, Producible(w, st, name, sender), name, json);
            && Fits(step, MergeBarred(w, st, sender, name, si, r))
            && (step.Success? ==> step.value.1 == "OK")
  {
    var p := Target(st, name);
    if r.id in p.byId {
      var d := p.byId[r.id];
      MergedFits(w, st, sender, name, si, r, d);
      var merged := MergeRequest(w, d, si, r, Producible(w, st, name, sender));
      if merged.Success? {
        RenameFits(p, d, merged.value);
      }
    }
  }

  lemma UpdateFits(w: World, st: State, sender: string, params: Params)
    requires |params| >= 2
    ensures Fits(UpdateDocument(w, st, sender, params), UpdateBarred(w, st, sender, params[0], params[1]))
    ensures UpdateDocument(w, st, sender, params).Success? ==> UpdateDocument(w, st, sender, params).value.1 == "OK"
  {
    OpenFits(w, st, sender, params);
    if Barred(w, st, sender, params[0]) == None && w.fromText(params[1]).Json? {
      var si := w.fromText(params[1]).tree;
      if Load(si, None).Success? {
        UpdateInFits(w, st, sender, params[0], params[1], si, Load(si, None).value);
      }
    }
  }

  // ---------------------------------------------------------------- the replies

  lemma DispatchReply(w: World, st: State, sender: string, payload: seq<string>, newId: string)
    requires payload != [] && payload[0] != "ERROR" && payload[0] != "OK"
    ensures var frames := HandleRequest(w, st, sender, payload, newId).1;
            match Dispatch(w, st, sender, payload[0], payload[1..], newId)
            case Success((_, text)) => frames == [text]
            case Failure(e) => Refused(w, frames, Refusal(e.code, e.extra))
  {
    match Dispatch(w, st, sender, payload[0], payload[1..], newId)
    case Success(_) =>
    case Failure(e) =>
      assert e == SecwException(e.code, e.what, e.extra);
      assert HandleRequest(w, st, sender, payload, newId).1
             == ["ERROR", w.toText(WriteError(SecwException(e.code, e.what, e.extra)))];
  }

  lemma TooShort(w: World, st: State, sender: string, params: Params)
    requires |params| < 2
    ensures OpenForChange(w, st, sender, params) == Failure(BadArgumentError("Command need 2 arguments"))
  {
  }

  /** A create answers the new id unless it is barred. */
  lemma CreateReply(w: World, st: State, sender: string, payload: seq<string>, newId: string)
    requires payload != [] && payload[0] == "CREATE"
    ensures var frames := HandleRequest(w, st, sender, payload, newId).1;
            if |payload| < 3 then Refused(w, frames, Refusal(BadCommandArgument, ""))
            else Answers(w, frames, CreateBarred(w, st, sender, payload[1], payload[2]), newId)
  {
    DispatchReply(w, st, sender, payload, newId);
    if |payload| < 3 {
      TooShort(w, st, sender, payload[1..]);
    } else {
      CreateFits(w, st, sender, payload[1..], newId);
    }
  }

  lemma DeleteReply(w: World, st: State, sender: string, payload: seq<string>, newId: string)
    requires payload != [] && payload[0] == "DELETE"
    ensures var frames := HandleRequest(w, st, sender, payload, newId).1;
            if |payload| < 3 then Refused(w, frames, Refusal(BadCommandArgument, ""))
            else Answers(w, frames, DeleteBarred(w, st, sender, payload[1], payload[2]), "OK")
  {
    DispatchReply(w, st, sender, payload, newId);
    if |payload| < 3 {
      TooShort(w, st, sender, payload[1..]);
    } else {
      DeleteFits(w, st, sender, payload[1..]);
    }
  }

  lemma UpdateReply(w: World, st: State, sender: string, payload: seq<string>, newId: string)
    requires payload != [] && payload[0] == "UPDATE"
    ensures var frames := HandleRequest(w, st, sender, payload, newId).1;
            if |payload| < 3 then Refused(w, frames, Refusal(BadCommandArgument, ""))
            else Answers(w, frames, UpdateBarred(w, st, sender, payload[1], payload[2]), "OK")
  {
    DispatchReply(w, st, sender, payload, newId);
    if |payload| < 3 {
      TooShort(w, st, sender, payload[1..]);
    } else {
      UpdateFits(w, st, sender, payload[1..]);
    }
  }

  /** For a request that parses, an update succeeds exactly when the portfolio is configured and there, the
      sender may produce some usage of it, the document is stored under its id and type, the sender holds every
      usage that changes, the merge is valid, and its name is the former one or free. */
  lemma UpdateSucceedsIff(w: World, st: State, sender: string, name: string, json: string, si: Tree, r: Doc,
                          newId: string)
    requires w.fromText(json) == Json(si) && Load(si, None) == Success(r)
    ensures HandleRequest(w, st, sender, ["UPDATE", name, json], newId).1 == ["OK"] <==>
            && name in st.wallet.configurations && HasPortfolio(st.wallet.portfolios, name)
            && (exists u :: Produces(w, st, name, sender, u))
            && r.id in Target(st, name).byId
            && (var p, d := Target(st, name), Target(st, name).byId[r.id];
                && (forall u | (u in r.usages) != (u in d.usages) :: Produces(w, st, name, sender, u))
                && TypeOf(d.content) == TypeOf(r.content) && d.id == r.id
                && Load(si, Some(d)).Success? && IsValid(w, Load(si, Some(d)).value)
                && (r.name == d.name || r.name !in p.byName))
  {
    UpdateReply(w, st, sender, ["UPDATE", name, json], newId);
    if HasPortfolio(st.wallet.portfolios, name) && r.id in Target(st, name).byId {
      MergeSucceeds(si, Target(st, name).byId[r.id]);
    }
  }
}
