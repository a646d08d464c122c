/** What each reading command answers, for every payload: the first condition that bars it, or what is read. */
module ReadReplies {
  import opened ChangeReplies
  import opened Documents
  import opened Environment
  import opened Errors
  import opened Grants
  import opened Ordering
  import opened Portfolios
  import opened ReadPaths
  import opened Serialization
  import opened ServerSteps
  import opened StepLaws
  import opened Wallets
  import opened Wrappers

  // ---------------------------------------------------------------- one document

  /** The index a document is looked up in, and the exception when it is not there. */
  function IndexOf(p: Portfolio, byName: bool): map<string, Doc> {
    if byName then p.byName else p.byId
  }

  function Missing(key: string, byName: bool): Refusal {
    Refusal(if byName then NameDoesNotExist else DocumentDoNotExist, key)
  }

  ghost function SecretBarred(w: World, st: State, sender: string, name: string, key: string, byName: bool)
    : Option<Refusal>
  {
    if name !in st.wallet.configurations then Some(Refusal(UnknownPortfolio, name))
    else if !exists u :: Consumes(w, st, name, sender, u) then Some(Refusal(IllegalAccess, ""))
    else if !HasPortfolio(st.wallet.portfolios, name) then Some(Refusal(UnknownPortfolio, name))
    else if key !in IndexOf(Target(st, name), byName) then Some(Missing(key, byName))
    else if !exists u :: u in IndexOf(Target(st, name), byName)[key].usages && Consumes(w, st, name, sender, u) then
      Some(Refusal(IllegalAccess, ""))
    else None
  }

  /** Anyone may read a document without its secret. */
  function OpenBarred(st: State, name: string, key: string, byName: bool): Option<Refusal> {
    if !HasPortfolio(st.wallet.portfolios, name) then Some(Refusal(UnknownPortfolio, name))
    else if key !in IndexOf(Target(st, name), byName) then Some(Missing(key, byName))
    else None
  }

  /** What a read of one document answers when nothing bars it. */
  function DocumentText(w: World, st: State, name: string, key: string, byName: bool, secret: bool): string {
    if HasPortfolio(st.wallet.portfolios, name) && key in IndexOf(Target(st, name), byName) then
      var d := IndexOf(Target(st, name), byName)[key];
      w.toText(if secret then WithSecret(d) else WithoutSecret(d))
    else ""
  }

  /** The answer of a step that only reads. */
  ghost predicate Gives(r: Reading<string>, barred: Option<Refusal>, text: string) {
    match barred
    case None => r == Success(text)
    case Some(refusal) => r.Failure? && refusal == Refusal(r.error.code, r.error.extra)
  }

  lemma SecretOpens(w: World, st: State, sender: string, name: string, key: string, byName: bool)
    requires name in st.wallet.configurations && HasPortfolio(st.wallet.portfolios, name)
    requires Consumable(w, st, name, sender) != {}
    ensures var index, r := IndexOf(Target(st, name), byName), GetWithSecret(w, st, sender, [name, key], byName);
            if key !in index then r.Failure? && Refusal(r.error.code, r.error.extra) == Missing(key, byName)
            else if Consumable(w, st, name, sender) * index[key].usages == {} then
              r.Failure? && Refusal(r.error.code, r.error.extra) == Refusal(IllegalAccess, "")
            else r == Success(w.toText(WithSecret(index[key])))
  {
  }

  lemma SecretCloses(w: World, st: State, sender: string, name: string, key: string, byName: bool)
    requires name !in st.wallet.configurations || Consumable(w, st, name, sender) == {}
             || !HasPortfolio(st.wallet.portfolios, name)
    ensures var r := GetWithSecret(w, st, sender, [name, key], byName);
            r.Failure? && Refusal(r.error.code, r.error.extra)
                          == if name in st.wallet.configurations && Consumable(w, st, name, sender) == {} then
                               Refusal(IllegalAccess, "")
                             else Refusal(UnknownPortfolio, name)
  {
  }

  lemma SecretGives(w: World, st: State, sender: string, name: string, key: string, byName: bool)
    ensures Gives(GetWithSecret(w, st, sender, [name, key], byName), SecretBarred(w, st, sender, name, key, byName),
                  DocumentText(w, st, name, key, byName, true))
  {
    SomeConsumed(w, st, name, sender, {});
    if name in st.wallet.configurations && HasPortfolio(st.wallet.portfolios, name)
       && Consumable(w, st, name, sender) != {} {
      SecretOpens(w, st, sender, name, key, byName);
      if key in IndexOf(Target(st, name), byName) {
        SomeConsumed(w, st, name, sender, IndexOf(Target(st, name), byName)[key].usages);
      }
    } else {
      SecretCloses(w, st, sender, name, key, byName);
    }
  }

  lemma OpenGives(w: World, st: State, name: string, key: string, byName: bool)
    ensures Gives(GetWithoutSecret(w, st, [name, key], byName), OpenBarred(st, name, key, byName),
                  DocumentText(w, st, name, key, byName, false))
  {
  }

  lemma ReadAnswers(w: World, st: State, sender: string, payload: seq<string>, newId: string,
                    barred: Option<Refusal>, text: string)
    requires payload != [] && payload[0] !in {"ERROR", "OK", CREATE, DELETE, UPDATE}
    requires Gives(DispatchRead(w, st, sender, payload[0], payload[1..]), barred, text)
    ensures Answers(w, HandleRequest(w, st, sender, payload, newId).1, barred, text)
  {
    DispatchReply(w, st, sender, payload, newId);
  }

  const BAD_COUNT := Some(Refusal(BadCommandArgument, ""))

  /** The two reads with secret: by an entry of the configuration that grants a usage of the document. */
  lemma SecretReply(w: World, st: State, sender: string, payload: seq<string>, newId: string)
    requires payload != [] && payload[0] in {"GET_WITH_SECRET", "GET_WITH_SECRET_BY_NAME"}
    ensures var byName := payload[0] == "GET_WITH_SECRET_BY_NAME";
            var frames := HandleRequest(w, st, sender, payload, newId).1;
            if |payload| != 3 then Answers(w, frames, BAD_COUNT, "")
            else Answers(w, frames, SecretBarred(w, st, sender, payload[1], payload[2], byName),
                         DocumentText(w, st, payload[1], payload[2], byName, true))
  {
    var byName := payload[0] == "GET_WITH_SECRET_BY_NAME";
    if |payload| != 3 {
      ReadAnswers(w, st, sender, payload, newId, BAD_COUNT, "");
    } else {
      var name, key := payload[1], payload[2];
      assert payload[1..] == [name, key];
      SecretGives(w, st, sender, name, key, byName);
      ReadAnswers(w, st, sender, payload, newId, SecretBarred(w, st, sender, name, key, byName),
                  DocumentText(w, st, name, key, byName, true));
    }
  }

  lemma OpenReply(w: World, st: State, sender: string, payload: seq<string>, newId: string)
    requires payload != [] && payload[0] in {"GET_WITHOUT_SECRET", "GET_WITHOUT_SECRET_BY_NAME"}
    ensures var byName := payload[0] == "GET_WITHOUT_SECRET_BY_NAME";
            var frames := HandleRequest(w, st, sender, payload, newId).1;
            if |payload| != 3 then Answers(w, frames, BAD_COUNT, "")
            else Answers(w, frames, OpenBarred(st, payload[1], payload[2], byName),
                         DocumentText(w, st, payload[1], payload[2], byName, false))
  {
    var byName := payload[0] == "GET_WITHOUT_SECRET_BY_NAME";
    if |payload| != 3 {
      ReadAnswers(w, st, sender, payload, newId, BAD_COUNT, "");
    } else {
      var name, key := payload[1], payload[2];
      assert payload[1..] == [name, key];
      OpenGives(w, st, name, key, byName);
      ReadAnswers(w, st, sender, payload, newId, OpenBarred(st, name, key, byName),
                  DocumentText(w, st, name, key, byName, false));
    }
  }

  // ---------------------------------------------------------------- lists

  /** The documents of `chosen`, in the order of their ids. */
  ghost predicate InOrder(p: Portfolio, ids: seq<string>, chosen: Doc -> bool) {
    && Sorted(ids)
    && (forall id :: id in ids <==> id in p.byId && chosen(p.byId[id]))
  }

  function At(p: Portfolio, ids: seq<string>): seq<Doc>
    requires forall id | id in ids :: id in p.byId
  {
    seq(|ids|, i requires 0 <= i < |ids| => p.byId[ids[i]])
  }

  function View(d: Doc, secret: bool): Tree {
    if secret then WithSecret(d) else WithoutSecret(d)
  }

  /** A list of trees made of exactly those documents. */
  ghost predicate Lists(w: World, text: string, p: Portfolio, chosen: Doc -> bool, secret: bool) {
    exists ids: seq<string> ::
      && InOrder(p, ids, chosen)
      && text == w.toText(Array(seq(|ids|, i requires 0 <= i < |ids| => View(p.byId[ids[i]], secret))))
  }

  ghost predicate Sorted(ids: seq<string>) {
    forall i, j | 0 <= i < j < |ids| :: Below(ids[i], ids[j])
  }

  lemma SortedAppend(ids: seq<string>, last: string)
    requires Sorted(ids) && forall id | id in ids :: Below(id, last)
    ensures Sorted(ids + [last])
  {
  }

  lemma SortedSplit(ids: seq<string>)
    requires Sorted(ids) && ids != []
    ensures var n := |ids| - 1; Sorted(ids[..n]) && forall id | id in ids[..n] :: Below(id, ids[n])
    ensures forall id :: id in ids <==> id in ids[..|ids| - 1] || id == ids[|ids| - 1]
  {
    assert ids == ids[..|ids| - 1] + [ids[|ids| - 1]];
  }

  lemma SharingLast(p: Portfolio, ids: seq<string>, usages: set<string>)
    requires ids != [] && forall id | id in ids :: id in p.byId
    ensures var n := |ids| - 1;
            Sharing(At(p, ids), usages)
            == Sharing(At(p, ids[..n]), usages) + if p.byId[ids[n]].usages * usages != {} then [p.byId[ids[n]]] else []
  {
    assert At(p, ids)[..|ids| - 1] == At(p, ids[..|ids| - 1]);
  }

  lemma {:induction false} SharingAt(p: Portfolio, ids: seq<string>, usages: set<string>) returns (kept: seq<string>)
    requires Sorted(ids) && forall id | id in ids :: id in p.byId
    ensures Sorted(kept)
    ensures forall id :: id in kept <==> id in ids && p.byId[id].usages * usages != {}
    ensures Sharing(At(p, ids), usages) == At(p, kept)
    decreases |ids|
  {
    if ids == [] {
      kept := [];
    } else {
      var last := ids[|ids| - 1];
      SortedSplit(ids);
      SharingLast(p, ids, usages);
      kept := SharingAt(p, ids[..|ids| - 1], usages);
      if p.byId[last].usages * usages != {} {
        SortedAppend(kept, last);
        assert At(p, kept + [last]) == At(p, kept) + [p.byId[last]];
        kept := kept + [last];
      }
    }
  }

  lemma Listed(p: Portfolio)
    ensures InOrder(p, Ascending(p.byId.Keys), _ => true)
    ensures ListDocuments(p) == At(p, Ascending(p.byId.Keys))
  {
    AscendingIsSorted(p.byId.Keys);
  }

  lemma ViewsAt(p: Portfolio, ids: seq<string>)
    requires forall id | id in ids :: id in p.byId
    ensures WriteList(At(p, ids)) == seq(|ids|, i requires 0 <= i < |ids| => View(p.byId[ids[i]], true))
    ensures WriteOpenList(At(p, ids)) == seq(|ids|, i requires 0 <= i < |ids| => View(p.byId[ids[i]], false))
  {
  }

  lemma SharingLists(w: World, p: Portfolio, usages: set<string>, chosen: Doc -> bool)
    requires forall d: Doc :: chosen(d) <==> d.usages * usages != {}
    ensures Lists(w, PrivateList(w, p, usages), p, chosen, true)
    ensures usages != {} ==> Lists(w, PublicList(w, p, usages), p, chosen, false)
  {
    Listed(p);
    var kept := SharingAt(p, Ascending(p.byId.Keys), usages);
    ViewsAt(p, kept);
    assert InOrder(p, kept, chosen);
  }

  /** The usage a list is asked for, if it is not the empty text. */
  function AskedFor(payload: seq<string>): string {
    if |payload| >= 3 then payload[2] else ""
  }

  ghost function SecretListBarred(w: World, st: State, sender: string, name: string, usage: string): Option<Refusal> {
    if name !in st.wallet.configurations then Some(Refusal(UnknownPortfolio, name))
    else if !exists u :: Consumes(w, st, name, sender, u) then Some(Refusal(IllegalAccess, ""))
    else if usage != "" && !Consumes(w, st, name, sender, usage) then Some(Refusal(IllegalAccess, ""))
    else if !HasPortfolio(st.wallet.portfolios, name) then Some(Refusal(UnknownPortfolio, name))
    else None
  }

  function OpenListBarred(st: State, name: string, usage: string): Option<Refusal> {
    if name !in st.wallet.configurations then Some(Refusal(UnknownPortfolio, name))
    else if usage != "" && usage !in st.wallet.configurations[name].usages then Some(Refusal(UnknownUsageId, usage))
    else if !HasPortfolio(st.wallet.portfolios, name) then Some(Refusal(UnknownPortfolio, name))
    else None
  }

  lemma SecretListGives(w: World, st: State, sender: string, params: Params)
    requires |params| >= 1
    ensures var usage, barred := AskedUsage(params), SecretListBarred(w, st, sender, params[0], AskedUsage(params));
            var asked := if usage == "" then Consumable(w, st, params[0], sender) else {usage};
            Gives(GetListWithSecret(w, st, sender, params), barred,
                  if barred == None then PrivateList(w, Target(st, params[0]), asked) else "")
  {
    SomeConsumed(w, st, params[0], sender, {});
    GrantedByEntries(w, st, params[0], sender);
  }

  lemma OpenListGives(w: World, st: State, params: Params)
    requires |params| >= 1
    ensures var usage, barred := AskedUsage(params), OpenListBarred(st, params[0], AskedUsage(params));
            Gives(GetListWithoutSecret(w, st, params), barred,
                  if barred == None then PublicList(w, Target(st, params[0]), if usage == "" then {} else {usage})
                  else "")
  {
  }

  /** The documents a client is listed with their secrets: those with the usage asked for, or with any usage it
      consumes. */
  ghost predicate Readable(w: World, st: State, name: string, sender: string, usage: string, d: Doc) {
    if usage != "" then usage in d.usages else exists u :: u in d.usages && Consumes(w, st, name, sender, u)
  }

  lemma SecretListReply(w: World, st: State, sender: string, payload: seq<string>, newId: string)
    requires payload != [] && payload[0] == "GET_LIST_WITH_SECRET"
    ensures var frames := HandleRequest(w, st, sender, payload, newId).1;
            if |payload| < 2 then Refused(w, frames, Refusal(BadCommandArgument, ""))
            else
              match SecretListBarred(w, st, sender, payload[1], AskedFor(payload))
              case Some(refusal) => Refused(w, frames, refusal)
              case None =>
                |frames| == 1
                && Lists(w, frames[0], Target(st, payload[1]),
                         d => Readable(w, st, payload[1], sender, AskedFor(payload), d), true)
  {
    if |payload| < 2 {
      ReadAnswers(w, st, sender, payload, newId, BAD_COUNT, "");
    } else {
      var name, usage := payload[1], AskedFor(payload);
      var asked := if usage == "" then Consumable(w, st, name, sender) else {usage};
      var barred := SecretListBarred(w, st, sender, name, usage);
      SecretListGives(w, st, sender, payload[1..]);
      ReadAnswers(w, st, sender, payload, newId, barred,
                  if barred == None then PrivateList(w, Target(st, name), asked) else "");
      if barred == None {
        forall d: Doc ensures Readable(w, st, name, sender, usage, d) <==> d.usages * asked != {} {
          AskedShared(w, st, name, sender, usage, d);
        }
        SharingLists(w, Target(st, name), asked, d => Readable(w, st, name, sender, usage, d));
      }
    }
  }

  lemma AskedShared(w: World, st: State, name: string, sender: string, usage: string, d: Doc)
    ensures var asked := if usage == "" then Consumable(w, st, name, sender) else {usage};
            Readable(w, st, name, sender, usage, d) <==> d.usages * asked != {}
  {
    if usage == "" {
      SomeConsumed(w, st, name, sender, d.usages);
      assert Consumable(w, st, name, sender) * d.usages == d.usages * Consumable(w, st, name, sender);
    } else {
      assert usage in d.usages * {usage} <==> usage in d.usages;
    }
  }

  lemma OpenListReply(w: World, st: State, sender: string, payload: seq<string>, newId: string)
    requires payload != [] && payload[0] == "GET_LIST_WITHOUT_SECRET"
    ensures var frames := HandleRequest(w, st, sender, payload, newId).1;
            if |payload| < 2 then Refused(w, frames, Refusal(BadCommandArgument, ""))
            else
              match OpenListBarred(st, payload[1], AskedFor(payload))
              case Some(refusal) => Refused(w, frames, refusal)
              case None =>
                |frames| == 1
                && Lists(w, frames[0], Target(st, payload[1]),
                         (d: Doc) => AskedFor(payload) == "" || AskedFor(payload) in d.usages, false)
  {
    if |payload| < 2 {
      ReadAnswers(w, st, sender, payload, newId, BAD_COUNT, "");
    } else {
      var name, usage := payload[1], AskedFor(payload);
      var barred := OpenListBarred(st, name, usage);
      OpenListGives(w, st, payload[1..]);
      ReadAnswers(w, st, sender, payload, newId, barred,
                  if barred == None then PublicList(w, Target(st, name), if usage == "" then {} else {usage}) else "");
      if barred == None {
        OpenLists(w, Target(st, name), usage);
      }
    }
  }

  lemma OpenLists(w: World, p: Portfolio, usage: string)
    ensures Lists(w, PublicList(w, p, if usage == "" then {} else {usage}), p,
                  (d: Doc) => usage == "" || usage in d.usages, false)
  {
    var chosen := (d: Doc) => usage == "" || usage in d.usages;
    if usage == "" {
      Listed(p);
      ViewsAt(p, Ascending(p.byId.Keys));
      assert InOrder(p, Ascending(p.byId.Keys), chosen);
    } else {
      forall d: Doc ensures chosen(d) <==> d.usages * {usage} != {} {
        assert usage in d.usages * {usage} <==> usage in d.usages;
      }
      SharingLists(w, p, {usage}, chosen);
    }
  }

  // ---------------------------------------------------------------- what a client is told

  /** The portfolios, and the usages of a client, as the set of texts the reply stands for. */
  lemma PortfoliosReply(w: World, st: State, sender: string, payload: seq<string>, newId: string)
    requires w.Sound() && payload != [] && payload[0] == "GET_PORTFOLIO_LIST"
    ensures var frames := HandleRequest(w, st, sender, payload, newId).1;
            |frames| == 1 && ToldTexts(w, frames[0]) == Some(st.wallet.configurations.Keys)
  {
    DispatchReply(w, st, sender, payload, newId);
    TextsTold(w, st.wallet.configurations.Keys);
  }

  lemma UsagesReply(w: World, st: State, sender: string, payload: seq<string>, newId: string)
    requires w.Sound() && payload != [] && payload[0] in {"GET_CONSUMER_USAGES", "GET_PRODUCER_USAGES"}
    ensures var frames := HandleRequest(w, st, sender, payload, newId).1;
            if |payload| != 2 then Refused(w, frames, Refusal(BadCommandArgument, ""))
            else if payload[1] !in st.wallet.configurations then
              Refused(w, frames, Refusal(UnknownPortfolio, payload[1]))
            else
              |frames| == 1 && ToldTexts(w, frames[0]).Some?
              && forall u :: u in ToldTexts(w, frames[0]).value <==>
                             if payload[0] == "GET_CONSUMER_USAGES" then Consumes(w, st, payload[1], sender, u)
                             else Produces(w, st, payload[1], sender, u)
  {
    DispatchReply(w, st, sender, payload, newId);
    if |payload| == 2 && payload[1] in st.wallet.configurations {
      GrantedByEntries(w, st, payload[1], sender);
      TextsTold(w, Consumable(w, st, payload[1], sender));
      TextsTold(w, Producible(w, st, payload[1], sender));
    }
  }

  /** A command of another name is refused, a payload without any is an error of the protocol, and an answer is
      not answered. */
  lemma OtherReply(w: World, st: State, sender: string, payload: seq<string>, newId: string)
    ensures var frames := HandleRequest(w, st, sender, payload, newId).1;
            && (payload == [] ==> Refused(w, frames, Refusal(ProtocolError, "")))
            && (payload != [] && payload[0] in {"OK", "ERROR"} ==> frames == [])
            && (payload != [] && payload[0] !in {
                  "OK", "ERROR", "GET_PORTFOLIO_LIST", "GET_CONSUMER_USAGES", "GET_PRODUCER_USAGES",
                  "GET_LIST_WITH_SECRET", "GET_LIST_WITHOUT_SECRET", "GET_WITHOUT_SECRET", "GET_WITH_SECRET",
                  "GET_WITHOUT_SECRET_BY_NAME", "GET_WITH_SECRET_BY_NAME", "CREATE", "DELETE", "UPDATE"} ==>
                  Refused(w, frames, Refusal(UnsupportedCommand, "")))
  {
    if payload == [] {
      assert HandleRequest(w, st, sender, payload, newId).1
             == ["ERROR", w.toText(WriteError(SecwException(ProtocolError, "Command frame is empty", "")))];
    } else if payload[0] !in {"OK", "ERROR"} {
      DispatchReply(w, st, sender, payload, newId);
    }
  }
}
