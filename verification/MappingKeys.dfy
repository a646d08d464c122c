/** The key under which a mapping is stored: one string made of the three ids, which may themselves hold
    the separators. */
module MappingKeys {

  datatype Triple = Triple(asset: string, service: string, protocol: string)

  const SERVICE_MARK := "|S"
  const PROTOCOL_MARK := "|P:"

  function ComputeHash(t: Triple): string {
    "A" + t.asset + SERVICE_MARK + t.service + PROTOCOL_MARK + t.protocol
  }

  predicate OccursAt(text: string, mark: string, i: nat) {
    i + |mark| <= |text| && text[i..i + |mark|] == mark
  }

  predicate Contains(text: string, mark: string) {
    exists i: nat | i <= |text| :: OccursAt(text, mark, i)
  }

  /** The first place a mark occurs, or the length of the text. */
  function FirstOccurrence(text: string, mark: string): (i: nat)
    ensures i <= |text|
    ensures forall j: nat | j < i :: !OccursAt(text, mark, j)
    ensures i < |text| ==> OccursAt(text, mark, i)
  {
    FirstFrom(text, mark, 0)
  }

  function FirstFrom(text: string, mark: string, from: nat): (i: nat)
    requires from <= |text|
    ensures from <= i <= |text|
    ensures forall j: nat | from <= j < i :: !OccursAt(text, mark, j)
    ensures i < |text| ==> OccursAt(text, mark, i)
    decreases |text| - from
  {
    if from == |text| || OccursAt(text, mark, from) then from else FirstFrom(text, mark, from + 1)
  }

  lemma FirstIs(text: string, mark: string, i: nat)
    requires mark != "" && OccursAt(text, mark, i)
    ensures FirstOccurrence(text, mark) <= i
    ensures (forall j: nat | j < i :: !OccursAt(text, mark, j)) ==> FirstOccurrence(text, mark) == i
  {
  }

  /** The triple whose ids end at the first marks; reading a key from left to right gives this one. */
  predicate Separable(t: Triple) {
    !Contains(t.asset, SERVICE_MARK) && !Contains(t.service, PROTOCOL_MARK)
  }

  /** Marks cannot straddle the end of an id: the mark that follows begins with the bar that a mark has
      only at its own beginning. */
  lemma MarkAfter(id: string, mark: string, rest: string)
    requires mark == SERVICE_MARK || mark == PROTOCOL_MARK
    ensures OccursAt(id + mark + rest, mark, |id|)
    ensures forall i: nat | i < |id| :: OccursAt(id + mark + rest, mark, i) <==> OccursAt(id, mark, i)
    ensures FirstOccurrence(id + mark + rest, mark) <= |id|
    ensures FirstOccurrence(id + mark + rest, mark) == |id| <==> !Contains(id, mark)
  {
    var text := id + mark + rest;
    assert text[|id|..|id| + |mark|] == mark;
    forall i: nat | i < |id| ensures OccursAt(text, mark, i) <==> OccursAt(id, mark, i) {
      if i + |mark| <= |id| {
        assert text[i..i + |mark|] == id[i..i + |mark|];
      } else {
        var overlap := |id| - i;
        assert text[|id|] == '|' && mark[overlap] != '|';
        if i + |mark| <= |text| { assert text[i..i + |mark|][overlap] == text[|id|]; }
      }
    }
    FirstIs(text, mark, |id|);
    if Contains(id, mark) {
      var i: nat :| i <= |id| && OccursAt(id, mark, i);
      FirstIs(text, mark, i);
    }
  }

  function Before(text: string, mark: string): string {
    text[..FirstOccurrence(text, mark)]
  }

  function After(text: string, mark: string): string {
    var i := FirstOccurrence(text, mark) + |mark|;
    if i <= |text| then text[i..] else ""
  }

  lemma WithinPrefix(text: string, i: nat, mark: string, j: nat)
    requires j + |mark| <= i <= |text|
    ensures OccursAt(text[..i], mark, j) <==> OccursAt(text, mark, j)
  {
    assert text[..i][j..j + |mark|] == text[j..j + |mark|];
  }

  lemma Rejoined(text: string, mark: string, i: nat)
    requires OccursAt(text, mark, i)
    ensures text == text[..i] + mark + text[i + |mark|..]
  {
    assert text == text[..i] + text[i..i + |mark|] + text[i + |mark|..];
  }

  /** A text is cut at the first mark: nothing is lost, and the first part is free of the mark. */
  lemma CutAtFirst(text: string, mark: string)
    requires mark != "" && Contains(text, mark)
    ensures text == Before(text, mark) + mark + After(text, mark)
    ensures !Contains(Before(text, mark), mark)
  {
    var i: nat :| i <= |text| && OccursAt(text, mark, i);
    FirstIs(text, mark, i);
    var first := FirstOccurrence(text, mark);
    Rejoined(text, mark, first);
    forall j: nat | j + |mark| <= first ensures !OccursAt(text[..first], mark, j) {
      WithinPrefix(text, first, mark, j);
    }
  }

  lemma CutAtMark(id: string, mark: string, rest: string)
    requires mark == SERVICE_MARK || mark == PROTOCOL_MARK
    ensures Contains(id + mark + rest, mark)
    ensures !Contains(id, mark) ==> Before(id + mark + rest, mark) == id && After(id + mark + rest, mark) == rest
  {
    MarkAfter(id, mark, rest);
    var text := id + mark + rest;
    assert text[..|id|] == id && text[|id| + |mark|..] == rest;
  }

  /** The mark that ends an id is still there after a cut no later than that id's end. */
  lemma MarkRemains(id: string, rest: string, mark: string)
    requires Contains(rest, mark)
    ensures Contains(id + rest, mark)
  {
    var i: nat :| i <= |rest| && OccursAt(rest, mark, i);
    assert (id + rest)[|id| + i..|id| + i + |mark|] == rest[i..i + |mark|];
    assert OccursAt(id + rest, mark, |id| + i);
  }

  function Body(t: Triple): string {
    t.asset + SERVICE_MARK + (t.service + PROTOCOL_MARK + t.protocol)
  }

  lemma HashOfBody(t: Triple)
    ensures ComputeHash(t) == "A" + Body(t)
  {
  }

  function Cut(body: string): Triple {
    var rest := After(body, SERVICE_MARK);
    Triple(Before(body, SERVICE_MARK), Before(rest, PROTOCOL_MARK), After(rest, PROTOCOL_MARK))
  }

  /** The triple read from a key, left to right. */
  function Canonical(t: Triple): Triple {
    Cut(Body(t))
  }

  lemma RestHasMark(t: Triple)
    ensures Contains(After(Body(t), SERVICE_MARK), PROTOCOL_MARK)
  {
    var tail := t.service + PROTOCOL_MARK + t.protocol;
    MarkAfter(t.asset, SERVICE_MARK, tail);
    CutAtMark(t.service, PROTOCOL_MARK, t.protocol);
    var i := FirstOccurrence(Body(t), SERVICE_MARK) + 2;
    assert Body(t) == (t.asset + SERVICE_MARK) + tail;
    assert After(Body(t), SERVICE_MARK) == (t.asset + SERVICE_MARK)[i..] + tail;
    MarkRemains((t.asset + SERVICE_MARK)[i..], tail, PROTOCOL_MARK);
  }

  /** Every triple has the key of exactly one separable triple, its canonical form. */
  lemma CanonicalForm(t: Triple)
    ensures ComputeHash(Canonical(t)) == ComputeHash(t)
    ensures Separable(Canonical(t))
    ensures Canonical(t) == t <==> Separable(t)
  {
    var c := Canonical(t);
    var rest := After(Body(t), SERVICE_MARK);
    CutAtMark(t.asset, SERVICE_MARK, t.service + PROTOCOL_MARK + t.protocol);
    CutAtFirst(Body(t), SERVICE_MARK);
    RestHasMark(t);
    CutAtFirst(rest, PROTOCOL_MARK);
    assert Body(c) == Body(t);
    HashOfBody(c);
    HashOfBody(t);
    if Separable(t) {
      CutAtMark(t.service, PROTOCOL_MARK, t.protocol);
    }
  }

  /** Two triples collide exactly when they have the same canonical form. */
  lemma CollideIff(t: Triple, u: Triple)
    ensures ComputeHash(t) == ComputeHash(u) <==> Canonical(t) == Canonical(u)
  {
    CanonicalForm(t);
    CanonicalForm(u);
    HashOfBody(t);
    HashOfBody(u);
    if ComputeHash(t) == ComputeHash(u) {
      assert Body(t) == ("A" + Body(t))[1..] == ("A" + Body(u))[1..] == Body(u);
    }
  }

  // ---------------------------------------------------------------- triples that share their key

  predicate IsMark(mark: string) {
    mark == SERVICE_MARK || mark == PROTOCOL_MARK
  }

  lemma MarkChar(text: string, mark: string, i: nat, k: nat)
    requires OccursAt(text, mark, i) && k < |mark|
    ensures text[i + k] == mark[k]
  {
    assert text[i..i + |mark|][k] == text[i + k];
  }

  /** Only the first character of a mark is a bar. */
  lemma OneBar(mark: string, k: nat)
    requires IsMark(mark) && k < |mark|
    ensures mark[k] == '|' <==> k == 0
  {
  }

  lemma OccursBefore(id: string, tail: string, mark: string, i: nat)
    requires i + |mark| <= |id| && OccursAt(id + tail, mark, i)
    ensures OccursAt(id, mark, i)
  {
    assert id[i..i + |mark|] == (id + tail)[i..i + |mark|];
  }

  lemma OccursBehind(head: string, rest: string, mark: string, i: nat)
    requires |head| <= i && OccursAt(head + rest, mark, i)
    ensures OccursAt(rest, mark, i - |head|)
  {
    assert rest[i - |head|..i - |head| + |mark|] == (head + rest)[i..i + |mark|];
  }

  /** A mark does not reach from an id into the mark that ends it, for that would put a bar inside it. */
  lemma OccursAcross(id: string, tail: string, mark: string, i: nat)
    requires IsMark(mark) && tail != "" && tail[0] == '|' && i < |id| < i + |mark|
    ensures !OccursAt(id + tail, mark, i)
  {
    if OccursAt(id + tail, mark, i) {
      MarkChar(id + tail, mark, i, |id| - i);
      OneBar(mark, |id| - i);
    }
  }

  /** A mark does not begin inside another one. */
  lemma OccursInside(id: string, end: string, rest: string, mark: string, i: nat)
    requires IsMark(end) && IsMark(mark) && |id| < i < |id| + |end|
    ensures !OccursAt(id + end + rest, mark, i)
  {
    if OccursAt(id + end + rest, mark, i) {
      MarkChar(id + end + rest, mark, i, 0);
      OneBar(end, i - |id|);
    }
  }

  lemma OccursAsEnd(id: string, end: string, rest: string, mark: string)
    requires IsMark(end) && IsMark(mark) && OccursAt(id + end + rest, mark, |id|)
    ensures mark == end
  {
    MarkChar(id + end + rest, mark, |id|, 1);
    assert (id + end + rest)[|id| + 1] == end[1];
  }

  /** A mark occurs within an id, as the mark that ends it, or after that. */
  lemma OccursSplit(id: string, end: string, rest: string, mark: string, i: nat)
    requires IsMark(end) && IsMark(mark) && OccursAt(id + end + rest, mark, i)
    ensures || OccursAt(id, mark, i)
            || (i == |id| && mark == end)
            || (i >= |id| + |end| && OccursAt(rest, mark, i - |id| - |end|))
  {
    assert id + end + rest == id + (end + rest);
    if i + |mark| <= |id| {
      OccursBefore(id, end + rest, mark, i);
    } else if i < |id| {
      OccursAcross(id, end + rest, mark, i);
    } else if i == |id| {
      OccursAsEnd(id, end, rest, mark);
    } else if i < |id| + |end| {
      OccursInside(id, end, rest, mark, i);
    } else {
      OccursBehind(id + end, rest, mark, i);
    }
  }

  /** The marks of this triple can be read in one way only. */
  predicate Alone(t: Triple) {
    && Separable(t)
    && !Contains(t.service, SERVICE_MARK)
    && !Contains(t.protocol, PROTOCOL_MARK)
  }

  lemma ShiftService(asset: string, x: string, y: string, protocol: string)
    ensures ComputeHash(Triple(asset + SERVICE_MARK + x, y, protocol))
         == ComputeHash(Triple(asset, x + SERVICE_MARK + y, protocol))
  {
  }

  lemma ShiftProtocol(asset: string, service: string, x: string, y: string)
    ensures ComputeHash(Triple(asset, service + PROTOCOL_MARK + x, y))
         == ComputeHash(Triple(asset, service, x + PROTOCOL_MARK + y))
  {
  }

  lemma MovedMark(t: Triple) returns (u: Triple)
    requires !Alone(t)
    ensures u != t && ComputeHash(u) == ComputeHash(t)
  {
    if !Separable(t) {
      CanonicalForm(t);
      u := Canonical(t);
    } else if Contains(t.service, SERVICE_MARK) {
      CutAtFirst(t.service, SERVICE_MARK);
      var x, y := Before(t.service, SERVICE_MARK), After(t.service, SERVICE_MARK);
      ShiftService(t.asset, x, y, t.protocol);
      u := Triple(t.asset + SERVICE_MARK + x, y, t.protocol);
    } else {
      CutAtFirst(t.protocol, PROTOCOL_MARK);
      var x, y := Before(t.protocol, PROTOCOL_MARK), After(t.protocol, PROTOCOL_MARK);
      ShiftProtocol(t.asset, t.service, x, y);
      u := Triple(t.asset, t.service + PROTOCOL_MARK + x, y);
    }
  }

  /** Two ways to end an id within the same text: a later end is a mark of what follows the earlier one. */
  lemma LaterEnd(id: string, rest: string, id': string, rest': string, mark: string)
    requires IsMark(mark) && id + mark + rest == id' + mark + rest' && |id| < |id'|
    ensures |id| + |mark| <= |id'| && OccursAt(rest, mark, |id'| - |id| - |mark|)
    ensures rest' == rest[|id'| - |id|..]
  {
    var text := id + mark + rest;
    assert text == id' + mark + rest';
    assert text[|id'|..|id'| + |mark|] == mark;
    OccursSplit(id, mark, rest, mark, |id'|);
    assert text[|id'| + |mark|..] == rest';
    assert text[|id| + |mark|..] == rest;
  }

  lemma SameEnd(id: string, rest: string, id': string, rest': string, mark: string)
    requires id + mark + rest == id' + mark + rest' && |id| == |id'|
    ensures id == id' && rest == rest'
  {
    assert id == (id + mark + rest)[..|id|] && id' == (id' + mark + rest')[..|id|];
    assert rest == (id + mark + rest)[|id| + |mark|..] && rest' == (id' + mark + rest')[|id| + |mark|..];
  }

  /** The asset id cannot end later: the service and protocol marks that follow it would both be in the
      service and the protocol. */
  lemma AssetEndsHere(t: Triple, asset: string, service: string, protocol: string)
    requires Alone(t)
    requires t.asset + SERVICE_MARK + (t.service + PROTOCOL_MARK + t.protocol)
          == asset + SERVICE_MARK + (service + PROTOCOL_MARK + protocol)
    ensures |asset| <= |t.asset|
  {
    if |asset| > |t.asset| {
      var tail, after := t.service + PROTOCOL_MARK + t.protocol, service + PROTOCOL_MARK + protocol;
      LaterEnd(t.asset, tail, asset, after, SERVICE_MARK);
      var r := |asset| - |t.asset| - 2;
      OccursSplit(t.service, PROTOCOL_MARK, t.protocol, SERVICE_MARK, r);
      CutAtMark(service, PROTOCOL_MARK, protocol);
      assert after == tail[r + 2..];
      var head := t.protocol[..r - |t.service| - 1];
      assert t.protocol == head + after;
      MarkRemains(head, after, PROTOCOL_MARK);
    }
  }

  lemma ServiceEndsHere(t: Triple, service: string, protocol: string)
    requires Alone(t) && t.service + PROTOCOL_MARK + t.protocol == service + PROTOCOL_MARK + protocol
    ensures |service| <= |t.service|
  {
    if |service| > |t.service| {
      LaterEnd(t.service, t.protocol, service, protocol, PROTOCOL_MARK);
    }
  }

  lemma ReadOneWay(t: Triple, u: Triple)
    requires Alone(t) && ComputeHash(u) == ComputeHash(t)
    ensures u == t
  {
    HashOfBody(t);
    HashOfBody(u);
    assert Body(t) == ("A" + Body(t))[1..] == ("A" + Body(u))[1..] == Body(u);
    var tail, after := t.service + PROTOCOL_MARK + t.protocol, u.service + PROTOCOL_MARK + u.protocol;
    AssetEndsHere(t, u.asset, u.service, u.protocol);
    MarkAfter(t.asset, SERVICE_MARK, tail);
    MarkAfter(u.asset, SERVICE_MARK, after);
    SameEnd(t.asset, tail, u.asset, after, SERVICE_MARK);
    ServiceEndsHere(t, u.service, u.protocol);
    MarkAfter(t.service, PROTOCOL_MARK, t.protocol);
    MarkAfter(u.service, PROTOCOL_MARK, u.protocol);
    SameEnd(t.service, t.protocol, u.service, u.protocol, PROTOCOL_MARK);
  }

  /** A triple shares its key with no other triple exactly when its marks read in one way. */
  lemma AloneIff(t: Triple)
    ensures Alone(t) <==> forall u :: ComputeHash(u) == ComputeHash(t) ==> u == t
  {
    if Alone(t) {
      forall u | ComputeHash(u) == ComputeHash(t) ensures u == t { ReadOneWay(t, u); }
    } else {
      var u := MovedMark(t);
    }
  }

  predicate BarFree(id: string) {
    '|' !in id
  }

  lemma BarFreeHasNoMark(id: string, mark: string)
    requires BarFree(id) && mark != "" && mark[0] == '|'
    ensures !Contains(id, mark)
  {
  }

  /** With asset and service ids free of bars, the key is injective, whatever the protocols. */
  lemma HashInjective(t: Triple, u: Triple)
    requires BarFree(t.asset) && BarFree(t.service) && BarFree(u.asset) && BarFree(u.service)
    ensures ComputeHash(t) == ComputeHash(u) <==> t == u
  {
    BarFreeHasNoMark(t.asset, SERVICE_MARK);
    BarFreeHasNoMark(t.service, PROTOCOL_MARK);
    BarFreeHasNoMark(u.asset, SERVICE_MARK);
    BarFreeHasNoMark(u.service, PROTOCOL_MARK);
    CanonicalForm(t);
    CanonicalForm(u);
    CollideIff(t, u);
  }

  /** Without that, two different triples may share a key. */
  lemma CollisionExample()
    ensures var t, u := Triple("a|Sb", "c", "p"), Triple("a", "b|Sc", "p");
            t != u && ComputeHash(t) == ComputeHash(u)
  {
    assert ComputeHash(Triple("a|Sb", "c", "p")) == "Aa|Sb|Sc|P:p";
  }
}
