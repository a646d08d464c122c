/** The serialization tree (`cxxtools::SerializationInfo`) and the readers the program uses on it.
    An object has at most one member of a given name; a node that never got a value is `Void`. */
module Serialization {
  import opened Ordering
  import opened Wrappers

  datatype Tree =
    | Void
    | Text(text: string)
    | Number(number: int)
    | Boolean(flag: bool)
    | Object(members: map<string, Tree>)
    | Array(items: seq<Tree>)

  /** `addMember` once per entry: a node without any member stays void. */
  function Section(members: map<string, Tree>): Tree {
    if members == map[] then Void else Object(members)
  }

  function FindMember(t: Tree, name: string): Option<Tree> {
    if t.Object? && name in t.members then Some(t.members[name]) else None
  }

  lemma FindInSection(members: map<string, Tree>, name: string)
    ensures FindMember(Section(members), name) == if name in members then Some(members[name]) else None
  {
  }

  function FindText(t: Tree, name: string): Option<string> {
    match FindMember(t, name)
    case Some(Text(s)) => Some(s)
    case _ => None
  }

  /** Reading a `uint8_t`: anything else than a number in range is a conversion error. */
  function FindByte(t: Tree, name: string): Option<int> {
    match FindMember(t, name)
    case Some(Number(n)) => if 0 <= n < 256 then Some(n) else None
    case _ => None
  }

  function FindBoolean(t: Tree, name: string): Option<bool> {
    match FindMember(t, name)
    case Some(Boolean(b)) => Some(b)
    case _ => None
  }

  function Items(t: Tree): seq<Tree> {
    if t.Array? then t.items else []
  }

  function TextArray(s: set<string>): Tree {
    var keys := Ascending(s);
    Array(seq(|keys|, i requires 0 <= i < |keys| => Text(keys[i])))
  }

  /** Reading a set of strings: the set is cleared, then every child is read as a string. */
  function AsTexts(t: Tree): Option<set<string>> {
    if forall x | x in Items(t) :: x.Text? then Some(set x | x in Items(t) :: x.text) else None
  }

  function FindTexts(t: Tree, name: string): Option<set<string>> {
    match FindMember(t, name)
    case Some(x) => AsTexts(x)
    case None => None
  }

  lemma TextArrayRoundTrip(s: set<string>)
    ensures AsTexts(TextArray(s)) == Some(s)
  {
    var keys := Ascending(s);
    var items := TextArray(s).items;
    forall x | x in s ensures exists t :: t in items && t.text == x {
      var i :| 0 <= i < |keys| && keys[i] == x;
      assert items[i].text == x;
    }
    assert (set x | x in items :: x.text) == s;
  }

  /** A list is read item by item; one that cannot be read makes the reading fail. */
  function ReadAll<T>(read: Tree -> Option<T>, items: seq<Tree>): Option<seq<T>> {
    if items == [] then Some([])
    else
      match (ReadAll(read, items[..|items| - 1]), read(items[|items| - 1]))
      case (Some(before), Some(last)) => Some(before + [last])
      case _ => None
  }

  lemma {:induction false} EachItemRead<T>(read: Tree -> Option<T>, items: seq<Tree>, values: seq<T>)
    requires |items| == |values| && forall i | 0 <= i < |items| :: read(items[i]) == Some(values[i])
    ensures ReadAll(read, items) == Some(values)
    decreases |items|
  {
    if items == [] {
    } else {
      var n := |items| - 1;
      EachItemRead(read, items[..n], values[..n]);
      assert values == values[..n] + [values[n]];
    }
  }

  /** It is read exactly if each item is, and gives what they give. */
  lemma {:induction false} ReadAllIs<T>(read: Tree -> Option<T>, items: seq<Tree>)
    ensures ReadAll(read, items).Some? <==> forall i | 0 <= i < |items| :: read(items[i]).Some?
    ensures ReadAll(read, items).Some? ==>
              var values := ReadAll(read, items).value;
              |values| == |items| && forall i | 0 <= i < |items| :: read(items[i]) == Some(values[i])
    decreases |items|
  {
    if items == [] {
    } else {
      var n := |items| - 1;
      ReadAllIs(read, items[..n]);
      assert forall i | 0 <= i < n :: items[..n][i] == items[i];
    }
  }

  /** A set of texts is read exactly from a list of texts. */
  lemma AsTextsIs(t: Tree)
    ensures AsTexts(t).Some? <==> forall i | 0 <= i < |Items(t)| :: Items(t)[i].Text?
    ensures AsTexts(t).Some? ==>
              forall u :: u in AsTexts(t).value <==> exists i :: 0 <= i < |Items(t)| && Items(t)[i] == Text(u)
  {
    if AsTexts(t).Some? {
      forall i | 0 <= i < |Items(t)| ensures Items(t)[i].Text? { assert Items(t)[i] in Items(t); }
      forall u | u in AsTexts(t).value ensures exists i :: 0 <= i < |Items(t)| && Items(t)[i] == Text(u) {
        var x :| x in Items(t) && x.text == u;
        var i :| 0 <= i < |Items(t)| && Items(t)[i] == x;
      }
    }
  }
}
