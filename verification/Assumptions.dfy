/** The assumptions on foreign code can be met together: a world that meets them, made of a code for trees
    that nothing else reads like, and of a cipher that only marks its text. */
module Assumptions {
  import opened Base64
  import opened Configuration
  import opened Encryption
  import opened Environment
  import opened Ordering
  import opened Serialization
  import opened Wrappers

  // ---------------------------------------------------------------- a code for trees

  function Strokes(n: nat): ByteString {
    if n == 0 then "." else "|" + Strokes(n - 1)
  }

  function TextCode(s: string): ByteString {
    if s == [] then "." else "," + Strokes(s[0] as nat) + TextCode(s[1..])
  }

  /** A letter for the constructor, then what it holds. */
  function Letter(t: Tree): char {
    match t
    case Void => 'v'
    case Text(_) => 't'
    case Number(n) => if n < 0 then 'm' else 'n'
    case Boolean(b) => if b then 'y' else 'f'
    case Object(_) => 'o'
    case Array(_) => 'a'
  }

  function TreeCode(t: Tree): ByteString
    decreases t, Breadth(t) + 2
  {
    [Letter(t)] + Inner(t)
  }

  function Breadth(t: Tree): nat {
    match t
    case Object(members) => |members|
    case Array(items) => |items|
    case _ => 0
  }

  function Inner(t: Tree): ByteString
    decreases t, Breadth(t) + 1
  {
    match t
    case Text(s) => TextCode(s)
    case Number(n) => Strokes(if n < 0 then -n else n)
    case Object(members) => MembersCode(t, Ascending(members.Keys))
    case Array(items) => ItemsCode(t, 0)
    case _ => ""
  }

  function ItemsCode(t: Tree, k: nat): ByteString
    requires t.Array? && k <= |t.items|
    decreases t, |t.items| - k
  {
    if k == |t.items| then "." else "," + TreeCode(t.items[k]) + ItemsCode(t, k + 1)
  }

  function MembersCode(t: Tree, names: seq<string>): ByteString
    requires t.Object? && forall n | n in names :: n in t.members
    decreases t, |names|
  {
    if names == [] then "."
    else "," + TextCode(names[0]) + TreeCode(t.members[names[0]]) + MembersCode(t, names[1..])
  }

  // ---------------------------------------------------------------- what follows a code can be told from it

  lemma Heads(c: char, s: string, d: char, u: string)
    requires [c] + s == [d] + u
    ensures c == d && s == u
  {
    assert ([c] + s)[0] == c && ([d] + u)[0] == d;
    assert ([c] + s)[1..] == s && ([d] + u)[1..] == u;
  }

  lemma StrokesParts(n: nat, x: string) returns (rest: string)
    ensures Strokes(n) + x == [if n == 0 then '.' else '|'] + rest
    ensures rest == if n == 0 then x else Strokes(n - 1) + x
  {
    rest := if n == 0 then x else Strokes(n - 1) + x;
  }

  lemma {:induction false} StrokesEnd(m: nat, n: nat, x: string, y: string)
    requires Strokes(m) + x == Strokes(n) + y
    ensures m == n && x == y
  {
    var restM := StrokesParts(m, x);
    var restN := StrokesParts(n, y);
    Heads(if m == 0 then '.' else '|', restM, if n == 0 then '.' else '|', restN);
    if m > 0 {
      StrokesEnd(m - 1, n - 1, x, y);
    }
  }

  lemma TextParts(s: string, x: string) returns (rest: string)
    ensures TextCode(s) + x == [if s == [] then '.' else ','] + rest
    ensures rest == if s == [] then x else Strokes(s[0] as nat) + (TextCode(s[1..]) + x)
  {
    rest := if s == [] then x else Strokes(s[0] as nat) + (TextCode(s[1..]) + x);
    if s != [] {
      assert TextCode(s) == [','] + (Strokes(s[0] as nat) + TextCode(s[1..]));
    }
  }

  lemma {:induction false} TextEnds(s: string, u: string, x: string, y: string)
    requires TextCode(s) + x == TextCode(u) + y
    ensures s == u && x == y
  {
    var restS := TextParts(s, x);
    var restU := TextParts(u, y);
    Heads(if s == [] then '.' else ',', restS, if u == [] then '.' else ',', restU);
    if s != [] {
      StrokesEnd(s[0] as nat, u[0] as nat, TextCode(s[1..]) + x, TextCode(u[1..]) + y);
      TextEnds(s[1..], u[1..], x, y);
      assert s == [s[0]] + s[1..] && u == [u[0]] + u[1..];
    }
  }

  lemma LetterAndInner(t: Tree, x: string)
    ensures TreeCode(t) + x == [Letter(t)] + (Inner(t) + x)
  {
    var c, rest := [Letter(t)], Inner(t);
    assert (c + rest) + x == c + (rest + x);
  }

  lemma {:induction false} TreeEnds(a: Tree, b: Tree, x: string, y: string)
    requires TreeCode(a) + x == TreeCode(b) + y
    ensures a == b && x == y
    decreases a, Breadth(a) + 1
  {
    LetterAndInner(a, x);
    LetterAndInner(b, y);
    Heads(Letter(a), Inner(a) + x, Letter(b), Inner(b) + y);
    if a.Object? {
      MembersEnd(a, Ascending(a.members.Keys), b, Ascending(b.members.Keys), x, y);
      SameMembers(a.members, b.members);
    } else if a.Array? {
      ItemsEnd(a, 0, b, 0, x, y);
      assert a.items[0..] == a.items && b.items[0..] == b.items;
    } else {
      LeafEnds(a, b, x, y);
    }
  }

  lemma LeafEnds(a: Tree, b: Tree, x: string, y: string)
    requires !a.Object? && !a.Array? && Letter(a) == Letter(b) && Inner(a) + x == Inner(b) + y
    ensures a == b && x == y
  {
    if a.Text? {
      TextEnds(a.text, b.text, x, y);
    } else if a.Number? {
      StrokesEnd(if a.number < 0 then -a.number else a.number, if b.number < 0 then -b.number else b.number, x, y);
    } else {
      assert Inner(a) + x == x && Inner(b) + y == y;
    }
  }

  lemma SameMembers(m: map<string, Tree>, n: map<string, Tree>)
    requires Ascending(m.Keys) == Ascending(n.Keys)
    requires forall k | k in Ascending(m.Keys) :: m[k] == n[k]
    ensures m == n
  {
    forall k ensures k in m <==> k in n {
      assert k in m <==> k in Ascending(m.Keys);
    }
  }

  lemma ItemsParts(t: Tree, k: nat, x: string) returns (rest: string)
    requires t.Array? && k <= |t.items|
    ensures ItemsCode(t, k) + x == [if k == |t.items| then '.' else ','] + rest
    ensures rest == if k == |t.items| then x else TreeCode(t.items[k]) + (ItemsCode(t, k + 1) + x)
  {
    rest := if k == |t.items| then x else TreeCode(t.items[k]) + (ItemsCode(t, k + 1) + x);
    if k < |t.items| {
      assert ItemsCode(t, k) == [','] + (TreeCode(t.items[k]) + ItemsCode(t, k + 1));
    }
  }

  lemma SameTails(s: seq<Tree>, i: nat, u: seq<Tree>, j: nat)
    requires i < |s| && j < |u| && s[i] == u[j] && s[i + 1..] == u[j + 1..]
    ensures s[i..] == u[j..]
  {
    assert s[i..] == [s[i]] + s[i + 1..] && u[j..] == [u[j]] + u[j + 1..];
  }

  lemma {:induction false} ItemsEnd(a: Tree, i: nat, b: Tree, j: nat, x: string, y: string)
    requires a.Array? && b.Array? && i <= |a.items| && j <= |b.items|
    requires ItemsCode(a, i) + x == ItemsCode(b, j) + y
    ensures a.items[i..] == b.items[j..] && x == y
    decreases a, |a.items| - i
  {
    var restA := ItemsParts(a, i, x);
    var restB := ItemsParts(b, j, y);
    Heads(if i == |a.items| then '.' else ',', restA, if j == |b.items| then '.' else ',', restB);
    if i < |a.items| {
      TreeEnds(a.items[i], b.items[j], ItemsCode(a, i + 1) + x, ItemsCode(b, j + 1) + y);
      ItemsEnd(a, i + 1, b, j + 1, x, y);
      SameTails(a.items, i, b.items, j);
    }
  }

  lemma MembersParts(t: Tree, names: seq<string>, x: string) returns (rest: string)
    requires t.Object? && forall n | n in names :: n in t.members
    ensures MembersCode(t, names) + x == [if names == [] then '.' else ','] + rest
    ensures rest == if names == [] then x
                    else TextCode(names[0]) + (TreeCode(t.members[names[0]]) + (MembersCode(t, names[1..]) + x))
  {
    if names == [] {
      rest := x;
    } else {
      var name, tree, tail := TextCode(names[0]), TreeCode(t.members[names[0]]), MembersCode(t, names[1..]);
      rest := name + (tree + (tail + x));
      assert MembersCode(t, names) == "," + name + tree + tail;
      Regroup(",", name, tree, tail, x);
    }
  }

  lemma Regroup(a: string, b: string, c: string, d: string, e: string)
    ensures (a + b + c + d) + e == a + (b + (c + (d + e)))
  {
  }

  lemma {:induction false} MembersEnd(a: Tree, ns: seq<string>, b: Tree, ms: seq<string>, x: string, y: string)
    requires a.Object? && b.Object? && (forall n | n in ns :: n in a.members) && (forall n | n in ms :: n in b.members)
    requires MembersCode(a, ns) + x == MembersCode(b, ms) + y
    ensures ns == ms && x == y && forall n | n in ns :: a.members[n] == b.members[n]
    decreases a, |ns|
  {
    var restA := MembersParts(a, ns, x);
    var restB := MembersParts(b, ms, y);
    Heads(if ns == [] then '.' else ',', restA, if ms == [] then '.' else ',', restB);
    if ns != [] {
      var tailA, tailB := MembersCode(a, ns[1..]) + x, MembersCode(b, ms[1..]) + y;
      TextEnds(ns[0], ms[0], TreeCode(a.members[ns[0]]) + tailA, TreeCode(b.members[ms[0]]) + tailB);
      TreeEnds(a.members[ns[0]], b.members[ms[0]], tailA, tailB);
      MembersEnd(a, ns[1..], b, ms[1..], x, y);
      assert ns == [ns[0]] + ns[1..] && ms == [ms[0]] + ms[1..];
    }
  }

  // ---------------------------------------------------------------- a world that is sound

  ghost function Decoded(s: string): Parsed {
    if t: Tree :| TreeCode(t) == s then Json(t) else BadJson("")
  }

  lemma DecodedIs(t: Tree)
    ensures Decoded(TreeCode(t)) == Json(t)
  {
    forall u: Tree | TreeCode(u) == TreeCode(t) ensures u == t {
      assert TreeCode(u) + "" == TreeCode(t) + "";
      TreeEnds(u, t, "", "");
    }
  }

  /** Whatever the configuration, the platform, the regular expressions and the certificates, there are a
      serializer, a cipher and an id generator that meet every assumption. */
  lemma CanBeMet(certificateKey: string -> Option<string>, privateKey: string -> Option<string>, matches: Matcher,
                 hardwareUuid: ByteString, file: seq<PortfolioConfiguration>)
    returns (w: World, ids: nat -> string)
    ensures w.Sound()
    ensures forall i: nat, j: nat :: i != j ==> ids(i) != ids(j)
    ensures w.certificateKey == certificateKey && w.privateKey == privateKey && w.matches == matches
    ensures w.hardwareUuid == hardwareUuid && w.configurationFile == file
  {
    var cipher := Cipher((b: Bytes) => seq(32, _ => 0),
                         (d: Bytes, k: Bytes, iv: InitVector) => [0] + d,
                         (d: Bytes, k: Bytes, iv: InitVector) => if d == [] then [] else d[1..]);
    w := World(t => TreeCode(t), s => Decoded(s), certificateKey, privateKey, matches, cipher, hardwareUuid, file);
    ids := (n: nat) => Strokes(n);
    forall t ensures w.fromText(w.toText(t)) == Json(t) && w.toText(t) != "ERROR" {
      DecodedIs(t);
      LetterAndInner(t, "");
      assert TreeCode(t)[0] == Letter(t);
    }
    forall i: nat, j: nat | i != j ensures ids(i) != ids(j) {
      if ids(i) == ids(j) {
        assert Strokes(i) + "" == Strokes(j) + "";
        StrokesEnd(i, j, "", "");
      }
    }
  }
}
