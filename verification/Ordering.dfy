/** The order in which `std::map` and `std::set` over strings are traversed: ascending,
    by lexicographic comparison. */
module Ordering {

  predicate Below(a: string, b: string) {
    b != "" && (a == "" || a[0] < b[0] || (a[0] == b[0] && Below(a[1..], b[1..])))
  }

  lemma {:induction false} Connected(a: string, b: string)
    ensures a == b || Below(a, b) || Below(b, a)
  {
    if a != "" && b != "" && a[0] == b[0] {
      Connected(a[1..], b[1..]);
      if a[1..] == b[1..] {
        assert a == [a[0]] + a[1..] && b == [b[0]] + b[1..];
      }
    }
  }

  lemma {:induction false} Asymmetric(a: string, b: string)
    requires Below(a, b)
    ensures !Below(b, a) && a != b
  {
    if a != "" && a[0] == b[0] {
      Asymmetric(a[1..], b[1..]);
    }
  }

  lemma {:induction false} Transitive(a: string, b: string, c: string)
    requires Below(a, b) && Below(b, c)
    ensures Below(a, c)
  {
    if a != "" && a[0] == b[0] == c[0] {
      Transitive(a[1..], b[1..], c[1..]);
    }
  }

  predicate IsLeast(m: string, s: set<string>) {
    m in s && forall x | x in s :: x == m || Below(m, x)
  }

  lemma {:induction false} LeastExists(s: set<string>)
    requires s != {}
    ensures exists m :: IsLeast(m, s)
    decreases |s|
  {
    var x :| x in s;
    if s == {x} {
      assert IsLeast(x, s);
    } else {
      LeastExists(s - {x});
      var m :| IsLeast(m, s - {x});
      Connected(x, m);
      if Below(x, m) {
        forall y | y in s ensures y == x || Below(x, y) {
          if y != x && y != m { Transitive(x, m, y); }
        }
        assert IsLeast(x, s);
      } else {
        assert IsLeast(m, s);
      }
    }
  }

  lemma LeastUnique(s: set<string>)
    ensures forall m, n | IsLeast(m, s) && IsLeast(n, s) :: m == n
  {
    forall m, n | IsLeast(m, s) && IsLeast(n, s) ensures m == n {
      if m != n { Asymmetric(m, n); }
    }
  }

  function Least(s: set<string>): (m: string)
    requires s != {}
    ensures IsLeast(m, s)
  {
    LeastExists(s);
    LeastUnique(s);
    var m :| m in s && IsLeast(m, s);
    m
  }

  /** The elements of `s`, each once, in traversal order. */
  function Ascending(s: set<string>): (r: seq<string>)
    ensures |r| == |s|
    ensures forall x :: x in r <==> x in s
    decreases |s|
  {
    if s == {} then []
    else
      var m := Least(s);
      var rest := Ascending(s - {m});
      [m] + rest
  }

  lemma {:induction false} AscendingIsSorted(s: set<string>)
    ensures forall i, j | 0 <= i < j < |s| :: Below(Ascending(s)[i], Ascending(s)[j])
    decreases |s|
  {
    if s == {} {
    } else {
      var m := Least(s);
      AscendingIsSorted(s - {m});
      var r, rest := Ascending(s), Ascending(s - {m});
      forall i, j | 0 <= i < j < |s| ensures Below(r[i], r[j]) {
        assert r[j] == rest[j - 1] && r[j] in s - {m};
        assert i > 0 ==> r[i] == rest[i - 1];
      }
    }
  }

  lemma AscendingIsDistinct(s: set<string>)
    ensures forall i, j | 0 <= i < j < |s| :: Ascending(s)[i] != Ascending(s)[j]
  {
  }

  /** There is one way to list a set in ascending order. */
  lemma {:induction false} AscendingIsUnique(keys: seq<string>, s: set<string>)
    requires forall i, j | 0 <= i < j < |keys| :: Below(keys[i], keys[j])
    requires forall x :: x in keys <==> x in s
    ensures keys == Ascending(s)
    decreases |keys|
  {
    if keys == [] {
      assert s == {};
    } else {
      var m := keys[0];
      assert m in s;
      forall x | x in s ensures x == m || Below(m, x) {
        var i :| 0 <= i < |keys| && keys[i] == x;
      }
      LeastUnique(s);
      assert IsLeast(m, s);
      forall x ensures x in keys[1..] <==> x in s - {m} {
        if x in keys[1..] {
          var i :| 0 <= i < |keys| - 1 && keys[1..][i] == x;
          Asymmetric(m, keys[i + 1]);
        }
      }
      AscendingIsUnique(keys[1..], s - {m});
    }
  }
}
