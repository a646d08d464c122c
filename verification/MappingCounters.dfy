/** The client's credential counters against the server's count (`cam_accessor`). */
module MappingCounters {
  import opened Mappings
  import opened MappingStorage
  import opened MappingSteps
  import opened Ordering

  type Counters = map<string, nat>

  // ---------------------------------------------------------------- exact counts

  function CountIf(list: seq<Mapping>, keep: Mapping -> bool): nat {
    if list == [] then 0 else CountIf(list[..|list| - 1], keep) + if keep(list[|list| - 1]) then 1 else 0
  }

  function HasCredential(): Mapping -> bool {
    (m: Mapping) => m.credentialId != ""
  }

  /** How many mappings of a list use a credential. */
  function Uses(list: seq<Mapping>, c: string): nat {
    CountIf(list, OfCredential(c))
  }

  /** How many use one at all. */
  function Used(list: seq<Mapping>): nat {
    CountIf(list, HasCredential())
  }

  function Kept(store: Store, keys: seq<string>, keep: Mapping -> bool): set<string>
    requires forall k | k in keys :: k in store
  {
    set k | k in keys && keep(store[k])
  }

  lemma KeptGrows(store: Store, keys: seq<string>, k: string, keep: Mapping -> bool)
    requires k in store && k !in keys && forall x | x in keys :: x in store
    ensures |Kept(store, keys + [k], keep)| == |Kept(store, keys, keep)| + if keep(store[k]) then 1 else 0
  {
    var before, all := Kept(store, keys, keep), Kept(store, keys + [k], keep);
    assert all == if keep(store[k]) then before + {k} else before;
  }

  lemma CountGrows(store: Store, keys: seq<string>, k: string, keep: Mapping -> bool)
    requires k in store && forall x | x in keys :: x in store
    ensures CountIf(AtKeys(store, keys + [k]), keep)
         == CountIf(AtKeys(store, keys), keep) + if keep(store[k]) then 1 else 0
  {
    var list := AtKeys(store, keys + [k]);
    assert list[..|list| - 1] == AtKeys(store, keys);
  }

  lemma {:induction false} CountAtKeys(store: Store, keys: seq<string>, keep: Mapping -> bool)
    requires forall k | k in keys :: k in store
    requires forall i, j | 0 <= i < j < |keys| :: keys[i] != keys[j]
    ensures CountIf(AtKeys(store, keys), keep) == |Kept(store, keys, keep)|
    decreases |keys|
  {
    if keys == [] {
    } else {
      var n := |keys| - 1;
      CountAtKeys(store, keys[..n], keep);
      assert keys == keys[..n] + [keys[n]];
      KeptGrows(store, keys[..n], keys[n], keep);
      CountGrows(store, keys[..n], keys[n], keep);
    }
  }

  /** Counting in the list of all mappings is counting the server's selection. */
  lemma CountOfStore(store: Store, keep: Mapping -> bool)
    ensures CountIf(Select(store, Any()), keep) == |Select(store, keep)|
  {
    var keys := Ascending(KeysOf(store, Any()));
    AscendingIsDistinct(KeysOf(store, Any()));
    CountAtKeys(store, keys, keep);
    assert Kept(store, keys, keep) == KeysOf(store, keep);
  }

  // ---------------------------------------------------------------- sums

  function Sum(m: Counters): nat
    decreases |m.Keys|
  {
    if m == map[] then 0
    else
      var k := Least(m.Keys);
      assert |(m - {k}).Keys| == |m.Keys| - 1 by { assert (m - {k}).Keys == m.Keys - {k}; }
      m[k] + Sum(m - {k})
  }

  lemma {:induction false} SumWithout(m: Counters, k: string)
    requires k in m
    ensures Sum(m) == m[k] + Sum(m - {k})
    decreases |m.Keys|
  {
    var least := Least(m.Keys);
    if k != least {
      assert (m - {least}).Keys == m.Keys - {least};
      SumWithout(m - {least}, k);
      assert (m - {k}).Keys == m.Keys - {k};
      LeastUnique(m.Keys - {k});
      assert IsLeast(least, (m - {k}).Keys);
      assert m - {least} - {k} == m - {k} - {least};
    }
  }

  lemma SumPut(m: Counters, k: string, n: nat)
    ensures Sum(m[k := n]) == n + Sum(m - {k})
  {
    SumWithout(m[k := n], k);
    assert m[k := n] - {k} == m - {k};
  }

  lemma EqualButAt(a: Counters, b: Counters, k: string)
    requires k in a && k in b && a[k] == b[k] && a - {k} == b - {k}
    ensures a == b
  {
    assert a == (a - {k})[k := a[k]] && b == (b - {k})[k := b[k]];
  }

  /** Lowering some entries lowers the sum, unless none is lowered. */
  lemma {:induction false} SumBelow(a: Counters, b: Counters)
    requires a.Keys == b.Keys && forall k | k in a :: a[k] <= b[k]
    ensures Sum(a) <= Sum(b)
    ensures Sum(a) == Sum(b) ==> a == b
    decreases |a.Keys|
  {
    if a == map[] {
      assert b == map[];
    } else {
      var k :| k in a;
      SumWithout(a, k);
      SumWithout(b, k);
      assert (a - {k}).Keys == a.Keys - {k} && (b - {k}).Keys == b.Keys - {k};
      SumBelow(a - {k}, b - {k});
      if Sum(a) == Sum(b) {
        EqualButAt(a, b, k);
      }
    }
  }

  // ---------------------------------------------------------------- the client's loop

  /** One more mapping; the counter is an unsigned 32-bit number. */
  function Counted(before: Counters, c: string): Counters {
    if c == "" then before
    else if c !in before then before[c := 1]
    else before[c := (before[c] + 1) % TWO_TO_THE_32]
  }

  function CountAll(list: seq<Mapping>): Counters {
    if list == [] then map[] else Counted(CountAll(list[..|list| - 1]), list[|list| - 1].credentialId)
  }

  /** There is a counter exactly for each credential used, and it is the number of uses modulo 2^32. */
  lemma {:induction false} CountersAreUses(list: seq<Mapping>, c: string)
    ensures c in CountAll(list) <==> c != "" && Uses(list, c) > 0
    ensures c in CountAll(list) ==> CountAll(list)[c] == Uses(list, c) % TWO_TO_THE_32
  {
    if list == [] {
    } else {
      CountersAreUses(list[..|list| - 1], c);
    }
  }

  /** The counters without wrapping. */
  function ExactCounters(list: seq<Mapping>): Counters {
    map c | c in CountAll(list) :: Uses(list, c)
  }

  lemma ExactGrows(list: seq<Mapping>, before: seq<Mapping>, m: Mapping)
    requires list == before + [m]
    ensures ExactCounters(list) ==
            if m.credentialId == "" then ExactCounters(before)
            else ExactCounters(before)[m.credentialId := Uses(before, m.credentialId) + 1]
  {
    assert list[..|list| - 1] == before;
    var c := m.credentialId;
    assert forall d | d != c :: Uses(list, d) == Uses(before, d);
    forall d | d in CountAll(before) ensures d != "" { CountersAreUses(before, d); }
  }

  lemma SumIncrement(m: Counters, c: string, n: nat)
    requires n == if c in m then m[c] else 0
    ensures Sum(m[c := n + 1]) == Sum(m) + 1
  {
    SumPut(m, c, n + 1);
    if c in m {
      SumWithout(m, c);
    } else {
      assert m - {c} == m;
    }
  }

  lemma ExactCount(list: seq<Mapping>, c: string)
    requires c != ""
    ensures Uses(list, c) == if c in ExactCounters(list) then ExactCounters(list)[c] else 0
  {
    CountersAreUses(list, c);
  }

  /** One more mapping with credential `c` adds one to the sum, and one without adds nothing. */
  lemma SumStep(small: Counters, all: Counters, c: string, uses: nat, used: nat)
    requires Sum(small) == used
    requires c != "" ==> uses == if c in small then small[c] else 0
    requires all == if c == "" then small else small[c := uses + 1]
    ensures Sum(all) == used + if c == "" then 0 else 1
  {
    if c != "" {
      SumIncrement(small, c, uses);
    }
  }

  lemma UsedGrows(list: seq<Mapping>, before: seq<Mapping>, m: Mapping)
    requires list == before + [m]
    ensures Used(list) == Used(before) + if m.credentialId == "" then 0 else 1
  {
    assert list[..|list| - 1] == before;
  }

  lemma ExactCountersStep(list: seq<Mapping>, before: seq<Mapping>, m: Mapping)
    requires list == before + [m] && Sum(ExactCounters(before)) == Used(before)
    ensures Sum(ExactCounters(list)) == Used(list)
  {
    var c := m.credentialId;
    ExactGrows(list, before, m);
    UsedGrows(list, before, m);
    if c != "" {
      ExactCount(before, c);
    }
    SumStep(ExactCounters(before), ExactCounters(list), c, Uses(before, c), Used(before));
  }

  lemma {:induction false} ExactCountersSum(list: seq<Mapping>)
    ensures Sum(ExactCounters(list)) == Used(list)
    decreases |list|
  {
    if list == [] {
      assert ExactCounters(list) == map[];
    } else {
      var n := |list| - 1;
      ExactCountersSum(list[..n]);
      assert list == list[..n] + [list[n]];
      ExactCountersStep(list, list[..n], list[n]);
    }
  }

  /** The counters sum to the number of mappings with a credential exactly when no credential is used
      2^32 times or more. */
  lemma CountersSum(list: seq<Mapping>)
    ensures Sum(CountAll(list)) == Used(list) <==> forall c | c in CountAll(list) :: Uses(list, c) < TWO_TO_THE_32
    ensures Used(list) < TWO_TO_THE_32 ==> Sum(CountAll(list)) == Used(list)
  {
    ExactCountersSum(list);
    forall c | c in CountAll(list) ensures CountAll(list)[c] == Uses(list, c) % TWO_TO_THE_32 {
      CountersAreUses(list, c);
    }
    WrappedSum(CountAll(list), ExactCounters(list));
  }

  lemma Wrapped(n: nat)
    ensures n % TWO_TO_THE_32 <= n
    ensures n % TWO_TO_THE_32 == n <==> n < TWO_TO_THE_32
  {
  }

  lemma WrappedSum(wrapped: Counters, exact: Counters)
    requires wrapped.Keys == exact.Keys && forall c | c in wrapped :: wrapped[c] == exact[c] % TWO_TO_THE_32
    ensures Sum(wrapped) == Sum(exact) <==> forall c | c in wrapped :: exact[c] < TWO_TO_THE_32
    ensures Sum(exact) < TWO_TO_THE_32 ==> Sum(wrapped) == Sum(exact)
  {
    forall c | c in wrapped
      ensures wrapped[c] <= exact[c] <= Sum(exact) && (wrapped[c] == exact[c] <==> exact[c] < TWO_TO_THE_32)
    {
      Wrapped(exact[c]);
      SumWithout(exact, c);
    }
    SumBelow(wrapped, exact);
    assert wrapped == exact <==> forall c | c in wrapped :: wrapped[c] == exact[c];
  }
}
