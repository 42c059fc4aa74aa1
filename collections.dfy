/** Generic sequence helpers shared by the query engine and the graph builder:
    first-appearance de-duplication (the key order of a Python dict filled in
    a loop), filtering, occurrence counts and sums. */
module Collections {
  import opened Wrappers

  predicate NoDuplicates<T(==)>(s: seq<T>) {
    forall i, j :: 0 <= i < j < |s| ==> s[i] != s[j]
  }

  /** The distinct elements of `s`, each kept at its first appearance: the key
      order of a dict whose keys are inserted in the order of `s`. */
  function Distinct<T(==)>(s: seq<T>): (r: seq<T>)
    ensures forall x :: x in r ==> x in s
    ensures forall x :: x in s ==> x in r
    ensures NoDuplicates(r)
    ensures |r| <= |s|
  {
    if s == [] then []
    else
      var d := Distinct(s[..|s| - 1]);
      if s[|s| - 1] in d then d else d + [s[|s| - 1]]
  }

  /** Insertion into an insertion-ordered set: a no-op when present. */
  function Append<T(==)>(s: seq<T>, x: T): seq<T> {
    if x in s then s else s + [x]
  }

  lemma {:induction false} DistinctSnoc<T>(s: seq<T>, x: T)
    ensures Distinct(s + [x]) == Append(Distinct(s), x)
  {
    assert (s + [x])[..|s|] == s;
  }

  lemma CountSnoc<T>(s: seq<T>, x: T, k: T)
    ensures Count(s + [x], k) == Count(s, k) + (if x == k then 1 else 0)
  {
    assert (s + [x])[..|s|] == s;
  }

  /** The index of the first occurrence of `x` in `s`. */
  function FirstIndex<T(==)>(s: seq<T>, x: T): (i: nat)
    requires x in s
    ensures i < |s| && s[i] == x
    ensures forall j :: 0 <= j < i ==> s[j] != x
  {
    if s[0] == x then 0 else 1 + FirstIndex(s[1..], x)
  }

  lemma FirstIndexPrefix<T>(s: seq<T>, n: nat, x: T)
    requires n <= |s| && x in s[..n]
    ensures x in s && FirstIndex(s, x) == FirstIndex(s[..n], x)
  {
    var i := FirstIndex(s[..n], x);
    var k := FirstIndex(s, x);
    assert s[i] == x;
    assert k <= i;
    assert s[..n][k] == x;
  }

  /** Distinct keeps first-appearance order: an element listed earlier in the
      result first appears earlier in the input. */
  lemma {:induction false} DistinctOrder<T>(s: seq<T>, i: nat, j: nat)
    requires i < j < |Distinct(s)|
    ensures Distinct(s)[i] in s && Distinct(s)[j] in s
    ensures FirstIndex(s, Distinct(s)[i]) < FirstIndex(s, Distinct(s)[j])
  {
    var n := |s| - 1;
    var p := s[..n];
    var d := Distinct(p);
    var r := Distinct(s);
    assert r[i] in s && r[j] in s;
    if j < |d| {
      assert r[i] == d[i] && r[j] == d[j];
      DistinctOrder(p, i, j);
      FirstIndexPrefix(s, n, d[i]);
      FirstIndexPrefix(s, n, d[j]);
    } else {
      assert r == d + [s[n]] && s[n] !in p;
      assert r[j] == s[n] && r[i] == d[i] && d[i] in p;
      FirstIndexPrefix(s, n, d[i]);
    }
  }

  /** The index of the first element of `s` that satisfies `f`; None where a
      Python `next(x for x in s if f(x))` raises StopIteration. */
  function FirstWhere<T>(f: T -> bool, s: seq<T>): (r: Option<nat>)
    ensures r.Some? ==> r.value < |s| && f(s[r.value])
    ensures r.Some? ==> forall j :: 0 <= j < r.value ==> !f(s[j])
    ensures r.None? ==> forall j :: 0 <= j < |s| ==> !f(s[j])
  {
    if s == [] then None
    else if f(s[0]) then Some(0)
    else
      match FirstWhere(f, s[1..])
      case None => None
      case Some(i) => Some(i + 1)
  }

  /** The elements of `s` that satisfy `f`, in their order in `s`. */
  function Filter<T>(f: T -> bool, s: seq<T>): (r: seq<T>)
    ensures forall x :: x in r ==> x in s && f(x)
    ensures forall x :: x in s && f(x) ==> x in r
    ensures forall i :: 0 <= i < |r| ==> f(r[i])
    ensures |r| <= |s|
  {
    if s == [] then []
    else Filter(f, s[..|s| - 1]) + (if f(s[|s| - 1]) then [s[|s| - 1]] else [])
  }

  lemma {:induction false} FilterAppend<T>(f: T -> bool, a: seq<T>, b: seq<T>)
    ensures Filter(f, a + b) == Filter(f, a) + Filter(f, b)
  {
    if b != [] {
      var n := |b| - 1;
      assert (a + b)[..|a + b| - 1] == a + b[..n];
      FilterAppend(f, a, b[..n]);
    } else {
      assert a + b == a;
    }
  }

  /** The number of occurrences of `x` in `s`. */
  function Count<T(==)>(s: seq<T>, x: T): (n: nat)
    ensures n <= |s|
    ensures n > 0 <==> x in s
  {
    if s == [] then 0
    else Count(s[..|s| - 1], x) + (if s[|s| - 1] == x then 1 else 0)
  }

  /** `keys` and `counts` are a Python dict that counted the elements of `s`
      one by one: its keys in insertion order and the count of each. */
  ghost predicate Tallied<T(!new)>(s: seq<T>, keys: seq<T>, counts: map<T, int>) {
    && keys == Distinct(s)
    && (forall k :: k in counts <==> k in keys)
    && (forall k :: k in counts ==> counts[k] == Count(s, k))
  }

  /** Counting one more element (inserting it with 0 if new, then adding 1)
      keeps the dict a tally. */
  lemma TallyStep<T(!new)>(s: seq<T>, x: T, keys: seq<T>, counts: map<T, int>)
    requires Tallied(s, keys, counts)
    ensures Tallied(s + [x], if x in counts then keys else keys + [x],
                    counts[x := (if x in counts then counts[x] else 0) + 1])
  {
    DistinctSnoc(s, x);
    forall k ensures Count(s + [x], k) == Count(s, k) + (if x == k then 1 else 0) {
      CountSnoc(s, x, k);
    }
  }

  /** `if k not in d: d[k] = 0` followed by `d[k] += 1`. */
  lemma InsertThenIncrement<K>(m: map<K, int>, k: K)
    ensures var m1 := if k in m then m else m[k := 0];
      m1[k := m1[k] + 1] == m[k := (if k in m then m[k] else 0) + 1]
  {
  }

  /** `TallyStep` for the element at index `m` of `s`, counted after the
      prefix before it. */
  lemma TallyAt<T(!new)>(s: seq<T>, m: nat, keys: seq<T>, counts: map<T, int>)
    requires m < |s| && Tallied(s[..m], keys, counts)
    ensures Tallied(s[..m + 1], if s[m] in counts then keys else keys + [s[m]],
                    counts[s[m] := (if s[m] in counts then counts[s[m]] else 0) + 1])
  {
    assert s[..m + 1] == s[..m] + [s[m]];
    TallyStep(s[..m], s[m], keys, counts);
  }

  /** The sum over the keys `ks` of the occurrence counts of those keys in `s`. */
  function CountsOver<T(==)>(ks: seq<T>, s: seq<T>): nat {
    if ks == [] then 0 else Count(s, ks[0]) + CountsOver(ks[1..], s)
  }

  lemma {:induction false} CountsOverSnoc<T>(ks: seq<T>, s: seq<T>, x: T)
    ensures CountsOver(ks, s + [x]) == CountsOver(ks, s) + Count(ks, x)
  {
    assert (s + [x])[..|s + [x]| - 1] == s;
    if ks != [] {
      CountsOverSnoc(ks[1..], s, x);
      CountOfCons(ks, x);
    }
  }

  lemma CountOfCons<T>(ks: seq<T>, x: T)
    requires ks != []
    ensures Count(ks, x) == (if ks[0] == x then 1 else 0) + Count(ks[1..], x)
    decreases |ks|
  {
    if |ks| > 1 {
      var n := |ks| - 1;
      assert ks[1..][..|ks[1..]| - 1] == ks[..n][1..];
      CountOfCons(ks[..n], x);
    } else {
      assert ks[1..] == [] && ks[..0] == [];
    }
  }

  lemma {:induction false} CountDistinctMember<T>(ks: seq<T>, x: T)
    requires NoDuplicates(ks) && x in ks
    ensures Count(ks, x) == 1
  {
    var n := |ks| - 1;
    var p := ks[..n];
    if ks[n] != x {
      assert x in p;
      CountDistinctMember(p, x);
    }
  }

  /** The per-key counts sum to the length: counting every element of `s`
      under a duplicate-free list of keys that covers `s` loses nothing and
      counts nothing twice. */
  lemma {:induction false} CountsOverTotal<T>(ks: seq<T>, s: seq<T>)
    requires NoDuplicates(ks)
    requires forall x :: x in s ==> x in ks
    ensures CountsOver(ks, s) == |s|
  {
    if s == [] {
      CountsOverEmpty(ks, s);
    } else {
      var n := |s| - 1;
      assert s == s[..n] + [s[n]];
      CountsOverTotal(ks, s[..n]);
      CountsOverSnoc(ks, s[..n], s[n]);
      CountDistinctMember(ks, s[n]);
    }
  }

  lemma {:induction false} CountsOverEmpty<T>(ks: seq<T>, s: seq<T>)
    requires s == []
    ensures CountsOver(ks, s) == 0
  {
    if ks != [] { CountsOverEmpty(ks[1..], s); }
  }

  /** A duplicate-free sequence has as many elements as its set. */
  lemma {:induction false} NoDuplicatesCard<T>(s: seq<T>)
    requires NoDuplicates(s)
    ensures |set x | x in s| == |s|
  {
    if s != [] {
      var n := |s| - 1;
      NoDuplicatesCard(s[..n]);
      assert (set x | x in s) == (set x | x in s[..n]) + {s[n]};
      assert s[n] !in s[..n];
    }
  }

  /** Sum of a sequence of integers. */
  function Sum(s: seq<int>): int {
    if s == [] then 0 else Sum(s[..|s| - 1]) + s[|s| - 1]
  }

  function Min(s: seq<int>): (m: int)
    requires s != []
    ensures m in s && forall x :: x in s ==> m <= x
  {
    if |s| == 1 then s[0]
    else
      var m := Min(s[..|s| - 1]);
      assert forall x :: x in s ==> x in s[..|s| - 1] || x == s[|s| - 1];
      if s[|s| - 1] < m then s[|s| - 1] else m
  }

  function Max(s: seq<int>): (m: int)
    requires s != []
    ensures m in s && forall x :: x in s ==> x <= m
  {
    if |s| == 1 then s[0]
    else
      var m := Max(s[..|s| - 1]);
      assert forall x :: x in s ==> x in s[..|s| - 1] || x == s[|s| - 1];
      if s[|s| - 1] > m then s[|s| - 1] else m
  }

  lemma {:induction false} SumAtLeast(s: seq<int>, m: int)
    requires forall x :: x in s ==> m <= x
    ensures |s| * m <= Sum(s)
  {
    if s != [] {
      var p := s[..|s| - 1];
      assert forall x :: x in p ==> x in s;
      SumAtLeast(p, m);
      assert s[|s| - 1] in s;
      assert |s| * m == |p| * m + m;
    }
  }

  lemma {:induction false} SumAtMost(s: seq<int>, m: int)
    requires forall x :: x in s ==> x <= m
    ensures Sum(s) <= |s| * m
  {
    if s != [] {
      var p := s[..|s| - 1];
      assert forall x :: x in p ==> x in s;
      SumAtMost(p, m);
      assert s[|s| - 1] in s;
      assert |s| * m == |p| * m + m;
    }
  }

  /** The mean of a non-empty sequence lies between its minimum and maximum. */
  lemma SumBounds(s: seq<int>)
    requires s != []
    ensures |s| * Min(s) <= Sum(s) <= |s| * Max(s)
  {
    SumAtLeast(s, Min(s));
    SumAtMost(s, Max(s));
  }
}
