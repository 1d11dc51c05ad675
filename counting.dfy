/**
 * Python's insertion-ordered dictionaries of counts, as the report builds
 * them: `defaultdict(int)` incremented key by key, pandas' grouped sums,
 * and the nested `defaultdict(lambda: defaultdict(int))` of the time series.
 */
module Counting {
  import opened Collections

  /** Adds up `m` over the keys `ks`. */
  function SumOver<K>(ks: seq<K>, m: map<K, nat>): nat
    requires forall i :: 0 <= i < |ks| ==> ks[i] in m
  {
    if ks == [] then 0 else SumOver(ks[..|ks| - 1], m) + m[ks[|ks| - 1]]
  }

  lemma {:induction false} SumOverUnaffected<K>(ks: seq<K>, m: map<K, nat>, k: K, v: nat)
    requires (forall i :: 0 <= i < |ks| ==> ks[i] in m) && k !in ks
    ensures SumOver(ks, m[k := v]) == SumOver(ks, m)
  {
    if ks != [] {
      var init := ks[..|ks| - 1];
      assert ks == init + [ks[|ks| - 1]];
      SumOverUnaffected(init, m, k, v);
    }
  }

  lemma {:induction false} SumOverIncrement<K>(ks: seq<K>, m: map<K, nat>, k: K, w: nat)
    requires (forall i :: 0 <= i < |ks| ==> ks[i] in m) && Distinct(ks) && k in ks
    ensures SumOver(ks, m[k := m[k] + w]) == SumOver(ks, m) + w
  {
    var init, last := ks[..|ks| - 1], ks[|ks| - 1];
    assert ks == init + [last];
    if last == k {
      assert k !in init;
      SumOverUnaffected(init, m, k, m[k] + w);
    } else {
      SumOverIncrement(init, m, k, w);
    }
  }

  /**
   * An insertion-ordered `defaultdict(int)`: `keys` lists the keys in the
   * order they were first written, `count` holds their values.
   */
  datatype Tally<K(==,!new)> = Tally(keys: seq<K>, count: map<K, nat>) {

    ghost predicate Valid() {
      Distinct(keys) && forall k :: k in count <==> k in keys
    }

    /** What `d[k]` reads, as 0 for a key never written. */
    function Get(k: K): nat {
      if k in count then count[k] else 0
    }

    /** The sum of all values. */
    function Total(): nat
      requires Valid()
    {
      SumOver(keys, count)
    }

    /** `a` is a key holding the smallest count. */
    predicate HasLeast(a: K) {
      a in count && forall b :: b in count ==> count[a] <= count[b]
    }

    /** `a` is a key holding the largest count. */
    predicate HasMost(a: K) {
      a in count && forall b :: b in count ==> count[b] <= count[a]
    }

    /** `d[k] += w`: a new key goes to the end of the order. */
    function AddN(k: K, w: nat): (r: Tally<K>)
      requires Valid()
      ensures r.Valid()
      ensures forall j :: r.Get(j) == Get(j) + (if j == k then w else 0)
      ensures r.keys == if k in count then keys else keys + [k]
      ensures r.Total() == Total() + w
    {
      if k in count then
        SumOverIncrement(keys, count, k, w);
        Tally(keys, count[k := count[k] + w])
      else
        SumOverUnaffected(keys, count, k, w);
        assert (keys + [k])[..|keys|] == keys;
        Tally(keys + [k], count[k := w])
    }

    /** `list(d.items())`, the rows of `pd.Series(d)`. */
    function Items(): (r: seq<(K, real)>)
      requires Valid()
      ensures |r| == |keys| && UniqueLabels(r) && Labels(r) == count.Keys
      ensures forall i :: 0 <= i < |r| ==> r[i].0 == keys[i] && r[i].1 == count[keys[i]] as real
    {
      var r := seq(|keys|, i requires 0 <= i < |keys| => (keys[i], count[keys[i]] as real));
      assert Labels(r) == count.Keys by {
        forall k | k in count ensures k in Labels(r) {
          var i :| 0 <= i < |keys| && keys[i] == k;
          assert r[i].0 == k;
        }
      }
      r
    }
  }

  function EmptyTally<K(==,!new)>(): (t: Tally<K>)
    ensures t.Valid() && t.Total() == 0 && forall k :: t.Get(k) == 0
  {
    Tally([], map[])
  }

  /** `d[k] += w` stores exactly one more key, `k`, when it was absent. */
  lemma AddNKeys<K(!new)>(t: Tally<K>, k: K, w: nat)
    requires t.Valid()
    ensures t.AddN(k, w).count.Keys == t.count.Keys + {k}
  {
    var r := t.AddN(k, w);
    forall j ensures j in r.count <==> j in t.count || j == k {
      assert j in t.keys + [k] <==> j in t.keys || j == k;
    }
  }

  /**
   * The counter after `for k in s: d[k] += 1`, starting from an empty
   * `defaultdict(int)`: every key of `s` with its number of occurrences.
   */
  function TallyOf<K(==,!new)>(s: seq<K>): (t: Tally<K>)
    ensures t.Valid()
    ensures forall k :: t.Get(k) == multiset(s)[k]
    ensures forall k :: k in t.count <==> k in s
    ensures forall k :: k in t.count ==> t.count[k] >= 1
    ensures t.Total() == |s|
  {
    if s == [] then EmptyTally()
    else
      var init, last := s[..|s| - 1], s[|s| - 1];
      assert s == init + [last];
      var t := TallyOf(init).AddN(last, 1);
      TallyOfStepCounts(TallyOf(init), init, last);
      TallyOfStepKeys(TallyOf(init), init, last);
      PresentCounted(t, s);
      t
  }

  /** Counting one more key keeps each value equal to its number of occurrences. */
  lemma TallyOfStepCounts<K(!new)>(t: Tally<K>, s: seq<K>, x: K)
    requires t.Valid() && forall k :: t.Get(k) == multiset(s)[k]
    ensures forall k :: t.AddN(x, 1).Get(k) == multiset(s + [x])[k]
  {
    assert multiset(s + [x]) == multiset(s) + multiset{x};
  }

  /** Counting one more key adds that key and no other. */
  lemma TallyOfStepKeys<K(!new)>(t: Tally<K>, s: seq<K>, x: K)
    requires t.Valid() && forall k :: k in t.count <==> k in s
    ensures forall k :: k in t.AddN(x, 1).count <==> k in s + [x]
  {
    forall k ensures k in s + [x] <==> k in s || k == x {
    }
  }

  /** A counter holding the occurrences of its own keys stores no zero. */
  lemma PresentCounted<K(!new)>(t: Tally<K>, s: seq<K>)
    requires forall k :: t.Get(k) == multiset(s)[k]
    requires forall k :: k in t.count <==> k in s
    ensures forall k :: k in t.count ==> t.count[k] >= 1
  {
    forall k | k in t.count ensures t.count[k] >= 1 {
      assert t.count[k] == t.Get(k);
      assert k in multiset(s);
    }
  }

  /** One more key at the end of `s` is one more `d[k] += 1`. */
  lemma TallyOfLast<K(!new)>(s: seq<K>, x: K)
    ensures TallyOf(s + [x]) == TallyOf(s).AddN(x, 1)
  {
    assert (s + [x])[..|s|] == s;
  }

  /** The sum of the weights of the rows labelled `k` (the reference for a grouped sum). */
  function Weight<K(==)>(ps: seq<(K, nat)>, k: K): nat {
    if ps == [] then 0
    else
      var last := ps[|ps| - 1];
      Weight(ps[..|ps| - 1], k) + (if last.0 == k then last.1 else 0)
  }

  /** A row added at the end adds its weight to its own label only. */
  lemma WeightSnoc<K>(ps: seq<(K, nat)>, p: (K, nat), k: K)
    ensures Weight(ps + [p], k) == Weight(ps, k) + (if p.0 == k then p.1 else 0)
  {
    assert (ps + [p])[..|ps|] == ps;
  }

  /**
   * pandas' `groupby(label)[weight].sum()`: one entry per label present,
   * holding the sum of that label's weights.
   */
  function GroupSum<K(==,!new)>(ps: seq<(K, nat)>): (t: Tally<K>)
    ensures t.Valid()
    ensures forall k :: t.Get(k) == Weight(ps, k)
    ensures t.count.Keys == Labels(ps)
  {
    if ps == [] then EmptyTally()
    else
      var init, last := ps[..|ps| - 1], ps[|ps| - 1];
      LabelsSnoc(ps);
      GroupSum(init).AddN(last.0, last.1)
  }

  /**
   * An insertion-ordered `defaultdict(lambda: defaultdict(int))`: outer keys
   * in first-write order, each mapped to its inner counter.
   */
  datatype Nested<A(==,!new), B(==,!new)> = Nested(keys: seq<A>, inner: map<A, Tally<B>>) {

    ghost predicate Valid() {
      && Distinct(keys)
      && (forall a :: a in inner <==> a in keys)
      && (forall a :: a in inner ==> inner[a].Valid())
    }

    /** What `d[a][b]` reads, as 0 where nothing was written. */
    function Get(a: A, b: B): nat {
      if a in inner then inner[a].Get(b) else 0
    }

    /** `d[a][b] += 1`. */
    function Bump(a: A, b: B): (r: Nested<A, B>)
      requires Valid()
      ensures r.Valid()
      ensures forall x, y :: r.Get(x, y) == Get(x, y) + (if x == a && y == b then 1 else 0)
      ensures r.keys == if a in inner then keys else keys + [a]
      ensures r.inner.Keys == inner.Keys + {a}
      ensures forall x :: x in inner && x != a ==> r.inner[x] == inner[x]
      ensures a in inner ==> r.inner[a].count.Keys == inner[a].count.Keys + {b}
      ensures a !in inner ==> r.inner[a].count.Keys == {b}
    {
      if a in inner then
        var r := Nested(keys, inner[a := inner[a].AddN(b, 1)]);
        UpdateKeys(inner, a, inner[a].AddN(b, 1));
        BumpPresent(this, a, b, r);
        r
      else
        var r := Nested(keys + [a], inner[a := EmptyTally<B>().AddN(b, 1)]);
        UpdateKeys(inner, a, EmptyTally<B>().AddN(b, 1));
        BumpAbsent(this, a, b, r);
        r
    }
  }

  /** Writing a key of a map adds that key, and only that key, to its domain. */
  lemma UpdateKeys<K, V>(m: map<K, V>, k: K, v: V)
    ensures m[k := v].Keys == m.Keys + {k}
  {
  }

  /** `d[a][b] += 1` for an outer key already present updates its inner counter only. */
  lemma BumpPresent<A(!new), B(!new)>(n: Nested<A, B>, a: A, b: B, r: Nested<A, B>)
    requires n.Valid() && a in n.inner
    requires r == Nested(n.keys, n.inner[a := n.inner[a].AddN(b, 1)])
    ensures r.Valid()
    ensures forall x, y :: r.Get(x, y) == n.Get(x, y) + (if x == a && y == b then 1 else 0)
    ensures forall x :: x in n.inner && x != a ==> r.inner[x] == n.inner[x]
    ensures r.inner[a].count.Keys == n.inner[a].count.Keys + {b}
  {
    AddNKeys(n.inner[a], b, 1);
    assert r.inner[a] == n.inner[a].AddN(b, 1);
    forall x | x in r.inner ensures r.inner[x].Valid() {
      if x != a {
        assert r.inner[x] == n.inner[x];
      }
    }
    forall x, y ensures r.Get(x, y) == n.Get(x, y) + (if x == a && y == b then 1 else 0) {
      if x == a {
        assert r.inner[x] == n.inner[a].AddN(b, 1);
      }
    }
  }

  /** `d[a][b] += 1` for a new outer key appends it with a counter holding `b` once. */
  lemma BumpAbsent<A(!new), B(!new)>(n: Nested<A, B>, a: A, b: B, r: Nested<A, B>)
    requires n.Valid() && a !in n.inner
    requires r == Nested(n.keys + [a], n.inner[a := EmptyTally<B>().AddN(b, 1)])
    ensures r.Valid()
    ensures forall x, y :: r.Get(x, y) == n.Get(x, y) + (if x == a && y == b then 1 else 0)
    ensures forall x :: x in n.inner && x != a ==> r.inner[x] == n.inner[x]
    ensures r.inner[a].count.Keys == {b}
  {
    var first := EmptyTally<B>().AddN(b, 1);
    AddNKeys(EmptyTally<B>(), b, 1);
    assert r.inner[a] == first;
    DistinctSnoc(n.keys, a);
    forall x ensures x in r.inner <==> x in r.keys {
      assert x in n.keys + [a] <==> x in n.keys || x == a;
    }
    forall x | x in r.inner ensures r.inner[x].Valid() {
      if x != a {
        assert r.inner[x] == n.inner[x];
      }
    }
    forall x, y ensures r.Get(x, y) == n.Get(x, y) + (if x == a && y == b then 1 else 0) {
      if x == a {
        assert r.inner[x] == first;
        assert first.Get(y) == if y == b then 1 else 0;
      }
    }
  }

  function EmptyNested<A(==,!new), B(==,!new)>(): (n: Nested<A, B>)
    ensures n.Valid() && forall a, b :: n.Get(a, b) == 0
  {
    Nested([], map[])
  }

  /** `d[a][b] += 1` for each pair of `ps` in turn. */
  function BumpAll<A(==,!new), B(==,!new)>(n: Nested<A, B>, ps: seq<(A, B)>): (r: Nested<A, B>)
    requires n.Valid()
    ensures r.Valid()
  {
    if ps == [] then n
    else BumpAll(n, ps[..|ps| - 1]).Bump(ps[|ps| - 1].0, ps[|ps| - 1].1)
  }

  /**
   * Counting `ps` from empty stores exactly the artists of `ps` as outer
   * keys, and every stored entry has been written at least once.
   */
  lemma {:induction false} BumpAllEntries<A(!new), B(!new)>(ps: seq<(A, B)>)
    ensures BumpAll(EmptyNested(), ps).inner.Keys == Labels(ps)
    ensures var n := BumpAll(EmptyNested(), ps);
            forall a, b :: a in n.inner && b in n.inner[a].count ==> n.inner[a].count[b] >= 1
  {
    if ps != [] {
      var init, last := ps[..|ps| - 1], ps[|ps| - 1];
      BumpAllEntries(init);
      LabelsSnoc(ps);
      var n0 := BumpAll(EmptyNested(), init);
      var n := n0.Bump(last.0, last.1);
      assert BumpAll(EmptyNested(), ps) == n;
      forall a, b | a in n.inner && b in n.inner[a].count ensures n.inner[a].count[b] >= 1 {
        if a != last.0 {
          assert n.inner[a] == n0.inner[a];
        } else if b != last.1 {
          assert n.inner[a].count[b] == n.Get(a, b) == n0.Get(a, b);
        } else {
          assert n.inner[a].count[b] == n.Get(a, b) == n0.Get(a, b) + 1;
        }
      }
    }
  }

  /**
   * Counting `ps` from empty stores, under each artist, exactly the buckets
   * it was paired with in `ps`, as `d[a][b] += 1` creates only entry (a, b).
   */
  lemma BumpAllBuckets<A(!new), B(!new)>(ps: seq<(A, B)>)
    ensures var n := BumpAll(EmptyNested(), ps);
            forall a, b :: a in n.inner ==> (b in n.inner[a].count <==> (a, b) in ps)
  {
    var n := BumpAll(EmptyNested(), ps);
    BumpAllEntries(ps);
    BumpAllCounts(EmptyNested(), ps);
    forall a, b | a in n.inner ensures b in n.inner[a].count <==> (a, b) in ps {
      assert n.Get(a, b) == EmptyNested<A, B>().Get(a, b) + multiset(ps)[(a, b)] == multiset(ps)[(a, b)];
      if b in n.inner[a].count {
        assert n.inner[a].count[b] >= 1;
        assert (a, b) in multiset(ps);
      } else {
        assert (a, b) !in multiset(ps);
      }
    }
  }

  /** The first row of `t` labelled `k`. */
  function FirstIndex<K(==), V>(t: seq<(K, V)>, k: K): (i: nat)
    requires k in Labels(t)
    ensures i < |t| && t[i].0 == k && forall j :: 0 <= j < i ==> t[j].0 != k
  {
    if t[0].0 == k then 0
    else
      assert k in Labels(t[1..]) by {
        var j :| 0 <= j < |t| && t[j].0 == k;
        assert t[1..][j - 1].0 == k;
      }
      1 + FirstIndex(t[1..], k)
  }

  /** Dropping the last row does not move the first row of a label still present. */
  lemma FirstIndexInit<K, V>(t: seq<(K, V)>, k: K)
    requires t != [] && k in Labels(t[..|t| - 1])
    ensures k in Labels(t) && FirstIndex(t, k) == FirstIndex(t[..|t| - 1], k)
  {
    var init := t[..|t| - 1];
    var i := FirstIndex(init, k);
    assert t[i] == init[i];
    assert k in Labels(t);
    var i' := FirstIndex(t, k);
    assert i' <= i;
    assert init[i'] == t[i'];
  }

  /** The last row, when its label is new, is that label's first row. */
  lemma FirstIndexLast<K, V>(t: seq<(K, V)>)
    requires t != [] && t[|t| - 1].0 !in Labels(t[..|t| - 1])
    ensures t[|t| - 1].0 in Labels(t) && FirstIndex(t, t[|t| - 1].0) == |t| - 1
  {
    var init, k := t[..|t| - 1], t[|t| - 1].0;
    assert t[|t| - 1].0 == k;
    forall j | 0 <= j < |init| ensures t[j].0 != k {
      assert t[j] == init[j];
    }
  }

  /** The labels of `t` in order of their first row: the insertion order of a dict filled from `t`. */
  function FirstSeen<K(==), V>(t: seq<(K, V)>): seq<K> {
    if t == [] then []
    else
      var init := t[..|t| - 1];
      if t[|t| - 1].0 in Labels(init) then FirstSeen(init) else FirstSeen(init) + [t[|t| - 1].0]
  }

  /** `FirstSeen` lists every label of `t`, and only those, ordered by first row. */
  lemma {:induction false} FirstSeenOrdered<K, V>(t: seq<(K, V)>)
    ensures forall i :: 0 <= i < |FirstSeen(t)| ==> FirstSeen(t)[i] in Labels(t)
    ensures forall k :: k in Labels(t) ==> k in FirstSeen(t)
    ensures forall i, j :: 0 <= i < j < |FirstSeen(t)| ==> FirstIndex(t, FirstSeen(t)[i]) < FirstIndex(t, FirstSeen(t)[j])
  {
    if t != [] {
      var init := t[..|t| - 1];
      FirstSeenOrdered(init);
      if t[|t| - 1].0 in Labels(init) {
        FirstSeenKeep(t, FirstSeen(init));
      } else {
        FirstSeenNew(t, FirstSeen(init));
      }
    }
  }

  /** Counting `ps` from empty keeps the artists in the order of their first pair. */
  lemma {:induction false} BumpAllKeys<A(!new), B(!new)>(ps: seq<(A, B)>)
    ensures BumpAll(EmptyNested(), ps).keys == FirstSeen(ps)
  {
    if ps != [] {
      BumpAllKeys(ps[..|ps| - 1]);
      BumpAllKeysStep(ps);
    }
  }

  /**
   * Counting `ps` from empty lists the artists in order of their first row
   * in `ps`, the insertion order of the outer `defaultdict`.
   */
  lemma BumpAllFirstSeen<A(!new), B(!new)>(ps: seq<(A, B)>)
    ensures var ks := BumpAll(EmptyNested(), ps).keys;
            forall i :: 0 <= i < |ks| ==> ks[i] in Labels(ps)
    ensures forall a :: a in Labels(ps) ==> a in BumpAll(EmptyNested(), ps).keys
    ensures var ks := BumpAll(EmptyNested(), ps).keys;
            forall i, j :: 0 <= i < j < |ks| ==> FirstIndex(ps, ks[i]) < FirstIndex(ps, ks[j])
  {
    BumpAllKeys(ps);
    FirstSeenOrdered(ps);
  }

  /** One more pair appends its artist to the outer keys exactly when the artist is new. */
  lemma BumpAllKeysStep<A(!new), B(!new)>(ps: seq<(A, B)>)
    requires ps != []
    ensures BumpAll(EmptyNested(), ps).keys ==
            if ps[|ps| - 1].0 in Labels(ps[..|ps| - 1]) then BumpAll(EmptyNested(), ps[..|ps| - 1]).keys
            else BumpAll(EmptyNested(), ps[..|ps| - 1]).keys + [ps[|ps| - 1].0]
  {
    BumpAllEntries(ps[..|ps| - 1]);
  }

  /** Labels already present keep their first row when a row is added. */
  lemma FirstSeenOld<K, V>(t: seq<(K, V)>, ks0: seq<K>)
    requires t != []
    requires forall i :: 0 <= i < |ks0| ==> ks0[i] in Labels(t[..|t| - 1])
    ensures forall i :: 0 <= i < |ks0| ==>
              ks0[i] in Labels(t) && FirstIndex(t, ks0[i]) == FirstIndex(t[..|t| - 1], ks0[i]) < |t| - 1
  {
    forall i | 0 <= i < |ks0|
      ensures ks0[i] in Labels(t) && FirstIndex(t, ks0[i]) == FirstIndex(t[..|t| - 1], ks0[i]) < |t| - 1
    {
      FirstIndexInit(t, ks0[i]);
    }
  }

  /** A row whose label is already present leaves the list of labels as it is. */
  lemma FirstSeenKeep<K, V>(t: seq<(K, V)>, ks0: seq<K>)
    requires t != []
    requires forall i :: 0 <= i < |ks0| ==> ks0[i] in Labels(t[..|t| - 1])
    requires forall k :: k in Labels(t[..|t| - 1]) ==> k in ks0
    requires forall i, j :: 0 <= i < j < |ks0| ==> FirstIndex(t[..|t| - 1], ks0[i]) < FirstIndex(t[..|t| - 1], ks0[j])
    requires t[|t| - 1].0 in Labels(t[..|t| - 1])
    ensures forall i :: 0 <= i < |ks0| ==> ks0[i] in Labels(t)
    ensures forall k :: k in Labels(t) ==> k in ks0
    ensures forall i, j :: 0 <= i < j < |ks0| ==> FirstIndex(t, ks0[i]) < FirstIndex(t, ks0[j])
  {
    FirstSeenOld(t, ks0);
    LabelsSnoc(t);
  }

  /** A row with a new label appends that label, whose first row is the new one. */
  lemma FirstSeenNew<K, V>(t: seq<(K, V)>, ks0: seq<K>)
    requires t != []
    requires forall i :: 0 <= i < |ks0| ==> ks0[i] in Labels(t[..|t| - 1])
    requires forall k :: k in Labels(t[..|t| - 1]) ==> k in ks0
    requires forall i, j :: 0 <= i < j < |ks0| ==> FirstIndex(t[..|t| - 1], ks0[i]) < FirstIndex(t[..|t| - 1], ks0[j])
    requires t[|t| - 1].0 !in Labels(t[..|t| - 1])
    ensures var ks := ks0 + [t[|t| - 1].0];
            forall i :: 0 <= i < |ks| ==> ks[i] in Labels(t)
    ensures forall k :: k in Labels(t) ==> k in ks0 + [t[|t| - 1].0]
    ensures var ks := ks0 + [t[|t| - 1].0];
            forall i, j :: 0 <= i < j < |ks| ==> FirstIndex(t, ks[i]) < FirstIndex(t, ks[j])
  {
    var last := t[|t| - 1];
    var ks := ks0 + [last.0];
    FirstSeenOld(t, ks0);
    FirstIndexLast(t);
    LabelsSnoc(t);
    forall i | 0 <= i < |ks| ensures ks[i] in Labels(t) {
      if i < |ks0| {
        assert ks[i] == ks0[i];
      }
    }
    forall i, j | 0 <= i < j < |ks| ensures FirstIndex(t, ks[i]) < FirstIndex(t, ks[j]) {
      assert ks[i] == ks0[i];
      if j < |ks0| {
        assert ks[j] == ks0[j];
      } else {
        assert ks[j] == last.0;
      }
    }
  }

  /** Each pair of `ps` adds exactly one to its own entry, and nothing else changes. */
  lemma {:induction false} BumpAllCounts<A(!new), B(!new)>(n: Nested<A, B>, ps: seq<(A, B)>)
    requires n.Valid()
    ensures forall a, b :: BumpAll(n, ps).Get(a, b) == n.Get(a, b) + multiset(ps)[(a, b)]
  {
    if ps != [] {
      var init, last := ps[..|ps| - 1], ps[|ps| - 1];
      assert ps == init + [last];
      BumpAllCounts(n, init);
    }
  }

  /** One more pair at the end is one more `d[a][b] += 1`. */
  lemma BumpAllSnoc<A(!new), B(!new)>(n: Nested<A, B>, ps: seq<(A, B)>, p: (A, B))
    requires n.Valid()
    ensures BumpAll(n, ps + [p]) == BumpAll(n, ps).Bump(p.0, p.1)
  {
    assert (ps + [p])[..|ps|] == ps;
  }

  /** Counting `ps + qs` is counting `ps`, then `qs` on top. */
  lemma {:induction false} BumpAllAppend<A(!new), B(!new)>(n: Nested<A, B>, ps: seq<(A, B)>, qs: seq<(A, B)>)
    requires n.Valid()
    ensures BumpAll(n, ps + qs) == BumpAll(BumpAll(n, ps), qs)
  {
    if qs == [] {
      assert ps + qs == ps;
    } else {
      var init, last := qs[..|qs| - 1], qs[|qs| - 1];
      assert qs == init + [last];
      assert ps + qs == (ps + init) + [last];
      BumpAllSnoc(n, ps + init, last);
      BumpAllSnoc(BumpAll(n, ps), init, last);
      BumpAllAppend(n, ps, init);
    }
  }

  /** Every entry of `m` is at most the same entry of `n`. */
  ghost predicate Dominated<A(!new), B(!new)>(m: Nested<A, B>, n: Nested<A, B>) {
    forall a, b :: m.Get(a, b) <= n.Get(a, b)
  }

  /** Counting a sub-multiset of the pairs into a dominated counter keeps it dominated. */
  lemma BumpAllDominated<A(!new), B(!new)>(m: Nested<A, B>, n: Nested<A, B>, qs: seq<(A, B)>, ps: seq<(A, B)>)
    requires m.Valid() && n.Valid() && Dominated(m, n)
    requires multiset(qs) <= multiset(ps)
    ensures Dominated(BumpAll(m, qs), BumpAll(n, ps))
  {
    BumpAllCounts(m, qs);
    BumpAllCounts(n, ps);
  }
}
