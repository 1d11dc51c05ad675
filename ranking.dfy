/**
 * Ordering positions of a sequence by a real key, ties broken by position.
 *
 * Every sort in the report is one of these: the ascending values pandas
 * interpolates a quantile between, `Series.sort_index()` over time buckets,
 * and Python's stable `sorted(..., reverse=True)` over artists (key = the
 * negated trend, so that equal trends keep their original order).
 */
module Ranking {
  import opened Collections

  /** Position `i` comes before position `j`: smaller key, or equal key and earlier. */
  predicate Precedes(keys: seq<real>, i: nat, j: nat)
    requires i < |keys| && j < |keys|
  {
    keys[i] < keys[j] || (keys[i] == keys[j] && i < j)
  }

  predicate InRange(keys: seq<real>, s: seq<nat>) {
    forall k :: 0 <= k < |s| ==> s[k] < |keys|
  }

  /** `s` lists positions of `keys` in strictly increasing (key, position) order. */
  predicate Ranked(keys: seq<real>, s: seq<nat>) {
    InRange(keys, s) && forall a, b :: 0 <= a < b < |s| ==> Precedes(keys, s[a], s[b])
  }

  /** The positions 0, 1, ..., n - 1. */
  function Range(n: nat): (r: seq<nat>)
    ensures |r| == n && forall k :: 0 <= k < n ==> r[k] == k
  {
    if n == 0 then [] else Range(n - 1) + [n - 1]
  }

  /** Places position `x` before the first position of `s` that it precedes. */
  function Insert(keys: seq<real>, x: nat, s: seq<nat>): (r: seq<nat>)
    requires x < |keys| && InRange(keys, s)
    ensures InRange(keys, r)
    ensures multiset(r) == multiset(s) + multiset{x}
  {
    if s == [] then [x]
    else if Precedes(keys, x, s[0]) then [x] + s
    else
      assert s == [s[0]] + s[1..];
      [s[0]] + Insert(keys, x, s[1..])
  }

  /** Inserting into a ranked sequence keeps it ranked. */
  lemma {:induction false} InsertRanked(keys: seq<real>, x: nat, s: seq<nat>)
    requires x < |keys| && Ranked(keys, s) && x !in s
    ensures Ranked(keys, Insert(keys, x, s))
  {
    if s != [] {
      if Precedes(keys, x, s[0]) {
        RankedFront(keys, x, s);
      } else {
        RankedHead(keys, s);
        assert s == [s[0]] + s[1..];
        InsertRanked(keys, x, s[1..]);
        RankedCons(keys, s[0], Insert(keys, x, s[1..]), multiset(s[1..]) + multiset{x});
      }
    }
  }

  /** The rest of a ranked sequence is ranked, and its head precedes every other position in it. */
  lemma RankedHead(keys: seq<real>, s: seq<nat>)
    requires Ranked(keys, s) && s != []
    ensures Ranked(keys, s[1..])
    ensures forall y :: y in multiset(s[1..]) ==> y < |keys| && Precedes(keys, s[0], y)
  {
    forall a, b | 0 <= a < b < |s[1..]| ensures Precedes(keys, s[1..][a], s[1..][b]) {
      assert s[1..][a] == s[a + 1] && s[1..][b] == s[b + 1];
    }
    forall y | y in multiset(s[1..]) ensures y < |keys| && Precedes(keys, s[0], y) {
      var j :| 0 <= j < |s[1..]| && s[1..][j] == y;
      assert s[j + 1] == y;
    }
  }

  /** A position that precedes the head of a ranked sequence can go in front of it. */
  lemma RankedFront(keys: seq<real>, x: nat, s: seq<nat>)
    requires x < |keys| && Ranked(keys, s) && s != [] && Precedes(keys, x, s[0])
    ensures Ranked(keys, [x] + s)
  {
    var r := [x] + s;
    forall i, j | 0 <= i < j < |r| ensures Precedes(keys, r[i], r[j]) {
      if i == 0 && j > 1 {
        assert Precedes(keys, s[0], s[j - 1]);
      }
    }
  }

  /** A position that precedes every position of a ranked sequence can go in front of it. */
  lemma RankedCons(keys: seq<real>, a: nat, t: seq<nat>, m: multiset<nat>)
    requires a < |keys| && Ranked(keys, t) && multiset(t) == m
    requires forall y :: y in m ==> y < |keys| && Precedes(keys, a, y)
    ensures Ranked(keys, [a] + t)
  {
    var r := [a] + t;
    forall i, j | 0 <= i < j < |r| ensures Precedes(keys, r[i], r[j]) {
      if i == 0 {
        assert r[j] == t[j - 1] && t[j - 1] in m;
      } else {
        assert r[i] == t[i - 1] && r[j] == t[j - 1];
      }
    }
  }

  /** Ranks a list of distinct positions (insertion sort). */
  function Rank(keys: seq<real>, s: seq<nat>): (r: seq<nat>)
    requires InRange(keys, s) && Distinct(s)
    ensures Ranked(keys, r)
    ensures multiset(r) == multiset(s)
  {
    if s == [] then []
    else
      var init, last := s[..|s| - 1], s[|s| - 1];
      assert s == init + [last];
      var r := Rank(keys, init);
      assert last !in multiset(r);
      InsertRanked(keys, last, r);
      Insert(keys, last, r)
  }

  /** All positions of `keys`, ranked: the unique stable ascending order. */
  function Order(keys: seq<real>): (r: seq<nat>)
    ensures |r| == |keys| && Ranked(keys, r)
    ensures forall i :: 0 <= i < |keys| ==> i in r
  {
    var all := Range(|keys|);
    assert Distinct(all);
    var r := Rank(keys, all);
    assert |r| == |keys| by {
      calc {
        |r|;
        |multiset(r)|;
        |multiset(all)|;
        |all|;
      }
    }
    assert forall i :: 0 <= i < |keys| ==> i in r by {
      forall i | 0 <= i < |keys| ensures i in r {
        assert all[i] == i;
        assert i in multiset(all);
      }
    }
    r
  }

  /** The values found at the positions `s`. */
  function Pick<T>(vals: seq<T>, s: seq<nat>): (r: seq<T>)
    requires forall k :: 0 <= k < |s| ==> s[k] < |vals|
    ensures |r| == |s| && forall k :: 0 <= k < |s| ==> r[k] == vals[s[k]]
  {
    seq(|s|, k requires 0 <= k < |s| => vals[s[k]])
  }

  /** Distinct positions of distinct values pick distinct values, each found back at its position. */
  lemma PickIndices<T>(vals: seq<T>, s: seq<nat>)
    requires Distinct(vals) && Distinct(s) && forall k :: 0 <= k < |s| ==> s[k] < |vals|
    ensures Distinct(Pick(vals, s))
    ensures forall k :: 0 <= k < |s| ==> IndexOf(vals, Pick(vals, s)[k]) == s[k]
  {
    var p := Pick(vals, s);
    forall k | 0 <= k < |s| ensures IndexOf(vals, p[k]) == s[k] {
      assert vals[s[k]] == p[k];
    }
  }

  /** A value missing from the picked values was not at any picked position. */
  lemma PickMissing<T>(vals: seq<T>, s: seq<nat>, x: T)
    requires (forall k :: 0 <= k < |s| ==> s[k] < |vals|) && x in vals && x !in Pick(vals, s)
    ensures IndexOf(vals, x) !in s
  {
    assert forall k :: 0 <= k < |s| ==> Pick(vals, s)[k] == vals[s[k]];
  }

  lemma PickCons<T>(vals: seq<T>, a: nat, t: seq<nat>)
    requires a < |vals| && forall k :: 0 <= k < |t| ==> t[k] < |vals|
    ensures Pick(vals, [a] + t) == [vals[a]] + Pick(vals, t)
  {
  }

  lemma PickSnoc<T>(vals: seq<T>, t: seq<nat>, a: nat)
    requires a < |vals| && forall k :: 0 <= k < |t| ==> t[k] < |vals|
    ensures Pick(vals, t + [a]) == Pick(vals, t) + [vals[a]]
  {
    var l, r := Pick(vals, t + [a]), Pick(vals, t) + [vals[a]];
    assert |l| == |r|;
    forall k | 0 <= k < |l| ensures l[k] == r[k] {
      if k < |t| {
        assert (t + [a])[k] == t[k];
      }
    }
  }

  lemma {:induction false} PickInsert<T>(keys: seq<real>, vals: seq<T>, x: nat, s: seq<nat>)
    requires |vals| == |keys| && x < |keys| && InRange(keys, s)
    ensures multiset(Pick(vals, Insert(keys, x, s))) == multiset(Pick(vals, s)) + multiset{vals[x]}
  {
    if s == [] {
      assert Pick(vals, Insert(keys, x, s)) == [vals[x]];
    } else if Precedes(keys, x, s[0]) {
      PickCons(vals, x, s);
    } else {
      assert s == [s[0]] + s[1..];
      var tail := Insert(keys, x, s[1..]);
      assert Insert(keys, x, s) == [s[0]] + tail;
      PickInsert(keys, vals, x, s[1..]);
      PickCons(vals, s[0], tail);
      PickCons(vals, s[0], s[1..]);
    }
  }

  /** One step of `Rank`: the last position is inserted into the ranked rest. */
  lemma RankStep(keys: seq<real>, s: seq<nat>)
    requires InRange(keys, s) && Distinct(s) && s != []
    ensures InRange(keys, s[..|s| - 1]) && Distinct(s[..|s| - 1])
    ensures s[|s| - 1] !in Rank(keys, s[..|s| - 1])
    ensures Rank(keys, s) == Insert(keys, s[|s| - 1], Rank(keys, s[..|s| - 1]))
  {
    var init, last := s[..|s| - 1], s[|s| - 1];
    assert s == init + [last];
    assert last !in init;
    assert last !in multiset(Rank(keys, init));
  }

  /** The values at positions `s` are those at all but the last, plus the last one's. */
  lemma PickLast<T>(vals: seq<T>, s: seq<nat>)
    requires s != [] && forall k :: 0 <= k < |s| ==> s[k] < |vals|
    ensures multiset(Pick(vals, s)) == multiset(Pick(vals, s[..|s| - 1])) + multiset{vals[s[|s| - 1]]}
  {
    var init, last := s[..|s| - 1], s[|s| - 1];
    PickSnoc(vals, init, last);
    assert s == init + [last];
  }

  /** Ranking one more position adds its value to the ranked values. */
  lemma PickRankLast<T>(keys: seq<real>, vals: seq<T>, s: seq<nat>)
    requires |vals| == |keys| && InRange(keys, s) && Distinct(s) && s != []
    requires InRange(keys, s[..|s| - 1]) && Distinct(s[..|s| - 1])
    ensures multiset(Pick(vals, Rank(keys, s))) == multiset(Pick(vals, Rank(keys, s[..|s| - 1]))) + multiset{vals[s[|s| - 1]]}
  {
    RankStep(keys, s);
    PickInsert(keys, vals, s[|s| - 1], Rank(keys, s[..|s| - 1]));
  }

  lemma {:induction false} PickRank<T>(keys: seq<real>, vals: seq<T>, s: seq<nat>)
    requires |vals| == |keys| && InRange(keys, s) && Distinct(s)
    ensures multiset(Pick(vals, Rank(keys, s))) == multiset(Pick(vals, s))
  {
    if s != [] {
      RankStep(keys, s);
      PickRank(keys, vals, s[..|s| - 1]);
      PickRankLast(keys, vals, s);
      PickLast(vals, s);
    }
  }

  /** Reading the values in ranked order only rearranges them. */
  lemma PickOrder<T>(keys: seq<real>, vals: seq<T>)
    requires |vals| == |keys|
    ensures multiset(Pick(vals, Order(keys))) == multiset(vals)
  {
    var all := Range(|keys|);
    assert Distinct(all);
    PickRank(keys, vals, all);
    assert Pick(vals, all) == vals;
  }

  /** A ranked sequence never repeats a position. */
  lemma RankedDistinct(keys: seq<real>, s: seq<nat>)
    requires Ranked(keys, s)
    ensures Distinct(s)
  {
  }

  /** With distinct keys the ranked order is strictly increasing in the key. */
  lemma OrderStrict(keys: seq<real>)
    requires Distinct(keys)
    ensures forall a, b :: 0 <= a < b < |keys| ==> keys[Order(keys)[a]] < keys[Order(keys)[b]]
  {
    var r := Order(keys);
    RankedDistinct(keys, r);
    forall a, b | 0 <= a < b < |keys| ensures keys[r[a]] < keys[r[b]] {
      assert Precedes(keys, r[a], r[b]);
      assert r[a] != r[b];
    }
  }

  /**
   * The first `m` positions of the ranked order (all of them when there are
   * fewer): ranked themselves, and every position left out comes after every
   * position taken.
   */
  function Leading(keys: seq<real>, m: nat): (r: seq<nat>)
    ensures |r| == MinNat(m, |keys|) && Ranked(keys, r) && Distinct(r)
    ensures forall p, i :: 0 <= p < |keys| && p !in r && 0 <= i < |r| ==> Precedes(keys, r[i], p)
  {
    var all := Order(keys);
    var r := all[..MinNat(m, |keys|)];
    RankedDistinct(keys, r);
    forall p, i | 0 <= p < |keys| && p !in r && 0 <= i < |r| ensures Precedes(keys, r[i], p) {
      assert p in all;
      var k :| 0 <= k < |all| && all[k] == p;
      assert k >= |r| by {
        assert forall j :: 0 <= j < |r| ==> r[j] == all[j];
      }
      assert r[i] == all[i];
    }
    r
  }
}
