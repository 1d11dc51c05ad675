/**
 * pandas' default `Series.quantile(p)` ("linear": interpolation between the
 * two closest ranks, definition 7 of Hyndman and Fan, 1996), over exact reals.
 */
module Quantiles {
  import opened Ranking

  /** Non-decreasing. */
  predicate Sorted(s: seq<real>) {
    forall i, j :: 0 <= i <= j < |s| ==> s[i] <= s[j]
  }

  function Min(v: seq<real>): (m: real)
    requires |v| > 0
    ensures m in v && forall i :: 0 <= i < |v| ==> m <= v[i]
  {
    if |v| == 1 then v[0]
    else
      var m := Min(v[1..]);
      assert m in v;
      if v[0] <= m then v[0] else m
  }

  function Max(v: seq<real>): (m: real)
    requires |v| > 0
    ensures m in v && forall i :: 0 <= i < |v| ==> v[i] <= m
  {
    if |v| == 1 then v[0]
    else
      var m := Max(v[1..]);
      assert m in v;
      if m <= v[0] then v[0] else m
  }

  /** The values in ascending order, as pandas sorts them before interpolating. */
  function Ascending(v: seq<real>): (s: seq<real>)
    ensures |s| == |v| && Sorted(s)
    ensures multiset(s) == multiset(v)
  {
    PickOrder(v, v);
    Pick(v, Order(v))
  }

  /** Scaling by a non-negative factor keeps the order. */
  lemma ScaleMonotone(a: real, p: real, p': real)
    requires 0.0 <= a && p <= p'
    ensures a * p <= a * p'
  {
    assert a * p' - a * p == a * (p' - p);
  }

  /** a + g * (b - a) lies between a and b, moving up with g. */
  lemma Lerp(a: real, b: real, g: real, g': real)
    requires a <= b && 0.0 <= g <= g' <= 1.0
    ensures a <= a + g * (b - a) <= a + g' * (b - a) <= b
  {
    var d := b - a;
    assert 0.0 <= g * d;
    assert g * d <= g' * d;
    assert g' * d <= 1.0 * d;
  }

  /** The fractional rank `(n - 1) * p` pandas interpolates at. */
  function RankAt(n: nat, p: real): real {
    (n - 1) as real * p
  }

  lemma RankAtWithin(n: nat, p: real)
    requires n > 0 && 0.0 <= p <= 1.0
    ensures 0.0 <= RankAt(n, p) <= (n - 1) as real
  {
    var a := (n - 1) as real;
    ScaleMonotone(a, 0.0, p);
    ScaleMonotone(a, p, 1.0);
    assert 0.0 <= a * p <= a;
  }

  /** The closest rank at or below `RankAt(n, p)`. */
  function Below(n: nat, p: real): (j: nat)
    requires n > 0 && 0.0 <= p <= 1.0
    ensures j <= n - 1
    ensures j as real <= RankAt(n, p) < j as real + 1.0
  {
    RankAtWithin(n, p);
    RankAt(n, p).Floor
  }

  /** The p-quantile of ascending `s`: between the closest ranks below and above. */
  function QuantileSorted(s: seq<real>, p: real): (q: real)
    requires |s| > 0 && Sorted(s) && 0.0 <= p <= 1.0
    ensures s[Below(|s|, p)] <= q
    ensures Below(|s|, p) + 1 < |s| ==> q <= s[Below(|s|, p) + 1]
    ensures Below(|s|, p) + 1 == |s| ==> q == s[|s| - 1]
  {
    var j := Below(|s|, p);
    var g := RankAt(|s|, p) - j as real;
    if j + 1 < |s| then
      Lerp(s[j], s[j + 1], g, g);
      s[j] + g * (s[j + 1] - s[j])
    else
      s[j]
  }

  /**
   * The p-quantile of the values `v` (in any order); p outside [0, 1] is
   * refused by pandas. It never leaves the range of the values, and p = 0
   * and p = 1 give its ends.
   */
  function Quantile(v: seq<real>, p: real): (q: real)
    requires |v| > 0 && 0.0 <= p <= 1.0
    ensures Min(v) <= q <= Max(v)
    ensures p == 0.0 ==> q == Min(v)
    ensures p == 1.0 ==> q == Max(v)
  {
    var s := Ascending(v);
    AscendingEnds(v);
    QuantileSortedMonotone(s, 0.0, p);
    QuantileSortedMonotone(s, p, 1.0);
    QuantileSortedEnds(s);
    QuantileSorted(s, p)
  }

  /** The smallest and the largest value are the ends of the ascending order. */
  lemma AscendingEnds(v: seq<real>)
    requires |v| > 0
    ensures Ascending(v)[0] == Min(v) && Ascending(v)[|v| - 1] == Max(v)
  {
    var s := Ascending(v);
    assert s[0] in multiset(v) && s[|v| - 1] in multiset(v);
    assert Min(v) in multiset(s) && Max(v) in multiset(s);
  }

  /** At p = 0 and p = 1 the interpolation lands exactly on the first and the last value. */
  lemma {:induction false} QuantileSortedEnds(s: seq<real>)
    requires |s| > 0 && Sorted(s)
    ensures QuantileSorted(s, 0.0) == s[0]
    ensures QuantileSorted(s, 1.0) == s[|s| - 1]
  {
    var n := |s|;
    assert RankAt(n, 0.0) == 0.0;
    assert Below(n, 0.0) == 0;
    assert RankAt(n, 1.0) == (n - 1) as real;
    assert Below(n, 1.0) == n - 1;
  }

  lemma {:induction false} QuantileSortedMonotone(s: seq<real>, p: real, p': real)
    requires |s| > 0 && Sorted(s) && 0.0 <= p <= p' <= 1.0
    ensures QuantileSorted(s, p) <= QuantileSorted(s, p')
  {
    var n := |s|;
    var h, h' := RankAt(n, p), RankAt(n, p');
    ScaleMonotone((n - 1) as real, p, p');
    assert h <= h';
    var j, j' := Below(n, p), Below(n, p');
    assert (j as real) < (j' as real) + 1.0;
    if j == j' {
      if j + 1 < n {
        Lerp(s[j], s[j + 1], h - j as real, h' - j as real);
      }
    } else {
      assert s[j + 1] <= s[j'];
    }
  }

  /** Raising p never lowers the quantile. */
  lemma QuantileMonotone(v: seq<real>, p: real, p': real)
    requires |v| > 0 && 0.0 <= p <= p' <= 1.0
    ensures Quantile(v, p) <= Quantile(v, p')
  {
    QuantileSortedMonotone(Ascending(v), p, p');
  }
}
