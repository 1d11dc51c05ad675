/**
 * The percentile classifier: a pandas Series, seen as its (label, value)
 * rows, filtered against one of its own quantiles with a closed comparison
 * (`s[s <= s.quantile(p)].index` and `s[s >= s.quantile(p)].index`).
 */
module Classify {
  import opened Collections
  import opened Quantiles
  import opened Counting

  /** The share at the other end, `1 - p`: the top cut that mirrors a bottom cut at p. */
  function Complement(p: real): real {
    1.0 - p
  }

  /**
   * The labels whose value is at or below the p-quantile. An empty series
   * has a NaN quantile, against which every comparison is false.
   */
  function AtOrBelow<K(==)>(t: seq<(K, real)>, p: real): (r: set<K>)
    requires 0.0 <= p <= 1.0
    ensures r <= Labels(t)
    ensures |t| > 0 ==> forall i :: 0 <= i < |t| && t[i].1 == Min(Column(t)) ==> t[i].0 in r
  {
    if |t| == 0 then {}
    else
      var q := Quantile(Column(t), p);
      set i | 0 <= i < |t| && t[i].1 <= q :: t[i].0
  }

  /** The labels whose value is at or above the p-quantile. */
  function AtOrAbove<K(==)>(t: seq<(K, real)>, p: real): (r: set<K>)
    requires 0.0 <= p <= 1.0
    ensures r <= Labels(t)
    ensures |t| > 0 ==> forall i :: 0 <= i < |t| && t[i].1 == Max(Column(t)) ==> t[i].0 in r
  {
    if |t| == 0 then {}
    else
      var q := Quantile(Column(t), p);
      set i | 0 <= i < |t| && q <= t[i].1 :: t[i].0
  }

  /** A row holding a least value is in every bottom cut. */
  lemma LeastBelow<K>(t: seq<(K, real)>, p: real, i: nat)
    requires 0.0 <= p <= 1.0 && i < |t|
    requires forall k :: 0 <= k < |t| ==> t[i].1 <= t[k].1
    ensures t[i].0 in AtOrBelow(t, p)
  {
    var v := Column(t);
    var j :| 0 <= j < |v| && v[j] == Min(v);
    assert v[i] <= v[j];
  }

  /** A row holding a greatest value is in every top cut. */
  lemma GreatestAbove<K>(t: seq<(K, real)>, p: real, i: nat)
    requires 0.0 <= p <= 1.0 && i < |t|
    requires forall k :: 0 <= k < |t| ==> t[k].1 <= t[i].1
    ensures t[i].0 in AtOrAbove(t, p)
  {
    var v := Column(t);
    var j :| 0 <= j < |v| && v[j] == Max(v);
    assert v[j] <= v[i];
  }

  /** A key with the least count is in every bottom cut of the counter's items. */
  lemma LeastCountBelow<K(!new)>(t: Tally<K>, percentile: real)
    requires t.Valid() && 0.0 <= percentile <= 1.0
    ensures forall a :: t.HasLeast(a) ==> a in AtOrBelow(t.Items(), percentile)
  {
    var items := t.Items();
    forall a | t.HasLeast(a)
      ensures a in AtOrBelow(items, percentile)
    {
      var i := IndexOf(t.keys, a);
      forall k | 0 <= k < |items| ensures items[i].1 <= items[k].1 {
        assert t.keys[k] in t.count;
      }
      LeastBelow(items, percentile, i);
    }
  }

  /** A key of a counter is in a bottom cut of its items exactly when its own count is at or below the cut. */
  lemma AtOrBelowCount<K(!new)>(t: Tally<K>, percentile: real)
    requires t.Valid() && 0.0 <= percentile <= 1.0
    ensures forall a :: a in t.count ==>
              (a in AtOrBelow(t.Items(), percentile) <==> t.count[a] as real <= Quantile(Column(t.Items()), percentile))
  {
    var items := t.Items();
    forall a | a in t.count
      ensures a in AtOrBelow(items, percentile) <==> t.count[a] as real <= Quantile(Column(items), percentile)
    {
      var i := IndexOf(t.keys, a);
      AtOrBelowMember(items, percentile, i);
    }
  }

  /** A key with the largest count is in every top cut of the counter's items. */
  lemma MostCountAbove<K(!new)>(t: Tally<K>, p: real)
    requires t.Valid() && 0.0 <= p <= 1.0
    ensures forall a :: t.HasMost(a) ==> a in AtOrAbove(t.Items(), p)
  {
    var items := t.Items();
    forall a | t.HasMost(a)
      ensures a in AtOrAbove(items, p)
    {
      var i := IndexOf(t.keys, a);
      forall k | 0 <= k < |items| ensures items[k].1 <= items[i].1 {
        assert t.keys[k] in t.count;
      }
      GreatestAbove(items, p, i);
    }
  }

  /** With unique labels, a label is at or below the cut exactly when its own value is. */
  lemma AtOrBelowMember<K>(t: seq<(K, real)>, p: real, i: nat)
    requires 0.0 <= p <= 1.0 && UniqueLabels(t) && i < |t|
    ensures t[i].0 in AtOrBelow(t, p) <==> t[i].1 <= Quantile(Column(t), p)
  {
    if t[i].0 in AtOrBelow(t, p) {
      var k :| 0 <= k < |t| && t[k].1 <= Quantile(Column(t), p) && t[k].0 == t[i].0;
      assert k == i;
    }
  }

  /** With unique labels, a label is at or above the cut exactly when its own value is. */
  lemma AtOrAboveMember<K>(t: seq<(K, real)>, p: real, i: nat)
    requires 0.0 <= p <= 1.0 && UniqueLabels(t) && i < |t|
    ensures t[i].0 in AtOrAbove(t, p) <==> Quantile(Column(t), p) <= t[i].1
  {
    if t[i].0 in AtOrAbove(t, p) {
      var k :| 0 <= k < |t| && Quantile(Column(t), p) <= t[k].1 && t[k].0 == t[i].0;
      assert k == i;
    }
  }

  /** Raising the percentile never removes a label from the bottom selection. */
  lemma AtOrBelowMonotone<K>(t: seq<(K, real)>, p: real, p': real)
    requires 0.0 <= p <= p' <= 1.0
    ensures AtOrBelow(t, p) <= AtOrBelow(t, p')
  {
    if |t| > 0 {
      QuantileMonotone(Column(t), p, p');
    }
  }

  /** Raising the percentile never adds a label to the top selection. */
  lemma AtOrAboveAntitone<K>(t: seq<(K, real)>, p: real, p': real)
    requires 0.0 <= p <= p' <= 1.0
    ensures AtOrAbove(t, p') <= AtOrAbove(t, p)
  {
    if |t| > 0 {
      QuantileMonotone(Column(t), p, p');
    }
  }

  /**
   * A bottom cut at p and a top cut at p' >= p share a label only when both
   * quantiles coincide with that label's value.
   */
  lemma BothSidesOnlyAtTie<K>(t: seq<(K, real)>, p: real, p': real, i: nat)
    requires 0.0 <= p <= p' <= 1.0 && UniqueLabels(t) && i < |t|
    ensures t[i].0 in AtOrBelow(t, p) && t[i].0 in AtOrAbove(t, p') ==>
              Quantile(Column(t), p) == Quantile(Column(t), p') == t[i].1
  {
    AtOrBelowMember(t, p, i);
    AtOrAboveMember(t, p', i);
    QuantileMonotone(Column(t), p, p');
  }

  /** When every value is the same, every value is both the least and the greatest. */
  lemma AllEqualEnds<K>(t: seq<(K, real)>)
    requires |t| > 0 && forall i :: 0 <= i < |t| ==> t[i].1 == t[0].1
    ensures forall i :: 0 <= i < |t| ==> t[i].1 == Min(Column(t)) && t[i].1 == Max(Column(t))
  {
    var v := Column(t);
    var a :| 0 <= a < |v| && v[a] == Min(v);
    var b :| 0 <= b < |v| && v[b] == Max(v);
    assert v[a] == t[a].1 && v[b] == t[b].1;
  }

  /** A series whose every value is its least value lies wholly at or below any of its quantiles. */
  lemma AllEqualBelow<K>(t: seq<(K, real)>, p: real)
    requires 0.0 <= p <= 1.0 && |t| > 0
    requires forall i :: 0 <= i < |t| ==> t[i].1 == Min(Column(t))
    ensures AtOrBelow(t, p) == Labels(t)
  {
    forall k | k in Labels(t) ensures k in AtOrBelow(t, p) {
      var i :| 0 <= i < |t| && t[i].0 == k;
    }
  }

  /** A series whose every value is its greatest value lies wholly at or above any of its quantiles. */
  lemma AllEqualAbove<K>(t: seq<(K, real)>, p: real)
    requires 0.0 <= p <= 1.0 && |t| > 0
    requires forall i :: 0 <= i < |t| ==> t[i].1 == Max(Column(t))
    ensures AtOrAbove(t, p) == Labels(t)
  {
    forall k | k in Labels(t) ensures k in AtOrAbove(t, p) {
      var i :| 0 <= i < |t| && t[i].0 == k;
    }
  }

  /** When every value is the same, both selections take every label. */
  lemma AllEqualSelectsAll<K>(t: seq<(K, real)>, p: real)
    requires 0.0 <= p <= 1.0
    requires forall i :: 0 <= i < |t| ==> t[i].1 == t[0].1
    ensures AtOrBelow(t, p) == Labels(t) == AtOrAbove(t, p)
  {
    if |t| > 0 {
      AllEqualEnds(t);
      AllEqualBelow(t, p);
      AllEqualAbove(t, p);
    }
  }
}
