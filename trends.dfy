/**
 * The trend ranking: each artist's listens per bucket in time order, the
 * mean change from one bucket to the next, and the artists with the
 * largest mean change first.
 */
module Trends {
  import opened Collections
  import opened Ranking
  import opened Counting
  import opened ArtistSeries

  /** How many artists the ranking reports. */
  const TOP: nat := 10

  /** The buckets as reals, the key they are ordered by. */
  function BucketKeys(bs: seq<Bucket>): (keys: seq<real>)
    ensures |keys| == |bs| && forall i :: 0 <= i < |bs| ==> keys[i] == bs[i] as real
  {
    seq(|bs|, i requires 0 <= i < |bs| => bs[i] as real)
  }

  lemma InOrder(bs: seq<Bucket>)
    requires Distinct(bs)
    ensures var r := Order(BucketKeys(bs));
            forall i, j :: 0 <= i < j < |r| ==> Pick(bs, r)[i] < Pick(bs, r)[j]
  {
    var keys := BucketKeys(bs);
    assert Distinct(keys);
    OrderStrict(keys);
  }

  lemma OrderCovers(bs: seq<Bucket>)
    ensures forall b :: b in bs ==> b in Pick(bs, Order(BucketKeys(bs)))
  {
    var r := Order(BucketKeys(bs));
    forall b | b in bs ensures b in Pick(bs, r) {
      var p :| 0 <= p < |bs| && bs[p] == b;
      assert p in r;
      var k :| 0 <= k < |r| && r[k] == p;
      assert Pick(bs, r)[k] == b;
    }
  }

  /** The buckets of one artist's series in time order (`sort_index()`). */
  function SortedBuckets(t: Tally<Bucket>): (bs: seq<Bucket>)
    requires t.Valid()
    ensures |bs| == |t.keys|
    ensures forall i, j :: 0 <= i < j < |bs| ==> bs[i] < bs[j]
    ensures forall b :: b in bs <==> b in t.count
  {
    InOrder(t.keys);
    OrderCovers(t.keys);
    Pick(t.keys, Order(BucketKeys(t.keys)))
  }

  /** The counts of a series in time order. */
  function SortedCounts(t: Tally<Bucket>): (s: seq<real>)
    requires t.Valid()
    ensures |s| == |t.keys|
    ensures forall i :: 0 <= i < |s| ==> s[i] == t.count[SortedBuckets(t)[i]] as real
  {
    var bs := SortedBuckets(t);
    seq(|bs|, i requires 0 <= i < |bs| => t.count[bs[i]] as real)
  }

  /** `.diff()` without its leading NaN: the change from each bucket to the next. */
  function Diffs(s: seq<real>): (d: seq<real>)
    requires |s| > 0
    ensures |d| == |s| - 1 && forall i :: 0 <= i < |d| ==> d[i] == s[i + 1] - s[i]
  {
    seq(|s| - 1, i requires 0 <= i < |s| - 1 => s[i + 1] - s[i])
  }

  function Sum(d: seq<real>): real {
    if d == [] then 0.0 else Sum(d[..|d| - 1]) + d[|d| - 1]
  }

  /**
   * `.diff().mean()`: the mean change per step between consecutive buckets.
   * A series of one bucket has no step, and its mean is NaN (None here).
   */
  function Trend(t: Tally<Bucket>): (m: Option<real>)
    requires t.Valid()
    ensures m.Some? <==> |t.keys| >= 2
  {
    if |t.keys| < 2 then None
    else
      var d := Diffs(SortedCounts(t));
      Some(Sum(d) / |d| as real)
  }

  /** The changes between consecutive values add up to the change from the first to the last. */
  lemma {:induction false} SumDiffs(s: seq<real>)
    requires |s| > 0
    ensures Sum(Diffs(s)) == s[|s| - 1] - s[0]
  {
    if |s| > 1 {
      var init := s[..|s| - 1];
      SumDiffs(init);
      var d := Diffs(s);
      assert d[..|d| - 1] == Diffs(init);
    }
  }

  /**
   * The trend telescopes: the change from the earliest to the latest bucket,
   * divided by the number of steps between them. It is positive exactly when
   * the latest bucket has more listens than the earliest.
   */
  lemma TrendTelescopes(t: Tally<Bucket>)
    requires t.Valid() && |t.keys| >= 2
    ensures var bs := SortedBuckets(t);
            var first, last := t.count[bs[0]] as real, t.count[bs[|bs| - 1]] as real;
            && Trend(t) == Some((last - first) / (|bs| - 1) as real)
            && (Trend(t).value > 0.0 <==> last > first)
  {
    var s := SortedCounts(t);
    SumDiffs(s);
    PositiveRatio(s[|s| - 1] - s[0], (|s| - 1) as real);
  }

  lemma PositiveRatio(x: real, y: real)
    requires y > 0.0
    ensures x / y > 0.0 <==> x > 0.0
  {
    var q := x / y;
    assert q * y == x;
    if q > 0.0 {
      assert q * y > 0.0;
    } else {
      assert q * y <= 0.0;
    }
  }

  /** Every artist's series spans at least two buckets, so every trend is a number. */
  predicate AllTrendsDefined(n: Nested<ArtistKey, Bucket>)
    requires n.Valid()
  {
    forall a :: a in n.inner ==> |n.inner[a].keys| >= 2
  }

  /** The trend of an artist. */
  function TrendOf(n: Nested<ArtistKey, Bucket>, a: ArtistKey): real
    requires n.Valid() && AllTrendsDefined(n) && a in n.inner
  {
    Trend(n.inner[a]).value
  }

  /** `artist_trends`: every artist's trend, in the order of the artists. */
  function ArtistTrends(n: Nested<ArtistKey, Bucket>): (tr: seq<real>)
    requires n.Valid() && AllTrendsDefined(n)
    ensures |tr| == |n.keys| && forall i :: 0 <= i < |tr| ==> tr[i] == TrendOf(n, n.keys[i])
  {
    seq(|n.keys|, i requires 0 <= i < |n.keys| => TrendOf(n, n.keys[i]))
  }

  /** The values negated: ascending in these is descending in the values. */
  function Negated(tr: seq<real>): (down: seq<real>)
    ensures |down| == |tr| && forall i :: 0 <= i < |tr| ==> down[i] == -tr[i]
  {
    seq(|tr|, i requires 0 <= i < |tr| => -tr[i])
  }

  /** Taken first among the negated values is larger, or equal and earlier. */
  lemma PrecedesNegated(tr: seq<real>, i: nat, j: nat)
    requires i < |tr| && j < |tr| && Precedes(Negated(tr), i, j)
    ensures tr[i] > tr[j] || (tr[i] == tr[j] && i < j)
  {
  }

  /**
   * The positions of the TOP largest values (all of them when there are
   * fewer), largest first, equal values in position order: a stable sort by
   * the value, descending, cut after TOP.
   */
  function TopPositions(tr: seq<real>): (r: seq<nat>)
    ensures |r| == MinNat(TOP, |tr|) && Distinct(r) && forall i :: 0 <= i < |r| ==> r[i] < |tr|
    ensures forall i, j :: 0 <= i < j < |r| ==> tr[r[i]] > tr[r[j]] || (tr[r[i]] == tr[r[j]] && r[i] < r[j])
    ensures forall p, i :: 0 <= p < |tr| && p !in r && 0 <= i < |r| ==> tr[p] <= tr[r[i]]
    ensures forall p, i :: 0 <= p < |tr| && p !in r && 0 <= i < |r| && tr[p] == tr[r[i]] ==> r[i] < p
  {
    var r := Leading(Negated(tr), TOP);
    forall i, j | 0 <= i < j < |r| ensures tr[r[i]] > tr[r[j]] || (tr[r[i]] == tr[r[j]] && r[i] < r[j]) {
      PrecedesNegated(tr, r[i], r[j]);
    }
    forall p, i | 0 <= p < |tr| && p !in r && 0 <= i < |r|
      ensures tr[p] <= tr[r[i]]
      ensures tr[p] == tr[r[i]] ==> r[i] < p
    {
      PrecedesNegated(tr, r[i], p);
    }
    r
  }

  /** The top artists read off the top positions: each one's position among the artists is its entry. */
  lemma TopIndices(n: Nested<ArtistKey, Bucket>)
    requires n.Valid() && AllTrendsDefined(n)
    ensures var r := TopPositions(ArtistTrends(n));
            var top := Pick(n.keys, r);
            && Distinct(top)
            && (forall i :: 0 <= i < |top| ==> top[i] in n.inner && IndexOf(n.keys, top[i]) == r[i])
  {
    var r := TopPositions(ArtistTrends(n));
    var top := Pick(n.keys, r);
    PickIndices(n.keys, r);
    forall i | 0 <= i < |top| ensures top[i] in n.inner {
      assert top[i] == n.keys[r[i]];
    }
  }

  /**
   * `identify_top_artists_increasing_popularity`: the (at most) TOP artists
   * with the largest trends, read off the top positions among the artists.
   * `TopArtistsOrder` and `TopArtistsCut` state how they are ordered and
   * what holds of the artists left out.
   */
  function IdentifyTopArtists(n: Nested<ArtistKey, Bucket>): (top: seq<ArtistKey>)
    requires n.Valid() && AllTrendsDefined(n)
    ensures |top| == MinNat(TOP, |n.keys|)
    ensures Distinct(top) && forall i :: 0 <= i < |top| ==> top[i] in n.inner && top[i] in n.keys
  {
    TopIndices(n);
    Pick(n.keys, TopPositions(ArtistTrends(n)))
  }

  /**
   * Largest trend first; equal trends keep the order of the artists, since
   * the sort is stable.
   */
  lemma TopArtistsOrder(n: Nested<ArtistKey, Bucket>)
    requires n.Valid() && AllTrendsDefined(n)
    ensures var top := IdentifyTopArtists(n);
            forall i, j :: 0 <= i < j < |top| ==> TrendOf(n, top[i]) >= TrendOf(n, top[j])
    ensures var top := IdentifyTopArtists(n);
            forall i, j :: 0 <= i < j < |top| && TrendOf(n, top[i]) == TrendOf(n, top[j]) ==>
              IndexOf(n.keys, top[i]) < IndexOf(n.keys, top[j])
  {
    var tr := ArtistTrends(n);
    var r := TopPositions(tr);
    var top := IdentifyTopArtists(n);
    assert top == Pick(n.keys, r);
    TopIndices(n);
    forall i, j | 0 <= i < j < |top|
      ensures TrendOf(n, top[i]) >= TrendOf(n, top[j])
      ensures TrendOf(n, top[i]) == TrendOf(n, top[j]) ==> IndexOf(n.keys, top[i]) < IndexOf(n.keys, top[j])
    {
      assert TrendOf(n, top[i]) == tr[r[i]];
      assert TrendOf(n, top[j]) == tr[r[j]];
    }
  }

  /** One artist left out against one taken: its trend is not larger, and on a tie it comes later. */
  lemma TopLeftOut(n: Nested<ArtistKey, Bucket>, a: ArtistKey, i: nat)
    requires n.Valid() && AllTrendsDefined(n)
    requires a in n.inner && a !in IdentifyTopArtists(n) && i < |IdentifyTopArtists(n)|
    ensures var top := IdentifyTopArtists(n);
            && TrendOf(n, a) <= TrendOf(n, top[i])
            && (TrendOf(n, a) == TrendOf(n, top[i]) ==> IndexOf(n.keys, top[i]) < IndexOf(n.keys, a))
  {
    var tr := ArtistTrends(n);
    var r := TopPositions(tr);
    var top := IdentifyTopArtists(n);
    assert top == Pick(n.keys, r);
    TopIndices(n);
    var p := IndexOf(n.keys, a);
    PickMissing(n.keys, r, a);
    assert p !in r;
    assert IndexOf(n.keys, top[i]) == r[i];
    assert TrendOf(n, a) == tr[p];
    assert TrendOf(n, top[i]) == tr[r[i]];
  }

  /**
   * The cut after TOP artists: no artist left out has a larger trend than one
   * that is in, and one left out with the same trend as one that is in comes
   * later among the artists, so of tied artists the earlier ones are kept.
   */
  lemma TopArtistsCut(n: Nested<ArtistKey, Bucket>)
    requires n.Valid() && AllTrendsDefined(n)
    ensures var top := IdentifyTopArtists(n);
            forall a, i :: a in n.inner && a !in top && 0 <= i < |top| ==> TrendOf(n, a) <= TrendOf(n, top[i])
    ensures var top := IdentifyTopArtists(n);
            forall a, i :: a in n.inner && a !in top && 0 <= i < |top| && TrendOf(n, a) == TrendOf(n, top[i]) ==>
              IndexOf(n.keys, top[i]) < IndexOf(n.keys, a)
  {
    var top := IdentifyTopArtists(n);
    forall a, i | a in n.inner && a !in top && 0 <= i < |top|
      ensures TrendOf(n, a) <= TrendOf(n, top[i])
      ensures TrendOf(n, a) == TrendOf(n, top[i]) ==> IndexOf(n.keys, top[i]) < IndexOf(n.keys, a)
    {
      TopLeftOut(n, a, i);
    }
  }
}
