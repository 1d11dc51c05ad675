/**
 * The monthly-table variant of the report: artists split into unpopular
 * and popular by their total listens, and niche users picked by the share
 * of their listens that went to unpopular artists.
 */
module Tasks {
  import opened Collections
  import opened Quantiles
  import opened Classify
  import opened Counting

  /** One row of the user-artist-month table: `count` listens of `artist` by `user`. */
  datatype MonthlyRow = MonthlyRow(user: UserId, artist: Artist, count: nat)

  /** The (artist, count) column pair. */
  function ArtistCounts(rows: seq<MonthlyRow>): (ps: seq<(Artist, nat)>)
    ensures |ps| == |rows| && forall i :: 0 <= i < |rows| ==> ps[i] == (rows[i].artist, rows[i].count)
  {
    seq(|rows|, i requires 0 <= i < |rows| => (rows[i].artist, rows[i].count))
  }

  /** The (user, count) column pair. */
  function UserCounts(rows: seq<MonthlyRow>): (ps: seq<(UserId, nat)>)
    ensures |ps| == |rows| && forall i :: 0 <= i < |rows| ==> ps[i] == (rows[i].user, rows[i].count)
  {
    seq(|rows|, i requires 0 <= i < |rows| => (rows[i].user, rows[i].count))
  }

  /** The (user, count) pairs of the rows whose artist is in `unpopular`, in row order. */
  function UnpopularUserCounts(rows: seq<MonthlyRow>, unpopular: set<Artist>): seq<(UserId, nat)> {
    if rows == [] then []
    else
      var last := rows[|rows| - 1];
      UnpopularUserCounts(rows[..|rows| - 1], unpopular)
        + (if last.artist in unpopular then [(last.user, last.count)] else [])
  }

  /** The artists present in the table. */
  function ArtistsOf(rows: seq<MonthlyRow>): set<Artist> {
    Labels(ArtistCounts(rows))
  }

  /** The users present in the table. */
  function UsersOf(rows: seq<MonthlyRow>): set<UserId> {
    Labels(UserCounts(rows))
  }

  /**
   * `data.groupby('artist')['count'].sum()`: one entry per artist present,
   * holding the sum of `count` over that artist's rows.
   */
  function ArtistPopularity(rows: seq<MonthlyRow>): (t: Tally<Artist>)
    ensures t.Valid()
    ensures t.count.Keys == ArtistsOf(rows)
    ensures forall a :: t.Get(a) == Weight(ArtistCounts(rows), a)
  {
    GroupSum(ArtistCounts(rows))
  }

  /**
   * `identify_poi_artists`: the artists whose total is at or below the
   * `percentile` quantile of all totals (unpopular), and those at or above
   * the `1 - percentile` quantile (popular). On a non-empty table the
   * least-played artist is unpopular and the most-played one popular.
   */
  function IdentifyPoiArtists(rows: seq<MonthlyRow>, percentile: real): (r: (set<Artist>, set<Artist>))
    requires 0.0 <= percentile <= 1.0
    ensures r.0 <= ArtistsOf(rows) && r.1 <= ArtistsOf(rows)
    ensures var t := ArtistPopularity(rows);
            forall a :: a in t.count ==>
              && (a in r.0 <==> t.count[a] as real <= Quantile(Column(t.Items()), percentile))
              && (a in r.1 <==> Quantile(Column(t.Items()), Complement(percentile)) <= t.count[a] as real)
    ensures var t := ArtistPopularity(rows);
            forall a :: t.HasLeast(a) ==> a in r.0
    ensures var t := ArtistPopularity(rows);
            forall a :: t.HasMost(a) ==> a in r.1
  {
    var t := ArtistPopularity(rows);
    var items := t.Items();
    var r := (AtOrBelow(items, percentile), AtOrAbove(items, Complement(percentile)));
    PoiMembers(t, percentile);
    LeastCountBelow(t, percentile);
    MostCountAbove(t, Complement(percentile));
    r
  }

  /** Membership in each cut, artist by artist. */
  lemma PoiMembers(t: Tally<Artist>, percentile: real)
    requires t.Valid() && 0.0 <= percentile <= 1.0
    ensures forall a :: a in t.count ==>
              && (a in AtOrBelow(t.Items(), percentile) <==> t.count[a] as real <= Quantile(Column(t.Items()), percentile))
              && (a in AtOrAbove(t.Items(), Complement(percentile)) <==> Quantile(Column(t.Items()), Complement(percentile)) <= t.count[a] as real)
  {
    var items := t.Items();
    forall a | a in t.count
      ensures a in AtOrBelow(items, percentile) <==> t.count[a] as real <= Quantile(Column(items), percentile)
      ensures a in AtOrAbove(items, Complement(percentile)) <==> Quantile(Column(items), Complement(percentile)) <= t.count[a] as real
    {
      var i := IndexOf(t.keys, a);
      AtOrBelowMember(items, percentile, i);
      AtOrAboveMember(items, Complement(percentile), i);
    }
  }

  /** For percentile at most one half the unpopular cut never lies above the popular one. */
  lemma PoiThresholdsOrdered(rows: seq<MonthlyRow>, percentile: real)
    requires rows != [] && 0.0 <= percentile <= 0.5
    ensures var v := Column(ArtistPopularity(rows).Items());
            |v| > 0 && Quantile(v, percentile) <= Quantile(v, Complement(percentile))
  {
    var t := ArtistPopularity(rows);
    var v := Column(t.Items());
    assert rows[0].artist in t.count;
    assert |v| == |t.keys| > 0;
    QuantileMonotone(v, percentile, Complement(percentile));
  }

  /**
   * For percentile at most one half, an artist is both unpopular and popular
   * only when both cuts coincide with its own total.
   */
  lemma PoiOverlapOnlyAtTie(rows: seq<MonthlyRow>, percentile: real, a: Artist)
    requires 0.0 <= percentile <= 0.5
    ensures a in IdentifyPoiArtists(rows, percentile).0 && a in IdentifyPoiArtists(rows, percentile).1 ==>
              var t := ArtistPopularity(rows);
              var v := Column(t.Items());
              && a in t.count && |v| > 0
              && Quantile(v, percentile) == Quantile(v, Complement(percentile)) == t.count[a] as real
  {
    var t := ArtistPopularity(rows);
    var items := t.Items();
    var r := IdentifyPoiArtists(rows, percentile);
    if a in r.0 && a in r.1 {
      assert r == (AtOrBelow(items, percentile), AtOrAbove(items, Complement(percentile)));
      assert a in t.count;
      var i := IndexOf(t.keys, a);
      assert items[i].0 == a;
      BothSidesOnlyAtTie(items, percentile, Complement(percentile), i);
    }
  }

  /**
   * A user's share of listens on unpopular artists: the unpopular part of
   * their total over the total, and 0 where pandas' division gives NaN (no
   * unpopular rows, or a total of 0) and `fillna(0)` replaces it.
   */
  function Proportion(rows: seq<MonthlyRow>, unpopular: set<Artist>, u: UserId): real {
    var total := Weight(UserCounts(rows), u);
    if total == 0 then 0.0 else Weight(UnpopularUserCounts(rows, unpopular), u) as real / total as real
  }

  /** The unpopular part of a user's total is part of it. */
  lemma {:induction false} UnpopularPartWithin(rows: seq<MonthlyRow>, unpopular: set<Artist>, u: UserId)
    ensures Weight(UnpopularUserCounts(rows, unpopular), u) <= Weight(UserCounts(rows), u)
  {
    if rows != [] {
      var init, last := rows[..|rows| - 1], rows[|rows| - 1];
      UnpopularPartWithin(init, unpopular, u);
      assert UserCounts(rows) == UserCounts(init) + [(last.user, last.count)];
      WeightSnoc(UserCounts(init), (last.user, last.count), u);
      if last.artist in unpopular {
        assert UnpopularUserCounts(rows, unpopular) == UnpopularUserCounts(init, unpopular) + [(last.user, last.count)];
        WeightSnoc(UnpopularUserCounts(init, unpopular), (last.user, last.count), u);
      } else {
        assert UnpopularUserCounts(rows, unpopular) == UnpopularUserCounts(init, unpopular);
      }
    }
  }

  /** A user none of whose rows is for an unpopular artist has no unpopular part. */
  lemma {:induction false} NoUnpopularRowsNoPart(rows: seq<MonthlyRow>, unpopular: set<Artist>, u: UserId)
    requires forall i :: 0 <= i < |rows| && rows[i].user == u ==> rows[i].artist !in unpopular
    ensures Weight(UnpopularUserCounts(rows, unpopular), u) == 0
  {
    if rows != [] {
      var init, last := rows[..|rows| - 1], rows[|rows| - 1];
      assert forall i :: 0 <= i < |init| ==> init[i] == rows[i];
      NoUnpopularRowsNoPart(init, unpopular, u);
      if last.artist in unpopular {
        assert last.user != u;
        assert UnpopularUserCounts(rows, unpopular) == UnpopularUserCounts(init, unpopular) + [(last.user, last.count)];
        WeightSnoc(UnpopularUserCounts(init, unpopular), (last.user, last.count), u);
      } else {
        assert UnpopularUserCounts(rows, unpopular) == UnpopularUserCounts(init, unpopular);
      }
    }
  }

  /** Every proportion is a share in [0, 1]; a user with no unpopular rows has 0. */
  lemma ProportionWithinUnit(rows: seq<MonthlyRow>, unpopular: set<Artist>, u: UserId)
    ensures 0.0 <= Proportion(rows, unpopular, u) <= 1.0
    ensures (forall i :: 0 <= i < |rows| && rows[i].user == u ==> rows[i].artist !in unpopular)
            ==> Proportion(rows, unpopular, u) == 0.0
  {
    UnpopularPartWithin(rows, unpopular, u);
    var total := Weight(UserCounts(rows), u);
    if total > 0 {
      ShareWithinUnit(Weight(UnpopularUserCounts(rows, unpopular), u), total);
    }
    if forall i :: 0 <= i < |rows| && rows[i].user == u ==> rows[i].artist !in unpopular {
      NoUnpopularRowsNoPart(rows, unpopular, u);
    }
  }

  /** Each user of `us`, in order, with their proportion. */
  function ProportionsOf(us: seq<UserId>, rows: seq<MonthlyRow>, unpopular: set<Artist>): (t: seq<(UserId, real)>)
    ensures |t| == |us|
    ensures forall i :: 0 <= i < |t| ==> t[i].0 == us[i] && t[i].1 == Proportion(rows, unpopular, us[i])
    ensures forall i :: 0 <= i < |t| ==> 0.0 <= t[i].1 <= 1.0
    ensures forall u :: u in Labels(t) <==> u in us
    ensures Distinct(us) ==> UniqueLabels(t)
  {
    var t := seq(|us|, i requires 0 <= i < |us| => (us[i], Proportion(rows, unpopular, us[i])));
    forall i | 0 <= i < |t| ensures 0.0 <= t[i].1 <= 1.0 {
      ProportionWithinUnit(rows, unpopular, us[i]);
    }
    forall u | u in us ensures u in Labels(t) {
      var i :| 0 <= i < |us| && us[i] == u;
      assert t[i].0 == u;
    }
    t
  }

  /**
   * `user_niche_proportion` after `fillna(0)`: every user of the table, once,
   * with their proportion.
   */
  function NicheProportions(rows: seq<MonthlyRow>, unpopular: set<Artist>): (t: seq<(UserId, real)>)
    ensures UniqueLabels(t) && Labels(t) == UsersOf(rows)
    ensures forall i :: 0 <= i < |t| ==> t[i].1 == Proportion(rows, unpopular, t[i].0) && 0.0 <= t[i].1 <= 1.0
  {
    var total := GroupSum(UserCounts(rows));
    assert forall u :: u in total.keys <==> u in UsersOf(rows);
    ProportionsOf(total.keys, rows, unpopular)
  }

  /**
   * `find_niche_users`: the users whose proportion is at or above the
   * `1 - nicheThreshold` quantile of all proportions. A user with the
   * highest proportion is always one of them.
   */
  function FindNicheUsers(rows: seq<MonthlyRow>, unpopular: set<Artist>, nicheThreshold: real): (r: set<UserId>)
    requires 0.0 <= nicheThreshold <= 1.0
    ensures r <= UsersOf(rows)
    ensures forall u :: u in UsersOf(rows) ==>
              (u in r <==> Quantile(Column(NicheProportions(rows, unpopular)), Complement(nicheThreshold)) <= Proportion(rows, unpopular, u))
    ensures forall u :: u in UsersOf(rows) &&
              (forall v :: v in UsersOf(rows) ==> Proportion(rows, unpopular, v) <= Proportion(rows, unpopular, u))
              ==> u in r
  {
    var t := NicheProportions(rows, unpopular);
    var r := AtOrAbove(t, Complement(nicheThreshold));
    forall u | u in UsersOf(rows)
      ensures u in r <==> Quantile(Column(t), Complement(nicheThreshold)) <= Proportion(rows, unpopular, u)
    {
      var i :| 0 <= i < |t| && t[i].0 == u;
      AtOrAboveMember(t, Complement(nicheThreshold), i);
    }
    forall u | u in UsersOf(rows) &&
               (forall v :: v in UsersOf(rows) ==> Proportion(rows, unpopular, v) <= Proportion(rows, unpopular, u))
      ensures u in r
    {
      var v := Column(t);
      var i :| 0 <= i < |t| && t[i].0 == u;
      var j :| 0 <= j < |v| && v[j] == Max(v);
      var w := t[j].0;
      assert w in Labels(t);
      assert v[j] == Proportion(rows, unpopular, w) <= Proportion(rows, unpopular, u) == v[i];
    }
    r
  }

  /** With no unpopular artists every proportion is 0, and then every user is niche. */
  lemma NoUnpopularArtistsAllNiche(rows: seq<MonthlyRow>, nicheThreshold: real)
    requires 0.0 <= nicheThreshold <= 1.0
    ensures forall u :: Proportion(rows, {}, u) == 0.0
    ensures FindNicheUsers(rows, {}, nicheThreshold) == UsersOf(rows)
  {
    forall u ensures Proportion(rows, {}, u) == 0.0 {
      ProportionWithinUnit(rows, {}, u);
    }
    var t := NicheProportions(rows, {});
    AllEqualSelectsAll(t, Complement(nicheThreshold));
  }
}
