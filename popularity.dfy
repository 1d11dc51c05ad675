/**
 * The streaming passes of the popularity report: counting listens per track,
 * picking the unpopular tracks by percentile, and picking the niche users by
 * their share of listens that went to unpopular tracks.
 */
module PopularityQuestion {
  import opened Collections
  import opened Quantiles
  import opened Classify
  import opened Counting
  import opened Listening

  /** One more row is one more listen of its track. */
  lemma TrackTallyLast(rows: seq<Event>, e: Event)
    ensures TallyOf(Tracks(rows + [e])) == TallyOf(Tracks(rows)).AddN(e.track, 1)
  {
    ColumnsLast(rows, e, {});
    TallyOfLast(Tracks(rows), e.track);
  }

  /** One more row is one more listen of its user, and one more unpopular listen when its track is unpopular. */
  lemma UserTallyLast(rows: seq<Event>, e: Event, unpopular: set<TrackId>)
    ensures TallyOf(Users(rows + [e])) == TallyOf(Users(rows)).AddN(e.user, 1)
    ensures TallyOf(UnpopularUsers(rows + [e], unpopular))
         == if e.track in unpopular
            then TallyOf(UnpopularUsers(rows, unpopular)).AddN(e.user, 1)
            else TallyOf(UnpopularUsers(rows, unpopular))
  {
    ColumnsLast(rows, e, unpopular);
    TallyOfLast(Users(rows), e.user);
    if e.track in unpopular {
      TallyOfLast(UnpopularUsers(rows, unpopular), e.user);
    } else {
      assert UnpopularUsers(rows, unpopular) + [] == UnpopularUsers(rows, unpopular);
    }
  }

  /** The counting loop of `calculate_track_popularity`, over chunks already read. */
  method CountTrackListens(chunks: seq<seq<Event>>) returns (pop: Tally<TrackId>)
    ensures pop == TallyOf(Tracks(Flatten(chunks)))
  {
    pop := EmptyTally();
    ghost var done: seq<Event> := [];
    var i := 0;
    while i < |chunks|
      invariant 0 <= i <= |chunks|
      invariant done == Flatten(chunks[..i])
      invariant pop == TallyOf(Tracks(done))
    {
      var chunk := chunks[i];
      ghost var before := done;
      var j := 0;
      while j < |chunk|
        invariant 0 <= j <= |chunk|
        invariant done == before + chunk[..j]
        invariant pop == TallyOf(Tracks(done))
      {
        TrackTallyLast(done, chunk[j]);
        pop := pop.AddN(chunk[j].track, 1);
        PrefixSnoc(before, chunk, j);
        done := done + [chunk[j]];
        j := j + 1;
      }
      assert chunk[..j] == chunk;
      FlattenPrefix(chunks, i);
      i := i + 1;
    }
    assert chunks[..i] == chunks;
  }

  /**
   * `calculate_track_popularity`: the number of listens of every track among
   * the rows the capped reader hands out, keyed in order of first listen.
   */
  method CalculateTrackPopularity(log: seq<Event>) returns (pop: Tally<TrackId>)
    ensures pop == TallyOf(Tracks(log[..Processed(|log|)]))
    ensures pop.Valid() && pop.Total() == Processed(|log|)
    ensures forall t :: pop.Get(t) == multiset(Tracks(log[..Processed(|log|)]))[t]
  {
    var chunks := ReadListeningEvents(log);
    pop := CountTrackListens(chunks);
  }

  /**
   * `identify_unpopular_tracks`: the tracks whose listen count is at or below
   * the `percentile` quantile of all counts. The least-played tracks are
   * always among them.
   */
  function IdentifyUnpopularTracks(pop: Tally<TrackId>, percentile: real): (r: set<TrackId>)
    requires pop.Valid() && 0.0 <= percentile <= 1.0
    ensures r <= pop.count.Keys
    ensures forall t :: t in pop.count ==>
              (t in r <==> pop.count[t] as real <= Quantile(Column(pop.Items()), percentile))
    ensures forall t :: pop.HasLeast(t) ==> t in r
  {
    AtOrBelowCount(pop, percentile);
    LeastCountBelow(pop, percentile);
    AtOrBelow(pop.Items(), percentile)
  }

  /** Raising the percentile never removes a track from the unpopular set. */
  lemma UnpopularTracksMonotone(pop: Tally<TrackId>, p: real, p': real)
    requires pop.Valid() && 0.0 <= p <= p' <= 1.0
    ensures IdentifyUnpopularTracks(pop, p) <= IdentifyUnpopularTracks(pop, p')
  {
    AtOrBelowMonotone(pop.Items(), p, p');
  }

  /** The counting loop of `identify_niche_users`: unpopular listens and all listens per user. */
  method CountUserListens(chunks: seq<seq<Event>>, unpopular: set<TrackId>)
    returns (unpop: Tally<UserId>, total: Tally<UserId>)
    ensures unpop == TallyOf(UnpopularUsers(Flatten(chunks), unpopular))
    ensures total == TallyOf(Users(Flatten(chunks)))
    ensures forall u :: unpop.Get(u) <= total.Get(u)
  {
    unpop, total := EmptyTally(), EmptyTally();
    ghost var done: seq<Event> := [];
    var i := 0;
    while i < |chunks|
      invariant 0 <= i <= |chunks|
      invariant done == Flatten(chunks[..i])
      invariant unpop == TallyOf(UnpopularUsers(done, unpopular))
      invariant total == TallyOf(Users(done))
    {
      var chunk := chunks[i];
      ghost var before := done;
      var j := 0;
      while j < |chunk|
        invariant 0 <= j <= |chunk|
        invariant done == before + chunk[..j]
        invariant unpop == TallyOf(UnpopularUsers(done, unpopular))
        invariant total == TallyOf(Users(done))
      {
        UserTallyLast(done, chunk[j], unpopular);
        if chunk[j].track in unpopular {
          unpop := unpop.AddN(chunk[j].user, 1);
        }
        total := total.AddN(chunk[j].user, 1);
        PrefixSnoc(before, chunk, j);
        done := done + [chunk[j]];
        j := j + 1;
      }
      assert chunk[..j] == chunk;
      FlattenPrefix(chunks, i);
      i := i + 1;
    }
    assert chunks[..i] == chunks;
    UnpopularWithinListens(done, unpopular);
  }

  /** The ratio entries for the users `ks`, skipping those with no listens. */
  function RatiosOver(ks: seq<UserId>, unpop: Tally<UserId>, total: Tally<UserId>): (r: seq<(UserId, real)>)
    requires Distinct(ks)
    ensures UniqueLabels(r)
    ensures forall u :: u in Labels(r) <==> u in ks && total.Get(u) > 0
    ensures forall i :: 0 <= i < |r| ==>
              total.Get(r[i].0) > 0 && r[i].1 == unpop.Get(r[i].0) as real / total.Get(r[i].0) as real
  {
    if ks == [] then []
    else
      var u := ks[0];
      var rest := RatiosOver(ks[1..], unpop, total);
      assert forall k :: k in ks[1..] ==> k != u by {
        forall k | k in ks[1..] ensures k != u {
          var j :| 0 <= j < |ks[1..]| && ks[1..][j] == k;
          assert ks[j + 1] == k;
        }
      }
      var head := if total.Get(u) > 0 then [(u, unpop.Get(u) as real / total.Get(u) as real)] else [];
      LabelsAppend(head, rest);
      assert Labels(head) == if total.Get(u) > 0 then {u} else {} by {
        if total.Get(u) > 0 {
          assert head[0].0 == u;
        }
      }
      assert forall v :: v in ks <==> v == u || v in ks[1..] by {
        assert ks == [u] + ks[1..];
      }
      RatioRowsAppend(head, rest, unpop, total);
      head + rest
  }

  /** Rows that each hold their user's ratio still do once concatenated. */
  lemma RatioRowsAppend(head: seq<(UserId, real)>, rest: seq<(UserId, real)>, unpop: Tally<UserId>, total: Tally<UserId>)
    requires forall i :: 0 <= i < |head| ==>
               total.Get(head[i].0) > 0 && head[i].1 == unpop.Get(head[i].0) as real / total.Get(head[i].0) as real
    requires forall i :: 0 <= i < |rest| ==>
               total.Get(rest[i].0) > 0 && rest[i].1 == unpop.Get(rest[i].0) as real / total.Get(rest[i].0) as real
    ensures forall i :: 0 <= i < |head + rest| ==>
              var row := (head + rest)[i];
              total.Get(row.0) > 0 && row.1 == unpop.Get(row.0) as real / total.Get(row.0) as real
  {
    forall i | 0 <= i < |head + rest|
      ensures total.Get((head + rest)[i].0) > 0
      ensures (head + rest)[i].1 == unpop.Get((head + rest)[i].0) as real / total.Get((head + rest)[i].0) as real
    {
      if i < |head| {
        assert (head + rest)[i] == head[i];
      } else {
        assert (head + rest)[i] == rest[i - |head|];
      }
    }
  }

  /**
   * `user_unpopular_ratio`: for every user with an unpopular listen (in the
   * order of that counter) who has any listens at all, the share of their
   * listens that went to unpopular tracks.
   */
  function UnpopularRatios(unpop: Tally<UserId>, total: Tally<UserId>): (r: seq<(UserId, real)>)
    requires unpop.Valid()
    ensures UniqueLabels(r)
    ensures forall u :: u in Labels(r) <==> u in unpop.count && total.Get(u) > 0
    ensures forall i :: 0 <= i < |r| ==>
              total.Get(r[i].0) > 0 && r[i].1 == unpop.Get(r[i].0) as real / total.Get(r[i].0) as real
  {
    RatiosOver(unpop.keys, unpop, total)
  }

  /** The share of `u`'s listens in `rows` that went to unpopular tracks (0 without listens). */
  function ListenRatio(rows: seq<Event>, unpopular: set<TrackId>, u: UserId): real {
    var n := multiset(Users(rows))[u];
    if n == 0 then 0.0 else multiset(UnpopularUsers(rows, unpopular))[u] as real / n as real
  }

  /**
   * The ratio table of the rows: exactly the users with an unpopular listen,
   * each once, with a ratio in (0, 1].
   */
  function UserRatios(rows: seq<Event>, unpopular: set<TrackId>): (r: seq<(UserId, real)>)
    ensures UniqueLabels(r)
    ensures forall u :: u in Labels(r) <==> u in UnpopularUsers(rows, unpopular)
    ensures forall i :: 0 <= i < |r| ==>
              r[i].1 == ListenRatio(rows, unpopular, r[i].0) && 0.0 < r[i].1 <= 1.0
  {
    var unpop := TallyOf(UnpopularUsers(rows, unpopular));
    var total := TallyOf(Users(rows));
    UnpopularWithinListens(rows, unpopular);
    var r := UnpopularRatios(unpop, total);
    forall i | 0 <= i < |r| ensures r[i].1 == ListenRatio(rows, unpopular, r[i].0) && 0.0 < r[i].1 <= 1.0 {
      var u := r[i].0;
      assert u in Labels(r);
      ShareWithinUnit(unpop.Get(u), total.Get(u));
    }
    r
  }

  /** Every user picked from the ratio table has a listen to an unpopular track. */
  lemma NicheHaveUnpopular(rows: seq<Event>, unpopular: set<TrackId>, top: real)
    requires 0.0 <= top <= 1.0
    ensures forall u :: u in AtOrAbove(UserRatios(rows, unpopular), Complement(top)) ==>
              exists i :: 0 <= i < |rows| && rows[i].user == u && rows[i].track in unpopular
  {
    var r := AtOrAbove(UserRatios(rows, unpopular), Complement(top));
    forall u | u in r ensures exists i :: 0 <= i < |rows| && rows[i].user == u && rows[i].track in unpopular {
      UnpopularUsersMember(rows, unpopular, u);
    }
  }

  /** A user with an unpopular listen is picked exactly when their ratio reaches the quantile. */
  lemma NicheMembers(rows: seq<Event>, unpopular: set<TrackId>, top: real)
    requires 0.0 <= top <= 1.0
    ensures var t := UserRatios(rows, unpopular);
            forall u :: u in UnpopularUsers(rows, unpopular) ==>
              (u in AtOrAbove(t, Complement(top)) <==> Quantile(Column(t), Complement(top)) <= ListenRatio(rows, unpopular, u))
  {
    var t := UserRatios(rows, unpopular);
    forall u | u in UnpopularUsers(rows, unpopular)
      ensures u in AtOrAbove(t, Complement(top)) <==> Quantile(Column(t), Complement(top)) <= ListenRatio(rows, unpopular, u)
    {
      var i :| 0 <= i < |t| && t[i].0 == u;
      AtOrAboveMember(t, Complement(top), i);
    }
  }

  /** A user with the highest ratio is picked. */
  lemma NicheMost(rows: seq<Event>, unpopular: set<TrackId>, top: real, u: UserId)
    requires 0.0 <= top <= 1.0 && u in UnpopularUsers(rows, unpopular)
    requires forall v :: v in UnpopularUsers(rows, unpopular) ==> ListenRatio(rows, unpopular, v) <= ListenRatio(rows, unpopular, u)
    ensures u in AtOrAbove(UserRatios(rows, unpopular), Complement(top))
  {
    var t := UserRatios(rows, unpopular);
    var i :| 0 <= i < |t| && t[i].0 == u;
    assert t[i].1 == ListenRatio(rows, unpopular, u);
    forall k | 0 <= k < |t| ensures t[k].1 <= t[i].1 {
      var w := t[k].0;
      assert w in Labels(t);
      assert w in UnpopularUsers(rows, unpopular);
      assert t[k].1 == ListenRatio(rows, unpopular, w);
    }
    GreatestAbove(t, Complement(top), i);
  }

  /**
   * The niche users of the rows: those whose ratio is at or above the
   * `1 - top` quantile of all ratios. Every one of them has an unpopular
   * listen, and a user with the highest ratio is always one of them.
   */
  function NicheUsersOf(rows: seq<Event>, unpopular: set<TrackId>, top: real): (r: set<UserId>)
    requires 0.0 <= top <= 1.0
    ensures forall u :: u in r ==>
              exists i :: 0 <= i < |rows| && rows[i].user == u && rows[i].track in unpopular
    ensures forall u :: u in UnpopularUsers(rows, unpopular) ==>
              (u in r <==> Quantile(Column(UserRatios(rows, unpopular)), Complement(top)) <= ListenRatio(rows, unpopular, u))
    ensures forall u :: u in UnpopularUsers(rows, unpopular) &&
              (forall v :: v in UnpopularUsers(rows, unpopular) ==> ListenRatio(rows, unpopular, v) <= ListenRatio(rows, unpopular, u))
              ==> u in r
  {
    NicheHaveUnpopular(rows, unpopular, top);
    NicheMembers(rows, unpopular, top);
    forall u | u in UnpopularUsers(rows, unpopular) &&
               (forall v :: v in UnpopularUsers(rows, unpopular) ==> ListenRatio(rows, unpopular, v) <= ListenRatio(rows, unpopular, u))
      ensures u in AtOrAbove(UserRatios(rows, unpopular), Complement(top))
    {
      NicheMost(rows, unpopular, top, u);
    }
    AtOrAbove(UserRatios(rows, unpopular), Complement(top))
  }

  /** `identify_niche_users`: a second pass of the reader over the same log. */
  method IdentifyNicheUsers(log: seq<Event>, unpopular: set<TrackId>, topPercentile: real) returns (niche: set<UserId>)
    requires 0.0 <= topPercentile <= 1.0
    ensures niche == NicheUsersOf(log[..Processed(|log|)], unpopular, topPercentile)
  {
    var chunks := ReadListeningEvents(log);
    var unpop, total := CountUserListens(chunks, unpopular);
    var ratios := UnpopularRatios(unpop, total);
    niche := AtOrAbove(ratios, Complement(topPercentile));
  }
}
