/**
 * The script of `popularity_question.py` as a whole: its passes over the
 * log run in order, each taking the previous pass's result.
 */
module Report {
  import opened Collections
  import opened Counting
  import opened Listening
  import opened PopularityQuestion
  import opened ArtistSeries
  import opened Trends

  /** The default `percentile` of `identify_unpopular_tracks`. */
  const UNPOPULAR_PERCENTILE: real := 0.3
  /** The default `top_percentile` of `identify_niche_users`. */
  const NICHE_TOP_PERCENTILE: real := 0.3

  /**
   * The script's top level: track counts, unpopular tracks, niche users, the
   * two artist counters and the ten artists with the largest trend, each
   * computed from the rows the capped reader hands out. `top` is `None` when
   * some artist has a single bucket, whose trend is NaN.
   */
  method PopularityReport(log: seq<Event>, tracks: map<TrackId, Artist>, bucketOf: Timestamp -> Bucket)
    returns (unpopular: set<TrackId>, niche: set<UserId>, all: ArtistCounter, nicheOnly: ArtistCounter,
             top: Option<seq<ArtistKey>>)
    ensures unpopular == IdentifyUnpopularTracks(TallyOf(Tracks(log[..Processed(|log|)])), UNPOPULAR_PERCENTILE)
    ensures niche == NicheUsersOf(log[..Processed(|log|)], unpopular, NICHE_TOP_PERCENTILE)
    ensures fresh(all) && fresh(nicheOnly) && all.Valid() && nicheOnly.Valid()
    ensures all.Value() == BumpAll(EmptyNested(), SeriesKeys(log[..Processed(|log|)], tracks, bucketOf))
    ensures nicheOnly.Value() == BumpAll(EmptyNested(), NicheSeriesKeys(log[..Processed(|log|)], tracks, bucketOf, niche))
    ensures top.Some? <==> AllTrendsDefined(all.Value())
    ensures top.Some? ==> top.value == IdentifyTopArtists(all.Value())
  {
    var pop := CalculateTrackPopularity(log);
    unpopular := IdentifyUnpopularTracks(pop, UNPOPULAR_PERCENTILE);
    niche := IdentifyNicheUsers(log, unpopular, NICHE_TOP_PERCENTILE);
    all, nicheOnly := BuildArtistPopularity(log, tracks, niche, bucketOf);
    if AllTrendsDefined(all.Value()) {
      top := Some(IdentifyTopArtists(all.Value()));
    } else {
      top := None;
    }
  }
}
