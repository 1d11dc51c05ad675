/**
 * The third streaming pass: listens per artist per time bucket, once over
 * every row and once over the rows of niche users only, both counters
 * updated in place chunk by chunk.
 */
module ArtistSeries {
  import opened Collections
  import opened Counting
  import opened Listening

  /** An artist, or None where the left merge found no artist for the track (pandas' NaN). */
  type ArtistKey = Option<Artist>

  /** A time bucket, numbered in time order. */
  type Bucket = int

  /** The artist of a track after the left merge on `track_id`. */
  function ArtistOf(tracks: map<TrackId, Artist>, t: TrackId): (a: ArtistKey)
    ensures a.Some? <==> t in tracks
    ensures a.Some? ==> a.value == tracks[t]
  {
    if t in tracks then Some(tracks[t]) else None
  }

  /** The (artist, bucket) entry a row is counted under. */
  function SeriesKey(e: Event, tracks: map<TrackId, Artist>, bucketOf: Timestamp -> Bucket): (ArtistKey, Bucket) {
    (ArtistOf(tracks, e.track), bucketOf(e.timestamp))
  }

  /** The entries of every row, in row order. */
  function SeriesKeys(rows: seq<Event>, tracks: map<TrackId, Artist>, bucketOf: Timestamp -> Bucket): (ks: seq<(ArtistKey, Bucket)>)
    ensures |ks| == |rows| && forall i :: 0 <= i < |rows| ==> ks[i] == SeriesKey(rows[i], tracks, bucketOf)
  {
    seq(|rows|, i requires 0 <= i < |rows| => SeriesKey(rows[i], tracks, bucketOf))
  }

  /** The entries of the rows whose user is in `niche`, in row order. */
  function NicheSeriesKeys(rows: seq<Event>, tracks: map<TrackId, Artist>, bucketOf: Timestamp -> Bucket, niche: set<UserId>): seq<(ArtistKey, Bucket)> {
    if rows == [] then []
    else
      var last := rows[|rows| - 1];
      NicheSeriesKeys(rows[..|rows| - 1], tracks, bucketOf, niche)
        + (if last.user in niche then [SeriesKey(last, tracks, bucketOf)] else [])
  }

  lemma SeriesKeysLast(rows: seq<Event>, e: Event, tracks: map<TrackId, Artist>, bucketOf: Timestamp -> Bucket, niche: set<UserId>)
    ensures SeriesKeys(rows + [e], tracks, bucketOf) == SeriesKeys(rows, tracks, bucketOf) + [SeriesKey(e, tracks, bucketOf)]
    ensures NicheSeriesKeys(rows + [e], tracks, bucketOf, niche)
         == NicheSeriesKeys(rows, tracks, bucketOf, niche) + (if e.user in niche then [SeriesKey(e, tracks, bucketOf)] else [])
  {
    assert (rows + [e])[..|rows|] == rows;
  }

  /** Both entry lists of a concatenation are the concatenations of the entry lists. */
  lemma SeriesKeysAppend(rows: seq<Event>, more: seq<Event>, tracks: map<TrackId, Artist>, bucketOf: Timestamp -> Bucket, niche: set<UserId>)
    ensures SeriesKeys(rows + more, tracks, bucketOf) == SeriesKeys(rows, tracks, bucketOf) + SeriesKeys(more, tracks, bucketOf)
    ensures NicheSeriesKeys(rows + more, tracks, bucketOf, niche)
         == NicheSeriesKeys(rows, tracks, bucketOf, niche) + NicheSeriesKeys(more, tracks, bucketOf, niche)
  {
    var all, front := SeriesKeys(rows + more, tracks, bucketOf), SeriesKeys(rows, tracks, bucketOf);
    forall i | 0 <= i < |all| ensures all[i] == (front + SeriesKeys(more, tracks, bucketOf))[i] {
      if i >= |rows| {
        assert (rows + more)[i] == more[i - |rows|];
      }
    }
    NicheKeysAppend(rows, more, tracks, bucketOf, niche);
  }

  /** The niche entry list of a concatenation is the concatenation of the niche entry lists. */
  lemma {:induction false} NicheKeysAppend(rows: seq<Event>, more: seq<Event>, tracks: map<TrackId, Artist>, bucketOf: Timestamp -> Bucket, niche: set<UserId>)
    ensures NicheSeriesKeys(rows + more, tracks, bucketOf, niche)
         == NicheSeriesKeys(rows, tracks, bucketOf, niche) + NicheSeriesKeys(more, tracks, bucketOf, niche)
  {
    if more == [] {
      assert rows + more == rows;
    } else {
      var init, last := more[..|more| - 1], more[|more| - 1];
      assert rows + more == (rows + init) + [last];
      assert more == init + [last];
      NicheKeysAppend(rows, init, tracks, bucketOf, niche);
      SeriesKeysLast(rows + init, last, tracks, bucketOf, niche);
      SeriesKeysLast(init, last, tracks, bucketOf, niche);
    }
  }

  /** The niche rows are some of the rows: every niche entry is also an entry of all rows. */
  lemma {:induction false} NicheKeysWithin(rows: seq<Event>, tracks: map<TrackId, Artist>, bucketOf: Timestamp -> Bucket, niche: set<UserId>)
    ensures multiset(NicheSeriesKeys(rows, tracks, bucketOf, niche)) <= multiset(SeriesKeys(rows, tracks, bucketOf))
  {
    if rows != [] {
      var init, last := rows[..|rows| - 1], rows[|rows| - 1];
      assert rows == init + [last];
      SeriesKeysLast(init, last, tracks, bucketOf, niche);
      NicheKeysWithin(init, tracks, bucketOf, niche);
    }
  }

  /** Counting one more row of `chunk` into the overall counter. */
  lemma AllStep(all0: Nested<ArtistKey, Bucket>, chunk: seq<Event>, i: nat,
                tracks: map<TrackId, Artist>, bucketOf: Timestamp -> Bucket)
    requires all0.Valid() && i < |chunk|
    ensures BumpAll(all0, SeriesKeys(chunk[..i + 1], tracks, bucketOf))
         == BumpAll(all0, SeriesKeys(chunk[..i], tracks, bucketOf)).Bump(SeriesKey(chunk[i], tracks, bucketOf).0, SeriesKey(chunk[i], tracks, bucketOf).1)
  {
    var ks := SeriesKeys(chunk[..i], tracks, bucketOf);
    assert chunk[..i + 1] == chunk[..i] + [chunk[i]];
    SeriesKeysLast(chunk[..i], chunk[i], tracks, bucketOf, {});
    BumpAllSnoc(all0, ks, SeriesKey(chunk[i], tracks, bucketOf));
  }

  /** Counting one more row of `chunk` into the niche counter: only a niche user's row counts. */
  lemma NicheStep(niche0: Nested<ArtistKey, Bucket>, chunk: seq<Event>, i: nat,
                  tracks: map<TrackId, Artist>, bucketOf: Timestamp -> Bucket, niche: set<UserId>)
    requires niche0.Valid() && i < |chunk|
    ensures chunk[i].user in niche ==>
              BumpAll(niche0, NicheSeriesKeys(chunk[..i + 1], tracks, bucketOf, niche))
              == BumpAll(niche0, NicheSeriesKeys(chunk[..i], tracks, bucketOf, niche)).Bump(SeriesKey(chunk[i], tracks, bucketOf).0, SeriesKey(chunk[i], tracks, bucketOf).1)
    ensures chunk[i].user !in niche ==>
              BumpAll(niche0, NicheSeriesKeys(chunk[..i + 1], tracks, bucketOf, niche))
              == BumpAll(niche0, NicheSeriesKeys(chunk[..i], tracks, bucketOf, niche))
  {
    var key := SeriesKey(chunk[i], tracks, bucketOf);
    var ks, ks' := NicheSeriesKeys(chunk[..i], tracks, bucketOf, niche), NicheSeriesKeys(chunk[..i + 1], tracks, bucketOf, niche);
    assert chunk[..i + 1] == chunk[..i] + [chunk[i]];
    SeriesKeysLast(chunk[..i], chunk[i], tracks, bucketOf, niche);
    if chunk[i].user in niche {
      assert ks' == ks + [key];
      BumpAllSnoc(niche0, ks, key);
    } else {
      assert ks' == ks + [];
      assert ks' == ks;
    }
  }

  /** Counting the rows `seen + chunk` is counting `seen`, then `chunk` on top, in both counters. */
  lemma ChunkStep(n: Nested<ArtistKey, Bucket>, seen: seq<Event>, chunk: seq<Event>,
                  tracks: map<TrackId, Artist>, bucketOf: Timestamp -> Bucket, niche: set<UserId>)
    requires n.Valid()
    ensures BumpAll(n, SeriesKeys(seen + chunk, tracks, bucketOf))
         == BumpAll(BumpAll(n, SeriesKeys(seen, tracks, bucketOf)), SeriesKeys(chunk, tracks, bucketOf))
    ensures BumpAll(n, NicheSeriesKeys(seen + chunk, tracks, bucketOf, niche))
         == BumpAll(BumpAll(n, NicheSeriesKeys(seen, tracks, bucketOf, niche)), NicheSeriesKeys(chunk, tracks, bucketOf, niche))
  {
    SeriesKeysAppend(seen, chunk, tracks, bucketOf, niche);
    BumpAllAppend(n, SeriesKeys(seen, tracks, bucketOf), SeriesKeys(chunk, tracks, bucketOf));
    BumpAllAppend(n, NicheSeriesKeys(seen, tracks, bucketOf, niche), NicheSeriesKeys(chunk, tracks, bucketOf, niche));
  }

  /** A nested `defaultdict(lambda: defaultdict(int))` of listens per artist per bucket. */
  class ArtistCounter {
    var keys: seq<ArtistKey>
    var inner: map<ArtistKey, Tally<Bucket>>

    /** The counter's current contents as a value. */
    function Value(): Nested<ArtistKey, Bucket>
      reads this
    {
      Nested(keys, inner)
    }

    ghost predicate Valid()
      reads this
    {
      Value().Valid()
    }

    constructor ()
      ensures Valid() && Value() == EmptyNested()
    {
      keys := [];
      inner := map[];
    }

    /** `d[artist][bucket] += 1`. */
    method Increment(artist: ArtistKey, bucket: Bucket)
      requires Valid()
      modifies this
      ensures Value() == old(Value()).Bump(artist, bucket) && Valid()
    {
      ghost var before := Value();
      if artist in inner {
        inner := inner[artist := inner[artist].AddN(bucket, 1)];
      } else {
        keys := keys + [artist];
        inner := inner[artist := EmptyTally<Bucket>().AddN(bucket, 1)];
      }
      assert Value() == before.Bump(artist, bucket);
    }
  }

  /** One row of `update_artist_popularity`: its entry goes up in `all`, and in `nicheOnly` for a niche user. */
  method CountRow(e: Event, tracks: map<TrackId, Artist>, niche: set<UserId>,
                  all: ArtistCounter, nicheOnly: ArtistCounter, bucketOf: Timestamp -> Bucket)
    requires all != nicheOnly && all.Valid() && nicheOnly.Valid()
    modifies all, nicheOnly
    ensures all.Valid() && nicheOnly.Valid()
    ensures all.Value() == old(all.Value()).Bump(SeriesKey(e, tracks, bucketOf).0, SeriesKey(e, tracks, bucketOf).1)
    ensures nicheOnly.Value() == if e.user in niche
                                 then old(nicheOnly.Value()).Bump(SeriesKey(e, tracks, bucketOf).0, SeriesKey(e, tracks, bucketOf).1)
                                 else old(nicheOnly.Value())
  {
    var artist, bucket := ArtistOf(tracks, e.track), bucketOf(e.timestamp);
    all.Increment(artist, bucket);
    if e.user in niche {
      nicheOnly.Increment(artist, bucket);
    }
  }

  /**
   * `update_artist_popularity`: every row of the chunk adds one to its entry
   * of `all`, and the rows of niche users also to the same entry of
   * `nicheOnly`. The niche counter never gets ahead of the overall one.
   */
  method UpdateArtistPopularity(chunk: seq<Event>, tracks: map<TrackId, Artist>, niche: set<UserId>,
                                all: ArtistCounter, nicheOnly: ArtistCounter, bucketOf: Timestamp -> Bucket)
    requires all != nicheOnly && all.Valid() && nicheOnly.Valid()
    modifies all, nicheOnly
    ensures all.Valid() && nicheOnly.Valid()
    ensures all.Value() == BumpAll(old(all.Value()), SeriesKeys(chunk, tracks, bucketOf))
    ensures nicheOnly.Value() == BumpAll(old(nicheOnly.Value()), NicheSeriesKeys(chunk, tracks, bucketOf, niche))
    ensures Dominated(old(nicheOnly.Value()), old(all.Value())) ==> Dominated(nicheOnly.Value(), all.Value())
  {
    ghost var all0, niche0 := all.Value(), nicheOnly.Value();
    assert chunk[..0] == [];
    var i := 0;
    while i < |chunk|
      invariant 0 <= i <= |chunk|
      invariant all.Valid() && nicheOnly.Valid()
      invariant all.Value() == BumpAll(all0, SeriesKeys(chunk[..i], tracks, bucketOf))
      invariant nicheOnly.Value() == BumpAll(niche0, NicheSeriesKeys(chunk[..i], tracks, bucketOf, niche))
    {
      AllStep(all0, chunk, i, tracks, bucketOf);
      NicheStep(niche0, chunk, i, tracks, bucketOf, niche);
      CountRow(chunk[i], tracks, niche, all, nicheOnly, bucketOf);
      i := i + 1;
    }
    assert chunk[..i] == chunk;
    NicheKeysWithin(chunk, tracks, bucketOf, niche);
    if Dominated(niche0, all0) {
      BumpAllDominated(niche0, all0, NicheSeriesKeys(chunk, tracks, bucketOf, niche), SeriesKeys(chunk, tracks, bucketOf));
    }
  }

  /**
   * The top-level loop that feeds every chunk to `update_artist_popularity`:
   * both counters go up by the entries of all the chunks' rows, in order.
   */
  method CountChunks(chunks: seq<seq<Event>>, tracks: map<TrackId, Artist>, niche: set<UserId>,
                     all: ArtistCounter, nicheOnly: ArtistCounter, bucketOf: Timestamp -> Bucket)
    requires all != nicheOnly && all.Valid() && nicheOnly.Valid()
    requires Dominated(nicheOnly.Value(), all.Value())
    modifies all, nicheOnly
    ensures all.Valid() && nicheOnly.Valid()
    ensures all.Value() == BumpAll(old(all.Value()), SeriesKeys(Flatten(chunks), tracks, bucketOf))
    ensures nicheOnly.Value() == BumpAll(old(nicheOnly.Value()), NicheSeriesKeys(Flatten(chunks), tracks, bucketOf, niche))
    ensures Dominated(nicheOnly.Value(), all.Value())
  {
    ghost var all0, niche0 := all.Value(), nicheOnly.Value();
    ghost var seen: seq<Event> := [];
    var i := 0;
    while i < |chunks|
      invariant 0 <= i <= |chunks|
      invariant seen == Flatten(chunks[..i])
      invariant all.Valid() && nicheOnly.Valid()
      invariant all.Value() == BumpAll(all0, SeriesKeys(seen, tracks, bucketOf))
      invariant nicheOnly.Value() == BumpAll(niche0, NicheSeriesKeys(seen, tracks, bucketOf, niche))
      invariant Dominated(nicheOnly.Value(), all.Value())
    {
      ChunkStep(all0, seen, chunks[i], tracks, bucketOf, niche);
      ChunkStep(niche0, seen, chunks[i], tracks, bucketOf, niche);
      FlattenPrefix(chunks, i);
      UpdateArtistPopularity(chunks[i], tracks, niche, all, nicheOnly, bucketOf);
      seen := seen + chunks[i];
      i := i + 1;
    }
    assert chunks[..i] == chunks;
  }

  /**
   * The script's third pass: two empty counters, filled from the chunks of
   * the capped reader. Each entry counts the rows read with that artist and
   * bucket (of niche users only, for the second counter).
   */
  method BuildArtistPopularity(log: seq<Event>, tracks: map<TrackId, Artist>, niche: set<UserId>, bucketOf: Timestamp -> Bucket)
    returns (all: ArtistCounter, nicheOnly: ArtistCounter)
    ensures fresh(all) && fresh(nicheOnly) && all != nicheOnly
    ensures all.Valid() && nicheOnly.Valid()
    ensures all.Value() == BumpAll(EmptyNested(), SeriesKeys(log[..Processed(|log|)], tracks, bucketOf))
    ensures nicheOnly.Value() == BumpAll(EmptyNested(), NicheSeriesKeys(log[..Processed(|log|)], tracks, bucketOf, niche))
    ensures forall a, b :: all.Value().Get(a, b) == multiset(SeriesKeys(log[..Processed(|log|)], tracks, bucketOf))[(a, b)]
    ensures Dominated(nicheOnly.Value(), all.Value())
    ensures all.Value().inner.Keys == Labels(SeriesKeys(log[..Processed(|log|)], tracks, bucketOf))
    ensures all.Value().keys == FirstSeen(SeriesKeys(log[..Processed(|log|)], tracks, bucketOf))
    ensures forall a, b :: a in all.Value().inner ==>
              (b in all.Value().inner[a].count <==> (a, b) in SeriesKeys(log[..Processed(|log|)], tracks, bucketOf))
    ensures nicheOnly.Value().inner.Keys == Labels(NicheSeriesKeys(log[..Processed(|log|)], tracks, bucketOf, niche))
    ensures nicheOnly.Value().keys == FirstSeen(NicheSeriesKeys(log[..Processed(|log|)], tracks, bucketOf, niche))
    ensures forall a, b :: a in nicheOnly.Value().inner ==>
              (b in nicheOnly.Value().inner[a].count <==> (a, b) in NicheSeriesKeys(log[..Processed(|log|)], tracks, bucketOf, niche))
  {
    all := new ArtistCounter();
    nicheOnly := new ArtistCounter();
    var chunks := ReadListeningEvents(log);
    CountChunks(chunks, tracks, niche, all, nicheOnly, bucketOf);
    var ks, nks := SeriesKeys(Flatten(chunks), tracks, bucketOf), NicheSeriesKeys(Flatten(chunks), tracks, bucketOf, niche);
    BumpAllCounts(EmptyNested(), ks);
    BumpAllEntries(ks);
    BumpAllKeys(ks);
    BumpAllBuckets(ks);
    BumpAllEntries(nks);
    BumpAllKeys(nks);
    BumpAllBuckets(nks);
  }
}
