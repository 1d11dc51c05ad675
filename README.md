# NicheVsPopular, modelled in Dafny

NicheVsPopular builds a popularity report from a music listening log. The
report is written in Python with pandas. Its core has two parts.

`popularity_question.py` makes several streaming passes over a log of
listening events `(user_id, track_id, timestamp)`. The log is read in
chunks of `SIZE` rows, and the reader stops after `MAX` chunks. The passes
do the following:

- count listens per track;
- mark as unpopular the tracks at or below the 30% quantile of those counts;
- compute, for every user with at least one listen to an unpopular track,
  the share of their listens that went to unpopular tracks (a user with no
  such listen gets no share and is never niche);
- mark as niche the users at or above the 70% quantile of those shares;
- count listens per artist per `to_period('6M')` period twice, once over all users
  and once over niche users only;
- rank the artists by their mean change in listens from one bucket to the
  next, and keep the ten largest.

`tasks.py` works on a table of rows `(user_id, artist, count)`. It sums the
counts per artist and splits the artists into an unpopular and a popular
set, using the `percentile` and `1 - percentile` quantiles. It then gives
each user the share of their count that went to unpopular artists, with
NaN read as 0, and marks as niche the users at or above the
`1 - niche_threshold` quantile.

## Modules

Each bullet names a module and its file.

- `Collections` (`collections.dfy`): the shared `UserId` and `Artist` types, `Option`,
  distinctness, `IndexOf`, and a series seen as its `(label, value)` rows
  (`Column`, `Labels`, `UniqueLabels`).
- `Ranking` (`ranking.dfy`): one stable index sort, `Order`. It serves as the ascending sort
  inside a quantile, as `sort_index()` over time buckets, and, with negated
  keys, as the stable descending `sorted(..., reverse=True)`.
- `Quantiles` (`quantile.dfy`): pandas' default `Series.quantile`, which is linear
  interpolation between the closest ranks (definition 7 of Hyndman and Fan,
  1996), computed over exact reals.
- `Classify` (`classify.dfy`): a series filtered with `<=` or `>=` against one of its own
  quantiles.
- `Counting` (`counting.dfy`):
  - `Tally` is the insertion-ordered `defaultdict(int)`.
  - `TallyOf` is its counting reference.
  - `GroupSum` is `groupby(...)[...].sum()`.
  - `Nested` is the `defaultdict(lambda: defaultdict(int))`.
  - `BumpAll` is its counting reference.
- `Listening` (`listening.dfy`): the event rows and the capped chunk reader.
- `PopularityQuestion` (`popularity.dfy`): the track and user passes of
  `popularity_question.py`, as loops proved against `TallyOf`.
- `ArtistSeries` (`artist_series.dfy`): the per-artist, per-bucket counters. Each counter is a
  class updated in place, and `update_artist_popularity` is a method that
  modifies both counters.
- `Trends` (`trends.dfy`): the trend of a series and the top-ten ranking.
- `Tasks` (`tasks.dfy`): `identify_poi_artists` and `find_niche_users` from `tasks.py`.
- `Report` (`report.dfy`): the script's top level, running the passes in order, each on the
  previous pass's result.

## Model

| member | source | states |
|---|---|---|
| Listening.ReadListeningEvents | popularity_question.py:13-17 | the chunks, concatenated, are exactly the first min(R, SIZE*MAX) rows in file order; there are at most MAX chunks; each chunk holds 1 to SIZE rows, and every chunk but the last holds exactly SIZE |
| PopularityQuestion.CountTrackListens | popularity_question.py:24-26 | the counting loop over any split of the rows into chunks gives the per-track tally of the concatenated rows |
| PopularityQuestion.CalculateTrackPopularity | popularity_question.py:22-27 | the counts add up to the number of rows read, and each track's count is its number of rows read |
| Counting.TallyOf | popularity_question.py:23-26 | reference for the `d[k] += 1` loop: each count is the multiplicity of its key, the keys present are exactly those seen and each has a count of at least 1, and the total is the number of rows |
| Counting.TallyOfLast | popularity_question.py:26 | one more row adds 1 to its own key and nothing else |
| Counting.Tally.AddN | popularity_question.py:26 | `d[k] += w` adds w to k only, appends a new key at the end of the insertion order, and adds w to the total |
| Quantiles.QuantileSorted | popularity_question.py:33 | the interpolated value lies between the two closest ranks below and above (n-1)p, and is the last value when no rank lies above |
| Quantiles.Quantile | popularity_question.py:33 | `Series.quantile(p)`, the interpolation above applied to the values sorted ascending: it lies between the minimum and the maximum, and equals them at p = 0 and p = 1 |
| Quantiles.QuantileMonotone | tasks.py:17-18 | raising p never lowers the quantile |
| Classify.AtOrBelow | popularity_question.py:33-34 | `s[s <= s.quantile(p)].index`: only labels of the series are selected, a row holding the least value always is, and an empty series selects nothing |
| Classify.AtOrAbove | popularity_question.py:57-58 | `s[s >= s.quantile(p)].index`: only labels of the series are selected, a row holding the greatest value always is, and an empty series selects nothing |
| Classify.AtOrBelowMember | popularity_question.py:34 | with unique labels, a label is selected by `<= quantile(p)` exactly when its value is |
| Classify.AtOrAboveMember | popularity_question.py:58 | with unique labels, a label is selected by `>= quantile(p)` exactly when its value is |
| Classify.LeastBelow | popularity_question.py:33-34 | a row holding a least value is selected by `<= quantile(p)` for every p |
| Classify.GreatestAbove | popularity_question.py:57-58 | a row holding a greatest value is selected by `>= quantile(p)` for every p |
| Classify.AtOrBelowCount | popularity_question.py:33-34 | a key of a counter is in the bottom cut of its items exactly when its count is at or below the cut |
| Classify.LeastCountBelow | popularity_question.py:33-34 | a key holding the least count of a counter is in every bottom cut of its items |
| Classify.MostCountAbove | tasks.py:18-20 | a key holding the largest count of a counter is in every top cut of its items |
| Classify.AtOrBelowMonotone | popularity_question.py:33-34 | raising p never removes a label from the bottom cut |
| Classify.AtOrAboveAntitone | popularity_question.py:57-58 | raising p never adds a label to the top cut |
| Classify.BothSidesOnlyAtTie | tasks.py:19-20 | a label in both a bottom cut at p and a top cut at p' >= p has both quantiles equal to its own value |
| Classify.AllEqualSelectsAll | tasks.py:39-40 | when every value is equal, both cuts select every label |
| PopularityQuestion.IdentifyUnpopularTracks | popularity_question.py:32-35 | the result holds only counted tracks, and holds a track exactly when its count is at most the percentile quantile; a least-played track is always in it |
| PopularityQuestion.UnpopularTracksMonotone | popularity_question.py:32-35 | raising the percentile never removes a track |
| PopularityQuestion.CountUserListens | popularity_question.py:43-52 | the loop gives, per user, the number of rows and the number of rows with an unpopular track, and the latter never exceeds the former |
| Listening.UnpopularWithinListens | popularity_question.py:50-52 | the unpopular listens are a sub-multiset of all listens, user by user |
| Listening.UnpopularUsersMember | popularity_question.py:50-51 | a user has an unpopular listen exactly when one of their rows has an unpopular track |
| PopularityQuestion.UnpopularRatios | popularity_question.py:54-55 | one entry per user with an unpopular listen and a positive total, holding unpopular over total |
| PopularityQuestion.UserRatios | popularity_question.py:54-55 | over the rows read, the labels are exactly the users with at least one unpopular listen, each appears once, and each ratio lies in (0, 1] |
| PopularityQuestion.NicheUsersOf | popularity_question.py:57-60 | every niche user has a listen to an unpopular track; a user with an unpopular listen is niche exactly when their ratio is at least the 1 - top quantile; a user with the highest ratio is always niche |
| PopularityQuestion.IdentifyNicheUsers | popularity_question.py:42-60 | reading, counting and thresholding together give the niche set of the rows read |
| Counting.Nested.Bump | popularity_question.py:73 | `d[a][b] += 1` adds 1 to that entry only and appends a new artist at the end of the artist order; the stored artists gain exactly a, the other artists' counters are unchanged, and a's stored buckets gain exactly b (a new artist's counter holds b alone) |
| Counting.BumpAllEntries | popularity_question.py:73-80 | counting a run of pairs from empty stores exactly the artists of the run, and every stored entry is at least 1 |
| Counting.BumpAllBuckets | popularity_question.py:73-80 | counting a run of pairs from empty stores bucket b under artist a exactly when (a, b) occurs in the run |
| Counting.BumpAllKeys | popularity_question.py:73-80 | counting a run of pairs from empty leaves the artists in the order `FirstSeen` of the run: each artist once, at its first occurrence |
| Counting.FirstSeenOrdered | popularity_question.py:73-80 | `FirstSeen` lists exactly the artists of the run, ordered by the index of each one's first occurrence |
| Counting.BumpAllFirstSeen | popularity_question.py:73-80 | the artist order of a counter built from empty holds each artist of the run, only those, and orders them by first occurrence |
| Counting.BumpAllCounts | popularity_question.py:73 | after a run of increments each entry is its old value plus the multiplicity of its pair in the run |
| Counting.BumpAllAppend | popularity_question.py:79-80 | counting chunk after chunk is counting their concatenation |
| Counting.BumpAllDominated | popularity_question.py:73-75 | increments from a sub-multiset of pairs keep every entry of the smaller counter at or below the larger one |
| ArtistSeries.ArtistOf | popularity_question.py:68 | the left merge on `track_id`: a track in the tracks table gets its artist, any other track gets None (NaN) |
| ArtistSeries.NicheKeysWithin | popularity_question.py:74-75 | the niche rows' pairs are a sub-multiset of all rows' pairs |
| ArtistSeries.ArtistCounter.constructor | popularity_question.py:77-78 | a new counter is empty |
| ArtistSeries.ArtistCounter.Increment | popularity_question.py:73 | updates the counter in place by one `Bump` |
| ArtistSeries.CountRow | popularity_question.py:70-75 | one row adds 1 to its (artist, bucket) entry of the all-users counter, and to the same entry of the niche counter exactly when its user is niche; nothing else changes |
| ArtistSeries.UpdateArtistPopularity | popularity_question.py:67-75 | updates both counters in place by the chunk's pairs, all rows and niche rows respectively, and keeps niche counts at or below all counts |
| ArtistSeries.CountChunks | popularity_question.py:79-80 | feeding the chunks one by one to the update adds every row of their concatenation to both counters, and keeps niche counts at or below all counts |
| ArtistSeries.BuildArtistPopularity | popularity_question.py:77-80 | over the rows read, each all-users entry is its pair's multiplicity, and every niche entry is at most the all-users one; in both counters the stored artists are exactly those of the counted rows, in first-occurrence order, and an artist stores a bucket exactly when some counted row has that (artist, bucket) pair |
| Ranking.Order | popularity_question.py:98 | a permutation of the positions, sorted by key with ties in position order |
| Ranking.Leading | popularity_question.py:102 | the first m positions of that order: every position left out comes after every one taken |
| Trends.SortedBuckets | popularity_question.py:98 | a series' buckets in strictly increasing order, each exactly once |
| Trends.Trend | popularity_question.py:99 | the mean of the differences is a number exactly when the series has at least two buckets |
| Trends.SumDiffs | popularity_question.py:99 | the consecutive differences add up to last minus first |
| Trends.TrendTelescopes | popularity_question.py:97-100 | the trend is (last - first) / (n - 1) over the buckets in time order, and it is positive exactly when the last bucket has more listens than the first |
| Trends.ArtistTrends | popularity_question.py:95-100 | `artist_trends`: one trend per artist, in the artists' insertion order, each the trend of that artist's series |
| Trends.TopPositions | popularity_question.py:102 | at most ten positions, distinct, values non-increasing, ties in position order; no position left out has a larger value than one taken, and one left out with an equal value comes after it |
| Trends.IdentifyTopArtists | popularity_question.py:94-103 | `identify_top_artists`: min(10, #artists) distinct artists, each one of the artists of the series |
| Trends.TopArtistsOrder | popularity_question.py:102 | the chosen artists have non-increasing trends, and artists with equal trends keep their insertion order |
| Trends.TopArtistsCut | popularity_question.py:102-103 | no artist left out has a larger trend than a chosen one, and an artist left out with the same trend as a chosen one comes later in insertion order |
| Report.PopularityReport | popularity_question.py:29-105 | the script's passes chained: the unpopular tracks are the 0.3 cut of the track counts of the rows read, the niche users are the 0.3 top cut of those rows' ratios against that set, the two counters hold the rows' (and the niche rows') artist-bucket pairs, and the top ten is `IdentifyTopArtists` of the all-users counter whenever every trend is a number |
| Counting.GroupSum | tasks.py:16 | one entry per label present, holding the sum of that label's weights |
| Tasks.ArtistPopularity | tasks.py:16 | the artists are exactly those in the table, and each total is the sum of `count` over that artist's rows |
| Tasks.IdentifyPoiArtists | tasks.py:15-21 | both sets hold only artists of the table; membership is the `<= quantile(p)` and `>= quantile(1 - p)` comparison on the totals; a least-played artist is unpopular and a most-played one popular |
| Tasks.PoiThresholdsOrdered | tasks.py:17-18 | for p <= 0.5 the unpopular threshold is at most the popular one |
| Tasks.PoiOverlapOnlyAtTie | tasks.py:17-20 | for p <= 0.5 an artist in both sets has both thresholds equal to its own total |
| Tasks.UnpopularPartWithin | tasks.py:35-36 | a user's unpopular sum is at most their total |
| Tasks.ProportionWithinUnit | tasks.py:37-38 | every proportion lies in [0, 1], and is 0 for a user with no unpopular rows |
| Tasks.NicheProportions | tasks.py:35-38 | every user of the table appears exactly once, with their proportion |
| Tasks.FindNicheUsers | tasks.py:33-42 | niche users are users of the table; a user is niche exactly when their proportion is at least the 1 - threshold quantile; a user with the highest proportion is niche |
| Tasks.NoUnpopularArtistsAllNiche | tasks.py:34-40 | with no unpopular artists every proportion is 0 and every user is niche |

## Left out

- Reading files is left out: the bz2 and TSV inputs, `on_bad_lines='warn'`, the `tqdm` bar and the `pickle.dump` writes. The log and the tables are sequences of row records.
- `ReadListeningEvents` returns its chunks as one sequence, where the source is a lazy generator. The rows, their order and the stopping point are kept.
- ReadListeningEvents: on a log with a header and no data rows, pandas' chunked reader may hand out one chunk of 0 rows; the model hands out no chunk, and its contract says every chunk holds 1 to SIZE rows. Every count and set computed from the chunks is the same either way.
- The plotting code in popularity_question.py:110-135 is commented out in the source.
- `pd.to_datetime` and `to_period('6M')` are library date handling. The bucket of a row is a function `bucketOf` of its timestamp, passed in as a parameter. Buckets are numbered in time order; no calendar alignment is assumed.
- Floating point is not modelled. Ratios, quantiles and trends are exact reals, and a NaN appears only where it changes the result: an empty series selects nothing, and `fillna(0)` becomes an explicit 0.
- Trends.IdentifyTopArtists requires every artist to have at least two buckets. A one-bucket artist has a NaN trend, and NaN keys give `sorted` no total order.
- Report.PopularityReport: returns `None` for the top ten when some artist has a single bucket. The script still sorts the NaN trends and returns some ten artists, an order the model does not define.
- The left merge is modelled as a lookup in a map from `track_id` to artist. Duplicate `track_id`s in the tracks file would duplicate rows; a track with no artist is counted under `None`.
- Module-level globals become parameters: the tracks map, the niche set, and `unpopular_artists` in `find_niche_users`. `Report.PopularityReport` runs the passes in the script's order.
- `find_niche_users` adds an `is_unpopular` column to its input frame. The model does not keep that mutation.
- `groupby` orders its result by label, while the model keeps first appearance. Every property above is order-free, including the quantile, which sorts its values.
- `groupby` drops rows whose artist or user is NaN. The model's rows always carry both.
- `count` is a natural number, since listen counts are never negative.
- A percentile outside [0, 1] is refused by pandas. The functions require it to lie in [0, 1].
- ArtistSeries.UpdateArtistPopularity requires its two counters to be distinct objects. The only caller passes two separate dictionaries; the aliased case is not modelled.
