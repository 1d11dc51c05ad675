/**
 * The listening-event log and the capped chunk reader that every streaming
 * pass of the report goes through.
 */
module Listening {
  import opened Collections

  /** Rows per chunk handed to `pd.read_csv(..., chunksize=SIZE)`. */
  const SIZE: nat := 1000
  /** The reader stops after this many chunks. */
  const MAX: nat := 1000

  type TrackId = int
  /** The raw timestamp text of an event; only the time bucket derived from it is used. */
  type Timestamp = string

  /** One well-formed row of the listening-event log. */
  datatype Event = Event(user: UserId, track: TrackId, timestamp: Timestamp)

  /** The rows of the chunks, in order. */
  function Flatten<T>(chunks: seq<seq<T>>): seq<T> {
    if chunks == [] then [] else Flatten(chunks[..|chunks| - 1]) + chunks[|chunks| - 1]
  }

  lemma FlattenLast<T>(chunks: seq<seq<T>>, c: seq<T>)
    ensures Flatten(chunks + [c]) == Flatten(chunks) + c
  {
    assert (chunks + [c])[..|chunks|] == chunks;
  }

  lemma FlattenPrefix<T>(chunks: seq<seq<T>>, i: nat)
    requires i < |chunks|
    ensures Flatten(chunks[..i + 1]) == Flatten(chunks[..i]) + chunks[i]
  {
    FlattenLast(chunks[..i], chunks[i]);
    assert chunks[..i + 1] == chunks[..i] + [chunks[i]];
  }

  /** Taking one more row of `chunk` appends that row. */
  lemma PrefixSnoc<T>(before: seq<T>, chunk: seq<T>, j: nat)
    requires j < |chunk|
    ensures before + chunk[..j + 1] == (before + chunk[..j]) + [chunk[j]]
  {
    assert chunk[..j + 1] == chunk[..j] + [chunk[j]];
  }

  /** How many rows of a log of `r` rows the capped reader hands out. */
  function Processed(r: nat): nat {
    MinNat(r, SIZE * MAX)
  }

  /**
   * The chunk reader: consecutive slices of SIZE rows (the last one possibly
   * shorter), in file order, stopping after MAX chunks or at the end of the
   * log, whichever comes first.
   */
  method ReadListeningEvents(log: seq<Event>) returns (chunks: seq<seq<Event>>)
    ensures Flatten(chunks) == log[..Processed(|log|)]
    ensures |chunks| <= MAX
    ensures forall i :: 0 <= i < |chunks| ==> 1 <= |chunks[i]| <= SIZE
    ensures forall i :: 0 <= i < |chunks| - 1 ==> |chunks[i]| == SIZE
  {
    chunks := [];
    var pos := 0;
    while pos < |log|
      invariant pos == MinNat(|log|, SIZE * |chunks|)
      invariant |chunks| <= MAX
      invariant pos < |log| ==> |chunks| < MAX
      invariant pos < |log| ==> forall i :: 0 <= i < |chunks| ==> |chunks[i]| == SIZE
      invariant Flatten(chunks) == log[..pos]
      invariant forall i :: 0 <= i < |chunks| ==> 1 <= |chunks[i]| <= SIZE
      invariant forall i :: 0 <= i < |chunks| - 1 ==> |chunks[i]| == SIZE
      decreases |log| - pos
    {
      var end := if pos + SIZE <= |log| then pos + SIZE else |log|;
      var chunk := log[pos..end];
      FlattenLast(chunks, chunk);
      assert log[..pos] + chunk == log[..end];
      chunks := chunks + [chunk];
      pos := end;
      if |chunks| >= MAX {
        break;
      }
    }
  }

  /** The `track_id` column. */
  function Tracks(rows: seq<Event>): (ts: seq<TrackId>)
    ensures |ts| == |rows| && forall i :: 0 <= i < |rows| ==> ts[i] == rows[i].track
  {
    seq(|rows|, i requires 0 <= i < |rows| => rows[i].track)
  }

  /** The `user_id` column. */
  function Users(rows: seq<Event>): (us: seq<UserId>)
    ensures |us| == |rows| && forall i :: 0 <= i < |rows| ==> us[i] == rows[i].user
  {
    seq(|rows|, i requires 0 <= i < |rows| => rows[i].user)
  }

  /** The user of every row whose track is in `unpopular`, in row order. */
  function UnpopularUsers(rows: seq<Event>, unpopular: set<TrackId>): seq<UserId> {
    if rows == [] then []
    else
      var last := rows[|rows| - 1];
      UnpopularUsers(rows[..|rows| - 1], unpopular) + (if last.track in unpopular then [last.user] else [])
  }

  lemma ColumnsLast(rows: seq<Event>, e: Event, unpopular: set<TrackId>)
    ensures Tracks(rows + [e]) == Tracks(rows) + [e.track]
    ensures Users(rows + [e]) == Users(rows) + [e.user]
    ensures UnpopularUsers(rows + [e], unpopular)
         == UnpopularUsers(rows, unpopular) + (if e.track in unpopular then [e.user] else [])
  {
    assert (rows + [e])[..|rows|] == rows;
  }

  /** A user's unpopular listens are some of that user's listens. */
  lemma {:induction false} UnpopularWithinListens(rows: seq<Event>, unpopular: set<TrackId>)
    ensures multiset(UnpopularUsers(rows, unpopular)) <= multiset(Users(rows))
  {
    if rows != [] {
      var init, last := rows[..|rows| - 1], rows[|rows| - 1];
      assert rows == init + [last];
      ColumnsLast(init, last, unpopular);
      UnpopularWithinListens(init, unpopular);
    }
  }

  /** A user has an unpopular listen exactly when one of their rows has an unpopular track. */
  lemma {:induction false} UnpopularUsersMember(rows: seq<Event>, unpopular: set<TrackId>, u: UserId)
    ensures u in UnpopularUsers(rows, unpopular)
        <==> exists i :: 0 <= i < |rows| && rows[i].user == u && rows[i].track in unpopular
  {
    if rows != [] {
      var init, last := rows[..|rows| - 1], rows[|rows| - 1];
      assert rows == init + [last];
      UnpopularUsersMember(init, unpopular, u);
      if exists i :: 0 <= i < |rows| && rows[i].user == u && rows[i].track in unpopular {
        var i :| 0 <= i < |rows| && rows[i].user == u && rows[i].track in unpopular;
        if i < |init| {
          assert init[i] == rows[i];
        }
      }
      if exists i :: 0 <= i < |init| && init[i].user == u && init[i].track in unpopular {
        var i :| 0 <= i < |init| && init[i].user == u && init[i].track in unpopular;
        assert rows[i] == init[i];
      }
    }
  }
}
