/** The server's loop that fetches chunks, for the response and for a result table, each up to its own limit. */
module FetchLoop {

  /** A chunk of the response: its row count as a 16-bit number, and its rows. */
  datatype Served<R> = Served(rowCount: nat, rows: seq<R>)

  function Flatten<R>(chunks: seq<seq<R>>): seq<R> {
    if chunks == [] then [] else Flatten(chunks[..|chunks| - 1]) + chunks[|chunks| - 1]
  }

  function RowsOf<R>(chunks: seq<Served<R>>): (r: seq<seq<R>>)
    ensures |r| == |chunks|
  {
    seq(|chunks|, i requires 0 <= i < |chunks| => chunks[i].rows)
  }

  /** The first `limit` rows; none for a negative limit, all when there are fewer. */
  function Take<R>(rows: seq<R>, limit: int): seq<R> {
    if limit <= 0 then [] else if limit >= |rows| then rows else rows[..limit]
  }

  function Max(a: int, b: int): int {
    if a < b then b else a
  }

  function CopyAndSlice<R>(source: seq<R>, rowCount: nat): seq<R>
    requires rowCount <= |source|
  {
    source[..rowCount]
  }

  /** One more chunk, cut to what the limit leaves. */
  lemma TakeMore<R>(before: seq<R>, chunk: seq<R>, limit: int)
    ensures |Take(before, limit)| >= limit ==> Take(before + chunk, limit) == Take(before, limit)
    ensures |Take(before, limit)| < limit ==>
              var left := limit - |Take(before, limit)|;
              Take(before + chunk, limit) == Take(before, limit) + (if |chunk| > left then chunk[..left] else chunk)
  {
  }

  /** A prefix that is long enough settles the first rows. */
  lemma TakeOfPrefix<R>(prefix: seq<R>, all: seq<R>, limit: int)
    requires prefix <= all && (prefix == all || |prefix| >= limit)
    ensures Take(prefix, limit) == Take(all, limit)
  {
  }

  lemma {:induction false} FlattenPrefix<R>(chunks: seq<seq<R>>, k: nat)
    requires k <= |chunks|
    ensures Flatten(chunks[..k]) <= Flatten(chunks)
    ensures k < |chunks| ==> Flatten(chunks[..k + 1]) == Flatten(chunks[..k]) + chunks[k]
  {
    if k < |chunks| {
      assert chunks[..k + 1][..k] == chunks[..k];
      var n := |chunks| - 1;
      FlattenPrefix(chunks[..n], k);
      assert chunks[..n][..k] == chunks[..k];
    } else {
      assert chunks[..k] == chunks;
    }
  }

  /** The rows of the chunks served so far, when one more is served. */
  lemma ServeMore<R>(chunks: seq<Served<R>>, chunk: Served<R>)
    ensures Flatten(RowsOf(chunks + [chunk])) == Flatten(RowsOf(chunks)) + chunk.rows
  {
    assert RowsOf(chunks + [chunk])[..|chunks|] == RowsOf(chunks);
  }

  lemma NoRows<R>(stream: seq<seq<R>>, limit: int, other: int)
    ensures Flatten(stream[..0]) == [] && Flatten(RowsOf<R>([])) == []
    ensures Take<R>([], limit) == [] && Take<R>([], other) == []
  {
  }

  method FetchRows<R>(stream: seq<seq<R>>, resultRowLimit: int, resultTableRowLimit: int, hasAppender: bool)
    returns (chunks: seq<Served<R>>, appended: seq<R>, fetched: nat)
    // the response holds the first rows, up to its limit
    ensures Flatten(RowsOf(chunks)) == Take(Flatten(stream), resultRowLimit)
    ensures forall c <- chunks :: c.rowCount == |c.rows| % 0x1_0000
    ensures forall c <- chunks :: exists s <- stream :: c.rows <= s
    // the table, if there is one, gets the first rows, up to its own limit
    ensures appended == if hasAppender then Take(Flatten(stream), resultTableRowLimit) else []
    // fetching stops as soon as the larger limit is met
    ensures |chunks| <= fetched <= |stream|
    ensures fetched == |stream| || |Flatten(stream[..fetched])| >= Max(resultRowLimit, resultTableRowLimit)
    ensures forall k :: 0 <= k < fetched ==> |Flatten(stream[..k])| < Max(resultRowLimit, resultTableRowLimit)
  {
    hide Flatten, Take, RowsOf;
    NoRows<R>(stream, resultRowLimit, resultTableRowLimit);
    var rowLimit := Max(resultRowLimit, resultTableRowLimit);
    var rowsFetched, rowsAppended, rowsInResult := 0, 0, 0;
    chunks, appended, fetched := [], [], 0;
    while rowsFetched < rowLimit
      invariant |chunks| <= fetched <= |stream| && rowsFetched == |Flatten(stream[..fetched])|
      invariant Flatten(RowsOf(chunks)) == Take(Flatten(stream[..fetched]), resultRowLimit)
      invariant rowsInResult == |Flatten(RowsOf(chunks))|
      invariant appended == if hasAppender then Take(Flatten(stream[..fetched]), resultTableRowLimit) else []
      invariant rowsAppended == |appended|
      invariant forall c <- chunks :: c.rowCount == |c.rows| % 0x1_0000
      invariant forall c <- chunks :: exists s <- stream :: c.rows <= s
      invariant forall k :: 0 <= k < fetched ==> |Flatten(stream[..k])| < rowLimit
      decreases |stream| - fetched
    {
      if fetched == |stream| { break; }
      ghost var before := Flatten(stream[..fetched]);
      FlattenPrefix(stream, fetched);
      var chunk := stream[fetched];
      fetched := fetched + 1;
      rowsFetched := rowsFetched + |chunk|;
      if hasAppender {
        TakeMore(before, chunk, resultTableRowLimit);
        if rowsAppended < resultTableRowLimit {
          var chunkToAppend := chunk;
          var rowsLeft := resultTableRowLimit - rowsAppended;
          if |chunk| > rowsLeft { chunkToAppend := CopyAndSlice(chunk, rowsLeft); }
          appended := appended + chunkToAppend;
          rowsAppended := rowsAppended + |chunkToAppend|;
        }
      }
      TakeMore(before, chunk, resultRowLimit);
      if rowsInResult < resultRowLimit {
        var chunkToAdd := chunk;
        var rowsLeft := resultRowLimit - rowsInResult;
        if |chunk| > rowsLeft { chunkToAdd := CopyAndSlice(chunk, rowsLeft); }
        ServeMore(chunks, Served(|chunkToAdd| % 0x1_0000, chunkToAdd));
        assert chunk in stream && chunkToAdd <= chunk;
        chunks := chunks + [Served(|chunkToAdd| % 0x1_0000, chunkToAdd)];
        rowsInResult := rowsInResult + |chunkToAdd|;
      }
    }
    assert stream[..|stream|] == stream;
    FlattenPrefix(stream, fetched);
    TakeOfPrefix(Flatten(stream[..fetched]), Flatten(stream), resultRowLimit);
    if hasAppender { TakeOfPrefix(Flatten(stream[..fetched]), Flatten(stream), resultTableRowLimit); }
  }
}
