/** A query result on its whole way: fetched, laid out, written, read, and looked up row by row. */
module EndToEnd {
  import opened Wrappers
  import opened Words
  import opened WireTypes
  import opened WireReaders
  import opened WireWriters
  import opened WireRoundTrip
  import opened BinaryDeserializer
  import opened Columns
  import opened ColumnLayout
  import opened FetchLoop
  import opened DataReader

  /** A row: one cell for each column. */
  type Cells = seq<Cell>

  // ----- laid-out columns can be written

  /** Every count, length and offset in a vector is below 2^31. */
  predicate SizesSmall(v: Vector)
    decreases v
  {
    && (v.validity.Some? ==> Small(|v.validity.value|))
    && match v.content
       case Data(bytes) => Small(|bytes|)
       case Strings(strings) => Small(|strings|) && forall s <- strings :: Small(|s|)
       case Blobs(blobs) => Small(|blobs|) && forall s <- blobs :: Small(|s|)
       case Vectors(children) => Small(|children|) && forall child <- children :: SizesSmall(child)
       case Lists(listSize, entries, child) =>
         Small(listSize) && Small(|entries|) && (forall e <- entries :: Small(e.offset) && Small(e.length)) && SizesSmall(child)
       case Arrays(arraySize, element) => Small(arraySize) && SizesSmall(element)
  }

  lemma {:induction false} ChildrenFit(children: seq<Vector>, types: seq<LogicalType>)
    requires |children| == |types|
    requires forall k :: 0 <= k < |children| ==> (SizesSmall(children[k]) <==> VectorFits(children[k], types[k]))
    ensures (Small(|children|) && forall child <- children :: SizesSmall(child)) <==> VectorsFit(children, types)
  {
    hide SizesSmall, VectorFits;
    assert forall k :: 0 <= k < |children| ==> children[k] in children;
    if VectorsFit(children, types) {
      forall child | child in children
        ensures SizesSmall(child)
      {
        var k :| 0 <= k < |children| && children[k] == child;
        assert VectorFits(children[k], types[k]);
      }
    }
  }

  /** A laid-out column always has the shape that its type asks for, so it can be written whenever its sizes are small. */
  lemma {:induction false} LayoutFits(t: LogicalType, cells: seq<Cell>)
    requires TypeOk(t)
    ensures SizesSmall(Layout(t, cells)) <==> VectorFits(Layout(t, cells), t)
    decreases t
  {
    KindOfId(t.id);
    match StorageOf(t.id)
    case FixedWidth =>
    case StringList =>
    case BlobList =>
    case VectorList =>
      var fields := FieldsOf(t);
      var children := ContentOf(t, cells).children;
      forall k | 0 <= k < |fields|
        ensures SizesSmall(children[k]) <==> VectorFits(children[k], FieldTypes(fields)[k])
      {
        assert fields[k] in fields && children[k] in children;
        LayoutFits(fields[k].fieldType, PartRows(t, cells, k));
      }
      ChildrenFit(children, FieldTypes(fields));
    case ListVector => LayoutFits(ChildOf(t), Flat(t, cells));
    case ArrayVector => LayoutFits(t.info.value.detail.element, Flat(t, cells));
  }

  // ----- chunks

  predicate RowsOk(types: seq<LogicalType>, rows: seq<Cells>)
    requires forall t <- types :: TypeOk(t)
  {
    forall r <- rows :: |r| == |types| && forall c :: 0 <= c < |types| ==> CellOk(types[c], r[c])
  }

  function Column(rows: seq<Cells>, c: nat): (cells: seq<Cell>)
    requires forall r <- rows :: c < |r|
    ensures |cells| == |rows|
  {
    seq(|rows|, i requires 0 <= i < |rows| => rows[i][c])
  }

  /** A chunk of the response: its rows, column by column. */
  function ChunkOf(types: seq<LogicalType>, served: Served<Cells>): Chunk
    requires (forall t <- types :: TypeOk(t)) && RowsOk(types, served.rows)
  {
    Chunk(served.rowCount, seq(|types|, c requires 0 <= c < |types| => Layout(types[c], Column(served.rows, c))))
  }

  /** The value of a decoded chunk at a column and row. */
  function ChunkValue(types: seq<LogicalType>, chunk: Chunk, c: int, r: int): Outcome<Value> {
    if 0 <= c < |types| then ValueFromVector(types[c], VectorOrNone(chunk.vectors, c), r) else Failure(UndefinedAccess)
  }

  function BatchOf(types: seq<LogicalType>, chunk: Chunk): Batch<Outcome<Value>> {
    Batch(if chunk.rowCount < 0 then 0 else chunk.rowCount, (c: int, r: int) => ChunkValue(types, chunk, c, r))
  }

  /** What the iterator over the chunks of a result yields. */
  function ResultsOf(types: seq<LogicalType>, chunks: seq<Chunk>): (r: seq<IteratorResult<Outcome<Value>>>)
    ensures |r| == |chunks|
  {
    seq(|chunks|, i requires 0 <= i < |chunks| => IteratorResult(Some(BatchOf(types, chunks[i])), false))
  }

  function BatchesOf(types: seq<LogicalType>, chunks: seq<Chunk>): (r: seq<Batch<Outcome<Value>>>)
    ensures |r| == |chunks|
  {
    seq(|chunks|, i requires 0 <= i < |chunks| => BatchOf(types, chunks[i]))
  }

  lemma {:induction false} AllBatches(types: seq<LogicalType>, chunks: seq<Chunk>)
    ensures BatchesIn(ResultsOf(types, chunks)) == BatchesOf(types, chunks)
    decreases |chunks|
  {
    if chunks != [] {
      var n := |chunks| - 1;
      AllBatches(types, chunks[..n]);
      assert ResultsOf(types, chunks)[..n] == ResultsOf(types, chunks[..n]);
      assert BatchesOf(types, chunks) == BatchesOf(types, chunks[..n]) + [BatchOf(types, chunks[n])];
    }
  }

  /** Every cell of a served chunk is read back as the value it stands for. */
  lemma ChunkReadsBack(types: seq<LogicalType>, served: Served<Cells>, c: nat, r: nat)
    requires (forall t <- types :: TypeOk(t)) && RowsOk(types, served.rows) && c < |types| && r < |served.rows|
    ensures CellOk(types[c], served.rows[r][c])
    ensures ChunkValue(types, ChunkOf(types, served), c, r) == Success(ValueOf(types[c], served.rows[r][c]))
  {
    var cells := Column(served.rows, c);
    forall cell | cell in cells ensures CellOk(types[c], cell) {
      var i :| 0 <= i < |cells| && cells[i] == cell;
      assert served.rows[i] in served.rows;
    }
    ReadsBack(types[c], cells, r);
  }

  /** Row `j` of chunk `k`, in the rows of all chunks. */
  lemma {:induction false} FlattenAt(chunks: seq<seq<Cells>>, sizes: seq<nat>, k: nat, j: nat)
    requires |sizes| == |chunks| && forall i :: 0 <= i < |chunks| ==> sizes[i] == |chunks[i]|
    requires k < |chunks| && j < |chunks[k]|
    ensures Sum(sizes) == |Flatten(chunks)| && Sum(sizes[..k]) + j < |Flatten(chunks)|
    ensures Flatten(chunks)[Sum(sizes[..k]) + j] == chunks[k][j]
    decreases |chunks|
  {
    var n := |chunks| - 1;
    FlattenSum(chunks[..n], sizes[..n]);
    if k < n {
      FlattenAt(chunks[..n], sizes[..n], k, j);
      assert sizes[..n][..k] == sizes[..k];
    }
  }

  lemma {:induction false} FlattenSum(chunks: seq<seq<Cells>>, sizes: seq<nat>)
    requires |sizes| == |chunks| && forall i :: 0 <= i < |chunks| ==> sizes[i] == |chunks[i]|
    ensures Sum(sizes) == |Flatten(chunks)|
    decreases |chunks|
  {
    if chunks != [] { FlattenSum(chunks[..|chunks| - 1], sizes[..|chunks| - 1]); }
  }

  // ----- the whole way

  /** What is asked of a stream of chunks so that it can be served, whatever the limit: sizes that the formats can hold. */
  ghost predicate CanServe(types: seq<LogicalType>, names: seq<Bytes>, stream: seq<seq<Cells>>)
  {
    && Small(|names|) && (forall n <- names :: Small(|n|))
    && Small(|types|) && (forall t <- types :: TypeOk(t) && TypeFits(t))
    && Small(|stream|)
    && forall s <- stream ::
         && |s| < 0x1_0000 && RowsOk(types, s)
         && forall n, c :: 0 <= n <= |s| && 0 <= c < |types| ==> SizesSmall(Layout(types[c], Column(s[..n], c)))
  }

  ghost predicate ServedFrom(stream: seq<seq<Cells>>, chunks: seq<Served<Cells>>) {
    && (forall s <- stream :: |s| < 0x1_0000)
    && (forall c <- chunks :: c.rowCount == |c.rows| % 0x1_0000)
    && forall c <- chunks :: exists s <- stream :: c.rows <= s
  }

  lemma ServedChunkFits(types: seq<LogicalType>, names: seq<Bytes>, stream: seq<seq<Cells>>, chunks: seq<Served<Cells>>,
                        i: nat)
    requires CanServe(types, names, stream) && ServedFrom(stream, chunks) && i < |chunks|
    ensures RowsOk(types, chunks[i].rows) && chunks[i].rowCount == |chunks[i].rows|
    ensures ChunkFits(ChunkOf(types, chunks[i]), types)
  {
    var served := chunks[i];
    assert served in chunks;
    var s :| s in stream && served.rows <= s;
    assert served.rows == s[..|served.rows|];
    forall r | r in served.rows ensures r in s {
    }
    forall c | 0 <= c < |types| ensures VectorFits(ChunkOf(types, served).vectors[c], types[c]) {
      assert types[c] in types;
      assert SizesSmall(Layout(types[c], Column(s[..|served.rows|], c)));
      LayoutFits(types[c], Column(served.rows, c));
    }
  }

  function ChunksOf(types: seq<LogicalType>, chunks: seq<Served<Cells>>): (r: seq<Chunk>)
    requires (forall t <- types :: TypeOk(t)) && forall c <- chunks :: RowsOk(types, c.rows)
    ensures |r| == |chunks|
  {
    seq(|chunks|, i requires 0 <= i < |chunks| => ChunkOf(types, chunks[i]))
  }

  /** Batches give, at column `c` and row `r`, the value that the cell of `rows` there stands for. */
  ghost predicate CellReadsBack(types: seq<LogicalType>, batches: seq<Batch<Outcome<Value>>>, rows: seq<Cells>,
                                c: nat, r: nat)
    requires (forall t <- types :: TypeOk(t)) && c < |types| && r < |rows| == Sum(Sizes(batches))
  {
    var (k, j) := Locate(Sizes(batches), r);
    && |rows[r]| == |types| && CellOk(types[c], rows[r][c])
    && batches[k].value(c, j) == Success(ValueOf(types[c], rows[r][c]))
  }

  /** A row of the reader is the row of the served chunks with the same number. */
  lemma ReaderRow(types: seq<LogicalType>, chunks: seq<Served<Cells>>, c: nat, r: nat)
    requires (forall t <- types :: TypeOk(t)) && (forall s <- chunks :: RowsOk(types, s.rows) && s.rowCount == |s.rows|)
    requires c < |types| && r < |Flatten(RowsOf(chunks))|
    requires Sum(Sizes(BatchesOf(types, ChunksOf(types, chunks)))) == |Flatten(RowsOf(chunks))|
    ensures CellReadsBack(types, BatchesOf(types, ChunksOf(types, chunks)), Flatten(RowsOf(chunks)), c, r)
  {
    hide TypeOk, Flatten, CellOk, ValueOf, Layout, ChunkValue, ChunkOf, RowsOk, Sizes, BatchesOf, ChunksOf, RowsOf;
    var sizes := Sizes(BatchesOf(types, ChunksOf(types, chunks)));
    ChunkSizes(types, chunks);
    var (k, j) := Locate(sizes, r);
    FlattenAt(RowsOf(chunks), sizes, k, j);
    assert chunks[k] in chunks;
    RowLength(types, chunks[k].rows, j);
    ChunkReadsBack(types, chunks[k], c, j);
  }

  /** The chunks as batches: their sizes are their numbers of rows, and their values those of the decoded chunks. */
  lemma ChunkSizes(types: seq<LogicalType>, chunks: seq<Served<Cells>>)
    requires (forall t <- types :: TypeOk(t)) && (forall s <- chunks :: RowsOk(types, s.rows) && s.rowCount == |s.rows|)
    ensures var batches := BatchesOf(types, ChunksOf(types, chunks));
            && |batches| == |Sizes(batches)| == |RowsOf(chunks)| == |chunks|
            && (forall k :: 0 <= k < |chunks| ==> RowsOf(chunks)[k] == chunks[k].rows)
            && (forall k :: 0 <= k < |chunks| ==> Sizes(batches)[k] == |chunks[k].rows|)
            && (forall k, c: int, j: int :: 0 <= k < |chunks| ==>
                  batches[k].value(c, j) == ChunkValue(types, ChunkOf(types, chunks[k]), c, j))
  {}

  lemma RowLength(types: seq<LogicalType>, rows: seq<Cells>, j: nat)
    requires (forall t <- types :: TypeOk(t)) && RowsOk(types, rows) && j < |rows|
    ensures |rows[j]| == |types|
  {
    assert rows[j] in rows;
  }

  lemma AllReaderRows(types: seq<LogicalType>, chunks: seq<Served<Cells>>)
    requires (forall t <- types :: TypeOk(t)) && (forall s <- chunks :: RowsOk(types, s.rows) && s.rowCount == |s.rows|)
    ensures var batches, rows := BatchesOf(types, ChunksOf(types, chunks)), Flatten(RowsOf(chunks));
            && Sum(Sizes(batches)) == |rows|
            && forall c, r :: 0 <= c < |types| && 0 <= r < |rows| ==> CellReadsBack(types, batches, rows, c, r)
  {
    hide TypeOk, Flatten, CellReadsBack;
    var batches, rows := BatchesOf(types, ChunksOf(types, chunks)), Flatten(RowsOf(chunks));
    FlattenSum(RowsOf(chunks), Sizes(batches));
    forall c, r | 0 <= c < |types| && 0 <= r < |rows| ensures CellReadsBack(types, batches, rows, c, r) {
      ReaderRow(types, chunks, c, r);
    }
  }

  lemma ServedFits(types: seq<LogicalType>, names: seq<Bytes>, stream: seq<seq<Cells>>, chunks: seq<Served<Cells>>)
    requires CanServe(types, names, stream) && |chunks| <= |stream|
    requires forall c <- chunks :: c.rowCount == |c.rows| % 0x1_0000
    requires forall c <- chunks :: exists s <- stream :: c.rows <= s
    ensures (forall t <- types :: TypeOk(t)) && forall s <- chunks :: RowsOk(types, s.rows) && s.rowCount == |s.rows|
    ensures QueryResultFits(SuccessResult(ColumnNamesAndTypes(names, types), ChunksOf(types, chunks)))
  {
    hide SizesSmall, Layout, TypeOk, VectorFits, TypeFits, RowsOk, ChunkFits;
    assert ServedFrom(stream, chunks);
    forall i | 0 <= i < |chunks|
      ensures RowsOk(types, chunks[i].rows) && chunks[i].rowCount == |chunks[i].rows|
      ensures ChunkFits(ChunkOf(types, chunks[i]), types)
    {
      ServedChunkFits(types, names, stream, chunks, i);
    }
  }

  /** The client reads from the buffer what the server wrote to it. */
  method Receive(buffer: Bytes, ghost result: QueryResult, ghost choice: Choice) returns (received: QueryResult)
    requires QueryResultFits(result) && buffer == QueryResultBytes(result, choice) + Id(OBJECT_END)
    ensures received == result
  {
    hide QueryResultAt, QueryResultBytes, QueryResultFits;
    QueryResultRoundTrip(result, choice, []);
    assert buffer + [] == buffer;
    var stream := new BinaryStreamReader(buffer);
    var deserializer := new BinaryDeserializer(stream);
    var r := ReadQueryResult(deserializer);
    received := r.value;
  }

  /** What a read returned is the value that the cell of column `c` in this row stands for. */
  ghost predicate IsCell(types: seq<LogicalType>, row: Cells, c: nat,
                         read: Result<Outcome<Value>, LookupError>)
    requires c < |types|
  {
    TypeOk(types[c]) && |row| == |types| && CellOk(types[c], row[c])
    && read == Success(Success(ValueOf(types[c], row[c])))
  }

  /**
   * From the stream of chunks of a query to the client's reader. The reader holds the first rows, up to the limit for
   * the response; each value in it is the value of that row of the query result; and the table gets the first rows up
   * to its own limit.
   */
  method QueryOverTheWire(types: seq<LogicalType>, names: seq<Bytes>, stream: seq<seq<Cells>>, choice: Choice,
                          resultRowLimit: int, resultTableRowLimit: int, hasAppender: bool)
    returns (reader: DataReader<Outcome<Value>>, appended: seq<Cells>)
    requires CanServe(types, names, stream)
    ensures fresh(reader) && reader.Valid() && reader.iteratorDone
    ensures reader.totalRowsRead == |Take(Flatten(stream), resultRowLimit)|
    ensures forall c, r :: 0 <= c < |types| && 0 <= r < reader.totalRowsRead ==>
                             IsCell(types, Flatten(stream)[r], c, reader.ValueSpec(c, r))
    ensures appended == if hasAppender then Take(Flatten(stream), resultTableRowLimit) else []
  {
    hide Layout, TypeOk, CellOk, ValueOf, Flatten, Take, Sum, Locate, CanServe, QueryResultBytes, QueryResultFits,
         CellReadsBack, RowsOk, BatchesIn, StopAt, Sizes, IsCell;
    var served, fetched;
    served, appended, fetched := FetchRows(stream, resultRowLimit, resultTableRowLimit, hasAppender);
    ServedFits(types, names, stream, served);
    var result := SuccessResult(ColumnNamesAndTypes(names, types), ChunksOf(types, served));
    var received := Receive(QueryResultBytes(result, choice) + Id(OBJECT_END), result, choice);
    var source := new BatchIterator(ResultsOf(received.columns.types, received.chunks));
    reader := new DataReader(source);
    ReadsAll(source.results, 0, reader.totalRowsRead);
    reader.Read(None);
    AllBatches(types, result.chunks);
    assert source.results[..|source.results|] == source.results;
    AllReaderRows(types, served);
    assert reader.batches == BatchesOf(types, result.chunks);
    TakeLength(Flatten(stream), resultRowLimit);
    forall c, r | 0 <= c < |types| && 0 <= r < reader.totalRowsRead
      ensures IsCell(types, Flatten(stream)[r], c, reader.ValueSpec(c, r))
    {
      assert CellReadsBack(types, reader.batches, Flatten(RowsOf(served)), c, r);
      SpecOfCell(types, reader, Flatten(RowsOf(served)), c, r);
      TakeAt(Flatten(stream), resultRowLimit, r);
    }
  }

  lemma TakeLength(rows: seq<Cells>, limit: int)
    ensures |Take(rows, limit)| <= |rows|
  {
  }

  lemma TakeAt(rows: seq<Cells>, limit: int, r: nat)
    requires r < |Take(rows, limit)|
    ensures r < |rows| && Take(rows, limit)[r] == rows[r]
  {
  }

  lemma SpecOfCell(types: seq<LogicalType>, reader: DataReader<Outcome<Value>>, rows: seq<Cells>, c: nat, r: nat)
    requires (forall t <- types :: TypeOk(t)) && c < |types| && r < |rows| == Sum(Sizes(reader.batches))
    requires reader.totalRowsRead == Sum(Sizes(reader.batches))
    requires CellReadsBack(types, reader.batches, rows, c, r)
    ensures IsCell(types, rows[r], c, reader.ValueSpec(c, r))
  {}
}
