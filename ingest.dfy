/** `CSVHandler` (main.py:55-86): read one event log in chunks, convert each
    chunk's epoch-second `timestamp` to a calendar instant, keep the rows of the
    target day, and concatenate the filtered chunks. The reader is generic in
    the row type; `stamp` reads a row's `timestamp` column. */
module Ingest {
  import opened Wrappers
  import opened Seqs
  import opened Calendar
  import opened Records

  /** `CSVHandler.CHUNK_SIZE`. */
  const ChunkSize: nat := 1000

  /** What `get_data_from_csv_file` hands back: an empty frame, which yields no
      chunks when iterated, or the reader's chunks in file order. */
  datatype CsvSource<R> = FileMissing | Chunks(chunks: seq<seq<R>>)

  /** The chunks `pd.read_csv(..., chunksize=n)` yields for the data rows of a
      file: full chunks of `n` rows, then the rest. A file with a header and no
      rows yields one empty chunk. */
  function SplitIntoChunks<R>(rows: seq<R>, n: nat): (r: seq<seq<R>>)
    requires n > 0
    ensures r != []
    ensures Flatten(r) == rows
    ensures forall i :: 0 <= i < |r| ==> |r[i]| <= n
    decreases |rows|
  {
    if |rows| <= n then [rows]
    else
      assert rows == rows[..n] + rows[n..];
      [rows[..n]] + SplitIntoChunks(rows[n..], n)
  }

  /** `get_data_from_csv_file` (main.py:70-76): a missing file (None) is caught and gives an empty frame. */
  function OpenCsv<R>(file: Option<seq<R>>, chunkSize: nat): (src: CsvSource<R>)
    requires chunkSize > 0
    ensures file.None? <==> src.FileMissing?
    ensures file.Some? ==> Flatten(src.chunks) == file.value && src.chunks != []
  {
    match file
    case None => FileMissing
    case Some(rows) => Chunks(SplitIntoChunks(rows, chunkSize))
  }

  /** The calendar day of the converted timestamp is `day` (`df['timestamp'].dt.date == date`). */
  predicate OnDay(ts: int, day: int) {
    FromEpochSeconds(ts).epochDay == day
  }

  /** `date_filter`'s mask (main.py:61): the rows whose timestamp lies on
      epoch day `day`, in input order. */
  function DateFilter<R>(rows: seq<R>, stamp: R -> int, day: int): (r: seq<R>)
    ensures |r| <= |rows|
    ensures forall i :: 0 <= i < |r| ==> OnDay(stamp(r[i]), day)
    ensures IsSubsequence(r, rows)
  {
    if rows == [] then []
    else
      var rest := DateFilter(rows[1..], stamp, day);
      if OnDay(stamp(rows[0]), day) then
        assert ([rows[0]] + rest)[1..] == rest;
        [rows[0]] + rest
      else
        SubsequenceOfTail(rest, rows[0], rows[1..]);
        assert [rows[0]] + rows[1..] == rows;
        rest
  }

  /** The date filter keeps each row exactly as often as the input holds it
      when its timestamp lies on the day, and drops it otherwise. */
  lemma {:induction false} DateFilterCount<R>(rows: seq<R>, stamp: R -> int, day: int, x: R)
    ensures multiset(DateFilter(rows, stamp, day))[x] == if stamp(x) / SecondsPerDay == day then multiset(rows)[x] else 0
  {
    if rows != [] {
      DateFilterCount(rows[1..], stamp, day, x);
      assert rows == [rows[0]] + rows[1..];
    }
  }

  /** Membership: a row is kept iff it is in the input and `ts / 86400 == day`. */
  lemma DateFilterMembers<R>(rows: seq<R>, stamp: R -> int, day: int, x: R)
    ensures x in DateFilter(rows, stamp, day) <==> x in rows && stamp(x) / SecondsPerDay == day
  {
    DateFilterCount(rows, stamp, day, x);
  }

  /** Filtering twice is filtering once. */
  lemma {:induction false} DateFilterIdempotent<R>(rows: seq<R>, stamp: R -> int, day: int)
    ensures DateFilter(DateFilter(rows, stamp, day), stamp, day) == DateFilter(rows, stamp, day)
  {
    if rows != [] {
      DateFilterIdempotent(rows[1..], stamp, day);
      var rest := DateFilter(rows[1..], stamp, day);
      if OnDay(stamp(rows[0]), day) {
        assert ([rows[0]] + rest)[1..] == rest;
      }
    }
  }

  /** Filtering a concatenation filters each part. */
  lemma {:induction false} DateFilterAppend<R>(a: seq<R>, b: seq<R>, stamp: R -> int, day: int)
    ensures DateFilter(a + b, stamp, day) == DateFilter(a, stamp, day) + DateFilter(b, stamp, day)
  {
    if a == [] {
      assert a + b == b;
    } else {
      assert (a + b)[0] == a[0];
      assert (a + b)[1..] == a[1..] + b;
      DateFilterAppend(a[1..], b, stamp, day);
    }
  }

  /** `CSVHandler.processing` (main.py:78-81): convert the timestamps, parse the
      target date (raising on a malformed one) and keep the rows of that day. */
  function ProcessChunk<R>(chunk: seq<R>, stamp: R -> int, date: string): (r: Result<seq<R>, Error>)
    ensures r.Failure? <==> ParseDate(date).None?
    ensures r.Failure? ==> r.error == MalformedDate
    ensures r.Success? ==> forall i :: 0 <= i < |r.value| ==> OnDay(stamp(r.value[i]), EpochDay(ParseDate(date).value))
    ensures r.Success? ==> r.value == DateFilter(chunk, stamp, EpochDay(ParseDate(date).value))
  {
    match ParseDate(date)
    case None => Failure(MalformedDate)
    case Some(d) => Success(DateFilter(chunk, stamp, EpochDay(d)))
  }

  /** `[self.processing(x, date) for x in df]` (main.py:85): the first raising
      chunk aborts the list; otherwise the i-th frame is the i-th chunk filtered. */
  function ProcessChunks<R>(chunks: seq<seq<R>>, stamp: R -> int, date: string): (r: Result<seq<seq<R>>, Error>)
    ensures r.Failure? <==> chunks != [] && ParseDate(date).None?
    ensures r.Failure? ==> r.error == MalformedDate
    ensures r.Success? ==> |r.value| == |chunks|
    ensures r.Success? && chunks != [] ==>
      forall i :: 0 <= i < |chunks| ==> r.value[i] == DateFilter(chunks[i], stamp, EpochDay(ParseDate(date).value))
  {
    if chunks == [] then Success([])
    else
      match ProcessChunk(chunks[0], stamp, date)
      case Failure(e) => Failure(e)
      case Success(f) =>
        match ProcessChunks(chunks[1..], stamp, date)
        case Failure(e) => Failure(e)
        case Success(fs) =>
          assert forall i :: 1 <= i < |chunks| ==> chunks[i] == chunks[1..][i - 1];
          Success([f] + fs)
  }

  /** `pd.concat(dfs)` (main.py:86): raises on an empty list of frames. */
  function Concat<R>(frames: seq<seq<R>>): (r: Result<seq<R>, Error>)
    ensures frames == [] <==> r == Failure(NothingToConcatenate)
    ensures r.Success? ==> r.value == Flatten(frames)
  {
    if frames == [] then Failure(NothingToConcatenate) else Success(Flatten(frames))
  }

  /** Concatenating the reader's chunks gives back the file's rows, whatever the chunk size. */
  lemma ConcatSplit<R>(rows: seq<R>, n: nat)
    requires n > 0
    ensures Concat(SplitIntoChunks(rows, n)) == Success(rows)
  {
  }

  /** Concatenating two non-empty lists of frames together is concatenating
      the two results. */
  lemma ConcatAppend<R>(a: seq<seq<R>>, b: seq<seq<R>>)
    requires a != [] && b != []
    ensures Concat(a + b) == Success(Concat(a).value + Concat(b).value)
  {
    FlattenAppend(a, b);
  }

  /** Processing a non-empty list of chunks either raises on the date or
      yields one frame per chunk that together hold the filter of all rows. */
  lemma {:induction false} ProcessChunksSpec<R>(chunks: seq<seq<R>>, stamp: R -> int, date: string)
    ensures ParseDate(date).None? && chunks != [] ==> ProcessChunks(chunks, stamp, date) == Failure(MalformedDate)
    ensures ParseDate(date).Some? ==>
      var fs := ProcessChunks(chunks, stamp, date);
      fs.Success? && |fs.value| == |chunks| &&
      Flatten(fs.value) == DateFilter(Flatten(chunks), stamp, EpochDay(ParseDate(date).value))
  {
    if chunks != [] && ParseDate(date).Some? {
      var day := EpochDay(ParseDate(date).value);
      ProcessChunksSpec(chunks[1..], stamp, date);
      DateFilterAppend(chunks[0], Flatten(chunks[1..]), stamp, day);
    }
  }

  /** The body of `CSVHandler.main` (main.py:85-86) on the reader's output:
      filtering chunk by chunk and concatenating is filtering all rows at once. */
  function ConcatProcessed<R>(src: CsvSource<R>, stamp: R -> int, date: string): (r: Result<seq<R>, Error>)
    ensures src.FileMissing? || src.chunks == [] ==> r == Failure(NothingToConcatenate)
    ensures src.Chunks? && src.chunks != [] && ParseDate(date).None? ==> r == Failure(MalformedDate)
    ensures src.Chunks? && src.chunks != [] && ParseDate(date).Some? ==>
      r == Success(DateFilter(Flatten(src.chunks), stamp, EpochDay(ParseDate(date).value)))
  {
    match src
    case FileMissing => Concat([])
    case Chunks(cs) =>
      ProcessChunksSpec(cs, stamp, date);
      match ProcessChunks(cs, stamp, date)
      case Failure(e) => Failure(e)
      case Success(frames) => Concat(frames)
  }

  /** A log read with any positive chunk size: a missing file raises in the
      concatenation, a malformed date raises, and otherwise the result is the
      date filter of the whole file, the same for every chunk size. */
  function ReadChunked<R>(file: Option<seq<R>>, chunkSize: nat, stamp: R -> int, date: string): (r: Result<seq<R>, Error>)
    requires chunkSize > 0
    ensures file.None? ==> r == Failure(NothingToConcatenate)
    ensures file.Some? && ParseDate(date).None? ==> r == Failure(MalformedDate)
    ensures file.Some? && ParseDate(date).Some? ==>
      r == Success(DateFilter(file.value, stamp, EpochDay(ParseDate(date).value)))
  {
    ConcatProcessed(OpenCsv(file, chunkSize), stamp, date)
  }

  /** `CSVHandler.main` (main.py:83-86) with `CHUNK_SIZE`. */
  function ReadEvents<R>(file: Option<seq<R>>, stamp: R -> int, date: string): (r: Result<seq<R>, Error>)
    ensures r.Success? ==>
      && ParseDate(date).Some?
      && (forall i :: 0 <= i < |r.value| ==> stamp(r.value[i]) / SecondsPerDay == EpochDay(ParseDate(date).value))
    ensures r.Success? ==> file.Some? && IsSubsequence(r.value, file.value)
    ensures r.Failure? <==> file.None? || ParseDate(date).None?
    ensures file.None? ==> r == Failure(NothingToConcatenate)
    ensures file.Some? && ParseDate(date).None? ==> r == Failure(MalformedDate)
    ensures r.Success? ==> r.value == DateFilter(file.value, stamp, EpochDay(ParseDate(date).value))
  {
    ReadChunked(file, ChunkSize, stamp, date)
  }
}
