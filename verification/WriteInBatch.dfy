/** The handler of the write step, with its loops. */
module WriteInBatch {
  import opened Basics
  import opened Windows
  import opened Replay
  import opened Decimal
  import opened FileSplit

  /** A file as it is written to the sink. */
  datatype Written = Written(path: string, rows: seq<Row>)

  datatype Output = Output(processed: nat, paths: seq<string>, files: seq<Written>)

  function Contents(files: seq<Written>): seq<seq<Row>> {
    Map((w: Written) => w.rows, files)
  }

  /** One file per part, named by its position. */
  method WriteAll(parts: seq<seq<Row>>, prefix: string) returns (paths: seq<string>, files: seq<Written>)
    ensures |paths| == |files| == |parts|
    ensures forall i :: 0 <= i < |parts| ==> paths[i] == Name(prefix, i) && files[i] == Written(paths[i], parts[i])
  {
    paths, files := [], [];
    for idx := 0 to |parts|
      invariant |paths| == |files| == idx
      invariant forall i :: 0 <= i < idx ==> paths[i] == Name(prefix, i) && files[i] == Written(paths[i], parts[i])
    {
      var path := Name(prefix, idx);
      paths := paths + [path];
      files := files + [Written(path, parts[idx])];
    }
  }

  // ---------- Adjusting the datetime columns ----------

  function AdjustColumn(r: Row, col: string, offset: int): Row {
    if col in r.times then r.(times := r.times[col := Shifted(r.times[col], offset)]) else r
  }

  function Count(cols: seq<string>, c: string): nat {
    if cols == [] then 0 else Count(cols[..|cols| - 1], c) + if cols[|cols| - 1] == c then 1 else 0
  }

  /** The time of a column that is listed n times: shifted by the offset each time, and cut to seconds. */
  function ShiftedTimes(t: int, n: nat, offset: int): int {
    if n == 0 then t else Shifted(t, n * offset)
  }

  /** The row with each column shifted once for every time it is listed. */
  function AdjustedRow(r: Row, cols: seq<string>, offset: int): Row {
    r.(times := map c | c in r.times :: ShiftedTimes(r.times[c], Count(cols, c), offset))
  }

  lemma ShiftTwice(t: int, a: int, b: int)
    ensures Shifted(Shifted(t, a), b) == Shifted(t, a + b)
  {
    var q := (t + a * SECOND) / SECOND;
    assert (q * SECOND + b * SECOND) / SECOND == q + b;
    assert t + (a + b) * SECOND == t + a * SECOND + b * SECOND;
  }

  lemma ShiftOnceMore(t: int, n: nat, offset: int)
    ensures Shifted(ShiftedTimes(t, n, offset), offset) == ShiftedTimes(t, n + 1, offset)
  {
    ShiftTwice(t, n * offset, offset);
    assert (n + 1) * offset == n * offset + offset;
  }

  lemma CountOneMore(cols: seq<string>, col: string, c: string)
    ensures Count(cols + [col], c) == Count(cols, c) + if col == c then 1 else 0
  {
  }

  lemma TimeOneMore(t: int, cols: seq<string>, col: string, c: string, offset: int)
    ensures var before := ShiftedTimes(t, Count(cols, c), offset);
            ShiftedTimes(t, Count(cols + [col], c), offset) == if c == col then Shifted(before, offset) else before
  {
    CountOneMore(cols, col, c);
    ShiftOnceMore(t, Count(cols, c), offset);
  }

  lemma AdjustOneMore(r: Row, cols: seq<string>, col: string, offset: int)
    ensures AdjustColumn(AdjustedRow(r, cols, offset), col, offset) == AdjustedRow(r, cols + [col], offset)
  {
    var now, next := AdjustColumn(AdjustedRow(r, cols, offset), col, offset), AdjustedRow(r, cols + [col], offset);
    assert now.times.Keys == next.times.Keys;
    forall c | c in r.times ensures now.times[c] == next.times[c] {
      TimeOneMore(r.times[c], cols, col, c, offset);
    }
  }

  lemma AdjustNone(r: Row, offset: int)
    ensures AdjustedRow(r, [], offset) == r
  {
    assert AdjustedRow(r, [], offset).times == r.times;
  }

  function AdjustedRows(rows: seq<Row>, cols: seq<string>, offset: int): seq<Row> {
    Map(r => AdjustedRow(r, cols, offset), rows)
  }

  method AdjustColumns(columns: set<string>, rows: seq<Row>, cols: seq<string>, offset: int)
    returns (r: Result<seq<Row>, Failure>)
    ensures r.Ok? <==> forall c | c in cols :: c in columns
    ensures r == if r.Ok? then Ok(AdjustedRows(rows, cols, offset)) else Err(MissingColumn)
  {
    var df := rows;
    forall i | 0 <= i < |rows| ensures rows[i] == AdjustedRow(rows[i], [], offset) {
      AdjustNone(rows[i], offset);
    }
    for k := 0 to |cols|
      invariant forall c | c in cols[..k] :: c in columns
      invariant df == AdjustedRows(rows, cols[..k], offset)
    {
      if cols[k] !in columns {
        return Err(MissingColumn);
      }
      Prefixes(cols, k, k + 1);
      forall i | 0 <= i < |rows| ensures AdjustColumn(df[i], cols[k], offset) == AdjustedRow(rows[i], cols[..k + 1], offset) {
        AdjustOneMore(rows[i], cols[..k], cols[k], offset);
      }
      df := Map(r => AdjustColumn(r, cols[k], offset), df);
    }
    Prefixes(cols, 0, |cols|);
    r := Ok(df);
  }

  // ---------- The handler ----------

  predicate FitsOneRow(header: int, rowSize: int, maxSize: int) {
    rowSize != 0 && FloorDiv(maxSize - header, rowSize) >= 1
  }

  lemma NegativeSections(n: nat, p: int)
    requires p < 0
    ensures CeilDiv(n, p) <= 0
  {
    assert CeilDiv(n, p) == -(n / (-p));
  }

  lemma {:induction false} ContentsOfWritten(parts: seq<seq<Row>>, files: seq<Written>)
    requires |files| == |parts| && forall i :: 0 <= i < |parts| ==> files[i].rows == parts[i]
    ensures Contents(files) == parts
  {
  }

  /** The rows that the trigger selects from the file, each adjusted. */
  function Frame(t: Trigger, filterCol: string, cols: seq<string>, rows: seq<Row>): seq<Row> {
    AdjustedRows(RowsIn(t, filterCol, rows), cols, t.offset)
  }

  lemma FitsOneRowIff(header: int, rowSize: int, maxSize: int)
    requires rowSize > 0
    ensures FitsOneRow(header, rowSize, maxSize) <==> header + rowSize <= maxSize
  {
    FloorDivIs(maxSize - header, rowSize);
    var p := FloorDiv(maxSize - header, rowSize);
    if p >= 1 {
      MulMono(1, p, rowSize);
    } else {
      MulMono(p + 1, 1, rowSize);
    }
  }

  // ---------- What the selected rows are ----------

  /** r', as it is written: each listed column is later by the offset and cut to whole seconds. */
  ghost predicate WrittenAs(r: Row, r': Row, cols: seq<string>, offset: int) {
    && r'.details == r.details && r'.times.Keys == r.times.Keys
    && (forall c | c in r.times && c !in cols :: r'.times[c] == r.times[c])
    && (forall c | c in r.times && Count(cols, c) == 1 ::
          r'.times[c] % 1_000_000 == 0 && 0 <= r.times[c] + offset * 1_000_000 - r'.times[c] < 1_000_000)
  }

  lemma {:induction false} CountIn(cols: seq<string>, c: string)
    ensures Count(cols, c) == 0 <==> c !in cols
  {
    if cols != [] {
      CountIn(cols[..|cols| - 1], c);
      assert cols == cols[..|cols| - 1] + [cols[|cols| - 1]];
    }
  }

  lemma AdjustedIsWritten(r: Row, cols: seq<string>, offset: int)
    ensures WrittenAs(r, AdjustedRow(r, cols, offset), cols, offset)
  {
    var r' := AdjustedRow(r, cols, offset);
    forall c | c in r.times && c !in cols ensures r'.times[c] == r.times[c] {
      CountIn(cols, c);
    }
    forall c | c in r.times && Count(cols, c) == 1
      ensures r'.times[c] % 1_000_000 == 0 && 0 <= r.times[c] + offset * 1_000_000 - r'.times[c] < 1_000_000
    {
      ShiftedIs(r.times[c], offset);
    }
  }

  /** One row of the file: written, or left out when its time, later by the offset, is not in the period that
      starts with the trigger, or is missing. */
  lemma FrameOne(t: Trigger, col: string, cols: seq<string>, r: Row)
    ensures var period := col in r.times &&
                          t.minute * 60_000_000 <= r.times[col] + t.offset * 1_000_000 < (t.minute * 60 + t.frequency) * 1_000_000;
            && |Frame(t, col, cols, [r])| == (if period then 1 else 0)
            && (period ==> WrittenAs(r, Frame(t, col, cols, [r])[0], cols, t.offset))
  {
    RowsInOne(t, col, r);
    InPeriod(t, col, r);
    AdjustedIsWritten(r, cols, t.offset);
    assert RowIn(t, col, r) ==> |AdjustedRows([r], cols, t.offset)| == 1;
  }

  lemma RowsInOne(t: Trigger, col: string, r: Row)
    ensures RowsIn(t, col, [r]) == if RowIn(t, col, r) then [r] else []
  {
    FilterOne(x => RowIn(t, col, x), r);
  }

  lemma InPeriod(t: Trigger, col: string, r: Row)
    ensures RowIn(t, col, r) <==>
            && col in r.times
            && t.minute * 60_000_000 <= r.times[col] + t.offset * 1_000_000 < (t.minute * 60 + t.frequency) * 1_000_000
  {
  }

  lemma {:induction false} RowsInConcat(t: Trigger, col: string, a: seq<Row>, b: seq<Row>)
    ensures RowsIn(t, col, a + b) == RowsIn(t, col, a) + RowsIn(t, col, b)
  {
    TailOfConcat(a, b);
    if a != [] {
      RowsInConcat(t, col, a[1..], b);
    }
  }

  /** So the frame is the rows of the file in the period, in order. */
  lemma FrameConcat(t: Trigger, col: string, cols: seq<string>, a: seq<Row>, b: seq<Row>)
    ensures Frame(t, col, cols, a + b) == Frame(t, col, cols, a) + Frame(t, col, cols, b)
  {
    RowsInConcat(t, col, a, b);
  }

  /** The folder of a trigger's output names the window as it is replayed, offset included. */
  function PathPrefix(t: Trigger, sinkPath: string, iso: int -> string, file: nat): string {
    Prefix(sinkPath, iso, Start(t.minute, t.offset) + t.offset * SECOND,
           End(t.minute, t.offset, t.frequency) + t.offset * SECOND, file)
  }

  /** The labels are the trigger's own time and the frequency after it, whatever the offset. */
  lemma PathPrefixLabels(t: Trigger, sinkPath: string, iso: int -> string, file: nat)
    ensures PathPrefix(t, sinkPath, iso, file)
         == sinkPath + "/ingestion_start=" + iso(t.minute * 60_000_000)
            + "/ingestion_end=" + iso((t.minute * 60 + t.frequency) * 1_000_000) + "/" + Pad(file, 3)
  {
    var (s, e) := (Start(t.minute, t.offset) + t.offset * SECOND, End(t.minute, t.offset, t.frequency) + t.offset * SECOND);
    assert s == t.minute * 60_000_000 && e == (t.minute * 60 + t.frequency) * 1_000_000;
    PrefixLabels(sinkPath, iso, s, e, file);
  }

  /** No two files of any two invocations for one sink share a name, unless trigger time, frequency, file
      index and part are all the same; the offset does not matter. */
  lemma OutputsDistinct(sinkPath: string, iso: int -> string, t: Trigger, file: nat, part: nat,
                        t': Trigger, file': nat, part': nat)
    requires (forall x, y :: iso(x) == iso(y) ==> x == y) && forall x :: '/' !in iso(x)
    ensures Name(PathPrefix(t, sinkPath, iso, file), part) == Name(PathPrefix(t', sinkPath, iso, file'), part')
       <==> t.minute == t'.minute && t.frequency == t'.frequency && file == file' && part == part'
  {
    var (s, e) := (Start(t.minute, t.offset) + t.offset * SECOND, End(t.minute, t.offset, t.frequency) + t.offset * SECOND);
    var (s', e') := (Start(t'.minute, t'.offset) + t'.offset * SECOND, End(t'.minute, t'.offset, t'.frequency) + t'.offset * SECOND);
    assert s == t.minute * 60 * SECOND && s' == t'.minute * 60 * SECOND;
    assert e - s == t.frequency * SECOND && e' - s' == t'.frequency * SECOND;
    if Name(PathPrefix(t, sinkPath, iso, file), part) == Name(PathPrefix(t', sinkPath, iso, file'), part') {
      NamesDistinct(sinkPath, iso, s, e, file, part, s', e', file', part');
    }
  }

  /** As many of the biggest rows as go into one file are within the limit, as they are written. */
  predicate BiggestFit(df: seq<Row>, header: int, rowSize: int, writtenHeader: int, written: Row -> nat, maxSize: int)
    requires FitsOneRow(header, rowSize, maxSize)
  {
    FloorDiv(maxSize - header, rowSize) * Biggest(df, written) <= maxSize - writtenHeader
  }

  /** The files of n rows, p of which fit in one: named by position, not empty, evenly filled, and no more of
      them than needed. */
  predicate AsFewAsFit(n: nat, paths: seq<string>, files: seq<Written>, prefix: string, p: int) {
    && |paths| == |files| && LeastEnough(|files|, n, p) && Balanced(Contents(files))
    && forall i :: 0 <= i < |files| ==>
         files[i].path == paths[i] == Name(prefix, i) && 1 <= |files[i].rows| <= p
  }

  predicate AllWithin(files: seq<Written>, writtenHeader: int, written: Row -> nat, maxSize: int) {
    forall i :: 0 <= i < |files| ==> Bytes(writtenHeader, written, files[i].rows) <= maxSize
  }

  lemma WrittenParts(n: nat, parts: seq<seq<Row>>, paths: seq<string>, files: seq<Written>, prefix: string, p: int)
    requires LeastEnough(|parts|, n, p) && Balanced(parts) && forall i :: 0 <= i < |parts| ==> 1 <= |parts[i]| <= p
    requires |paths| == |files| == |parts| && Contents(files) == parts
    requires forall i :: 0 <= i < |parts| ==> paths[i] == Name(prefix, i) && files[i] == Written(paths[i], parts[i])
    ensures AsFewAsFit(n, paths, files, prefix, p)
  {
  }

  /** Succeeds iff the columns exist and, unless nothing is selected, at least one row fits a file by the
      measured sizes. The files written are as few as that allows; they hold the selected rows, adjusted, in
      order, each at least one row and at most as many as fit, evenly split, and are within the limit when the biggest rows are; with nothing selected one
      path is reported and no file is written. `header` and `rowSize` are what the two temporary files
      measure, with the index column; `writtenHeader` and `written` are sizes in the output, without it. */
  method Handler(columns: set<string>, rows: seq<Row>, t: Trigger, filterCol: string, cols: seq<string>,
                 header: int, rowSize: int, writtenHeader: int, written: Row -> nat, maxSize: int,
                 sinkPath: string, iso: int -> string, file: nat)
    returns (r: Result<Output, Failure>)
    ensures var df, prefix := Frame(t, filterCol, cols, rows), PathPrefix(t, sinkPath, iso, file);
            && (r.Ok? <==>
                  && filterCol in columns && (forall c | c in cols :: c in columns)
                  && (df == [] || FitsOneRow(header, rowSize, maxSize)))
            && (r.Ok? ==> r.value.processed == |df| && Concat(Contents(r.value.files)) == df)
            && (r.Ok? && df == [] ==> r.value.paths == [Name(prefix, 0)] && r.value.files == [])
            && (r.Ok? && df != [] ==>
                  && AsFewAsFit(|df|, r.value.paths, r.value.files, prefix, FloorDiv(maxSize - header, rowSize))
                  && (BiggestFit(df, header, rowSize, writtenHeader, written, maxSize) ==>
                        AllWithin(r.value.files, writtenHeader, written, maxSize)))
  {
    if filterCol !in columns {
      return Err(MissingColumn);
    }
    var adjusted := AdjustColumns(columns, RowsIn(t, filterCol, rows), cols, t.offset);
    if adjusted.Err? {
      return Err(MissingColumn);
    }
    var df, prefix := adjusted.value, PathPrefix(t, sinkPath, iso, file);
    if |df| > 0 {
      var number := NumberOfFiles(|df|, header, rowSize, maxSize);
      if number.Err? {
        return Err(number.error);
      }
      if number.value <= 0 {
        FewParts(|df|, header, rowSize, maxSize);
        return Err(NotEnoughSections);
      }
      EnoughParts(df, header, rowSize, writtenHeader, written, maxSize);
      var parts := ArraySplit(df, number.value);
      var paths, files := WriteAll(parts, prefix);
      ContentsOfWritten(parts, files);
      WrittenParts(|df|, parts, paths, files, prefix, FloorDiv(maxSize - header, rowSize));
      r := Ok(Output(|df|, paths, files));
    } else {
      r := Ok(Output(0, [Name(prefix, 0)], []));
    }
  }

  lemma FewParts(n: nat, header: int, rowSize: int, maxSize: int)
    requires n > 0 && NumberOfFiles(n, header, rowSize, maxSize).Ok? && NumberOfFiles(n, header, rowSize, maxSize).value <= 0
    ensures !FitsOneRow(header, rowSize, maxSize)
  {
    var p := FloorDiv(maxSize - header, rowSize);
    if p > 0 {
      QuotientBounds(n, p);
    }
  }

  lemma EnoughParts(rows: seq<Row>, header: int, rowSize: int, writtenHeader: int, written: Row -> nat, maxSize: int)
    requires rows != [] && NumberOfFiles(|rows|, header, rowSize, maxSize).Ok?
    requires NumberOfFiles(|rows|, header, rowSize, maxSize).value > 0
    ensures FitsOneRow(header, rowSize, maxSize)
    ensures var parts := ArraySplit(rows, NumberOfFiles(|rows|, header, rowSize, maxSize).value);
            && Concat(parts) == rows && LeastEnough(|parts|, |rows|, FloorDiv(maxSize - header, rowSize)) && Balanced(parts)
            && (forall i :: 0 <= i < |parts| ==> 1 <= |parts[i]| <= FloorDiv(maxSize - header, rowSize))
            && (BiggestFit(rows, header, rowSize, writtenHeader, written, maxSize) ==>
                  forall i :: 0 <= i < |parts| ==> Bytes(writtenHeader, written, parts[i]) <= maxSize)
  {
    var p := FloorDiv(maxSize - header, rowSize);
    if p < 0 {
      NegativeSections(|rows|, p);
    }
    SplitIs(rows, p);
    if BiggestFit(rows, header, rowSize, writtenHeader, written, maxSize) {
      PartsWithinLimit(rows, writtenHeader, written, Biggest(rows, written), p, maxSize);
    }
  }
}
