/** The stream generator: the rows of uploaded CSV files are sent to Kinesis in batches. */
module Kinesis {
  import opened Basics

  const BATCH := 500

  type Row = string

  datatype File = File(key: string, rows: seq<Row>)

  /** `get_object`, `put_records` and `delete_object`. */
  datatype Call = Get(key: string) | Put(records: seq<Row>) | Delete(key: string)

  /** The batches of one file. */
  function Batches(rows: seq<Row>): seq<seq<Row>> {
    if rows == [] then [] else if |rows| <= BATCH then [rows] else [rows[..BATCH]] + Batches(rows[BATCH..])
  }

  function Puts(batches: seq<seq<Row>>): seq<Call> {
    Map(b => Put(b), batches)
  }

  function FilePlan(file: File): seq<Call> {
    [Get(file.key)] + Puts(Batches(file.rows)) + [Delete(file.key)]
  }

  /** All calls for the files of an event, in order. */
  function Plan(files: seq<File>): seq<Call> {
    if files == [] then [] else Plan(files[..|files| - 1]) + FilePlan(files[|files| - 1])
  }

  /** The first n calls: the call after them fails and ends the handler. */
  function UpTo(calls: seq<Call>, n: nat): seq<Call> {
    if |calls| <= n then calls else calls[..n]
  }

  /** The batches of a file in order are its rows; each has 1 to 500 records; there are ceil(n / 500). */
  lemma {:induction false} BatchesAre(rows: seq<Row>)
    ensures Concat(Batches(rows)) == rows
    ensures forall b | b in Batches(rows) :: 1 <= |b| <= 500
    ensures |Batches(rows)| == (|rows| + 499) / 500
    ensures forall i :: 0 <= i < |Batches(rows)| - 1 ==> |Batches(rows)[i]| == 500
  {
    if rows == [] {
    } else if |rows| <= BATCH {
      assert Concat([rows]) == rows + Concat<Row>([]);
    } else {
      BatchesAre(rows[BATCH..]);
      var rest := Batches(rows[BATCH..]);
      assert ([rows[..BATCH]] + rest)[1..] == rest;
      assert rows == rows[..BATCH] + rows[BATCH..];
    }
  }

  /** A full batch more. */
  lemma {:induction false} FullBatch(rows: seq<Row>, batch: seq<Row>)
    requires |rows| % BATCH == 0 && 0 < |batch| <= BATCH
    ensures Batches(rows + batch) == Batches(rows) + [batch]
  {
    if rows == [] {
      assert rows + batch == batch;
    } else if |rows| == BATCH {
      assert (rows + batch)[..BATCH] == rows && (rows + batch)[BATCH..] == batch;
    } else {
      assert |rows| > BATCH;
      assert (rows + batch)[..BATCH] == rows[..BATCH] && (rows + batch)[BATCH..] == rows[BATCH..] + batch;
      FullBatch(rows[BATCH..], batch);
    }
  }

  lemma {:induction false} PutsAppend(batches: seq<seq<Row>>, b: seq<Row>)
    ensures Puts(batches + [b]) == Puts(batches) + [Put(b)]
  {
  }

  /** Of the first i rows the first `sent` are sent, in full batches, and the others wait in `records`. */
  predicate Waiting(rows: seq<Row>, sent: nat, i: nat, records: seq<Row>) {
    sent <= i <= |rows| && records == rows[sent..i] && sent % BATCH == 0
  }

  /** A batch is full exactly when the row counter is a multiple of 500. */
  lemma FullWhen(sent: nat, i: nat)
    requires sent % BATCH == 0 && sent <= i < sent + BATCH
    ensures (i + 1) % BATCH == 0 <==> i + 1 == sent + BATCH
    ensures i % BATCH == 0 <==> i == sent
  {
    var q := sent / BATCH;
    assert sent == q * BATCH;
    assert i / BATCH == q;
    if i + 1 < sent + BATCH {
      assert (i + 1) / BATCH == q;
    } else {
      assert (i + 1) / BATCH == q + 1;
    }
  }

  lemma SendBatch(rows: seq<Row>, sent: nat, i: nat, records: seq<Row>)
    requires Waiting(rows, sent, i, records) && sent < i <= sent + BATCH
    ensures Puts(Batches(rows[..i])) == Puts(Batches(rows[..sent])) + [Put(records)]
  {
    FullBatch(rows[..sent], records);
    assert rows[..i] == rows[..sent] + records;
    PutsAppend(Batches(rows[..sent]), records);
  }

  lemma {:induction false} BatchesSoFar(rows: seq<Row>, i: nat)
    requires i <= |rows| && i % BATCH == 0
    ensures Batches(rows[..i]) <= Batches(rows)
  {
    if i > 0 && |rows| > BATCH {
      assert rows[..i][..BATCH] == rows[..BATCH] && rows[..i][BATCH..] == rows[BATCH..][..i - BATCH];
      BatchesSoFar(rows[BATCH..], i - BATCH);
      assert i == BATCH ==> Batches(rows[BATCH..][..0]) == [];
    } else if i > 0 {
      assert rows[..i] == rows;
    }
  }

  lemma PutsSoFar(a: seq<seq<Row>>, b: seq<seq<Row>>)
    requires a <= b
    ensures Puts(a) <= Puts(b)
  {
  }

  /** The handler makes the planned calls: every file's, then the next one's. When a call fails, the ones
      before it have been made and the handler fails. */
  method LambdaHandler(files: seq<File>, failsAfter: nat) returns (calls: seq<Call>, done: bool)
    ensures calls == UpTo(Plan(files), failsAfter)
    ensures done <==> |Plan(files)| <= failsAfter
  {
    calls, done := [], true;
    for f := 0 to |files|
      invariant calls == Plan(files[..f]) && |calls| <= failsAfter
    {
      Prefixes(files, f, f + 1);
      PlanSoFar(files, f + 1);
      var more;
      more, done := SendFile(files[f], failsAfter - |calls|);
      if !done {
        FailedFile(Plan(files), calls, FilePlan(files[f]), failsAfter);
        return calls + more, false;
      }
      calls := calls + more;
    }
    Prefixes(files, 0, |files|);
  }

  lemma {:induction false} PlanSoFar(files: seq<File>, f: nat)
    requires f <= |files|
    ensures Plan(files[..f]) <= Plan(files)
    decreases files
  {
    if f == |files| {
      Prefixes(files, f, f);
    } else {
      Prefixes(files, f, |files| - 1);
      PlanSoFar(files[..|files| - 1], f);
    }
  }

  lemma FailedFile(plan: seq<Call>, before: seq<Call>, file: seq<Call>, n: nat)
    requires before + file <= plan && |before| <= n < |before| + |file|
    ensures before + UpTo(file, n - |before|) == UpTo(plan, n)
  {
  }

  method SendFile(file: File, failsAfter: nat) returns (calls: seq<Call>, done: bool)
    ensures calls == UpTo(FilePlan(file), failsAfter)
    ensures done <==> |FilePlan(file)| <= failsAfter
  {
    if failsAfter == 0 {
      return [], false;
    }
    var puts, sent := SendRows(file.rows, failsAfter - 1);
    calls := [Get(file.key)] + puts;
    done := sent && |calls| < failsAfter;
    if done {
      calls := calls + [Delete(file.key)];
    }
  }

  /** The loop over the rows of one file. */
  method SendRows(rows: seq<Row>, failsAfter: nat) returns (calls: seq<Call>, done: bool)
    ensures calls == UpTo(Puts(Batches(rows)), failsAfter)
    ensures done <==> |Puts(Batches(rows))| <= failsAfter
  {
    calls := [];
    var records: seq<Row> := [];
    var i := 0;
    ghost var sent := 0;
    while i < |rows|
      invariant Waiting(rows, sent, i, records) && i < sent + BATCH
      invariant calls == Puts(Batches(rows[..sent])) && |calls| <= failsAfter
    {
      FullWhen(sent, i);
      records := records + [rows[i]];
      i := i + 1;
      if i % BATCH == 0 {
        SendBatch(rows, sent, i, records);
        if |calls| == failsAfter {
          BatchesSoFar(rows, i);
          PutsSoFar(Batches(rows[..i]), Batches(rows));
          return calls, false;
        }
        calls := calls + [Put(records)];
        records := [];
        sent := i;
      }
    }
    FullWhen(sent, i);
    Prefixes(rows, 0, |rows|);
    done := true;
    if i % BATCH != 0 {
      SendBatch(rows, sent, i, records);
      if |calls| == failsAfter {
        return calls, false;
      }
      calls := calls + [Put(records)];
    }
  }

  // ---------- When a call fails ----------

  lemma {:induction false} DeletesEndFiles(files: seq<File>, i: nat) returns (f: nat)
    requires i < |Plan(files)| && Plan(files)[i].Delete?
    ensures f < |files| && Plan(files)[..i + 1] == Plan(files[..f + 1]) && Plan(files)[i] == Delete(files[f].key)
    decreases files
  {
    var front, last := files[..|files| - 1], files[|files| - 1];
    BeforeOrLast(Plan(front), FilePlan(last), i);
    if i < |Plan(front)| {
      f := DeletesEndFiles(front, i);
      Prefixes(files, f + 1, |front|);
    } else {
      f := |files| - 1;
      Prefixes(files, |files|, |files|);
    }
  }

  lemma BeforeOrLast(before: seq<Call>, file: seq<Call>, i: nat)
    requires file != [] && forall j :: 0 <= j < |file| - 1 ==> !file[j].Delete?
    requires i < |before + file| && (before + file)[i].Delete?
    ensures if i < |before| then (before + file)[..i + 1] == before[..i + 1] && (before + file)[i] == before[i]
            else (before + file)[..i + 1] == before + file && (before + file)[i] == file[|file| - 1]
  {
    if i >= |before| {
      assert (before + file)[i] == file[i - |before|];
    }
  }

  /** Wherever a call fails: a file has been deleted only when it and all files before it were read, sent in
      full and deleted, in order, and nothing else was done before. */
  lemma DeletedOnlyWhenSent(files: seq<File>, failsAfter: nat, i: nat)
    requires var calls := UpTo(Plan(files), failsAfter); i < |calls| && calls[i].Delete?
    ensures var calls := UpTo(Plan(files), failsAfter);
            exists f :: 0 <= f < |files| && calls[i] == Delete(files[f].key)
                        && calls[..i + 1] == Plan(files[..f]) + FilePlan(files[f])
  {
    var f := DeletesEndFiles(files, i);
    Prefixes(files, f, f + 1);
    assert UpTo(Plan(files), failsAfter)[..i + 1] == Plan(files)[..i + 1];
  }

  /** The records put by these calls, in order. */
  function Sent(calls: seq<Call>): seq<Row> {
    if calls == [] then [] else (if calls[0].Put? then calls[0].records else []) + Sent(calls[1..])
  }

  function AllRows(files: seq<File>): seq<Row> {
    if files == [] then [] else AllRows(files[..|files| - 1]) + files[|files| - 1].rows
  }

  lemma {:induction false} SentConcat(a: seq<Call>, b: seq<Call>)
    ensures Sent(a + b) == Sent(a) + Sent(b)
  {
    TailOfConcat(a, b);
    if a != [] {
      SentConcat(a[1..], b);
    }
  }

  lemma {:induction false} SentPuts(batches: seq<seq<Row>>)
    ensures Sent(Puts(batches)) == Concat(batches)
  {
    if batches != [] {
      SentPuts(batches[1..]);
      assert Puts(batches)[1..] == Puts(batches[1..]);
    }
  }

  lemma SentFile(file: File)
    ensures Sent(FilePlan(file)) == file.rows
  {
    var first, puts, last := [Get(file.key)], Puts(Batches(file.rows)), [Delete(file.key)];
    BatchesAre(file.rows);
    SentPuts(Batches(file.rows));
    SentConcat(first, puts);
    SentConcat(first + puts, last);
    assert first[1..] == [] && last[1..] == [];
  }

  lemma {:induction false} SentPlan(files: seq<File>)
    ensures Sent(Plan(files)) == AllRows(files)
  {
    if files != [] {
      var front, last := files[..|files| - 1], files[|files| - 1];
      SentPlan(front);
      SentFile(last);
      SentConcat(Plan(front), FilePlan(last));
    }
  }

  /** Wherever a call fails: the records sent are a beginning of the rows of all files in order, and all of
      them when no call fails. */
  lemma SentIsBeginning(files: seq<File>, failsAfter: nat)
    ensures Sent(UpTo(Plan(files), failsAfter)) <= AllRows(files)
    ensures failsAfter >= |Plan(files)| ==> Sent(UpTo(Plan(files), failsAfter)) == AllRows(files)
  {
    SentPlan(files);
    var plan := Plan(files);
    if failsAfter < |plan| {
      assert plan == plan[..failsAfter] + plan[failsAfter..];
      SentConcat(plan[..failsAfter], plan[failsAfter..]);
    }
  }

  /** A file is read first and deleted last, and in between its rows are sent, 1 to 500 in one call. */
  lemma FilePlanIs(file: File)
    ensures var calls := FilePlan(file);
            && |calls| >= 2 && calls[0] == Get(file.key) && calls[|calls| - 1] == Delete(file.key)
            && (forall i :: 0 < i < |calls| - 1 ==> calls[i].Put? && 1 <= |calls[i].records| <= 500)
            && Sent(calls) == file.rows && |calls| == 2 + (|file.rows| + 499) / 500
  {
    BatchesAre(file.rows);
    SentFile(file);
    var batches := Batches(file.rows);
    forall i | 0 < i < |FilePlan(file)| - 1
      ensures FilePlan(file)[i].Put? && 1 <= |FilePlan(file)[i].records| <= 500
    {
      assert FilePlan(file)[i] == Puts(batches)[i - 1] == Put(batches[i - 1]);
      assert batches[i - 1] in batches;
    }
  }

  function Keys(files: seq<File>): seq<string> {
    Map((file: File) => file.key, files)
  }

  function Fetched(calls: seq<Call>): seq<string> {
    if calls == [] then [] else (if calls[0].Get? then [calls[0].key] else []) + Fetched(calls[1..])
  }

  function Deleted(calls: seq<Call>): seq<string> {
    if calls == [] then [] else (if calls[0].Delete? then [calls[0].key] else []) + Deleted(calls[1..])
  }

  lemma {:induction false} KeysConcat(a: seq<Call>, b: seq<Call>)
    ensures Fetched(a + b) == Fetched(a) + Fetched(b) && Deleted(a + b) == Deleted(a) + Deleted(b)
  {
    TailOfConcat(a, b);
    if a != [] {
      KeysConcat(a[1..], b);
    }
  }

  lemma {:induction false} PutsHaveNoKeys(calls: seq<Call>)
    requires forall i :: 0 <= i < |calls| ==> calls[i].Put?
    ensures Fetched(calls) == [] && Deleted(calls) == []
  {
    if calls != [] {
      PutsHaveNoKeys(calls[1..]);
    }
  }

  lemma KeysOfFile(file: File)
    ensures Fetched(FilePlan(file)) == [file.key] && Deleted(FilePlan(file)) == [file.key]
  {
    var first, puts, last := [Get(file.key)], Puts(Batches(file.rows)), [Delete(file.key)];
    KeysConcat(first + puts, last);
    KeysConcat(first, puts);
    PutsHaveNoKeys(puts);
    assert first[1..] == [] && last[1..] == [];
  }

  lemma {:induction false} KeysOfPlan(files: seq<File>)
    ensures Fetched(Plan(files)) == Keys(files) && Deleted(Plan(files)) == Keys(files)
  {
    if files != [] {
      var front, last := files[..|files| - 1], files[|files| - 1];
      KeysOfPlan(front);
      KeysOfFile(last);
      KeysConcat(Plan(front), FilePlan(last));
      assert Keys(files) == Keys(front) + [last.key];
    }
  }

  /** Wherever a call fails: the files fetched, and the files deleted, are a beginning of the files of the event
      in order; when none fails they are all of them. */
  lemma EveryFileIsDeleted(files: seq<File>, failsAfter: nat)
    ensures var calls := UpTo(Plan(files), failsAfter);
            && Fetched(calls) <= Keys(files) && Deleted(calls) <= Keys(files)
            && (failsAfter >= |Plan(files)| ==> Fetched(calls) == Keys(files) && Deleted(calls) == Keys(files))
  {
    KeysOfPlan(files);
    var plan := Plan(files);
    if failsAfter < |plan| {
      assert plan == plan[..failsAfter] + plan[failsAfter..];
      KeysConcat(plan[..failsAfter], plan[failsAfter..]);
    }
  }
}
