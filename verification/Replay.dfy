/** The two filtering stages of the batch replayer: files by their start in the manifest, then rows by their time. */
module Replay {
  import opened Basics
  import opened Windows

  /** A row with its datetime columns, in microseconds. A missing datetime is not in `times`. */
  datatype Row = Row(times: map<string, int>, details: string)

  /** A line of the manifest with the rows of the file it names. */
  datatype DataFile = DataFile(start: int, path: string, rows: seq<Row>)

  datatype Trigger = Trigger(minute: int, offset: int, frequency: nat)

  predicate Selects(t: Trigger, time: int) {
    InWindow(t.minute, t.offset, t.frequency, time)
  }

  /** `filter_rows_by_datetime`; a missing datetime is never between two others. */
  predicate RowIn(t: Trigger, col: string, r: Row) {
    col in r.times && Selects(t, r.times[col])
  }

  function RowsIn(t: Trigger, col: string, rows: seq<Row>): seq<Row> {
    Filter(r => RowIn(t, col, r), rows)
  }

  // ---------- The manifest ----------

  predicate Sorted(files: seq<DataFile>) {
    forall i, j :: 0 <= i < j < |files| ==> files[i].start <= files[j].start
  }

  function Insert(d: DataFile, files: seq<DataFile>): (r: seq<DataFile>)
    requires Sorted(files)
    ensures multiset(r) == multiset{d} + multiset(files)
  {
    if files == [] || d.start <= files[0].start then [d] + files else
      assert files == [files[0]] + files[1..];
      [files[0]] + Insert(d, files[1..])
  }

  lemma {:induction false} InsertSorted(d: DataFile, files: seq<DataFile>)
    requires Sorted(files)
    ensures Sorted(Insert(d, files))
  {
    if files != [] && d.start > files[0].start {
      var rest := Insert(d, files[1..]);
      InsertSorted(d, files[1..]);
      forall i | 0 <= i < |rest| ensures files[0].start <= rest[i].start {
        assert rest[i] in multiset(rest);
      }
    }
  }

  function SortByStart(files: seq<DataFile>): (r: seq<DataFile>)
    ensures Sorted(r) && multiset(r) == multiset(files)
  {
    if files == [] then [] else
      assert files == [files[0]] + files[1..];
      InsertSorted(files[0], SortByStart(files[1..]));
      Insert(files[0], SortByStart(files[1..]))
  }

  /** `retrieve_df_manifest`: the files that start in the window, by start. */
  function SelectFiles(t: Trigger, manifest: seq<DataFile>): (r: seq<DataFile>)
    ensures Sorted(r) && forall d :: d in r <==> d in manifest && Selects(t, d.start)
  {
    var chosen := Filter((d: DataFile) => Selects(t, d.start), manifest);
    assert forall d :: d in SortByStart(chosen) <==> d in multiset(chosen);
    SortByStart(chosen)
  }

  /** The map step: every selected file is read and its rows are filtered. */
  function ReplayFiles(t: Trigger, col: string, files: seq<DataFile>): seq<Row> {
    if files == [] then [] else RowsIn(t, col, files[0].rows) + ReplayFiles(t, col, files[1..])
  }

  /** The rows that one trigger replays. */
  function OneTrigger(t: Trigger, col: string, manifest: seq<DataFile>): seq<Row> {
    ReplayFiles(t, col, SelectFiles(t, manifest))
  }

  /** The rows that a series of triggers replays. */
  function AllTriggers(ts: seq<Trigger>, col: string, manifest: seq<DataFile>): seq<Row> {
    if ts == [] then [] else OneTrigger(ts[0], col, manifest) + AllTriggers(ts[1..], col, manifest)
  }

  // ---------- The dataset as a whole ----------

  type Choice = (DataFile, Row) -> bool

  /** The rows of the whole dataset for which p holds of the file and the row. */
  function Pick(p: Choice, manifest: seq<DataFile>): seq<Row> {
    if manifest == [] then [] else Filter(r => p(manifest[0], r), manifest[0].rows) + Pick(p, manifest[1..])
  }

  ghost function Aligned(ts: seq<Trigger>, col: string): Choice {
    (d: DataFile, r: Row) => exists t | t in ts :: Selects(t, d.start) && RowIn(t, col, r)
  }

  ghost function InAnyWindow(ts: seq<Trigger>, col: string): Choice {
    (d: DataFile, r: Row) => exists t | t in ts :: RowIn(t, col, r)
  }

  lemma {:induction false} FilterSplit(p: Row -> bool, q: Row -> bool, pq: Row -> bool, rows: seq<Row>)
    requires forall r | r in rows :: (pq(r) <==> p(r) || q(r)) && !(p(r) && q(r))
    ensures multiset(Filter(pq, rows)) == multiset(Filter(p, rows)) + multiset(Filter(q, rows))
  {
    if rows != [] {
      FilterSplit(p, q, pq, rows[1..]);
    }
  }

  lemma {:induction false} PickSplit(p: Choice, q: Choice, pq: Choice, manifest: seq<DataFile>)
    requires forall d, r | d in manifest && r in d.rows :: (pq(d, r) <==> p(d, r) || q(d, r)) && !(p(d, r) && q(d, r))
    ensures multiset(Pick(pq, manifest)) == multiset(Pick(p, manifest)) + multiset(Pick(q, manifest))
  {
    if manifest != [] {
      var d := manifest[0];
      FilterSplit(r => p(d, r), r => q(d, r), r => pq(d, r), d.rows);
      PickSplit(p, q, pq, manifest[1..]);
    }
  }

  lemma {:induction false} FilterSame(p: Row -> bool, q: Row -> bool, rows: seq<Row>)
    requires forall r | r in rows :: p(r) <==> q(r)
    ensures Filter(p, rows) == Filter(q, rows)
  {
    if rows != [] {
      FilterSame(p, q, rows[1..]);
    }
  }

  lemma {:induction false} FilterNone(p: Row -> bool, rows: seq<Row>)
    requires forall r | r in rows :: !p(r)
    ensures Filter(p, rows) == []
  {
    if rows != [] {
      FilterNone(p, rows[1..]);
    }
  }

  lemma {:induction false} PickNone(p: Choice, manifest: seq<DataFile>)
    requires forall d, r | d in manifest && r in d.rows :: !p(d, r)
    ensures Pick(p, manifest) == []
  {
    if manifest != [] {
      FilterNone(r => p(manifest[0], r), manifest[0].rows);
      PickNone(p, manifest[1..]);
    }
  }

  lemma {:induction false} ReplaySame(t: Trigger, col: string, a: seq<DataFile>, b: seq<DataFile>)
    requires multiset(a) == multiset(b)
    ensures multiset(ReplayFiles(t, col, a)) == multiset(ReplayFiles(t, col, b))
  {
    if a == [] {
      SameSize(a, b);
    } else {
      var i := WithoutSame(a, b);
      ReplayWithout(t, col, b, i);
      ReplaySame(t, col, a[1..], Without(b, i));
    }
  }

  lemma {:induction false} ReplayConcat(t: Trigger, col: string, a: seq<DataFile>, b: seq<DataFile>)
    ensures ReplayFiles(t, col, a + b) == ReplayFiles(t, col, a) + ReplayFiles(t, col, b)
  {
    TailOfConcat(a, b);
    if a != [] {
      ReplayConcat(t, col, a[1..], b);
    }
  }

  lemma ReplayWithout(t: Trigger, col: string, files: seq<DataFile>, i: nat)
    requires i < |files|
    ensures multiset(ReplayFiles(t, col, files))
         == multiset(RowsIn(t, col, files[i].rows)) + multiset(ReplayFiles(t, col, Without(files, i)))
  {
    var front, back := files[..i], files[i + 1..];
    assert files == front + ([files[i]] + back);
    ReplayConcat(t, col, front, [files[i]] + back);
    ReplayConcat(t, col, front, back);
    assert ([files[i]] + back)[1..] == back;
  }

  function Through(t: Trigger, col: string): Choice {
    (d: DataFile, r: Row) => Selects(t, d.start) && RowIn(t, col, r)
  }

  lemma {:induction false} ReplayChosen(t: Trigger, col: string, manifest: seq<DataFile>)
    ensures ReplayFiles(t, col, Filter((d: DataFile) => Selects(t, d.start), manifest))
         == Pick(Through(t, col), manifest)
  {
    if manifest != [] {
      ReplayChosen(t, col, manifest[1..]);
      var d := manifest[0];
      var p := Through(t, col);
      var chosen := Filter((e: DataFile) => Selects(t, e.start), manifest);
      if Selects(t, d.start) {
        FilterSame(r => RowIn(t, col, r), r => p(d, r), d.rows);
        assert chosen[1..] == Filter((e: DataFile) => Selects(t, e.start), manifest[1..]);
      } else {
        FilterNone(r => p(d, r), d.rows);
        assert chosen == Filter((e: DataFile) => Selects(t, e.start), manifest[1..]);
      }
    }
  }

  /** One trigger replays exactly the rows that are in its window and in a file that starts in its window. */
  lemma OneTriggerReplays(t: Trigger, col: string, manifest: seq<DataFile>)
    ensures multiset(OneTrigger(t, col, manifest)) == multiset(Pick(Aligned([t], col), manifest))
  {
    var chosen := Filter((d: DataFile) => Selects(t, d.start), manifest);
    ReplaySame(t, col, SelectFiles(t, manifest), chosen);
    ReplayChosen(t, col, manifest);
    PickSame(Through(t, col), Aligned([t], col), manifest);
  }

  lemma {:induction false} PickSame(p: Choice, q: Choice, manifest: seq<DataFile>)
    requires forall d, r | d in manifest && r in d.rows :: p(d, r) <==> q(d, r)
    ensures Pick(p, manifest) == Pick(q, manifest)
  {
    if manifest != [] {
      FilterSame(r => p(manifest[0], r), r => q(manifest[0], r), manifest[0].rows);
      PickSame(p, q, manifest[1..]);
    }
  }

  /** No instant is selected by two of the triggers. */
  ghost predicate Separate(ts: seq<Trigger>) {
    forall i, j, time :: 0 <= i < j < |ts| ==> !(Selects(ts[i], time) && Selects(ts[j], time))
  }

  /** Over any series of triggers with disjoint windows, the rows replayed are, as a multiset, the rows of
      the dataset that lie in one of the windows together with the start of their file. */
  lemma {:induction false} ReplaysTheAlignedRows(ts: seq<Trigger>, col: string, manifest: seq<DataFile>)
    requires Separate(ts)
    ensures multiset(AllTriggers(ts, col, manifest)) == multiset(Pick(Aligned(ts, col), manifest))
  {
    if ts == [] {
      PickNone(Aligned(ts, col), manifest);
    } else {
      OneTriggerReplays(ts[0], col, manifest);
      ReplaysTheAlignedRows(ts[1..], col, manifest);
      forall d: DataFile, r: Row
        ensures Aligned(ts, col)(d, r) <==> Aligned([ts[0]], col)(d, r) || Aligned(ts[1..], col)(d, r)
        ensures !(Aligned([ts[0]], col)(d, r) && Aligned(ts[1..], col)(d, r))
      {
        assert ts == [ts[0]] + ts[1..];
      }
      PickSplit(Aligned([ts[0]], col), Aligned(ts[1..], col), Aligned(ts, col), manifest);
    }
  }

  ghost function Everything(): Choice { (d: DataFile, r: Row) => true }

  lemma PickLess(p: Choice, q: Choice, manifest: seq<DataFile>)
    requires forall d, r | d in manifest && r in d.rows :: p(d, r) ==> q(d, r)
    ensures multiset(Pick(p, manifest)) <= multiset(Pick(q, manifest))
    ensures multiset(Pick(p, manifest)) == multiset(Pick(q, manifest)) <==>
            forall d, r | d in manifest && r in d.rows :: q(d, r) ==> p(d, r)
  {
    var rest := (d: DataFile, r: Row) => q(d, r) && !p(d, r);
    PickSplit(p, rest, q, manifest);
    if forall d, r | d in manifest && r in d.rows :: q(d, r) ==> p(d, r) {
      PickNone(rest, manifest);
    } else {
      var d, r :| d in manifest && r in d.rows && rest(d, r);
      PickHas(rest, manifest, d, r);
      assert multiset(Pick(rest, manifest))[r] > 0;
    }
  }

  lemma {:induction false} PickHas(p: Choice, manifest: seq<DataFile>, d: DataFile, r: Row)
    requires d in manifest && r in d.rows && p(d, r)
    ensures r in Pick(p, manifest)
  {
    if d == manifest[0] {
      assert r in Filter(x => p(d, x), d.rows);
    } else {
      PickHas(p, manifest[1..], d, r);
    }
  }

  /** No row is replayed twice, whatever the manifest says. */
  lemma {:induction false} NoRowTwice(ts: seq<Trigger>, col: string, manifest: seq<DataFile>)
    requires Separate(ts)
    ensures multiset(AllTriggers(ts, col, manifest)) <= multiset(Pick(Everything(), manifest))
  {
    ReplaysTheAlignedRows(ts, col, manifest);
    PickLess(Aligned(ts, col), Everything(), manifest);
  }

  /** The triggers replay all rows of the dataset that lie in their windows iff every such row lies in the
      same window as the start of its file. */
  lemma CompleteIff(ts: seq<Trigger>, col: string, manifest: seq<DataFile>)
    requires Separate(ts)
    ensures multiset(AllTriggers(ts, col, manifest)) == multiset(Pick(InAnyWindow(ts, col), manifest))
       <==> forall d, r, t | d in manifest && r in d.rows && t in ts :: RowIn(t, col, r) ==> Selects(t, d.start)
  {
    ReplaysTheAlignedRows(ts, col, manifest);
    PickLess(Aligned(ts, col), InAnyWindow(ts, col), manifest);
    forall d, r, t | d in manifest && r in d.rows && t in ts && RowIn(t, col, r)
      ensures Aligned(ts, col)(d, r) <==> Selects(t, d.start)
    {
      OnlyOneWindow(ts, t, col, d, r);
    }
    forall d, r | d in manifest && r in d.rows
      ensures (InAnyWindow(ts, col)(d, r) ==> Aligned(ts, col)(d, r))
         <==> forall t | t in ts :: RowIn(t, col, r) ==> Selects(t, d.start)
    {
    }
  }

  lemma OnlyOneWindow(ts: seq<Trigger>, t: Trigger, col: string, d: DataFile, r: Row)
    requires Separate(ts) && t in ts && RowIn(t, col, r)
    ensures Aligned(ts, col)(d, r) <==> Selects(t, d.start)
  {
  }

  /** The scheduled triggers of one replayer are separate when its cron step divides the hour. */
  lemma ScheduledAreSeparate(f: nat, offset: int, ts: seq<Trigger>)
    requires f > 0 && 60 % Step(f) == 0
    requires forall i :: 0 <= i < |ts| ==> ts[i].offset == offset && ts[i].frequency == f && Fires(Step(f), ts[i].minute)
    requires forall i, j :: 0 <= i < j < |ts| ==> ts[i].minute < ts[j].minute
    ensures Separate(ts)
  {
    DisjointIff(f, offset);
  }

  // ---------- A stretch of the schedule ----------

  /** ts are all the firings of one replayer from the first of them to the last. */
  ghost predicate Consecutive(f: nat, offset: int, ts: seq<Trigger>)
    requires f > 0
  {
    && ts != []
    && (forall i :: 0 <= i < |ts| ==> ts[i].offset == offset && ts[i].frequency == f && Fires(Step(f), ts[i].minute))
    && (forall i, j :: 0 <= i < j < |ts| ==> ts[i].minute < ts[j].minute)
    && forall p :: Fires(Step(f), p) && ts[0].minute <= p <= ts[|ts| - 1].minute ==> Trigger(p, offset, f) in ts
  }

  /** The time that ts covers: from the start of the first window to the end of the last. */
  predicate During(ts: seq<Trigger>, time: int)
    requires ts != []
  {
    var first, last := ts[0], ts[|ts| - 1];
    Start(first.minute, first.offset) <= time < End(last.minute, last.offset, last.frequency)
  }

  /** The row and the start of its file are in the window of one firing. */
  ghost predicate InOneWindow(f: nat, offset: int, col: string, d: DataFile, r: Row)
    requires f > 0
  {
    exists p :: Fires(Step(f), p) && Selects(Trigger(p, offset, f), d.start) && RowIn(Trigger(p, offset, f), col, r)
  }

  ghost function AlignedDuring(f: nat, offset: int, col: string, ts: seq<Trigger>): Choice
    requires f > 0 && ts != []
  {
    (d: DataFile, r: Row) => col in r.times && During(ts, r.times[col]) && InOneWindow(f, offset, col, d, r)
  }

  ghost function AllDuring(col: string, ts: seq<Trigger>): Choice
    requires ts != []
  {
    (d: DataFile, r: Row) => col in r.times && During(ts, r.times[col])
  }

  lemma WindowsInOrder(f: nat, offset: int, p: int, q: int)
    requires f > 0 && 60 % Step(f) == 0 && Fires(Step(f), p) && Fires(Step(f), q) && p < q
    ensures End(p, offset, f) <= Start(q, offset)
  {
    FiringsApart(Step(f), p, q);
    StepBounds(f);
  }

  /** A firing with a window that reaches into the stretch is one of the stretch. */
  lemma FiringIsListed(f: nat, offset: int, ts: seq<Trigger>, p: int, time: int)
    requires f > 0 && 60 % Step(f) == 0 && Consecutive(f, offset, ts)
    requires Fires(Step(f), p) && InWindow(p, offset, f, time) && During(ts, time)
    ensures Trigger(p, offset, f) in ts
  {
    var first, last := ts[0].minute, ts[|ts| - 1].minute;
    if p < first {
      WindowsInOrder(f, offset, p, first);
    } else if last < p {
      WindowsInOrder(f, offset, last, p);
    }
  }

  lemma ListedIsDuring(f: nat, offset: int, ts: seq<Trigger>, t: Trigger, time: int)
    requires f > 0 && Consecutive(f, offset, ts) && t in ts && Selects(t, time)
    ensures During(ts, time) && Fires(Step(f), t.minute) && t == Trigger(t.minute, offset, f)
  {
    var i :| 0 <= i < |ts| && ts[i] == t;
    assert ts[0].minute <= t.minute <= ts[|ts| - 1].minute;
  }

  lemma AlignedIsDuring(f: nat, offset: int, ts: seq<Trigger>, col: string, d: DataFile, r: Row)
    requires f > 0 && 60 % Step(f) == 0 && Consecutive(f, offset, ts)
    ensures Aligned(ts, col)(d, r) <==> AlignedDuring(f, offset, col, ts)(d, r)
  {
    if Aligned(ts, col)(d, r) {
      var t :| t in ts && Selects(t, d.start) && RowIn(t, col, r);
      ListedIsDuring(f, offset, ts, t, r.times[col]);
    }
    if AlignedDuring(f, offset, col, ts)(d, r) {
      var p :| Fires(Step(f), p) && Selects(Trigger(p, offset, f), d.start) && RowIn(Trigger(p, offset, f), col, r);
      FiringIsListed(f, offset, ts, p, r.times[col]);
    }
  }

  /** Consecutive firings, when the cron step divides the hour, replay exactly once every row whose time lies
      from the start of the first window to the end of the last, in the same window as the start of its file. */
  lemma ConsecutiveReplay(f: nat, offset: int, ts: seq<Trigger>, col: string, manifest: seq<DataFile>)
    requires f > 0 && 60 % Step(f) == 0 && Consecutive(f, offset, ts)
    ensures multiset(AllTriggers(ts, col, manifest)) == multiset(Pick(AlignedDuring(f, offset, col, ts), manifest))
  {
    ScheduledAreSeparate(f, offset, ts);
    ReplaysTheAlignedRows(ts, col, manifest);
    forall d, r | d in manifest && r in d.rows
      ensures Aligned(ts, col)(d, r) <==> AlignedDuring(f, offset, col, ts)(d, r)
    {
      AlignedIsDuring(f, offset, ts, col, d, r);
    }
    PickSame(Aligned(ts, col), AlignedDuring(f, offset, col, ts), manifest);
  }

  /** The row is in the same window as the start of its file, whichever window that is. */
  ghost predicate FollowsItsFile(f: nat, offset: int, col: string, d: DataFile, r: Row)
    requires f > 0
  {
    forall p :: Fires(Step(f), p) && RowIn(Trigger(p, offset, f), col, r) ==> Selects(Trigger(p, offset, f), d.start)
  }

  lemma AllAligned(f: nat, offset: int, ts: seq<Trigger>, col: string, d: DataFile, r: Row)
    requires f > 0 && f % 60 == 0 && 60 % Step(f) == 0 && ts != []
    requires AllDuring(col, ts)(d, r)
    ensures AlignedDuring(f, offset, col, ts)(d, r) <==> FollowsItsFile(f, offset, col, d, r)
  {
    PartitionIff(f, offset);
    assert ExactlyOne(f, offset, r.times[col]);
    var p :| Fires(Step(f), p) && InWindow(p, offset, f, r.times[col]);
    assert RowIn(Trigger(p, offset, f), col, r);
  }

  /** When moreover the frequency is whole minutes: the firings replay exactly once every row of the dataset
      with a time from the start of the first window to the end of the last, iff each of these rows lies in
      the same window as the start of its file. */
  lemma ConsecutiveReplayAllIff(f: nat, offset: int, ts: seq<Trigger>, col: string, manifest: seq<DataFile>)
    requires f > 0 && f % 60 == 0 && 60 % Step(f) == 0 && Consecutive(f, offset, ts)
    ensures multiset(AllTriggers(ts, col, manifest)) == multiset(Pick(AllDuring(col, ts), manifest))
       <==> forall d, r | d in manifest && r in d.rows && AllDuring(col, ts)(d, r) :: FollowsItsFile(f, offset, col, d, r)
  {
    ConsecutiveReplay(f, offset, ts, col, manifest);
    PickLess(AlignedDuring(f, offset, col, ts), AllDuring(col, ts), manifest);
    forall d, r | d in manifest && r in d.rows && AllDuring(col, ts)(d, r)
      ensures AlignedDuring(f, offset, col, ts)(d, r) <==> FollowsItsFile(f, offset, col, d, r)
    {
      AllAligned(f, offset, ts, col, d, r);
    }
  }
}
