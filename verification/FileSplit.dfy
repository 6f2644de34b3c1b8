/** The write step of the batch replayer: how many files, which rows in each, and their names. */
module FileSplit {
  import opened Basics
  import opened Replay
  import opened Decimal

  datatype Failure = DivisionByZero | NotEnoughSections | MissingColumn

  // ---------- How many files ----------

  /** Floor and ceiling of a quotient, as `math.floor(a / b)` and `math.ceil(a / b)`. */
  function FloorDiv(a: int, b: int): int
    requires b != 0
  {
    if b > 0 then a / b else (-a) / (-b)
  }

  function CeilDiv(a: int, b: int): int
    requires b != 0
  {
    -FloorDiv(-a, b)
  }

  /** For either sign of the divisor: the whole number next to the quotient, not above it. */
  lemma FloorDivIs(a: int, b: int)
    requires b != 0
    ensures b > 0 ==> FloorDiv(a, b) * b <= a < (FloorDiv(a, b) + 1) * b
    ensures b < 0 ==> FloorDiv(a, b) * b >= a > (FloorDiv(a, b) + 1) * b
  {
    var (n, d) := if b > 0 then (a, b) else (-a, -b);
    var q := n / d;
    assert n == q * d + n % d;
    assert (q + 1) * d == q * d + d;
    if b < 0 {
      assert q * b == -(q * d) && (q + 1) * b == -((q + 1) * d);
    }
  }

  /** k parts of at most p rows are enough for n rows, and fewer are not. */
  predicate LeastEnough(k: int, n: int, p: int) {
    (k - 1) * p < n <= k * p
  }

  /** `calculate_no_of_files` for n rows, given the two measured sizes. */
  function NumberOfFiles(n: nat, header: int, rowSize: int, maxSize: int): Result<int, Failure> {
    if rowSize == 0 then Err(DivisionByZero) else
    var rowsPerFile := FloorDiv(maxSize - header, rowSize);
    if rowsPerFile == 0 then Err(DivisionByZero) else Ok(CeilDiv(n, rowsPerFile))
  }

  // ---------- np.array_split ----------

  /** The length of the i-th of k nearly equal parts of n rows. */
  function PartSize(n: nat, k: nat, i: nat): nat
    requires k > 0
  {
    n / k + if i < n % k then 1 else 0
  }

  /** `np.array_split(df, k)`, the last j of the k parts from the rows that are left. */
  function Parts<T>(rows: seq<T>, n: nat, k: nat, j: nat): seq<seq<T>>
    requires 0 < k && j <= k
    requires |rows| == Rest(n, k, j)
    decreases j
  {
    if j == 0 then [] else
      RestStep(n, k, j);
      var size := PartSize(n, k, k - j);
      [rows[..size]] + Parts(rows[size..], n, k, j - 1)
  }

  /** The number of rows in the last j parts. */
  function Rest(n: nat, k: nat, j: nat): nat
    requires 0 < k && j <= k
  {
    j * (n / k) + if n % k > k - j then n % k - (k - j) else 0
  }

  lemma RestStep(n: nat, k: nat, j: nat)
    requires 0 < j <= k
    ensures Rest(n, k, j) == PartSize(n, k, k - j) + Rest(n, k, j - 1)
  {
    assert j * (n / k) == (j - 1) * (n / k) + n / k;
  }

  lemma RestAll(n: nat, k: nat)
    requires k > 0
    ensures Rest(n, k, k) == n
  {
    assert k * (n / k) + n % k == n;
  }

  function ArraySplit<T>(rows: seq<T>, k: nat): seq<seq<T>>
    requires k > 0
  {
    RestAll(|rows|, k);
    Parts(rows, |rows|, k, k)
  }

  lemma {:induction false} PartsAre<T>(rows: seq<T>, n: nat, k: nat, j: nat)
    requires 0 < k && j <= k && |rows| == Rest(n, k, j)
    ensures |Parts(rows, n, k, j)| == j
    ensures Concat(Parts(rows, n, k, j)) == rows
    ensures forall i :: 0 <= i < j ==> |Parts(rows, n, k, j)[i]| == PartSize(n, k, k - j + i)
    decreases j
  {
    if j > 0 {
      RestStep(n, k, j);
      var size := PartSize(n, k, k - j);
      PartsAre(rows[size..], n, k, j - 1);
      var tail := Parts(rows[size..], n, k, j - 1);
      assert ([rows[..size]] + tail)[1..] == tail;
      assert rows == rows[..size] + rows[size..];
      forall i | 0 <= i < j ensures |([rows[..size]] + tail)[i]| == PartSize(n, k, k - j + i) {
        if i > 0 {
          assert |tail[i - 1]| == PartSize(n, k, k - (j - 1) + (i - 1));
        }
      }
    }
  }

  /** No part is longer than one before it, or shorter by more than one. */
  predicate Balanced<T>(parts: seq<seq<T>>) {
    forall i, j :: 0 <= i <= j < |parts| ==> |parts[j]| <= |parts[i]| <= |parts[j]| + 1
  }

  lemma SplitBalanced<T>(rows: seq<T>, k: nat)
    requires k > 0
    ensures Balanced(ArraySplit(rows, k))
  {
    RestAll(|rows|, k);
    PartsAre(rows, |rows|, k, k);
  }

  lemma MulMono(a: int, b: int, k: nat)
    requires a <= b
    ensures a * k <= b * k
  {
    assert (b - a) * k >= 0;
    assert b * k == a * k + (b - a) * k;
  }

  lemma CeilBounds(n: nat, p: nat)
    requires p > 0
    ensures (CeilDiv(n, p) - 1) * p < n <= CeilDiv(n, p) * p
  {
    var m: int := n;
    var q := (-m) / p;
    assert -m == q * p + (-m) % p && CeilDiv(n, p) == -q;
    assert (-q) * p == -(q * p) && (-q - 1) * p == -(q * p) - p;
  }

  lemma QuotientBounds(n: nat, p: nat)
    requires n > 0 && p > 0
    ensures var k := CeilDiv(n, p); 1 <= k <= n && k * p >= n
  {
    var k := CeilDiv(n, p);
    CeilBounds(n, p);
    if k <= 0 {
      MulMono(k, 0, p);
    } else if k > n {
      MulMono(n, k - 1, p);
      MulMono(1, p, n);
    }
  }

  lemma PartBounds(n: nat, k: nat, p: nat, i: nat)
    requires 1 <= k <= n && k * p >= n && i < k
    ensures 1 <= PartSize(n, k, i) <= p
  {
    var q, r := n / k, n % k;
    assert n == q * k + r;
    if q < 1 {
      MulMono(q, 0, k);
    }
    if q > p {
      MulMono(p + 1, q, k);
    } else if q == p {
      assert q * k == k * p;
    }
  }

  /** The size in bytes of a file written with these rows: no index column, unlike the files that are measured. */
  function Bytes(header: int, written: Row -> nat, rows: seq<Row>): int {
    if rows == [] then header else Bytes(header, written, rows[1..]) + written(rows[0])
  }

  lemma {:induction false} BytesBound(header: int, written: Row -> nat, rows: seq<Row>, biggest: int)
    requires AllAtMost(rows, written, biggest)
    ensures Bytes(header, written, rows) <= header + |rows| * biggest
  {
    if rows != [] {
      BytesBound(header, written, rows[1..], biggest);
      assert |rows| * biggest == (|rows| - 1) * biggest + biggest;
    }
  }

  predicate AllAtMost(rows: seq<Row>, written: Row -> nat, biggest: int) {
    forall r | r in rows :: written(r) <= biggest
  }

  function Biggest(rows: seq<Row>, written: Row -> nat): (n: nat)
    ensures AllAtMost(rows, written, n)
    ensures rows != [] ==> exists r | r in rows :: written(r) == n
  {
    if rows == [] then 0 else
      HeadTail(rows);
      var rest := Biggest(rows[1..], written);
      assert written(rows[0]) < rest ==> rows[1..] != [];
      if written(rows[0]) >= rest then written(rows[0]) else rest
  }

  lemma FloorFits(p: int, a: int, b: int, c: int)
    requires b > 0 && p == FloorDiv(a, b) && c <= p
    ensures c * b <= a
  {
    assert a == (a / b) * b + a % b;
    assert (p - c) * b >= 0;
    assert c * b == p * b - (p - c) * b;
  }

  /** A frame in as many parts as hold at most p rows: no part is empty, and together they are the frame. */
  lemma SplitIs<T>(rows: seq<T>, p: nat)
    requires rows != [] && p >= 1
    ensures var k := CeilDiv(|rows|, p);
            && 1 <= k <= |rows| && |ArraySplit(rows, k)| == k && Concat(ArraySplit(rows, k)) == rows
            && LeastEnough(k, |rows|, p) && Balanced(ArraySplit(rows, k))
            && forall i :: 0 <= i < k ==> 1 <= |ArraySplit(rows, k)[i]| <= p
  {
    CeilBounds(|rows|, p);
    QuotientBounds(|rows|, p);
    SplitBalanced(rows, CeilDiv(|rows|, p));
    var k := CeilDiv(|rows|, p);
    RestAll(|rows|, k);
    PartsAre(rows, |rows|, k, k);
    forall i | 0 <= i < k ensures 1 <= PartSize(|rows|, k, i) <= p {
      PartBounds(|rows|, k, p, i);
    }
  }

  /** `CeilDiv` as a number of sections. */
  function Sections<T>(rows: seq<T>, p: nat): (k: nat)
    requires rows != [] && p >= 1
    ensures k == CeilDiv(|rows|, p) && k >= 1
  {
    QuotientBounds(|rows|, p);
    CeilDiv(|rows|, p)
  }

  /** Every file of the split is within the limit. */
  predicate WithinLimit(rows: seq<Row>, writtenHeader: int, written: Row -> nat, p: nat, maxSize: int)
    requires rows != [] && p >= 1
  {
    forall part | part in ArraySplit(rows, Sections(rows, p)) :: Bytes(writtenHeader, written, part) <= maxSize
  }

  lemma PartsWithinLimit(rows: seq<Row>, writtenHeader: int, written: Row -> nat, biggest: nat, p: nat, maxSize: int)
    requires rows != [] && p >= 1 && AllAtMost(rows, written, biggest) && p * biggest <= maxSize - writtenHeader
    ensures WithinLimit(rows, writtenHeader, written, p, maxSize)
  {
    SplitIs(rows, p);
    var parts := ArraySplit(rows, Sections(rows, p));
    forall i | 0 <= i < |parts| ensures Bytes(writtenHeader, written, parts[i]) <= maxSize {
      InConcat(parts, i);
      BytesBound(writtenHeader, written, parts[i], biggest);
      MulMono(|parts[i]|, p, biggest);
    }
  }

  /** What is measured with the index column bounds what is written without it, when no row is written bigger
      than the measured one. */
  lemma MeasuredSuffices(header: int, rowSize: int, writtenHeader: int, biggest: nat, maxSize: int)
    requires rowSize > 0 && writtenHeader <= header && biggest <= rowSize
    requires FloorDiv(maxSize - header, rowSize) >= 1
    ensures FloorDiv(maxSize - header, rowSize) * biggest <= maxSize - writtenHeader
  {
    var p := FloorDiv(maxSize - header, rowSize);
    FloorFits(p, maxSize - header, rowSize, p);
    MulMono(biggest, rowSize, p);
  }

  /** When no row is written bigger than the measured one, every non-empty frame is split into as few non-empty
      files as row_per_file allows, which stay within the limit and together hold its rows in order. */
  lemma SplitFits(rows: seq<Row>, header: int, rowSize: int, writtenHeader: int, written: Row -> nat, maxSize: int)
    requires rows != [] && rowSize > 0 && writtenHeader <= header
    requires AllAtMost(rows, written, rowSize)
    requires FloorDiv(maxSize - header, rowSize) >= 1
    ensures var k := NumberOfFiles(|rows|, header, rowSize, maxSize);
            && k.Ok? && 1 <= k.value <= |rows|
            && LeastEnough(k.value, |rows|, FloorDiv(maxSize - header, rowSize))
            && Concat(ArraySplit(rows, k.value)) == rows
            && |ArraySplit(rows, k.value)| == k.value
            && forall i :: 0 <= i < k.value ==>
                 && 1 <= |ArraySplit(rows, k.value)[i]| <= FloorDiv(maxSize - header, rowSize)
                 && Bytes(writtenHeader, written, ArraySplit(rows, k.value)[i]) <= maxSize
  {
    var p := FloorDiv(maxSize - header, rowSize);
    SplitIs(rows, p);
    MeasuredSuffices(header, rowSize, writtenHeader, rowSize, maxSize);
    PartsWithinLimit(rows, writtenHeader, written, rowSize, p, maxSize);
  }

  /** For the measured header and first row, with their index column: every written file of every frame that
      starts with that row, and has no row written bigger than `biggest`, is within the limit. */
  ghost predicate LimitKept(header: int, rowSize: int, writtenHeader: int, written: Row -> nat, first: Row, biggest: nat,
                            maxSize: int)
    requires rowSize > 0 && FloorDiv(maxSize - header, rowSize) >= 1
  {
    forall rows: seq<Row> | rows != [] && rows[0] == first && AllAtMost(rows, written, biggest) ::
      WithinLimit(rows, writtenHeader, written, FloorDiv(maxSize - header, rowSize), maxSize)
  }

  lemma {:induction false} BytesOfSame(header: int, written: Row -> nat, rows: seq<Row>, n: nat)
    requires forall r | r in rows :: written(r) == n
    ensures Bytes(header, written, rows) == header + |rows| * n
  {
    if rows != [] {
      BytesOfSame(header, written, rows[1..], n);
      assert |rows| * n == (|rows| - 1) * n + n;
    }
  }

  /** The limit is not kept on all frames when rows of the biggest size may fill a file. */
  lemma LimitBroken(header: int, rowSize: int, writtenHeader: int, written: Row -> nat, first: Row, big: Row, maxSize: int)
    requires rowSize > 0 && FloorDiv(maxSize - header, rowSize) >= 1 && written(big) >= written(first)
    requires FloorDiv(maxSize - header, rowSize) * written(big) > maxSize - writtenHeader
    ensures !LimitKept(header, rowSize, writtenHeader, written, first, written(big), maxSize)
  {
    var p := FloorDiv(maxSize - header, rowSize);
    var rows := OneSmall(first, big, p);
    TwoParts(rows, p);
    var part := ArraySplit(rows, 2)[1];
    BytesOfSame(writtenHeader, written, part, written(big));
    assert Sections(rows, p) == 2 && part in ArraySplit(rows, 2);
    assert !WithinLimit(rows, writtenHeader, written, p, maxSize);
    assert AllAtMost(rows, written, written(big));
  }

  /** Two files of p rows: the measured row and then only big ones. */
  function OneSmall(first: Row, big: Row, p: nat): (rows: seq<Row>)
    requires p >= 1
    ensures |rows| == 2 * p && rows[0] == first
    ensures forall r | r in rows :: r == first || r == big
    ensures forall r | r in rows[p..] :: r == big
  {
    [first] + seq(2 * p - 1, _ => big)
  }

  lemma OnePart<T>(rows: seq<T>)
    requires |rows| == Rest(2 * |rows|, 2, 1)
    ensures Parts(rows, 2 * |rows|, 2, 1) == [rows]
  {
    assert PartSize(2 * |rows|, 2, 1) == |rows|;
    assert rows[..|rows|] == rows;
  }

  lemma TwoParts<T>(rows: seq<T>, p: nat)
    requires p >= 1 && |rows| == 2 * p
    ensures CeilDiv(|rows|, p) == 2 && ArraySplit(rows, 2) == [rows[..p], rows[p..]]
  {
    CeilBounds(2 * p, p);
    DoubleIsTwo(CeilDiv(2 * p, p), p);
    RestAll(2 * p, 2);
    OnePart(rows[p..]);
    assert PartSize(2 * p, 2, 0) == p;
    assert ArraySplit(rows, 2) == [rows[..p]] + Parts(rows[p..], 2 * p, 2, 1);
  }

  lemma DoubleIsTwo(k: int, p: nat)
    requires p >= 1 && (k - 1) * p < 2 * p <= k * p
    ensures k == 2
  {
    if k > 2 {
      MulMono(2, k - 1, p);
    } else if k < 2 {
      MulMono(k, 1, p);
    }
  }

  /** The limit is kept on all frames of rows up to a biggest written size iff row_per_file rows of that size,
      which the measured sizes determine, are within it. */
  lemma LimitKeptIff(header: int, rowSize: int, writtenHeader: int, written: Row -> nat, first: Row, big: Row, maxSize: int)
    requires rowSize > 0 && FloorDiv(maxSize - header, rowSize) >= 1 && written(big) >= written(first)
    ensures LimitKept(header, rowSize, writtenHeader, written, first, written(big), maxSize)
       <==> FloorDiv(maxSize - header, rowSize) * written(big) <= maxSize - writtenHeader
  {
    var p := FloorDiv(maxSize - header, rowSize);
    if p * written(big) <= maxSize - writtenHeader {
      forall rows: seq<Row> | rows != [] && rows[0] == first && AllAtMost(rows, written, written(big))
        ensures WithinLimit(rows, writtenHeader, written, p, maxSize)
      {
        PartsWithinLimit(rows, writtenHeader, written, written(big), p, maxSize);
      }
    } else {
      LimitBroken(header, rowSize, writtenHeader, written, first, big, maxSize);
    }
  }

  /** The index column leaves some room: with a first row of 7 characters and bigger rows of 8, measured as 10
      and 11 bytes but written as 8 and 9, ten rows go into a file and 103 bytes are enough for them. With
      bigger rows of 10 characters they are not. */
  lemma IndexLeavesRoom(written: Row -> nat, first: Row, big: Row, bigger: Row)
    requires written(first) == 8 && written(big) == 9 && written(bigger) == 11
    ensures LimitKept(3, 10, 2, written, first, written(big), 103)
    ensures !LimitKept(3, 10, 2, written, first, written(bigger), 103)
  {
    LimitKeptIff(3, 10, 2, written, first, big, 103);
    LimitKeptIff(3, 10, 2, written, first, bigger, 103);
  }

  lemma {:induction false} InConcat<T>(ss: seq<seq<T>>, i: nat)
    requires i < |ss|
    ensures forall x | x in ss[i] :: x in Concat(ss)
  {
    if i > 0 {
      InConcat(ss[1..], i - 1);
    }
  }

  // ---------- Output names ----------

  const START := "/ingestion_start="
  const END := "ingestion_end="

  /** `{sinkPath}/ingestion_start=.../ingestion_end=.../{outputFileIndex:03d}` */
  function Prefix(sinkPath: string, iso: int -> string, start: int, end: int, file: nat): string {
    sinkPath + START + (iso(start) + ['/'] + (END + (iso(end) + ['/'] + Pad(file, 3))))
  }

  /** `{path_prefix}-{idx:05d}.csv` */
  function Name(prefix: string, part: nat): string {
    prefix + ['-'] + Pad(part, 5) + ".csv"
  }

  /** The example of the documentation, and another. */
  lemma NameExample()
    ensures Name("s3://path/file_prefix", 0) == "s3://path/file_prefix-00000.csv"
    ensures Name("p", 12) == "p-00012.csv"
  {
    Zeros();
    Twelve();
  }

  /** Which time stands under which label. */
  lemma PrefixLabels(sinkPath: string, iso: int -> string, start: int, end: int, file: nat)
    ensures Prefix(sinkPath, iso, start, end, file)
         == sinkPath + "/ingestion_start=" + iso(start) + "/ingestion_end=" + iso(end) + "/" + Pad(file, 3)
  {
    var (i, j, n) := (iso(start), iso(end), Pad(file, 3));
    assert "/" + "ingestion_end=" == "/ingestion_end=";
    ConcatAssoc(i, "/", "ingestion_end=" + (j + "/" + n));
    ConcatAssoc("/", "ingestion_end=", j + "/" + n);
    ConcatAssoc(sinkPath + "/ingestion_start=", i, "/ingestion_end=" + (j + "/" + n));
    ConcatAssoc(sinkPath + "/ingestion_start=" + i, "/ingestion_end=", j + "/" + n);
    ConcatAssoc(sinkPath + "/ingestion_start=" + i + "/ingestion_end=", j + "/", n);
    ConcatAssoc(sinkPath + "/ingestion_start=" + i + "/ingestion_end=", j, "/");
  }

  lemma DropSuffix(a: string, b: string, suffix: string)
    requires a + suffix == b + suffix
    ensures a == b
  {
    assert |a| == |b|;
    assert a == (a + suffix)[..|a|];
    assert b == (b + suffix)[..|b|];
  }

  lemma DropPrefix(prefix: string, a: string, b: string)
    requires prefix + a == prefix + b
    ensures a == b
  {
    assert a == (prefix + a)[|prefix|..];
    assert b == (prefix + b)[|prefix|..];
  }

  lemma NameParts(p: string, j: nat, p': string, j': nat)
    requires Name(p, j) == Name(p', j')
    ensures p == p' && j == j'
  {
    DropSuffix(p + ['-'] + Pad(j, 5), p' + ['-'] + Pad(j', 5), ".csv");
    CutAtLast(p, Pad(j, 5), p', Pad(j', 5), '-');
    PadInjective(j, j', 5);
  }

  /** Output names differ whenever the window, the file index or the part index differs. `iso` stands for
      `isoformat`, which is injective and writes no slash. */
  lemma NamesDistinct(sinkPath: string, iso: int -> string, s: int, e: int, i: nat, j: nat,
                      s': int, e': int, i': nat, j': nat)
    requires forall x, y :: iso(x) == iso(y) ==> x == y
    requires forall x :: '/' !in iso(x)
    requires Name(Prefix(sinkPath, iso, s, e, i), j) == Name(Prefix(sinkPath, iso, s', e', i'), j')
    ensures s == s' && e == e' && i == i' && j == j'
  {
    NameParts(Prefix(sinkPath, iso, s, e, i), j, Prefix(sinkPath, iso, s', e', i'), j');
    var (m, m') := (iso(e) + ['/'] + Pad(i, 3), iso(e') + ['/'] + Pad(i', 3));
    DropPrefix(sinkPath + START, iso(s) + ['/'] + (END + m), iso(s') + ['/'] + (END + m'));
    CutAtFirst(iso(s), END + m, iso(s'), END + m', '/');
    DropPrefix(END, m, m');
    CutAtFirst(iso(e), Pad(i, 3), iso(e'), Pad(i', 3), '/');
    PadInjective(i, i', 3);
  }
}
