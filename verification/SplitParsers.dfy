/** The parsers built on Java's `String.split`, and what they undo. */
module SplitParsers {
  import opened Basics

  datatype Failure = IndexOutOfBounds

  /** All pieces between separators. */
  function Pieces(s: string, sep: char): (r: seq<string>)
    ensures r != []
  {
    if s == "" then [""]
    else if s[0] == sep then [""] + Pieces(s[1..], sep)
    else
      var rest := Pieces(s[1..], sep);
      [[s[0]] + rest[0]] + rest[1..]
  }

  function DropTrailingEmpty(ps: seq<string>): seq<string> {
    if ps != [] && ps[|ps| - 1] == "" then DropTrailingEmpty(ps[..|ps| - 1]) else ps
  }

  /** `String.split` with a one-character separator: trailing empty pieces are removed, and a string without
      the separator is its own only piece. */
  function Split(s: string, sep: char): seq<string> {
    if sep !in s then [s] else DropTrailingEmpty(Pieces(s, sep))
  }

  function Join(ps: seq<string>, sep: char): string {
    if ps == [] then "" else if |ps| == 1 then ps[0] else ps[0] + [sep] + Join(ps[1..], sep)
  }

  // ---------- Pieces and Join ----------

  lemma {:induction false} PiecesJoin(s: string, sep: char)
    ensures Join(Pieces(s, sep), sep) == s
  {
    if s != "" {
      var rest := Pieces(s[1..], sep);
      PiecesJoin(s[1..], sep);
      if s[0] == sep {
        assert ([""] + rest)[1..] == rest;
      } else {
        var ps := [[s[0]] + rest[0]] + rest[1..];
        assert ps[1..] == rest[1..];
        if |rest| > 1 {
          assert Join(ps, sep) == [s[0]] + (rest[0] + [sep] + Join(rest[1..], sep));
        }
      }
    }
  }

  lemma {:induction false} PiecesWithout(a: string, sep: char)
    requires sep !in a
    ensures Pieces(a, sep) == [a]
  {
    if a != "" {
      assert a[0] in a;
      PiecesWithout(a[1..], sep);
      assert a == [a[0]] + a[1..];
    }
  }

  /** A separator-free head is the first piece. */
  lemma {:induction false} PiecesAfter(a: string, b: string, sep: char)
    requires sep !in a
    ensures Pieces(a + [sep] + b, sep) == [a] + Pieces(b, sep)
  {
    var s := a + [sep] + b;
    if a == "" {
      assert s[1..] == b;
    } else {
      assert s[1..] == a[1..] + [sep] + b;
      PiecesAfter(a[1..], b, sep);
      assert a == [a[0]] + a[1..];
    }
  }

  lemma {:induction false} PiecesFree(s: string, sep: char)
    ensures forall p | p in Pieces(s, sep) :: sep !in p
  {
    if s != "" {
      PiecesFree(s[1..], sep);
    }
  }

  lemma {:induction false} LastPiece(s: string, sep: char)
    ensures var ps := Pieces(s, sep); ps[|ps| - 1] == "" <==> (s == "" || s[|s| - 1] == sep)
  {
    if s != "" {
      LastPiece(s[1..], sep);
      if |s| > 1 {
        assert s[1..][|s| - 2] == s[|s| - 1];
      }
    }
  }

  lemma {:induction false} JoinSnoc(ps: seq<string>, p: string, sep: char)
    requires ps != []
    ensures Join(ps + [p], sep) == Join(ps, sep) + [sep] + p
  {
    if |ps| == 1 {
      assert (ps + [p])[1..] == [p];
    } else {
      assert (ps + [p])[1..] == ps[1..] + [p];
      JoinSnoc(ps[1..], p, sep);
    }
  }

  /** Dropping trailing pieces shortens what the pieces join to. */
  lemma {:induction false} DropShortens(ps: seq<string>, sep: char)
    ensures |Join(DropTrailingEmpty(ps), sep)| <= |Join(ps, sep)|
    ensures |ps| > 1 && ps[|ps| - 1] == "" ==> |Join(DropTrailingEmpty(ps), sep)| < |Join(ps, sep)|
  {
    if ps != [] && ps[|ps| - 1] == "" {
      var front := ps[..|ps| - 1];
      DropShortens(front, sep);
      assert ps == front + [""];
      if front != [] {
        JoinSnoc(front, "", sep);
      }
    }
  }

  lemma {:induction false} DropAfter(p: string, ps: seq<string>)
    ensures DropTrailingEmpty([p] + ps) ==
            if DropTrailingEmpty(ps) != [] then [p] + DropTrailingEmpty(ps) else if p == "" then [] else [p]
  {
    var all := [p] + ps;
    if ps == [] {
      assert all == [p] && all[..0] == [];
    } else if ps[|ps| - 1] == "" {
      assert all[..|all| - 1] == [p] + ps[..|ps| - 1];
      DropAfter(p, ps[..|ps| - 1]);
    }
  }

  // ---------- s3://bucket/key ----------

  const S3_PREFIX := "s3://"

  /** The S3 branch of `urlStream`: the bucket and the key that are requested. */
  function ParseS3(url: string): Result<(string, string), Failure>
    requires S3_PREFIX <= url
  {
    var parts := Split(url[|S3_PREFIX|..], '/');
    if parts == [] then Err(IndexOutOfBounds) else Ok((parts[0], Join(parts[1..], '/')))
  }

  function PrintS3(bucket: string, key: string): string {
    S3_PREFIX + (bucket + ['/'] + key)
  }

  lemma SplitOfPrinted(bucket: string, key: string)
    requires '/' !in bucket
    ensures var ps := DropTrailingEmpty(Pieces(key, '/'));
            Split(bucket + ['/'] + key, '/') == if ps != [] then [bucket] + ps else if bucket == "" then [] else [bucket]
  {
    var s := bucket + ['/'] + key;
    assert s[|bucket|] == '/';
    PiecesAfter(bucket, key, '/');
    DropAfter(bucket, Pieces(key, '/'));
  }

  lemma {:induction false} KeyKept(key: string)
    ensures var ps := DropTrailingEmpty(Pieces(key, '/'));
            Join(ps, '/') == key <==> (key == "" || key[|key| - 1] != '/')
  {
    var ps := Pieces(key, '/');
    PiecesJoin(key, '/');
    LastPiece(key, '/');
    DropShortens(ps, '/');
    if key == "" {
      assert ps == [""] && ps[..0] == [];
    }
  }

  lemma FirstPartFree(s: string, sep: char)
    requires Split(s, sep) != []
    ensures sep !in Split(s, sep)[0]
  {
    if sep in s {
      PiecesFree(s, sep);
      DropIsPrefix(Pieces(s, sep));
    }
  }

  lemma {:induction false} DropIsPrefix(ps: seq<string>)
    ensures DropTrailingEmpty(ps) <= ps
  {
    if ps != [] && ps[|ps| - 1] == "" {
      DropIsPrefix(ps[..|ps| - 1]);
    }
  }

  /** Parsing undoes printing exactly for the buckets without a slash and the keys that do not end in one,
      except when both are empty. */
  lemma S3RoundTripIff(bucket: string, key: string)
    ensures PrintS3(bucket, key) == "s3://" + bucket + "/" + key
    ensures ParseS3(PrintS3(bucket, key)) == Ok((bucket, key)) <==>
            && '/' !in bucket && (key == "" || key[|key| - 1] != '/') && !(bucket == "" && key == "")
  {
    var s := bucket + ['/'] + key;
    assert PrintS3(bucket, key)[|S3_PREFIX|..] == s;
    assert "s3://" + bucket + "/" + key == "s3://" + s;
    var parts := Split(s, '/');
    if '/' in bucket {
      if parts != [] {
        FirstPartFree(s, '/');
      }
    } else {
      SplitOfPrinted(bucket, key);
      KeyKept(key);
      var ps := DropTrailingEmpty(Pieces(key, '/'));
      if ps != [] {
        assert ([bucket] + ps)[1..] == ps;
        if bucket == "" && key == "" {
          PiecesWithout("", '/');
          assert [""][..0] == [];
        }
      } else if bucket != "" {
        assert [bucket][1..] == [];
      }
    }
  }

  // ---------- k=v,k=v ----------

  /** `splitMapValuesFn` for one `k=v`: only the first two parts are looked at. */
  function ParsePair(s: string): Result<(string, string), Failure> {
    var parts := Split(s, '=');
    if |parts| < 2 then Err(IndexOutOfBounds) else Ok((parts[0], parts[1]))
  }

  function PutAll(pairs: seq<(string, string)>): map<string, string> {
    if pairs == [] then map[] else PutAll(pairs[..|pairs| - 1])[pairs[|pairs| - 1].0 := pairs[|pairs| - 1].1]
  }

  function ParsePairs(ss: seq<string>): Result<seq<(string, string)>, Failure> {
    if ss == [] then Ok([]) else
      var front := ParsePairs(ss[..|ss| - 1]);
      if front.Err? then front else
      var last := ParsePair(ss[|ss| - 1]);
      if last.Err? then Err(last.error) else Ok(front.value + [last.value])
  }

  /** What `splitMapValuesFn` returns; null gives an empty map. */
  function ParseMap(v: Option<string>): Result<map<string, string>, Failure> {
    if v.None? then Ok(map[]) else
      var pairs := ParsePairs(Split(v.value, ','));
      if pairs.Err? then Err(pairs.error) else Ok(PutAll(pairs.value))
  }

  /** One more piece is one more entry, or the failure. */
  lemma NextPair(ss: seq<string>, i: nat, pairs: seq<(string, string)>)
    requires i < |ss| && ParsePairs(ss[..i]) == Ok(pairs)
    ensures var last := ParsePair(ss[i]);
            if last.Err? then ParsePairs(ss[..i + 1]).Err? else
            ParsePairs(ss[..i + 1]) == Ok(pairs + [last.value])
  {
    Prefixes(ss, i, i + 1);
  }

  lemma PutNext(pairs: seq<(string, string)>, p: (string, string))
    ensures PutAll(pairs + [p]) == PutAll(pairs)[p.0 := p.1]
  {
  }

  /** For a key that is given more than once the last value counts. */
  lemma {:induction false} LastWins(pairs: seq<(string, string)>, k: string)
    ensures k in PutAll(pairs) <==> exists p | p in pairs :: p.0 == k
    ensures forall i :: 0 <= i < |pairs| && pairs[i].0 == k && (forall j :: i < j < |pairs| ==> pairs[j].0 != k) ==>
              k in PutAll(pairs) && PutAll(pairs)[k] == pairs[i].1
  {
    if pairs != [] {
      var front, last := pairs[..|pairs| - 1], pairs[|pairs| - 1];
      LastWins(front, k);
      assert pairs == front + [last];
      assert forall p :: p in pairs <==> p in front || p == last;
      forall i | 0 <= i < |pairs| && pairs[i].0 == k && forall j :: i < j < |pairs| ==> pairs[j].0 != k
        ensures k in PutAll(pairs) && PutAll(pairs)[k] == pairs[i].1
      {
        if i < |front| {
          assert front[i] == pairs[i] && last.0 != k;
          assert forall j :: i < j < |front| ==> front[j] == pairs[j];
        }
      }
    }
  }

  /** A part without an equals sign fails; what follows a second one is ignored. */
  lemma OddPairs(k: string, v: string, w: string)
    requires '=' !in k && '=' !in v && v != ""
    ensures ParsePair(k).Err? && ParsePair(k + ['='] + v + ['='] + w) == Ok((k, v))
  {
    var rest := v + ['='] + w;
    var s := k + ['='] + rest;
    assert k + ['='] + v + ['='] + w == s;
    assert s[|k|] == '=';
    PiecesAfter(k, rest, '=');
    PiecesAfter(v, w, '=');
    DropAfter(k, [v] + Pieces(w, '='));
    DropAfter(v, Pieces(w, '='));
  }

  method SplitMapValues(v: Option<string>) returns (r: Result<map<string, string>, Failure>)
    ensures r == ParseMap(v) && (v.None? ==> r == Ok(map[]))
  {
    if v.None? {
      return Ok(map[]);
    }
    var values: map<string, string> := map[];
    var pieces := Split(v.value, ',');
    ghost var pairs: seq<(string, string)> := [];
    for i := 0 to |pieces|
      invariant ParsePairs(pieces[..i]) == Ok(pairs) && values == PutAll(pairs)
    {
      NextPair(pieces, i, pairs);
      var parts := Split(pieces[i], '=');
      if |parts| < 2 {
        FailsFrom(pieces, i + 1);
        return Err(IndexOutOfBounds);
      }
      PutNext(pairs, (parts[0], parts[1]));
      values := values[parts[0] := parts[1]];
      pairs := pairs + [(parts[0], parts[1])];
    }
    Prefixes(pieces, 0, |pieces|);
    r := Ok(values);
  }

  lemma {:induction false} FailsFrom(ss: seq<string>, n: nat)
    requires n <= |ss| && ParsePairs(ss[..n]).Err?
    ensures ParsePairs(ss).Err? && ParsePairs(ss).error.IndexOutOfBounds?
    decreases ss
  {
    if n == |ss| {
      Prefixes(ss, n, n);
    } else {
      Prefixes(ss, n, |ss| - 1);
      FailsFrom(ss[..|ss| - 1], n);
    }
  }

  function PrintPair(p: (string, string)): string {
    p.0 + ['='] + p.1
  }

  function PrintPairs(ps: seq<(string, string)>): seq<string> {
    Map(PrintPair, ps)
  }

  /** Neither separator occurs. */
  predicate Plain(s: string) {
    ',' !in s && '=' !in s
  }

  lemma PairRoundTrip(p: (string, string))
    requires Plain(p.0) && Plain(p.1)
    ensures ParsePair(PrintPair(p)) == if p.1 == "" then Err(IndexOutOfBounds) else Ok(p)
  {
    var s := PrintPair(p);
    assert s[|p.0|] == '=';
    PiecesAfter(p.0, p.1, '=');
    PiecesWithout(p.1, '=');
    DropAfter(p.0, [p.1]);
    if p.1 == "" {
      assert [p.1][..0] == [];
    }
  }

  predicate AllValued(ps: seq<(string, string)>) {
    forall p | p in ps :: p.1 != ""
  }

  lemma {:induction false} PairsRoundTrip(ps: seq<(string, string)>)
    requires forall p | p in ps :: Plain(p.0) && Plain(p.1)
    ensures ParsePairs(PrintPairs(ps)) == if AllValued(ps) then Ok(ps) else Err(IndexOutOfBounds)
    decreases ps
  {
    if ps != [] {
      var front, last := ps[..|ps| - 1], ps[|ps| - 1];
      PairsRoundTrip(front);
      PairRoundTrip(last);
      PrintedFront(ps);
    }
  }

  lemma PrintedFront(ps: seq<(string, string)>)
    requires ps != []
    ensures var front, ss := ps[..|ps| - 1], PrintPairs(ps);
            && ss[..|ss| - 1] == PrintPairs(front) && ps == front + [ps[|ps| - 1]]
            && (AllValued(ps) <==> AllValued(front) && ps[|ps| - 1].1 != "")
  {
  }

  /** Joining separator-free pieces and splitting gives the pieces back. */
  lemma {:induction false} JoinPieces(ss: seq<string>, sep: char)
    requires ss != [] && forall i :: 0 <= i < |ss| ==> sep !in ss[i]
    ensures Pieces(Join(ss, sep), sep) == ss
  {
    if |ss| == 1 {
      PiecesWithout(ss[0], sep);
    } else {
      JoinPieces(ss[1..], sep);
      PiecesAfter(ss[0], Join(ss[1..], sep), sep);
    }
  }

  lemma SplitOfJoined(ss: seq<string>, sep: char)
    requires ss != [] && (forall i :: 0 <= i < |ss| ==> sep !in ss[i]) && ss[|ss| - 1] != ""
    ensures Split(Join(ss, sep), sep) == ss
  {
    JoinPieces(ss, sep);
    if sep !in Join(ss, sep) {
      PiecesWithout(Join(ss, sep), sep);
    }
  }

  /** For keys and values without a comma or an equals sign: parsing the printed pairs gives the map they
      make iff there is a pair and no value is empty; otherwise it throws. */
  lemma MapRoundTripIff(ps: seq<(string, string)>)
    requires forall p | p in ps :: Plain(p.0) && Plain(p.1)
    ensures ParseMap(Some(Join(PrintPairs(ps), ','))) ==
            if ps != [] && AllValued(ps) then Ok(PutAll(ps)) else Err(IndexOutOfBounds)
  {
    var ss := PrintPairs(ps);
    if ps == [] {
      assert Split("", ',') == [""] && Split("", '=') == [""];
      assert ParsePairs([""]) == Err(IndexOutOfBounds) by {
        assert [""][..0] == [];
      }
    } else {
      forall i | 0 <= i < |ss| ensures ',' !in ss[i] && ss[i] != "" {
        assert ps[i] in ps;
      }
      SplitOfJoined(ss, ',');
      PairsRoundTrip(ps);
    }
  }
}
