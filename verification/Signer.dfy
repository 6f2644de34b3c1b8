/** The header and parameter maps that the request signer builds, keyed by names ignoring case. */
module Signer {
  import opened Basics

  datatype Header = Header(name: string, value: Option<string>)

  function FoldChar(c: char): char {
    if 'A' <= c <= 'Z' then c + ' ' else c
  }

  /** A name with its letters in lower case. Two names are equal ignoring case iff they fold to the same. */
  function Fold(s: string): string {
    Map(FoldChar, s)
  }

  /** A `TreeMap` with `CASE_INSENSITIVE_ORDER`: entries by folded name, each with the spelling that was put first. */
  type HeaderMap = map<string, Header>

  predicate WellKeyed(m: HeaderMap) {
    forall k | k in m :: Fold(m[k].name) == k
  }

  function Put(m: HeaderMap, name: string, value: Option<string>): HeaderMap {
    var k := Fold(name);
    m[k := Header(if k in m then m[k].name else name, value)]
  }

  predicate SkipHeader(h: Header) {
    (Fold(h.name) == "content-length" && h.value == Some("0")) || Fold(h.name) == "host"
  }

  predicate Kept(h: Header, k: string) {
    !SkipHeader(h) && Fold(h.name) == k
  }

  /** The kept headers of one name, in order. */
  function KeptOf(hs: seq<Header>, k: string): seq<Header> {
    if hs == [] then [] else KeptOf(hs[..|hs| - 1], k) + (if Kept(hs[|hs| - 1], k) then [hs[|hs| - 1]] else [])
  }

  lemma KeptAppend(hs: seq<Header>, h: Header, k: string)
    ensures KeptOf(hs + [h], k) == KeptOf(hs, k) + if Kept(h, k) then [h] else []
  {
  }

  lemma {:induction false} KeptHas(hs: seq<Header>, k: string, h: Header)
    ensures h in KeptOf(hs, k) <==> h in hs && Kept(h, k)
  {
    if hs != [] {
      var front := hs[..|hs| - 1];
      KeptHas(front, k, h);
      assert hs == front + [hs[|hs| - 1]];
    }
  }

  /** The entry that the kept headers of one name make: the first spelling and the last value. */
  function EntryOf(kept: seq<Header>): Header
    requires kept != []
  {
    Header(kept[0].name, kept[|kept| - 1].value)
  }

  /** m holds the kept headers of hs: each name once, in its first spelling, with its last value. */
  ghost predicate Holds(m: HeaderMap, hs: seq<Header>) {
    forall k :: if k in m then KeptOf(hs, k) != [] && m[k] == EntryOf(KeptOf(hs, k)) else KeptOf(hs, k) == []
  }

  lemma HoldsStep(m: HeaderMap, hs: seq<Header>, h: Header)
    requires Holds(m, hs)
    ensures Holds(if SkipHeader(h) then m else Put(m, h.name, h.value), hs + [h])
  {
    var m' := if SkipHeader(h) then m else Put(m, h.name, h.value);
    forall k
      ensures if k in m' then KeptOf(hs + [h], k) != [] && m'[k] == EntryOf(KeptOf(hs + [h], k)) else KeptOf(hs + [h], k) == []
    {
      KeptAppend(hs, h, k);
    }
  }

  method HeaderArrayToMap(allHeaders: seq<Header>) returns (m: HeaderMap)
    ensures Holds(m, allHeaders)
  {
    m := map[];
    for i := 0 to |allHeaders|
      invariant Holds(m, allHeaders[..i])
    {
      var h := allHeaders[i];
      HoldsStep(m, allHeaders[..i], h);
      assert allHeaders[..i + 1] == allHeaders[..i] + [h];
      if !SkipHeader(h) {
        m := Put(m, h.name, h.value);
      }
    }
    assert allHeaders[..|allHeaders|] == allHeaders;
  }

  predicate Listed(h: Header, m: HeaderMap, left: HeaderMap) {
    Fold(h.name) in m && Fold(h.name) !in left && m[Fold(h.name)] == h
  }

  predicate AllListed(hs: seq<Header>, m: HeaderMap, left: HeaderMap) {
    forall i :: 0 <= i < |hs| ==> Listed(hs[i], m, left)
  }

  predicate DistinctNames(hs: seq<Header>) {
    forall i, j :: 0 <= i < j < |hs| ==> Fold(hs[i].name) != Fold(hs[j].name)
  }

  predicate NoneMissing(hs: seq<Header>, m: HeaderMap, left: HeaderMap) {
    forall k | k in m && k !in left :: m[k] in hs
  }

  /** hs lists the entries of m that are not left, each once. */
  predicate Lists(hs: seq<Header>, m: HeaderMap, left: HeaderMap) {
    && |hs| + |left| == |m|
    && (forall k | k in left :: k in m && m[k] == left[k])
    && AllListed(hs, m, left) && DistinctNames(hs) && NoneMissing(hs, m, left)
  }

  lemma ListsNone(m: HeaderMap)
    ensures Lists([], m, m)
  {
  }

  lemma AllListedStep(hs: seq<Header>, m: HeaderMap, left: HeaderMap, k: string)
    requires AllListed(hs, m, left) && k in left && k in m && Fold(m[k].name) == k
    ensures AllListed(hs + [m[k]], m, left - {k})
  {
  }

  lemma DistinctStep(hs: seq<Header>, m: HeaderMap, left: HeaderMap, k: string)
    requires DistinctNames(hs) && AllListed(hs, m, left) && k in left && k in m && Fold(m[k].name) == k
    ensures DistinctNames(hs + [m[k]])
  {
  }

  lemma NoneMissingStep(hs: seq<Header>, m: HeaderMap, left: HeaderMap, k: string)
    requires NoneMissing(hs, m, left) && k in left && k in m
    ensures NoneMissing(hs + [m[k]], m, left - {k})
  {
  }

  lemma ListsStep(hs: seq<Header>, m: HeaderMap, left: HeaderMap, k: string)
    requires WellKeyed(m) && Lists(hs, m, left) && k in left
    ensures Lists(hs + [left[k]], m, left - {k})
  {
    Removed(left, k);
    AllListedStep(hs, m, left, k);
    DistinctStep(hs, m, left, k);
    NoneMissingStep(hs, m, left, k);
  }

  lemma Removed<K, V>(m: map<K, V>, k: K)
    requires k in m
    ensures |m - {k}| == |m| - 1
  {
  }

  /** `headers[i] = header` on the part filled so far. */
  method Append(headers: array<Header>, i: nat, header: Header)
    requires i < headers.Length
    modifies headers
    ensures headers[..i + 1] == old(headers[..i]) + [header]
  {
    headers[i] := header;
  }

  method MapToHeaderArray(m: HeaderMap) returns (headers: array<Header>)
    requires WellKeyed(m)
    ensures fresh(headers) && Lists(headers[..], m, map[])
  {
    headers := new Header[|m|];
    var i := 0;
    var left := m;
    ListsNone(m);
    while left != map[]
      invariant i + |left| == headers.Length
      invariant Lists(headers[..i], m, left)
      decreases |left|
    {
      var k :| k in left;
      ListsStep(headers[..i], m, left, k);
      Removed(left, k);
      Append(headers, i, left[k]);
      i := i + 1;
      left := left - {k};
    }
    assert headers[..i] == headers[..];
  }

  lemma HeldIsWellKeyed(m: HeaderMap, hs: seq<Header>)
    requires Holds(m, hs)
    ensures WellKeyed(m)
  {
    forall k | k in m ensures Fold(m[k].name) == k {
      KeptHas(hs, k, KeptOf(hs, k)[0]);
    }
  }

  predicate Named(hs: seq<Header>, k: string) {
    exists h | h in hs :: Fold(h.name) == k
  }

  /** The header has name k, ignoring case, and goes to the signer: it is no host header, nor one that says that
      there is no content. */
  predicate Passes(h: Header, k: string) {
    Fold(h.name) == k && k != "host" && !(k == "content-length" && h.value == Some("0"))
  }

  lemma KeptIff(h: Header, k: string)
    ensures Kept(h, k) <==> Passes(h, k)
  {
  }

  predicate PassingNamed(hs: seq<Header>, k: string) {
    exists h | h in hs :: Passes(h, k)
  }

  /** v is the value of the last passing header of name k. */
  predicate LastValue(hs: seq<Header>, k: string, v: Option<string>) {
    exists i | 0 <= i < |hs| :: Passes(hs[i], k) && hs[i].value == v && forall j :: i < j < |hs| ==> !Passes(hs[j], k)
  }

  /** name is how the first passing header of name k is spelled. */
  predicate FirstSpelling(hs: seq<Header>, k: string, name: string) {
    exists i | 0 <= i < |hs| :: Passes(hs[i], k) && hs[i].name == name && forall j :: 0 <= j < i ==> !Passes(hs[j], k)
  }

  /** Rebuilding the headers, for every header array and every order of the map's entries: the names differ
      ignoring case, they are exactly the names of the passing headers, and each has its last passing value and
      its first spelling. */
  lemma RebuiltHeaders(hs: seq<Header>, m: HeaderMap, rebuilt: seq<Header>)
    requires Holds(m, hs) && Lists(rebuilt, m, map[])
    ensures forall i, j :: 0 <= i < j < |rebuilt| ==> Fold(rebuilt[i].name) != Fold(rebuilt[j].name)
    ensures forall k :: Named(rebuilt, k) <==> PassingNamed(hs, k)
    ensures forall h | h in rebuilt :: LastValue(hs, Fold(h.name), h.value) && FirstSpelling(hs, Fold(h.name), h.name)
  {
    HeldIsWellKeyed(m, hs);
    forall k ensures Named(rebuilt, k) <==> PassingNamed(hs, k) {
      NamesOfRebuilt(hs, m, rebuilt, k);
    }
    forall h | h in rebuilt ensures LastValue(hs, Fold(h.name), h.value) && FirstSpelling(hs, Fold(h.name), h.name) {
      var i :| 0 <= i < |rebuilt| && rebuilt[i] == h;
      assert Listed(rebuilt[i], m, map[]);
      LastKept(hs, Fold(h.name));
      FirstKept(hs, Fold(h.name));
    }
  }

  /** Folding brings together exactly the names that differ in the case of ASCII letters only. */
  lemma {:induction false} FoldIff(a: string, b: string)
    ensures Fold(a) == Fold(b) <==> |a| == |b| && forall i :: 0 <= i < |a| ==> SameLetter(a[i], b[i])
  {
    forall i | 0 <= i < |a| && i < |b| ensures Fold(a)[i] == Fold(b)[i] <==> SameLetter(a[i], b[i]) {
      LetterFolds(a[i], b[i]);
    }
    if |a| == |b| && forall i :: 0 <= i < |a| ==> SameLetter(a[i], b[i]) {
      assert forall i :: 0 <= i < |a| ==> Fold(a)[i] == Fold(b)[i];
    }
  }

  /** The same character, or the same letter of A to Z in upper and in lower case. */
  predicate SameLetter(c: char, d: char) {
    c == d || ('A' <= c <= 'Z' && d as int == c as int + 32) || ('A' <= d <= 'Z' && c as int == d as int + 32)
  }

  lemma LetterFolds(c: char, d: char)
    ensures FoldChar(c) == FoldChar(d) <==> SameLetter(c, d)
  {
  }

  lemma NamesOfRebuilt(hs: seq<Header>, m: HeaderMap, rebuilt: seq<Header>, k: string)
    requires Holds(m, hs) && WellKeyed(m) && Lists(rebuilt, m, map[])
    ensures Named(rebuilt, k) <==> k in m
    ensures PassingNamed(hs, k) <==> k in m
  {
    if k in m {
      assert m[k] in rebuilt && Fold(m[k].name) == k;
      KeptHas(hs, k, KeptOf(hs, k)[0]);
      KeptIff(KeptOf(hs, k)[0], k);
    } else {
      forall h | h in rebuilt ensures Fold(h.name) != k {
        var i :| 0 <= i < |rebuilt| && rebuilt[i] == h;
        assert Listed(rebuilt[i], m, map[]);
      }
      forall h | h in hs ensures !Passes(h, k) {
        KeptHas(hs, k, h);
        KeptIff(h, k);
      }
    }
  }

  lemma StillLast(front: seq<Header>, h: Header, k: string, v: Option<string>)
    requires LastValue(front, k, v) && !Passes(h, k)
    ensures LastValue(front + [h], k, v)
  {
    var hs := front + [h];
    var i :| 0 <= i < |front| && Passes(front[i], k) && front[i].value == v && forall j :: i < j < |front| ==> !Passes(front[j], k);
    assert Passes(hs[i], k) && hs[i].value == v && forall j :: i < j < |hs| ==> !Passes(hs[j], k);
  }

  lemma NowLast(front: seq<Header>, h: Header, k: string)
    requires Passes(h, k)
    ensures LastValue(front + [h], k, h.value)
  {
    assert (front + [h])[|front|] == h;
  }

  lemma KeptSplit(hs: seq<Header>, k: string)
    requires hs != []
    ensures var front, h := hs[..|hs| - 1], hs[|hs| - 1];
            && hs == front + [h] && KeptOf(hs, k) == KeptOf(front, k) + (if Kept(h, k) then [h] else [])
  {
  }

  lemma {:induction false} LastKept(hs: seq<Header>, k: string)
    requires KeptOf(hs, k) != []
    ensures LastValue(hs, k, KeptOf(hs, k)[|KeptOf(hs, k)| - 1].value)
  {
    var front, h := hs[..|hs| - 1], hs[|hs| - 1];
    KeptIff(h, k);
    KeptSplit(hs, k);
    if Kept(h, k) {
      NowLast(front, h, k);
    } else {
      LastKept(front, k);
      StillLast(front, h, k, KeptOf(hs, k)[|KeptOf(hs, k)| - 1].value);
    }
  }

  lemma {:induction false} FirstKept(hs: seq<Header>, k: string)
    requires KeptOf(hs, k) != []
    ensures FirstSpelling(hs, k, KeptOf(hs, k)[0].name)
  {
    var front, h := hs[..|hs| - 1], hs[|hs| - 1];
    KeptIff(h, k);
    KeptSplit(hs, k);
    if KeptOf(front, k) == [] {
      forall j | 0 <= j < |front| ensures !Passes(front[j], k) {
        KeptHas(front, k, front[j]);
        KeptIff(front[j], k);
      }
      NowFirst(front, h, k);
    } else {
      FirstKept(front, k);
      StillFirst(front, h, k, KeptOf(front, k)[0].name);
    }
  }

  lemma NowFirst(front: seq<Header>, h: Header, k: string)
    requires Passes(h, k) && forall j :: 0 <= j < |front| ==> !Passes(front[j], k)
    ensures FirstSpelling(front + [h], k, h.name)
  {
    assert (front + [h])[|front|] == h;
  }

  lemma StillFirst(front: seq<Header>, h: Header, k: string, name: string)
    requires FirstSpelling(front, k, name)
    ensures FirstSpelling(front + [h], k, name)
  {
    var hs := front + [h];
    var i :| 0 <= i < |front| && Passes(front[i], k) && front[i].name == name && forall j :: 0 <= j < i ==> !Passes(front[j], k);
    assert Passes(hs[i], k) && hs[i].name == name && forall j :: 0 <= j < i ==> !Passes(hs[j], k);
  }

  // ---------- Query parameters ----------

  datatype Param = Param(name: string, value: Option<string>)

  datatype Entry = Entry(name: string, values: seq<Option<string>>)

  function ValuesOf(ps: seq<Param>, k: string): seq<Option<string>> {
    if ps == [] then [] else
      ValuesOf(ps[..|ps| - 1], k) + if Fold(ps[|ps| - 1].name) == k then [ps[|ps| - 1].value] else []
  }

  ghost function Held(m: map<string, Entry>): map<string, multiset<Option<string>>> {
    map k | k in m :: multiset(m[k].values)
  }

  ghost function AllValues(m: map<string, Entry>): multiset<Option<string>> {
    Sum(Held(m))
  }

  lemma HeldUpdate(m: map<string, Entry>, k: string, e: Entry)
    ensures Held(m[k := e]) == Held(m)[k := multiset(e.values)]
  {
  }

  lemma Cancel<T>(after: multiset<T>, all: multiset<T>, prior: multiset<T>, more: multiset<T>)
    requires after + prior == all + (prior + more)
    ensures after == all + more
  {
    forall x ensures after[x] == (all + more)[x] {
      assert (after + prior)[x] == (all + (prior + more))[x];
    }
  }

  lemma AddValue(m: map<string, Entry>, k: string, e: Entry, v: Option<string>)
    requires e.values == (if k in m then m[k].values else []) + [v]
    ensures AllValues(m[k := e]) == AllValues(m) + multiset{v}
  {
    var prior := if k in m then Held(m)[k] else multiset{};
    HeldUpdate(m, k, e);
    SumUpdate(Held(m), k, multiset(e.values));
    assert multiset(e.values) == prior + multiset{v};
    Cancel(AllValues(m[k := e]), AllValues(m), prior, multiset{v});
  }

  predicate EntryRight(m: map<string, Entry>, ps: seq<Param>, k: string) {
    if k in m then m[k].values == ValuesOf(ps, k) && ValuesOf(ps, k) != [] && Fold(m[k].name) == k else ValuesOf(ps, k) == []
  }

  function ParamValues(ps: seq<Param>): seq<Option<string>> {
    Map((p: Param) => p.value, ps)
  }

  /** m has an entry for each name of ps, with that name's values in order, and no other value. */
  ghost predicate HoldsParams(m: map<string, Entry>, ps: seq<Param>) {
    (forall k :: EntryRight(m, ps, k)) && AllValues(m) == multiset(ParamValues(ps))
  }

  function AddParam(m: map<string, Entry>, p: Param): map<string, Entry> {
    var k := Fold(p.name);
    var args := if k in m then m[k] else Entry(p.name, []);
    m[k := args.(values := args.values + [p.value])]
  }

  lemma EntryStep(m: map<string, Entry>, ps: seq<Param>, p: Param, k: string)
    requires EntryRight(m, ps, k)
    ensures EntryRight(AddParam(m, p), ps + [p], k)
  {
  }

  lemma {:induction false} ParamValuesAppend(ps: seq<Param>, p: Param)
    ensures ParamValues(ps + [p]) == ParamValues(ps) + [p.value]
  {
  }

  lemma HoldsParamsStep(m: map<string, Entry>, ps: seq<Param>, p: Param)
    requires HoldsParams(m, ps)
    ensures HoldsParams(AddParam(m, p), ps + [p])
  {
    forall k ensures EntryRight(AddParam(m, p), ps + [p], k) {
      EntryStep(m, ps, p, k);
    }
    var k := Fold(p.name);
    assert EntryRight(m, ps, k);
    AddValue(m, k, AddParam(m, p)[k], p.value);
    ParamValuesAppend(ps, p);
  }

  function AddParams(ps: seq<Param>): map<string, Entry> {
    if ps == [] then map[] else AddParam(AddParams(ps[..|ps| - 1]), ps[|ps| - 1])
  }

  lemma {:induction false} ParamsHeld(ps: seq<Param>)
    ensures HoldsParams(AddParams(ps), ps)
  {
    if ps == [] {
      assert Held(AddParams(ps)) == map[];
    } else {
      var front := ps[..|ps| - 1];
      ParamsHeld(front);
      HoldsParamsStep(AddParams(front), front, ps[|ps| - 1]);
      Prefixes(ps, |ps| - 1, |ps|);
    }
  }

  /** Each name, ignoring case, with its values in order of appearance; no value is lost or added. */
  method NvpToMapParams(queryParams: seq<Param>) returns (m: map<string, Entry>)
    ensures HoldsParams(m, queryParams)
  {
    m := map[];
    for i := 0 to |queryParams|
      invariant m == AddParams(queryParams[..i])
    {
      Prefixes(queryParams, i, i + 1);
      var nvp := queryParams[i];
      var k := Fold(nvp.name);
      var args := if k in m then m[k] else Entry(nvp.name, []);
      m := m[k := args.(values := args.values + [nvp.value])];
    }
    Prefixes(queryParams, 0, |queryParams|);
    ParamsHeld(queryParams);
  }
}
