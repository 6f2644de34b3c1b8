/** Options, results and the sequence, map and multiset facts shared by the other modules. */
module Basics {

  datatype Option<+T> = None | Some(value: T)

  datatype Result<+T, +E> = Ok(value: T) | Err(error: E)

  /** The sequence with the element at position i taken out. */
  function Without<T>(s: seq<T>, i: nat): seq<T>
    requires i < |s|
  {
    s[..i] + s[i + 1..]
  }

  lemma WithoutParts<T>(s: seq<T>, i: nat)
    requires i < |s|
    ensures s == s[..i] + [s[i]] + s[i + 1..]
    ensures multiset(s) == multiset(Without(s, i)) + multiset{s[i]}
    ensures forall j | 0 <= j < |Without(s, i)| :: Without(s, i)[j] in s
  {
  }

  lemma WithoutSame<T>(a: seq<T>, b: seq<T>) returns (i: nat)
    requires a != [] && multiset(a) == multiset(b)
    ensures i < |b| && b[i] == a[0] && multiset(a[1..]) == multiset(Without(b, i))
  {
    assert a[0] in multiset(b);
    i :| 0 <= i < |b| && b[i] == a[0];
    WithoutParts(b, i);
    HeadTail(a);
    assert multiset(a[1..]) == multiset(a) - multiset{a[0]};
  }

  lemma SameSize<T>(a: seq<T>, b: seq<T>)
    requires multiset(a) == multiset(b)
    ensures |a| == |b|
  {
    assert |a| == |multiset(a)| == |multiset(b)| == |b|;
  }

  lemma Prefixes<T>(s: seq<T>, n: nat, m: nat)
    requires n <= m <= |s|
    ensures s[..m][..n] == s[..n]
    ensures n < |s| ==> s[..n + 1] == s[..n] + [s[n]]
    ensures s[..|s|] == s
  {
  }

  lemma TailOfConcat<T>(a: seq<T>, b: seq<T>)
    ensures if a == [] then a + b == b else (a + b)[0] == a[0] && (a + b)[1..] == a[1..] + b
  {
  }

  lemma CountConcat<T>(a: seq<T>, b: seq<T>, x: T)
    ensures multiset(a + b)[x] == multiset(a)[x] + multiset(b)[x]
  {
  }

  lemma CountHead<T>(s: seq<T>, x: T)
    requires s != []
    ensures multiset(s)[x] == (if s[0] == x then 1 else 0) + multiset(s[1..])[x]
  {
    HeadTail(s);
  }

  lemma AppendNothing<T>(ss: seq<seq<T>>, i: nat)
    requires i < |ss|
    ensures ss[i := ss[i] + []] == ss
  {
    assert ss[i] + [] == ss[i];
  }

  lemma ConcatAssoc<T>(a: seq<T>, b: seq<T>, c: seq<T>)
    ensures a + b + c == a + (b + c)
  {
  }

  lemma SplitAround<T>(s: seq<T>, i: nat)
    requires i < |s|
    ensures s == s[..i] + ([s[i]] + s[i + 1..])
  {
  }

  lemma HeadTail<T>(s: seq<T>)
    requires s != []
    ensures s == [s[0]] + s[1..]
  {
  }

  /** The elements of s that satisfy p, in order. */
  function Filter<T>(p: T -> bool, s: seq<T>): (r: seq<T>)
    ensures forall x | x in s :: x in r <==> p(x)
    ensures forall i | 0 <= i < |r| :: r[i] in s && p(r[i])
  {
    if s == [] then [] else (if p(s[0]) then [s[0]] else []) + Filter(p, s[1..])
  }

  lemma FilterOne<T>(p: T -> bool, x: T)
    ensures Filter(p, [x]) == if p(x) then [x] else []
  {
    assert [x][1..] == [];
  }

  /** f applied to every element, in order. */
  function Map<T, U>(f: T -> U, s: seq<T>): (r: seq<U>)
    ensures |r| == |s|
    ensures forall i :: 0 <= i < |s| ==> r[i] == f(s[i])
  {
    if s == [] then [] else [f(s[0])] + Map(f, s[1..])
  }

  /** The concatenation of a list of sequences. */
  function Concat<T>(ss: seq<seq<T>>): seq<T> {
    if ss == [] then [] else ss[0] + Concat(ss[1..])
  }

  /** The sum of all the multisets held by a map. */
  ghost function Sum<K, T>(m: map<K, multiset<T>>): multiset<T> {
    if m == map[] then multiset{} else
      var k :| k in m;
      m[k] + Sum(m - {k})
  }

  lemma {:induction false} SumPick<K, T>(m: map<K, multiset<T>>, k: K)
    requires k in m
    ensures Sum(m) == m[k] + Sum(m - {k})
    decreases m
  {
    var j :| j in m && Sum(m) == m[j] + Sum(m - {j});
    if j != k {
      SumPick(m - {j}, k);
      SumPick(m - {k}, j);
      assert m - {j} - {k} == m - {k} - {j};
    }
  }

  lemma SumUpdate<K, T>(m: map<K, multiset<T>>, k: K, v: multiset<T>)
    ensures Sum(m[k := v]) + (if k in m then m[k] else multiset{}) == Sum(m) + v
  {
    SumPick(m[k := v], k);
    assert m[k := v] - {k} == m - {k};
    if k in m {
      SumPick(m, k);
    } else {
      assert m - {k} == m;
    }
  }

  lemma {:induction false} SumHas<K, T>(m: map<K, multiset<T>>, x: T) returns (k: K)
    requires x in Sum(m)
    ensures k in m && x in m[k]
    decreases m
  {
    var j :| j in m && Sum(m) == m[j] + Sum(m - {j});
    if x in m[j] {
      k := j;
    } else {
      k := SumHas(m - {j}, x);
    }
  }

  lemma {:induction false} SumEmpty<K, T>(m: map<K, multiset<T>>)
    requires forall k :: k in m ==> m[k] == multiset{}
    ensures Sum(m) == multiset{}
    decreases m
  {
    if m != map[] {
      var k :| k in m;
      SumPick(m, k);
      SumEmpty(m - {k});
    }
  }
}
