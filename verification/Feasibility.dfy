/** Which sales the job can collect at all, whatever the order of arrival. */
module Feasibility {
  import opened Basics
  import opened Records
  import opened Operators
  import opened Pairing
  import opened Keyed
  import opened Pipeline
  import opened BatchJoin
  import opened Enrichment
  import opened Conservation

  predicate SameIds(s: Sale, t: Sale) {
    && s.billCustomerId == t.billCustomerId && s.shipCustomerId == t.shipCustomerId
    && s.itemId == t.itemId && s.promoId == t.promoId
  }

  /** Some record of stage k has the sale's id, or the sale passes stage k without one. */
  predicate HasMatch(inp: Inputs, k: Stage, s: Sale) {
    PassesThrough(k, s) || exists r | r in Table(inp, k) :: RefKey(r) == SaleKey(k, s)
  }

  predicate Matched(inp: Inputs, k: nat, s: Sale) {
    forall j: Stage :: j >= k ==> HasMatch(inp, j, s)
  }

  /** How many addresses have this id. */
  function Entries(addresses: seq<Address>, x: Id): nat {
    if addresses == [] then 0 else (if addresses[0].addressId == x then 1 else 0) + Entries(addresses[1..], x)
  }

  /** Two customers can both be joined: they are the same, or they do not need the same one address. */
  predicate Together(inp: Inputs, c: Customer, d: Customer) {
    Core(c) == Core(d) || c.addressId != d.addressId || Entries(inp.addresses, c.addressId) >= 2
  }

  /** The sale's billing and shipping customer, each with an address. */
  predicate Couple(inp: Inputs, s: Sale, c: Customer, a: Address, d: Customer, b: Address) {
    && c.customerId == s.billCustomerId && c.addressId == a.addressId
    && d.customerId == s.shipCustomerId && d.addressId == b.addressId
    && Together(inp, c, d)
  }

  /** The sale's customers can be joined with addresses in one run, and its item and promo are there. */
  ghost predicate Feasible(inp: Inputs, s: Sale) {
    && HasMatch(inp, ITEM, s) && HasMatch(inp, PROMO, s)
    && exists c, a, d, b | c in inp.customers && a in inp.addresses && d in inp.customers && b in inp.addresses ::
         Couple(inp, s, c, a, d, b)
  }

  lemma JoinedFrom(inp: Inputs, k: Stage, r: Ref) returns (c: Customer, a: Address)
    requires k <= SHIPPING && r in Table(inp, k)
    ensures c in inp.customers && a in inp.addresses && c.addressId == a.addressId
    ensures r == OfCustomer(WithAddress(Clean(c), a))
  {
    CustomerTableHas(inp.customers, inp.addresses, r);
    c, a :| c in inp.customers && a in inp.addresses && IsJoined(r, c, a);
    JoinedIff(r, c, a);
  }

  lemma PairInTable(inp: Inputs, k: Stage, c: Customer, a: Address)
    requires k <= SHIPPING && c in inp.customers && a in inp.addresses && c.addressId == a.addressId
    ensures Joined((Clean(c), a)) in Table(inp, k)
  {
    JoinedIff(Joined((Clean(c), a)), c, a);
    assert IsJoined(Joined((Clean(c), a)), c, a);
    CustomerTableHas(inp.customers, inp.addresses, Joined((Clean(c), a)));
  }

  lemma FeasibleIsMatched(inp: Inputs, s: Sale)
    requires Feasible(inp, s)
    ensures Matched(inp, 0, s)
  {
    var c, a, d, b :| c in inp.customers && a in inp.addresses && d in inp.customers && b in inp.addresses
                      && Couple(inp, s, c, a, d, b);
    PairInTable(inp, BILLING, c, a);
    PairInTable(inp, SHIPPING, d, b);
  }

  lemma SameIdsMatch(inp: Inputs, s: Sale, t: Sale)
    requires SameIds(s, t)
    ensures forall k: Stage :: HasMatch(inp, k, s) <==> HasMatch(inp, k, t)
  {
  }

  lemma SameIdsFeasible(inp: Inputs, s: Sale, t: Sale)
    requires SameIds(s, t)
    ensures Feasible(inp, s) <==> Feasible(inp, t)
  {
    SameIdsMatch(inp, s, t);
    forall c, a, d, b ensures Couple(inp, s, c, a, d, b) <==> Couple(inp, t, c, a, d, b) {
    }
  }

  // ---------- The matches of a run ----------

  function Emitted(st: State, acts: seq<Action>): seq<Match>
    requires Shape(st) && Runs(st, acts)
    decreases acts
  {
    if acts == [] then [] else
      NextKeepsShape(st, acts[0]);
      Emits(st, acts[0]) + Emitted(Next(st, acts[0]), acts[1..])
  }

  function MatchesOf(x: Id, ms: seq<Match>): nat {
    if ms == [] then 0 else (if ms[0].1.addressId == x then 1 else 0) + MatchesOf(x, ms[1..])
  }

  lemma {:induction false} MatchesOfConcat(x: Id, ms: seq<Match>, ns: seq<Match>)
    ensures MatchesOf(x, ms + ns) == MatchesOf(x, ms) + MatchesOf(x, ns)
  {
    TailOfConcat(ms, ns);
    if ms != [] {
      MatchesOfConcat(x, ms[1..], ns);
    }
  }

  lemma {:induction false} HasMatchOf(x: Id, ms: seq<Match>, m: Match)
    requires m in ms && m.1.addressId == x
    ensures MatchesOf(x, ms) >= 1
  {
    if ms[0] != m {
      HeadTail(ms);
      HasMatchOf(x, ms[1..], m);
    }
  }

  lemma {:induction false} TwoMatches(x: Id, ms: seq<Match>, m: Match, n: Match)
    requires m in ms && n in ms && m != n && m.1.addressId == x == n.1.addressId
    ensures MatchesOf(x, ms) >= 2
  {
    HeadTail(ms);
    if ms[0] == m {
      HasMatchOf(x, ms[1..], n);
    } else if ms[0] == n {
      HasMatchOf(x, ms[1..], m);
    } else {
      TwoMatches(x, ms[1..], m, n);
    }
  }

  lemma {:induction false} EntriesWithout(addresses: seq<Address>, i: nat, x: Id)
    requires i < |addresses|
    ensures Entries(addresses, x) == Entries(Without(addresses, i), x) + if addresses[i].addressId == x then 1 else 0
  {
    if i > 0 {
      EntriesWithout(addresses[1..], i - 1, x);
      assert Without(addresses, i)[1..] == Without(addresses[1..], i - 1);
    } else {
      assert Without(addresses, 0) == addresses[1..];
    }
  }

  /** An address that waits or is still to come. */
  function Available(st: State, x: Id): nat {
    Entries(st.addresses, x) + if At(st.pairs, x, EMPTY_PAIR).address.Some? then 1 else 0
  }

  lemma NoMoreMatches(x: Id, ms: seq<Match>)
    ensures |ms| == 0 ==> MatchesOf(x, ms) == 0
    ensures |ms| == 1 ==> MatchesOf(x, ms) == if ms[0].1.addressId == x then 1 else 0
  {
    assert |ms| == 1 ==> ms[1..] == [];
  }

  lemma StepUsesAddresses(inp: Inputs, st: State, a: Action, x: Id)
    requires Shape(st) && Enabled(st, a) && PairsSound(inp, st)
    ensures MatchesOf(x, Emits(st, a)) + Available(Next(st, a), x) <= Available(st, x)
  {
    NoMoreMatches(x, Emits(st, a));
    match a
    case TakeAddress(i) => EntriesWithout(st.addresses, i, x);
    case _ =>
  }

  /** An address id has at most as many matches as addresses. */
  lemma {:induction false} MatchesUseAddresses(inp: Inputs, st: State, acts: seq<Action>, x: Id)
    requires Shape(st) && Runs(st, acts) && PairsSound(inp, st)
    ensures MatchesOf(x, Emitted(st, acts)) <= Available(st, x)
    decreases acts
  {
    if acts != [] {
      StepPairsSound(inp, st, acts[0]);
      StepUsesAddresses(inp, st, acts[0], x);
      MatchesUseAddresses(inp, Next(st, acts[0]), acts[1..], x);
      MatchesOfConcat(x, Emits(st, acts[0]), Emitted(Next(st, acts[0]), acts[1..]));
    }
  }

  /** The match is of a source customer, cleaned, with a source address of its address id. */
  ghost predicate FromSources(inp: Inputs, m: Match) {
    CleanedFrom(inp, m.0) && m.1 in inp.addresses && m.0.addressId == m.1.addressId
  }

  lemma {:induction false} EmittedFromSources(inp: Inputs, st: State, acts: seq<Action>)
    requires Shape(st) && Runs(st, acts) && PairsSound(inp, st)
    ensures forall m | m in Emitted(st, acts) :: FromSources(inp, m)
    decreases acts
  {
    if acts != [] {
      StepPairsSound(inp, st, acts[0]);
      EmittedFromSources(inp, Next(st, acts[0]), acts[1..]);
    }
  }

  ghost function FromMatches(ms: seq<Match>): Trust {
    (k: int, r: Ref) => k <= SHIPPING ==> exists m | m in ms :: r == Joined(m)
  }

  ghost predicate MatchesGood(good: Trust, ms: seq<Match>) {
    forall m | m in ms :: good(BILLING, Joined(m)) && good(SHIPPING, Joined(m))
  }

  lemma MatchesGoodParts(good: Trust, ms: seq<Match>, ns: seq<Match>)
    requires MatchesGood(good, ms + ns)
    ensures MatchesGood(good, ms) && MatchesGood(good, ns)
  {
    assert forall m | m in ms :: m in ms + ns;
    assert forall m | m in ns :: m in ms + ns;
  }

  lemma {:induction false} RunGood(good: Trust, st: State, acts: seq<Action>)
    requires Shape(st) && Runs(st, acts) && AllGood(st, good) && MatchesGood(good, Emitted(st, acts))
    ensures AllGood(After(st, acts), good)
    decreases acts
  {
    if acts != [] {
      NextKeepsShape(st, acts[0]);
      MatchesGoodParts(good, Emits(st, acts[0]), Emitted(Next(st, acts[0]), acts[1..]));
      StepGood(good, st, acts[0]);
      RunGood(good, Next(st, acts[0]), acts[1..]);
    }
  }

  lemma InitAllGood(good: Trust, inp: Inputs)
    requires forall k: Stage, r | k >= ITEM && r in Table(inp, k) :: good(k, r)
    ensures AllGood(Init(inp), good)
  {
    var st := Init(inp);
    forall k: Stage, i | 0 <= i < |st.refs[k]| ensures good(k, st.refs[k][i]) {
      if k >= ITEM {
        assert st.refs[k] == Table(inp, k) && st.refs[k][i] in Table(inp, k);
      }
    }
  }

  /** The customers of a collected sale were both joined in its run. */
  lemma CustomersWereJoined(inp: Inputs, acts: seq<Action>, s: Sale) returns (m: Match, n: Match)
    requires Runs(Init(inp), acts) && s in After(Init(inp), acts).sales[4]
    ensures m in Emitted(Init(inp), acts) && m.0.customerId == s.billCustomerId
    ensures n in Emitted(Init(inp), acts) && n.0.customerId == s.shipCustomerId
  {
    var ms := Emitted(Init(inp), acts);
    var good := FromMatches(ms);
    InitAllGood(good, inp);
    RunGood(good, Init(inp), acts);
    CollectedIsDone(good, After(Init(inp), acts), s);
    m :| m in ms && OfCustomer(s.billCustomer.value) == Joined(m);
    n :| n in ms && OfCustomer(s.shipCustomer.value) == Joined(n);
  }

  lemma MatchesAreTogether(inp: Inputs, acts: seq<Action>, m: Match, n: Match, c: Customer, d: Customer)
    requires Runs(Init(inp), acts) && m in Emitted(Init(inp), acts) && n in Emitted(Init(inp), acts)
    requires m.0 == Clean(c) && n.0 == Clean(d) && m.0.addressId == m.1.addressId && n.0.addressId == n.1.addressId
    ensures Together(inp, c, d)
  {
    if Core(c) != Core(d) && c.addressId == d.addressId {
      InitSound(inp);
      TwoMatches(c.addressId, Emitted(Init(inp), acts), m, n);
      MatchesUseAddresses(inp, Init(inp), acts, c.addressId);
    }
  }

  /** With no assumption on ids: a sale that any run collects is feasible. */
  lemma CollectedIsFeasible(inp: Inputs, acts: seq<Action>, s: Sale)
    requires Runs(Init(inp), acts) && s in After(Init(inp), acts).sales[4]
    ensures Feasible(inp, s)
  {
    var m, n := CustomersWereJoined(inp, acts, s);
    InitSound(inp);
    EmittedFromSources(inp, Init(inp), acts);
    var c :| c in inp.customers && m.0 == Clean(c);
    var d :| d in inp.customers && n.0 == Clean(d);
    MatchesAreTogether(inp, acts, m, n, c, d);
    assert Couple(inp, s, c, m.1, d, n.1);
    RunSound(inp, Init(inp), acts);
    CollectedIsDone(FromTable(inp), After(Init(inp), acts), s);
  }

  /** And it is one of the source sales, enriched. */
  lemma CollectedFrom(inp: Inputs, acts: seq<Action>, s: Sale) returns (t: Sale)
    requires Runs(Init(inp), acts) && s in After(Init(inp), acts).sales[4]
    ensures t in inp.sales && Strip(t) == Strip(s) && SameIds(s, t) && t.details == s.details
  {
    NoSaleLostOrDuplicated(inp, acts);
    InMap(After(Init(inp), acts).sales[4], s);
    t := OfMap(inp.sales, Strip(s));
  }

  lemma InMap(ss: seq<Sale>, s: Sale)
    requires s in ss
    ensures Strip(s) in multiset(Map(Strip, ss))
  {
    var i :| 0 <= i < |ss| && ss[i] == s;
    assert Map(Strip, ss)[i] == Strip(s);
  }

  lemma OfMap(ss: seq<Sale>, stripped: Sale) returns (s: Sale)
    requires stripped in multiset(Map(Strip, ss))
    ensures s in ss && Strip(s) == stripped
  {
    var i :| 0 <= i < |ss| && Map(Strip, ss)[i] == stripped;
    s := ss[i];
  }
}
