/** Exactly when the result of one keyed operator does not depend on the order of arrival. */
module JoinOrder {
  import opened Basics
  import opened Records
  import opened Operators
  import opened Conservation

  function References(es: seq<Event>): seq<Ref> {
    if es == [] then [] else (if es[0].RefArrives? then [es[0].ref] else []) + References(es[1..])
  }

  /** es is an order in which exactly these sales and records can arrive. */
  ghost predicate Schedule(es: seq<Event>, ss: seq<Sale>, rs: seq<Ref>) {
    multiset(Arrivals(es)) == multiset(ss) && multiset(References(es)) == multiset(rs)
  }

  lemma {:induction false} MembersOf(es: seq<Event>)
    ensures forall i :: 0 <= i < |es| ==>
              (if es[i].SaleArrives? then es[i].sale in Arrivals(es) else es[i].ref in References(es))
  {
    if es != [] {
      MembersOf(es[1..]);
    }
  }

  /** The sales and records of one key of stage k. */
  ghost predicate OneKey(k: Stage, x: Key, ss: seq<Sale>, rs: seq<Ref>) {
    && (forall s | s in ss :: SaleKey(k, s) == x && !PassesThrough(k, s))
    && (forall r | r in rs :: RefKey(r) == x && Fits(k, r))
  }

  lemma ScheduleFits(k: Stage, x: Key, es: seq<Event>, ss: seq<Sale>, rs: seq<Ref>)
    requires OneKey(k, x, ss, rs) && Schedule(es, ss, rs)
    ensures EventsFit(k, es) && NonePassThrough(k, es)
    ensures forall i :: 0 <= i < |es| && es[i].RefArrives? ==> es[i].ref in rs
  {
    MembersOf(es);
    forall i | 0 <= i < |es|
      ensures EventFits(k, es[i]) && (if es[i].SaleArrives? then !PassesThrough(k, es[i].sale) else es[i].ref in rs)
    {
      if es[i].SaleArrives? {
        assert es[i].sale in multiset(ss);
      } else {
        assert es[i].ref in multiset(rs);
      }
    }
  }

  /** All orders of arrival collect the same multiset of sales. */
  ghost predicate OrderFree(k: Stage, ss: seq<Sale>, rs: seq<Ref>) {
    forall es, fs | Schedule(es, ss, rs) && Schedule(fs, ss, rs) && EventsFit(k, es) && EventsFit(k, fs) ::
      multiset(RunCell(k, EMPTY_CELL, es).1) == multiset(RunCell(k, EMPTY_CELL, fs).1)
  }

  lemma {:induction false} TallyOfSame(f: Valuation, k: int, a: seq<Sale>, b: seq<Sale>)
    requires multiset(a) == multiset(b)
    ensures Tally(f, k, a) == Tally(f, k, b)
  {
    if a == [] {
      SameSize(a, b);
    } else {
      var i := WithoutSame(a, b);
      TallyWithout(f, k, b, i);
      TallyOfSame(f, k, a[1..], Without(b, i));
    }
  }

  ghost function Enriched(j: Stage, r: Ref): Valuation
    requires Fits(j, r)
  {
    (k: int, s: Sale) => multiset{Enrich(j, s, r)}
  }

  lemma {:induction false} EnrichAllIsTally(k: Stage, ss: seq<Sale>, r: Ref)
    requires Fits(k, r)
    ensures multiset(EnrichAll(k, ss, r)) == Tally(Enriched(k, r), k, ss)
  {
    if ss != [] {
      EnrichAllIsTally(k, ss[1..], r);
    }
  }

  predicate OnlyRecord(es: seq<Event>, r: Ref) {
    forall i :: 0 <= i < |es| && es[i].RefArrives? ==> es[i].ref == r
  }

  lemma {:induction false} OneRecordEverywhere(k: Stage, newest: Option<Ref>, es: seq<Event>, r: Ref)
    requires EventsFit(k, es) && Fits(k, r) && (newest.Some? ==> newest.value == r)
    requires OnlyRecord(es, r)
    requires newest.Some? || FirstRef(es).Some?
    ensures LatestOrFirst(k, newest, es) == EnrichAll(k, Arrivals(es), r)
    decreases es
  {
    if es != [] {
      var rest := es[1..];
      assert OnlyRecord(rest, r) && EventsFit(k, rest);
      if es[0].RefArrives? {
        assert es[0].ref == r;
        OneRecordEverywhere(k, Some(r), rest, r);
        assert Arrivals(es) == Arrivals(rest);
      } else {
        assert newest.None? ==> FirstRef(rest) == Some(r);
        OneRecordEverywhere(k, newest, rest, r);
        var s := es[0].sale;
        assert LatestOrFirst(k, newest, es) == [Enrich(k, s, r)] + LatestOrFirst(k, newest, rest);
        assert Arrivals(es) == [s] + Arrivals(rest);
        EnrichAllConcat(k, [s], Arrivals(rest), r);
        assert EnrichAll(k, [s], r) == [Enrich(k, s, r)];
      }
    }
  }

  lemma {:induction false} FirstRefIff(es: seq<Event>)
    ensures FirstRef(es).Some? <==> References(es) != []
  {
    if es != [] {
      FirstRefIff(es[1..]);
    }
  }

  lemma OneRecordOrderFree(k: Stage, ss: seq<Sale>, es: seq<Event>, r: Ref)
    requires Fits(k, r) && EventsFit(k, es) && OnlyRecord(es, r) && FirstRef(es).Some?
    requires multiset(Arrivals(es)) == multiset(ss)
    ensures multiset(LatestOrFirst(k, None, es)) == multiset(EnrichAll(k, ss, r))
  {
    OneRecordEverywhere(k, None, es, r);
    EnrichAllIsTally(k, Arrivals(es), r);
    EnrichAllIsTally(k, ss, r);
    TallyOfSame(Enriched(k, r), k, Arrivals(es), ss);
  }

  /** With one record value, or none, every order gives the same. */
  lemma SameRecordOrderFree(k: Stage, x: Key, ss: seq<Sale>, rs: seq<Ref>, es: seq<Event>)
    requires OneKey(k, x, ss, rs) && Schedule(es, ss, rs) && EventsFit(k, es)
    requires forall i, j :: 0 <= i < j < |rs| ==> rs[i] == rs[j]
    ensures multiset(RunCell(k, EMPTY_CELL, es).1)
         == if rs == [] then multiset{} else multiset(EnrichAll(k, ss, rs[0]))
  {
    ScheduleFits(k, x, es, ss, rs);
    ClosedForm(k, es);
    FirstRefIff(es);
    SameSize(References(es), rs);
    if rs == [] {
      LastIffFirst(es);
    } else {
      OneRecordOrderFree(k, ss, es, rs[0]);
    }
  }

  function SalesFirst(ss: seq<Sale>, rs: seq<Ref>): seq<Event> {
    if ss != [] then [SaleArrives(ss[0])] + SalesFirst(ss[1..], rs)
    else if rs != [] then [RefArrives(rs[0])] + SalesFirst([], rs[1..])
    else []
  }

  lemma {:induction false} SalesFirstIs(k: Stage, ss: seq<Sale>, rs: seq<Ref>, r: Ref)
    requires Fits(k, r) && forall i :: 0 <= i < |rs| ==> Fits(k, rs[i])
    ensures Arrivals(SalesFirst(ss, rs)) == ss && References(SalesFirst(ss, rs)) == rs
    ensures EventsFit(k, SalesFirst(ss, rs))
    ensures LatestOrFirst(k, Some(r), SalesFirst(ss, rs)) == EnrichAll(k, ss, r)
    decreases |ss| + |rs|
  {
    if ss != [] {
      SalesFirstIs(k, ss[1..], rs, r);
    } else if rs != [] {
      SalesFirstIs(k, [], rs[1..], rs[0]);
    }
  }

  /** The schedule in which the i-th record arrives first, then all sales, then the other records. */
  lemma RecordFirst(k: Stage, x: Key, ss: seq<Sale>, rs: seq<Ref>, i: nat) returns (es: seq<Event>)
    requires OneKey(k, x, ss, rs) && i < |rs|
    ensures Schedule(es, ss, rs) && EventsFit(k, es)
    ensures RunCell(k, EMPTY_CELL, es).1 == EnrichAll(k, ss, rs[i])
  {
    WithoutParts(rs, i);
    var tail := SalesFirst(ss, Without(rs, i));
    es := [RefArrives(rs[i])] + tail;
    SalesFirstIs(k, ss, Without(rs, i), rs[i]);
    assert es[1..] == tail;
    assert References(es) == [rs[i]] + Without(rs, i);
    ScheduleFits(k, x, es, ss, rs);
    ClosedForm(k, es);
  }

  lemma NoSalesNothing(k: Stage, x: Key, rs: seq<Ref>, es: seq<Event>)
    requires OneKey(k, x, [], rs) && Schedule(es, [], rs) && EventsFit(k, es)
    ensures RunCell(k, EMPTY_CELL, es).1 == []
  {
    ScheduleFits(k, x, es, [], rs);
    ClosedForm(k, es);
    SameSize(Arrivals(es), []);
    LatestOrFirstKeepsOrder(k, None, es);
    assert |Map(Strip, RunCell(k, EMPTY_CELL, es).1)| == 0;
  }

  lemma DifferentRecordsMatter(k: Stage, x: Key, ss: seq<Sale>, rs: seq<Ref>, i: nat, j: nat)
    requires OneKey(k, x, ss, rs) && ss != []
    requires i < |rs| && j < |rs| && rs[i] != rs[j]
    ensures !OrderFree(k, ss, rs)
  {
    var es := RecordFirst(k, x, ss, rs, i);
    var fs := RecordFirst(k, x, ss, rs, j);
    var here, there := EnrichAll(k, ss, rs[i]), EnrichAll(k, ss, rs[j]);
    assert here[0] in multiset(here);
    assert forall n :: 0 <= n < |there| ==> there[n] != here[0];
    assert here[0] !in multiset(there);
  }

  /** One key of a buffered join gives the same sales in every order of arrival iff no sale arrives or all
      records of the key are equal. */
  lemma {:induction false} OrderFreeIff(k: Stage, x: Key, ss: seq<Sale>, rs: seq<Ref>)
    requires OneKey(k, x, ss, rs)
    ensures OrderFree(k, ss, rs) <==> (ss == [] || forall i, j :: 0 <= i < j < |rs| ==> rs[i] == rs[j])
  {
    if i, j :| 0 <= i < j < |rs| && rs[i] != rs[j] {
      if ss == [] {
        forall es | Schedule(es, ss, rs) && EventsFit(k, es) ensures RunCell(k, EMPTY_CELL, es).1 == [] {
          NoSalesNothing(k, x, rs, es);
        }
      } else {
        DifferentRecordsMatter(k, x, ss, rs, i, j);
      }
    } else {
      forall es | Schedule(es, ss, rs) && EventsFit(k, es)
        ensures multiset(RunCell(k, EMPTY_CELL, es).1)
             == if rs == [] then multiset{} else multiset(EnrichAll(k, ss, rs[0]))
      {
        SameRecordOrderFree(k, x, ss, rs, es);
      }
    }
  }
}

module PairOrder {
  import opened Basics
  import opened Records
  import opened Pairing

  function Customers(es: seq<Arrival>): seq<Customer> {
    if es == [] then [] else (if es[0].CustomerArrives? then [es[0].customer] else []) + Customers(es[1..])
  }

  function Addresses(es: seq<Arrival>): seq<Address> {
    if es == [] then [] else (if es[0].AddressArrives? then [es[0].address] else []) + Addresses(es[1..])
  }

  /** es is an order in which exactly these records of one address id can arrive. */
  ghost predicate Schedule(es: seq<Arrival>, cs: seq<Customer>, ads: seq<Address>) {
    multiset(Customers(es)) == multiset(cs) && multiset(Addresses(es)) == multiset(ads)
  }

  /** All orders of arrival make the same pairs. */
  ghost predicate OrderFree(cs: seq<Customer>, ads: seq<Address>) {
    forall es, fs | Schedule(es, cs, ads) && Schedule(fs, cs, ads) ::
      multiset(RunPair(EMPTY_PAIR, es).1) == multiset(RunPair(EMPTY_PAIR, fs).1)
  }

  predicate AllEqual<T(==)>(s: seq<T>) {
    forall i, j :: 0 <= i < j < |s| ==> s[i] == s[j]
  }

  predicate OnlyThis<T(==)>(s: seq<T>, x: T) {
    forall i :: 0 <= i < |s| ==> s[i] == x
  }

  lemma {:induction false} NoAddressNoPair(c: PairCell, es: seq<Arrival>)
    requires c.address.None? && Addresses(es) == []
    ensures RunPair(c, es).1 == []
    decreases es
  {
    if es != [] {
      NoAddressNoPair(Pair(c, es[0]).0, es[1..]);
    }
  }

  lemma {:induction false} NoCustomerNoPair(c: PairCell, es: seq<Arrival>)
    requires c.customer.None? && Customers(es) == []
    ensures RunPair(c, es).1 == []
    decreases es
  {
    if es != [] {
      NoCustomerNoPair(Pair(c, es[0]).0, es[1..]);
    }
  }

  /** One address and equal customers: one pair, whenever the address comes. */
  lemma {:induction false} OneAddress(p: PairCell, es: seq<Arrival>, c: Customer, a: Address)
    requires OneSided(p) && OnlyThis(Customers(es), c)
    requires p.customer.Some? ==> p.customer.value == c
    requires if p.address.Some? then p.address.value == a && Addresses(es) == [] else Addresses(es) == [a]
    requires p.customer.Some? || Customers(es) != []
    ensures RunPair(p, es).1 == [(c, a)]
    decreases es
  {
    var (p1, out) := Pair(p, es[0]);
    var rest := es[1..];
    if es[0].CustomerArrives? {
      assert Customers(es)[0] == c && Customers(es)[1..] == Customers(rest);
      assert OnlyThis(Customers(rest), c) by {
        assert forall i :: 0 <= i < |Customers(rest)| ==> Customers(rest)[i] == Customers(es)[i + 1];
      }
      if p.address.Some? {
        NoAddressNoPair(p1, rest);
      } else {
        OneAddress(p1, rest, c, a);
      }
    } else {
      assert Addresses(es)[0] == a && Addresses(es)[1..] == Addresses(rest);
      assert Customers(es) == Customers(rest);
      if p.customer.Some? {
        NoAddressNoPair(p1, rest);
      } else {
        OneAddress(p1, rest, c, a);
      }
    }
  }

  /** One customer and equal addresses: one pair, whenever the customer comes. */
  lemma {:induction false} OneCustomer(p: PairCell, es: seq<Arrival>, c: Customer, a: Address)
    requires OneSided(p) && OnlyThis(Addresses(es), a)
    requires p.address.Some? ==> p.address.value == a
    requires if p.customer.Some? then p.customer.value == c && Customers(es) == [] else Customers(es) == [c]
    requires p.address.Some? || Addresses(es) != []
    ensures RunPair(p, es).1 == [(c, a)]
    decreases es
  {
    var (p1, out) := Pair(p, es[0]);
    var rest := es[1..];
    if es[0].AddressArrives? {
      assert Addresses(es)[0] == a && Addresses(es)[1..] == Addresses(rest);
      assert OnlyThis(Addresses(rest), a) by {
        assert forall i :: 0 <= i < |Addresses(rest)| ==> Addresses(rest)[i] == Addresses(es)[i + 1];
      }
      if p.customer.Some? {
        NoCustomerNoPair(p1, rest);
      } else {
        OneCustomer(p1, rest, c, a);
      }
    } else {
      assert Customers(es)[0] == c && Customers(es)[1..] == Customers(rest);
      assert Addresses(es) == Addresses(rest);
      if p.address.Some? {
        NoCustomerNoPair(p1, rest);
      } else {
        OneCustomer(p1, rest, c, a);
      }
    }
  }

  // ---------- Schedules that differ ----------

  function CustomersThenAddresses(cs: seq<Customer>, ads: seq<Address>): seq<Arrival> {
    if cs != [] then [CustomerArrives(cs[0])] + CustomersThenAddresses(cs[1..], ads)
    else if ads != [] then [AddressArrives(ads[0])] + CustomersThenAddresses([], ads[1..])
    else []
  }

  lemma {:induction false} CustomersThenAddressesIs(cs: seq<Customer>, ads: seq<Address>)
    ensures Customers(CustomersThenAddresses(cs, ads)) == cs && Addresses(CustomersThenAddresses(cs, ads)) == ads
    decreases |cs| + |ads|
  {
    if cs != [] {
      CustomersThenAddressesIs(cs[1..], ads);
    } else if ads != [] {
      CustomersThenAddressesIs([], ads[1..]);
    }
  }

  /** All customers before all addresses: at most one pair. */
  lemma {:induction false} AtMostOnePair(p: PairCell, cs: seq<Customer>, ads: seq<Address>)
    requires p.address.None?
    ensures |RunPair(p, CustomersThenAddresses(cs, ads)).1| <= 1
    decreases |cs| + |ads|
  {
    var es := CustomersThenAddresses(cs, ads);
    if cs != [] {
      assert es[1..] == CustomersThenAddresses(cs[1..], ads);
      AtMostOnePair(Pair(p, es[0]).0, cs[1..], ads);
    } else if ads != [] {
      CustomersThenAddressesIs([], ads[1..]);
      assert es[1..] == CustomersThenAddresses([], ads[1..]);
      NoCustomerNoPair(Pair(p, es[0]).0, es[1..]);
    }
  }

  function PairThen(c: Customer, a: Address, tail: seq<Arrival>): seq<Arrival> {
    [CustomerArrives(c), AddressArrives(a)] + tail
  }

  lemma PairThenIs(c: Customer, a: Address, tail: seq<Arrival>)
    ensures Customers(PairThen(c, a, tail)) == [c] + Customers(tail)
    ensures Addresses(PairThen(c, a, tail)) == [a] + Addresses(tail)
    ensures RunPair(EMPTY_PAIR, PairThen(c, a, tail)).1 == [(c, a)] + RunPair(EMPTY_PAIR, tail).1
  {
  }

  /** The i-th customer and the j-th address first, then the others. */
  lemma PairFirst(cs: seq<Customer>, ads: seq<Address>, i: nat, j: nat) returns (es: seq<Arrival>)
    requires i < |cs| && j < |ads|
    ensures Schedule(es, cs, ads)
    ensures RunPair(EMPTY_PAIR, es).1
         == [(cs[i], ads[j])] + RunPair(EMPTY_PAIR, CustomersThenAddresses(Without(cs, i), Without(ads, j))).1
  {
    var tail := CustomersThenAddresses(Without(cs, i), Without(ads, j));
    CustomersThenAddressesIs(Without(cs, i), Without(ads, j));
    WithoutParts(cs, i);
    WithoutParts(ads, j);
    PairThenIs(cs[i], ads[j], tail);
    es := PairThen(cs[i], ads[j], tail);
  }

  /** With two of each, a customer between two addresses makes a second pair. */
  lemma TwoOfEach(cs: seq<Customer>, ads: seq<Address>)
    requires |cs| >= 2 && |ads| >= 2
    ensures !OrderFree(cs, ads)
  {
    var inner := PairFirst(cs[1..], ads[1..], 0, 0);
    PairThenIs(cs[0], ads[0], inner);
    var es, fs := PairThen(cs[0], ads[0], inner), CustomersThenAddresses(cs, ads);
    SameWithHead(Customers(inner), cs);
    SameWithHead(Addresses(inner), ads);
    CustomersThenAddressesIs(cs, ads);
    AtMostOnePair(EMPTY_PAIR, cs, ads);
    DifferentSize(RunPair(EMPTY_PAIR, es).1, RunPair(EMPTY_PAIR, fs).1);
  }

  lemma SameWithHead<T>(inner: seq<T>, s: seq<T>)
    requires s != [] && multiset(inner) == multiset(s[1..])
    ensures multiset([s[0]] + inner) == multiset(s)
  {
    HeadTail(s);
  }

  lemma DifferentSize<T>(a: seq<T>, b: seq<T>)
    requires |a| != |b|
    ensures multiset(a) != multiset(b)
  {
    if multiset(a) == multiset(b) {
      SameSize(a, b);
      assert false;
    }
  }

  /** Two different customers for one address: the one that comes next to it gets it. */
  lemma DifferentCustomers(cs: seq<Customer>, ads: seq<Address>, i: nat, j: nat)
    requires |ads| == 1 && i < |cs| && j < |cs| && cs[i] != cs[j]
    ensures !OrderFree(cs, ads)
  {
    var es := PairFirst(cs, ads, i, 0);
    var fs := PairFirst(cs, ads, j, 0);
    CustomersThenAddressesIs(Without(cs, i), []);
    CustomersThenAddressesIs(Without(cs, j), []);
    assert Without(ads, 0) == [];
    NoAddressNoPair(EMPTY_PAIR, CustomersThenAddresses(Without(cs, i), []));
    NoAddressNoPair(EMPTY_PAIR, CustomersThenAddresses(Without(cs, j), []));
    assert RunPair(EMPTY_PAIR, es).1 == [(cs[i], ads[0])];
    assert RunPair(EMPTY_PAIR, fs).1 == [(cs[j], ads[0])];
    assert multiset(RunPair(EMPTY_PAIR, es).1)[(cs[i], ads[0])] == 1;
    assert multiset(RunPair(EMPTY_PAIR, fs).1)[(cs[i], ads[0])] == 0;
  }

  lemma DifferentAddresses(cs: seq<Customer>, ads: seq<Address>, i: nat, j: nat)
    requires |cs| == 1 && i < |ads| && j < |ads| && ads[i] != ads[j]
    ensures !OrderFree(cs, ads)
  {
    var es := PairFirst(cs, ads, 0, i);
    var fs := PairFirst(cs, ads, 0, j);
    CustomersThenAddressesIs([], Without(ads, i));
    CustomersThenAddressesIs([], Without(ads, j));
    assert Without(cs, 0) == [];
    NoCustomerNoPair(EMPTY_PAIR, CustomersThenAddresses([], Without(ads, i)));
    NoCustomerNoPair(EMPTY_PAIR, CustomersThenAddresses([], Without(ads, j)));
    assert RunPair(EMPTY_PAIR, es).1 == [(cs[0], ads[i])];
    assert RunPair(EMPTY_PAIR, fs).1 == [(cs[0], ads[j])];
    assert multiset(RunPair(EMPTY_PAIR, es).1)[(cs[0], ads[i])] == 1;
    assert multiset(RunPair(EMPTY_PAIR, fs).1)[(cs[0], ads[i])] == 0;
  }

  /** What can share an address id without making the pairs depend on the order of arrival. */
  predicate Independent(cs: seq<Customer>, ads: seq<Address>) {
    || cs == [] || ads == []
    || (|ads| == 1 && AllEqual(cs))
    || (|cs| == 1 && AllEqual(ads))
  }

  lemma {:induction false} SameMembers<T>(a: seq<T>, b: seq<T>, x: T)
    requires multiset(a) == multiset(b) && OnlyThis(b, x)
    ensures OnlyThis(a, x) && |a| == |b|
  {
    SameSize(a, b);
    forall i | 0 <= i < |a| ensures a[i] == x {
      assert a[i] in multiset(b);
    }
  }

  lemma EqualCustomersPair(cs: seq<Customer>, a: Address, es: seq<Arrival>)
    requires cs != [] && OnlyThis(cs, cs[0]) && multiset(Customers(es)) == multiset(cs) && Addresses(es) == [a]
    ensures RunPair(EMPTY_PAIR, es).1 == [(cs[0], a)]
  {
    SameMembers(Customers(es), cs, cs[0]);
    OneAddress(EMPTY_PAIR, es, cs[0], a);
  }

  lemma EqualAddressesPair(c: Customer, ads: seq<Address>, es: seq<Arrival>)
    requires ads != [] && OnlyThis(ads, ads[0]) && multiset(Addresses(es)) == multiset(ads) && Customers(es) == [c]
    ensures RunPair(EMPTY_PAIR, es).1 == [(c, ads[0])]
  {
    SameMembers(Addresses(es), ads, ads[0]);
    OneCustomer(EMPTY_PAIR, es, c, ads[0]);
  }

  lemma Singleton<T>(a: seq<T>, b: seq<T>)
    requires multiset(a) == multiset(b) && |b| == 1
    ensures a == [b[0]]
  {
    SameMembers(a, b, b[0]);
  }

  lemma IndependentPairs(cs: seq<Customer>, ads: seq<Address>, es: seq<Arrival>)
    requires Independent(cs, ads) && Schedule(es, cs, ads)
    ensures RunPair(EMPTY_PAIR, es).1 == if cs == [] || ads == [] then [] else [(cs[0], ads[0])]
  {
    if ads == [] {
      SameSize(Addresses(es), ads);
      NoAddressNoPair(EMPTY_PAIR, es);
    } else if cs == [] {
      SameSize(Customers(es), cs);
      NoCustomerNoPair(EMPTY_PAIR, es);
    } else if |ads| == 1 {
      Singleton(Addresses(es), ads);
      EqualCustomersPair(cs, ads[0], es);
    } else {
      Singleton(Customers(es), cs);
      EqualAddressesPair(cs[0], ads, es);
    }
  }

  /** The pairs made under one address id are the same in every order of arrival iff there are no customers,
      or no addresses, or one address for equal customers, or one customer for equal addresses. */
  lemma PairsOrderFreeIff(cs: seq<Customer>, ads: seq<Address>)
    ensures OrderFree(cs, ads) <==> Independent(cs, ads)
  {
    if Independent(cs, ads) {
      forall es | Schedule(es, cs, ads)
        ensures RunPair(EMPTY_PAIR, es).1 == if cs == [] || ads == [] then [] else [(cs[0], ads[0])]
      {
        IndependentPairs(cs, ads, es);
      }
    } else if |ads| == 1 {
      var i, j :| 0 <= i < j < |cs| && cs[i] != cs[j];
      DifferentCustomers(cs, ads, i, j);
    } else if |cs| == 1 {
      var i, j :| 0 <= i < j < |ads| && ads[i] != ads[j];
      DifferentAddresses(cs, ads, i, j);
    } else {
      TwoOfEach(cs, ads);
    }
  }
}
