/** `CustomerAddressJoiner`: each customer is paired once with an address of the same address id. */
module Pairing {
  import opened Basics
  import opened Records
  import opened Keyed

  /** `customerState` and `addressState` of one key. */
  datatype PairCell = PairCell(customer: Option<Customer>, address: Option<Address>)

  const EMPTY_PAIR := PairCell(None, None)

  datatype Arrival = CustomerArrives(customer: Customer) | AddressArrives(address: Address)

  type Match = (Customer, Address)

  predicate OneSided(c: PairCell) {
    c.customer.None? || c.address.None?
  }

  /** `processElement1` and `processElement2`: the new state and the pairs whose customer is collected. */
  function Pair(c: PairCell, e: Arrival): (PairCell, seq<Match>) {
    match e
    case CustomerArrives(v) =>
      if c.address.None? then (c.(customer := Some(v)), [])
      else (c.(address := None), [(v, c.address.value)])
    case AddressArrives(v) =>
      if c.customer.None? then (c.(address := Some(v)), [])
      else (c.(customer := None), [(c.customer.value, v)])
  }

  function Collected(ms: seq<Match>): seq<Customer> {
    Map((m: Match) => WithAddress(m.0, m.1), ms)
  }

  class CustomerAddressJoiner {
    var addressState: Option<Address>
    var customerState: Option<Customer>

    ghost function State(): PairCell
      reads this
    {
      PairCell(customerState, addressState)
    }

    constructor ()
      ensures State() == EMPTY_PAIR
    {
      addressState := None;
      customerState := None;
    }

    method ProcessElement1(value: Customer) returns (out: seq<Customer>)
      modifies this
      ensures State() == Pair(old(State()), CustomerArrives(value)).0
      ensures out == Collected(Pair(old(State()), CustomerArrives(value)).1)
      ensures old(OneSided(State())) ==> OneSided(State())
    {
      out := [];
      if addressState.None? {
        customerState := Some(value);
      } else {
        var address := addressState.value;
        out := [WithAddress(value, address)];
        addressState := None;
      }
    }

    method ProcessElement2(value: Address) returns (out: seq<Customer>)
      modifies this
      ensures State() == Pair(old(State()), AddressArrives(value)).0
      ensures out == Collected(Pair(old(State()), AddressArrives(value)).1)
      ensures old(OneSided(State())) ==> OneSided(State())
    {
      out := [];
      if customerState.None? {
        addressState := Some(value);
      } else {
        var customer := customerState.value;
        out := [WithAddress(customer, value)];
        customerState := None;
      }
    }
  }

  // ---------- Runs of one key ----------

  function RunPair(c: PairCell, es: seq<Arrival>): (PairCell, seq<Match>)
    decreases es
  {
    if es == [] then (c, []) else
      var (c1, out) := Pair(c, es[0]);
      var (c2, rest) := RunPair(c1, es[1..]);
      (c2, out + rest)
  }

  /** The record that e pushes out of the state, if any. */
  function Pushed(c: PairCell, e: Arrival): seq<Arrival> {
    match e
    case CustomerArrives(_) =>
      if c.address.None? && c.customer.Some? then [CustomerArrives(c.customer.value)] else []
    case AddressArrives(_) =>
      if c.customer.None? && c.address.Some? then [AddressArrives(c.address.value)] else []
  }

  /** The records that a later one of the same kind pushes out of the state. */
  function Overwritten(c: PairCell, es: seq<Arrival>): seq<Arrival>
    decreases es
  {
    if es == [] then [] else Pushed(c, es[0]) + Overwritten(Pair(c, es[0]).0, es[1..])
  }

  function Pending(c: PairCell): multiset<Arrival> {
    (if c.customer.Some? then multiset{CustomerArrives(c.customer.value)} else multiset{})
    + (if c.address.Some? then multiset{AddressArrives(c.address.value)} else multiset{})
  }

  function Used(ms: seq<Match>): seq<Arrival> {
    if ms == [] then [] else [CustomerArrives(ms[0].0), AddressArrives(ms[0].1)] + Used(ms[1..])
  }

  lemma {:induction false} UsedConcat(a: seq<Match>, b: seq<Match>)
    ensures Used(a + b) == Used(a) + Used(b)
  {
    if a == [] {
      assert a + b == b;
    } else {
      assert (a + b)[1..] == a[1..] + b;
      UsedConcat(a[1..], b);
    }
  }

  lemma {:induction false} UsedLength(ms: seq<Match>)
    ensures |Used(ms)| == 2 * |ms|
  {
    if ms != [] {
      UsedLength(ms[1..]);
    }
  }

  lemma StepBalance(c: PairCell, e: Arrival)
    requires OneSided(c)
    ensures var (c1, out) := Pair(c, e);
            && OneSided(c1)
            && Pending(c) + multiset{e} == multiset(Used(out)) + Pending(c1) + multiset(Pushed(c, e))
  {
    var (c1, out) := Pair(c, e);
    match e
    case CustomerArrives(v) =>
      if c.address.Some? {
        UsedOne(v, c.address.value);
      }
    case AddressArrives(v) =>
      if c.customer.Some? {
        UsedOne(c.customer.value, v);
      }
  }

  lemma UsedOne(c: Customer, a: Address)
    ensures multiset(Used([(c, a)])) == multiset{CustomerArrives(c)} + multiset{AddressArrives(a)}
  {
  }

  lemma Chain(p: multiset<Arrival>, p1: multiset<Arrival>, p2: multiset<Arrival>, u1: seq<Arrival>, u2: seq<Arrival>,
              l1: seq<Arrival>, l2: seq<Arrival>, e: Arrival, es: seq<Arrival>)
    requires p + multiset{e} == multiset(u1) + p1 + multiset(l1)
    requires p1 + multiset(es) == multiset(u2) + p2 + multiset(l2)
    ensures p + multiset([e] + es) == multiset(u1 + u2) + p2 + multiset(l1 + l2)
  {
    forall x ensures (p + multiset([e] + es))[x] == (multiset(u1 + u2) + p2 + multiset(l1 + l2))[x] {
      assert (p + multiset{e})[x] == (multiset(u1) + p1 + multiset(l1))[x];
      assert (p1 + multiset(es))[x] == (multiset(u2) + p2 + multiset(l2))[x];
    }
  }

  /** Every record that arrives, or is pending before, is then in a pair, pending or overwritten. */
  lemma {:induction false} Balance(c: PairCell, es: seq<Arrival>)
    requires OneSided(c)
    ensures OneSided(RunPair(c, es).0)
    ensures Pending(c) + multiset(es) == multiset(Used(RunPair(c, es).1)) + Pending(RunPair(c, es).0)
                                         + multiset(Overwritten(c, es))
    decreases es
  {
    if es != [] {
      var (c1, out1) := Pair(c, es[0]);
      var (c', rest) := RunPair(c1, es[1..]);
      StepBalance(c, es[0]);
      Balance(c1, es[1..]);
      Chain(Pending(c), Pending(c1), Pending(c'), Used(out1), Used(rest),
            Pushed(c, es[0]), Overwritten(c1, es[1..]), es[0], es[1..]);
      UsedConcat(out1, rest);
      HeadTail(es);
      assert RunPair(c, es) == (c', out1 + rest);
      assert Overwritten(c, es) == Pushed(c, es[0]) + Overwritten(c1, es[1..]);
    }
  }

  /** One-shot pairing, for every run of one key: at most one of the two cells is ever full, and every
      record that arrived is in exactly one place: in one pair, pending, or overwritten by a later one of
      its kind. So arrivals are twice the pairs plus what is pending plus what was overwritten. */
  lemma OneShot(es: seq<Arrival>)
    ensures var (c, out) := RunPair(EMPTY_PAIR, es);
            && OneSided(c)
            && multiset(es) == multiset(Used(out)) + Pending(c) + multiset(Overwritten(EMPTY_PAIR, es))
            && |es| == 2 * |out| + |Pending(c)| + |Overwritten(EMPTY_PAIR, es)|
  {
    var (c, out) := RunPair(EMPTY_PAIR, es);
    Balance(EMPTY_PAIR, es);
    assert Pending(EMPTY_PAIR) + multiset(es) == multiset(es);
    UsedLength(out);
    assert |multiset(es)| == |multiset(Used(out)) + Pending(c) + multiset(Overwritten(EMPTY_PAIR, es))|;
  }

  // ---------- The keyed operator ----------

  function AddressKey(e: Arrival): Id {
    match e
    case CustomerArrives(v) => v.addressId
    case AddressArrives(v) => v.addressId
  }

  ghost function RunJoiner(es: seq<Arrival>): (map<Id, PairCell>, seq<(Id, Match)>) {
    RunKeyed(Pair, c => true, e => true, AddressKey, EMPTY_PAIR, map[], es)
  }

  lemma {:induction false} RunOneIsRunPair(c: PairCell, es: seq<Arrival>)
    ensures RunOne(Pair, (c: PairCell) => true, (e: Arrival) => true, c, es) == RunPair(c, es)
    decreases es
  {
    if es != [] {
      RunOneIsRunPair(Pair(c, es[0]).0, es[1..]);
    }
  }

  lemma {:induction false} PairsFromArrivals(c: PairCell, es: seq<Arrival>, x: Id)
    requires forall i :: 0 <= i < |es| ==> AddressKey(es[i]) == x
    requires c.customer.Some? ==> c.customer.value.addressId == x
    requires c.address.Some? ==> c.address.value.addressId == x
    ensures forall m | m in RunPair(c, es).1 :: m.0.addressId == x == m.1.addressId
    decreases es
  {
    if es != [] {
      PairsFromArrivals(Pair(c, es[0]).0, es[1..], x);
    }
  }

  /** The keyed joiner, for every stream and every address id: its pairs match on that id, at most one
      cell is full, and the records of that id are each in one pair, pending, or overwritten. */
  lemma KeyedOneShot(es: seq<Arrival>, x: Id)
    ensures var mine := EventsOf(AddressKey, x, es);
            var (cells, pairs) := RunJoiner(es);
            var (c, out) := (At(cells, x, EMPTY_PAIR), ResultsOf(x, pairs));
            && OneSided(c)
            && (forall m | m in out :: m.0.addressId == x == m.1.addressId)
            && multiset(mine) == multiset(Used(out)) + Pending(c) + multiset(Overwritten(EMPTY_PAIR, mine))
            && |mine| == 2 * |out| + |Pending(c)| + |Overwritten(EMPTY_PAIR, mine)|
  {
    var mine := EventsOf(AddressKey, x, es);
    Projection(Pair, (c: PairCell) => true, (e: Arrival) => true, AddressKey, EMPTY_PAIR, map[], es, x);
    RunOneIsRunPair(EMPTY_PAIR, mine);
    OneShot(mine);
    PairsFromArrivals(EMPTY_PAIR, mine, x);
  }
}
