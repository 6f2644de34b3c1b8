/** Exactly when two runs of the job can collect different sales. */
module Divergence {
  import opened Basics
  import opened Records
  import opened Operators
  import opened Pairing
  import opened Keyed
  import opened Pipeline
  import opened BatchJoin
  import opened Enrichment
  import opened Conservation
  import opened Feasibility
  import opened Confluence

  /** A run from the sources that empties all channels. */
  predicate Drains(inp: Inputs, acts: seq<Action>) {
    Runs(Init(inp), acts) && Drained(After(Init(inp), acts))
  }

  function Output(inp: Inputs, acts: seq<Action>): seq<Sale>
    requires Runs(Init(inp), acts)
  {
    After(Init(inp), acts).sales[4]
  }

  // ---------- Putting runs together ----------

  lemma {:induction false} RunsConcat(st: State, acts: seq<Action>, more: seq<Action>)
    requires Shape(st) && Runs(st, acts) && Runs(After(st, acts), more)
    ensures Runs(st, acts + more) && After(st, acts + more) == After(After(st, acts), more)
    decreases acts
  {
    TailOfConcat(acts, more);
    if acts != [] {
      NextKeepsShape(st, acts[0]);
      RunsConcat(Next(st, acts[0]), acts[1..], more);
    }
  }

  lemma RunsOne(st: State, a: Action)
    requires Shape(st) && Enabled(st, a)
    ensures Shape(Next(st, a)) && Runs(st, [a]) && After(st, [a]) == Next(st, a)
  {
    NextKeepsShape(st, a);
    assert [a][1..] == [];
    assert Runs(Next(st, a), []);
  }

  lemma RunsMore(st: State, a: Action, more: seq<Action>)
    requires Shape(st) && Enabled(st, a) && Shape(Next(st, a)) && Runs(Next(st, a), more)
    ensures Runs(st, [a] + more) && After(st, [a] + more) == After(Next(st, a), more)
  {
    assert ([a] + more)[1..] == more;
  }

  lemma {:induction false} RunKeepsHeld(st: State, acts: seq<Action>, k: Stage, r: Ref)
    requires Shape(st) && Runs(st, acts) && Held(st, k, r)
    ensures Held(After(st, acts), k, r)
    decreases acts
  {
    if acts != [] {
      StepKeepsHeld(st, acts[0], k, r);
      RunKeepsHeld(Next(st, acts[0]), acts[1..], k, r);
    }
  }

  // ---------- A sale whose records have all arrived is collected ----------

  /** Every stage has stored a record for the sale. */
  predicate Served(st: State, s: Sale)
    requires Shape(st)
  {
    forall k: Stage :: PassesThrough(k, s) || At(st.cells[k], SaleKey(k, s), EMPTY_CELL).ref.Some?
  }

  lemma ServedDoesNotWait(st: State, k: Stage, s: Sale)
    requires Shape(st) && Drained(st) && Served(st, s)
    ensures Strip(s) !in InStage(st, k)
  {
    if Strip(s) in Buffered(st.cells[k]) {
      var x := SumHas(Buffers(st.cells[k]), Strip(s));
      var c := st.cells[k][x];
      assert CellInv(k, x, c);
      var w := OfMap(c.waiting, Strip(s));
      assert SaleKey(k, w) == x && !PassesThrough(k, w);
      StripKeepsIds(w, s);
      assert false;
    }
    assert st.sales[k] == [];
  }

  lemma StripKeepsIds(s: Sale, t: Sale)
    requires Strip(s) == Strip(t)
    ensures SameIds(s, t)
    ensures forall k: Stage :: SaleKey(k, s) == SaleKey(k, t) && (PassesThrough(k, s) <==> PassesThrough(k, t))
  {
  }

  lemma ServedIsCollected(inp: Inputs, acts: seq<Action>, s: Sale) returns (e: Sale)
    requires Drains(inp, acts) && s in inp.sales && Served(After(Init(inp), acts), s)
    ensures e in Output(inp, acts) && SameIds(e, s)
  {
    var st := After(Init(inp), acts);
    NoSaleLostOrDuplicated(inp, acts);
    InMap(inp.sales, s);
    ServedDoesNotWait(st, BILLING, s);
    ServedDoesNotWait(st, SHIPPING, s);
    ServedDoesNotWait(st, ITEM, s);
    ServedDoesNotWait(st, PROMO, s);
    e := OfMap(st.sales[4], Strip(s));
    StripKeepsIds(e, s);
  }

  // ---------- Draining, with the records of one stage left to the end ----------

  /** Nothing is on its way but records to stage k; with k = 4 nothing at all. */
  predicate OnlyRefsOf(st: State, k: nat)
    requires Shape(st)
  {
    && st.customers == [] && st.cleaned == [] && st.addresses == []
    && forall j: Stage :: st.sales[j] == [] && (j != k ==> st.refs[j] == [])
  }

  predicate Spares(k: nat, a: Action) {
    !(a.TakeRef? && a.k == k)
  }

  lemma SomeAction(st: State, k: nat) returns (a: Action)
    requires Shape(st) && !OnlyRefsOf(st, k)
    ensures Enabled(st, a) && Spares(k, a)
  {
    if st.customers != [] {
      a := CleanCustomer(0);
    } else if st.cleaned != [] {
      a := TakeCustomer(0);
    } else if st.addresses != [] {
      a := TakeAddress(0);
    } else {
      var j: Stage :| st.sales[j] != [] || (j != k && st.refs[j] != []);
      a := if st.sales[j] != [] then TakeSale(j, 0) else TakeRef(j, 0);
    }
  }

  lemma {:induction false} DrainSparing(st: State, k: nat) returns (acts: seq<Action>)
    requires Shape(st)
    ensures Runs(st, acts) && OnlyRefsOf(After(st, acts), k)
    ensures forall i :: 0 <= i < |acts| ==> Spares(k, acts[i])
    decreases |st.customers|, |st.cleaned|, |st.addresses|,
              |st.refs[0]|, |st.refs[1]|, |st.refs[2]|, |st.refs[3]|,
              |st.sales[0]|, |st.sales[1]|, |st.sales[2]|, |st.sales[3]|
  {
    if OnlyRefsOf(st, k) {
      acts := [];
    } else {
      var a := SomeAction(st, k);
      NextKeepsShape(st, a);
      var rest := DrainSparing(Next(st, a), k);
      RunsMore(st, a, rest);
      acts := [a] + rest;
    }
  }

  // ---------- A run in which one record comes first ----------

  /** The sales of key x, as stage k keys them, that carry r from stage k. */
  predicate AllCarry(k: Stage, x: Key, r: Ref, ss: seq<Sale>) {
    forall i :: 0 <= i < |ss| ==> SaleKey(k, ss[i]) == x && !PassesThrough(k, ss[i]) ==> Attached(k, ss[i]) == Some(r)
  }

  /** All sales of the key beyond stage k carry r. */
  predicate BeyondCarry(st: State, k: Stage, x: Key, r: Ref)
    requires Shape(st)
  {
    && (forall j :: k < j < 5 ==> AllCarry(k, x, r, st.sales[j]))
    && (forall j: Stage :: k < j ==> forall y | y in st.cells[j] :: AllCarry(k, x, r, st.cells[j][y].waiting))
  }

  lemma EnrichKeepsCarry(k: Stage, x: Key, r: Ref, j: Stage, ss: seq<Sale>, q: Ref)
    requires k < j && Fits(j, q) && AllCarry(k, x, r, ss)
    ensures AllCarry(k, x, r, EnrichAll(j, ss, q))
  {
  }

  lemma ProcessBeyond(k: Stage, x: Key, r: Ref, j: Stage, c: Cell, e: Event)
    requires k < j && CellFits(j, c) && EventFits(j, e) && AllCarry(k, x, r, c.waiting)
    requires e.SaleArrives? ==> AllCarry(k, x, r, [e.sale])
    ensures AllCarry(k, x, r, Process(j, c, e).0.waiting) && AllCarry(k, x, r, Process(j, c, e).1)
  {
    match e
    case SaleArrives(s) => assert [s][0] == s;
    case RefArrives(q) => EnrichKeepsCarry(k, x, r, j, c.waiting, q);
  }

  /** What stage k itself hands on while r is stored under x. */
  lemma ProcessHere(k: Stage, x: Key, r: Ref, y: Key, c: Cell, e: Event)
    requires CellInv(k, y, c) && EventFits(k, e) && EventKey(k, e) == y && Fits(k, r)
    requires y == x ==> c.ref.Some? && (e.SaleArrives? ==> c.ref == Some(r))
    ensures AllCarry(k, x, r, Process(k, c, e).1)
  {
  }

  lemma EnterKeepsBeyond(st: State, k: Stage, x: Key, r: Ref, j: Stage, y: Key, e: Event)
    requires Shape(st) && EventFits(j, e) && EventKey(j, e) == y && Shape(Enter(st, j, y, e)) && Fits(k, r)
    requires BeyondCarry(st, k, x, r)
    requires j > k && e.SaleArrives? ==> AllCarry(k, x, r, [e.sale])
    requires j == k && y == x ==>
               At(st.cells[k], x, EMPTY_CELL).ref.Some? && (e.SaleArrives? ==> At(st.cells[k], x, EMPTY_CELL).ref == Some(r))
    ensures BeyondCarry(Enter(st, j, y, e), k, x, r)
  {
    var c := At(st.cells[j], y, EMPTY_CELL);
    assert CellInv(j, y, c);
    if j > k {
      ProcessBeyond(k, x, r, j, c, e);
    } else if j == k {
      ProcessHere(k, x, r, y, c, e);
    }
  }

  lemma TakeSaleKeepsBeyond(st: State, k: Stage, x: Key, r: Ref, j: Stage, i: nat)
    requires Shape(st) && i < |st.sales[j]| && Shape(Next(st, TakeSale(j, i))) && Fits(k, r)
    requires BeyondCarry(st, k, x, r)
    requires j == k ==> At(st.cells[k], x, EMPTY_CELL).ref == Some(r)
    ensures BeyondCarry(Next(st, TakeSale(j, i)), k, x, r)
  {
    var s := st.sales[j][i];
    var mid := st.(sales := st.sales[j := Without(st.sales[j], i)]);
    assert j > k ==> AllCarry(k, x, r, [s]);
    assert BeyondCarry(mid, k, x, r);
    EnterKeepsBeyond(mid, k, x, r, j, SaleKey(j, s), SaleArrives(s));
  }

  lemma TakeRefKeepsBeyond(st: State, k: Stage, x: Key, r: Ref, j: Stage, i: nat)
    requires Shape(st) && i < |st.refs[j]| && Shape(Next(st, TakeRef(j, i))) && Fits(k, r)
    requires BeyondCarry(st, k, x, r)
    requires j == k ==> At(st.cells[k], x, EMPTY_CELL).ref.Some?
    ensures BeyondCarry(Next(st, TakeRef(j, i)), k, x, r)
  {
    var q := st.refs[j][i];
    RefsFitWithout(j, st.refs[j], i);
    var mid := st.(refs := st.refs[j := Without(st.refs[j], i)]);
    assert BeyondCarry(mid, k, x, r);
    EnterKeepsBeyond(mid, k, x, r, j, RefKey(q), RefArrives(q));
  }

  /** Stage k has r stored under x, and all sales of the key beyond carry it. */
  predicate Carrying(st: State, k: Stage, x: Key, r: Ref)
    requires Shape(st)
  {
    At(st.cells[k], x, EMPTY_CELL).ref == Some(r) && BeyondCarry(st, k, x, r)
  }

  lemma StepKeepsCarrying(st: State, a: Action, k: Stage, x: Key, r: Ref)
    requires Shape(st) && Enabled(st, a) && Spares(k, a) && Carrying(st, k, x, r) && Fits(k, r)
    ensures Shape(Next(st, a)) && Carrying(Next(st, a), k, x, r)
  {
    NextKeepsShape(st, a);
    match a
    case TakeSale(j, i) => TakeSaleKeepsBeyond(st, k, x, r, j, i);
    case TakeRef(j, i) => TakeRefKeepsBeyond(st, k, x, r, j, i);
    case _ =>
  }

  lemma {:induction false} RunKeepsCarrying(st: State, acts: seq<Action>, k: Stage, x: Key, r: Ref)
    requires Shape(st) && Runs(st, acts) && Carrying(st, k, x, r) && Fits(k, r)
    requires forall i :: 0 <= i < |acts| ==> Spares(k, acts[i])
    ensures Carrying(After(st, acts), k, x, r)
    decreases acts
  {
    if acts != [] {
      StepKeepsCarrying(st, acts[0], k, x, r);
      RunKeepsCarrying(Next(st, acts[0]), acts[1..], k, x, r);
    }
  }

  /** No more sales can reach stage k, and those of the key beyond carry r. */
  predicate Passed(st: State, k: Stage, x: Key, r: Ref)
    requires Shape(st)
  {
    && st.customers == [] && st.cleaned == [] && st.addresses == []
    && (forall j: Stage :: j <= k ==> st.sales[j] == [])
    && (forall j: Stage :: j < k ==> st.refs[j] == [])
    && At(st.cells[k], x, EMPTY_CELL).ref.Some? && BeyondCarry(st, k, x, r)
  }

  lemma StepKeepsPassed(st: State, a: Action, k: Stage, x: Key, r: Ref)
    requires Shape(st) && Enabled(st, a) && Passed(st, k, x, r) && Fits(k, r)
    ensures Shape(Next(st, a)) && Passed(Next(st, a), k, x, r)
  {
    NextKeepsShape(st, a);
    match a
    case TakeSale(j, i) => TakeSaleKeepsBeyond(st, k, x, r, j, i);
    case TakeRef(j, i) => TakeRefKeepsBeyond(st, k, x, r, j, i);
    case _ =>
  }

  lemma {:induction false} RunKeepsPassed(st: State, acts: seq<Action>, k: Stage, x: Key, r: Ref)
    requires Shape(st) && Runs(st, acts) && Passed(st, k, x, r) && Fits(k, r)
    ensures Passed(After(st, acts), k, x, r)
    decreases acts
  {
    if acts != [] {
      StepKeepsPassed(st, acts[0], k, x, r);
      RunKeepsPassed(Next(st, acts[0]), acts[1..], k, x, r);
    }
  }

  /** No sale has been taken and no record has reached a stage. */
  predicate Fresh(st: State)
    requires Shape(st)
  {
    (forall j: Stage :: st.cells[j] == map[]) && (forall j :: 0 < j < 5 ==> st.sales[j] == [])
  }

  lemma FirstRecord(st: State, k: Stage, i: nat)
    requires Shape(st) && Fresh(st) && i < |st.refs[k]|
    ensures Shape(Next(st, TakeRef(k, i))) && Carrying(Next(st, TakeRef(k, i)), k, RefKey(st.refs[k][i]), st.refs[k][i])
  {
    NextKeepsShape(st, TakeRef(k, i));
    RefsFitWithout(k, st.refs[k], i);
    assert EnrichAll(k, [], st.refs[k][i]) == [];
    AppendNothing(st.sales, k + 1);
    assert Next(st, TakeRef(k, i)).sales == st.sales;
  }

  /** From a fresh state: the record is taken first, then all but the records of its stage, then those. */
  lemma CarryRun(st: State, k: Stage, r: Ref) returns (acts: seq<Action>)
    requires Shape(st) && Fresh(st) && r in st.refs[k]
    ensures Runs(st, acts) && Drained(After(st, acts))
    ensures AllCarry(k, RefKey(r), r, After(st, acts).sales[4])
  {
    var i :| 0 <= i < |st.refs[k]| && st.refs[k][i] == r;
    FirstRecord(st, k, i);
    var st1 := Next(st, TakeRef(k, i));
    var middle := DrainSparing(st1, k);
    RunKeepsCarrying(st1, middle, k, RefKey(r), r);
    var st2 := After(st1, middle);
    var last := DrainSparing(st2, 4);
    RunKeepsPassed(st2, last, k, RefKey(r), r);
    RunsConcat(st1, middle, last);
    RunsMore(st, TakeRef(k, i), middle + last);
    acts := [TakeRef(k, i)] + (middle + last);
  }

  // ---------- Joining a customer with an address first ----------

  lemma NoBroadcast(refs: seq<seq<Ref>>)
    requires |refs| == 4
    ensures Broadcast(refs, []) == refs
  {
    var none := Map(c => OfCustomer(c), Collected([]));
    assert none == [];
    AppendNothing(refs, BILLING);
    AppendNothing(refs, SHIPPING);
  }

  lemma MakePair(st: State, i: nat, j: nat) returns (acts: seq<Action>)
    requires Shape(st) && st.cleaned == [] && i < |st.customers| && j < |st.addresses|
    requires st.customers[i].addressId == st.addresses[j].addressId
    requires At(st.pairs, st.customers[i].addressId, EMPTY_PAIR) == EMPTY_PAIR
    ensures Runs(st, acts)
    ensures After(st, acts) == Paired(st, i, j, After(st, acts).pairs)
    ensures forall y :: At(After(st, acts).pairs, y, EMPTY_PAIR) == At(st.pairs, y, EMPTY_PAIR)
  {
    var st1 := Next(st, CleanCustomer(i));
    NextKeepsShape(st, CleanCustomer(i));
    var st2 := Next(st1, TakeCustomer(0));
    NextKeepsShape(st1, TakeCustomer(0));
    NoBroadcast(st1.refs);
    var st3 := Next(st2, TakeAddress(j));
    NextKeepsShape(st2, TakeAddress(j));
    RunsOne(st2, TakeAddress(j));
    RunsMore(st1, TakeCustomer(0), [TakeAddress(j)]);
    RunsMore(st, CleanCustomer(i), [TakeCustomer(0)] + [TakeAddress(j)]);
    acts := [CleanCustomer(i)] + ([TakeCustomer(0)] + [TakeAddress(j)]);
    var m := (Clean(st.customers[i]), st.addresses[j]);
    assert Map(c => OfCustomer(c), Collected([m])) == [Joined(m)];
  }

  /** The state in which the i-th customer has been joined with the j-th address. */
  function Paired(st: State, i: nat, j: nat, pairs: map<Id, PairCell>): State
    requires Shape(st) && i < |st.customers| && j < |st.addresses|
  {
    var r := Joined((Clean(st.customers[i]), st.addresses[j]));
    st.(customers := Without(st.customers, i), addresses := Without(st.addresses, j), pairs := pairs,
        refs := st.refs[BILLING := st.refs[BILLING] + [r]][SHIPPING := st.refs[SHIPPING] + [r]])
  }

  lemma {:induction false} EntriesHas(addresses: seq<Address>, x: Id) returns (j: nat)
    requires Entries(addresses, x) >= 1
    ensures j < |addresses| && addresses[j].addressId == x
  {
    if addresses[0].addressId == x {
      j := 0;
    } else {
      var i := EntriesHas(addresses[1..], x);
      j := i + 1;
    }
  }

  /** The sale's two customers have been joined and their records are on the way to both joins. */
  predicate Ready(inp: Inputs, st: State, s: Sale, bill: Ref, ship: Ref)
    requires Shape(st)
  {
    && Fresh(st) && st.refs[ITEM] == Table(inp, ITEM) && st.refs[PROMO] == Table(inp, PROMO)
    && bill in Table(inp, BILLING) && RefKey(bill) == SaleKey(BILLING, s) && bill in st.refs[BILLING]
    && ship in Table(inp, SHIPPING) && RefKey(ship) == SaleKey(SHIPPING, s) && ship in st.refs[SHIPPING]
  }

  lemma FirstPair(inp: Inputs, c: Customer, a: Address) returns (acts: seq<Action>, i: nat, j: nat)
    requires c in inp.customers && a in inp.addresses && c.addressId == a.addressId
    ensures i < |inp.customers| && inp.customers[i] == c && j < |inp.addresses| && inp.addresses[j] == a
    ensures Runs(Init(inp), acts)
    ensures var st := After(Init(inp), acts);
            && st == Paired(Init(inp), i, j, st.pairs)
            && (forall y :: At(st.pairs, y, EMPTY_PAIR) == EMPTY_PAIR)
  {
    i :| 0 <= i < |inp.customers| && inp.customers[i] == c;
    j :| 0 <= j < |inp.addresses| && inp.addresses[j] == a;
    acts := MakePair(Init(inp), i, j);
  }

  lemma OtherAddress(addresses: seq<Address>, j: nat, b: Address) returns (l: nat)
    requires j < |addresses| && b in addresses
    requires addresses[j].addressId != b.addressId || Entries(addresses, b.addressId) >= 2
    ensures l < |Without(addresses, j)| && Without(addresses, j)[l].addressId == b.addressId
    ensures Without(addresses, j)[l] in addresses
  {
    WithoutParts(addresses, j);
    if addresses[j].addressId != b.addressId {
      InWithout(addresses, j, b);
      l :| 0 <= l < |Without(addresses, j)| && Without(addresses, j)[l] == b;
    } else {
      EntriesWithout(addresses, j, b.addressId);
      l := EntriesHas(Without(addresses, j), b.addressId);
    }
  }

  lemma SecondPair(inp: Inputs, st: State, i: nat, j: nat, d: Customer, b: Address)
    returns (acts: seq<Action>, r: Ref)
    requires i < |inp.customers| && j < |inp.addresses| && Shape(st) && st == Paired(Init(inp), i, j, st.pairs)
    requires forall y :: At(st.pairs, y, EMPTY_PAIR) == EMPTY_PAIR
    requires d in inp.customers && d != inp.customers[i] && b in inp.addresses && d.addressId == b.addressId
    requires inp.addresses[j].addressId != b.addressId || Entries(inp.addresses, b.addressId) >= 2
    ensures Runs(st, acts)
    ensures r in Table(inp, SHIPPING) && RefKey(r) == ById(d.customerId)
    ensures var st' := After(st, acts);
            && st'.sales == st.sales && st'.cells == st.cells && st'.refs[ITEM] == st.refs[ITEM] && st'.refs[PROMO] == st.refs[PROMO]
            && r in st'.refs[SHIPPING] && forall q | q in st.refs[BILLING] :: q in st'.refs[BILLING]
  {
    InWithout(inp.customers, i, d);
    var m :| 0 <= m < |st.customers| && st.customers[m] == d;
    var l := OtherAddress(inp.addresses, j, b);
    acts := MakePair(st, m, l);
    r := Joined((Clean(d), st.addresses[l]));
    PairInTable(inp, SHIPPING, d, st.addresses[l]);
  }

  lemma FirstIsReady(inp: Inputs, s: Sale, st: State, i: nat, j: nat)
    requires i < |inp.customers| && j < |inp.addresses| && inp.customers[i].addressId == inp.addresses[j].addressId
    requires Shape(st) && st == Paired(Init(inp), i, j, st.pairs)
    requires inp.customers[i].customerId == s.billCustomerId
    ensures var r := Joined((Clean(inp.customers[i]), inp.addresses[j]));
            && r in Table(inp, BILLING) && RefKey(r) == SaleKey(BILLING, s)
            && r in st.refs[BILLING] && r in st.refs[SHIPPING]
            && Fresh(st) && st.refs[ITEM] == Table(inp, ITEM) && st.refs[PROMO] == Table(inp, PROMO)
  {
    PairInTable(inp, BILLING, inp.customers[i], inp.addresses[j]);
  }

  lemma FeasibleStart(inp: Inputs, s: Sale) returns (acts: seq<Action>, bill: Ref, ship: Ref)
    requires Feasible(inp, s)
    ensures Runs(Init(inp), acts) && Ready(inp, After(Init(inp), acts), s, bill, ship)
  {
    var c, a, d, b :| c in inp.customers && a in inp.addresses && d in inp.customers && b in inp.addresses
                      && Couple(inp, s, c, a, d, b);
    acts, bill, ship := CoupleStart(inp, s, c, a, d, b);
  }

  lemma CoupleStart(inp: Inputs, s: Sale, c: Customer, a: Address, d: Customer, b: Address)
    returns (acts: seq<Action>, bill: Ref, ship: Ref)
    requires c in inp.customers && a in inp.addresses && d in inp.customers && b in inp.addresses
    requires Couple(inp, s, c, a, d, b)
    ensures Runs(Init(inp), acts) && Ready(inp, After(Init(inp), acts), s, bill, ship)
  {
    var first, i, j := FirstPair(inp, c, a);
    var st := After(Init(inp), first);
    FirstIsReady(inp, s, st, i, j);
    bill := Joined((Clean(c), a));
    if Core(c) == Core(d) {
      SameCoreSameId(c, d);
      acts, ship := first, bill;
    } else {
      var second, r := SecondPair(inp, st, i, j, d, b);
      RunsConcat(Init(inp), first, second);
      acts, ship := first + second, r;
    }
  }

  lemma SameCoreSameId(c: Customer, d: Customer)
    requires Core(c) == Core(d)
    ensures c.customerId == d.customerId
  {
    assert Core(c).customerId == c.customerId && Core(d).customerId == d.customerId;
  }

  // ---------- Every feasible sale is collected in some run ----------

  lemma HeldIsStored(st: State, acts: seq<Action>, k: Stage, r: Ref)
    requires Shape(st) && Runs(st, acts) && Drained(After(st, acts)) && r in st.refs[k]
    ensures At(After(st, acts).cells[k], RefKey(r), EMPTY_CELL).ref.Some?
  {
    assert Held(st, k, r);
    RunKeepsHeld(st, acts, k, r);
  }

  lemma ReadyIsServed(inp: Inputs, st: State, acts: seq<Action>, s: Sale, bill: Ref, ship: Ref)
    requires Shape(st) && Ready(inp, st, s, bill, ship) && HasMatch(inp, ITEM, s) && HasMatch(inp, PROMO, s)
    requires Runs(st, acts) && Drained(After(st, acts))
    ensures Served(After(st, acts), s)
  {
    HeldIsStored(st, acts, BILLING, bill);
    HeldIsStored(st, acts, SHIPPING, ship);
    HeldIsStored(st, acts, ITEM, Lookup(SaleKey(ITEM, s), Table(inp, ITEM)));
    if !PassesThrough(PROMO, s) {
      HeldIsStored(st, acts, PROMO, Lookup(SaleKey(PROMO, s), Table(inp, PROMO)));
    }
    forall k: Stage
      ensures PassesThrough(k, s) || At(After(st, acts).cells[k], SaleKey(k, s), EMPTY_CELL).ref.Some?
    {
      assert k == BILLING || k == SHIPPING || k == ITEM || k == PROMO;
    }
  }

  /** A run that collects the sale, with all sales of its key at stage k carrying one record. */
  lemma CollectingRun(inp: Inputs, s: Sale, k: Stage) returns (acts: seq<Action>, r: Ref, e: Sale)
    requires s in inp.sales && Feasible(inp, s) && !PassesThrough(k, s)
    ensures Drains(inp, acts) && e in Output(inp, acts) && SameIds(e, s)
    ensures r in Table(inp, k) && RefKey(r) == SaleKey(k, s) && Attached(k, e) == Some(r)
  {
    var start, bill, ship := FeasibleStart(inp, s);
    var st := After(Init(inp), start);
    r := if k == BILLING then bill else if k == SHIPPING then ship else Lookup(SaleKey(k, s), Table(inp, k));
    var rest := CarryRun(st, k, r);
    ReadyIsServed(inp, st, rest, s, bill, ship);
    RunsConcat(Init(inp), start, rest);
    acts := start + rest;
    e := ServedIsCollected(inp, acts, s);
    assert SaleKey(k, e) == SaleKey(k, s) && !PassesThrough(k, e);
    var out := Output(inp, acts);
    var n :| 0 <= n < |out| && out[n] == e;
  }

  /** With no assumption on ids: a source sale is collected in some run that drains the pipeline iff it is
      feasible. */
  lemma CollectableIff(inp: Inputs, s: Sale)
    requires s in inp.sales
    ensures Feasible(inp, s) <==> exists acts, e :: Drains(inp, acts) && e in Output(inp, acts) && SameIds(e, s)
  {
    if Feasible(inp, s) {
      var acts, r, e := CollectingRun(inp, s, BILLING);
    }
    if acts, e :| Drains(inp, acts) && e in Output(inp, acts) && SameIds(e, s) {
      CollectedIsFeasible(inp, acts, e);
      SameIdsFeasible(inp, e, s);
    }
  }

  // ---------- Two records of one key ----------

  /** A run in which no collected sale of the key carries any other record than r. */
  lemma RecordRun(inp: Inputs, k: Stage, r: Ref) returns (acts: seq<Action>)
    requires r in Table(inp, k)
    ensures Drains(inp, acts) && AllCarry(k, RefKey(r), r, Output(inp, acts))
  {
    var start: seq<Action> := [];
    if k <= SHIPPING {
      var c, a := JoinedFrom(inp, k, r);
      var i, j;
      start, i, j := FirstPair(inp, c, a);
    }
    var rest := CarryRun(After(Init(inp), start), k, r);
    RunsConcat(Init(inp), start, rest);
    acts := start + rest;
  }

  lemma RecordsDiverge(inp: Inputs, s: Sale, k: Stage) returns (acts: seq<Action>, others: seq<Action>)
    requires s in inp.sales && Feasible(inp, s) && !OneRecord(inp, k, s)
    ensures Drains(inp, acts) && Drains(inp, others)
    ensures multiset(Output(inp, acts)) != multiset(Output(inp, others))
  {
    var r, e;
    acts, r, e := CollectingRun(inp, s, k);
    var q :| q in Table(inp, k) && RefKey(q) == SaleKey(k, s) && q != r;
    others := RecordRun(inp, k, q);
    var out := Output(inp, others);
    assert SaleKey(k, e) == RefKey(q) && !PassesThrough(k, e);
    assert forall n :: 0 <= n < |out| ==> out[n] != e;
    assert e in multiset(Output(inp, acts)) && e !in multiset(out);
  }

  // ---------- A rival for the address ----------

  /** Records to the customer joins are not of this id. */
  ghost function NotOf(y: Id): Trust {
    (k: int, r: Ref) => k <= SHIPPING ==> RefKey(r) != ById(y)
  }

  /** No customer of this id has been joined, and none ever will be. */
  ghost predicate Shut(st: State, y: Id)
    requires Shape(st)
  {
    && st.customers == [] && st.cleaned == [] && AllGood(st, NotOf(y))
    && forall a | a in st.addresses :: NotWaiting(st, a.addressId, y)
  }

  predicate NotWaiting(st: State, x: Id, y: Id) {
    var p := At(st.pairs, x, EMPTY_PAIR);
    p.customer.Some? ==> p.customer.value.customerId != y
  }

  lemma EmitsNoneOf(st: State, a: Action, y: Id)
    requires Shape(st) && Enabled(st, a) && Shut(st, y)
    ensures forall m | m in Emits(st, a) :: RefKey(Joined(m)) != ById(y)
  {
    if a.TakeAddress? {
      assert st.addresses[a.i] in st.addresses;
      assert NotWaiting(st, st.addresses[a.i].addressId, y);
    }
  }

  lemma StepKeepsShut(st: State, a: Action, y: Id)
    requires Shape(st) && Enabled(st, a) && Shut(st, y)
    ensures Shape(Next(st, a)) && Shut(Next(st, a), y)
  {
    EmitsNoneOf(st, a, y);
    StepGood(NotOf(y), st, a);
    if a.TakeAddress? {
      WithoutParts(st.addresses, a.i);
    }
  }

  lemma {:induction false} RunKeepsShut(st: State, acts: seq<Action>, y: Id)
    requires Shape(st) && Runs(st, acts) && Shut(st, y)
    ensures Shut(After(st, acts), y)
    decreases acts
  {
    if acts != [] {
      StepKeepsShut(st, acts[0], y);
      RunKeepsShut(Next(st, acts[0]), acts[1..], y);
    }
  }

  lemma {:induction false} CleanAll(st: State) returns (acts: seq<Action>)
    requires Shape(st)
    ensures Runs(st, acts)
    ensures After(st, acts) == st.(customers := [], cleaned := st.cleaned + Map(c => Clean(c), st.customers))
    decreases |st.customers|
  {
    if st.customers == [] {
      acts := [];
    } else {
      var a := CleanCustomer(0);
      NextKeepsShape(st, a);
      var rest := CleanAll(Next(st, a));
      RunsMore(st, a, rest);
      acts := [a] + rest;
      CleanedNext(st.cleaned, st.customers);
    }
  }

  lemma CleanedNext(cleaned: seq<Customer>, customers: seq<Customer>)
    requires customers != []
    ensures Without(customers, 0) == customers[1..]
    ensures cleaned + [Clean(customers[0])] + Map(c => Clean(c), customers[1..]) == cleaned + Map(c => Clean(c), customers)
  {
    ConcatAssoc(cleaned, [Clean(customers[0])], Map(c => Clean(c), customers[1..]));
  }

  /** Customers wait in the joiner, and no address does. */
  predicate NoAddressWaits(st: State) {
    forall x | x in st.pairs :: st.pairs[x].address.None?
  }

  /** Every customer in the joiner waits under its address id and is one of these. */
  predicate AllFrom(st: State, cs: seq<Customer>) {
    forall x | x in st.pairs :: st.pairs[x].customer.Some? ==>
      st.pairs[x].customer.value in cs && st.pairs[x].customer.value.addressId == x
  }

  lemma TakeOne(st: State, i: nat, cs: seq<Customer>)
    requires Shape(st) && i < |st.cleaned| && NoAddressWaits(st) && AllFrom(st, cs)
    requires forall c | c in st.cleaned :: c in cs
    ensures var st' := Next(st, TakeCustomer(i));
            && Shape(st') && NoAddressWaits(st') && AllFrom(st', cs)
            && st' == st.(cleaned := Without(st.cleaned, i), pairs := st'.pairs)
            && At(st'.pairs, st.cleaned[i].addressId, EMPTY_PAIR).customer == Some(st.cleaned[i])
            && forall c | c in st'.cleaned :: c in cs
  {
    NextKeepsShape(st, TakeCustomer(i));
    NoBroadcast(st.refs);
    WithoutParts(st.cleaned, i);
  }

  /** All cleaned customers are taken, this one last. */
  lemma {:induction false} TakeAll(st: State, d: Customer, cs: seq<Customer>) returns (acts: seq<Action>)
    requires Shape(st) && d in st.cleaned && NoAddressWaits(st) && AllFrom(st, cs)
    requires forall c | c in st.cleaned :: c in cs
    ensures Runs(st, acts)
    ensures var st' := After(st, acts);
            && st' == st.(cleaned := [], pairs := st'.pairs) && AllFrom(st', cs)
            && At(st'.pairs, d.addressId, EMPTY_PAIR).customer == Some(d)
    decreases |st.cleaned|
  {
    if |st.cleaned| == 1 {
      TakeOne(st, 0, cs);
      RunsOne(st, TakeCustomer(0));
      acts := [TakeCustomer(0)];
    } else {
      var i := if st.cleaned[0] == d then 1 else 0;
      assert d in Without(st.cleaned, i) by {
        if i == 0 {
          InWithout(st.cleaned, 0, d);
        } else {
          assert Without(st.cleaned, 1)[0] == d;
        }
      }
      TakeOne(st, i, cs);
      var rest := TakeAll(Next(st, TakeCustomer(i)), d, cs);
      RunsMore(st, TakeCustomer(i), rest);
      acts := [TakeCustomer(i)] + rest;
    }
  }

  /** All records of the id are equal. */
  predicate OneJoined(inp: Inputs, y: Id) {
    forall r, r' | r in Table(inp, BILLING) && r' in Table(inp, BILLING) :: RefKey(r) == ById(y) == RefKey(r') ==> r == r'
  }

  lemma RivalShuts(inp: Inputs, st: State, y: Id, c: Customer, d: Customer, a: Address)
    requires Shape(st) && OneJoined(inp, y) && c in inp.customers && a in inp.addresses
    requires c.customerId == y && c.addressId == d.addressId == a.addressId && Core(c) != Core(d)
    requires st.addresses == inp.addresses && AllFrom(st, Map(v => Clean(v), inp.customers))
    requires At(st.pairs, d.addressId, EMPTY_PAIR).customer == Some(Clean(d))
    ensures forall b | b in st.addresses :: NotWaiting(st, b.addressId, y)
  {
    forall b | b in st.addresses ensures NotWaiting(st, b.addressId, y) {
      var p := At(st.pairs, b.addressId, EMPTY_PAIR);
      if p.customer.Some? && p.customer.value.customerId == y {
        var v := SourceOf(inp.customers, p.customer.value);
        OneJoinedOneCore(inp, y, v, b, c, a);
        assert false;
      }
    }
  }

  lemma SourceOf(customers: seq<Customer>, v: Customer) returns (c: Customer)
    requires v in Map(c => Clean(c), customers)
    ensures c in customers && v == Clean(c)
  {
    var i :| 0 <= i < |customers| && Map(c => Clean(c), customers)[i] == v;
    c := customers[i];
  }

  lemma OneJoinedOneCore(inp: Inputs, y: Id, v: Customer, b: Address, c: Customer, a: Address)
    requires OneJoined(inp, y) && v in inp.customers && c in inp.customers && a in inp.addresses && b in inp.addresses
    requires v.customerId == y == c.customerId && v.addressId == b.addressId && c.addressId == a.addressId
    ensures Core(v) == Core(c) && v.addressId == c.addressId
  {
    PairInTable(inp, BILLING, v, b);
    PairInTable(inp, BILLING, c, a);
    SameJoinedSameCore(v, b, c, a);
  }

  lemma SameJoinedSameCore(v: Customer, b: Address, c: Customer, a: Address)
    requires Joined((Clean(v), b)) == Joined((Clean(c), a))
    ensures Core(v) == Core(c) && v.addressId == c.addressId
  {
    var w, w' := WithAddress(Clean(v), b), WithAddress(Clean(c), a);
    assert w.(address := None) == Core(v) && w'.(address := None) == Core(c);
    assert w.addressId == v.addressId && w'.addressId == c.addressId;
  }

  /** All customers arrive before any address, this one last. */
  lemma LastCustomer(inp: Inputs, d: Customer) returns (acts: seq<Action>)
    requires d in inp.customers
    ensures Runs(Init(inp), acts)
    ensures var st := After(Init(inp), acts);
            && st == Init(inp).(customers := [], pairs := st.pairs) && AllFrom(st, Map(v => Clean(v), inp.customers))
            && At(st.pairs, d.addressId, EMPTY_PAIR).customer == Some(Clean(d))
  {
    var cs := Map(v => Clean(v), inp.customers);
    var first := CleanAll(Init(inp));
    var st := After(Init(inp), first);
    var i :| 0 <= i < |inp.customers| && inp.customers[i] == d;
    assert st.cleaned == cs && cs[i] == Clean(d);
    var second := TakeAll(st, Clean(d), cs);
    RunsConcat(Init(inp), first, second);
    acts := first + second;
  }

  /** A run in which the rival has the first address, and the customer comes to nothing. */
  lemma RivalRun(inp: Inputs, y: Id, c: Customer, d: Customer, a: Address) returns (acts: seq<Action>)
    requires OneJoined(inp, y) && c in inp.customers && d in inp.customers && a in inp.addresses
    requires c.customerId == y && c.addressId == d.addressId == a.addressId && Core(c) != Core(d)
    ensures Drains(inp, acts) && Shut(After(Init(inp), acts), y)
  {
    var first := LastCustomer(inp, d);
    var st := After(Init(inp), first);
    RivalShuts(inp, st, y, c, d, a);
    InitAllGood(NotOf(y), inp);
    var second := DrainSparing(st, 4);
    RunKeepsShut(st, second, y);
    RunsConcat(Init(inp), first, second);
    acts := first + second;
  }

  lemma ShutCollectsNone(st: State, y: Id, e: Sale)
    requires Shape(st) && Shut(st, y) && e in st.sales[4]
    ensures e.billCustomerId != y && e.shipCustomerId != y
  {
    CollectedIsDone(NotOf(y), st, e);
  }

  lemma RivalDiverges(inp: Inputs, s: Sale, y: Id) returns (acts: seq<Action>, others: seq<Action>)
    requires s in inp.sales && Feasible(inp, s) && (s.billCustomerId == y || s.shipCustomerId == y)
    requires OneJoined(inp, y) && !NoRival(inp, y)
    ensures Drains(inp, acts) && Drains(inp, others)
    ensures multiset(Output(inp, acts)) != multiset(Output(inp, others))
  {
    var r, e;
    acts, r, e := CollectingRun(inp, s, BILLING);
    var c, d, a :| c in inp.customers && d in inp.customers && a in inp.addresses
                   && c.customerId == y && c.addressId == d.addressId == a.addressId && Core(c) != Core(d);
    others := RivalRun(inp, y, c, d, a);
    var out := Output(inp, others);
    if e in out {
      ShutCollectsNone(After(Init(inp), others), y, e);
      assert false;
    }
    assert e in multiset(Output(inp, acts)) && e !in multiset(out);
  }

  // ---------- The whole job ----------

  /** All runs that drain the pipeline collect the same sales. */
  ghost predicate AllAgree(inp: Inputs) {
    forall acts, others | Drains(inp, acts) && Drains(inp, others) ::
      multiset(Output(inp, acts)) == multiset(Output(inp, others))
  }

  lemma UnsteadyDiverges(inp: Inputs, s: Sale)
    requires s in inp.sales && Feasible(inp, s) && !Steady(inp, s)
    ensures !AllAgree(inp)
  {
    if k: Stage :| !OneRecord(inp, k, s) {
      var acts, others := RecordsDiverge(inp, s, k);
    } else {
      assert OneRecord(inp, BILLING, s) && OneRecord(inp, SHIPPING, s);
      var y := if !NoRival(inp, s.billCustomerId) then s.billCustomerId else s.shipCustomerId;
      var acts, others := RivalDiverges(inp, s, y);
    }
  }

  /** For all inputs, with no assumption on ids: all runs that drain the pipeline collect the same multiset of
      sales iff every sale that can be collected at all has, at each stage, records of its id that are all
      equal, and no other customer shares the address id of its customers where there is an address. */
  lemma ConfluentIff(inp: Inputs)
    ensures AllAgree(inp) <==> Settled(inp)
  {
    if Settled(inp) {
      forall acts | Drains(inp, acts)
        ensures multiset(Output(inp, acts)) == multiset(LookupJoin(inp, inp.sales))
      {
        EveryRunLooksUp(inp, acts);
      }
    } else {
      var s :| s in inp.sales && Feasible(inp, s) && !Steady(inp, s);
      UnsteadyDiverges(inp, s);
    }
  }
}
