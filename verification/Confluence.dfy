/** Every interleaving of the job that can agree does: what all of them compute, and when. */
module Confluence {
  import opened Basics
  import opened Records
  import opened Operators
  import opened Pairing
  import opened Keyed
  import opened Pipeline
  import opened BatchJoin
  import opened Enrichment
  import opened Conservation
  import opened Feasibility

  // ---------- Inputs on which all runs agree ----------

  /** No customer of this id shares its address id, when there is an address, with a different customer. */
  ghost predicate NoRival(inp: Inputs, y: Id) {
    forall c, d, a | c in inp.customers && d in inp.customers && a in inp.addresses ::
      c.customerId == y && c.addressId == d.addressId == a.addressId ==> Core(c) == Core(d)
  }

  /** All records of stage k with the sale's id are equal. */
  predicate OneRecord(inp: Inputs, k: Stage, s: Sale) {
    PassesThrough(k, s) ||
    forall r, r' | r in Table(inp, k) && r' in Table(inp, k) :: RefKey(r) == SaleKey(k, s) == RefKey(r') ==> r == r'
  }

  /** There is one way to enrich the sale, and its customers cannot be kept from their address. */
  ghost predicate Steady(inp: Inputs, s: Sale) {
    && (forall k: Stage :: OneRecord(inp, k, s))
    && NoRival(inp, s.billCustomerId) && NoRival(inp, s.shipCustomerId)
  }

  /** Every sale that can be collected at all is steady. */
  ghost predicate Settled(inp: Inputs) {
    forall s | s in inp.sales :: Feasible(inp, s) ==> Steady(inp, s)
  }

  /** A sale that can be collected names this customer. */
  ghost predicate Wanted(inp: Inputs, y: Id) {
    exists s | s in inp.sales :: Feasible(inp, s) && (s.billCustomerId == y || s.shipCustomerId == y)
  }

  // ---------- What the result is ----------

  /** The first record of the key. */
  function Lookup(x: Key, refs: seq<Ref>): (r: Ref)
    requires exists r | r in refs :: RefKey(r) == x
    ensures r in refs && RefKey(r) == x
  {
    if RefKey(refs[0]) == x then refs[0] else
      HeadTail(refs);
      Lookup(x, refs[1..])
  }

  function Attach(inp: Inputs, k: Stage, s: Sale): (e: Sale)
    requires HasMatch(inp, k, s)
    ensures SameIds(e, s)
  {
    if PassesThrough(k, s) then s else
      var r := Lookup(SaleKey(k, s), Table(inp, k));
      TableFits(inp, k, r);
      Enrich(k, s, r)
  }

  /** The sale as it leaves the stages from k on. */
  function Finish(inp: Inputs, k: nat, s: Sale): Sale
    requires Matched(inp, k, s)
    decreases 4 - k
  {
    if k >= 4 then s else
      SameIdsMatch(inp, Attach(inp, k, s), s);
      Finish(inp, k + 1, Attach(inp, k, s))
  }

  /** The sales that can be collected, each enriched by looking its records up. */
  ghost function LookupJoin(inp: Inputs, sales: seq<Sale>): seq<Sale> {
    if sales == [] then [] else
      (if Feasible(inp, sales[0]) then (FeasibleIsMatched(inp, sales[0]); [Finish(inp, 0, sales[0])]) else [])
      + LookupJoin(inp, sales[1..])
  }

  // ---------- Where a record that must arrive can be ----------

  /** r is on its way to stage k, or a record of its key is stored there. */
  predicate Held(st: State, k: Stage, r: Ref)
    requires Shape(st)
  {
    r in st.refs[k] || At(st.cells[k], RefKey(r), EMPTY_CELL).ref.Some?
  }

  predicate BothHeld(st: State, r: Ref)
    requires Shape(st)
  {
    Held(st, BILLING, r) && Held(st, SHIPPING, r)
  }

  /** The two halves of a joined customer are each still on their way, waiting for the other, or joined. */
  predicate Tracked(st: State, c: Customer, a: Address)
    requires Shape(st)
  {
    var p := At(st.pairs, c.addressId, EMPTY_PAIR);
    var joined := BothHeld(st, OfCustomer(WithAddress(Clean(c), a)));
    && (c in st.customers || HasLike(st.cleaned, c) || (p.customer.Some? && Core(p.customer.value) == Core(c)) || joined)
    && (a in st.addresses || p.address == Some(a) || joined)
  }

  predicate HasLike(cs: seq<Customer>, c: Customer) {
    exists d | d in cs :: Core(d) == Core(c)
  }

  lemma LikeWithout(cs: seq<Customer>, i: nat, c: Customer)
    requires i < |cs| && HasLike(cs, c) && Core(cs[i]) != Core(c)
    ensures HasLike(Without(cs, i), c)
  {
    var d :| d in cs && Core(d) == Core(c);
    InWithout(cs, i, d);
  }

  lemma SameCoreSameJoined(v: Customer, c: Customer, a: Address)
    requires v == Clean(v) && Core(v) == Core(c)
    ensures Joined((v, a)) == OfCustomer(WithAddress(Clean(c), a))
  {
  }

  ghost predicate Complete(inp: Inputs, st: State)
    requires Shape(st)
  {
    && (forall c, a | c in inp.customers && a in inp.addresses ::
          c.addressId == a.addressId && Wanted(inp, c.customerId) ==> Tracked(st, c, a))
    && (forall r | r in Table(inp, ITEM) :: Held(st, ITEM, r))
    && (forall r | r in Table(inp, PROMO) :: Held(st, PROMO, r))
  }

  lemma InWithout<T>(s: seq<T>, i: nat, x: T)
    requires i < |s| && x in s && x != s[i]
    ensures x in Without(s, i)
  {
  }

  /** Handing a record to its stage keeps hold of every record. */
  lemma TakeKeepsHeld(st: State, a: Action, j: Stage, r: Ref)
    requires Shape(st) && Enabled(st, a) && (a.TakeSale? || a.TakeRef?) && Held(st, j, r)
    ensures Shape(Next(st, a)) && Held(Next(st, a), j, r)
  {
    NextKeepsShape(st, a);
    if a.TakeRef? && a.k == j && r in st.refs[j] && r != st.refs[j][a.i] {
      InWithout(st.refs[j], a.i, r);
    }
  }

  lemma JoinKeepsHeld(st: State, e: Arrival, j: Stage, r: Ref)
    requires Shape(st) && Held(st, j, r) && Shape(Join(st, e))
    ensures Held(Join(st, e), j, r)
  {
  }

  lemma StepKeepsHeld(st: State, a: Action, j: Stage, r: Ref)
    requires Shape(st) && Enabled(st, a) && Held(st, j, r)
    ensures Shape(Next(st, a)) && Held(Next(st, a), j, r)
  {
    NextKeepsShape(st, a);
    match a
    case CleanCustomer(_) =>
    case TakeCustomer(i) => JoinKeepsHeld(st.(cleaned := Without(st.cleaned, i)), CustomerArrives(st.cleaned[i]), j, r);
    case TakeAddress(i) => JoinKeepsHeld(st.(addresses := Without(st.addresses, i)), AddressArrives(st.addresses[i]), j, r);
    case _ => TakeKeepsHeld(st, a, j, r);
  }

  lemma PairEmits(st: State, e: Arrival, m: Match)
    requires Shape(st) && Shape(Join(st, e))
    requires Pair(At(st.pairs, AddressKey(e), EMPTY_PAIR), e).1 == [m]
    ensures BothHeld(Join(st, e), Joined(m))
  {
  }

  /** The customer is wanted, and the address is one of its id. */
  ghost predicate WantedPair(inp: Inputs, c: Customer, a: Address) {
    c in inp.customers && a in inp.addresses && c.addressId == a.addressId && Wanted(inp, c.customerId)
  }

  lemma WantedBy(inp: Inputs, y: Id) returns (s: Sale, k: Stage)
    requires Wanted(inp, y)
    ensures s in inp.sales && Feasible(inp, s) && k <= SHIPPING && SaleKey(k, s) == ById(y)
  {
    s :| s in inp.sales && Feasible(inp, s) && (s.billCustomerId == y || s.shipCustomerId == y);
    k := if s.billCustomerId == y then BILLING else SHIPPING;
  }

  lemma SameRecord(inp: Inputs, k: Stage, s: Sale, r: Ref, r': Ref)
    requires OneRecord(inp, k, s) && !PassesThrough(k, s)
    requires r in Table(inp, k) && r' in Table(inp, k) && RefKey(r) == SaleKey(k, s) == RefKey(r')
    ensures r == r'
  {
  }

  lemma OneAddress(inp: Inputs, c: Customer, a: Address, b: Address)
    requires Settled(inp) && WantedPair(inp, c, a) && WantedPair(inp, c, b)
    ensures a == b
  {
    var s, k := WantedBy(inp, c.customerId);
    assert OneRecord(inp, k, s);
    PairInTable(inp, k, c, a);
    PairInTable(inp, k, c, b);
    SameRecord(inp, k, s, Joined((Clean(c), a)), Joined((Clean(c), b)));
  }

  lemma OneCustomer(inp: Inputs, c: Customer, a: Address, d: Customer)
    requires Settled(inp) && WantedPair(inp, c, a) && d in inp.customers && d.addressId == c.addressId
    ensures Core(c) == Core(d)
  {
    var s, k := WantedBy(inp, c.customerId);
  }

  /** Everything under the address id of a wanted customer with an address is like that customer or that address. */
  lemma SameAddressIdSame(inp: Inputs, st: State, c: Customer, a: Address)
    requires Settled(inp) && WantedPair(inp, c, a) && Shape(st) && PairsSound(inp, st)
    ensures var p := At(st.pairs, c.addressId, EMPTY_PAIR);
            && (p.customer.Some? ==> Core(p.customer.value) == Core(c) && p.customer.value == Clean(p.customer.value))
            && (p.address.Some? ==> p.address.value == a)
    ensures forall d | d in st.cleaned && d.addressId == c.addressId :: Core(d) == Core(c) && d == Clean(d)
    ensures forall b | b in st.addresses && b.addressId == c.addressId :: b == a
  {
    forall d | CleanedFrom(inp, d) && d.addressId == c.addressId ensures Core(d) == Core(c) && d == Clean(d) {
      var d0 :| d0 in inp.customers && d == Clean(d0);
      OneCustomer(inp, c, a, d0);
    }
    forall b | b in inp.addresses && b.addressId == c.addressId ensures b == a {
      OneAddress(inp, c, a, b);
    }
  }

  lemma CustomerKeepsTracked(inp: Inputs, st: State, i: nat, c: Customer, a: Address)
    requires Shape(st) && i < |st.cleaned| && PairsSound(inp, st) && Settled(inp)
    requires WantedPair(inp, c, a) && Tracked(st, c, a)
    requires Shape(Next(st, TakeCustomer(i)))
    ensures Tracked(Next(st, TakeCustomer(i)), c, a)
  {
    var x, d := c.addressId, st.cleaned[i];
    var r := OfCustomer(WithAddress(Clean(c), a));
    var mid := st.(cleaned := Without(st.cleaned, i));
    SameAddressIdSame(inp, st, c, a);
    if BothHeld(st, r) {
      JoinKeepsHeld(mid, CustomerArrives(d), BILLING, r);
      JoinKeepsHeld(mid, CustomerArrives(d), SHIPPING, r);
    } else if d.addressId == x {
      if At(st.pairs, x, EMPTY_PAIR).address.Some? {
        SameCoreSameJoined(d, c, a);
        PairEmits(mid, CustomerArrives(d), (d, a));
      }
    } else if HasLike(st.cleaned, c) {
      LikeWithout(st.cleaned, i, c);
    }
  }

  lemma AddressKeepsTracked(inp: Inputs, st: State, i: nat, c: Customer, a: Address)
    requires Shape(st) && i < |st.addresses| && PairsSound(inp, st) && Settled(inp)
    requires WantedPair(inp, c, a) && Tracked(st, c, a)
    requires Shape(Next(st, TakeAddress(i)))
    ensures Tracked(Next(st, TakeAddress(i)), c, a)
  {
    var x, b := c.addressId, st.addresses[i];
    var r := OfCustomer(WithAddress(Clean(c), a));
    var mid := st.(addresses := Without(st.addresses, i));
    SameAddressIdSame(inp, st, c, a);
    if BothHeld(st, r) {
      JoinKeepsHeld(mid, AddressArrives(b), BILLING, r);
      JoinKeepsHeld(mid, AddressArrives(b), SHIPPING, r);
    } else if b.addressId == x {
      var p := At(st.pairs, x, EMPTY_PAIR);
      if p.customer.Some? {
        SameCoreSameJoined(p.customer.value, c, a);
        PairEmits(mid, AddressArrives(b), (p.customer.value, b));
      }
    } else if a in st.addresses {
      InWithout(st.addresses, i, a);
    }
  }

  lemma LikeMore(cs: seq<Customer>, d: Customer, c: Customer)
    ensures HasLike(cs, c) || Core(d) == Core(c) ==> HasLike(cs + [d], c)
  {
    if v :| v in cs && Core(v) == Core(c) {
      assert v in cs + [d];
    }
    assert d in cs + [d];
  }

  lemma CleanKeepsTracked(st: State, i: nat, c: Customer, a: Address)
    requires Shape(st) && i < |st.customers| && Tracked(st, c, a) && Shape(Next(st, CleanCustomer(i)))
    ensures Tracked(Next(st, CleanCustomer(i)), c, a)
  {
    var st' := Next(st, CleanCustomer(i));
    var r := OfCustomer(WithAddress(Clean(c), a));
    LikeMore(st.cleaned, Clean(st.customers[i]), c);
    assert BothHeld(st', r) <==> BothHeld(st, r);
    if c in st.customers && c != st.customers[i] {
      InWithout(st.customers, i, c);
    }
  }

  lemma TakeKeepsTracked(st: State, act: Action, c: Customer, a: Address)
    requires Shape(st) && Enabled(st, act) && (act.TakeSale? || act.TakeRef?) && Tracked(st, c, a)
    ensures Shape(Next(st, act)) && Tracked(Next(st, act), c, a)
  {
    NextKeepsShape(st, act);
    var r := OfCustomer(WithAddress(Clean(c), a));
    if BothHeld(st, r) {
      TakeKeepsHeld(st, act, BILLING, r);
      TakeKeepsHeld(st, act, SHIPPING, r);
    }
  }

  /** A step keeps track of one wanted customer and its address. */
  lemma StepKeepsTracked(inp: Inputs, st: State, act: Action, c: Customer, a: Address)
    requires Shape(st) && Enabled(st, act) && PairsSound(inp, st) && Settled(inp)
    requires WantedPair(inp, c, a) && Tracked(st, c, a)
    ensures Shape(Next(st, act)) && Tracked(Next(st, act), c, a)
  {
    NextKeepsShape(st, act);
    match act
    case CleanCustomer(i) => CleanKeepsTracked(st, i, c, a);
    case TakeCustomer(i) => CustomerKeepsTracked(inp, st, i, c, a);
    case TakeAddress(i) => AddressKeepsTracked(inp, st, i, c, a);
    case _ => TakeKeepsTracked(st, act, c, a);
  }

  lemma StepKeepsComplete(inp: Inputs, st: State, act: Action)
    requires Shape(st) && Enabled(st, act) && PairsSound(inp, st) && Settled(inp) && Complete(inp, st)
    ensures Shape(Next(st, act)) && Complete(inp, Next(st, act))
  {
    NextKeepsShape(st, act);
    forall c, a | WantedPair(inp, c, a) ensures Tracked(Next(st, act), c, a) {
      StepKeepsTracked(inp, st, act, c, a);
    }
    forall r | r in Table(inp, ITEM) ensures Held(Next(st, act), ITEM, r) {
      StepKeepsHeld(st, act, ITEM, r);
    }
    forall r | r in Table(inp, PROMO) ensures Held(Next(st, act), PROMO, r) {
      StepKeepsHeld(st, act, PROMO, r);
    }
  }

  // ---------- What is still to come is constant ----------

  /** The sale, however enriched by now, is one that can be collected. */
  ghost predicate Live(inp: Inputs, s: Sale) {
    exists t | t in inp.sales :: SameIds(t, s) && Feasible(inp, t)
  }

  lemma LiveIs(inp: Inputs, s: Sale)
    requires Live(inp, s)
    ensures Feasible(inp, s) && Matched(inp, 0, s)
  {
    var t :| t in inp.sales && SameIds(t, s) && Feasible(inp, t);
    SameIdsFeasible(inp, t, s);
    FeasibleIsMatched(inp, s);
  }

  lemma LiveHasOneRecord(inp: Inputs, k: Stage, s: Sale)
    requires Live(inp, s) && Settled(inp)
    ensures OneRecord(inp, k, s)
  {
    var t :| t in inp.sales && SameIds(t, s) && Feasible(inp, t);
    assert OneRecord(inp, k, t);
    SameIdsOneRecord(inp, k, t, s);
  }

  lemma SameIdsOneRecord(inp: Inputs, k: Stage, t: Sale, s: Sale)
    requires SameIds(t, s) && OneRecord(inp, k, t)
    ensures OneRecord(inp, k, s)
  {
    assert SaleKey(k, t) == SaleKey(k, s) && (PassesThrough(k, t) <==> PassesThrough(k, s));
  }

  lemma SameIdsLive(inp: Inputs, s: Sale, e: Sale)
    requires SameIds(e, s)
    ensures Live(inp, e) <==> Live(inp, s)
  {
  }

  /** What becomes of a sale before stage k. */
  ghost function Outcome(inp: Inputs): Valuation {
    (k: int, s: Sale) =>
      if 0 <= k && Live(inp, s) then (LiveIs(inp, s); multiset{Finish(inp, k, s)}) else multiset{}
  }

  lemma FinishStep(inp: Inputs, k: Stage, s: Sale, r: Ref)
    requires Live(inp, s) && Settled(inp) && !PassesThrough(k, s)
    requires r in Table(inp, k) && Fits(k, r) && RefKey(r) == SaleKey(k, s)
    ensures Matched(inp, k, s) && Matched(inp, k + 1, Enrich(k, s, r))
    ensures Finish(inp, k, s) == Finish(inp, k + 1, Enrich(k, s, r))
  {
    LiveIs(inp, s);
    LiveHasOneRecord(inp, k, s);
    SameRecord(inp, k, s, r, Lookup(SaleKey(k, s), Table(inp, k)));
    SameIdsMatch(inp, Enrich(k, s, r), s);
  }

  lemma OutcomeRespected(inp: Inputs, k: Stage)
    requires Settled(inp)
    ensures Respects(Outcome(inp), k, FromTable(inp))
  {
    var f := Outcome(inp);
    forall s, r | r in Table(inp, k) && Fits(k, r) && RefKey(r) == SaleKey(k, s) && !PassesThrough(k, s)
      ensures f(k, s) == f(k + 1, Enrich(k, s, r))
    {
      SameIdsLive(inp, s, Enrich(k, s, r));
      if Live(inp, s) {
        FinishStep(inp, k, s, r);
      }
    }
    forall s | PassesThrough(k, s) ensures f(k, s) == f(k + 1, s) {
      if Live(inp, s) {
        LiveIs(inp, s);
        assert Attach(inp, k, s) == s;
      }
    }
  }

  ghost predicate Good(inp: Inputs, st: State)
    requires Shape(st)
  {
    Sound(inp, st) && Complete(inp, st)
  }

  lemma InitGood(inp: Inputs)
    ensures Good(inp, Init(inp))
  {
    InitSound(inp);
    var st := Init(inp);
    assert st.refs[ITEM] == Table(inp, ITEM) && st.refs[PROMO] == Table(inp, PROMO);
  }

  lemma {:induction false} RunKeepsOutcome(inp: Inputs, st: State, acts: seq<Action>)
    requires Shape(st) && Runs(st, acts) && Settled(inp) && Good(inp, st)
    ensures Good(inp, After(st, acts))
    ensures Load(Outcome(inp), After(st, acts)) == Load(Outcome(inp), st)
    decreases acts
  {
    if acts != [] {
      forall k: Stage ensures Respects(Outcome(inp), k, FromTable(inp)) {
        OutcomeRespected(inp, k);
      }
      StepKeepsLoad(Outcome(inp), FromTable(inp), st, acts[0]);
      StepSound(inp, st, acts[0]);
      StepKeepsComplete(inp, st, acts[0]);
      RunKeepsOutcome(inp, Next(st, acts[0]), acts[1..]);
    }
  }

  // ---------- At the end ----------

  lemma DrainedIsJoined(st: State, c: Customer, a: Address)
    requires Shape(st) && Drained(st) && Tracked(st, c, a) && OneSided(At(st.pairs, c.addressId, EMPTY_PAIR))
    ensures BothHeld(st, OfCustomer(WithAddress(Clean(c), a)))
  {
  }

  lemma PairOneSided(inp: Inputs, st: State, x: Id)
    requires Shape(st) && PairsSound(inp, st)
    ensures OneSided(At(st.pairs, x, EMPTY_PAIR))
  {
  }

  /** Once the channels are empty every key that a live sale names has its record. */
  lemma DrainedHasRef(inp: Inputs, st: State, k: Stage, s: Sale)
    requires Shape(st) && Good(inp, st) && Drained(st) && Live(inp, s) && !PassesThrough(k, s)
    ensures At(st.cells[k], SaleKey(k, s), EMPTY_CELL).ref.Some?
  {
    LiveIs(inp, s);
    assert HasMatch(inp, k, s);
    var r := Lookup(SaleKey(k, s), Table(inp, k));
    if k <= SHIPPING {
      var c, a := JoinedFrom(inp, k, r);
      LiveIsWanted(inp, k, s, c.customerId);
      WantedIsHeld(inp, st, c, a);
    }
    assert Held(st, k, r);
  }

  lemma LiveIsWanted(inp: Inputs, k: Stage, s: Sale, y: Id)
    requires Live(inp, s) && k <= SHIPPING && SaleKey(k, s) == ById(y)
    ensures Wanted(inp, y)
  {
    var t :| t in inp.sales && SameIds(t, s) && Feasible(inp, t);
  }

  lemma WantedIsHeld(inp: Inputs, st: State, c: Customer, a: Address)
    requires Shape(st) && Good(inp, st) && Drained(st) && WantedPair(inp, c, a)
    ensures BothHeld(st, OfCustomer(WithAddress(Clean(c), a)))
  {
    PairOneSided(inp, st, c.addressId);
    DrainedIsJoined(st, c, a);
  }

  /** So what still waits cannot be collected. */
  lemma {:induction false} WaitingHasNoOutcome(inp: Inputs, st: State, k: Stage, x: Key, ss: seq<Sale>)
    requires Shape(st) && Good(inp, st) && Drained(st)
    requires At(st.cells[k], x, EMPTY_CELL).ref.None?
    requires forall i :: 0 <= i < |ss| ==> SaleKey(k, ss[i]) == x && !PassesThrough(k, ss[i])
    ensures Tally(Outcome(inp), k, ss) == multiset{}
  {
    if ss != [] {
      if Live(inp, ss[0]) {
        DrainedHasRef(inp, st, k, ss[0]);
      }
      WaitingHasNoOutcome(inp, st, k, x, ss[1..]);
    }
  }

  lemma DrainedCells(inp: Inputs, st: State, k: Stage)
    requires Shape(st) && Good(inp, st) && Drained(st)
    ensures CellTally(Outcome(inp), k, st.cells[k]) == multiset{}
  {
    var m := Tallies(Outcome(inp), k, st.cells[k]);
    forall x | x in m ensures m[x] == multiset{} {
      var c := st.cells[k][x];
      assert CellInv(k, x, c);
      if c.ref.None? {
        WaitingHasNoOutcome(inp, st, k, x, c.waiting);
      }
    }
    SumEmpty(m);
  }

  lemma NoCells(f: Valuation, k: int, cells: map<Key, Cell>)
    requires cells == map[]
    ensures CellTally(f, k, cells) == multiset{}
  {
  }

  lemma {:induction false} TallyAtStart(inp: Inputs, ss: seq<Sale>)
    requires forall s | s in ss :: s in inp.sales
    ensures Tally(Outcome(inp), 0, ss) == multiset(LookupJoin(inp, ss))
  {
    if ss != [] {
      TallyAtStart(inp, ss[1..]);
      assert SameIds(ss[0], ss[0]);
      if Live(inp, ss[0]) {
        LiveIs(inp, ss[0]);
      }
    }
  }

  lemma {:induction false} TallyAtEnd(inp: Inputs, ss: seq<Sale>)
    requires forall s | s in ss :: Live(inp, s)
    ensures Tally(Outcome(inp), 4, ss) == multiset(ss)
  {
    if ss != [] {
      HeadTail(ss);
      LiveIs(inp, ss[0]);
      TallyAtEnd(inp, ss[1..]);
    }
  }

  lemma LoadAtStart(inp: Inputs)
    ensures Load(Outcome(inp), Init(inp)) == multiset(LookupJoin(inp, inp.sales))
  {
    var f, start := Outcome(inp), Init(inp);
    NoCells(f, 0, start.cells[0]);
    NoCells(f, 1, start.cells[1]);
    NoCells(f, 2, start.cells[2]);
    NoCells(f, 3, start.cells[3]);
    TallyAtStart(inp, inp.sales);
    assert start.sales[1] == [] && start.sales[2] == [] && start.sales[3] == [] && start.sales[4] == [];
  }

  lemma LoadAtEnd(inp: Inputs, st: State)
    requires Shape(st) && Good(inp, st) && Drained(st)
    requires forall s | s in st.sales[4] :: Live(inp, s)
    ensures Load(Outcome(inp), st) == multiset(st.sales[4])
  {
    DrainedCells(inp, st, 0);
    DrainedCells(inp, st, 1);
    DrainedCells(inp, st, 2);
    DrainedCells(inp, st, 3);
    TallyAtEnd(inp, st.sales[4]);
    assert st.sales[BILLING] == [] && st.sales[SHIPPING] == [] && st.sales[ITEM] == [] && st.sales[PROMO] == [];
  }

  lemma CollectedIsLive(inp: Inputs, acts: seq<Action>, s: Sale)
    requires Runs(Init(inp), acts) && s in After(Init(inp), acts).sales[4]
    ensures Live(inp, s)
  {
    CollectedIsFeasible(inp, acts, s);
    var t := CollectedFrom(inp, acts, s);
    SameIdsFeasible(inp, s, t);
    assert SameIds(t, s);
  }

  /** When every sale that can be collected is steady, every run that drains the pipeline, whatever the order
      of arrivals and of operator steps, collects these sales and no others, each enriched by its records. */
  lemma EveryRunLooksUp(inp: Inputs, acts: seq<Action>)
    requires Settled(inp)
    requires Runs(Init(inp), acts) && Drained(After(Init(inp), acts))
    ensures multiset(After(Init(inp), acts).sales[4]) == multiset(LookupJoin(inp, inp.sales))
  {
    InitGood(inp);
    RunKeepsOutcome(inp, Init(inp), acts);
    LoadAtStart(inp);
    forall s | s in After(Init(inp), acts).sales[4] ensures Live(inp, s) {
      CollectedIsLive(inp, acts, s);
    }
    LoadAtEnd(inp, After(Init(inp), acts));
  }

  // ---------- Unique ids ----------

  lemma UniqueIsSettled(inp: Inputs)
    requires UniqueIds(inp)
    ensures Settled(inp)
  {
    forall c, d | c in inp.customers && d in inp.customers && c.addressId == d.addressId ensures c == d {
    }
    forall k: Stage, r, r' | r in Table(inp, k) && r' in Table(inp, k) && RefKey(r) == RefKey(r') ensures r == r' {
      TableKeysDistinct(inp, k);
    }
  }

  lemma UniqueFeasible(inp: Inputs, s: Sale)
    requires UniqueIds(inp) && Matched(inp, 0, s)
    ensures Feasible(inp, s)
  {
    assert HasMatch(inp, BILLING, s) && HasMatch(inp, SHIPPING, s) && HasMatch(inp, ITEM, s) && HasMatch(inp, PROMO, s);
    var r :| r in Table(inp, BILLING) && RefKey(r) == SaleKey(BILLING, s);
    var r' :| r' in Table(inp, SHIPPING) && RefKey(r') == SaleKey(SHIPPING, s);
    var c, a := JoinedFrom(inp, BILLING, r);
    var d, b := JoinedFrom(inp, SHIPPING, r');
    assert c.addressId == d.addressId ==> c == d;
    assert Couple(inp, s, c, a, d, b);
  }

  /** The relational join of one sale is its lookup, when there is one. */
  lemma {:induction false} JoinIsFinish(inp: Inputs, k: nat, s: Sale)
    requires UniqueIds(inp)
    ensures JoinFrom(inp, k, [s]) == if Matched(inp, k, s) then [Finish(inp, k, s)] else []
    decreases 4 - k
  {
    if k < 4 {
      JoinFromOne(inp, k, s);
      if HasMatch(inp, k, s) {
        var e := Attach(inp, k, s);
        OneStageIsAttach(inp, k, s);
        MatchedFromHere(inp, k, s, e);
        JoinIsFinish(inp, k + 1, e);
      } else {
        assert !Matched(inp, k, s);
        NoMatch(k, s, Table(inp, k));
        JoinFromNone(inp, k + 1);
      }
    }
  }

  lemma MatchedFromHere(inp: Inputs, k: Stage, s: Sale, e: Sale)
    requires HasMatch(inp, k, s) && SameIds(e, s)
    ensures Matched(inp, k, s) <==> Matched(inp, k + 1, e)
  {
    SameIdsMatch(inp, e, s);
    if Matched(inp, k + 1, e) {
      forall j: Stage | j >= k ensures HasMatch(inp, j, s) {
        assert j > k ==> HasMatch(inp, j, e);
      }
    }
  }

  lemma OneStageIsAttach(inp: Inputs, k: Stage, s: Sale)
    requires UniqueIds(inp) && HasMatch(inp, k, s)
    ensures JoinOne(k, s, Table(inp, k)) == [Attach(inp, k, s)]
  {
    if !PassesThrough(k, s) {
      var r := Lookup(SaleKey(k, s), Table(inp, k));
      TableFits(inp, k, r);
      TableKeysDistinct(inp, k);
      OneMatch(k, s, Table(inp, k), r);
    }
  }

  lemma {:induction false} LookupIsJoin(inp: Inputs, sales: seq<Sale>)
    requires UniqueIds(inp)
    ensures LookupJoin(inp, sales) == JoinFrom(inp, 0, sales)
  {
    if sales == [] {
      JoinFromNone(inp, 0);
    } else {
      HeadTail(sales);
      LookupIsJoin(inp, sales[1..]);
      JoinFromConcat(inp, 0, [sales[0]], sales[1..]);
      JoinIsFinish(inp, 0, sales[0]);
      if Feasible(inp, sales[0]) {
        FeasibleIsMatched(inp, sales[0]);
      } else if Matched(inp, 0, sales[0]) {
        UniqueFeasible(inp, sales[0]);
      }
    }
  }

  /** Confluence and refinement. With unique ids, for every run that drains the pipeline, whatever the
      order of arrivals and of operator steps, the multiset of collected sales is the relational join of
      the sales with the customers and their addresses (twice), the items and the promos, sales without a
      promo id kept. */
  lemma EveryRunComputesTheJoin(inp: Inputs, acts: seq<Action>)
    requires UniqueIds(inp)
    requires Runs(Init(inp), acts) && Drained(After(Init(inp), acts))
    ensures multiset(After(Init(inp), acts).sales[4]) == multiset(JoinFrom(inp, 0, inp.sales))
  {
    UniqueIsSettled(inp);
    EveryRunLooksUp(inp, acts);
    LookupIsJoin(inp, inp.sales);
  }

  /** Hence the result does not depend on the interleaving. */
  lemma Confluent(inp: Inputs, acts: seq<Action>, others: seq<Action>)
    requires UniqueIds(inp)
    requires Runs(Init(inp), acts) && Drained(After(Init(inp), acts))
    requires Runs(Init(inp), others) && Drained(After(Init(inp), others))
    ensures multiset(After(Init(inp), acts).sales[4]) == multiset(After(Init(inp), others).sales[4])
  {
    EveryRunComputesTheJoin(inp, acts);
    EveryRunComputesTheJoin(inp, others);
  }
}
