/** What every sale that leaves the pipeline carries. */
module Enrichment {
  import opened Basics
  import opened Records
  import opened Operators
  import opened Pairing
  import opened Keyed
  import opened Pipeline
  import opened BatchJoin

  /** The record that stage k has attached to s. */
  function Attached(k: Stage, s: Sale): Option<Ref> {
    if k == BILLING then (if s.billCustomer.Some? then Some(OfCustomer(s.billCustomer.value)) else None)
    else if k == SHIPPING then (if s.shipCustomer.Some? then Some(OfCustomer(s.shipCustomer.value)) else None)
    else if k == ITEM then (if s.item.Some? then Some(OfItem(s.item.value)) else None)
    else if s.promo.Some? then Some(OfPromo(s.promo.value)) else None
  }

  /** Stage j attached to s a good record with the sale's own id. */
  predicate Done(good: Trust, j: Stage, s: Sale) {
    PassesThrough(j, s) ||
    (var r := Attached(j, s); r.Some? && good(j, r.value) && RefKey(r.value) == SaleKey(j, s))
  }

  /** Every stage before k is done with s. */
  predicate DoneBefore(good: Trust, k: nat, s: Sale) {
    forall j: Stage :: j < k ==> Done(good, j, s)
  }

  predicate AllDone(good: Trust, k: nat, ss: seq<Sale>) {
    forall i :: 0 <= i < |ss| ==> DoneBefore(good, k, ss[i])
  }

  lemma EnrichedIsDone(good: Trust, k: Stage, s: Sale, r: Ref)
    requires DoneBefore(good, k, s) && Fits(k, r) && good(k, r) && RefKey(r) == SaleKey(k, s)
    ensures DoneBefore(good, k + 1, Enrich(k, s, r))
  {
    var e := Enrich(k, s, r);
    forall j: Stage | j < k + 1 ensures Done(good, j, e) {
      if j < k {
        assert Done(good, j, s);
      }
    }
  }

  /** The records on the way to the address join, or waiting in it, come from the sources. */
  ghost predicate PairsSound(inp: Inputs, st: State) {
    && (forall c | c in st.customers :: c in inp.customers)
    && (forall c | c in st.cleaned :: CleanedFrom(inp, c))
    && (forall a | a in st.addresses :: a in inp.addresses)
    && (forall x | x in st.pairs ::
          && OneSided(st.pairs[x])
          && (st.pairs[x].customer.Some? ==>
                st.pairs[x].customer.value.addressId == x && CleanedFrom(inp, st.pairs[x].customer.value))
          && (st.pairs[x].address.Some? ==>
                st.pairs[x].address.value.addressId == x && st.pairs[x].address.value in inp.addresses))
  }

  ghost predicate CleanedFrom(inp: Inputs, c: Customer) {
    exists c0 | c0 in inp.customers :: c == Clean(c0)
  }

  ghost predicate SalesDone(st: State, good: Trust)
    requires Shape(st)
  {
    && (forall k :: 0 <= k < 5 ==> AllDone(good, k, st.sales[k]))
    && (forall k: Stage :: forall x | x in st.cells[k] :: AllDone(good, k, st.cells[k][x].waiting))
  }

  /** All records are good, and so is everything that was attached to a sale. */
  ghost predicate AllGood(st: State, good: Trust)
    requires Shape(st)
  {
    RefsGood(st, good) && SalesDone(st, good)
  }

  ghost function FromTable(inp: Inputs): Trust {
    (k: int, r: Ref) => 0 <= k < 4 && r in Table(inp, k)
  }

  ghost predicate Sound(inp: Inputs, st: State)
    requires Shape(st)
  {
    PairsSound(inp, st) && AllGood(st, FromTable(inp))
  }

  lemma EnrichAllDone(good: Trust, k: Stage, ss: seq<Sale>, r: Ref)
    requires AllDone(good, k, ss) && Fits(k, r) && good(k, r)
    requires forall i :: 0 <= i < |ss| ==> SaleKey(k, ss[i]) == RefKey(r)
    ensures AllDone(good, k + 1, EnrichAll(k, ss, r))
  {
    var out := EnrichAll(k, ss, r);
    forall i | 0 <= i < |out| ensures DoneBefore(good, k + 1, out[i]) {
      EnrichedIsDone(good, k, ss[i], r);
    }
  }

  lemma ProcessGood(good: Trust, k: Stage, x: Key, c: Cell, e: Event)
    requires CellInv(k, x, c) && EventFits(k, e) && EventKey(k, e) == x
    requires RefGood(good, k, c) && AllDone(good, k, c.waiting)
    requires match e case SaleArrives(s) => DoneBefore(good, k, s) case RefArrives(r) => good(k, r)
    ensures var (c', out) := Process(k, c, e);
            RefGood(good, k, c') && AllDone(good, k, c'.waiting) && AllDone(good, k + 1, out)
  {
    match e
    case SaleArrives(s) =>
      if PassesThrough(k, s) {
      } else if c.ref.Some? {
        EnrichedIsDone(good, k, s, c.ref.value);
      }
    case RefArrives(r) =>
      EnrichAllDone(good, k, c.waiting, r);
  }

  lemma EnterGood(good: Trust, st: State, k: Stage, x: Key, e: Event)
    requires Shape(st) && EventFits(k, e) && EventKey(k, e) == x && AllGood(st, good)
    requires match e case SaleArrives(s) => DoneBefore(good, k, s) case RefArrives(r) => good(k, r)
    requires Shape(Enter(st, k, x, e))
    ensures AllGood(Enter(st, k, x, e), good)
  {
    ProcessGood(good, k, x, At(st.cells[k], x, EMPTY_CELL), e);
  }

  lemma SaleStepGood(good: Trust, st: State, k: Stage, i: nat)
    requires Shape(st) && i < |st.sales[k]| && AllGood(st, good) && Shape(Next(st, TakeSale(k, i)))
    ensures AllGood(Next(st, TakeSale(k, i)), good)
  {
    var s := st.sales[k][i];
    var mid := st.(sales := st.sales[k := Without(st.sales[k], i)]);
    assert DoneBefore(good, k, s);
    EnterGood(good, mid, k, SaleKey(k, s), SaleArrives(s));
  }

  lemma RefStepGood(good: Trust, st: State, k: Stage, i: nat)
    requires Shape(st) && i < |st.refs[k]| && AllGood(st, good) && Shape(Next(st, TakeRef(k, i)))
    ensures AllGood(Next(st, TakeRef(k, i)), good)
  {
    var r := st.refs[k][i];
    RefsFitWithout(k, st.refs[k], i);
    var mid := st.(refs := st.refs[k := Without(st.refs[k], i)]);
    EnterGood(good, mid, k, RefKey(r), RefArrives(r));
  }

  /** The record that a match makes. */
  function Joined(m: Match): Ref {
    OfCustomer(WithAddress(m.0, m.1))
  }

  /** The matches that a step makes. */
  function Emits(st: State, a: Action): seq<Match>
    requires Shape(st) && Enabled(st, a)
  {
    match a
    case TakeCustomer(i) => Pair(At(st.pairs, st.cleaned[i].addressId, EMPTY_PAIR), CustomerArrives(st.cleaned[i])).1
    case TakeAddress(i) => Pair(At(st.pairs, st.addresses[i].addressId, EMPTY_PAIR), AddressArrives(st.addresses[i])).1
    case _ => []
  }

  lemma JoinGood(good: Trust, st: State, e: Arrival)
    requires Shape(st) && AllGood(st, good) && Shape(Join(st, e))
    requires forall m | m in Pair(At(st.pairs, AddressKey(e), EMPTY_PAIR), e).1 :: good(BILLING, Joined(m)) && good(SHIPPING, Joined(m))
    ensures AllGood(Join(st, e), good)
  {
    var ms := Pair(At(st.pairs, AddressKey(e), EMPTY_PAIR), e).1;
    assert ms != [] ==> ms == [ms[0]] && ms[0] in ms && Map(c => OfCustomer(c), Collected(ms)) == [Joined(ms[0])];
  }

  /** A step keeps everything good, if the customers that it joins are. */
  lemma StepGood(good: Trust, st: State, a: Action)
    requires Shape(st) && Enabled(st, a) && AllGood(st, good)
    requires forall m | m in Emits(st, a) :: good(BILLING, Joined(m)) && good(SHIPPING, Joined(m))
    ensures Shape(Next(st, a)) && AllGood(Next(st, a), good)
  {
    NextKeepsShape(st, a);
    match a
    case CleanCustomer(_) =>
    case TakeCustomer(i) => JoinGood(good, st.(cleaned := Without(st.cleaned, i)), CustomerArrives(st.cleaned[i]));
    case TakeAddress(i) => JoinGood(good, st.(addresses := Without(st.addresses, i)), AddressArrives(st.addresses[i]));
    case TakeSale(k, i) => SaleStepGood(good, st, k, i);
    case TakeRef(k, i) => RefStepGood(good, st, k, i);
  }

  lemma MatchFromTable(inp: Inputs, m: Match)
    requires CleanedFrom(inp, m.0) && m.1 in inp.addresses && m.0.addressId == m.1.addressId
    ensures Joined(m) in CustomerTable(inp.customers, inp.addresses)
  {
    var c0 :| c0 in inp.customers && m.0 == Clean(c0);
    JoinedIff(Joined(m), c0, m.1);
    assert IsJoined(Joined(m), c0, m.1);
    CustomerTableHas(inp.customers, inp.addresses, Joined(m));
  }

  lemma PairSound(inp: Inputs, st: State, e: Arrival)
    requires Shape(st) && PairsSound(inp, st)
    requires match e case CustomerArrives(c) => CleanedFrom(inp, c) case AddressArrives(a) => a in inp.addresses
    requires Shape(Join(st, e))
    ensures PairsSound(inp, Join(st, e))
    ensures forall m | m in Pair(At(st.pairs, AddressKey(e), EMPTY_PAIR), e).1 ::
              CleanedFrom(inp, m.0) && m.1 in inp.addresses && m.0.addressId == m.1.addressId
  {
  }

  lemma StepPairsSound(inp: Inputs, st: State, a: Action)
    requires Shape(st) && Enabled(st, a) && PairsSound(inp, st)
    ensures Shape(Next(st, a)) && PairsSound(inp, Next(st, a))
    ensures forall m | m in Emits(st, a) :: CleanedFrom(inp, m.0) && m.1 in inp.addresses && m.0.addressId == m.1.addressId
  {
    NextKeepsShape(st, a);
    match a
    case CleanCustomer(i) =>
      WithoutParts(st.customers, i);
      assert CleanedFrom(inp, Clean(st.customers[i]));
    case TakeCustomer(i) =>
      WithoutParts(st.cleaned, i);
      PairSound(inp, st.(cleaned := Without(st.cleaned, i)), CustomerArrives(st.cleaned[i]));
    case TakeAddress(i) =>
      WithoutParts(st.addresses, i);
      PairSound(inp, st.(addresses := Without(st.addresses, i)), AddressArrives(st.addresses[i]));
    case _ =>
  }

  lemma StepSound(inp: Inputs, st: State, a: Action)
    requires Shape(st) && Enabled(st, a) && Sound(inp, st)
    ensures Shape(Next(st, a)) && Sound(inp, Next(st, a))
  {
    StepPairsSound(inp, st, a);
    forall m | m in Emits(st, a) ensures Joined(m) in CustomerTable(inp.customers, inp.addresses) {
      MatchFromTable(inp, m);
    }
    StepGood(FromTable(inp), st, a);
  }

  lemma InitSound(inp: Inputs)
    ensures Sound(inp, Init(inp))
  {
    var st := Init(inp);
    forall k: Stage, i | 0 <= i < |st.refs[k]| ensures st.refs[k][i] in Table(inp, k) {
      if k >= ITEM {
        assert st.refs[k] == Table(inp, k);
      }
    }
  }

  lemma {:induction false} RunSound(inp: Inputs, st: State, acts: seq<Action>)
    requires Shape(st) && Runs(st, acts) && Sound(inp, st)
    ensures Sound(inp, After(st, acts))
    decreases acts
  {
    if acts != [] {
      StepSound(inp, st, acts[0]);
      RunSound(inp, Next(st, acts[0]), acts[1..]);
    }
  }

  /** c is a source customer with the source address it names attached and a birth date, and id is its id. */
  ghost predicate ResolvedCustomer(inp: Inputs, c: Option<Customer>, id: Id) {
    && c.Some? && c.value.customerId == id
    && exists c0, a | c0 in inp.customers && a in inp.addresses ::
         c0.addressId == a.addressId && Carries(c.value, c0, a)
  }

  lemma DoneMeansResolved(inp: Inputs, k: Stage, s: Sale)
    requires k <= SHIPPING && Done(FromTable(inp), k, s)
    ensures k == BILLING ==> ResolvedCustomer(inp, s.billCustomer, s.billCustomerId)
    ensures k == SHIPPING ==> ResolvedCustomer(inp, s.shipCustomer, s.shipCustomerId)
  {
    var r := Attached(k, s).value;
    CustomerTableHas(inp.customers, inp.addresses, r);
    var c0, a :| c0 in inp.customers && a in inp.addresses && IsJoined(r, c0, a);
  }

  lemma CollectedIsDone(good: Trust, st: State, s: Sale)
    requires Shape(st) && AllGood(st, good) && s in st.sales[4]
    ensures Done(good, BILLING, s) && Done(good, SHIPPING, s) && Done(good, ITEM, s) && Done(good, PROMO, s)
  {
    assert DoneBefore(good, 4, s);
  }

  /** Every sale collected by any run, with no assumption on ids: both its customers are resolved, each
      carries the address it names, its item has the sale's item id, and a sale that names a promo carries
      a promo with that id. Each attached record comes from the sources. */
  lemma FullyEnriched(inp: Inputs, acts: seq<Action>, s: Sale)
    requires Runs(Init(inp), acts)
    requires s in After(Init(inp), acts).sales[4]
    ensures ResolvedCustomer(inp, s.billCustomer, s.billCustomerId)
    ensures ResolvedCustomer(inp, s.shipCustomer, s.shipCustomerId)
    ensures s.item.Some? && s.item.value in inp.items && s.item.value.itemId == s.itemId
    ensures s.promoId.Some? ==> s.promo.Some? && s.promo.value in inp.promos && s.promo.value.promoId == s.promoId
  {
    InitSound(inp);
    RunSound(inp, Init(inp), acts);
    CollectedIsDone(FromTable(inp), After(Init(inp), acts), s);
    DoneMeansResolved(inp, BILLING, s);
    DoneMeansResolved(inp, SHIPPING, s);
    assert OfItem(s.item.value) in Map(i => OfItem(i), inp.items);
    if s.promoId.Some? {
      assert OfPromo(s.promo.value) in Map(p => OfPromo(p), inp.promos);
    }
  }

  // ---------- A sale that names no promo is given none ----------

  predicate Unpromoted(ss: seq<Sale>) {
    forall i :: 0 <= i < |ss| ==> ss[i].promoId.None? ==> ss[i].promo.None?
  }

  predicate NoStrayPromo(st: State)
    requires Shape(st)
  {
    && (forall k :: 0 <= k < 5 ==> Unpromoted(st.sales[k]))
    && (forall k: Stage :: forall x | x in st.cells[k] :: Unpromoted(st.cells[k][x].waiting))
  }

  lemma EnterKeepsNoStrayPromo(st: State, k: Stage, x: Key, e: Event)
    requires Shape(st) && EventFits(k, e) && EventKey(k, e) == x && Shape(Enter(st, k, x, e))
    requires NoStrayPromo(st) && (e.SaleArrives? ==> Unpromoted([e.sale]))
    ensures NoStrayPromo(Enter(st, k, x, e))
  {
    var c := At(st.cells[k], x, EMPTY_CELL);
    assert CellInv(k, x, c);
    var (c', out) := Process(k, c, e);
    assert e.SaleArrives? ==> e.sale == [e.sale][0];
    assert Unpromoted(out) && Unpromoted(c'.waiting);
  }

  lemma StepKeepsNoStrayPromo(st: State, a: Action)
    requires Shape(st) && Enabled(st, a) && NoStrayPromo(st)
    ensures Shape(Next(st, a)) && NoStrayPromo(Next(st, a))
  {
    NextKeepsShape(st, a);
    match a
    case CleanCustomer(_) =>
    case TakeCustomer(_) =>
    case TakeAddress(_) =>
    case TakeSale(k, i) =>
      var s := st.sales[k][i];
      EnterKeepsNoStrayPromo(st.(sales := st.sales[k := Without(st.sales[k], i)]), k, SaleKey(k, s), SaleArrives(s));
    case TakeRef(k, i) =>
      var r := st.refs[k][i];
      RefsFitWithout(k, st.refs[k], i);
      EnterKeepsNoStrayPromo(st.(refs := st.refs[k := Without(st.refs[k], i)]), k, RefKey(r), RefArrives(r));
  }

  lemma {:induction false} RunKeepsNoStrayPromo(st: State, acts: seq<Action>)
    requires Shape(st) && Runs(st, acts) && NoStrayPromo(st)
    ensures NoStrayPromo(After(st, acts))
    decreases acts
  {
    if acts != [] {
      StepKeepsNoStrayPromo(st, acts[0]);
      RunKeepsNoStrayPromo(Next(st, acts[0]), acts[1..]);
    }
  }

  /** When sales arrive without a promo attached, a collected sale carries a promo iff it names one. */
  lemma PromoAbsentIffUnnamed(inp: Inputs, acts: seq<Action>, s: Sale)
    requires Runs(Init(inp), acts)
    requires forall t | t in inp.sales :: t.promo.None?
    requires s in After(Init(inp), acts).sales[4]
    ensures s.promo.None? <==> s.promoId.None?
  {
    RunKeepsNoStrayPromo(Init(inp), acts);
    FullyEnriched(inp, acts, s);
  }
}
