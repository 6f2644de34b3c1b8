/** `processingWorkflow` as a state machine: the cleaner, the customer/address joiner and the four sale joins,
    connected by channels. A channel delivers its records in any order, which covers every interleaving of
    arrivals, every schedule of the operators and every repartitioning between their parallel instances. */
module Pipeline {
  import opened Basics
  import opened Records
  import opened Operators
  import opened Pairing
  import opened Keyed

  /** The records of the five sources. */
  datatype Inputs = Inputs(customers: seq<Customer>, addresses: seq<Address>, sales: seq<Sale>,
                           items: seq<Item>, promos: seq<Promo>)

  /** `sales[k]` and `refs[k]` are the channels into stage k and `cells[k]` is its keyed state;
      `sales[4]` is what the last stage has collected. */
  datatype State = State(customers: seq<Customer>, cleaned: seq<Customer>, addresses: seq<Address>,
                         pairs: map<Id, PairCell>,
                         sales: seq<seq<Sale>>, refs: seq<seq<Ref>>, cells: seq<map<Key, Cell>>)

  /** One operator takes the i-th record of one of its channels. */
  datatype Action =
    | CleanCustomer(i: nat) | TakeCustomer(i: nat) | TakeAddress(i: nat)
    | TakeSale(k: Stage, i: nat) | TakeRef(k: Stage, i: nat)

  function Init(inp: Inputs): (st: State)
    ensures Shape(st)
  {
    State(inp.customers, [], inp.addresses, map[],
          [inp.sales, [], [], [], []],
          [[], [], Map(i => OfItem(i), inp.items), Map(p => OfPromo(p), inp.promos)],
          [map[], map[], map[], map[]])
  }

  predicate CellInv(k: Stage, x: Key, c: Cell) {
    && CellFits(k, c)
    && (c.ref.Some? ==> RefKey(c.ref.value) == x)
    && forall i :: 0 <= i < |c.waiting| ==> SaleKey(k, c.waiting[i]) == x && !PassesThrough(k, c.waiting[i])
  }

  predicate CellsInv(k: Stage, cells: map<Key, Cell>) {
    forall x | x in cells :: CellInv(k, x, cells[x])
  }

  predicate RefsFit(k: Stage, refs: seq<Ref>) {
    forall i :: 0 <= i < |refs| ==> Fits(k, refs[i])
  }

  predicate Shape(st: State) {
    && |st.sales| == 5 && |st.refs| == 4 && |st.cells| == 4
    && (forall k: Stage :: RefsFit(k, st.refs[k]))
    && (forall k: Stage :: CellsInv(k, st.cells[k]))
  }

  predicate Enabled(st: State, a: Action)
    requires Shape(st)
  {
    match a
    case CleanCustomer(i) => i < |st.customers|
    case TakeCustomer(i) => i < |st.cleaned|
    case TakeAddress(i) => i < |st.addresses|
    case TakeSale(k, i) => i < |st.sales[k]|
    case TakeRef(k, i) => i < |st.refs[k]|
  }

  /** A joined customer is sent to the billing and to the shipping join. */
  function Broadcast(refs: seq<seq<Ref>>, ms: seq<Match>): seq<seq<Ref>>
    requires |refs| == 4
  {
    var rs := Map(c => OfCustomer(c), Collected(ms));
    refs[BILLING := refs[BILLING] + rs][SHIPPING := refs[SHIPPING] + rs]
  }

  function Join(st: State, e: Arrival): State
    requires Shape(st)
  {
    var x := AddressKey(e);
    var (c, ms) := Pair(At(st.pairs, x, EMPTY_PAIR), e);
    st.(pairs := st.pairs[x := c], refs := Broadcast(st.refs, ms))
  }

  function Enter(st: State, k: Stage, x: Key, e: Event): State
    requires Shape(st) && EventFits(k, e)
  {
    var (c, out) := Process(k, At(st.cells[k], x, EMPTY_CELL), e);
    st.(cells := st.cells[k := st.cells[k][x := c]], sales := st.sales[k + 1 := st.sales[k + 1] + out])
  }

  function Next(st: State, a: Action): State
    requires Shape(st) && Enabled(st, a)
  {
    match a
    case CleanCustomer(i) =>
      st.(customers := Without(st.customers, i), cleaned := st.cleaned + [Clean(st.customers[i])])
    case TakeCustomer(i) => Join(st.(cleaned := Without(st.cleaned, i)), CustomerArrives(st.cleaned[i]))
    case TakeAddress(i) => Join(st.(addresses := Without(st.addresses, i)), AddressArrives(st.addresses[i]))
    case TakeSale(k, i) =>
      var s := st.sales[k][i];
      Enter(st.(sales := st.sales[k := Without(st.sales[k], i)]), k, SaleKey(k, s), SaleArrives(s))
    case TakeRef(k, i) =>
      var r := st.refs[k][i];
      RefsFitWithout(k, st.refs[k], i);
      Enter(st.(refs := st.refs[k := Without(st.refs[k], i)]), k, RefKey(r), RefArrives(r))
  }

  lemma RefsFitWithout(k: Stage, refs: seq<Ref>, i: nat)
    requires i < |refs| && RefsFit(k, refs)
    ensures RefsFit(k, Without(refs, i))
  {
  }

  lemma BroadcastFits(refs: seq<seq<Ref>>, ms: seq<Match>)
    requires |refs| == 4 && forall k: Stage :: RefsFit(k, refs[k])
    ensures forall k: Stage :: RefsFit(k, Broadcast(refs, ms)[k])
  {
  }

  lemma ProcessKeepsCellInv(k: Stage, x: Key, c: Cell, e: Event)
    requires CellInv(k, x, c) && EventFits(k, e)
    requires x == EventKey(k, e)
    ensures CellInv(k, x, Process(k, c, e).0)
  {
  }

  lemma NextKeepsShape(st: State, a: Action)
    requires Shape(st) && Enabled(st, a)
    ensures Shape(Next(st, a))
  {
    var st' := Next(st, a);
    match a
    case CleanCustomer(_) =>
    case TakeCustomer(i) =>
      BroadcastFits(st.refs, Pair(At(st.pairs, st.cleaned[i].addressId, EMPTY_PAIR), CustomerArrives(st.cleaned[i])).1);
    case TakeAddress(i) =>
      BroadcastFits(st.refs, Pair(At(st.pairs, st.addresses[i].addressId, EMPTY_PAIR), AddressArrives(st.addresses[i])).1);
    case TakeSale(k, i) =>
      var s := st.sales[k][i];
      ProcessKeepsCellInv(k, SaleKey(k, s), At(st.cells[k], SaleKey(k, s), EMPTY_CELL), SaleArrives(s));
    case TakeRef(k, i) =>
      var r := st.refs[k][i];
      ProcessKeepsCellInv(k, RefKey(r), At(st.cells[k], RefKey(r), EMPTY_CELL), RefArrives(r));
      RefsFitWithout(k, st.refs[k], i);
  }

  /** as is a possible run from st. */
  predicate Runs(st: State, acts: seq<Action>)
    requires Shape(st)
    decreases acts
  {
    acts == [] || (Enabled(st, acts[0]) && (NextKeepsShape(st, acts[0]); Runs(Next(st, acts[0]), acts[1..])))
  }

  function After(st: State, acts: seq<Action>): (st': State)
    requires Shape(st) && Runs(st, acts)
    ensures Shape(st')
    decreases acts
  {
    if acts == [] then st else
      NextKeepsShape(st, acts[0]);
      After(Next(st, acts[0]), acts[1..])
  }

  /** Nothing is on its way in any channel. */
  predicate Drained(st: State)
    requires Shape(st)
  {
    && st.customers == [] && st.cleaned == [] && st.addresses == []
    && forall k: Stage :: st.sales[k] == [] && st.refs[k] == []
  }

  /** The records that a stage can be relied on to meet. */
  type Trust = (int, Ref) -> bool

  /** Every record in a channel or in a state of the pipeline is good. */
  ghost predicate RefsGood(st: State, good: Trust)
    requires Shape(st)
  {
    forall k: Stage ::
      && (forall i :: 0 <= i < |st.refs[k]| ==> good(k, st.refs[k][i]))
      && (forall x | x in st.cells[k] :: RefGood(good, k, st.cells[k][x]))
  }

  predicate RefGood(good: Trust, k: Stage, c: Cell) {
    c.ref.Some? ==> good(k, c.ref.value)
  }
}
