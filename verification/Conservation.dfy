/** What every step of the pipeline conserves. */
module Conservation {
  import opened Basics
  import opened Records
  import opened Operators
  import opened Keyed
  import opened Pipeline

  /** A value for a sale that stands before stage k. */
  type Valuation = (int, Sale) -> multiset<Sale>

  function Tally(f: Valuation, k: int, ss: seq<Sale>): multiset<Sale> {
    if ss == [] then multiset{} else f(k, ss[0]) + Tally(f, k, ss[1..])
  }

  lemma {:induction false} TallyConcat(f: Valuation, k: int, a: seq<Sale>, b: seq<Sale>)
    ensures Tally(f, k, a + b) == Tally(f, k, a) + Tally(f, k, b)
  {
    if a == [] {
      assert a + b == b;
    } else {
      assert (a + b)[1..] == a[1..] + b;
      TallyConcat(f, k, a[1..], b);
    }
  }

  lemma TallyOne(f: Valuation, k: int, s: Sale)
    ensures Tally(f, k, [s]) == f(k, s)
  {
  }

  lemma TallyWithout(f: Valuation, k: int, ss: seq<Sale>, i: nat)
    requires i < |ss|
    ensures Tally(f, k, ss) == Tally(f, k, Without(ss, i)) + f(k, ss[i])
  {
    WithoutParts(ss, i);
    TallyConcat(f, k, ss[..i] + [ss[i]], ss[i + 1..]);
    TallyConcat(f, k, ss[..i], [ss[i]]);
    TallyConcat(f, k, ss[..i], ss[i + 1..]);
    TallyOne(f, k, ss[i]);
  }

  ghost function Tallies(f: Valuation, k: int, cells: map<Key, Cell>): map<Key, multiset<Sale>> {
    map x | x in cells :: Tally(f, k, cells[x].waiting)
  }

  /** The value of all sales that wait in the keyed state of stage k. */
  ghost function CellTally(f: Valuation, k: int, cells: map<Key, Cell>): multiset<Sale> {
    Sum(Tallies(f, k, cells))
  }

  lemma TalliesUpdate(f: Valuation, k: int, cells: map<Key, Cell>, x: Key, c: Cell)
    ensures Tallies(f, k, cells[x := c]) == Tallies(f, k, cells)[x := Tally(f, k, c.waiting)]
  {
  }

  lemma CellTallyUpdate(f: Valuation, k: int, cells: map<Key, Cell>, x: Key, c: Cell)
    ensures CellTally(f, k, cells[x := c]) + Tally(f, k, At(cells, x, EMPTY_CELL).waiting)
         == CellTally(f, k, cells) + Tally(f, k, c.waiting)
  {
    SumUpdate(Tallies(f, k, cells), x, Tally(f, k, c.waiting));
    TalliesUpdate(f, k, cells, x, c);
    if x in cells {
      assert Tallies(f, k, cells)[x] == Tally(f, k, cells[x].waiting);
    } else {
      assert x !in Tallies(f, k, cells);
    }
  }

  /** f gives a sale the same value before and after stage k, for the records that good trusts. */
  ghost predicate Respects(f: Valuation, k: Stage, good: Trust) {
    && (forall s, r :: good(k, r) && Fits(k, r) && RefKey(r) == SaleKey(k, s) && !PassesThrough(k, s)
                       ==> f(k, s) == f(k + 1, Enrich(k, s, r)))
    && (forall s :: PassesThrough(k, s) ==> f(k, s) == f(k + 1, s))
  }

  lemma {:induction false} EnrichAllTally(f: Valuation, k: Stage, good: Trust, ss: seq<Sale>, r: Ref)
    requires Fits(k, r) && good(k, r) && Respects(f, k, good)
    requires forall i :: 0 <= i < |ss| ==> SaleKey(k, ss[i]) == RefKey(r) && !PassesThrough(k, ss[i])
    ensures Tally(f, k + 1, EnrichAll(k, ss, r)) == Tally(f, k, ss)
  {
    if ss != [] {
      assert ss[0] == ss[0];
      EnrichAllTally(f, k, good, ss[1..], r);
    }
  }

  lemma ProcessTally(f: Valuation, k: Stage, good: Trust, x: Key, c: Cell, e: Event)
    requires CellInv(k, x, c) && EventFits(k, e) && Respects(f, k, good)
    requires EventKey(k, e) == x && (e.RefArrives? ==> good(k, e.ref))
    requires c.ref.Some? ==> good(k, c.ref.value)
    ensures var (c', out) := Process(k, c, e);
            Tally(f, k, c.waiting) + (if e.SaleArrives? then f(k, e.sale) else multiset{})
            == Tally(f, k, c'.waiting) + Tally(f, k + 1, out)
  {
    match e
    case SaleArrives(s) =>
      TallyConcat(f, k, c.waiting, [s]);
      TallyOne(f, k, s);
      TallyOne(f, k + 1, s);
      if c.ref.Some? {
        TallyOne(f, k + 1, Enrich(k, s, c.ref.value));
      }
    case RefArrives(r) =>
      EnrichAllTally(f, k, good, c.waiting, r);
  }

  /** The value of the sales that have not left stage k. */
  ghost function StageLoad(f: Valuation, st: State, k: Stage): multiset<Sale>
    requires Shape(st)
  {
    Tally(f, k, st.sales[k]) + CellTally(f, k, st.cells[k])
  }

  /** The value of every sale in the pipeline. */
  ghost function Load(f: Valuation, st: State): multiset<Sale>
    requires Shape(st)
  {
    StageLoad(f, st, BILLING) + StageLoad(f, st, SHIPPING) + StageLoad(f, st, ITEM) + StageLoad(f, st, PROMO)
    + Tally(f, 4, st.sales[4])
  }

  /** The balance of stage k alone: channel, state and what was handed on. */
  ghost function Around(f: Valuation, st: State, k: Stage): multiset<Sale>
    requires Shape(st)
  {
    Tally(f, k, st.sales[k]) + CellTally(f, k, st.cells[k]) + Tally(f, k + 1, st.sales[k + 1])
  }

  /** The part of the load that stage k does not touch. */
  ghost function Elsewhere(f: Valuation, st: State, k: Stage): multiset<Sale>
    requires Shape(st)
  {
    (if k == 0 then Tally(f, 2, st.sales[2]) + Tally(f, 3, st.sales[3]) + Tally(f, 4, st.sales[4])
     else if k == 1 then Tally(f, 0, st.sales[0]) + Tally(f, 3, st.sales[3]) + Tally(f, 4, st.sales[4])
     else if k == 2 then Tally(f, 0, st.sales[0]) + Tally(f, 1, st.sales[1]) + Tally(f, 4, st.sales[4])
     else Tally(f, 0, st.sales[0]) + Tally(f, 1, st.sales[1]) + Tally(f, 2, st.sales[2]))
    + (if k == 0 then multiset{} else CellTally(f, 0, st.cells[0]))
    + (if k == 1 then multiset{} else CellTally(f, 1, st.cells[1]))
    + (if k == 2 then multiset{} else CellTally(f, 2, st.cells[2]))
    + (if k == 3 then multiset{} else CellTally(f, 3, st.cells[3]))
  }

  lemma LoadSplits(f: Valuation, st: State, k: Stage)
    requires Shape(st)
    ensures Load(f, st) == Around(f, st, k) + Elsewhere(f, st, k)
  {
    if k == 0 {
    } else if k == 1 {
      assert Load(f, st) == Around(f, st, 1) + Elsewhere(f, st, 1);
    } else if k == 2 {
      assert Load(f, st) == Around(f, st, 2) + Elsewhere(f, st, 2);
    } else {
      assert Load(f, st) == Around(f, st, 3) + Elsewhere(f, st, 3);
    }
  }

  lemma AroundToLoad(f: Valuation, st: State, st': State, k: Stage)
    requires Shape(st) && Shape(st') && Around(f, st, k) == Around(f, st', k)
    requires forall j: Stage :: j != k ==> st.cells[j] == st'.cells[j]
    requires forall j :: 0 <= j < 5 && j != k && j != k + 1 ==> st.sales[j] == st'.sales[j]
    ensures Load(f, st) == Load(f, st')
  {
    LoadSplits(f, st, k);
    LoadSplits(f, st', k);
    assert Elsewhere(f, st, k) == Elsewhere(f, st', k);
  }

  lemma EnterAround(f: Valuation, good: Trust, st: State, k: Stage, x: Key, e: Event)
    requires Shape(st) && EventFits(k, e) && Respects(f, k, good)
    requires EventKey(k, e) == x && (e.RefArrives? ==> good(k, e.ref))
    requires At(st.cells[k], x, EMPTY_CELL).ref.Some? ==> good(k, At(st.cells[k], x, EMPTY_CELL).ref.value)
    requires Shape(Enter(st, k, x, e))
    ensures Around(f, Enter(st, k, x, e), k)
         == Around(f, st, k) + (if e.SaleArrives? then f(k, e.sale) else multiset{})
  {
    var c := At(st.cells[k], x, EMPTY_CELL);
    var (c', out) := Process(k, c, e);
    ProcessTally(f, k, good, x, c, e);
    CellTallyUpdate(f, k, st.cells[k], x, c');
    TallyConcat(f, k + 1, st.sales[k + 1], out);
    var before, after := CellTally(f, k, st.cells[k]), CellTally(f, k, st.cells[k][x := c']);
    var come := if e.SaleArrives? then f(k, e.sale) else multiset{};
    Rearrange(before, after, Tally(f, k, c.waiting), Tally(f, k, c'.waiting), come, Tally(f, k + 1, out));
    Regroup(Tally(f, k, st.sales[k]), Tally(f, k + 1, st.sales[k + 1]), before, after, come, Tally(f, k + 1, out));
    var st' := Enter(st, k, x, e);
    assert st'.sales[k] == st.sales[k] && st'.sales[k + 1] == st.sales[k + 1] + out;
    assert st'.cells[k] == st.cells[k][x := c'];
  }

  lemma Rearrange(before: multiset<Sale>, after: multiset<Sale>, w: multiset<Sale>, w': multiset<Sale>,
                  come: multiset<Sale>, out: multiset<Sale>)
    requires after + w == before + w'
    requires w + come == w' + out
    ensures after + out == before + come
  {
    forall s ensures (after + out)[s] == (before + come)[s] {
      assert (after + w)[s] == (before + w')[s];
      assert (w + come)[s] == (w' + out)[s];
    }
  }

  lemma Regroup(here: multiset<Sale>, there: multiset<Sale>, before: multiset<Sale>, after: multiset<Sale>,
                come: multiset<Sale>, out: multiset<Sale>)
    requires after + out == before + come
    ensures here + after + (there + out) == here + before + there + come
  {
    assert here + after + (there + out) == here + there + (after + out);
  }

  lemma CellGood(st: State, good: Trust, k: Stage, x: Key)
    requires Shape(st) && RefsGood(st, good)
    ensures At(st.cells[k], x, EMPTY_CELL).ref.Some? ==> good(k, At(st.cells[k], x, EMPTY_CELL).ref.value)
  {
  }

  lemma SaleKeepsLoad(f: Valuation, good: Trust, st: State, k: Stage, i: nat)
    requires Shape(st) && i < |st.sales[k]| && RefsGood(st, good) && Respects(f, k, good)
    requires Shape(Next(st, TakeSale(k, i)))
    ensures Load(f, Next(st, TakeSale(k, i))) == Load(f, st)
  {
    var st' := Next(st, TakeSale(k, i));
    var s := st.sales[k][i];
    var mid := st.(sales := st.sales[k := Without(st.sales[k], i)]);
    CellGood(st, good, k, SaleKey(k, s));
    TakenAround(f, st, k, i);
    EnterAround(f, good, mid, k, SaleKey(k, s), SaleArrives(s));
    AroundToLoad(f, st, st', k);
  }

  /** What a stage loses with the sale that it takes. */
  lemma TakenAround(f: Valuation, st: State, k: Stage, i: nat)
    requires Shape(st) && i < |st.sales[k]|
    ensures var mid := st.(sales := st.sales[k := Without(st.sales[k], i)]);
            Around(f, mid, k) + f(k, st.sales[k][i]) == Around(f, st, k)
  {
    TallyWithout(f, k, st.sales[k], i);
    TakeBack(Tally(f, k, Without(st.sales[k], i)), CellTally(f, k, st.cells[k]), Tally(f, k + 1, st.sales[k + 1]),
             f(k, st.sales[k][i]));
  }

  lemma TakeBack(here: multiset<Sale>, cells: multiset<Sale>, there: multiset<Sale>, one: multiset<Sale>)
    ensures here + cells + there + one == (here + one) + cells + there
  {
  }

  lemma EnterRefAround(f: Valuation, good: Trust, st: State, k: Stage, r: Ref)
    requires Shape(st) && Fits(k, r) && good(k, r) && Respects(f, k, good)
    requires RefGood(good, k, At(st.cells[k], RefKey(r), EMPTY_CELL))
    requires Shape(Enter(st, k, RefKey(r), RefArrives(r)))
    ensures Around(f, Enter(st, k, RefKey(r), RefArrives(r)), k) == Around(f, st, k)
  {
    EnterAround(f, good, st, k, RefKey(r), RefArrives(r));
    PlusNothing(Around(f, st, k));
  }

  lemma TakingRef(st: State, k: Stage, i: nat, mid: State)
    requires Shape(st) && Shape(mid) && i < |st.refs[k]| && mid == st.(refs := st.refs[k := Without(st.refs[k], i)])
    ensures Next(st, TakeRef(k, i)) == Enter(mid, k, RefKey(st.refs[k][i]), RefArrives(st.refs[k][i]))
  {
  }

  lemma SameAround(f: Valuation, st: State, st': State, k: Stage)
    requires Shape(st) && Shape(st') && st.sales == st'.sales && st.cells == st'.cells
    ensures Around(f, st, k) == Around(f, st', k)
  {
  }

  lemma RefAround(f: Valuation, good: Trust, st: State, k: Stage, i: nat)
    requires Shape(st) && i < |st.refs[k]| && RefsGood(st, good) && Respects(f, k, good)
    requires Shape(Next(st, TakeRef(k, i)))
    ensures Around(f, Next(st, TakeRef(k, i)), k) == Around(f, st, k)
  {
    RefsFitWithout(k, st.refs[k], i);
    CellGood(st, good, k, RefKey(st.refs[k][i]));
    var mid := st.(refs := st.refs[k := Without(st.refs[k], i)]);
    SameAround(f, st, mid, k);
    TakingRef(st, k, i, mid);
    EnterRefAround(f, good, mid, k, st.refs[k][i]);
  }

  lemma PlusNothing(m: multiset<Sale>)
    ensures m + multiset{} == m
  {
  }

  lemma RefKeepsLoad(f: Valuation, good: Trust, st: State, k: Stage, i: nat)
    requires Shape(st) && i < |st.refs[k]| && RefsGood(st, good) && Respects(f, k, good)
    requires Shape(Next(st, TakeRef(k, i)))
    ensures Load(f, Next(st, TakeRef(k, i))) == Load(f, st)
  {
    RefAround(f, good, st, k, i);
    AroundToLoad(f, st, Next(st, TakeRef(k, i)), k);
  }

  /** One step of any operator leaves the load unchanged. */
  lemma StepKeepsLoad(f: Valuation, good: Trust, st: State, a: Action)
    requires Shape(st) && Enabled(st, a) && RefsGood(st, good)
    requires forall k: Stage :: Respects(f, k, good)
    ensures Shape(Next(st, a)) && Load(f, Next(st, a)) == Load(f, st)
  {
    NextKeepsShape(st, a);
    match a
    case CleanCustomer(_) =>
    case TakeCustomer(_) =>
    case TakeAddress(_) =>
    case TakeSale(k, i) => SaleKeepsLoad(f, good, st, k, i);
    case TakeRef(k, i) => RefKeepsLoad(f, good, st, k, i);
  }

  // ---------- No sale is lost or duplicated ----------

  ghost function Original(): Valuation { (k: int, s: Sale) => multiset{Strip(s)} }

  lemma {:induction false} TallyOriginal(k: int, ss: seq<Sale>)
    ensures Tally(Original(), k, ss) == multiset(Map(Strip, ss))
  {
    if ss != [] {
      TallyOriginal(k, ss[1..]);
    }
  }

  ghost function Buffers(cells: map<Key, Cell>): map<Key, multiset<Sale>> {
    map x | x in cells :: multiset(Map(Strip, cells[x].waiting))
  }

  /** The sales waiting in one stage, as they arrived. */
  ghost function Buffered(cells: map<Key, Cell>): multiset<Sale> {
    Sum(Buffers(cells))
  }

  /** The sales that have not left stage k, as they arrived. */
  ghost function InStage(st: State, k: Stage): multiset<Sale>
    requires Shape(st)
  {
    multiset(Map(Strip, st.sales[k])) + Buffered(st.cells[k])
  }

  lemma BufferedIsTally(k: int, cells: map<Key, Cell>)
    ensures CellTally(Original(), k, cells) == Buffered(cells)
  {
    forall x | x in cells ensures Tallies(Original(), k, cells)[x] == Buffers(cells)[x] {
      TallyOriginal(k, cells[x].waiting);
    }
    assert Tallies(Original(), k, cells) == Buffers(cells);
  }

  lemma {:induction false} RunKeepsOriginals(st: State, acts: seq<Action>)
    requires Shape(st) && Runs(st, acts)
    ensures Load(Original(), After(st, acts)) == Load(Original(), st)
    decreases acts
  {
    if acts != [] {
      StepKeepsLoad(Original(), (k: int, r: Ref) => true, st, acts[0]);
      RunKeepsOriginals(Next(st, acts[0]), acts[1..]);
    }
  }

  lemma StageLoadOfOriginals(st: State, k: Stage)
    requires Shape(st)
    ensures StageLoad(Original(), st, k) == InStage(st, k)
  {
    BufferedIsTally(k, st.cells[k]);
    TallyOriginal(k, st.sales[k]);
  }

  lemma LoadOfOriginals(st: State)
    requires Shape(st)
    ensures Load(Original(), st) == InStage(st, BILLING) + InStage(st, SHIPPING) + InStage(st, ITEM)
                                    + InStage(st, PROMO) + multiset(Map(Strip, st.sales[4]))
  {
    StageLoadOfOriginals(st, BILLING);
    StageLoadOfOriginals(st, SHIPPING);
    StageLoadOfOriginals(st, ITEM);
    StageLoadOfOriginals(st, PROMO);
    TallyOriginal(4, st.sales[4]);
  }

  /** Conservation, for all inputs and in every reachable state, with no assumption on ids: the sales
      received are, as a multiset, those collected at the end plus those in the channel and in the buffers
      of each of the four stages. */
  lemma NoSaleLostOrDuplicated(inp: Inputs, acts: seq<Action>)
    requires Runs(Init(inp), acts)
    ensures var st := After(Init(inp), acts);
            multiset(Map(Strip, inp.sales)) ==
            InStage(st, BILLING) + InStage(st, SHIPPING) + InStage(st, ITEM) + InStage(st, PROMO)
            + multiset(Map(Strip, st.sales[4]))
  {
    var st := Init(inp);
    RunKeepsOriginals(st, acts);
    LoadOfOriginals(After(st, acts));
    LoadOfOriginals(st);
    OnlyReceived(inp);
  }

  lemma NothingBuffered(cells: map<Key, Cell>)
    requires cells == map[]
    ensures Buffered(cells) == multiset{}
  {
  }

  lemma OnlyReceived(inp: Inputs)
    ensures InStage(Init(inp), BILLING) == multiset(Map(Strip, inp.sales))
    ensures forall k: Stage :: k != BILLING ==> InStage(Init(inp), k) == multiset{}
  {
    var st := Init(inp);
    forall k: Stage ensures Buffered(st.cells[k]) == multiset{} && (k != BILLING ==> st.sales[k] == []) {
      NothingBuffered(st.cells[k]);
    }
    assert Map(Strip, []) == [];
  }
}
