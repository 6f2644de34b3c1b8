/** What each Flink operator does with the state of one key, and the closed form of a run on one key. */
module Operators {
  import opened Basics
  import opened Records

  // ---------- The buffered joins: SaleCustomerJoiner, SaleItemJoiner, SalePromoJoiner ----------

  /** `ValueState` with the reference record and `ListState` with the waiting sales of one key. */
  datatype Cell = Cell(ref: Option<Ref>, waiting: seq<Sale>)

  const EMPTY_CELL := Cell(None, [])

  datatype Event = SaleArrives(sale: Sale) | RefArrives(ref: Ref)

  function EventKey(k: Stage, e: Event): Key {
    match e
    case SaleArrives(s) => SaleKey(k, s)
    case RefArrives(r) => RefKey(r)
  }

  predicate CellFits(k: Stage, c: Cell) {
    c.ref.Some? ==> Fits(k, c.ref.value) && c.waiting == []
  }

  predicate EventFits(k: Stage, e: Event) {
    e.RefArrives? ==> Fits(k, e.ref)
  }

  predicate EventsFit(k: Stage, es: seq<Event>) {
    forall i :: 0 <= i < |es| ==> EventFits(k, es[i])
  }

  predicate NonePassThrough(k: Stage, es: seq<Event>) {
    forall i :: 0 <= i < |es| && es[i].SaleArrives? ==> !PassesThrough(k, es[i].sale)
  }

  function EnrichAll(k: Stage, ss: seq<Sale>, r: Ref): (out: seq<Sale>)
    requires Fits(k, r)
    ensures |out| == |ss|
    ensures forall i :: 0 <= i < |ss| ==> out[i] == Enrich(k, ss[i], r)
  {
    if ss == [] then [] else [Enrich(k, ss[0], r)] + EnrichAll(k, ss[1..], r)
  }

  /** `processElement1` and `processElement2`: the new state of the key and the sales collected. */
  function Process(k: Stage, c: Cell, e: Event): (Cell, seq<Sale>)
    requires CellFits(k, c) && EventFits(k, e)
  {
    match e
    case SaleArrives(s) =>
      if PassesThrough(k, s) then (c, [s])
      else if c.ref.None? then (c.(waiting := c.waiting + [s]), [])
      else (c, [Enrich(k, s, c.ref.value)])
    case RefArrives(r) => (Cell(Some(r), []), EnrichAll(k, c.waiting, r))
  }

  /** A run of one key's operator instance from state c. */
  function RunCell(k: Stage, c: Cell, es: seq<Event>): (Cell, seq<Sale>)
    requires CellFits(k, c) && EventsFit(k, es)
    decreases es
  {
    if es == [] then (c, []) else
      var (c1, out) := Process(k, c, es[0]);
      var (c2, rest) := RunCell(k, c1, es[1..]);
      (c2, out + rest)
  }

  function FirstRef(es: seq<Event>): (r: Option<Ref>)
    ensures r.Some? ==> exists i :: 0 <= i < |es| && es[i] == RefArrives(r.value)
  {
    if es == [] then None else if es[0].RefArrives? then Some(es[0].ref) else FirstRef(es[1..])
  }

  function LastRef(es: seq<Event>): Option<Ref> {
    if es == [] then None
    else if es[|es| - 1].RefArrives? then Some(es[|es| - 1].ref)
    else LastRef(es[..|es| - 1])
  }

  /** The sales among the events, in order of arrival. */
  function Arrivals(es: seq<Event>): seq<Sale> {
    if es == [] then [] else (if es[0].SaleArrives? then [es[0].sale] else []) + Arrivals(es[1..])
  }

  /** Every sale in order of arrival with the record that was newest when it arrived, or, when there was
      none yet, with the first record that follows it. */
  function LatestOrFirst(k: Stage, newest: Option<Ref>, es: seq<Event>): seq<Sale>
    requires newest.Some? ==> Fits(k, newest.value)
    requires EventsFit(k, es)
    decreases es
  {
    if es == [] then [] else
    match es[0]
    case RefArrives(r) => LatestOrFirst(k, Some(r), es[1..])
    case SaleArrives(s) =>
      var r := if newest.Some? then newest else FirstRef(es[1..]);
      (if r.Some? then [Enrich(k, s, r.value)] else []) + LatestOrFirst(k, newest, es[1..])
  }

  /** What a run from state c still collects from the sales already waiting in it. */
  function Released(k: Stage, c: Cell, es: seq<Event>): seq<Sale>
    requires CellFits(k, c) && EventsFit(k, es)
  {
    if c.ref.None? && FirstRef(es).Some? then EnrichAll(k, c.waiting, FirstRef(es).value) else []
  }

  lemma {:induction false} RunFrom(k: Stage, c: Cell, es: seq<Event>)
    requires CellFits(k, c) && EventsFit(k, es) && NonePassThrough(k, es)
    ensures RunCell(k, c, es).1 == Released(k, c, es) + LatestOrFirst(k, c.ref, es)
    decreases es
  {
    if es != [] {
      var (c1, out) := Process(k, c, es[0]);
      RunFrom(k, c1, es[1..]);
      assert RunCell(k, c, es).1 == out + (Released(k, c1, es[1..]) + LatestOrFirst(k, c1.ref, es[1..]));
      if es[0].SaleArrives? && c.ref.None? && FirstRef(es).Some? {
        EnrichAllConcat(k, c.waiting, [es[0].sale], FirstRef(es).value);
      }
    }
  }

  lemma {:induction false} FinalWaiting(k: Stage, c: Cell, es: seq<Event>)
    requires CellFits(k, c) && EventsFit(k, es) && NonePassThrough(k, es)
    ensures RunCell(k, c, es).0.waiting == if c.ref.None? && FirstRef(es).None? then c.waiting + Arrivals(es) else []
    decreases es
  {
    if es != [] {
      var c1, rest := Process(k, c, es[0]).0, es[1..];
      assert RunCell(k, c, es).0 == RunCell(k, c1, rest).0;
      FinalWaiting(k, c1, rest);
      match es[0]
      case SaleArrives(s) =>
        assert Arrivals(es) == [s] + Arrivals(rest);
        if c.ref.None? {
          assert c1.waiting + Arrivals(rest) == c.waiting + Arrivals(es);
        }
      case RefArrives(_) =>
        assert c1.ref.Some?;
    }
  }

  lemma {:induction false} FinalRef(k: Stage, c: Cell, es: seq<Event>)
    requires CellFits(k, c) && EventsFit(k, es) && NonePassThrough(k, es)
    ensures RunCell(k, c, es).0.ref == if LastRef(es).Some? then LastRef(es) else c.ref
    decreases es
  {
    if es != [] {
      var c1, rest := Process(k, c, es[0]).0, es[1..];
      assert RunCell(k, c, es).0 == RunCell(k, c1, rest).0;
      FinalRef(k, c1, rest);
      LastRefHead(es);
    }
  }

  lemma {:induction false} LastRefHead(es: seq<Event>)
    requires es != []
    ensures LastRef(es) == if LastRef(es[1..]).Some? then LastRef(es[1..])
                           else if es[0].RefArrives? then Some(es[0].ref) else None
  {
    if |es| > 1 {
      var front := es[..|es| - 1];
      assert es[1..][|es| - 2] == es[|es| - 1];
      assert es[1..][..|es| - 2] == front[1..];
      LastRefHead(front);
    } else {
      assert es[..0] == [];
    }
  }

  lemma EnrichAllConcat(k: Stage, a: seq<Sale>, b: seq<Sale>, r: Ref)
    requires Fits(k, r)
    ensures EnrichAll(k, a + b, r) == EnrichAll(k, a, r) + EnrichAll(k, b, r)
  {
    var l, m := EnrichAll(k, a + b, r), EnrichAll(k, a, r) + EnrichAll(k, b, r);
    assert |l| == |m|;
    forall i | 0 <= i < |l| ensures l[i] == m[i] {
      if i < |a| {
      } else {
        assert (a + b)[i] == b[i - |a|];
      }
    }
  }

  /** One key of a buffered join, from empty state: nothing is collected before the first record; from
      then on the sales come out in order of arrival, each with the newest record before it or, if it had
      to wait, with the first one. What is left in the state is the last record, or all the sales. */
  lemma ClosedForm(k: Stage, es: seq<Event>)
    requires EventsFit(k, es) && NonePassThrough(k, es)
    ensures RunCell(k, EMPTY_CELL, es).1 == LatestOrFirst(k, None, es)
    ensures RunCell(k, EMPTY_CELL, es).0 == Cell(LastRef(es), if LastRef(es).None? then Arrivals(es) else [])
    ensures LastRef(es).None? ==> RunCell(k, EMPTY_CELL, es).1 == []
    ensures LastRef(es).Some? ==> Map(Strip, RunCell(k, EMPTY_CELL, es).1) == Map(Strip, Arrivals(es))
  {
    LastIffFirst(es);
    assert RunCell(k, EMPTY_CELL, es).1 == LatestOrFirst(k, None, es) by {
      RunFrom(k, EMPTY_CELL, es);
    }
    assert RunCell(k, EMPTY_CELL, es).0 == Cell(LastRef(es), if LastRef(es).None? then Arrivals(es) else []) by {
      FinalWaiting(k, EMPTY_CELL, es);
      FinalRef(k, EMPTY_CELL, es);
    }
    LatestOrFirstKeepsOrder(k, None, es);
  }

  lemma {:induction false} LastIffFirst(es: seq<Event>)
    ensures LastRef(es).Some? <==> FirstRef(es).Some?
  {
    if es != [] {
      LastRefHead(es);
      LastIffFirst(es[1..]);
    }
  }

  lemma {:induction false} LatestOrFirstKeepsOrder(k: Stage, newest: Option<Ref>, es: seq<Event>)
    requires newest.Some? ==> Fits(k, newest.value)
    requires EventsFit(k, es)
    ensures newest.Some? || FirstRef(es).Some? ==>
              Map(Strip, LatestOrFirst(k, newest, es)) == Map(Strip, Arrivals(es))
    ensures newest.None? && FirstRef(es).None? ==> LatestOrFirst(k, newest, es) == []
    decreases es
  {
    if es != [] {
      match es[0]
      case RefArrives(r) => LatestOrFirstKeepsOrder(k, Some(r), es[1..]);
      case SaleArrives(s) =>
        LatestOrFirstKeepsOrder(k, newest, es[1..]);
    }
  }

  /** The key of the sales without a promo: the promo join is the identity on their arrivals. */
  lemma {:induction false} NullPromoPassesThrough(c: Cell, es: seq<Event>)
    requires CellFits(PROMO, c)
    requires EventsFit(PROMO, es)
    requires forall i :: 0 <= i < |es| && es[i].SaleArrives? ==> es[i].sale.promoId.None?
    requires c.waiting == []
    decreases es
    ensures RunCell(PROMO, c, es).1 == Arrivals(es)
  {
    if es != [] {
      var (c1, out) := Process(PROMO, c, es[0]);
      NullPromoPassesThrough(c1, es[1..]);
    }
  }
}
