/** The join operators as Flink runs them: objects whose state fields hold the state of the current key. */
module Joiners {
  import opened Basics
  import opened Records
  import opened Operators

  lemma EnrichNext(k: Stage, ss: seq<Sale>, i: nat, r: Ref)
    requires i < |ss| && Fits(k, r)
    ensures EnrichAll(k, ss[..i + 1], r) == EnrichAll(k, ss[..i], r) + [Enrich(k, ss[i], r)]
  {
    EnrichAllConcat(k, ss[..i], [ss[i]], r);
    Prefixes(ss, i, |ss|);
  }

  /** `SaleCustomerJoiner` with the `enrich` of its billing or of its shipping subclass. */
  class SaleCustomerJoiner {
    const stage: Stage
    var customerState: Option<Customer>
    var salesState: seq<Sale>

    ghost predicate Valid()
      reads this
    {
      stage <= SHIPPING && CellFits(stage, State())
    }

    ghost function State(): Cell
      reads this
    {
      Cell(if customerState.Some? then Some(OfCustomer(customerState.value)) else None, salesState)
    }

    constructor (stage: Stage)
      requires stage <= SHIPPING
      ensures Valid() && State() == EMPTY_CELL && this.stage == stage
    {
      this.stage := stage;
      customerState := None;
      salesState := [];
    }

    method ProcessElement1(value: Sale) returns (out: seq<Sale>)
      requires Valid()
      modifies this
      ensures Valid()
      ensures (State(), out) == Process(stage, old(State()), SaleArrives(value))
    {
      out := [];
      if customerState.None? {
        salesState := salesState + [value];
      } else {
        var customer := customerState.value;
        out := [Enrich(stage, value, OfCustomer(customer))];
      }
    }

    method ProcessElement2(value: Customer) returns (out: seq<Sale>)
      requires Valid()
      modifies this
      ensures Valid()
      ensures (State(), out) == Process(stage, old(State()), RefArrives(OfCustomer(value)))
    {
      customerState := Some(value);
      out := [];
      for i := 0 to |salesState|
        invariant customerState == Some(value) && salesState == old(salesState)
        invariant out == EnrichAll(stage, salesState[..i], OfCustomer(value))
      {
        EnrichNext(stage, salesState, i, OfCustomer(value));
        out := out + [Enrich(stage, salesState[i], OfCustomer(value))];
      }
      Prefixes(salesState, 0, |salesState|);
      salesState := [];
    }
  }

  class SaleItemJoiner {
    var itemState: Option<Item>
    var salesState: seq<Sale>

    ghost predicate Valid()
      reads this
    {
      CellFits(ITEM, State())
    }

    ghost function State(): Cell
      reads this
    {
      Cell(if itemState.Some? then Some(OfItem(itemState.value)) else None, salesState)
    }

    constructor ()
      ensures Valid() && State() == EMPTY_CELL
    {
      itemState := None;
      salesState := [];
    }

    method ProcessElement1(value: Sale) returns (out: seq<Sale>)
      requires Valid()
      modifies this
      ensures Valid()
      ensures (State(), out) == Process(ITEM, old(State()), SaleArrives(value))
    {
      out := [];
      if itemState.None? {
        salesState := salesState + [value];
      } else {
        var item := itemState.value;
        out := [Enrich(ITEM, value, OfItem(item))];
      }
    }

    method ProcessElement2(value: Item) returns (out: seq<Sale>)
      requires Valid()
      modifies this
      ensures Valid()
      ensures (State(), out) == Process(ITEM, old(State()), RefArrives(OfItem(value)))
    {
      itemState := Some(value);
      out := [];
      for i := 0 to |salesState|
        invariant itemState == Some(value) && salesState == old(salesState)
        invariant out == EnrichAll(ITEM, salesState[..i], OfItem(value))
      {
        EnrichNext(ITEM, salesState, i, OfItem(value));
        out := out + [Enrich(ITEM, salesState[i], OfItem(value))];
      }
      Prefixes(salesState, 0, |salesState|);
      salesState := [];
    }
  }

  class SalePromoJoiner {
    var promoState: Option<Promo>
    var salesState: seq<Sale>

    ghost predicate Valid()
      reads this
    {
      CellFits(PROMO, State())
    }

    ghost function State(): Cell
      reads this
    {
      Cell(if promoState.Some? then Some(OfPromo(promoState.value)) else None, salesState)
    }

    constructor ()
      ensures Valid() && State() == EMPTY_CELL
    {
      promoState := None;
      salesState := [];
    }

    method ProcessElement1(value: Sale) returns (out: seq<Sale>)
      requires Valid()
      modifies this
      ensures Valid()
      ensures (State(), out) == Process(PROMO, old(State()), SaleArrives(value))
    {
      out := [];
      if value.promoId.None? {
        out := [value];
      } else if promoState.None? {
        salesState := salesState + [value];
      } else {
        var promo := promoState.value;
        out := [Enrich(PROMO, value, OfPromo(promo))];
      }
    }

    method ProcessElement2(value: Promo) returns (out: seq<Sale>)
      requires Valid()
      modifies this
      ensures Valid()
      ensures (State(), out) == Process(PROMO, old(State()), RefArrives(OfPromo(value)))
    {
      promoState := Some(value);
      out := [];
      for i := 0 to |salesState|
        invariant promoState == Some(value) && salesState == old(salesState)
        invariant out == EnrichAll(PROMO, salesState[..i], OfPromo(value))
      {
        EnrichNext(PROMO, salesState, i, OfPromo(value));
        out := out + [Enrich(PROMO, salesState[i], OfPromo(value))];
      }
      Prefixes(salesState, 0, |salesState|);
      salesState := [];
    }
  }
}
