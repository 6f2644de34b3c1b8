/** The relational join that the streaming job is meant to compute, as nested loops over whole tables. */
module BatchJoin {
  import opened Basics
  import opened Records
  import opened Pipeline

  function AddressesOf(c: Customer, addresses: seq<Address>): seq<Ref> {
    if addresses == [] then [] else
      (if addresses[0].addressId == c.addressId then [OfCustomer(WithAddress(Clean(c), addresses[0]))] else [])
      + AddressesOf(c, addresses[1..])
  }

  /** Customers, cleaned, joined with addresses on the address id. */
  function CustomerTable(customers: seq<Customer>, addresses: seq<Address>): seq<Ref> {
    if customers == [] then [] else
      AddressesOf(customers[0], addresses) + CustomerTable(customers[1..], addresses)
  }

  /** The table that stage k joins the sales with. */
  function Table(inp: Inputs, k: Stage): seq<Ref> {
    if k <= SHIPPING then CustomerTable(inp.customers, inp.addresses)
    else if k == ITEM then Map(i => OfItem(i), inp.items)
    else Map(p => OfPromo(p), inp.promos)
  }

  function Matches(k: Stage, s: Sale, refs: seq<Ref>): seq<Sale> {
    if refs == [] then [] else
      (if Fits(k, refs[0]) && RefKey(refs[0]) == SaleKey(k, s) then [Enrich(k, s, refs[0])] else [])
      + Matches(k, s, refs[1..])
  }

  /** An inner join on the key of stage k that keeps the sales without a promo id. */
  function JoinOne(k: Stage, s: Sale, refs: seq<Ref>): seq<Sale> {
    if PassesThrough(k, s) then [s] else Matches(k, s, refs)
  }

  function JoinAll(k: Stage, ss: seq<Sale>, refs: seq<Ref>): seq<Sale> {
    if ss == [] then [] else JoinOne(k, ss[0], refs) + JoinAll(k, ss[1..], refs)
  }

  /** The joins of the stages from k on, one after the other. */
  function JoinFrom(inp: Inputs, k: nat, ss: seq<Sale>): seq<Sale>
    decreases 4 - k
  {
    if k >= 4 then ss else JoinFrom(inp, k + 1, JoinAll(k, ss, Table(inp, k)))
  }

  // ---------- What the tables hold ----------

  lemma {:induction false} AddressesOfHas(c: Customer, addresses: seq<Address>, r: Ref)
    ensures r in AddressesOf(c, addresses) <==>
            exists a | a in addresses :: a.addressId == c.addressId && r == OfCustomer(WithAddress(Clean(c), a))
  {
    if addresses != [] {
      AddressesOfHas(c, addresses[1..], r);
      assert addresses == [addresses[0]] + addresses[1..];
    }
  }

  /** v is what the job makes of the source customer c and the address a: all fields are c's, except that the
      address is attached and that a birth date which is missing or empty is the first day of 1970. */
  predicate Carries(v: Customer, c: Customer, a: Address) {
    && v.customerId == c.customerId && v.addressId == c.addressId && v.details == c.details
    && v.address == Some(a)
    && v.birthDate == (if c.birthDate.Some? && c.birthDate.value != "" then c.birthDate
                       else Some("1970-01-01T00:00:00.000000Z"))
  }

  /** r is the record of c, carrying the address a of its address id. */
  predicate IsJoined(r: Ref, c: Customer, a: Address) {
    c.addressId == a.addressId && r.OfCustomer? && Carries(r.customer, c, a)
  }

  lemma JoinedIff(r: Ref, c: Customer, a: Address)
    ensures IsJoined(r, c, a) <==> c.addressId == a.addressId && r == OfCustomer(WithAddress(Clean(c), a))
  {
  }

  /** The customer table holds exactly the source customers with the source addresses that they name. */
  lemma {:induction false} CustomerTableHas(customers: seq<Customer>, addresses: seq<Address>, r: Ref)
    ensures r in CustomerTable(customers, addresses) <==>
            exists c, a | c in customers && a in addresses :: IsJoined(r, c, a)
  {
    if customers != [] {
      AddressesOfHas(customers[0], addresses, r);
      CustomerTableHas(customers[1..], addresses, r);
      HeadTail(customers);
      if r in AddressesOf(customers[0], addresses) {
        var a :| a in addresses && a.addressId == customers[0].addressId
                 && r == OfCustomer(WithAddress(Clean(customers[0]), a));
        JoinedIff(r, customers[0], a);
        assert IsJoined(r, customers[0], a);
      }
      if c, a :| c in customers && a in addresses && IsJoined(r, c, a) {
        JoinedIff(r, c, a);
        assert c == customers[0] || c in customers[1..];
      }
    }
  }

  lemma TableFits(inp: Inputs, k: Stage, r: Ref)
    requires r in Table(inp, k)
    ensures Fits(k, r)
  {
    if k <= SHIPPING {
      CustomerTableHas(inp.customers, inp.addresses, r);
    }
  }

  // ---------- Distributivity ----------

  lemma {:induction false} JoinAllConcat(k: Stage, a: seq<Sale>, b: seq<Sale>, refs: seq<Ref>)
    ensures JoinAll(k, a + b, refs) == JoinAll(k, a, refs) + JoinAll(k, b, refs)
  {
    if a == [] {
      assert a + b == b;
    } else {
      assert (a + b)[1..] == a[1..] + b;
      JoinAllConcat(k, a[1..], b, refs);
      var head := JoinOne(k, a[0], refs);
      assert head + (JoinAll(k, a[1..], refs) + JoinAll(k, b, refs))
          == head + JoinAll(k, a[1..], refs) + JoinAll(k, b, refs);
    }
  }

  lemma {:induction false} JoinFromConcat(inp: Inputs, k: nat, a: seq<Sale>, b: seq<Sale>)
    ensures JoinFrom(inp, k, a + b) == JoinFrom(inp, k, a) + JoinFrom(inp, k, b)
    decreases 4 - k
  {
    if k < 4 {
      var t := Table(inp, k);
      JoinAllConcat(k, a, b, t);
      JoinFromConcat(inp, k + 1, JoinAll(k, a, t), JoinAll(k, b, t));
    }
  }

  lemma {:induction false} JoinFromNone(inp: Inputs, k: nat)
    ensures JoinFrom(inp, k, []) == []
    decreases 4 - k
  {
    if k < 4 {
      JoinFromNone(inp, k + 1);
    }
  }

  lemma JoinFromOne(inp: Inputs, k: Stage, s: Sale)
    ensures JoinFrom(inp, k, [s]) == JoinFrom(inp, k + 1, JoinOne(k, s, Table(inp, k)))
  {
    var t := Table(inp, k);
    assert JoinAll(k, [], t) == [];
    assert JoinAll(k, [s], t) == JoinOne(k, s, t);
  }

  // ---------- Unique ids ----------

  /** At most one record per customer, item and promo id, and at most one customer and one address per
      address id. Missing records are allowed. */
  ghost predicate UniqueIds(inp: Inputs) {
    && (forall i, j :: 0 <= i < j < |inp.customers| ==> inp.customers[i].customerId != inp.customers[j].customerId)
    && (forall i, j :: 0 <= i < j < |inp.customers| ==> inp.customers[i].addressId != inp.customers[j].addressId)
    && (forall i, j :: 0 <= i < j < |inp.addresses| ==> inp.addresses[i].addressId != inp.addresses[j].addressId)
    && (forall i, j :: 0 <= i < j < |inp.items| ==> inp.items[i].itemId != inp.items[j].itemId)
    && (forall i, j :: 0 <= i < j < |inp.promos| ==> inp.promos[i].promoId != inp.promos[j].promoId)
  }

  predicate DistinctKeys(refs: seq<Ref>) {
    forall i, j :: 0 <= i < j < |refs| ==> RefKey(refs[i]) != RefKey(refs[j])
  }

  lemma {:induction false} AtMostOneAddress(c: Customer, addresses: seq<Address>)
    requires forall i, j :: 0 <= i < j < |addresses| ==> addresses[i].addressId != addresses[j].addressId
    ensures |AddressesOf(c, addresses)| <= 1
    ensures forall i :: 0 <= i < |AddressesOf(c, addresses)| ==> RefKey(AddressesOf(c, addresses)[i]) == ById(c.customerId)
    ensures (forall i :: 0 <= i < |addresses| ==> addresses[i].addressId != c.addressId) ==> AddressesOf(c, addresses) == []
  {
    if addresses != [] {
      AtMostOneAddress(c, addresses[1..]);
    }
  }

  lemma {:induction false} CustomerKeysDistinct(customers: seq<Customer>, addresses: seq<Address>)
    requires forall i, j :: 0 <= i < j < |customers| ==> customers[i].customerId != customers[j].customerId
    requires forall i, j :: 0 <= i < j < |addresses| ==> addresses[i].addressId != addresses[j].addressId
    ensures DistinctKeys(CustomerTable(customers, addresses))
    ensures forall i :: 0 <= i < |CustomerTable(customers, addresses)| ==>
              exists j :: 0 <= j < |customers| && RefKey(CustomerTable(customers, addresses)[i]) == ById(customers[j].customerId)
  {
    if customers != [] {
      var rest := CustomerTable(customers[1..], addresses);
      var head := AddressesOf(customers[0], addresses);
      AtMostOneAddress(customers[0], addresses);
      CustomerKeysDistinct(customers[1..], addresses);
      forall i | 0 <= i < |rest|
        ensures exists j :: 1 <= j < |customers| && RefKey(rest[i]) == ById(customers[j].customerId)
      {
        var j :| 0 <= j < |customers[1..]| && RefKey(rest[i]) == ById(customers[1..][j].customerId);
        assert customers[1..][j] == customers[j + 1];
      }
      forall i | 0 <= i < |head + rest|
        ensures exists j :: 0 <= j < |customers| && RefKey((head + rest)[i]) == ById(customers[j].customerId)
      {
        if i >= |head| {
          assert (head + rest)[i] == rest[i - |head|];
        }
      }
    }
  }

  lemma TableKeysDistinct(inp: Inputs, k: Stage)
    requires UniqueIds(inp)
    ensures DistinctKeys(Table(inp, k))
  {
    if k <= SHIPPING {
      CustomerKeysDistinct(inp.customers, inp.addresses);
    }
  }

  lemma {:induction false} NoMatch(k: Stage, s: Sale, refs: seq<Ref>)
    requires forall i :: 0 <= i < |refs| ==> RefKey(refs[i]) != SaleKey(k, s)
    ensures Matches(k, s, refs) == []
  {
    if refs != [] {
      NoMatch(k, s, refs[1..]);
    }
  }

  lemma {:induction false} OneMatch(k: Stage, s: Sale, refs: seq<Ref>, r: Ref)
    requires DistinctKeys(refs) && r in refs && Fits(k, r) && RefKey(r) == SaleKey(k, s)
    ensures Matches(k, s, refs) == [Enrich(k, s, r)]
  {
    if refs[0] == r {
      NoMatch(k, s, refs[1..]);
    } else {
      assert refs == [refs[0]] + refs[1..];
      assert r in refs[1..];
      OneMatch(k, s, refs[1..], r);
    }
  }
}
