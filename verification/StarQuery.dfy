/** `ATHENA_CUSTOM_SQL`: store sales joined with the newest row of each slowly changing dimension. */
module StarQuery {
  import opened Basics

  /** A column that may be NULL. In SQL an equation with NULL never holds. */
  type Nullable = Option<int>

  predicate SqlEqual(a: Nullable, b: Nullable) {
    a.Some? && b.Some? && a.value == b.value
  }

  /** A row of a dimension: its id, its version time and the other columns. Customers refer to an address. */
  datatype DimRow = DimRow(id: Nullable, datetime: Nullable, addressId: Nullable, details: string)

  datatype SaleRow = SaleRow(customerId: Nullable, itemId: Nullable, storeId: Nullable, details: string)

  type Dim = seq<DimRow>

  // ---------- The query as written ----------

  /** A row of `SELECT id, max(datetime) ... GROUP BY id`. */
  datatype Group = Group(id: Nullable, maxDatetime: Nullable)

  /** SQL `max` over the rows of one group: NULLs are ignored. Grouping puts NULL ids together. */
  function Max(t: Dim, id: Nullable): Nullable {
    if t == [] then None else
      var rest := Max(t[1..], id);
      if t[0].id == id && t[0].datetime.Some? && (rest.None? || rest.value < t[0].datetime.value)
      then t[0].datetime else rest
  }

  /** One group for each distinct id among rows, with the maximum over t. */
  function Groups(t: Dim, rows: Dim): seq<Group> {
    if rows == [] then [] else
      var rest := Groups(t, rows[1..]);
      if exists g :: g in rest && g.id == rows[0].id then rest else [Group(rows[0].id, Max(t, rows[0].id))] + rest
  }

  /** `INNER JOIN t ON g.id = t.id AND g.max_datetime = t.datetime` */
  function JoinRows(g: Group, t: Dim): seq<DimRow> {
    if t == [] then [] else
      (if SqlEqual(g.id, t[0].id) && SqlEqual(g.maxDatetime, t[0].datetime) then [t[0]] else []) + JoinRows(g, t[1..])
  }

  /** `INNER JOIN groups ON key = groups.id INNER JOIN t ON ...` for one value of the key. */
  function JoinGroups(key: Nullable, gs: seq<Group>, t: Dim): seq<DimRow> {
    if gs == [] then [] else
      (if SqlEqual(key, gs[0].id) then JoinRows(gs[0], t) else []) + JoinGroups(key, gs[1..], t)
  }

  function JoinNewest(key: Nullable, t: Dim): seq<DimRow> {
    JoinGroups(key, Groups(t, t), t)
  }

  datatype Tables = Tables(sales: seq<SaleRow>, customers: Dim, addresses: Dim, items: Dim, stores: Dim)

  datatype ResultRow = ResultRow(sale: SaleRow, customer: DimRow, address: DimRow, item: DimRow, store: DimRow)

  function WithStores(s: SaleRow, c: DimRow, a: DimRow, i: DimRow, ds: seq<DimRow>): seq<ResultRow> {
    if ds == [] then [] else [ResultRow(s, c, a, i, ds[0])] + WithStores(s, c, a, i, ds[1..])
  }

  function WithItems(s: SaleRow, c: DimRow, a: DimRow, its: seq<DimRow>, ds: seq<DimRow>): seq<ResultRow> {
    if its == [] then [] else WithStores(s, c, a, its[0], ds) + WithItems(s, c, a, its[1..], ds)
  }

  function WithAddresses(s: SaleRow, c: DimRow, ads: seq<DimRow>, its: seq<DimRow>, ds: seq<DimRow>): seq<ResultRow> {
    if ads == [] then [] else WithItems(s, c, ads[0], its, ds) + WithAddresses(s, c, ads[1..], its, ds)
  }

  function WithCustomers(db: Tables, s: SaleRow, cs: seq<DimRow>, its: seq<DimRow>, ds: seq<DimRow>): seq<ResultRow> {
    if cs == [] then [] else
      WithAddresses(s, cs[0], JoinNewest(cs[0].addressId, db.addresses), its, ds) + WithCustomers(db, s, cs[1..], its, ds)
  }

  /** The rows that the query returns for one sale. */
  function OneSale(db: Tables, s: SaleRow): seq<ResultRow> {
    WithCustomers(db, s, JoinNewest(s.customerId, db.customers), JoinNewest(s.itemId, db.items), JoinNewest(s.storeId, db.stores))
  }

  function Query(db: Tables, sales: seq<SaleRow>): seq<ResultRow> {
    if sales == [] then [] else OneSale(db, sales[0]) + Query(db, sales[1..])
  }

  // ---------- What "the newest row" means ----------

  /** r is a row of the id, and no row of the id is newer. Rows without an id or a time do not count. */
  predicate IsNewest(t: Dim, id: Nullable, r: DimRow) {
    && r in t && id.Some? && r.id == id && r.datetime.Some?
    && forall o | o in t && o.id == id && o.datetime.Some? :: o.datetime.value <= r.datetime.value
  }

  /** The newest rows of an id, in table order: several when the newest time is tied. */
  function Newest(t: Dim, id: Nullable, rows: Dim): seq<DimRow> {
    if rows == [] then [] else (if IsNewest(t, id, rows[0]) then [rows[0]] else []) + Newest(t, id, rows[1..])
  }

  lemma {:induction false} MaxIs(t: Dim, id: Nullable)
    ensures forall o | o in t && o.id == id && o.datetime.Some? :: Max(t, id).Some? && o.datetime.value <= Max(t, id).value
    ensures Max(t, id).Some? ==> exists o | o in t :: o.id == id && o.datetime == Max(t, id)
  {
    if t != [] {
      MaxIs(t[1..], id);
      assert t == [t[0]] + t[1..];
    }
  }

  lemma {:induction false} GroupsAre(t: Dim, rows: Dim)
    ensures forall i :: 0 <= i < |Groups(t, rows)| ==> Groups(t, rows)[i].maxDatetime == Max(t, Groups(t, rows)[i].id)
    ensures forall i, j :: 0 <= i < j < |Groups(t, rows)| ==> Groups(t, rows)[i].id != Groups(t, rows)[j].id
    ensures forall r | r in rows :: exists g | g in Groups(t, rows) :: g.id == r.id
  {
    if rows != [] {
      GroupsAre(t, rows[1..]);
      var rest, all := Groups(t, rows[1..]), Groups(t, rows);
      assert rows == [rows[0]] + rows[1..];
      forall r | r in rows ensures exists g | g in all :: g.id == r.id {
        if r == rows[0] {
          if !(exists g :: g in rest && g.id == rows[0].id) {
            assert all[0] in all;
          }
        } else {
          var g :| g in rest && g.id == r.id;
          assert g in all;
        }
      }
    }
  }

  lemma {:induction false} JoinRowsAreNewest(t: Dim, id: Nullable, rows: Dim)
    requires forall r | r in rows :: r in t
    ensures id.Some? ==> JoinRows(Group(id, Max(t, id)), rows) == Newest(t, id, rows)
  {
    MaxIs(t, id);
    if rows != [] {
      JoinRowsAreNewest(t, id, rows[1..]);
    }
  }

  lemma {:induction false} NoGroup(key: Nullable, gs: seq<Group>, t: Dim)
    requires forall i :: 0 <= i < |gs| ==> !SqlEqual(key, gs[i].id)
    ensures JoinGroups(key, gs, t) == []
  {
    if gs != [] {
      NoGroup(key, gs[1..], t);
    }
  }

  lemma {:induction false} OneGroup(key: Nullable, gs: seq<Group>, t: Dim, g: Group)
    requires g in gs && SqlEqual(key, g.id)
    requires forall i, j :: 0 <= i < j < |gs| ==> gs[i].id != gs[j].id
    ensures JoinGroups(key, gs, t) == JoinRows(g, t)
  {
    if gs[0] == g {
      NoGroup(key, gs[1..], t);
    } else {
      assert gs == [gs[0]] + gs[1..];
      OneGroup(key, gs[1..], t, g);
    }
  }

  lemma {:induction false} NoNewest(t: Dim, id: Nullable, rows: Dim)
    requires forall r | r in rows :: !SqlEqual(id, r.id)
    ensures Newest(t, id, rows) == []
  {
    if rows != [] {
      NoNewest(t, id, rows[1..]);
    }
  }

  lemma {:induction false} GroupsFromRows(t: Dim, rows: Dim)
    ensures forall g | g in Groups(t, rows) :: exists r | r in rows :: r.id == g.id
  {
    if rows != [] {
      GroupsFromRows(t, rows[1..]);
      assert rows == [rows[0]] + rows[1..];
    }
  }

  lemma GroupOf(key: Nullable, t: Dim) returns (g: Group)
    requires exists r | r in t :: SqlEqual(key, r.id)
    ensures g in Groups(t, t) && g == Group(key, Max(t, key))
  {
    GroupsAre(t, t);
    var r :| r in t && SqlEqual(key, r.id);
    g :| g in Groups(t, t) && g.id == r.id;
  }

  lemma NoRowsNoGroup(key: Nullable, t: Dim)
    requires forall r | r in t :: !SqlEqual(key, r.id)
    ensures JoinNewest(key, t) == []
  {
    var gs := Groups(t, t);
    GroupsFromRows(t, t);
    forall i | 0 <= i < |gs| ensures !SqlEqual(key, gs[i].id) {
      var r :| r in t && r.id == gs[i].id;
    }
    NoGroup(key, gs, t);
  }

  /** The group-by-max subquery and its self-join select exactly the newest rows of the key, in order. */
  lemma JoinNewestIsNewest(key: Nullable, t: Dim)
    ensures JoinNewest(key, t) == Newest(t, key, t)
  {
    if exists r | r in t :: SqlEqual(key, r.id) {
      var g := GroupOf(key, t);
      GroupsAre(t, t);
      OneGroup(key, Groups(t, t), t, g);
      JoinRowsAreNewest(t, key, t);
    } else {
      NoRowsNoGroup(key, t);
      NoNewest(t, key, t);
    }
  }

  // ---------- Multiplicity ----------

  function Total(db: Tables, cs: seq<DimRow>): nat {
    if cs == [] then 0 else |Newest(db.addresses, cs[0].addressId, db.addresses)| + Total(db, cs[1..])
  }

  lemma {:induction false} StoresLength(s: SaleRow, c: DimRow, a: DimRow, i: DimRow, ds: seq<DimRow>)
    ensures |WithStores(s, c, a, i, ds)| == |ds|
    ensures forall r | r in WithStores(s, c, a, i, ds) :: r.sale == s && r.customer == c && r.address == a && r.item == i && r.store in ds
  {
    if ds != [] {
      StoresLength(s, c, a, i, ds[1..]);
    }
  }

  lemma {:induction false} ItemsLength(s: SaleRow, c: DimRow, a: DimRow, its: seq<DimRow>, ds: seq<DimRow>)
    ensures |WithItems(s, c, a, its, ds)| == |its| * |ds|
    ensures forall r | r in WithItems(s, c, a, its, ds) :: r.sale == s && r.customer == c && r.address == a && r.item in its && r.store in ds
  {
    if its != [] {
      StoresLength(s, c, a, its[0], ds);
      ItemsLength(s, c, a, its[1..], ds);
      assert |its| * |ds| == |ds| + (|its| - 1) * |ds|;
    }
  }

  lemma {:induction false} AddressesLength(s: SaleRow, c: DimRow, ads: seq<DimRow>, its: seq<DimRow>, ds: seq<DimRow>)
    ensures |WithAddresses(s, c, ads, its, ds)| == |ads| * (|its| * |ds|)
    ensures forall r | r in WithAddresses(s, c, ads, its, ds) ::
              r.sale == s && r.customer == c && r.address in ads && r.item in its && r.store in ds
  {
    if ads != [] {
      ItemsLength(s, c, ads[0], its, ds);
      AddressesLength(s, c, ads[1..], its, ds);
      assert |ads| * (|its| * |ds|) == |its| * |ds| + (|ads| - 1) * (|its| * |ds|);
    }
  }

  lemma Distribute(a: nat, b: nat, c: nat)
    ensures (a + b) * c == a * c + b * c
  {
  }

  /** n is the number of rows that one customer and address row is combined with. */
  lemma {:induction false} CustomersLength(db: Tables, s: SaleRow, cs: seq<DimRow>, its: seq<DimRow>, ds: seq<DimRow>, n: nat)
    requires n == |its| * |ds|
    ensures |WithCustomers(db, s, cs, its, ds)| == Total(db, cs) * n
  {
    if cs != [] {
      var ads := JoinNewest(cs[0].addressId, db.addresses);
      assert |ads| == |Newest(db.addresses, cs[0].addressId, db.addresses)| by {
        JoinNewestIsNewest(cs[0].addressId, db.addresses);
      }
      var here, rest := WithAddresses(s, cs[0], ads, its, ds), WithCustomers(db, s, cs[1..], its, ds);
      assert |here| == |ads| * n by {
        AddressesLength(s, cs[0], ads, its, ds);
      }
      assert |rest| == Total(db, cs[1..]) * n by {
        CustomersLength(db, s, cs[1..], its, ds, n);
      }
      Distribute(|ads|, Total(db, cs[1..]), n);
      assert Total(db, cs) == |ads| + Total(db, cs[1..]);
    }
  }

  lemma {:induction false} CustomersAre(db: Tables, s: SaleRow, cs: seq<DimRow>, its: seq<DimRow>, ds: seq<DimRow>)
    ensures forall r | r in WithCustomers(db, s, cs, its, ds) ::
              && r.sale == s && r.customer in cs && r.item in its && r.store in ds
              && r.address in Newest(db.addresses, r.customer.addressId, db.addresses)
  {
    if cs != [] {
      JoinNewestIsNewest(cs[0].addressId, db.addresses);
      var ads := JoinNewest(cs[0].addressId, db.addresses);
      AddressesLength(s, cs[0], ads, its, ds);
      CustomersAre(db, s, cs[1..], its, ds);
    }
  }

  lemma {:induction false} NewestHas(t: Dim, id: Nullable, rows: Dim, r: DimRow)
    ensures r in Newest(t, id, rows) <==> r in rows && IsNewest(t, id, r)
  {
    if rows != [] {
      NewestHas(t, id, rows[1..], r);
      assert rows == [rows[0]] + rows[1..];
    }
  }

  lemma SaleCount(db: Tables, s: SaleRow, n: nat)
    requires n == |Newest(db.items, s.itemId, db.items)| * |Newest(db.stores, s.storeId, db.stores)|
    ensures |OneSale(db, s)| == Total(db, Newest(db.customers, s.customerId, db.customers)) * n
  {
    JoinNewestIsNewest(s.customerId, db.customers);
    JoinNewestIsNewest(s.itemId, db.items);
    JoinNewestIsNewest(s.storeId, db.stores);
    CustomersLength(db, s, JoinNewest(s.customerId, db.customers), JoinNewest(s.itemId, db.items), JoinNewest(s.storeId, db.stores), n);
  }

  // How often one combination is returned: the product of how often its rows occur.

  lemma {:induction false} StoresCount(s: SaleRow, c: DimRow, a: DimRow, i: DimRow, ds: seq<DimRow>, r: ResultRow)
    ensures multiset(WithStores(s, c, a, i, ds))[r]
         == if r.sale == s && r.customer == c && r.address == a && r.item == i then multiset(ds)[r.store] else 0
  {
    if ds != [] {
      var here, rest := [ResultRow(s, c, a, i, ds[0])], WithStores(s, c, a, i, ds[1..]);
      StoresCount(s, c, a, i, ds[1..], r);
      CountConcat(here, rest, r);
      CountHead(ds, r.store);
    }
  }

  lemma {:induction false} ItemsCount(s: SaleRow, c: DimRow, a: DimRow, its: seq<DimRow>, ds: seq<DimRow>, r: ResultRow, n: nat)
    requires n == multiset(ds)[r.store]
    ensures multiset(WithItems(s, c, a, its, ds))[r]
         == if r.sale == s && r.customer == c && r.address == a then multiset(its)[r.item] * n else 0
  {
    if its != [] {
      StoresCount(s, c, a, its[0], ds, r);
      ItemsCount(s, c, a, its[1..], ds, r, n);
      CountConcat(WithStores(s, c, a, its[0], ds), WithItems(s, c, a, its[1..], ds), r);
      CountHead(its, r.item);
      Distribute(if its[0] == r.item then 1 else 0, multiset(its[1..])[r.item], n);
    }
  }

  lemma {:induction false} AddressesCount(s: SaleRow, c: DimRow, ads: seq<DimRow>, its: seq<DimRow>, ds: seq<DimRow>,
                                          r: ResultRow, n: nat)
    requires n == multiset(its)[r.item] * multiset(ds)[r.store]
    ensures multiset(WithAddresses(s, c, ads, its, ds))[r]
         == if r.sale == s && r.customer == c then multiset(ads)[r.address] * n else 0
  {
    if ads != [] {
      ItemsCount(s, c, ads[0], its, ds, r, multiset(ds)[r.store]);
      AddressesCount(s, c, ads[1..], its, ds, r, n);
      CountConcat(WithItems(s, c, ads[0], its, ds), WithAddresses(s, c, ads[1..], its, ds), r);
      CountHead(ads, r.address);
      Distribute(if ads[0] == r.address then 1 else 0, multiset(ads[1..])[r.address], n);
    }
  }

  lemma CustomerRowCount(db: Tables, s: SaleRow, c: DimRow, its: seq<DimRow>, ds: seq<DimRow>, r: ResultRow, m: nat, n: nat)
    requires m == multiset(its)[r.item] * multiset(ds)[r.store]
    requires n == NewestCount(db.addresses, r.customer.addressId, r.address) * m
    ensures multiset(WithAddresses(s, c, JoinNewest(c.addressId, db.addresses), its, ds))[r]
         == if r.sale == s && c == r.customer then n else 0
  {
    JoinNewestIsNewest(c.addressId, db.addresses);
    AddressesCount(s, c, JoinNewest(c.addressId, db.addresses), its, ds, r, m);
  }

  /** n is how often the combination is made from one occurrence of its customer row. */
  lemma {:induction false} CustomersCount(db: Tables, s: SaleRow, cs: seq<DimRow>, its: seq<DimRow>, ds: seq<DimRow>,
                                          r: ResultRow, m: nat, n: nat)
    requires m == multiset(its)[r.item] * multiset(ds)[r.store]
    requires n == NewestCount(db.addresses, r.customer.addressId, r.address) * m
    ensures multiset(WithCustomers(db, s, cs, its, ds))[r] == if r.sale == s then Times(multiset(cs)[r.customer], n) else 0
  {
    if cs != [] {
      var here := WithAddresses(s, cs[0], JoinNewest(cs[0].addressId, db.addresses), its, ds);
      var rest := WithCustomers(db, s, cs[1..], its, ds);
      CustomerRowCount(db, s, cs[0], its, ds, r, m, n);
      CustomersCount(db, s, cs[1..], its, ds, r, m, n);
      assert multiset(WithCustomers(db, s, cs, its, ds))[r] == multiset(here)[r] + multiset(rest)[r] by {
        CountConcat(here, rest, r);
      }
      CountHead(cs, r.customer);
      OneMore(if cs[0] == r.customer then 1 else 0, multiset(cs[1..])[r.customer], n);
    }
  }

  lemma OneMore(one: nat, more: nat, n: nat)
    requires one <= 1
    ensures Times(one + more, n) == (if one == 1 then n else 0) + Times(more, n)
  {
  }

  /** In how many ways the combination picks a newest row of each dimension for its sale. */
  function Ways(db: Tables, r: ResultRow): nat {
    Times(NewestCount(db.customers, r.sale.customerId, r.customer),
          Times(NewestCount(db.addresses, r.customer.addressId, r.address),
                Times(NewestCount(db.items, r.sale.itemId, r.item), NewestCount(db.stores, r.sale.storeId, r.store))))
  }

  function NewestCount(t: Dim, id: Nullable, row: DimRow): nat {
    multiset(Newest(t, id, t))[row]
  }

  function Times(a: nat, b: nat): nat {
    a * b
  }

  /** What a returned row combines with its sale. */
  predicate NewestParts(db: Tables, r: ResultRow) {
    && IsNewest(db.customers, r.sale.customerId, r.customer)
    && IsNewest(db.addresses, r.customer.addressId, r.address)
    && IsNewest(db.items, r.sale.itemId, r.item)
    && IsNewest(db.stores, r.sale.storeId, r.store)
  }

  lemma SaleParts(db: Tables, s: SaleRow)
    ensures forall r | r in OneSale(db, s) :: r.sale == s && NewestParts(db, r)
  {
    JoinNewestIsNewest(s.customerId, db.customers);
    JoinNewestIsNewest(s.itemId, db.items);
    JoinNewestIsNewest(s.storeId, db.stores);
    CustomersAre(db, s, JoinNewest(s.customerId, db.customers), JoinNewest(s.itemId, db.items), JoinNewest(s.storeId, db.stores));
    forall r | r in OneSale(db, s) ensures NewestParts(db, r) {
      NewestHas(db.customers, s.customerId, db.customers, r.customer);
      NewestHas(db.addresses, r.customer.addressId, db.addresses, r.address);
      NewestHas(db.items, s.itemId, db.items, r.item);
      NewestHas(db.stores, s.storeId, db.stores, r.store);
    }
  }

  lemma CombinationCount(db: Tables, s: SaleRow, r: ResultRow)
    ensures multiset(OneSale(db, s))[r] == if r.sale == s then Ways(db, r) else 0
  {
    JoinNewestIsNewest(s.customerId, db.customers);
    JoinNewestIsNewest(s.itemId, db.items);
    JoinNewestIsNewest(s.storeId, db.stores);
    var its, ds := JoinNewest(s.itemId, db.items), JoinNewest(s.storeId, db.stores);
    var m := Times(multiset(its)[r.item], multiset(ds)[r.store]);
    var n := Times(NewestCount(db.addresses, r.customer.addressId, r.address), m);
    CustomersCount(db, s, JoinNewest(s.customerId, db.customers), its, ds, r, m, n);
  }

  /** For all tables: every combination of a newest customer row, a newest address row of that customer row, a
      newest item row and a newest store row is returned for its sale as often as these rows occur together,
      so once when each occurs once; nothing else is returned, and the total is the product over the ties. */
  lemma SaleMultiplicity(db: Tables, s: SaleRow)
    ensures forall r :: multiset(OneSale(db, s))[r] == if r.sale == s then Ways(db, r) else 0
    ensures forall r | r in OneSale(db, s) :: r.sale == s && NewestParts(db, r)
    ensures |OneSale(db, s)| == Total(db, Newest(db.customers, s.customerId, db.customers))
                                * (|Newest(db.items, s.itemId, db.items)| * |Newest(db.stores, s.storeId, db.stores)|)
  {
    forall r ensures multiset(OneSale(db, s))[r] == if r.sale == s then Ways(db, r) else 0 {
      CombinationCount(db, s, r);
    }
    SaleCount(db, s, |Newest(db.items, s.itemId, db.items)| * |Newest(db.stores, s.storeId, db.stores)|);
    SaleParts(db, s);
  }

  // ---------- Unique versions ----------

  /** No two rows have the same id and the same time. */
  predicate UniqueVersions(t: Dim) {
    forall i, j :: 0 <= i < j < |t| ==>
      !(t[i].id.Some? && t[i].id == t[j].id && t[i].datetime.Some? && t[i].datetime == t[j].datetime)
  }

  predicate HasVersion(t: Dim, id: Nullable) {
    exists r | r in t :: id.Some? && r.id == id && r.datetime.Some?
  }

  lemma {:induction false} AtMostOneNewest(t: Dim, id: Nullable, rows: Dim)
    requires UniqueVersions(rows)
    requires forall r | r in rows :: r in t
    ensures |Newest(t, id, rows)| <= 1
  {
    if rows != [] {
      var rest := Newest(t, id, rows[1..]);
      AtMostOneNewest(t, id, rows[1..]);
      if rest != [] {
        NewestHas(t, id, rows[1..], rest[0]);
        var j :| 0 <= j < |rows[1..]| && rows[1..][j] == rest[0];
        assert rows[j + 1] == rest[0];
      }
    }
  }

  lemma SomeNewest(t: Dim, id: Nullable)
    requires HasVersion(t, id)
    ensures Newest(t, id, t) != []
  {
    MaxIs(t, id);
    var r :| r in t && r.id == id && r.datetime.Some?;
    var o :| o in t && o.id == id && o.datetime == Max(t, id);
    NewestHas(t, id, t, o);
  }

  lemma {:induction false} NoneNewest(t: Dim, id: Nullable, rows: Dim)
    requires forall r | r in rows :: !IsNewest(t, id, r)
    ensures Newest(t, id, rows) == []
  {
    if rows != [] {
      NoneNewest(t, id, rows[1..]);
    }
  }

  lemma OneNewestIff(t: Dim, id: Nullable)
    requires UniqueVersions(t)
    ensures |Newest(t, id, t)| == if HasVersion(t, id) then 1 else 0
  {
    AtMostOneNewest(t, id, t);
    if HasVersion(t, id) {
      SomeNewest(t, id);
    } else {
      NoneNewest(t, id, t);
    }
  }

  /** The customer exists, and so does the address of its newest row. */
  predicate CustomerAndAddressExist(db: Tables, id: Nullable) {
    exists c | c in db.customers :: IsNewest(db.customers, id, c) && HasVersion(db.addresses, c.addressId)
  }

  lemma CustomerTotal(db: Tables, id: Nullable)
    requires UniqueVersions(db.customers) && UniqueVersions(db.addresses)
    ensures Total(db, Newest(db.customers, id, db.customers)) == if CustomerAndAddressExist(db, id) then 1 else 0
  {
    var cs := Newest(db.customers, id, db.customers);
    OneNewestIff(db.customers, id);
    forall d | d in db.customers ensures IsNewest(db.customers, id, d) <==> d in cs {
      NewestHas(db.customers, id, db.customers, d);
    }
    if cs != [] {
      var c := cs[0];
      assert cs == [c];
      NewestHas(db.customers, id, db.customers, c);
      OneNewestIff(db.addresses, c.addressId);
      assert Total(db, cs[1..]) == 0;
    }
  }

  /** When no two versions of a dimension row share a time, every sale is returned at most once, and exactly
      once iff its customer, that customer's address, its item and its store exist. */
  lemma OnceIffAllExist(db: Tables, s: SaleRow)
    requires UniqueVersions(db.customers) && UniqueVersions(db.addresses)
    requires UniqueVersions(db.items) && UniqueVersions(db.stores)
    ensures |OneSale(db, s)| ==
            if CustomerAndAddressExist(db, s.customerId) && HasVersion(db.items, s.itemId) && HasVersion(db.stores, s.storeId)
            then 1 else 0
  {
    SaleMultiplicity(db, s);
    CustomerTotal(db, s.customerId);
    OneNewestIff(db.items, s.itemId);
    OneNewestIff(db.stores, s.storeId);
  }

  // ---------- The direct form ----------

  function Combine(db: Tables, s: SaleRow, cs: seq<DimRow>, its: seq<DimRow>, ds: seq<DimRow>): seq<ResultRow> {
    if cs == [] then [] else
      WithAddresses(s, cs[0], Newest(db.addresses, cs[0].addressId, db.addresses), its, ds)
      + Combine(db, s, cs[1..], its, ds)
  }

  /** Pick the newest rows of every dimension and combine them with the sale. */
  function Direct(db: Tables, sales: seq<SaleRow>): seq<ResultRow> {
    if sales == [] then [] else
      var s := sales[0];
      Combine(db, s, Newest(db.customers, s.customerId, db.customers), Newest(db.items, s.itemId, db.items),
              Newest(db.stores, s.storeId, db.stores))
      + Direct(db, sales[1..])
  }

  lemma {:induction false} CombineIs(db: Tables, s: SaleRow, cs: seq<DimRow>, its: seq<DimRow>, ds: seq<DimRow>)
    ensures WithCustomers(db, s, cs, its, ds) == Combine(db, s, cs, its, ds)
  {
    if cs != [] {
      JoinNewestIsNewest(cs[0].addressId, db.addresses);
      CombineIs(db, s, cs[1..], its, ds);
    }
  }

  /** For all tables, with NULLs and ties, the query returns what picking the newest rows returns. */
  lemma {:induction false} QueryPicksNewest(db: Tables, sales: seq<SaleRow>)
    ensures Query(db, sales) == Direct(db, sales)
  {
    if sales != [] {
      var s := sales[0];
      JoinNewestIsNewest(s.customerId, db.customers);
      JoinNewestIsNewest(s.itemId, db.items);
      JoinNewestIsNewest(s.storeId, db.stores);
      CombineIs(db, s, JoinNewest(s.customerId, db.customers), JoinNewest(s.itemId, db.items), JoinNewest(s.storeId, db.stores));
      QueryPicksNewest(db, sales[1..]);
    }
  }
}
