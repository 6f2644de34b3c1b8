/** The records that flow through the sale-enrichment job. Fields that no operator reads are gathered in `details`. */
module Records {
  import opened Basics

  /** A Java string identifier. The null reference, `None`, is an ordinary key for `keyBy`. */
  type Id = Option<string>

  datatype Address = Address(addressId: Id, details: string)

  datatype Customer = Customer(customerId: Id, addressId: Id, address: Option<Address>,
                               birthDate: Option<string>, details: string)

  datatype Item = Item(itemId: int, details: string)

  datatype Promo = Promo(promoId: Id, details: string)

  datatype Sale = Sale(billCustomerId: Id, shipCustomerId: Id, itemId: int, promoId: Id,
                       billCustomer: Option<Customer>, shipCustomer: Option<Customer>,
                       item: Option<Item>, promo: Option<Promo>, details: string)

  /** A record that enriches sales. */
  datatype Ref = OfCustomer(customer: Customer) | OfItem(item: Item) | OfPromo(promo: Promo)

  datatype Key = ById(id: Id) | ByNumber(number: int)

  const DEFAULT_BIRTH_DATE := "1970-01-01T00:00:00.000000Z"

  /** The birth-date cleaner. */
  function Clean(c: Customer): Customer {
    if c.birthDate.None? || c.birthDate.value == "" then c.(birthDate := Some(DEFAULT_BIRTH_DATE)) else c
  }

  /** What a join makes of a customer, apart from the address: any address it had is replaced. */
  function Core(c: Customer): Customer {
    Clean(c).(address := None)
  }

  function WithAddress(c: Customer, a: Address): Customer {
    c.(address := Some(a))
  }

  /** The four sale joins, in the order in which the job chains them. */
  const BILLING := 0
  const SHIPPING := 1
  const ITEM := 2
  const PROMO := 3

  type Stage = k: int | 0 <= k < 4

  /** The field by which the sales that enter stage k are keyed. */
  function SaleKey(k: Stage, s: Sale): Key {
    if k == BILLING then ById(s.billCustomerId)
    else if k == SHIPPING then ById(s.shipCustomerId)
    else if k == ITEM then ByNumber(s.itemId)
    else ById(s.promoId)
  }

  function RefKey(r: Ref): Key {
    match r
    case OfCustomer(c) => ById(c.customerId)
    case OfItem(i) => ByNumber(i.itemId)
    case OfPromo(p) => ById(p.promoId)
  }

  /** Whether r is the kind of record that stage k joins with. */
  predicate Fits(k: Stage, r: Ref) {
    if k <= SHIPPING then r.OfCustomer? else if k == ITEM then r.OfItem? else r.OfPromo?
  }

  /** The stage's `enrich`: set one field of the sale and return it. */
  function Enrich(k: Stage, s: Sale, r: Ref): Sale
    requires Fits(k, r)
  {
    if k == BILLING then s.(billCustomer := Some(r.customer))
    else if k == SHIPPING then s.(shipCustomer := Some(r.customer))
    else if k == ITEM then s.(item := Some(r.item))
    else s.(promo := Some(r.promo))
  }

  /** The promo join hands on at once every sale that names no promo. */
  predicate PassesThrough(k: Stage, s: Sale) {
    k == PROMO && s.promoId.None?
  }

  /** The sale as it arrived: every enrichment field erased. */
  function Strip(s: Sale): Sale {
    s.(billCustomer := None, shipCustomer := None, item := None, promo := None)
  }
}
