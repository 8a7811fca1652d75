/** The records the shop keeps: catalog products, cart lines and completed orders. */
module Entities {
  import opened Wrappers
  import opened Seqs

  /** A catalog record. `profit` and `profitPercentage` are stored when the record is
      saved and are not recomputed afterwards. */
  datatype Product = Product(
    id: string,
    name: string,
    buyPrice: real,
    sellPrice: real,
    weight: string,
    quantity: int,
    lowQuantityAlert: int,
    profit: real,
    profitPercentage: real,
    dateAdded: string)

  /** A cart line: a copy of the product as it was offered, plus the number of units chosen. */
  datatype CartItem = CartItem(product: Product, cartQuantity: int)

  /** A calendar day, standing for what `Date.prototype.toDateString` and
      `getMonth`/`getFullYear` observe of a point in time. */
  datatype CalendarDate = CalendarDate(day: int, month: int, year: int)

  /** A point in time: its calendar day and its milliseconds since the epoch (`Date.now()`). */
  datatype Instant = Instant(date: CalendarDate, ms: nat)

  /** A completed sale as written to the order ledger. `total` is absent on a record
      that carries none; readers then use 0. */
  datatype Order = Order(
    id: string,
    customerName: string,
    items: seq<CartItem>,
    total: Option<real>,
    paymentMethod: string,
    date: CalendarDate,
    timestamp: nat)

  function ProductId(p: Product): string { p.id }

  function LineId(line: CartItem): string { line.product.id }

  /** No two products share an identifier. */
  predicate UniqueIds(products: seq<Product>) {
    DistinctBy(products, ProductId)
  }

  /** Some product carries identifier `id`. */
  predicate HasId(products: seq<Product>, id: string) {
    exists i :: 0 <= i < |products| && products[i].id == id
  }
}
