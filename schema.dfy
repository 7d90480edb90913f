/** The rows the reports read: sales with their product lines and delivery address, and
    the reference tables they join (channels, stores, products, categories, customers). */
module Schema {
  import opened Calendar
  import opened Wrappers

  /** A row of `product_sales`: one product line of a sale. */
  datatype ProductSale = ProductSale(productId: int, quantity: int, totalPrice: real)

  /** The `delivery_addresses` row of a delivered sale. */
  datatype DeliveryAddress = DeliveryAddress(neighborhood: string, city: string)

  /** A row of `sales`, with the rows of other tables that belong to it. */
  datatype Sale = Sale(
    id: int,
    createdAt: Timestamp,
    status: string,
    totalAmount: real,
    channelId: int,
    storeId: int,
    customerId: Option<int>,
    deliverySeconds: Option<int>,
    address: Option<DeliveryAddress>,
    items: seq<ProductSale>)

  /** A row of `products`. */
  datatype Product = Product(name: string, categoryId: int)

  /** The store the queries run against; each map is a table keyed by its `id`. */
  datatype Database = Database(
    sales: seq<Sale>,
    channels: map<int, string>,
    stores: map<int, string>,
    products: map<int, Product>,
    categories: map<int, string>,
    customers: map<int, string>)

  /** `sale_status_desc` of a sale that counts in every report. */
  const Completed: string := "COMPLETED"

  /** The exceptions the reports and services raise. */
  datatype Error =
    | ValueError(message: string)          // a dimension outside the report's set
    | ValidationError(message: string)     // a value the response model refuses

  /** The sale was completed on a day from `start` to `end`, both included. */
  predicate CompletedWithin(s: Sale, start: Date, end: Date) {
    s.status == Completed && OnOrBefore(start, s.createdAt.date) && OnOrBefore(s.createdAt.date, end)
  }

  function SaleAmount(s: Sale): real {
    s.totalAmount
  }

  function SaleDay(s: Sale): Date {
    s.createdAt.date
  }
}
