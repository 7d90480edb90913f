/** The six reports of `SalesRepository`, each as the rows its SQL query returns from a
    `Database`: selection by the clauses of `SalesQueries`, the joins, GROUP BY, the
    aggregates, HAVING, ORDER BY and LIMIT. */
module SalesRepository {
  import opened Wrappers
  import opened Sequences
  import opened Calendar
  import opened Schema
  import opened SalesQueries

  /** The sales rows a WHERE made of `cs` keeps, in table order. */
  function Selected(sales: seq<Sale>, cs: seq<Clause>): seq<Sale> {
    if sales == [] then []
    else (if AllHold(cs, sales[0]) then [sales[0]] else []) + Selected(sales[1..], cs)
  }

  /** The WHERE keeps exactly the rows every clause holds of, and no more rows than the table has. */
  lemma {:induction false} SelectedMeaning(sales: seq<Sale>, cs: seq<Clause>)
    ensures |Selected(sales, cs)| <= |sales|
    ensures forall s :: s in Selected(sales, cs) <==> s in sales && AllHold(cs, s)
  {
    if sales != [] {
      SelectedMeaning(sales[1..], cs);
      assert sales == [sales[0]] + sales[1..];
    }
  }

  /** AVG over `count` rows summing to `total`, with COALESCE(.., 0) for no rows. */
  function Average(total: real, count: nat): (avg: real)
    ensures count > 0 ==> avg * (count as real) == total
    ensures count == 0 ==> avg == 0.0
  {
    if count == 0 then 0.0 else total / (count as real)
  }

  /** The average ticket of some sales lies between their smallest and largest ticket. */
  lemma AverageTicketBounds(rows: seq<Sale>, lo: real, hi: real)
    requires |rows| > 0
    requires forall s :: s in rows ==> lo <= s.totalAmount <= hi
    ensures lo <= Average(Sum(rows, SaleAmount), |rows|) <= hi
  {
    SumBounds(rows, SaleAmount, lo, hi);
    MeanWithinReal(Sum(rows, SaleAmount), |rows|, lo, hi);
  }

  /** An average of `n` values whose total lies in `[n lo, n hi]` lies in `[lo, hi]`. */
  lemma MeanWithinReal(total: real, n: nat, lo: real, hi: real)
    requires n > 0
    requires (n as real) * lo <= total <= (n as real) * hi
    ensures lo <= Average(total, n) <= hi
  {
    var nr := n as real;
    var avg := Average(total, n);
    assert (avg - lo) * nr == total - nr * lo;
    assert (hi - avg) * nr == nr * hi - total;
    SignOfProduct(avg - lo, nr);
    SignOfProduct(hi - avg, nr);
  }

  /** A product that is not negative, with a positive factor, has a non-negative other factor. */
  lemma SignOfProduct(x: real, y: real)
    requires y > 0.0 && x * y >= 0.0
    ensures x >= 0.0
  {
  }

  // ---------------------------------------------------------------------------
  // get_sales_overview

  datatype Overview = Overview(totalRevenue: real, totalSalesCount: nat, averageTicketValue: real)

  /** The completed sales created on a day from `start` to `end`. */
  function WindowSales(db: Database, start: Date, end: Date): seq<Sale> {
    Selected(db.sales, WindowClauses(start, end))
  }

  lemma WindowSalesMeaning(db: Database, start: Date, end: Date)
    ensures forall s :: s in WindowSales(db, start, end) <==> s in db.sales && CompletedWithin(s, start, end)
  {
    SelectedMeaning(db.sales, WindowClauses(start, end));
    forall s ensures AllHold(WindowClauses(start, end), s) <==> CompletedWithin(s, start, end) {
      WindowClausesMeaning(start, end, s);
    }
  }

  function SalesOverview(db: Database, start: Date, end: Date): (o: Overview)
    ensures o.totalSalesCount == |WindowSales(db, start, end)|
    ensures o.totalRevenue == Sum(WindowSales(db, start, end), SaleAmount)
    ensures o.totalSalesCount == 0 ==> o == Overview(0.0, 0, 0.0)
    ensures o.totalSalesCount > 0 ==> o.averageTicketValue * (o.totalSalesCount as real) == o.totalRevenue
  {
    var rows := WindowSales(db, start, end);
    var total := Sum(rows, SaleAmount);
    Overview(total, |rows|, Average(total, |rows|))
  }

  /** The average ticket lies between the smallest and the largest ticket counted. */
  lemma OverviewAverageBounds(db: Database, start: Date, end: Date, lo: real, hi: real)
    requires forall s :: s in db.sales && CompletedWithin(s, start, end) ==> lo <= s.totalAmount <= hi
    ensures var o := SalesOverview(db, start, end);
      o.totalSalesCount > 0 ==> lo <= o.averageTicketValue <= hi
  {
    var rows := WindowSales(db, start, end);
    WindowSalesMeaning(db, start, end);
    if |rows| > 0 {
      AverageTicketBounds(rows, lo, hi);
    }
  }

  /** A sale of the window `[start, end]` falls in exactly one of `[start, mid]` and
      `[mid + 1 day, end]`. */
  lemma WindowSplitOne(s: Sale, start: Date, mid: Date, end: Date)
    requires OnOrBefore(start, mid) && OnOrBefore(mid, end)
    ensures AllHold(WindowClauses(start, end), s)
        <==> AllHold(WindowClauses(start, mid), s) || AllHold(WindowClauses(NextDay(mid), end), s)
    ensures !(AllHold(WindowClauses(start, mid), s) && AllHold(WindowClauses(NextDay(mid), end), s))
  {
    WindowClausesMeaning(start, end, s);
    WindowClausesMeaning(start, mid, s);
    WindowClausesMeaning(NextDay(mid), end, s);
    var d := s.createdAt.date;
    NextDayIsSuccessor(mid, d);
    BeforeIsStrictTotalOrder(start, mid, d);
    BeforeIsStrictTotalOrder(d, mid, end);
    BeforeIsStrictTotalOrder(mid, d, end);
    BeforeIsStrictTotalOrder(start, d, mid);
    BeforeIsStrictTotalOrder(d, NextDay(mid), mid);
    BeforeIsStrictTotalOrder(NextDay(mid), d, mid);
  }

  /** When every row satisfies `a` exactly when it satisfies one of `b` and `c`, and never
      both, the rows `a` selects are counted and summed by adding those of `b` and `c`. */
  lemma {:induction false} SelectedPartition(sales: seq<Sale>, a: seq<Clause>, b: seq<Clause>, c: seq<Clause>)
    requires forall s :: s in sales ==> (AllHold(a, s) <==> AllHold(b, s) || AllHold(c, s))
    requires forall s :: s in sales ==> !(AllHold(b, s) && AllHold(c, s))
    ensures |Selected(sales, a)| == |Selected(sales, b)| + |Selected(sales, c)|
    ensures Sum(Selected(sales, a), SaleAmount) == Sum(Selected(sales, b), SaleAmount) + Sum(Selected(sales, c), SaleAmount)
  {
    if sales != [] {
      var x := sales[0];
      assert x in sales;
      assert forall s :: s in sales[1..] ==> s in sales;
      SelectedPartition(sales[1..], a, b, c);
      var ra, rb, rc := Selected(sales[1..], a), Selected(sales[1..], b), Selected(sales[1..], c);
      if AllHold(a, x) {
        assert ([x] + ra)[1..] == ra;
        if AllHold(b, x) {
          assert ([x] + rb)[1..] == rb && [] + rc == rc;
        } else {
          assert ([x] + rc)[1..] == rc && [] + rb == rb;
        }
      } else {
        assert [] + ra == ra && [] + rb == rb && [] + rc == rc;
      }
    }
  }

  /** Revenue and count of a window are those of its two halves added: adjacent windows
      neither lose nor double count a sale at the day boundary. */
  lemma OverviewSplit(db: Database, start: Date, mid: Date, end: Date)
    requires OnOrBefore(start, mid) && OnOrBefore(mid, end)
    ensures SalesOverview(db, start, end).totalSalesCount
         == SalesOverview(db, start, mid).totalSalesCount + SalesOverview(db, NextDay(mid), end).totalSalesCount
    ensures SalesOverview(db, start, end).totalRevenue
         == SalesOverview(db, start, mid).totalRevenue + SalesOverview(db, NextDay(mid), end).totalRevenue
  {
    forall s | s in db.sales
      ensures AllHold(WindowClauses(start, end), s)
          <==> AllHold(WindowClauses(start, mid), s) || AllHold(WindowClauses(NextDay(mid), end), s)
      ensures !(AllHold(WindowClauses(start, mid), s) && AllHold(WindowClauses(NextDay(mid), end), s))
    {
      WindowSplitOne(s, start, mid, end);
    }
    SelectedPartition(db.sales, WindowClauses(start, end), WindowClauses(start, mid), WindowClauses(NextDay(mid), end));
  }

  // ---------------------------------------------------------------------------
  // get_top_products

  /** A `product_sales` row joined with its sale. */
  datatype Line = Line(sale: Sale, item: ProductSale)

  /** The join of `product_sales` with the sales `sales`. */
  function LinesOf(sales: seq<Sale>): seq<Line> {
    if sales == [] then []
    else OwnLines(sales[0]) + LinesOf(sales[1..])
  }

  /** The `product_sales` rows of one sale. */
  function OwnLines(s: Sale): seq<Line> {
    seq(|s.items|, i requires 0 <= i < |s.items| => Line(s, s.items[i]))
  }

  /** A joined row is a line of a sale in `sales` and one of that sale's items. */
  lemma {:induction false} LinesOfMeaning(sales: seq<Sale>)
    ensures forall l :: l in LinesOf(sales) <==> l.sale in sales && l.item in l.sale.items
  {
    if sales != [] {
      var s := sales[0];
      var own := OwnLines(s);
      forall l: Line | l.sale == s && l.item in s.items ensures l in own {
        var i :| 0 <= i < |s.items| && s.items[i] == l.item;
        assert own[i] == l;
      }
      LinesOfMeaning(sales[1..]);
      assert sales == [s] + sales[1..];
    }
  }

  function LineProductId(l: Line): int {
    l.item.productId
  }

  function LinePrice(l: Line): real {
    l.item.totalPrice
  }

  function LineQuantity(l: Line): int {
    l.item.quantity
  }

  /** The product lines of the sales `cs` selects whose product exists (the inner JOIN on
      `products`). */
  function ProductLines(db: Database, cs: seq<Clause>): seq<Line> {
    Filter(LinesOf(Selected(db.sales, cs)), (l: Line) => l.item.productId in db.products)
  }

  lemma ProductLinesMeaning(db: Database, cs: seq<Clause>)
    ensures forall l :: l in ProductLines(db, cs) <==>
      l.sale in db.sales && AllHold(cs, l.sale) && l.item in l.sale.items && l.item.productId in db.products
  {
    SelectedMeaning(db.sales, cs);
    LinesOfMeaning(Selected(db.sales, cs));
    FilterMeaning(LinesOf(Selected(db.sales, cs)), (l: Line) => l.item.productId in db.products);
  }

  datatype ProductRow = ProductRow(productId: int, productName: string, totalRevenue: real, totalSalesCount: int)

  function RowProductId(r: ProductRow): int {
    r.productId
  }

  /** The group of product `id`: SUM(total_price) and SUM(quantity) over its lines. */
  function ProductRowOf(db: Database, lines: seq<Line>, id: int): ProductRow
    requires id in db.products
  {
    var m := Members(lines, LineProductId, id);
    ProductRow(id, db.products[id].name, Sum(m, LinePrice), SumInt(m, LineQuantity))
  }

  /** The product ids that occur in `lines` and exist in `products`. */
  lemma GroupedProductsExist(db: Database, lines: seq<Line>)
    requires forall l :: l in lines ==> l.item.productId in db.products
    ensures forall k :: k in GroupKeys(lines, LineProductId) ==> k in db.products
  {
    forall k | k in GroupKeys(lines, LineProductId) ensures k in db.products {
      var l :| l in lines && LineProductId(l) == k;
    }
  }

  /** GROUP BY p.id, p.name: one row per product that has a line. */
  function ProductRows(db: Database, lines: seq<Line>): seq<ProductRow>
    requires forall l :: l in lines ==> l.item.productId in db.products
  {
    var ks := GroupKeys(lines, LineProductId);
    GroupedProductsExist(db, lines);
    seq(|ks|, i requires 0 <= i < |ks| => ProductRowOf(db, lines, ks[i]))
  }

  /** One row per product with a line, none for any other product, each totalling the
      lines of its product. */
  lemma ProductRowsMeaning(db: Database, lines: seq<Line>)
    requires forall l :: l in lines ==> l.item.productId in db.products
    ensures KeysDistinct(ProductRows(db, lines), RowProductId)
    ensures forall row :: row in ProductRows(db, lines) ==>
      && row.productId in db.products
      && (exists l :: l in lines && LineProductId(l) == row.productId)
      && row == ProductRowOf(db, lines, row.productId)
    ensures forall l :: l in lines ==> exists row :: row in ProductRows(db, lines) && row.productId == l.item.productId
  {
    ProductRowsDistinct(db, lines);
    ProductRowsGrouped(db, lines);
    ProductRowsCover(db, lines);
  }

  lemma ProductRowsDistinct(db: Database, lines: seq<Line>)
    requires forall l :: l in lines ==> l.item.productId in db.products
    ensures KeysDistinct(ProductRows(db, lines), RowProductId)
  {
    var ks := GroupKeys(lines, LineProductId);
    GroupKeysMeaning(lines, LineProductId);
    var rows := ProductRows(db, lines);
    forall i, j | 0 <= i < j < |rows| ensures RowProductId(rows[i]) != RowProductId(rows[j]) {
      assert ks[i] != ks[j];
      assert rows[i].productId == ks[i] && rows[j].productId == ks[j];
    }
  }

  lemma ProductRowsGrouped(db: Database, lines: seq<Line>)
    requires forall l :: l in lines ==> l.item.productId in db.products
    ensures forall row :: row in ProductRows(db, lines) ==>
      && row.productId in db.products
      && (exists l :: l in lines && LineProductId(l) == row.productId)
      && row == ProductRowOf(db, lines, row.productId)
  {
    var ks := GroupKeys(lines, LineProductId);
    GroupKeysMeaning(lines, LineProductId);
    var rows := ProductRows(db, lines);
    GroupedProductsExist(db, lines);
    forall row | row in rows
      ensures row.productId in db.products
      ensures exists l :: l in lines && LineProductId(l) == row.productId
      ensures row == ProductRowOf(db, lines, row.productId)
    {
      var i :| 0 <= i < |rows| && rows[i] == row;
      assert ks[i] in ks;
      assert row == ProductRowOf(db, lines, ks[i]);
    }
  }

  lemma ProductRowsCover(db: Database, lines: seq<Line>)
    requires forall l :: l in lines ==> l.item.productId in db.products
    ensures forall l :: l in lines ==> exists row :: row in ProductRows(db, lines) && row.productId == l.item.productId
  {
    var ks := GroupKeys(lines, LineProductId);
    GroupKeysMeaning(lines, LineProductId);
    var rows := ProductRows(db, lines);
    forall l | l in lines ensures exists row :: row in rows && row.productId == l.item.productId {
      assert LineProductId(l) in ks;
      var i :| 0 <= i < |ks| && ks[i] == LineProductId(l);
      assert rows[i].productId == ks[i];
      assert rows[i] in rows;
    }
  }

  /** ORDER BY total_revenue DESC. */
  predicate RevenueFirst(a: ProductRow, b: ProductRow) {
    a.totalRevenue >= b.totalRevenue
  }

  /** The grouped rows of the top-products query, before ORDER BY and LIMIT. */
  function ProductTotals(db: Database, cs: seq<Clause>): seq<ProductRow> {
    ProductLinesMeaning(db, cs);
    ProductRows(db, ProductLines(db, cs))
  }

  /** The result of `get_top_products`. */
  function TopProducts(db: Database, start: Date, end: Date, limit: nat, channelId: Option<int>, storeId: Option<int>,
                       dayOfWeek: Option<int>, startHour: Option<int>, endHour: Option<int>): seq<ProductRow>
  {
    var cs := TopProductsClauses(start, end, channelId, storeId, dayOfWeek, startHour, endHour);
    Take(SortBy(ProductTotals(db, cs), RevenueFirst), limit)
  }

  /** The lines that count for top products: a line of an existing product, sold in a sale
      that passes every active filter. */
  lemma TopProductsLines(db: Database, start: Date, end: Date, channelId: Option<int>, storeId: Option<int>,
                         dayOfWeek: Option<int>, startHour: Option<int>, endHour: Option<int>, l: Line)
    ensures l in ProductLines(db, TopProductsClauses(start, end, channelId, storeId, dayOfWeek, startHour, endHour))
        <==> && l.sale in db.sales && l.item in l.sale.items && l.item.productId in db.products
             && TopProductsMatch(l.sale, start, end, channelId, storeId, dayOfWeek, startHour, endHour)
  {
    ProductLinesMeaning(db, TopProductsClauses(start, end, channelId, storeId, dayOfWeek, startHour, endHour));
    TopProductsClausesMeaning(start, end, channelId, storeId, dayOfWeek, startHour, endHour, l.sale);
  }

  /** At most `limit` rows, best revenue first, one per product; each row totals that
      product's lines; when fewer than `limit` come back, no product was cut; and every
      product cut earns no more than every product listed. */
  lemma TopProductsReport(db: Database, start: Date, end: Date, limit: nat, channelId: Option<int>, storeId: Option<int>,
                          dayOfWeek: Option<int>, startHour: Option<int>, endHour: Option<int>)
    ensures var lines := ProductLines(db, TopProductsClauses(start, end, channelId, storeId, dayOfWeek, startHour, endHour));
            var r := TopProducts(db, start, end, limit, channelId, storeId, dayOfWeek, startHour, endHour);
      && |r| <= limit
      && (forall i, j :: 0 <= i < j < |r| ==> r[i].totalRevenue >= r[j].totalRevenue && r[i].productId != r[j].productId)
      && (forall row :: row in r ==>
            && row.productId in db.products
            && (exists l :: l in lines && LineProductId(l) == row.productId)
            && row == ProductRowOf(db, lines, row.productId))
      && (|r| < limit ==> forall l :: l in lines ==> exists row :: row in r && row.productId == l.item.productId)
      && (forall row, k ::
            (row in ProductTotals(db, TopProductsClauses(start, end, channelId, storeId, dayOfWeek, startHour, endHour))
             && row !in r && k in r) ==> row.totalRevenue <= k.totalRevenue)
  {
    var cs := TopProductsClauses(start, end, channelId, storeId, dayOfWeek, startHour, endHour);
    var lines := ProductLines(db, cs);
    ProductLinesMeaning(db, cs);
    var rows := ProductTotals(db, cs);
    assert rows == ProductRows(db, lines);
    ProductRowsMeaning(db, lines);
    RankKeepsRows(rows, RevenueFirst, RowProductId, limit);
    TopProductsKeepBest(rows, limit);
  }

  /** The products LIMIT cuts earn no more than the ones it keeps. */
  lemma TopProductsKeepBest(rows: seq<ProductRow>, limit: nat)
    ensures var r := Take(SortBy(rows, RevenueFirst), limit);
      forall row, k :: row in rows && row !in r && k in r ==> row.totalRevenue <= k.totalRevenue
  {
    RevenueFirstIsPreorder();
    RankKeepsBest(rows, RevenueFirst, limit);
  }

  lemma RevenueFirstIsPreorder()
    ensures TotalPreorder(RevenueFirst)
  {
  }

  // ---------------------------------------------------------------------------
  // get_sales_breakdown_by_dimension

  /** The reference table a breakdown joins: `channels` or `stores`. */
  datatype BreakdownDimension = ByChannel | ByStore

  /** The dimension named by `dimension`, or the ValueError raised before any query. */
  function BreakdownDimensionOf(dimension: string): (r: Result<BreakdownDimension, Error>)
    ensures r.Failure? <==> dimension != "channel" && dimension != "store"
    ensures r.Failure? ==> r.error == ValueError("Invalid dimension specified. Must be 'channel' or 'store'.")
    ensures r == Success(ByChannel) <==> dimension == "channel"
    ensures r == Success(ByStore) <==> dimension == "store"
  {
    if dimension == "channel" then Success(ByChannel)
    else if dimension == "store" then Success(ByStore)
    else Failure(ValueError("Invalid dimension specified. Must be 'channel' or 'store'."))
  }

  function SaleChannel(s: Sale): int {
    s.channelId
  }

  function SaleStore(s: Sale): int {
    s.storeId
  }

  /** The foreign key `{dimension}_id` of a sale. */
  function DimensionKey(d: BreakdownDimension): Sale -> int {
    if d == ByChannel then SaleChannel else SaleStore
  }

  function DimensionTable(db: Database, d: BreakdownDimension): map<int, string> {
    if d == ByChannel then db.channels else db.stores
  }

  /** The window's sales whose dimension row exists (the inner JOIN on the table). */
  function JoinedSales(db: Database, d: BreakdownDimension, start: Date, end: Date): seq<Sale> {
    Filter(WindowSales(db, start, end), (s: Sale) => DimensionKey(d)(s) in DimensionTable(db, d))
  }

  lemma JoinedSalesMeaning(db: Database, d: BreakdownDimension, start: Date, end: Date)
    ensures forall s :: s in JoinedSales(db, d, start, end) <==>
      s in db.sales && CompletedWithin(s, start, end) && DimensionKey(d)(s) in DimensionTable(db, d)
  {
    WindowSalesMeaning(db, start, end);
    FilterMeaning(WindowSales(db, start, end), (s: Sale) => DimensionKey(d)(s) in DimensionTable(db, d));
  }

  datatype BreakdownRow = BreakdownRow(dimensionId: int, dimensionName: string, totalRevenue: real,
                                       totalSalesCount: nat, averageTicketValue: real)

  function RowDimensionId(r: BreakdownRow): int {
    r.dimensionId
  }

  /** The group of dimension row `id`: SUM, COUNT and AVG of its sales. */
  function BreakdownRowOf(db: Database, d: BreakdownDimension, sales: seq<Sale>, id: int): BreakdownRow
    requires id in DimensionTable(db, d)
  {
    var m := Members(sales, DimensionKey(d), id);
    var total := Sum(m, SaleAmount);
    BreakdownRow(id, DimensionTable(db, d)[id], total, |m|, Average(total, |m|))
  }

  /** A group with a sale has a positive count and an average that times the count is
      its revenue. */
  lemma BreakdownRowOfGroup(db: Database, d: BreakdownDimension, sales: seq<Sale>, s: Sale)
    requires s in sales && DimensionKey(d)(s) in DimensionTable(db, d)
    ensures var row := BreakdownRowOf(db, d, sales, DimensionKey(d)(s));
      && row.dimensionId == DimensionKey(d)(s)
      && row.dimensionName == DimensionTable(db, d)[row.dimensionId]
      && row.totalSalesCount > 0
      && row.averageTicketValue * (row.totalSalesCount as real) == row.totalRevenue
  {
    MembersMeaning(sales, DimensionKey(d), DimensionKey(d)(s));
    assert s in Members(sales, DimensionKey(d), DimensionKey(d)(s));
  }

  lemma GroupedDimensionsExist(db: Database, d: BreakdownDimension, sales: seq<Sale>)
    requires forall s :: s in sales ==> DimensionKey(d)(s) in DimensionTable(db, d)
    ensures forall k :: k in GroupKeys(sales, DimensionKey(d)) ==> k in DimensionTable(db, d)
  {
    forall k | k in GroupKeys(sales, DimensionKey(d)) ensures k in DimensionTable(db, d) {
      var s :| s in sales && DimensionKey(d)(s) == k;
    }
  }

  /** GROUP BY d.id, d.name: one row per dimension row that has a sale. */
  function BreakdownRows(db: Database, d: BreakdownDimension, sales: seq<Sale>): seq<BreakdownRow>
    requires forall s :: s in sales ==> DimensionKey(d)(s) in DimensionTable(db, d)
  {
    var ks := GroupKeys(sales, DimensionKey(d));
    GroupedDimensionsExist(db, d, sales);
    seq(|ks|, i requires 0 <= i < |ks| => BreakdownRowOf(db, d, sales, ks[i]))
  }

  lemma BreakdownRowsMeaning(db: Database, d: BreakdownDimension, sales: seq<Sale>)
    requires forall s :: s in sales ==> DimensionKey(d)(s) in DimensionTable(db, d)
    ensures KeysDistinct(BreakdownRows(db, d, sales), RowDimensionId)
    ensures forall row :: row in BreakdownRows(db, d, sales) ==>
      && row.dimensionId in DimensionTable(db, d)
      && (exists s :: s in sales && DimensionKey(d)(s) == row.dimensionId)
      && row == BreakdownRowOf(db, d, sales, row.dimensionId)
      && row.dimensionName == DimensionTable(db, d)[row.dimensionId]
      && row.totalSalesCount > 0
    ensures forall s :: s in sales ==>
      exists row :: row in BreakdownRows(db, d, sales) && row.dimensionId == DimensionKey(d)(s)
  {
    BreakdownRowsDistinct(db, d, sales);
    BreakdownRowsGrouped(db, d, sales);
    BreakdownRowsCover(db, d, sales);
  }

  lemma BreakdownRowsDistinct(db: Database, d: BreakdownDimension, sales: seq<Sale>)
    requires forall s :: s in sales ==> DimensionKey(d)(s) in DimensionTable(db, d)
    ensures KeysDistinct(BreakdownRows(db, d, sales), RowDimensionId)
  {
    var ks := GroupKeys(sales, DimensionKey(d));
    GroupKeysMeaning(sales, DimensionKey(d));
    var rows := BreakdownRows(db, d, sales);
    forall i, j | 0 <= i < j < |rows| ensures RowDimensionId(rows[i]) != RowDimensionId(rows[j]) {
      assert ks[i] != ks[j];
      assert rows[i].dimensionId == ks[i] && rows[j].dimensionId == ks[j];
    }
  }

  lemma BreakdownRowsGrouped(db: Database, d: BreakdownDimension, sales: seq<Sale>)
    requires forall s :: s in sales ==> DimensionKey(d)(s) in DimensionTable(db, d)
    ensures forall row :: row in BreakdownRows(db, d, sales) ==>
      && row.dimensionId in DimensionTable(db, d)
      && (exists s :: s in sales && DimensionKey(d)(s) == row.dimensionId)
      && row == BreakdownRowOf(db, d, sales, row.dimensionId)
      && row.dimensionName == DimensionTable(db, d)[row.dimensionId]
      && row.totalSalesCount > 0
  {
    var ks := GroupKeys(sales, DimensionKey(d));
    GroupKeysMeaning(sales, DimensionKey(d));
    var rows := BreakdownRows(db, d, sales);
    GroupedDimensionsExist(db, d, sales);
    forall row | row in rows
      ensures row.dimensionId in DimensionTable(db, d)
      ensures exists s :: s in sales && DimensionKey(d)(s) == row.dimensionId
      ensures row == BreakdownRowOf(db, d, sales, row.dimensionId)
      ensures row.dimensionName == DimensionTable(db, d)[row.dimensionId]
      ensures row.totalSalesCount > 0
    {
      var i :| 0 <= i < |rows| && rows[i] == row;
      assert ks[i] in ks;
      assert row == BreakdownRowOf(db, d, sales, ks[i]);
      var s :| s in sales && DimensionKey(d)(s) == ks[i];
      BreakdownRowOfGroup(db, d, sales, s);
    }
  }

  lemma BreakdownRowsCover(db: Database, d: BreakdownDimension, sales: seq<Sale>)
    requires forall s :: s in sales ==> DimensionKey(d)(s) in DimensionTable(db, d)
    ensures forall s :: s in sales ==>
      exists row :: row in BreakdownRows(db, d, sales) && row.dimensionId == DimensionKey(d)(s)
  {
    var ks := GroupKeys(sales, DimensionKey(d));
    GroupKeysMeaning(sales, DimensionKey(d));
    var rows := BreakdownRows(db, d, sales);
    forall s | s in sales ensures exists row :: row in rows && row.dimensionId == DimensionKey(d)(s) {
      assert DimensionKey(d)(s) in ks;
      var i :| 0 <= i < |ks| && ks[i] == DimensionKey(d)(s);
      assert rows[i].dimensionId == ks[i];
      assert rows[i] in rows;
    }
  }

  /** ORDER BY total_revenue DESC. */
  predicate BreakdownRevenueFirst(a: BreakdownRow, b: BreakdownRow) {
    a.totalRevenue >= b.totalRevenue
  }

  /** The result of `get_sales_breakdown_by_dimension`, or the ValueError it raises. */
  function SalesBreakdown(db: Database, start: Date, end: Date, dimension: string): (r: Result<seq<BreakdownRow>, Error>)
    ensures r.Failure? <==> BreakdownDimensionOf(dimension).Failure?
    ensures r.Failure? ==> r.error == ValueError("Invalid dimension specified. Must be 'channel' or 'store'.")
  {
    match BreakdownDimensionOf(dimension)
    case Failure(e) => Failure(e)
    case Success(d) =>
      JoinedSalesMeaning(db, d, start, end);
      Success(SortBy(BreakdownRows(db, d, JoinedSales(db, d, start, end)), BreakdownRevenueFirst))
  }

  /** Rows best revenue first, one per channel (or store) that sold in the window, each
      with that row's name and the count, revenue and average ticket of its sales. */
  lemma SalesBreakdownReport(db: Database, start: Date, end: Date, dimension: string)
    requires dimension == "channel" || dimension == "store"
    ensures var d := BreakdownDimensionOf(dimension).value;
            var sales := JoinedSales(db, d, start, end);
            var r := SalesBreakdown(db, start, end, dimension);
      && r.Success?
      && (forall i, j :: 0 <= i < j < |r.value| ==>
            r.value[i].totalRevenue >= r.value[j].totalRevenue && r.value[i].dimensionId != r.value[j].dimensionId)
      && (forall row :: row in r.value ==>
            && row.dimensionId in DimensionTable(db, d)
            && row.dimensionName == DimensionTable(db, d)[row.dimensionId]
            && (exists s :: s in sales && DimensionKey(d)(s) == row.dimensionId)
            && row == BreakdownRowOf(db, d, sales, row.dimensionId)
            && row.totalSalesCount > 0)
      && (forall s :: s in sales ==> exists row :: row in r.value && row.dimensionId == DimensionKey(d)(s))
  {
    var d := BreakdownDimensionOf(dimension).value;
    var sales := JoinedSales(db, d, start, end);
    JoinedSalesMeaning(db, d, start, end);
    var rows := BreakdownRows(db, d, sales);
    assert SalesBreakdown(db, start, end, dimension) == Success(SortBy(rows, BreakdownRevenueFirst));
    BreakdownRowsMeaning(db, d, sales);
    SortKeepsRows(rows, BreakdownRevenueFirst, RowDimensionId);
  }

  // ---------------------------------------------------------------------------
  // get_delivery_performance_by_dimension

  /** A delivered sale as the delivery report sees it: the value of its grouping column
      and its delivery time. The store name comes from a LEFT JOIN and is NULL (None) when
      the sale's store row is missing. */
  datatype DeliveryFact = DeliveryFact(group: Option<string>, seconds: int)

  function GroupValue(db: Database, column: GroupColumn, s: Sale): Option<string>
    requires s.address.Some?
  {
    match column
    case StoreName => if s.storeId in db.stores then Some(db.stores[s.storeId]) else None
    case Neighborhood => Some(s.address.value.neighborhood)
    case City => Some(s.address.value.city)
  }

  /** The sale counts in the delivery report: it passes the WHERE, has a delivery time and
      has its `delivery_addresses` row (the inner JOIN). */
  predicate Delivered(s: Sale, cs: seq<Clause>) {
    AllHold(cs, s) && s.deliverySeconds.Some? && s.address.Some?
  }

  function DeliveryFacts(db: Database, column: GroupColumn, sales: seq<Sale>, cs: seq<Clause>): seq<DeliveryFact> {
    if sales == [] then []
    else
      var s := sales[0];
      var rest := DeliveryFacts(db, column, sales[1..], cs);
      if Delivered(s, cs) then [DeliveryFact(GroupValue(db, column, s), s.deliverySeconds.value)] + rest else rest
  }

  /** One fact per delivered sale, and no other. */
  lemma {:induction false} DeliveryFactsMeaning(db: Database, column: GroupColumn, sales: seq<Sale>, cs: seq<Clause>)
    ensures forall s :: s in sales && Delivered(s, cs) ==>
      DeliveryFact(GroupValue(db, column, s), s.deliverySeconds.value) in DeliveryFacts(db, column, sales, cs)
    ensures forall f :: f in DeliveryFacts(db, column, sales, cs) ==>
      exists s :: s in sales && Delivered(s, cs) && f == DeliveryFact(GroupValue(db, column, s), s.deliverySeconds.value)
  {
    if sales != [] {
      DeliveryFactsMeaning(db, column, sales[1..], cs);
      assert forall x :: x in sales[1..] ==> x in sales;
      assert forall x :: x in sales ==> x == sales[0] || x in sales[1..];
    }
  }

  function FactGroup(f: DeliveryFact): Option<string> {
    f.group
  }

  function FactSeconds(f: DeliveryFact): int {
    f.seconds
  }

  predicate AtMost(a: int, b: int) {
    a <= b
  }

  /** PERCENTILE_CONT(0.9) over `v` in ascending order: the value at position 0.9 (n - 1),
      interpolated linearly between its two neighbours. */
  function Percentile90(v: seq<int>): real
    requires |v| > 0
  {
    var lo := PercentileIndex(|v|);
    var frac := PercentileFraction(|v|);
    if lo + 1 < |v| then v[lo] as real + frac * ((v[lo + 1] - v[lo]) as real) else v[lo] as real
  }

  /** The row below the position 0.9 (n - 1) of `n` rows. */
  function PercentileIndex(n: nat): (i: nat)
    requires n > 0
    ensures i < n
  {
    (9 * (n - 1)) / 10
  }

  /** How far past that row the position lies, a fraction in [0, 1). */
  function PercentileFraction(n: nat): (f: real)
    ensures 0.0 <= f < 1.0
  {
    ((9 * (n - 1)) % 10) as real / 10.0
  }

  /** On sorted values the 90th percentile lies between the least and the greatest. */
  lemma Percentile90Bounds(v: seq<int>)
    requires |v| > 0
    requires SortedBy(v, AtMost)
    ensures v[0] as real <= Percentile90(v) <= v[|v| - 1] as real
  {
    var n := |v|;
    var lo := PercentileIndex(n);
    assert v[0] <= v[lo] by {
      if lo > 0 {
        assert AtMost(v[0], v[lo]);
      }
    }
    assert v[lo] <= v[n - 1] by {
      if lo < n - 1 {
        assert AtMost(v[lo], v[n - 1]);
      }
    }
    if lo + 1 < n {
      assert v[lo] <= v[lo + 1] by {
        assert AtMost(v[lo], v[lo + 1]);
      }
      assert v[lo + 1] <= v[n - 1] by {
        if lo + 1 < n - 1 {
          assert AtMost(v[lo + 1], v[n - 1]);
        }
      }
      var a, b, f := v[lo], v[lo + 1], PercentileFraction(n);
      Interpolated(a, b, f);
      assert Percentile90(v) == a as real + f * ((b - a) as real);
    }
  }

  /** Linear interpolation between `a` and `b` stays between them. */
  lemma Interpolated(a: int, b: int, frac: real)
    requires a <= b
    requires 0.0 <= frac <= 1.0
    ensures a as real <= a as real + frac * ((b - a) as real) <= b as real
  {
    var diff := (b - a) as real;
    assert diff - frac * diff == (1.0 - frac) * diff;
  }

  /** The percentile of a constant column is that constant. */
  lemma Percentile90Constant(v: seq<int>, c: int)
    requires |v| > 0
    requires forall i :: 0 <= i < |v| ==> v[i] == c
    ensures Percentile90(v) == c as real
  {
  }

  datatype DeliveryRow = DeliveryRow(dimensionName: Option<string>, averageDeliverySeconds: real,
                                     p90DeliverySeconds: real, totalDeliveries: nat)

  /** The delivery times of group `k`. */
  function GroupSeconds(facts: seq<DeliveryFact>, k: Option<string>): seq<int> {
    MapSeq(Members(facts, FactGroup, k), FactSeconds)
  }

  /** The group of `k`: AVG, PERCENTILE_CONT(0.9) and COUNT of its delivery times. */
  function DeliveryRowOf(facts: seq<DeliveryFact>, k: Option<string>): DeliveryRow {
    var secs := GroupSeconds(facts, k);
    var average := Average(SumInt(Members(facts, FactGroup, k), FactSeconds) as real, |secs|);
    var p90 := if |secs| == 0 then 0.0 else Percentile90(SortBy(secs, AtMost));
    DeliveryRow(k, average, p90, |secs|)
  }

  function RowGroup(r: DeliveryRow): Option<string> {
    r.dimensionName
  }

  /** HAVING COUNT(s.id) >= 10. */
  predicate Busy(r: DeliveryRow) {
    r.totalDeliveries >= 10
  }

  /** GROUP BY the column, then HAVING. */
  function DeliveryRows(facts: seq<DeliveryFact>): seq<DeliveryRow> {
    var ks := GroupKeys(facts, FactGroup);
    Filter(seq(|ks|, i requires 0 <= i < |ks| => DeliveryRowOf(facts, ks[i])), Busy)
  }

  lemma DeliveryRowsMeaning(facts: seq<DeliveryFact>)
    ensures KeysDistinct(DeliveryRows(facts), RowGroup)
    ensures forall row :: row in DeliveryRows(facts) ==>
      row == DeliveryRowOf(facts, row.dimensionName) && row.totalDeliveries >= 10
    ensures forall f :: f in facts && |Members(facts, FactGroup, f.group)| >= 10 ==>
      exists row :: row in DeliveryRows(facts) && row.dimensionName == f.group
  {
    var ks := GroupKeys(facts, FactGroup);
    GroupKeysMeaning(facts, FactGroup);
    var all := seq(|ks|, i requires 0 <= i < |ks| => DeliveryRowOf(facts, ks[i]));
    assert KeysDistinct(all, RowGroup);
    FilterKeepsKeysDistinct(all, Busy, RowGroup);
    FilterMeaning(all, Busy);
    forall f | f in facts && |Members(facts, FactGroup, f.group)| >= 10
      ensures exists row :: row in DeliveryRows(facts) && row.dimensionName == f.group
    {
      assert FactGroup(f) in ks;
      var i :| 0 <= i < |ks| && ks[i] == f.group;
      assert all[i] in all && Busy(all[i]);
    }
  }

  /** DESC on average_delivery_seconds. */
  predicate SlowestFirst(a: DeliveryRow, b: DeliveryRow) {
    a.averageDeliverySeconds >= b.averageDeliverySeconds
  }

  /** The result of `get_delivery_performance_by_dimension`, or the ValueError it raises. */
  function DeliveryPerformance(db: Database, start: Date, end: Date, dimension: string, dayOfWeek: Option<int>,
                               startHour: Option<int>, endHour: Option<int>): (r: Result<seq<DeliveryRow>, Error>)
    ensures r.Failure? <==> DeliveryColumn(dimension).Failure?
    ensures r.Failure? ==> r.error == ValueError("Invalid dimension for delivery performance.")
  {
    match DeliveryColumn(dimension)
    case Failure(e) => Failure(e)
    case Success(column) =>
      var facts := DeliveryFacts(db, column, db.sales, DeliveryClauses(start, end, dayOfWeek, startHour, endHour));
      Success(SortBy(DeliveryRows(facts), SlowestFirst))
  }

  /** A sale is in the delivery report's input exactly when it is a completed, timed
      delivery in the window with an address, on the day of week and in the hour range
      when those are given. */
  lemma DeliveredMeaning(s: Sale, start: Date, end: Date, dayOfWeek: Option<int>, startHour: Option<int>,
                         endHour: Option<int>)
    ensures Delivered(s, DeliveryClauses(start, end, dayOfWeek, startHour, endHour))
        <==> DeliveryMatch(s, start, end, dayOfWeek, startHour, endHour) && s.address.Some?
  {
    DeliveryClausesMeaning(start, end, dayOfWeek, startHour, endHour, s);
  }

  /** The 90th percentile of values in `[lo, hi]` lies in `[lo, hi]`. */
  lemma Percentile90Within(secs: seq<int>, lo: int, hi: int)
    requires |secs| > 0
    requires forall x :: x in secs ==> lo <= x <= hi
    ensures lo as real <= Percentile90(SortBy(secs, AtMost)) <= hi as real
  {
    var sorted := SortBy(secs, AtMost);
    SortBySorted(secs, AtMost);
    SortByPermutes(secs, AtMost);
    assert sorted[0] in multiset(secs) && sorted[|sorted| - 1] in multiset(secs);
    assert sorted[0] in secs && sorted[|sorted| - 1] in secs;
    Percentile90Bounds(sorted);
    assert lo <= sorted[0] && sorted[|sorted| - 1] <= hi;
  }

  /** The average delivery time of a group whose times lie in `[lo, hi]` lies there too. */
  lemma AverageSecondsWithin(m: seq<DeliveryFact>, lo: int, hi: int)
    requires |m| > 0
    requires forall f :: f in m ==> lo <= f.seconds <= hi
    ensures lo as real <= Average(SumInt(m, FactSeconds) as real, |m|) <= hi as real
  {
    SumIntBounds(m, FactSeconds, lo, hi);
    MeanWithin(SumInt(m, FactSeconds), |m|, lo, hi);
  }

  lemma MeanWithin(total: int, n: nat, lo: int, hi: int)
    requires n > 0
    requires n * lo <= total <= n * hi
    ensures lo as real <= Average(total as real, n) <= hi as real
  {
    var nr := n as real;
    assert (n * lo) as real == nr * (lo as real);
    assert (n * hi) as real == nr * (hi as real);
    MeanWithinReal(total as real, n, lo as real, hi as real);
  }

  /** When every delivery time of a group lies in `[lo, hi]`, so do its average and its
      90th percentile. */
  lemma DeliveryRowBounds(facts: seq<DeliveryFact>, k: Option<string>, lo: int, hi: int)
    requires forall f :: f in facts && f.group == k ==> lo <= f.seconds <= hi
    ensures var row := DeliveryRowOf(facts, k);
      row.totalDeliveries > 0 ==>
        && lo as real <= row.averageDeliverySeconds <= hi as real
        && lo as real <= row.p90DeliverySeconds <= hi as real
  {
    var m := Members(facts, FactGroup, k);
    MembersMeaning(facts, FactGroup, k);
    var secs := GroupSeconds(facts, k);
    if |secs| > 0 {
      forall x | x in secs ensures lo <= x <= hi {
        var i :| 0 <= i < |secs| && secs[i] == x;
        assert m[i] in m;
      }
      Percentile90Within(secs, lo, hi);
      AverageSecondsWithin(m, lo, hi);
    }
  }

  /** A valid dimension gives rows slowest first, one per group value, each a group of at
      least ten deliveries with its average, 90th percentile and count; every group with
      ten or more deliveries has its row. */
  lemma DeliveryPerformanceReport(db: Database, start: Date, end: Date, dimension: string, dayOfWeek: Option<int>,
                                  startHour: Option<int>, endHour: Option<int>)
    requires DeliveryColumn(dimension).Success?
    ensures var facts := DeliveryFacts(db, DeliveryColumn(dimension).value, db.sales,
                                       DeliveryClauses(start, end, dayOfWeek, startHour, endHour));
            var r := DeliveryPerformance(db, start, end, dimension, dayOfWeek, startHour, endHour);
      && r.Success?
      && (forall i, j :: 0 <= i < j < |r.value| ==>
            r.value[i].averageDeliverySeconds >= r.value[j].averageDeliverySeconds
            && r.value[i].dimensionName != r.value[j].dimensionName)
      && (forall row :: row in r.value ==>
            row == DeliveryRowOf(facts, row.dimensionName) && row.totalDeliveries >= 10)
      && (forall f :: f in facts && |Members(facts, FactGroup, f.group)| >= 10 ==>
            exists row :: row in r.value && row.dimensionName == f.group)
  {
    var column := DeliveryColumn(dimension).value;
    var facts := DeliveryFacts(db, column, db.sales, DeliveryClauses(start, end, dayOfWeek, startHour, endHour));
    var rows := DeliveryRows(facts);
    assert DeliveryPerformance(db, start, end, dimension, dayOfWeek, startHour, endHour)
        == Success(SortBy(rows, SlowestFirst));
    DeliveryRowsMeaning(facts);
    SortKeepsRows(rows, SlowestFirst, RowGroup);
  }

  // ---------------------------------------------------------------------------
  // get_ticket_trend

  datatype TrendPoint = TrendPoint(date: Date, value: real)

  function PointDate(p: TrendPoint): Date {
    p.date
  }

  /** The group of day `d`: AVG(total_amount) of its sales. */
  function TrendPointOf(sales: seq<Sale>, d: Date): TrendPoint {
    var m := Members(sales, SaleDay, d);
    TrendPoint(d, Average(Sum(m, SaleAmount), |m|))
  }

  /** ORDER BY date ASC. */
  predicate EarlierFirst(a: TrendPoint, b: TrendPoint) {
    OnOrBefore(a.date, b.date)
  }

  lemma EarlierFirstIsPreorder()
    ensures TotalPreorder(EarlierFirst)
  {
    forall a: TrendPoint, b: TrendPoint, c: TrendPoint
      ensures EarlierFirst(a, b) || EarlierFirst(b, a)
      ensures EarlierFirst(a, b) && EarlierFirst(b, c) ==> EarlierFirst(a, c)
    {
      BeforeIsStrictTotalOrder(a.date, b.date, c.date);
    }
  }

  /** GROUP BY DATE(created_at): one point per day that has a sale. */
  function TrendPoints(sales: seq<Sale>): seq<TrendPoint> {
    var ks := GroupKeys(sales, SaleDay);
    seq(|ks|, i requires 0 <= i < |ks| => TrendPointOf(sales, ks[i]))
  }

  /** The result of `get_ticket_trend`. */
  function TicketTrend(db: Database, start: Date, end: Date): seq<TrendPoint> {
    SortBy(TrendPoints(WindowSales(db, start, end)), EarlierFirst)
  }

  lemma TrendPointsMeaning(sales: seq<Sale>)
    ensures KeysDistinct(TrendPoints(sales), PointDate)
    ensures forall p :: p in TrendPoints(sales) ==>
      (exists s :: s in sales && SaleDay(s) == p.date) && p == TrendPointOf(sales, p.date)
    ensures forall s :: s in sales ==> exists p :: p in TrendPoints(sales) && p.date == SaleDay(s)
  {
    TrendPointsDistinct(sales);
    TrendPointsGrouped(sales);
    TrendPointsCover(sales);
  }

  lemma TrendPointsDistinct(sales: seq<Sale>)
    ensures KeysDistinct(TrendPoints(sales), PointDate)
  {
    var ks := GroupKeys(sales, SaleDay);
    GroupKeysMeaning(sales, SaleDay);
    var ps := TrendPoints(sales);
    forall i, j | 0 <= i < j < |ps| ensures PointDate(ps[i]) != PointDate(ps[j]) {
      assert ks[i] != ks[j];
      assert ps[i].date == ks[i] && ps[j].date == ks[j];
    }
  }

  lemma TrendPointsGrouped(sales: seq<Sale>)
    ensures forall p :: p in TrendPoints(sales) ==>
      (exists s :: s in sales && SaleDay(s) == p.date) && p == TrendPointOf(sales, p.date)
  {
    var ks := GroupKeys(sales, SaleDay);
    GroupKeysMeaning(sales, SaleDay);
    var ps := TrendPoints(sales);
    forall p | p in ps
      ensures exists s :: s in sales && SaleDay(s) == p.date
      ensures p == TrendPointOf(sales, p.date)
    {
      var i :| 0 <= i < |ps| && ps[i] == p;
      assert ks[i] in ks;
      assert p == TrendPointOf(sales, ks[i]);
    }
  }

  lemma TrendPointsCover(sales: seq<Sale>)
    ensures forall s :: s in sales ==> exists p :: p in TrendPoints(sales) && p.date == SaleDay(s)
  {
    var ks := GroupKeys(sales, SaleDay);
    GroupKeysMeaning(sales, SaleDay);
    var ps := TrendPoints(sales);
    forall s | s in sales ensures exists p :: p in ps && p.date == SaleDay(s) {
      assert SaleDay(s) in ks;
      var i :| 0 <= i < |ks| && ks[i] == SaleDay(s);
      assert ps[i].date == ks[i];
      assert ps[i] in ps;
    }
  }

  /** One point per day with a completed sale in the window, in strictly increasing date
      order, each holding that day's average ticket. */
  lemma TicketTrendReport(db: Database, start: Date, end: Date)
    ensures var sales := WindowSales(db, start, end);
            var r := TicketTrend(db, start, end);
      && (forall i, j :: 0 <= i < j < |r| ==> Before(r[i].date, r[j].date))
      && (forall p :: p in r ==>
            && OnOrBefore(start, p.date) && OnOrBefore(p.date, end)
            && (exists s :: s in sales && SaleDay(s) == p.date)
            && p == TrendPointOf(sales, p.date))
      && (forall s :: s in sales ==> exists p :: p in r && p.date == SaleDay(s))
  {
    var sales := WindowSales(db, start, end);
    var ps := TrendPoints(sales);
    WindowSalesMeaning(db, start, end);
    EarlierFirstIsPreorder();
    TrendPointsMeaning(sales);
    SortKeepsRows(ps, EarlierFirst, PointDate);
    var r := TicketTrend(db, start, end);
    forall i, j | 0 <= i < j < |r| ensures Before(r[i].date, r[j].date) {
      assert EarlierFirst(r[i], r[j]) && PointDate(r[i]) != PointDate(r[j]);
    }
  }

  /** Each point's value lies between the smallest and largest ticket of its day. */
  lemma TrendPointBounds(sales: seq<Sale>, d: Date, lo: real, hi: real)
    requires exists s :: s in sales && SaleDay(s) == d
    requires forall s :: s in sales && SaleDay(s) == d ==> lo <= s.totalAmount <= hi
    ensures lo <= TrendPointOf(sales, d).value <= hi
  {
    var m := Members(sales, SaleDay, d);
    MembersMeaning(sales, SaleDay, d);
    var s :| s in sales && SaleDay(s) == d;
    assert s in m;
    AverageTicketBounds(m, lo, hi);
  }

  // ---------------------------------------------------------------------------
  // get_sales_composition_by_category

  /** A product line joined with its product and that product's category. */
  datatype CategoryLine = CategoryLine(category: string, price: real)

  function CategoryLines(db: Database, lines: seq<Line>): seq<CategoryLine> {
    if lines == [] then []
    else
      var l := lines[0];
      var rest := CategoryLines(db, lines[1..]);
      if InCategory(db, l) then [CategoryLine(CategoryOf(db, l), l.item.totalPrice)] + rest else rest
  }

  /** One category line per line that survives both joins, and no other. */
  lemma {:induction false} CategoryLinesMeaning(db: Database, lines: seq<Line>)
    ensures forall l :: l in lines && InCategory(db, l) ==>
      CategoryLine(CategoryOf(db, l), l.item.totalPrice) in CategoryLines(db, lines)
    ensures forall c :: c in CategoryLines(db, lines) ==>
      exists l :: l in lines && InCategory(db, l) && c == CategoryLine(CategoryOf(db, l), l.item.totalPrice)
  {
    if lines != [] {
      CategoryLinesMeaning(db, lines[1..]);
      assert forall x :: x in lines[1..] ==> x in lines;
      assert forall x :: x in lines ==> x == lines[0] || x in lines[1..];
    }
  }

  /** The line survives both inner JOINs: its product and the product's category exist. */
  predicate InCategory(db: Database, l: Line) {
    l.item.productId in db.products && db.products[l.item.productId].categoryId in db.categories
  }

  function CategoryOf(db: Database, l: Line): string
    requires InCategory(db, l)
  {
    db.categories[db.products[l.item.productId].categoryId]
  }

  function LineCategory(c: CategoryLine): string {
    c.category
  }

  function CategoryPrice(c: CategoryLine): real {
    c.price
  }

  datatype CompositionRow = CompositionRow(categoryName: string, totalRevenue: real)

  function RowCategory(r: CompositionRow): string {
    r.categoryName
  }

  /** The group of category name `name`: SUM(total_price) of its lines. */
  function CompositionRowOf(cls: seq<CategoryLine>, name: string): CompositionRow {
    CompositionRow(name, Sum(Members(cls, LineCategory, name), CategoryPrice))
  }

  /** GROUP BY c.name. */
  function CompositionRows(cls: seq<CategoryLine>): seq<CompositionRow> {
    var ks := GroupKeys(cls, LineCategory);
    seq(|ks|, i requires 0 <= i < |ks| => CompositionRowOf(cls, ks[i]))
  }

  predicate CategoryRevenueFirst(a: CompositionRow, b: CompositionRow) {
    a.totalRevenue >= b.totalRevenue
  }

  /** The lines `get_sales_composition_by_category` groups. */
  function CompositionLines(db: Database, start: Date, end: Date): seq<CategoryLine> {
    CategoryLines(db, LinesOf(WindowSales(db, start, end)))
  }

  /** The result of `get_sales_composition_by_category`. */
  function SalesComposition(db: Database, start: Date, end: Date): seq<CompositionRow> {
    SortBy(CompositionRows(CompositionLines(db, start, end)), CategoryRevenueFirst)
  }

  lemma CompositionRowsMeaning(cls: seq<CategoryLine>)
    ensures KeysDistinct(CompositionRows(cls), RowCategory)
    ensures forall row :: row in CompositionRows(cls) ==>
      (exists c :: c in cls && LineCategory(c) == row.categoryName) && row == CompositionRowOf(cls, row.categoryName)
    ensures forall c :: c in cls ==> exists row :: row in CompositionRows(cls) && row.categoryName == c.category
  {
    CompositionRowsDistinct(cls);
    CompositionRowsGrouped(cls);
    CompositionRowsCover(cls);
  }

  lemma CompositionRowsDistinct(cls: seq<CategoryLine>)
    ensures KeysDistinct(CompositionRows(cls), RowCategory)
  {
    var ks := GroupKeys(cls, LineCategory);
    GroupKeysMeaning(cls, LineCategory);
    var rows := CompositionRows(cls);
    forall i, j | 0 <= i < j < |rows| ensures RowCategory(rows[i]) != RowCategory(rows[j]) {
      assert ks[i] != ks[j];
      assert rows[i].categoryName == ks[i] && rows[j].categoryName == ks[j];
    }
  }

  lemma CompositionRowsGrouped(cls: seq<CategoryLine>)
    ensures forall row :: row in CompositionRows(cls) ==>
      (exists c :: c in cls && LineCategory(c) == row.categoryName) && row == CompositionRowOf(cls, row.categoryName)
  {
    var ks := GroupKeys(cls, LineCategory);
    GroupKeysMeaning(cls, LineCategory);
    var rows := CompositionRows(cls);
    forall row | row in rows
      ensures exists c :: c in cls && LineCategory(c) == row.categoryName
      ensures row == CompositionRowOf(cls, row.categoryName)
    {
      var i :| 0 <= i < |rows| && rows[i] == row;
      assert ks[i] in ks;
      assert row == CompositionRowOf(cls, ks[i]);
    }
  }

  lemma CompositionRowsCover(cls: seq<CategoryLine>)
    ensures forall c :: c in cls ==> exists row :: row in CompositionRows(cls) && row.categoryName == c.category
  {
    var ks := GroupKeys(cls, LineCategory);
    GroupKeysMeaning(cls, LineCategory);
    var rows := CompositionRows(cls);
    forall c | c in cls ensures exists row :: row in rows && row.categoryName == c.category {
      assert LineCategory(c) in ks;
      var i :| 0 <= i < |ks| && ks[i] == LineCategory(c);
      assert rows[i].categoryName == ks[i];
      assert rows[i] in rows;
    }
  }

  /** One row per category name sold in the window, best revenue first, each totalling
      the lines of products in categories of that name. */
  lemma SalesCompositionReport(db: Database, start: Date, end: Date)
    ensures var cls := CompositionLines(db, start, end);
            var r := SalesComposition(db, start, end);
      && (forall i, j :: 0 <= i < j < |r| ==>
            r[i].totalRevenue >= r[j].totalRevenue && r[i].categoryName != r[j].categoryName)
      && (forall row :: row in r ==>
            (exists c :: c in cls && c.category == row.categoryName) && row == CompositionRowOf(cls, row.categoryName))
      && (forall c :: c in cls ==> exists row :: row in r && row.categoryName == c.category)
  {
    var cls := CompositionLines(db, start, end);
    CompositionRowsMeaning(cls);
    SortKeepsRows(CompositionRows(cls), CategoryRevenueFirst, RowCategory);
  }
}
