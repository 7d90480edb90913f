/** `CustomerRepository.get_churn_risk_customers`: customers with enough completed
    purchases whose latest one is old enough, longest inactive first. `date.today()` is
    the parameter `today`. */
module CustomerRepository {
  import opened Wrappers
  import opened Sequences
  import opened Calendar
  import opened Schema

  datatype ChurnRiskCustomer = ChurnRiskCustomer(customerId: int, customerName: string, totalPurchases: nat,
                                                 lastPurchaseDate: Date)

  /** The sale counts in `customer_purchase_summary`: completed, and its customer row
      exists (the inner JOIN of customers and sales). */
  predicate Purchase(db: Database, s: Sale) {
    s.status == Completed && s.customerId.Some? && s.customerId.value in db.customers
  }

  function Purchases(db: Database): seq<Sale> {
    Filter(db.sales, (s: Sale) => Purchase(db, s))
  }

  lemma PurchasesMeaning(db: Database)
    ensures forall s :: s in Purchases(db) <==> s in db.sales && Purchase(db, s)
  {
    FilterMeaning(db.sales, (s: Sale) => Purchase(db, s));
  }

  function SaleCustomer(s: Sale): Option<int> {
    s.customerId
  }

  /** MAX(created_at)::date: the latest day among `sales`. */
  function LatestDay(sales: seq<Sale>): Date
    requires |sales| > 0
  {
    if |sales| == 1 then SaleDay(sales[0])
    else
      var rest := LatestDay(sales[1..]);
      if Before(rest, SaleDay(sales[0])) then SaleDay(sales[0]) else rest
  }

  /** The latest day is the day of one of the sales, and no sale is later. */
  lemma {:induction false} LatestDayMeaning(sales: seq<Sale>)
    requires |sales| > 0
    ensures exists s :: s in sales && SaleDay(s) == LatestDay(sales)
    ensures forall s :: s in sales ==> OnOrBefore(SaleDay(s), LatestDay(sales))
  {
    assert sales[0] in sales;
    if |sales| > 1 {
      var rest := LatestDay(sales[1..]);
      LatestDayMeaning(sales[1..]);
      assert forall s :: s in sales ==> s == sales[0] || s in sales[1..];
      assert sales[1..][0] in sales;
      BeforeIsStrictTotalOrder(SaleDay(sales[0]), rest, rest);
      if Before(rest, SaleDay(sales[0])) {
        forall s | s in sales[1..] ensures OnOrBefore(SaleDay(s), SaleDay(sales[0])) {
          BeforeIsStrictTotalOrder(SaleDay(s), rest, SaleDay(sales[0]));
        }
      }
    }
  }

  /** The summary of customer `id`: COUNT of their purchases and the day of the latest. */
  function SummaryOf(db: Database, purchases: seq<Sale>, id: int): ChurnRiskCustomer
    requires id in db.customers
    requires exists s :: s in purchases && SaleCustomer(s) == Some(id)
  {
    var m := Members(purchases, SaleCustomer, Some(id));
    assert |m| > 0 by {
      MembersMeaning(purchases, SaleCustomer, Some(id));
      var s :| s in purchases && SaleCustomer(s) == Some(id);
      assert s in m;
    }
    ChurnRiskCustomer(id, db.customers[id], |m|, LatestDay(m))
  }

  lemma GroupedCustomersExist(db: Database, ps: seq<Sale>)
    requires forall s :: s in ps ==> Purchase(db, s)
    ensures forall k :: k in GroupKeys(ps, SaleCustomer) ==>
      k.Some? && k.value in db.customers && exists s :: s in ps && SaleCustomer(s) == k
  {
    forall k | k in GroupKeys(ps, SaleCustomer)
      ensures k.Some? && k.value in db.customers
    {
      var s :| s in ps && SaleCustomer(s) == k;
    }
  }

  /** `customer_purchase_summary` over the purchases `ps`: GROUP BY c.id, c.customer_name. */
  function Summaries(db: Database, ps: seq<Sale>): seq<ChurnRiskCustomer>
    requires forall s :: s in ps ==> Purchase(db, s)
  {
    var ks := GroupKeys(ps, SaleCustomer);
    GroupedCustomersExist(db, ps);
    seq(|ks|, i requires 0 <= i < |ks| => SummaryOf(db, ps, ks[i].value))
  }

  /** The CTE `customer_purchase_summary`. */
  function CustomerSummaries(db: Database): seq<ChurnRiskCustomer> {
    PurchasesMeaning(db);
    Summaries(db, Purchases(db))
  }

  function RowCustomer(r: ChurnRiskCustomer): int {
    r.customerId
  }

  /** The day `inactive_days` before `today`. */
  function InactiveSince(today: Date, inactiveDays: int): Date {
    AddDays(today, -inactiveDays)
  }

  /** The outer WHERE. */
  predicate AtRisk(r: ChurnRiskCustomer, minPurchases: int, cutoff: Date) {
    r.totalPurchases >= minPurchases && OnOrBefore(r.lastPurchaseDate, cutoff)
  }

  /** ORDER BY last_purchase_date ASC, total_purchases DESC. */
  predicate LongestInactiveFirst(a: ChurnRiskCustomer, b: ChurnRiskCustomer) {
    Before(a.lastPurchaseDate, b.lastPurchaseDate)
    || (a.lastPurchaseDate == b.lastPurchaseDate && a.totalPurchases >= b.totalPurchases)
  }

  lemma LongestInactiveFirstIsPreorder()
    ensures TotalPreorder(LongestInactiveFirst)
  {
    forall a: ChurnRiskCustomer, b: ChurnRiskCustomer, c: ChurnRiskCustomer
      ensures LongestInactiveFirst(a, b) || LongestInactiveFirst(b, a)
      ensures LongestInactiveFirst(a, b) && LongestInactiveFirst(b, c) ==> LongestInactiveFirst(a, c)
    {
      BeforeIsStrictTotalOrder(a.lastPurchaseDate, b.lastPurchaseDate, c.lastPurchaseDate);
    }
  }

  /** The result of `get_churn_risk_customers` on day `today`. */
  function ChurnRisk(db: Database, today: Date, minPurchases: int, inactiveDays: int): seq<ChurnRiskCustomer> {
    var cutoff := InactiveSince(today, inactiveDays);
    SortBy(Filter(CustomerSummaries(db), (r: ChurnRiskCustomer) => AtRisk(r, minPurchases, cutoff)), LongestInactiveFirst)
  }

  lemma SummariesMeaning(db: Database, ps: seq<Sale>)
    requires forall s :: s in ps ==> Purchase(db, s)
    ensures KeysDistinct(Summaries(db, ps), RowCustomer)
    ensures forall r :: r in Summaries(db, ps) ==>
      && r.customerId in db.customers
      && (exists s :: s in ps && SaleCustomer(s) == Some(r.customerId))
      && r == SummaryOf(db, ps, r.customerId)
    ensures forall s :: s in ps ==>
      exists r :: r in Summaries(db, ps) && Some(r.customerId) == SaleCustomer(s)
  {
    SummariesDistinct(db, ps);
    SummariesGrouped(db, ps);
    SummariesCover(db, ps);
  }

  lemma SummariesDistinct(db: Database, ps: seq<Sale>)
    requires forall s :: s in ps ==> Purchase(db, s)
    ensures KeysDistinct(Summaries(db, ps), RowCustomer)
  {
    var ks := GroupKeys(ps, SaleCustomer);
    GroupKeysMeaning(ps, SaleCustomer);
    var rows := Summaries(db, ps);
    GroupedCustomersExist(db, ps);
    forall i, j | 0 <= i < j < |rows| ensures RowCustomer(rows[i]) != RowCustomer(rows[j]) {
      assert ks[i] != ks[j] && ks[i] in ks && ks[j] in ks;
      assert rows[i].customerId == ks[i].value && rows[j].customerId == ks[j].value;
    }
  }

  lemma SummariesGrouped(db: Database, ps: seq<Sale>)
    requires forall s :: s in ps ==> Purchase(db, s)
    ensures forall r :: r in Summaries(db, ps) ==>
      && r.customerId in db.customers
      && (exists s :: s in ps && SaleCustomer(s) == Some(r.customerId))
      && r == SummaryOf(db, ps, r.customerId)
  {
    var ks := GroupKeys(ps, SaleCustomer);
    GroupKeysMeaning(ps, SaleCustomer);
    var rows := Summaries(db, ps);
    GroupedCustomersExist(db, ps);
    forall r | r in rows
      ensures r.customerId in db.customers
      ensures exists s :: s in ps && SaleCustomer(s) == Some(r.customerId)
      ensures r == SummaryOf(db, ps, r.customerId)
    {
      var i :| 0 <= i < |rows| && rows[i] == r;
      assert ks[i] in ks;
      assert r == SummaryOf(db, ps, ks[i].value);
    }
  }

  lemma SummariesCover(db: Database, ps: seq<Sale>)
    requires forall s :: s in ps ==> Purchase(db, s)
    ensures forall s :: s in ps ==>
      exists r :: r in Summaries(db, ps) && Some(r.customerId) == SaleCustomer(s)
  {
    var ks := GroupKeys(ps, SaleCustomer);
    GroupKeysMeaning(ps, SaleCustomer);
    var rows := Summaries(db, ps);
    GroupedCustomersExist(db, ps);
    forall s | s in ps ensures exists r :: r in rows && Some(r.customerId) == SaleCustomer(s) {
      assert SaleCustomer(s) in ks;
      var i :| 0 <= i < |ks| && ks[i] == SaleCustomer(s);
      assert rows[i].customerId == ks[i].value;
      assert rows[i] in rows;
    }
  }

  /** A summary counts exactly the customer's completed purchases, and its date is the
      day of their latest one: no completed purchase of theirs is later. */
  lemma SummaryOfMeaning(db: Database, id: int)
    requires id in db.customers
    requires exists s :: s in Purchases(db) && SaleCustomer(s) == Some(id)
    ensures var r := SummaryOf(db, Purchases(db), id);
      && r.customerName == db.customers[id]
      && r.totalPurchases == |Members(Purchases(db), SaleCustomer, Some(id))|
      && (forall s :: s in db.sales && Purchase(db, s) && s.customerId == Some(id) ==>
            OnOrBefore(SaleDay(s), r.lastPurchaseDate))
      && (exists s :: s in db.sales && Purchase(db, s) && s.customerId == Some(id) && SaleDay(s) == r.lastPurchaseDate)
  {
    PurchasesMeaning(db);
    var m := Members(Purchases(db), SaleCustomer, Some(id));
    MembersMeaning(Purchases(db), SaleCustomer, Some(id));
    var s :| s in Purchases(db) && SaleCustomer(s) == Some(id);
    assert s in m;
    LatestDayMeaning(m);
  }

  /** Longest inactive first (ties: most purchases first), one row per customer; a
      customer is listed exactly when their summary has at least `minPurchases`
      purchases and no completed purchase after `inactiveDays` before `today`. */
  lemma ChurnRiskReport(db: Database, today: Date, minPurchases: int, inactiveDays: int)
    ensures var r := ChurnRisk(db, today, minPurchases, inactiveDays);
            var cutoff := InactiveSince(today, inactiveDays);
      && SortedBy(r, LongestInactiveFirst)
      && (forall i, j :: 0 <= i < j < |r| ==> r[i].customerId != r[j].customerId)
      && (forall row :: row in r ==>
            && row in CustomerSummaries(db)
            && row.totalPurchases >= minPurchases
            && (forall s :: s in db.sales && Purchase(db, s) && s.customerId == Some(row.customerId) ==>
                  OnOrBefore(SaleDay(s), cutoff)))
      && (forall row :: row in CustomerSummaries(db) && AtRisk(row, minPurchases, cutoff) ==> row in r)
  {
    var cutoff := InactiveSince(today, inactiveDays);
    PurchasesMeaning(db);
    var all := CustomerSummaries(db);
    var kept := Filter(all, (r: ChurnRiskCustomer) => AtRisk(r, minPurchases, cutoff));
    FilterMeaning(all, (r: ChurnRiskCustomer) => AtRisk(r, minPurchases, cutoff));
    SummariesMeaning(db, Purchases(db));
    FilterKeepsKeysDistinct(all, (r: ChurnRiskCustomer) => AtRisk(r, minPurchases, cutoff), RowCustomer);
    LongestInactiveFirstIsPreorder();
    SortKeepsRows(kept, LongestInactiveFirst, RowCustomer);
    var r := ChurnRisk(db, today, minPurchases, inactiveDays);
    assert r == SortBy(kept, LongestInactiveFirst);
    forall row | row in r
      ensures forall s :: s in db.sales && Purchase(db, s) && s.customerId == Some(row.customerId) ==>
        OnOrBefore(SaleDay(s), cutoff)
    {
      SummaryOfMeaning(db, row.customerId);
      forall s | s in db.sales && Purchase(db, s) && s.customerId == Some(row.customerId)
        ensures OnOrBefore(SaleDay(s), cutoff)
      {
        BeforeIsStrictTotalOrder(SaleDay(s), row.lastPurchaseDate, cutoff);
      }
    }
  }

  /** The other direction in terms of the sales themselves: a customer with at least
      `minPurchases` completed purchases, none of them after the cutoff, is listed. */
  lemma ChurnRiskListsInactive(db: Database, today: Date, minPurchases: int, inactiveDays: int, s: Sale)
    requires s in db.sales && Purchase(db, s)
    requires |Members(Purchases(db), SaleCustomer, s.customerId)| >= minPurchases
    requires forall t :: t in db.sales && Purchase(db, t) && t.customerId == s.customerId ==>
      OnOrBefore(SaleDay(t), InactiveSince(today, inactiveDays))
    ensures exists row :: row in ChurnRisk(db, today, minPurchases, inactiveDays) && Some(row.customerId) == s.customerId
  {
    PurchasesMeaning(db);
    var ps := Purchases(db);
    var id := s.customerId.value;
    SummariesMeaning(db, ps);
    var row :| row in Summaries(db, ps) && Some(row.customerId) == SaleCustomer(s);
    assert row == SummaryOf(db, ps, id);
    SummaryOfMeaning(db, id);
    assert AtRisk(row, minPurchases, InactiveSince(today, inactiveDays));
    ChurnRiskReport(db, today, minPurchases, inactiveDays);
  }
}
