/** `CustomerService.get_churn_risk_customers`: the churn report read through the cache
    under a key naming both thresholds. `date.today()`, which the query uses, is the
    parameter `today`; the clock of the cache is the parameter `now`. */
module CustomerService {
  import opened Wrappers
  import opened Text
  import opened Calendar
  import opened Cache
  import opened Schema
  import opened Sequences
  import opened CustomerRepository
  import opened Models

  /** `f"churn_risk:{min_purchases}:{inactive_days}"`. */
  function ChurnRiskKey(minPurchases: int, inactiveDays: int): string {
    KeyFor(ChurnRiskTag, [IntText(minPurchases), IntText(inactiveDays)])
  }

  /** Different thresholds never share a cache entry. */
  lemma ChurnRiskKeyInjective(m1: int, i1: int, m2: int, i2: int)
    requires ChurnRiskKey(m1, i1) == ChurnRiskKey(m2, i2)
    ensures m1 == m2 && i1 == i2
  {
    IntTextFree(m1, ':'); IntTextFree(i1, ':'); IntTextFree(m2, ':'); IntTextFree(i2, ':');
    KeyForInjective2(ChurnRiskTag, IntText(m1), IntText(i1), IntText(m2), IntText(i2));
    IntTextInjective(m1, m2);
    IntTextInjective(i1, i2);
  }

  /** The response built on a miss. */
  function ChurnRiskResponseOf(db: Database, today: Date, minPurchases: int, inactiveDays: int)
    : CustomerChurnRiskResponse
  {
    CustomerChurnRiskResponse(minPurchases, inactiveDays, ChurnRisk(db, today, minPurchases, inactiveDays))
  }

  /** One `CustomerService(db)` reading through the process-wide cache; `repositoryCalls`
      counts the queries it sends. */
  class CustomerService {
    const db: Database
    const cache: TtlCache<Payload>
    ghost var repositoryCalls: nat

    constructor(db: Database, cache: TtlCache<Payload>)
      ensures this.db == db && this.cache == cache && repositoryCalls == 0
    {
      this.db := db;
      this.cache := cache;
      repositoryCalls := 0;
    }

    /** A hit answers the stored response, whatever day it is; a miss runs the query for
        `today` and stores its response for fifteen minutes. */
    method GetChurnRiskCustomers(minPurchases: int, inactiveDays: int, today: Date, now: int)
      returns (r: Result<CustomerChurnRiskResponse, Error>)
      requires minPurchases >= 1 && inactiveDays >= 1
      modifies this, cache
      ensures var key := ChurnRiskKey(minPurchases, inactiveDays);
        if Hit(old(cache.entries), key, now) then
          && r == DecodeChurnRisk(Lookup(old(cache.entries), key, now).value)
          && cache.entries == old(cache.entries) && repositoryCalls == old(repositoryCalls)
        else
          && r == Success(ChurnRiskResponseOf(db, today, minPurchases, inactiveDays))
          && cache.entries == Store(old(cache.entries), key, ChurnRiskPayload(r.value), now)
          && repositoryCalls == old(repositoryCalls) + 1
      ensures WellKeyed(old(cache.entries)) ==> WellKeyed(cache.entries) && r.Success?
    {
      ghost var params := [IntText(minPurchases), IntText(inactiveDays)];
      var key := ChurnRiskKey(minPurchases, inactiveDays);
      var cached := CachedValue(cache, key, ChurnRiskTag, params, now);
      if cached.Some? {
        r := DecodeChurnRisk(cached.value);
        return;
      }
      var response := ChurnRiskResponseOf(db, today, minPurchases, inactiveDays);
      repositoryCalls := repositoryCalls + 1;
      StoreValue(cache, key, ChurnRiskTag, params, ChurnRiskPayload(response), now);
      r := Success(response);
    }
  }

  /** The database of a single customer whose only completed purchase fell on `day`. */
  function OneCustomerDb(day: Date): Database {
    var sale := Sale(1, DateTime(day, 0.0), Completed, 10.0, 1, 1, Some(1), None, None, []);
    Database([sale], map[], map[], map[], map[], map[1 := "Ana"])
  }

  /** The key leaves `today` out while the report depends on it: with one purchase on
      15 May 2024 and both thresholds at 1, the customer is not at risk on 15 May and is
      on 16 May, yet both days ask for the same cache entry. A response cached just
      before midnight is therefore served the next day until it expires. */
  lemma ChurnRiskKeyIgnoresToday()
    ensures var db := OneCustomerDb(YearMonthDay(2024, 5, 15));
      && ChurnRisk(db, YearMonthDay(2024, 5, 15), 1, 1) == []
      && ChurnRisk(db, YearMonthDay(2024, 5, 16), 1, 1) != []
  {
    var day: Date := YearMonthDay(2024, 5, 15);
    var db := OneCustomerDb(day);
    var s := db.sales[0];
    assert s in db.sales && Purchase(db, s);
    PurchasesMeaning(db);
    var ps := Purchases(db);
    MembersMeaning(ps, SaleCustomer, s.customerId);
    assert s in Members(ps, SaleCustomer, s.customerId);

    var cutoff := InactiveSince(day, 1);
    AddDaysOrder(day, -1);
    forall row | row in CustomerSummaries(db) ensures !AtRisk(row, 1, cutoff) {
      SummariesMeaning(db, ps);
      SummaryOfMeaning(db, row.customerId);
      BeforeIsStrictTotalOrder(cutoff, row.lastPurchaseDate, cutoff);
    }
    FilterNone(CustomerSummaries(db), (r: ChurnRiskCustomer) => AtRisk(r, 1, cutoff));

    var next: Date := YearMonthDay(2024, 5, 16);
    assert InactiveSince(next, 1) == day;
    forall t | t in db.sales && Purchase(db, t) && t.customerId == s.customerId
      ensures OnOrBefore(SaleDay(t), InactiveSince(next, 1))
    {
    }
    ChurnRiskListsInactive(db, next, 1, 1, s);
  }
}
