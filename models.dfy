/** The response models of `models/sales.py` and `models/customers.py`, the JSON values the
    services keep in the cache, and the `tag:p1:p2:...` shape of the cache keys. */
module Models {
  import opened Wrappers
  import opened Text
  import opened Calendar
  import opened Cache
  import opened Schema
  import opened SalesRepository
  import opened CustomerRepository

  datatype SalesOverviewResponse = SalesOverviewResponse(totalRevenue: real, totalSalesCount: int,
                                                         averageTicketValue: real, startDate: Date, endDate: Date)

  datatype TopProductsResponse = TopProductsResponse(startDate: Date, endDate: Date, topProducts: seq<ProductRow>)

  datatype SalesByDimensionResponse = SalesByDimensionResponse(startDate: Date, endDate: Date, dimension: string,
                                                               breakdown: seq<BreakdownRow>)

  /** `DeliveryPerformanceItem`: unlike the query's row, its name is a required string. */
  datatype DeliveryPerformanceItem = DeliveryPerformanceItem(dimensionName: string, averageDeliverySeconds: real,
                                                             p90DeliverySeconds: real, totalDeliveries: int)

  datatype DeliveryPerformanceResponse = DeliveryPerformanceResponse(startDate: Date, endDate: Date, dimension: string,
                                                                     performanceBreakdown: seq<DeliveryPerformanceItem>)

  datatype TicketTrendResponse = TicketTrendResponse(startDate: Date, endDate: Date, trend: seq<TrendPoint>)

  datatype TicketCompositionResponse = TicketCompositionResponse(startDate: Date, endDate: Date,
                                                                 composition: seq<CompositionRow>)

  /** The plain dictionary `get_monthly_summary` builds. */
  datatype MonthlySummary = MonthlySummary(currentMonthRevenue: real, previousMonthRevenueSameDay: real,
                                           last3MonthsAvgRevenue: real)

  datatype CustomerChurnRiskResponse = CustomerChurnRiskResponse(minPurchases: int, inactiveDays: int,
                                                                 churnRiskCustomers: seq<ChurnRiskCustomer>)

  /** `DeliveryPerformanceItem(**item)` for every row: validation fails on a row whose
      group has no name (a sale of a store missing from `stores`, kept by the LEFT JOIN). */
  function DeliveryItems(rows: seq<DeliveryRow>): (r: Result<seq<DeliveryPerformanceItem>, Error>)
    ensures r.Success? <==> forall i :: 0 <= i < |rows| ==> rows[i].dimensionName.Some?
    ensures r.Success? ==> |r.value| == |rows| && forall i :: 0 <= i < |rows| ==>
      r.value[i] == DeliveryPerformanceItem(rows[i].dimensionName.value, rows[i].averageDeliverySeconds,
                                            rows[i].p90DeliverySeconds, rows[i].totalDeliveries)
  {
    if rows == [] then Success([])
    else if rows[0].dimensionName.None? then Failure(ValidationError("dimension_name: Input should be a valid string"))
    else
      match DeliveryItems(rows[1..])
      case Failure(e) => Failure(e)
      case Success(rest) =>
        var r0 := rows[0];
        Success([DeliveryPerformanceItem(r0.dimensionName.value, r0.averageDeliverySeconds, r0.p90DeliverySeconds,
                                         r0.totalDeliveries)] + rest)
  }

  /** A JSON value in the cache, as `json.loads` gives it back. `Falsy` stands for every
      value Python treats as false (`{}`, `[]`, `0`, `""`, `null`); no service stores one.
      Rebuilding a response from a payload of another shape fails with the one message
      `Mismatch`, which stands in for every validation error pydantic reports. */
  datatype Payload =
    | OverviewPayload(overview: SalesOverviewResponse)
    | MonthlyPayload(summary: MonthlySummary)
    | TopProductsPayload(topProducts: TopProductsResponse)
    | BreakdownPayload(breakdown: SalesByDimensionResponse)
    | DeliveryPayload(delivery: DeliveryPerformanceResponse)
    | TrendPayload(trend: TicketTrendResponse)
    | CompositionPayload(composition: TicketCompositionResponse)
    | ChurnRiskPayload(churnRisk: CustomerChurnRiskResponse)
    | Falsy

  /** `if cached_data:` */
  predicate Truthy(p: Payload) {
    !p.Falsy?
  }

  /** A cache hit in the services' sense: an entry is live and its value is truthy. */
  predicate Hit(entries: map<string, Entry<Payload>>, key: string, now: int) {
    Lookup(entries, key, now).Some? && Truthy(Lookup(entries, key, now).value)
  }

  /** The operation a key belongs to: the first word of its f-string. */
  datatype Tag =
    | SalesOverviewTag | MonthlySummaryTag | TopProductsTag | SalesBreakdownTag
    | DeliveryPerformanceTag | TicketTrendTag | TicketCompositionTag | ChurnRiskTag

  function TagText(t: Tag): string {
    match t
    case SalesOverviewTag => "sales_overview"
    case MonthlySummaryTag => "monthly_summary"
    case TopProductsTag => "top_products"
    case SalesBreakdownTag => "sales_breakdown"
    case DeliveryPerformanceTag => "delivery_performance"
    case TicketTrendTag => "ticket_trend"
    case TicketCompositionTag => "ticket_composition"
    case ChurnRiskTag => "churn_risk"
  }

  lemma TagTextFree(t: Tag)
    ensures Free(TagText(t), ':')
  {
  }

  /** No two operations share a tag. */
  lemma TagTextInjective(a: Tag, b: Tag)
    requires TagText(a) == TagText(b)
    ensures a == b
  {
    var s := TagText(a);
    assert s[|s| - 1] == TagText(b)[|s| - 1] && s[0] == TagText(b)[0];
  }

  /** `f"{tag}:{p1}:{p2}:..."`. */
  function KeyFor(t: Tag, params: seq<string>): string {
    Join([TagText(t)] + params, ':')
  }

  /** The text before a key's first ':'. */
  function TagOf(key: string): string {
    Split(key, ':')[0]
  }

  /** The tag can be read back from any key, whatever its parameters hold. */
  lemma {:induction false} KeyTag(t: Tag, params: seq<string>)
    ensures TagOf(KeyFor(t, params)) == TagText(t)
  {
    TagTextFree(t);
    var parts := [TagText(t)] + params;
    if params == [] {
      assert Join(parts, ':') == TagText(t) + "";
      assert Split("", ':')[0] == "";
      SplitFreePrefix(TagText(t), "", ':');
    } else {
      assert parts[1..] == params;
      assert Join(parts, ':') == TagText(t) + ([':'] + Join(params, ':'));
      assert Split([':'] + Join(params, ':'), ':')[0] == "";
      SplitFreePrefix(TagText(t), [':'] + Join(params, ':'), ':');
    }
  }

  /** Keys of two different operations never meet. */
  lemma KeysOfDistinctTagsDiffer(a: Tag, pa: seq<string>, b: Tag, pb: seq<string>)
    requires a != b
    ensures KeyFor(a, pa) != KeyFor(b, pb)
  {
    KeyTag(a, pa);
    KeyTag(b, pb);
    if TagText(a) == TagText(b) {
      TagTextInjective(a, b);
    }
  }

  /** Within one operation, parameters free of ':' are recovered from the key. */
  lemma KeyForInjective(t: Tag, pa: seq<string>, pb: seq<string>)
    requires AllFree(pa, ':') && AllFree(pb, ':')
    requires KeyFor(t, pa) == KeyFor(t, pb)
    ensures pa == pb
  {
    TagTextFree(t);
    var a := [TagText(t)] + pa;
    var b := [TagText(t)] + pb;
    assert AllFree(a, ':') by {
      forall i | 0 <= i < |a| ensures Free(a[i], ':') {
        if i > 0 { assert a[i] == pa[i - 1]; }
      }
    }
    assert AllFree(b, ':') by {
      forall i | 0 <= i < |b| ensures Free(b[i], ':') {
        if i > 0 { assert b[i] == pb[i - 1]; }
      }
    }
    JoinInjective(a, b, ':');
    assert pa == a[1..] && pb == b[1..];
  }

  /** `KeyForInjective` for keys of two parameters, taken one by one. */
  lemma KeyForInjective2(t: Tag, a0: string, a1: string, b0: string, b1: string)
    requires Free(a0, ':') && Free(a1, ':') && Free(b0, ':') && Free(b1, ':')
    requires KeyFor(t, [a0, a1]) == KeyFor(t, [b0, b1])
    ensures a0 == b0 && a1 == b1
  {
    var pa := [a0, a1];
    var pb := [b0, b1];
    KeyForInjective(t, pa, pb);
    assert pa[0] == pb[0] && pa[1] == pb[1];
  }

  /** A key whose parameters before the last one are free of ':' still determines all of
      them: the last parameter is whatever follows the third ':'. */
  lemma KeyForInjective3(t: Tag, a0: string, a1: string, a2: string, b0: string, b1: string, b2: string)
    requires Free(a0, ':') && Free(a1, ':') && Free(b0, ':') && Free(b1, ':')
    requires KeyFor(t, [a0, a1, a2]) == KeyFor(t, [b0, b1, b2])
    ensures a0 == b0 && a1 == b1 && a2 == b2
  {
    TagTextFree(t);
    var tag := TagText(t);
    JoinFour(tag, a0, a1, a2);
    JoinFour(tag, b0, b1, b2);
    assert [tag] + [a0, a1, a2] == [tag, a0, a1, a2] && [tag] + [b0, b1, b2] == [tag, b0, b1, b2];
    PrefixCancel(tag, a0 + [':'] + (a1 + [':'] + a2), tag, b0 + [':'] + (b1 + [':'] + b2), ':');
    PrefixCancel(a0, a1 + [':'] + a2, b0, b1 + [':'] + b2, ':');
    PrefixCancel(a1, a2, b1, b2, ':');
  }

  /** A key of six parameters of which all but the third are free of ':' determines all of
      them: the third is what lies between the third ':' and the third ':' from the end. */
  lemma KeyForInjective6(t: Tag, a0: string, a1: string, a2: string, a3: string, a4: string, a5: string,
                         b0: string, b1: string, b2: string, b3: string, b4: string, b5: string)
    requires Free(a0, ':') && Free(a1, ':') && Free(a3, ':') && Free(a4, ':') && Free(a5, ':')
    requires Free(b0, ':') && Free(b1, ':') && Free(b3, ':') && Free(b4, ':') && Free(b5, ':')
    requires KeyFor(t, [a0, a1, a2, a3, a4, a5]) == KeyFor(t, [b0, b1, b2, b3, b4, b5])
    ensures a0 == b0 && a1 == b1 && a2 == b2 && a3 == b3 && a4 == b4 && a5 == b5
  {
    var tail1 := Join([a2, a3, a4, a5], ':');
    var tail2 := Join([b2, b3, b4, b5], ':');
    KeyForSixAsThree(t, a0, a1, a2, a3, a4, a5);
    KeyForSixAsThree(t, b0, b1, b2, b3, b4, b5);
    KeyForInjective3(t, a0, a1, tail1, b0, b1, tail2);
    JoinFour(a2, a3, a4, a5);
    JoinFour(b2, b3, b4, b5);
    assert tail1 == (a2 + [':'] + a3 + [':'] + a4) + [':'] + a5;
    assert tail2 == (b2 + [':'] + b3 + [':'] + b4) + [':'] + b5;
    SuffixCancel(a2 + [':'] + a3 + [':'] + a4, a5, b2 + [':'] + b3 + [':'] + b4, b5, ':');
    SuffixCancel(a2 + [':'] + a3, a4, b2 + [':'] + b3, b4, ':');
    SuffixCancel(a2, a3, b2, b3, ':');
  }

  /** The text of a key of six parameters, as the key of three whose last is the join of
      the other four. */
  lemma KeyForSixAsThree(t: Tag, a0: string, a1: string, a2: string, a3: string, a4: string, a5: string)
    ensures KeyFor(t, [a0, a1, a2, a3, a4, a5]) == KeyFor(t, [a0, a1, Join([a2, a3, a4, a5], ':')])
  {
    var tag := TagText(t);
    var j := Join([a2, a3, a4, a5], ':');
    assert Join([a1, a2, a3, a4, a5], ':') == a1 + [':'] + j == Join([a1, j], ':') by {
      assert [a1, a2, a3, a4, a5][1..] == [a2, a3, a4, a5] && [a1, j][1..] == [j];
    }
    assert Join([a0, a1, a2, a3, a4, a5], ':') == Join([a0, a1, j], ':') by {
      assert [a0, a1, a2, a3, a4, a5][1..] == [a1, a2, a3, a4, a5] && [a0, a1, j][1..] == [a1, j];
    }
    assert [tag] + [a0, a1, a2, a3, a4, a5] == [tag, a0, a1, a2, a3, a4, a5] && [tag] + [a0, a1, j] == [tag, a0, a1, j];
    assert [tag, a0, a1, a2, a3, a4, a5][1..] == [a0, a1, a2, a3, a4, a5] && [tag, a0, a1, j][1..] == [a0, a1, j];
  }

  /** The join of four parts, written out with its three separators. */
  lemma JoinFour(a: string, b: string, c: string, d: string)
    ensures Join([a, b, c, d], ':') == a + [':'] + (b + [':'] + (c + [':'] + d))
  {
    assert [a, b, c, d][1..] == [b, c, d] && [b, c, d][1..] == [c, d] && [c, d][1..] == [d];
    assert Join([c, d], ':') == c + [':'] + d;
    assert Join([b, c, d], ':') == b + [':'] + Join([c, d], ':');
  }

  /** `KeyForInjective` for keys of eight parameters, taken one by one. */
  lemma KeyForInjective8(t: Tag, a0: string, a1: string, a2: string, a3: string, a4: string, a5: string,
                         a6: string, a7: string,
                         b0: string, b1: string, b2: string, b3: string, b4: string, b5: string,
                         b6: string, b7: string)
    requires Free(a0, ':') && Free(a1, ':') && Free(a2, ':') && Free(a3, ':') && Free(a4, ':') && Free(a5, ':')
    requires Free(a6, ':') && Free(a7, ':')
    requires Free(b0, ':') && Free(b1, ':') && Free(b2, ':') && Free(b3, ':') && Free(b4, ':') && Free(b5, ':')
    requires Free(b6, ':') && Free(b7, ':')
    requires KeyFor(t, [a0, a1, a2, a3, a4, a5, a6, a7]) == KeyFor(t, [b0, b1, b2, b3, b4, b5, b6, b7])
    ensures a0 == b0 && a1 == b1 && a2 == b2 && a3 == b3 && a4 == b4 && a5 == b5 && a6 == b6 && a7 == b7
  {
    var pa := [a0, a1, a2, a3, a4, a5, a6, a7];
    var pb := [b0, b1, b2, b3, b4, b5, b6, b7];
    KeyForInjective(t, pa, pb);
    assert pa[0] == pb[0] && pa[1] == pb[1] && pa[2] == pb[2] && pa[3] == pb[3];
    assert pa[4] == pb[4] && pa[5] == pb[5] && pa[6] == pb[6] && pa[7] == pb[7];
  }

  /** The tag of the operation that stores a (truthy) payload. */
  function PayloadTag(p: Payload): Tag
    requires Truthy(p)
  {
    match p
    case OverviewPayload(_) => SalesOverviewTag
    case MonthlyPayload(_) => MonthlySummaryTag
    case TopProductsPayload(_) => TopProductsTag
    case BreakdownPayload(_) => SalesBreakdownTag
    case DeliveryPayload(_) => DeliveryPerformanceTag
    case TrendPayload(_) => TicketTrendTag
    case CompositionPayload(_) => TicketCompositionTag
    case ChurnRiskPayload(_) => ChurnRiskTag
  }

  /** Every truthy value in the cache sits under a key of the operation that stored it. */
  predicate WellKeyed(entries: map<string, Entry<Payload>>) {
    forall k :: k in entries && Truthy(entries[k].value) ==> TagOf(k) == TagText(PayloadTag(entries[k].value))
  }

  /** Storing an operation's own payload under one of its keys keeps the cache well keyed. */
  lemma StoreKeepsWellKeyed(entries: map<string, Entry<Payload>>, t: Tag, params: seq<string>, p: Payload, now: int)
    requires WellKeyed(entries)
    requires Truthy(p) && PayloadTag(p) == t
    ensures WellKeyed(Store(entries, KeyFor(t, params), p, now))
  {
    KeyTag(t, params);
  }

  /** In a well-keyed cache a hit under an operation's key holds that operation's payload. */
  lemma HitHasTag(entries: map<string, Entry<Payload>>, t: Tag, params: seq<string>, now: int)
    requires WellKeyed(entries)
    requires Hit(entries, KeyFor(t, params), now)
    ensures PayloadTag(Lookup(entries, KeyFor(t, params), now).value) == t
  {
    var p := Lookup(entries, KeyFor(t, params), now).value;
    KeyTag(t, params);
    TagTextInjective(PayloadTag(p), t);
  }

  /** `Response(**cached_data)` of a hit: pydantic refuses a value of another model. */
  const Mismatch := ValidationError("cached value does not match the response model")

  function DecodeOverview(p: Payload): (r: Result<SalesOverviewResponse, Error>)
    ensures r.Success? <==> p.OverviewPayload?
    ensures r.Success? ==> r.value == p.overview
  {
    if p.OverviewPayload? then Success(p.overview) else Failure(Mismatch)
  }

  function DecodeTopProducts(p: Payload): (r: Result<TopProductsResponse, Error>)
    ensures r.Success? <==> p.TopProductsPayload?
    ensures r.Success? ==> r.value == p.topProducts
  {
    if p.TopProductsPayload? then Success(p.topProducts) else Failure(Mismatch)
  }

  function DecodeBreakdown(p: Payload): (r: Result<SalesByDimensionResponse, Error>)
    ensures r.Success? <==> p.BreakdownPayload?
    ensures r.Success? ==> r.value == p.breakdown
  {
    if p.BreakdownPayload? then Success(p.breakdown) else Failure(Mismatch)
  }

  function DecodeDelivery(p: Payload): (r: Result<DeliveryPerformanceResponse, Error>)
    ensures r.Success? <==> p.DeliveryPayload?
    ensures r.Success? ==> r.value == p.delivery
  {
    if p.DeliveryPayload? then Success(p.delivery) else Failure(Mismatch)
  }

  function DecodeTrend(p: Payload): (r: Result<TicketTrendResponse, Error>)
    ensures r.Success? <==> p.TrendPayload?
    ensures r.Success? ==> r.value == p.trend
  {
    if p.TrendPayload? then Success(p.trend) else Failure(Mismatch)
  }

  function DecodeComposition(p: Payload): (r: Result<TicketCompositionResponse, Error>)
    ensures r.Success? <==> p.CompositionPayload?
    ensures r.Success? ==> r.value == p.composition
  {
    if p.CompositionPayload? then Success(p.composition) else Failure(Mismatch)
  }

  function DecodeChurnRisk(p: Payload): (r: Result<CustomerChurnRiskResponse, Error>)
    ensures r.Success? <==> p.ChurnRiskPayload?
    ensures r.Success? ==> r.value == p.churnRisk
  {
    if p.ChurnRiskPayload? then Success(p.churnRisk) else Failure(Mismatch)
  }

  /** What a service stores is read back as a hit, holding the same value, until its
      time to live has passed. */
  lemma StoredIsHit(entries: map<string, Entry<Payload>>, key: string, p: Payload, now: int, later: int)
    requires Truthy(p)
    requires now <= later < now + CacheTtl
    ensures Hit(Store(entries, key, p, now), key, later)
    ensures Lookup(Store(entries, key, p, now), key, later).value == p
  {
    StoreThenLookup(entries, key, p, now, later);
  }

  /** A response stored by a service and read back before its time to live has passed
      rebuilds into the very response that was stored. */
  lemma StoredResponseDecodes(entries: map<string, Entry<Payload>>, key: string, p: Payload, now: int, later: int)
    requires Truthy(p)
    requires now <= later < now + CacheTtl
    ensures var v := Lookup(Store(entries, key, p, now), key, later).value;
      && (p.OverviewPayload? ==> DecodeOverview(v) == Success(p.overview))
      && (p.TopProductsPayload? ==> DecodeTopProducts(v) == Success(p.topProducts))
      && (p.BreakdownPayload? ==> DecodeBreakdown(v) == Success(p.breakdown))
      && (p.DeliveryPayload? ==> DecodeDelivery(v) == Success(p.delivery))
      && (p.TrendPayload? ==> DecodeTrend(v) == Success(p.trend))
      && (p.CompositionPayload? ==> DecodeComposition(v) == Success(p.composition))
      && (p.ChurnRiskPayload? ==> DecodeChurnRisk(v) == Success(p.churnRisk))
  {
    StoredIsHit(entries, key, p, now, later);
  }

  /** `get_from_cache(key)` followed by `if cached_data:`, for a key of operation `t`:
      the value of a hit, which in a well-keyed cache is one of the operation's own. */
  method CachedValue(cache: TtlCache<Payload>, key: string, ghost t: Tag, ghost params: seq<string>, now: int)
    returns (hit: Option<Payload>)
    requires key == KeyFor(t, params)
    ensures hit.Some? <==> Hit(cache.entries, key, now)
    ensures hit.Some? ==> hit.value == Lookup(cache.entries, key, now).value
    ensures hit.Some? && WellKeyed(cache.entries) ==> Truthy(hit.value) && PayloadTag(hit.value) == t
  {
    var cached := cache.Get(key, now);
    if cached.Some? && Truthy(cached.value) {
      hit := cached;
      if WellKeyed(cache.entries) {
        HitHasTag(cache.entries, t, params, now);
      }
    } else {
      hit := None;
    }
  }

  /** `set_in_cache(key, response)` of operation `t`'s own response. */
  method StoreValue(cache: TtlCache<Payload>, key: string, ghost t: Tag, ghost params: seq<string>, p: Payload, now: int)
    requires key == KeyFor(t, params)
    requires Truthy(p) && PayloadTag(p) == t
    modifies cache
    ensures cache.entries == Store(old(cache.entries), key, p, now)
    ensures WellKeyed(old(cache.entries)) ==> WellKeyed(cache.entries)
  {
    if WellKeyed(cache.entries) {
      StoreKeepsWellKeyed(cache.entries, t, params, p, now);
    }
    cache.Set(key, p, now);
  }

  // ---------------------------------------------------------------------------
  // Key parameters

  /** `f"{d}"` of a date: its ISO text. */
  function DateParam(d: Date): string {
    IsoFormat(d)
  }

  /** `f"{x}"` of an optional integer: the token `None` when absent. */
  function OptionalParam(x: Option<int>): string {
    match x
    case None => "None"
    case Some(i) => IntText(i)
  }

  lemma DateParamFree(d: Date)
    ensures Free(DateParam(d), ':')
  {
    IsoFormatCharacters(d);
  }

  lemma DateParamInjective(a: Date, b: Date)
    requires DateParam(a) == DateParam(b)
    ensures a == b
  {
    IsoFormatInjective(a, b);
  }

  lemma OptionalParamFree(x: Option<int>)
    ensures Free(OptionalParam(x), ':')
  {
    if x.Some? {
      IntTextFree(x.value, ':');
    }
  }

  /** `None` is not the text of any integer, and integers render injectively. */
  lemma OptionalParamInjective(a: Option<int>, b: Option<int>)
    requires OptionalParam(a) == OptionalParam(b)
    ensures a == b
  {
    if a.Some? && b.Some? {
      IntTextInjective(a.value, b.value);
    }
  }
}
