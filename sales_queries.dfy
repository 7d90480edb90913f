/** The WHERE clauses of the sales reports as tagged predicates, and the two methods that
    assemble them step by step (`get_top_products` appends to its query text,
    `get_delivery_performance_by_dimension` to its list of clauses). Each clause carries the
    value its named parameter binds. */
module SalesQueries {
  import opened Wrappers
  import opened Calendar
  import opened Schema

  /** One predicate of a WHERE clause. */
  datatype Clause =
    | StatusIs(status: string)                  // s.sale_status_desc = '...'
    | DeliveryTimeKnown                         // s.delivery_seconds IS NOT NULL
    | CreatedFrom(start: Date)                  // s.created_at >= :start_date
    | CreatedBefore(bound: Date)                // s.created_at < :end_date_plus_one
    | ChannelIs(channelId: int)                 // s.channel_id = :channel_id
    | StoreIs(storeId: int)                     // s.store_id = :store_id
    | IsoWeekdayIs(dayOfWeek: int)              // EXTRACT(ISODOW FROM s.created_at) = :day_of_week
    | HourBetween(startHour: int, endHour: int) // EXTRACT(HOUR FROM s.created_at) BETWEEN ..

  predicate Holds(c: Clause, s: Sale) {
    match c
    case StatusIs(status) => s.status == status
    case DeliveryTimeKnown => s.deliverySeconds.Some?
    case CreatedFrom(start) => !TimestampBefore(s.createdAt, Midnight(start))
    case CreatedBefore(bound) => TimestampBefore(s.createdAt, Midnight(bound))
    case ChannelIs(id) => s.channelId == id
    case StoreIs(id) => s.storeId == id
    case IsoWeekdayIs(dow) => IsoWeekday(s.createdAt.date) == dow
    case HourBetween(lo, hi) => lo <= Hour(s.createdAt) <= hi
  }

  /** The clauses joined with AND. */
  predicate AllHold(cs: seq<Clause>, s: Sale) {
    forall i :: 0 <= i < |cs| ==> Holds(cs[i], s)
  }

  lemma AllHoldAppend(a: seq<Clause>, b: seq<Clause>, s: Sale)
    ensures AllHold(a + b, s) <==> AllHold(a, s) && AllHold(b, s)
  {
    if AllHold(a, s) && AllHold(b, s) {
      forall i | 0 <= i < |a + b| ensures Holds((a + b)[i], s) {
        if i >= |a| {
          assert (a + b)[i] == b[i - |a|];
        }
      }
    }
    if AllHold(a + b, s) {
      forall i | 0 <= i < |b| ensures Holds(b[i], s) {
        assert (a + b)[|a| + i] == b[i];
      }
      forall i | 0 <= i < |a| ensures Holds(a[i], s) {
        assert (a + b)[i] == a[i];
      }
    }
  }

  /** The WHERE every windowed report starts from: completed, and created from midnight of
      `start` up to (not including) midnight of the day after `end`. */
  function WindowClauses(start: Date, end: Date): seq<Clause> {
    [StatusIs(Completed), CreatedFrom(start), CreatedBefore(NextDay(end))]
  }

  /** The half-open bound `end + 1 day` selects exactly the sales completed on a day from
      `start` to `end`, both included. */
  lemma WindowClausesMeaning(start: Date, end: Date, s: Sale)
    ensures AllHold(WindowClauses(start, end), s) <==> CompletedWithin(s, start, end)
  {
    var w := WindowClauses(start, end);
    MidnightBounds(s.createdAt, start);
    MidnightBounds(s.createdAt, NextDay(end));
    NextDayIsSuccessor(end, s.createdAt.date);
    assert AllHold(w, s) <==> Holds(w[0], s) && Holds(w[1], s) && Holds(w[2], s);
  }

  // ---------------------------------------------------------------------------
  // Top products

  /** Python truthiness of an optional id: `None` and `0` are false. */
  predicate IsTruthy(id: Option<int>) {
    id.Some? && id.value != 0
  }

  /** The clauses `get_top_products` ends up with. */
  function TopProductsClauses(start: Date, end: Date, channelId: Option<int>, storeId: Option<int>,
                              dayOfWeek: Option<int>, startHour: Option<int>, endHour: Option<int>): seq<Clause>
  {
    WindowClauses(start, end)
    + (if IsTruthy(channelId) then [ChannelIs(channelId.value)] else [])
    + (if IsTruthy(storeId) then [StoreIs(storeId.value)] else [])
    + (if dayOfWeek.Some? then [IsoWeekdayIs(dayOfWeek.value)] else [])
    + (if startHour.Some? && endHour.Some? then [HourBetween(startHour.value, endHour.value)] else [])
  }

  /** What a top-products row must satisfy, filter by filter. */
  predicate TopProductsMatch(s: Sale, start: Date, end: Date, channelId: Option<int>, storeId: Option<int>,
                             dayOfWeek: Option<int>, startHour: Option<int>, endHour: Option<int>)
  {
    && CompletedWithin(s, start, end)
    && (IsTruthy(channelId) ==> s.channelId == channelId.value)
    && (IsTruthy(storeId) ==> s.storeId == storeId.value)
    && (dayOfWeek.Some? ==> IsoWeekday(s.createdAt.date) == dayOfWeek.value)
    && (startHour.Some? && endHour.Some? ==> startHour.value <= Hour(s.createdAt) <= endHour.value)
  }

  /** The filters are ANDed; a channel or store id of 0 or None, a missing day of week, or
      an hour range missing either bound constrains nothing. */
  lemma TopProductsClausesMeaning(start: Date, end: Date, channelId: Option<int>, storeId: Option<int>,
                                  dayOfWeek: Option<int>, startHour: Option<int>, endHour: Option<int>, s: Sale)
    ensures AllHold(TopProductsClauses(start, end, channelId, storeId, dayOfWeek, startHour, endHour), s)
        <==> TopProductsMatch(s, start, end, channelId, storeId, dayOfWeek, startHour, endHour)
  {
    var w := WindowClauses(start, end);
    var c := if IsTruthy(channelId) then [ChannelIs(channelId.value)] else [];
    var st := if IsTruthy(storeId) then [StoreIs(storeId.value)] else [];
    var d := if dayOfWeek.Some? then [IsoWeekdayIs(dayOfWeek.value)] else [];
    var h := if startHour.Some? && endHour.Some? then [HourBetween(startHour.value, endHour.value)] else [];
    assert TopProductsClauses(start, end, channelId, storeId, dayOfWeek, startHour, endHour) == w + c + st + d + h;
    AllHoldAppend(w + c + st + d, h, s);
    AllHoldAppend(w + c + st, d, s);
    AllHoldAppend(w + c, st, s);
    AllHoldAppend(w, c, s);
    WindowClausesMeaning(start, end, s);
    assert c != [] ==> (AllHold(c, s) <==> Holds(c[0], s));
    assert st != [] ==> (AllHold(st, s) <==> Holds(st[0], s));
    assert d != [] ==> (AllHold(d, s) <==> Holds(d[0], s));
    assert h != [] ==> (AllHold(h, s) <==> Holds(h[0], s));
  }

  /** A channel id of 0 filters exactly as no channel id: the truthiness test drops it. */
  lemma ZeroChannelIsNoFilter(start: Date, end: Date, storeId: Option<int>, dayOfWeek: Option<int>,
                              startHour: Option<int>, endHour: Option<int>)
    ensures TopProductsClauses(start, end, Some(0), storeId, dayOfWeek, startHour, endHour)
         == TopProductsClauses(start, end, None, storeId, dayOfWeek, startHour, endHour)
  {
  }

  /** Assembles the WHERE of `get_top_products`: the fixed window, then one clause per
      active filter. */
  method BuildTopProductsQuery(start: Date, end: Date, channelId: Option<int>, storeId: Option<int>,
                               dayOfWeek: Option<int>, startHour: Option<int>, endHour: Option<int>)
    returns (clauses: seq<Clause>)
    ensures clauses == TopProductsClauses(start, end, channelId, storeId, dayOfWeek, startHour, endHour)
  {
    clauses := WindowClauses(start, end);
    if IsTruthy(channelId) {
      var c := ChannelIs(channelId.value);
      clauses := clauses + [c];
    }
    assert clauses == WindowClauses(start, end)
      + (if IsTruthy(channelId) then [ChannelIs(channelId.value)] else []);
    if IsTruthy(storeId) {
      var c := StoreIs(storeId.value);
      clauses := clauses + [c];
    }
    assert clauses == WindowClauses(start, end)
      + (if IsTruthy(channelId) then [ChannelIs(channelId.value)] else [])
      + (if IsTruthy(storeId) then [StoreIs(storeId.value)] else []);
    if dayOfWeek.Some? {
      var c := IsoWeekdayIs(dayOfWeek.value);
      clauses := clauses + [c];
    }
    assert clauses == WindowClauses(start, end)
      + (if IsTruthy(channelId) then [ChannelIs(channelId.value)] else [])
      + (if IsTruthy(storeId) then [StoreIs(storeId.value)] else [])
      + (if dayOfWeek.Some? then [IsoWeekdayIs(dayOfWeek.value)] else []);
    if startHour.Some? && endHour.Some? {
      var c := HourBetween(startHour.value, endHour.value);
      clauses := clauses + [c];
    }
  }

  // ---------------------------------------------------------------------------
  // Delivery performance

  /** The column a delivery-performance report groups by. */
  datatype GroupColumn = StoreName | Neighborhood | City

  /** The `group_by_clause` chosen for a dimension, or the ValueError raised first. */
  function DeliveryColumn(dimension: string): (r: Result<GroupColumn, Error>)
    ensures r.Failure? <==> dimension != "store" && dimension != "neighborhood" && dimension != "city"
    ensures dimension == "store" ==> r == Success(StoreName)
    ensures dimension == "neighborhood" ==> r == Success(Neighborhood)
    ensures dimension == "city" ==> r == Success(City)
  {
    if dimension == "store" then Success(StoreName)
    else if dimension == "neighborhood" then Success(Neighborhood)
    else if dimension == "city" then Success(City)
    else Failure(ValueError("Invalid dimension for delivery performance."))
  }

  /** The `where_clauses` list a delivery-performance query starts from. */
  function DeliveryBaseClauses(start: Date, end: Date): seq<Clause> {
    [StatusIs(Completed), DeliveryTimeKnown, CreatedFrom(start), CreatedBefore(NextDay(end))]
  }

  /** The `where_clauses` of `get_delivery_performance_by_dimension`. */
  function DeliveryClauses(start: Date, end: Date, dayOfWeek: Option<int>, startHour: Option<int>,
                           endHour: Option<int>): seq<Clause>
  {
    DeliveryBaseClauses(start, end)
    + (if dayOfWeek.Some? then [IsoWeekdayIs(dayOfWeek.value)] else [])
    + (if startHour.Some? && endHour.Some? then [HourBetween(startHour.value, endHour.value)] else [])
  }

  predicate DeliveryMatch(s: Sale, start: Date, end: Date, dayOfWeek: Option<int>, startHour: Option<int>,
                          endHour: Option<int>)
  {
    && CompletedWithin(s, start, end)
    && s.deliverySeconds.Some?
    && (dayOfWeek.Some? ==> IsoWeekday(s.createdAt.date) == dayOfWeek.value)
    && (startHour.Some? && endHour.Some? ==> startHour.value <= Hour(s.createdAt) <= endHour.value)
  }

  /** Only completed sales in the window with a known delivery time count, narrowed by
      the day of week when given and the hour range when both bounds are given. */
  lemma DeliveryClausesMeaning(start: Date, end: Date, dayOfWeek: Option<int>, startHour: Option<int>,
                               endHour: Option<int>, s: Sale)
    ensures AllHold(DeliveryClauses(start, end, dayOfWeek, startHour, endHour), s)
        <==> DeliveryMatch(s, start, end, dayOfWeek, startHour, endHour)
  {
    var base := DeliveryBaseClauses(start, end);
    var d := if dayOfWeek.Some? then [IsoWeekdayIs(dayOfWeek.value)] else [];
    var h := if startHour.Some? && endHour.Some? then [HourBetween(startHour.value, endHour.value)] else [];
    AllHoldAppend(base + d, h, s);
    AllHoldAppend(base, d, s);
    MidnightBounds(s.createdAt, start);
    MidnightBounds(s.createdAt, NextDay(end));
    NextDayIsSuccessor(end, s.createdAt.date);
    assert AllHold(base, s) <==> Holds(base[0], s) && Holds(base[1], s) && Holds(base[2], s) && Holds(base[3], s);
  }

  /** The grouping column, clauses and parameters of one delivery-performance query. */
  datatype DeliveryQuery = DeliveryQuery(groupBy: GroupColumn, clauses: seq<Clause>)

  /** Assembles the query of `get_delivery_performance_by_dimension`: rejects the
      dimension before anything else, picks the grouping column, then appends the
      optional clauses. */
  method BuildDeliveryQuery(start: Date, end: Date, dimension: string, dayOfWeek: Option<int>,
                            startHour: Option<int>, endHour: Option<int>)
    returns (r: Result<DeliveryQuery, Error>)
    ensures r.Failure? <==> DeliveryColumn(dimension).Failure?
    ensures r.Failure? ==> r.error == DeliveryColumn(dimension).error
    ensures r.Success? ==>
      && r.value.groupBy == DeliveryColumn(dimension).value
      && r.value.clauses == DeliveryClauses(start, end, dayOfWeek, startHour, endHour)
  {
    if dimension != "store" && dimension != "neighborhood" && dimension != "city" {
      return Failure(ValueError("Invalid dimension for delivery performance."));
    }
    var groupBy := StoreName;
    if dimension == "store" {
      groupBy := StoreName;
    } else if dimension == "neighborhood" {
      groupBy := Neighborhood;
    } else if dimension == "city" {
      groupBy := City;
    }
    var whereClauses := DeliveryBaseClauses(start, end);
    if dayOfWeek.Some? {
      var c := IsoWeekdayIs(dayOfWeek.value);
      whereClauses := whereClauses + [c];
    }
    if startHour.Some? && endHour.Some? {
      var c := HourBetween(startHour.value, endHour.value);
      whereClauses := whereClauses + [c];
    }
    return Success(DeliveryQuery(groupBy, whereClauses));
  }
}
