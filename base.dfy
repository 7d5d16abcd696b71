/**
  * The helpers every processor shares (`BaseFlightProcessor`): price
  * normalisation, the per-leg and per-trip price ceilings, and grouping
  * flights by airport.
  */
module Base {
  import opened Wrappers
  import opened Seqs
  import opened Text
  import opened Models
  import opened Timetable

  // ---------------------------------------------------------------------------
  // Prices

  /** `_convert_price_to_int`: ints unchanged, strings through `int()`, anything else a ValueError. */
  function ConvertPrice(p: Price): (r: Result<int, Error>) {
    match p
    case IntPrice(n) => Ok(n)
    case StrPrice(text) =>
      (match ParseInt(text)
       case Some(n) => Ok(n)
       case None => Err(PriceParseError(text)))
    case NoPrice => Err(WrongPriceType)
  }

  /**
    * Which prices convert: every int, exactly the decimal strings, and
    * never a missing price; the value of a string is the one it spells.
    */
  lemma ConvertPriceSpec(p: Price)
    ensures p.IntPrice? ==> ConvertPrice(p) == Ok(p.amount)
    ensures p.StrPrice? ==> (ConvertPrice(p).Ok? <==> IsIntLiteral(p.text))
    ensures p.NoPrice? ==> ConvertPrice(p).Err?
    ensures forall n: int :: ConvertPrice(StrPrice(IntToString(n))) == Ok(n)
  {
    forall n: int ensures ConvertPrice(StrPrice(IntToString(n))) == Ok(n) {
      ParseIntRoundTrip(n);
    }
  }

  /** Converting a converted price changes nothing. */
  lemma ConvertPriceIdempotent(p: Price)
    requires ConvertPrice(p).Ok?
    ensures ConvertPrice(IntPrice(ConvertPrice(p).value)) == ConvertPrice(p)
  {
  }

  /** `after` is the int that `before` converts to. */
  predicate Converts(before: Price, after: Price) {
    ConvertPrice(before).Ok? && after == IntPrice(ConvertPrice(before).value)
  }

  /** Every price of `data` converts. */
  predicate AllPricesConvert(data: seq<FlightInfo>)
    reads Flights(data)`price
  {
    forall i | 0 <= i < |data| :: ConvertPrice(data[i].price).Ok?
  }

  /** Every flight of `data` holds the int that its earlier price converts to. */
  twostate predicate ConvertedFromOld(data: seq<FlightInfo>)
    reads Flights(data)`price
  {
    forall i | 0 <= i < |data| :: Converts(old(data[i].price), data[i].price)
  }

  /**
    * `convert_prices` stopped at flight `i` with error `e`: the flights
    * before it hold their converted prices, its own price raised `e`, and
    * the flights after it that are not among those before keep their prices.
    */
  twostate predicate StoppedAt(data: seq<FlightInfo>, i: int, e: Error)
    reads Flights(data)`price
  {
    && 0 <= i < |data|
    && (forall j | 0 <= j < i :: Converts(old(data[j].price), data[j].price))
    && ConvertPrice(old(data[i].price)) == Err(e)
    && (forall j | i <= j < |data| && data[j] !in data[..i] :: data[j].price == old(data[j].price))
  }

  /**
    * `convert_prices`: rewrites every flight's price to an int in place,
    * in list order, stopping at the first price that does not convert.
    * The same flight may occur twice; its second conversion is a no-op.
    */
  method ConvertPrices(data: seq<FlightInfo>) returns (r: Result<(), Error>)
    modifies Flights(data)`price
    ensures r.Ok? <==> old(AllPricesConvert(data))
    ensures r.Ok? ==> ConvertedFromOld(data) && Converted(data)
    ensures r.Err? ==> exists i :: StoppedAt(data, i, r.error)
    ensures forall i | 0 <= i < |data| :: data[i].price == old(data[i].price) || Converts(old(data[i].price), data[i].price)
    ensures forall i | 0 <= i < |data| :: data[i].startTime == old(data[i].startTime) && data[i].backTime == old(data[i].backTime)
  {
    for i := 0 to |data|
      invariant forall j | 0 <= j < i :: ConvertPrice(old(data[j].price)).Ok?
      invariant forall j | 0 <= j < i :: data[j].price == IntPrice(ConvertPrice(old(data[j].price)).value)
      invariant forall j | i <= j < |data| && data[j] !in data[..i] :: data[j].price == old(data[j].price)
      invariant forall j | 0 <= j < |data| :: data[j].price == old(data[j].price) || Converts(old(data[j].price), data[j].price)
      invariant forall j | 0 <= j < |data| :: data[j].startTime == old(data[j].startTime) && data[j].backTime == old(data[j].backTime)
    {
      var flight := data[i];
      if flight in data[..i] {
        var k :| 0 <= k < i && data[k] == flight;
        assert flight.price == IntPrice(ConvertPrice(old(flight.price)).value);
      }
      var converted := ConvertPrice(flight.price);
      if converted.Err? {
        assert flight !in data[..i];
        assert StoppedAt(data, i, converted.error);
        return Err(converted.error);
      }
      flight.price := IntPrice(converted.value);
      assert forall j | i + 1 <= j < |data| && data[j] !in data[..i + 1] :: data[j] != flight && data[j] !in data[..i] by {
        assert data[..i + 1] == data[..i] + [flight];
      }
    }
    r := Ok(());
  }

  // ---------------------------------------------------------------------------
  // Price ceilings

  /** `filter_by_price`: the flights cheaper than `limit` (strictly), in order. */
  function FilterByPrice(data: seq<FlightInfo>, limit: int): (r: seq<FlightInfo>)
    reads data
    requires Converted(data)
    ensures forall i | 0 <= i < |r| :: r[i] in data && r[i].price.IntPrice? && r[i].price.amount < limit
    decreases |data|
  {
    if data == [] then []
    else
      var init := data[..|data| - 1];
      var last := data[|data| - 1];
      FilterByPrice(init, limit) + (if last.price.amount < limit then [last] else [])
  }

  /**
    * The price filter keeps exactly the cheap flights: nothing it returns
    * is new, and every flight under the ceiling is kept with all its copies.
    */
  lemma {:induction false} FilterByPriceCounts(data: seq<FlightInfo>, limit: int)
    requires Converted(data)
    ensures multiset(FilterByPrice(data, limit)) <= multiset(data)
    ensures forall i | 0 <= i < |data| && data[i].price.amount < limit ::
      multiset(FilterByPrice(data, limit))[data[i]] == multiset(data)[data[i]]
  {
    forall x: FlightInfo ensures multiset(FilterByPrice(data, limit))[x] <= multiset(data)[x] {
      FilterByPriceCount(data, limit, x);
    }
    forall i | 0 <= i < |data| && data[i].price.amount < limit
      ensures multiset(FilterByPrice(data, limit))[data[i]] == multiset(data)[data[i]]
    {
      FilterByPriceCount(data, limit, data[i]);
    }
  }

  /** The price filter keeps every copy of a flight under the ceiling and no copy of any other. */
  lemma {:induction false} FilterByPriceCount(data: seq<FlightInfo>, limit: int, x: FlightInfo)
    requires Converted(data)
    ensures multiset(FilterByPrice(data, limit))[x] == if x.price.IntPrice? && x.price.amount < limit then multiset(data)[x] else 0
    decreases |data|
  {
    if data != [] {
      var init := data[..|data| - 1];
      var last := data[|data| - 1];
      assert data == init + [last];
      FilterByPriceCount(init, limit, x);
      if x.price.IntPrice? && x.price.amount < limit {
      } else if multiset(data)[x] > 0 {
        assert x in multiset(data);
        assert x in data;
        var k :| 0 <= k < |data| && data[k] == x;
        assert x.price.IntPrice?;
      }
    }
  }

  /** The price filter distributes over concatenation, so it keeps the order of its input. */
  lemma {:induction false} FilterByPriceAppend(a: seq<FlightInfo>, b: seq<FlightInfo>, limit: int)
    requires Converted(a) && Converted(b)
    ensures Converted(a + b)
    ensures FilterByPrice(a + b, limit) == FilterByPrice(a, limit) + FilterByPrice(b, limit)
    decreases |b|
  {
    if b != [] {
      var binit := b[..|b| - 1];
      var last := b[|b| - 1];
      var tail := if last.price.amount < limit then [last] else [];
      assert (a + b)[..|a + b| - 1] == a + binit;
      assert (a + b)[|a + b| - 1] == last;
      assert Converted(binit);
      FilterByPriceAppend(a, binit, limit);
      calc {
        FilterByPrice(a + b, limit);
        FilterByPrice(a + binit, limit) + tail;
        FilterByPrice(a, limit) + FilterByPrice(binit, limit) + tail;
        FilterByPrice(a, limit) + FilterByPrice(b, limit);
      }
    } else {
      assert a + b == a;
    }
  }

  /** Filtering by the same ceiling twice changes nothing the second time. */
  lemma {:induction false} FilterByPriceIdempotent(data: seq<FlightInfo>, limit: int)
    requires Converted(data)
    ensures Converted(FilterByPrice(data, limit))
    ensures FilterByPrice(FilterByPrice(data, limit), limit) == FilterByPrice(data, limit)
    decreases |data|
  {
    if data != [] {
      var init := data[..|data| - 1];
      var last := data[|data| - 1];
      var tail := if last.price.amount < limit then [last] else [];
      FilterByPriceIdempotent(init, limit);
      FilterByPriceAppend(FilterByPrice(init, limit), tail, limit);
      if tail != [] {
        assert tail[..0] == [];
      }
    }
  }

  /** The trips of one airport whose total is under the ceiling. */
  function UnderLimit(limit: int): Trip -> bool {
    (t: Trip) => t.total < limit
  }

  /**
    * What `filter_by_total_price_flights` returns: each airport's trips
    * under the ceiling, in order, for the airports that keep one.
    */
  function TotalPriceFiltered(trips: TripsDict, limit: int): TripsDict {
    map iata | iata in trips && Filter(trips[iata], UnderLimit(limit)) != [] :: Filter(trips[iata], UnderLimit(limit))
  }

  /**
    * The total-price ceiling is strict and exact: an airport stays iff one
    * of its trips costs less than `limit`, every trip kept does, and every
    * such trip is kept with all its copies.
    */
  lemma TotalPriceFilteredSpec(trips: TripsDict, limit: int)
    ensures forall iata :: iata in TotalPriceFiltered(trips, limit) <==>
      iata in trips && exists i | 0 <= i < |trips[iata]| :: trips[iata][i].total < limit
    ensures forall iata, i | iata in TotalPriceFiltered(trips, limit) && 0 <= i < |TotalPriceFiltered(trips, limit)[iata]| ::
      TotalPriceFiltered(trips, limit)[iata][i].total < limit
    ensures forall iata, i | iata in TotalPriceFiltered(trips, limit) && 0 <= i < |trips[iata]| && trips[iata][i].total < limit ::
      multiset(TotalPriceFiltered(trips, limit)[iata])[trips[iata][i]] == multiset(trips[iata])[trips[iata][i]]
  {
    var r: TripsDict := TotalPriceFiltered(trips, limit);
    forall iata | iata in trips ensures iata in r <==> exists i | 0 <= i < |trips[iata]| :: trips[iata][i].total < limit {
      var kept := Filter(trips[iata], UnderLimit(limit));
      if i :| 0 <= i < |trips[iata]| && trips[iata][i].total < limit {
        assert UnderLimit(limit)(trips[iata][i]);
        assert multiset(kept)[trips[iata][i]] > 0;
      }
      if kept != [] {
        assert UnderLimit(limit)(kept[0]);
        assert kept[0] in multiset(trips[iata]);
      }
    }
    forall iata, i | iata in r && 0 <= i < |trips[iata]| && trips[iata][i].total < limit
      ensures multiset(r[iata])[trips[iata][i]] == multiset(trips[iata])[trips[iata][i]]
    {
      assert UnderLimit(limit)(trips[iata][i]);
    }
    forall iata, i | iata in r && 0 <= i < |r[iata]| ensures r[iata][i].total < limit {
      assert UnderLimit(limit)(r[iata][i]);
    }
  }

  /** Applying the total-price ceiling twice changes nothing the second time. */
  lemma TotalPriceFilteredIdempotent(trips: TripsDict, limit: int)
    ensures TotalPriceFiltered(TotalPriceFiltered(trips, limit), limit) == TotalPriceFiltered(trips, limit)
  {
    var once := TotalPriceFiltered(trips, limit);
    var twice := TotalPriceFiltered(once, limit);
    forall iata | iata in once ensures Filter(once[iata], UnderLimit(limit)) == once[iata] {
      FilterIdempotent(trips[iata], UnderLimit(limit));
    }
    assert twice.Keys == once.Keys;
  }

  /** The inner loop of `filter_by_total_price_flights`: one airport's trips under the ceiling. */
  method KeepUnderLimit(trips: seq<Trip>, limit: int) returns (kept: seq<Trip>)
    ensures kept == Filter(trips, UnderLimit(limit))
  {
    kept := [];
    assert trips[..0] == [];
    for i := 0 to |trips|
      invariant kept == Filter(trips[..i], UnderLimit(limit))
    {
      FilterPrefixStep(trips, i, UnderLimit(limit));
      if trips[i].total < limit {
        kept := kept + [trips[i]];
      }
    }
    assert trips[..|trips|] == trips;
  }

  /**
    * `filter_by_total_price_flights`: the survivors of each airport, under
    * a key that the default dictionary creates only on the first append.
    */
  method FilterByTotalPrice(trips: TripsDict, limit: int) returns (filtered: TripsDict)
    ensures filtered == TotalPriceFiltered(trips, limit)
  {
    filtered := map[];
    var todo := trips.Keys;
    while todo != {}
      invariant todo <= trips.Keys
      invariant filtered == TotalPriceFilteredOn(trips, limit, trips.Keys - todo)
      decreases todo
    {
      var iata :| iata in todo;
      var kept := KeepUnderLimit(trips[iata], limit);
      TotalPriceFilteredStep(trips, limit, trips.Keys - todo, iata);
      if kept != [] {
        filtered := filtered[iata := kept];
      }
      assert (trips.Keys - todo) + {iata} == trips.Keys - (todo - {iata});
      todo := todo - {iata};
    }
    assert TotalPriceFilteredOn(trips, limit, trips.Keys) == TotalPriceFiltered(trips, limit);
  }

  /** `TotalPriceFiltered` on the airports in `keys` only. */
  ghost function TotalPriceFilteredOn(trips: TripsDict, limit: int, keys: set<string>): TripsDict {
    map iata | iata in keys && iata in trips && Filter(trips[iata], UnderLimit(limit)) != [] :: Filter(trips[iata], UnderLimit(limit))
  }

  /** One more airport: its kept trips join the result when there are any. */
  lemma TotalPriceFilteredStep(trips: TripsDict, limit: int, keys: set<string>, iata: string)
    requires iata in trips
    ensures TotalPriceFilteredOn(trips, limit, keys + {iata}) ==
      var kept := Filter(trips[iata], UnderLimit(limit));
      if kept != [] then TotalPriceFilteredOn(trips, limit, keys)[iata := kept] else TotalPriceFilteredOn(trips, limit, keys)
  {
  }

  /**
    * `trips.sort(key=lambda x: x['total_price'])`: Python's sort is stable,
    * so the result is ordered by total, a permutation of the input, and
    * keeps trips of equal total in their input order.
    */
  function SortByTotal(trips: seq<Trip>): (r: seq<Trip>)
    ensures SortedBy(r, Total, IntLe)
    ensures multiset(r) == multiset(trips)
    ensures StableFor(r, trips, Total)
  {
    IntLeTotalOrder();
    SortByFacts(trips, Total, IntLe);
    SortBy(trips, Total, IntLe)
  }

  // ---------------------------------------------------------------------------
  // Grouping

  /**
    * `group_flights_by_key`: one pass appending each item to the list of
    * its key (`getattr(item, key)`, here the function `key`).
    */
  method GroupFlightsByKey<T, K(==)>(data: seq<T>, key: T -> K) returns (grouped: map<K, seq<T>>)
    ensures grouped == GroupBy(data, key)
  {
    grouped := map[];
    GroupByEmpty(key);
    assert data[..0] == [];
    for i := 0 to |data|
      invariant grouped == GroupBy(data[..i], key)
    {
      GroupByPrefixStep(data, i, key);
      var k := key(data[i]);
      var sofar := if k in grouped then grouped[k] else [];
      grouped := grouped[k := sofar + [data[i]]];
    }
    assert data[..|data|] == data;
  }

  /** The attribute a processor groups by: `'end'` for outbound legs, `'start'` for return legs. */
  function EndOf(f: FlightInfo): string {
    f.end
  }

  function StartOf(f: FlightInfo): string {
    f.start
  }

  // ---------------------------------------------------------------------------
  // The legs of a trip dictionary and their timetable times

  /** `get_flight_time(f, 'departures')`: the timetable time of an outbound leg. */
  function DepartureTime(tt: Timetables, f: FlightInfo): Result<Option<Time>, Error> {
    FlightTime(tt, f.start, f.end, f.date, Departures)
  }

  /** `get_flight_time(f, 'arrivals')`: the timetable time of a return leg, looked up at its destination. */
  function ReturnTime(tt: Timetables, f: FlightInfo): Result<Option<Time>, Error> {
    FlightTime(tt, f.start, f.end, f.date, Arrivals)
  }

  /**
    * The two lookups a processor makes for one trip, outbound leg first:
    * the first KeyError, or both times.
    */
  function TripTimes(tt: Timetables, t: Trip): (r: Result<(Option<Time>, Option<Time>), Error>)
    ensures r.Ok? <==> DepartureTime(tt, t.start).Ok? && ReturnTime(tt, t.back).Ok?
    ensures r.Ok? ==> r.value == (DepartureTime(tt, t.start).value, ReturnTime(tt, t.back).value)
    ensures r.Err? ==> r.error == (if DepartureTime(tt, t.start).Err? then DepartureTime(tt, t.start).error else ReturnTime(tt, t.back).error)
  {
    match DepartureTime(tt, t.start)
    case Err(e) => Err(e)
    case Ok(s) =>
      match ReturnTime(tt, t.back)
      case Err(e) => Err(e)
      case Ok(b) => Ok((s, b))
  }

  /** Both lookups of every trip succeed (no KeyError). */
  predicate LookupsOk(tt: Timetables, trips: seq<Trip>) {
    forall i | 0 <= i < |trips| :: TripTimes(tt, trips[i]).Ok?
  }

  /** The outbound legs and the return legs of a list of trips. */
  function StartLegs(trips: seq<Trip>): set<FlightInfo> {
    set i | 0 <= i < |trips| :: trips[i].start
  }

  function BackLegs(trips: seq<Trip>): set<FlightInfo> {
    set i | 0 <= i < |trips| :: trips[i].back
  }

  /** The outbound legs and the return legs of the trips of the airports in `keys`. */
  function StartLegsIn(trips: TripsDict, keys: set<string>): set<FlightInfo> {
    set iata, i | iata in keys && iata in trips && 0 <= i < |trips[iata]| :: trips[iata][i].start
  }

  function BackLegsIn(trips: TripsDict, keys: set<string>): set<FlightInfo> {
    set iata, i | iata in keys && iata in trips && 0 <= i < |trips[iata]| :: trips[iata][i].back
  }

  /** The legs of one more airport. */
  lemma LegsInStep(trips: TripsDict, keys: set<string>, iata: string)
    requires iata in trips
    ensures StartLegsIn(trips, keys + {iata}) == StartLegsIn(trips, keys) + StartLegs(trips[iata])
    ensures BackLegsIn(trips, keys + {iata}) == BackLegsIn(trips, keys) + BackLegs(trips[iata])
    ensures StartLegs(trips[iata]) <= StartLegsIn(trips, trips.Keys)
    ensures BackLegs(trips[iata]) <= BackLegsIn(trips, trips.Keys)
  {
  }

  /** `f.start_time` holds its departure time. */
  predicate HasStartTime(tt: Timetables, f: FlightInfo)
    reads f`startTime
  {
    DepartureTime(tt, f) == Ok(f.startTime)
  }

  /** `f.back_time` holds its return time. */
  predicate HasBackTime(tt: Timetables, f: FlightInfo)
    reads f`backTime
  {
    ReturnTime(tt, f) == Ok(f.backTime)
  }

  /** The first `n` trips carry the times their lookups return on both legs. */
  predicate Enriched(tt: Timetables, trips: seq<Trip>, n: int)
    requires 0 <= n <= |trips|
    reads StartLegs(trips)`startTime, BackLegs(trips)`backTime
  {
    forall j | 0 <= j < n :: HasStartTime(tt, trips[j].start) && HasBackTime(tt, trips[j].back)
  }

  /** Every leg of `legs` carries its departure time. */
  predicate StartTimesKnown(tt: Timetables, legs: set<FlightInfo>)
    reads legs`startTime
  {
    forall f | f in legs :: HasStartTime(tt, f)
  }

  /** Every leg of `legs` carries its return time. */
  predicate BackTimesKnown(tt: Timetables, legs: set<FlightInfo>)
    reads legs`backTime
  {
    forall f | f in legs :: HasBackTime(tt, f)
  }

  /** Once all of a list's trips are enriched, all of its legs carry their times. */
  lemma EnrichedLegs(tt: Timetables, trips: seq<Trip>)
    requires Enriched(tt, trips, |trips|)
    ensures StartTimesKnown(tt, StartLegs(trips)) && BackTimesKnown(tt, BackLegs(trips))
  {
  }

  /**
    * `s.start_time = s_time` for the outbound leg of trip `i`: it now
    * carries its departure time, and every leg that carried a time still does.
    */
  method StoreStartTime(tt: Timetables, trips: seq<Trip>, i: int, time: Option<Time>,
                        ghost starts: set<FlightInfo>, ghost backs: set<FlightInfo>)
    requires 0 <= i < |trips| && Enriched(tt, trips, i)
    requires StartTimesKnown(tt, starts) && BackTimesKnown(tt, backs)
    requires DepartureTime(tt, trips[i].start) == Ok(time)
    modifies trips[i].start`startTime
    ensures trips[i].start.startTime == time
    ensures Enriched(tt, trips, i) && StartTimesKnown(tt, starts) && BackTimesKnown(tt, backs)
  {
    trips[i].start.startTime := time;
  }

  /**
    * `b.back_time = b_time` for the return leg of trip `i`, once its
    * outbound leg carries its time: trip `i` is now enriched too.
    */
  method StoreBackTime(tt: Timetables, trips: seq<Trip>, i: int, time: Option<Time>,
                       ghost starts: set<FlightInfo>, ghost backs: set<FlightInfo>)
    requires 0 <= i < |trips| && Enriched(tt, trips, i) && HasStartTime(tt, trips[i].start)
    requires StartTimesKnown(tt, starts) && BackTimesKnown(tt, backs)
    requires ReturnTime(tt, trips[i].back) == Ok(time)
    modifies trips[i].back`backTime
    ensures trips[i].back.backTime == time
    ensures Enriched(tt, trips, i + 1) && StartTimesKnown(tt, starts) && BackTimesKnown(tt, backs)
  {
    trips[i].back.backTime := time;
  }

  /** Every lookup for the airports in `keys` succeeds (no KeyError). */
  predicate LookupsOkIn(tt: Timetables, trips: TripsDict, keys: set<string>) {
    forall iata | iata in keys && iata in trips :: LookupsOk(tt, trips[iata])
  }

  /** The trips whose legs all have their times attached passed both lookups. */
  lemma LookupsFromTimes(tt: Timetables, trips: seq<Trip>, n: int)
    requires 0 <= n <= |trips|
    requires Enriched(tt, trips, n)
    ensures LookupsOk(tt, trips[..n])
  {
  }

  /** A lookup that fails after every earlier trip's succeeded is the first failure. */
  lemma FirstLookupError(tt: Timetables, trips: seq<Trip>, i: int, e: Error)
    requires 0 <= i < |trips| && TripTimes(tt, trips[i]) == Err(e)
    requires Enriched(tt, trips, i)
    ensures !LookupsOk(tt, trips)
    ensures exists k | 0 <= k < |trips| :: LookupsOk(tt, trips[..k]) && TripTimes(tt, trips[k]) == Err(e) && Enriched(tt, trips, k)
  {
    LookupsFromTimes(tt, trips, i);
  }
}
