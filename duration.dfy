/**
  * `FlightProcessorDuration`: every round trip to an away airport whose
  * length in days lies in a chosen range, optionally inside a window of
  * dates, on any weekday.
  */
module Duration {
  import opened Wrappers
  import opened Seqs
  import opened Calendar
  import opened Models
  import opened Timetable
  import opened Base
  import opened Pairing

  // ---------------------------------------------------------------------------
  // Settings

  /**
    * The settings of a `FlightProcessorDuration`: the ceiling on each leg's
    * and on each trip's price, the shortest and longest trip in days, and
    * the optional first and last date of the window.
    */
  datatype DurationSettings = DurationSettings(
    priceLimit: int, minTripDays: int, maxTripDays: int, startDate: Option<Date>, endDate: Option<Date>)

  /**
    * One window bound of `__init__`: a missing or empty text is no bound,
    * any other text is parsed as `%d.%m.%Y` and raises ValueError when it
    * does not parse.
    */
  function WindowBound(text: Option<string>): (r: Result<Option<Date>, Error>)
    ensures r == Ok(None) <==> text == None || text == Some([])
    ensures r.Err? ==> text.Some? && r.error == DateFormatError(text.value)
  {
    if text.None? || text.value == [] then Ok(None)
    else
      match ParseDateAs(text.value, DayMonthYearDot)
      case Some(d) => Ok(Some(d))
      case None => Err(DateFormatError(text.value))
  }

  /** A bound written as `dd.mm.YYYY` is read back as that date. */
  lemma WindowBoundOfFormatted(c: Civil)
    requires ValidCivil(c)
    ensures WindowBound(Some(FormatDate(c, DayMonthYearDot))) == Ok(Some(Ordinal(c.year, c.month, c.day)))
  {
    ParseFormattedDate(c, DayMonthYearDot);
  }

  /** `FlightProcessorDuration.__init__`: the start bound is parsed first, so its ValueError wins; then the end bound's. */
  function NewDurationSettings(priceLimit: int, minTripDays: int, maxTripDays: int,
                               startText: Option<string>, endText: Option<string>): (r: Result<DurationSettings, Error>)
    ensures r.Ok? <==> WindowBound(startText).Ok? && WindowBound(endText).Ok?
    ensures r.Ok? ==> r.value.priceLimit == priceLimit && r.value.minTripDays == minTripDays && r.value.maxTripDays == maxTripDays
    ensures r.Ok? ==> r.value.startDate == WindowBound(startText).value && r.value.endDate == WindowBound(endText).value
    ensures WindowBound(startText).Err? ==> r == Err(WindowBound(startText).error)
    ensures WindowBound(startText).Ok? && WindowBound(endText).Err? ==> r == Err(WindowBound(endText).error)
  {
    match WindowBound(startText)
    case Err(e) => Err(e)
    case Ok(startDate) =>
      match WindowBound(endText)
      case Err(e) => Err(e)
      case Ok(endDate) => Ok(DurationSettings(priceLimit, minTripDays, maxTripDays, startDate, endDate))
  }

  // ---------------------------------------------------------------------------
  // Validity

  /** `d` lies in the window: not before its first date and not after its last, where given. */
  predicate InWindow(st: DurationSettings, d: Date) {
    (st.startDate.None? || st.startDate.value <= d) && (st.endDate.None? || d <= st.endDate.value)
  }

  /** `_is_valid_start_flight`: the outbound leg is neither before the window nor after it. */
  predicate ValidStart(st: DurationSettings, f: FlightInfo) {
    if st.startDate.Some? && f.date < st.startDate.value then false
    else st.endDate.None? || f.date <= st.endDate.value
  }

  /**
    * `_is_valid_trip`: the return strictly after the departure, the return
    * date in the window, and the length in days within the range.
    */
  predicate ValidTrip(st: DurationSettings, s: FlightInfo, b: FlightInfo) {
    if s.date >= b.date then false
    else if st.startDate.Some? && b.date < st.startDate.value then false
    else if st.endDate.Some? && b.date > st.endDate.value then false
    else st.minTripDays <= b.date - s.date <= st.maxTripDays
  }

  /**
    * A valid outbound leg of a valid trip makes the whole trip lie in the
    * window: every day from departure to return is in it, the trip lasts at
    * least one day (never a same-day trip) and its length is in range.
    */
  lemma ValidTripInWindow(st: DurationSettings, s: FlightInfo, b: FlightInfo, d: Date)
    requires ValidStart(st, s) && ValidTrip(st, s, b)
    requires s.date <= d <= b.date
    ensures InWindow(st, d)
    ensures s.date < b.date
    ensures st.minTripDays <= b.date - s.date <= st.maxTripDays
  {
  }

  /** Conversely, a trip of in-range length whose departure and return lie in the window passes both rules. */
  lemma WindowTripValid(st: DurationSettings, s: FlightInfo, b: FlightInfo)
    requires InWindow(st, s.date) && InWindow(st, b.date)
    requires s.date < b.date && st.minTripDays <= b.date - s.date <= st.maxTripDays
    ensures ValidStart(st, s) && ValidTrip(st, s, b)
  {
  }

  /** The pairing rule of `_find_trips_for_iata`: a valid outbound leg and a valid trip. */
  predicate DurationMatch(st: DurationSettings, s: FlightInfo, b: FlightInfo) {
    ValidStart(st, s) && ValidTrip(st, s, b)
  }

  function Policy(st: DurationSettings): (FlightInfo, FlightInfo) -> bool {
    (s: FlightInfo, b: FlightInfo) => DurationMatch(st, s, b)
  }

  // ---------------------------------------------------------------------------
  // Matching

  /** An invalid outbound leg pairs with nothing. */
  lemma {:induction false} RowOfInvalidStart(st: DurationSettings, s: FlightInfo, backs: seq<FlightInfo>)
    requires s.price.IntPrice? && Converted(backs) && !ValidStart(st, s)
    ensures Row(s, backs, Policy(st)) == []
    decreases |backs|
  {
    if backs != [] {
      RowOfInvalidStart(st, s, backs[..|backs| - 1]);
    }
  }

  /**
    * `_find_trips_for_iata`: skips each invalid outbound leg, and pairs each
    * valid one with every return leg that makes a valid trip, in loop order.
    */
  method FindTripsForIata(st: DurationSettings, starts: seq<FlightInfo>, backs: seq<FlightInfo>) returns (trips: seq<Trip>)
    requires Converted(starts) && Converted(backs)
    ensures trips == Pairs(starts, backs, Policy(st))
  {
    trips := [];
    assert starts[..0] == [];
    for i := 0 to |starts|
      invariant trips == Pairs(starts[..i], backs, Policy(st))
    {
      PairsPrefixStep(starts, backs, Policy(st), i);
      if !ValidStart(st, starts[i]) {
        RowOfInvalidStart(st, starts[i], backs);
        continue;
      }
      var row := PairRow(starts[i], backs, Policy(st));
      trips := trips + row;
    }
    assert starts[..|starts|] == starts;
  }

  /**
    * What `_find_trips_for_iata` yields: a trip iff both legs are listed,
    * pass both validity rules and it is priced as their sum; each such pair
    * once per copy of its legs.
    */
  lemma TripsForIataMembers(st: DurationSettings, starts: seq<FlightInfo>, backs: seq<FlightInfo>, t: Trip)
    requires Converted(starts) && Converted(backs)
    ensures t in Pairs(starts, backs, Policy(st)) <==>
      t.start in starts && t.back in backs && ValidStart(st, t.start) && ValidTrip(st, t.start, t.back) && SumPriced(t)
    ensures multiset(Pairs(starts, backs, Policy(st)))[t] ==
      if DurationMatch(st, t.start, t.back) && SumPriced(t) then multiset(starts)[t.start] * multiset(backs)[t.back] else 0
  {
    PairsMembership(starts, backs, Policy(st), t);
    PairsCount(starts, backs, Policy(st), t);
  }

  /** The first loop of `find_available_trips`, for the airports done: their generated trips. */
  ghost predicate CollectedIn(st: DurationSettings, outbound: map<string, seq<FlightInfo>>, inbound: map<string, seq<FlightInfo>>,
                              keys: set<string>, trips: TripsDict)
    requires AllConverted(outbound) && AllConverted(inbound)
    reads set iata, i | iata in outbound && 0 <= i < |outbound[iata]| :: outbound[iata][i]
    reads set iata, i | iata in inbound && 0 <= i < |inbound[iata]| :: inbound[iata][i]
  {
    && trips.Keys == keys
    && (forall iata | iata in trips :: iata in outbound && iata in inbound)
    && (forall iata | iata in trips :: trips[iata] == Pairs(outbound[iata], inbound[iata], Policy(st)))
  }

  /**
    * The first loop of `find_available_trips`: every common airport gets a
    * key, holding the trips `_find_trips_for_iata` yields, possibly none.
    */
  method CollectTrips(st: DurationSettings, outbound: map<string, seq<FlightInfo>>, inbound: map<string, seq<FlightInfo>>)
    returns (trips: TripsDict)
    requires AllConverted(outbound) && AllConverted(inbound)
    ensures CollectedIn(st, outbound, inbound, outbound.Keys * inbound.Keys, trips)
  {
    trips := map[];
    var common := outbound.Keys * inbound.Keys;
    var todo := common;
    while todo != {}
      invariant todo <= common
      invariant CollectedIn(st, outbound, inbound, common - todo, trips)
      decreases todo
    {
      var iata :| iata in todo;
      assert Converted(outbound[iata]) && Converted(inbound[iata]);
      var found := FindTripsForIata(st, outbound[iata], inbound[iata]);
      trips := trips[iata := found];
      todo := todo - {iata};
      assert common - todo == trips.Keys;
    }
  }

  /** The second loop of `find_available_trips`: `trips.sort(key=total_price)` on every list. */
  method SortTripLists(trips: TripsDict) returns (sorted: TripsDict)
    ensures sorted.Keys == trips.Keys
    ensures forall iata | iata in trips :: sorted[iata] == SortByTotal(trips[iata])
  {
    sorted := map[];
    var todo := trips.Keys;
    while todo != {}
      invariant todo <= trips.Keys
      invariant sorted.Keys == trips.Keys - todo
      invariant forall iata | iata in sorted :: sorted[iata] == SortByTotal(trips[iata])
      decreases todo
    {
      var iata :| iata in todo;
      sorted := sorted[iata := SortByTotal(trips[iata])];
      todo := todo - {iata};
    }
  }

  /**
    * `find_available_trips`: exactly the airports both maps have, each with
    * its valid pairs (possibly none) stably sorted by total.
    */
  method FindAvailableTrips(st: DurationSettings, outbound: map<string, seq<FlightInfo>>, inbound: map<string, seq<FlightInfo>>)
    returns (trips: TripsDict)
    requires AllConverted(outbound) && AllConverted(inbound)
    ensures trips.Keys == outbound.Keys * inbound.Keys
    ensures forall iata | iata in trips :: SortedBy(trips[iata], Total, IntLe)
    ensures forall iata | iata in trips ::
      multiset(trips[iata]) == multiset(Pairs(outbound[iata], inbound[iata], Policy(st)))
    ensures forall iata | iata in trips :: StableFor(trips[iata], Pairs(outbound[iata], inbound[iata], Policy(st)), Total)
  {
    var collected := CollectTrips(st, outbound, inbound);
    trips := SortTripLists(collected);
    forall iata | iata in trips
      ensures SortedBy(trips[iata], Total, IntLe)
      ensures multiset(trips[iata]) == multiset(Pairs(outbound[iata], inbound[iata], Policy(st)))
      ensures StableFor(trips[iata], Pairs(outbound[iata], inbound[iata], Policy(st)), Total)
    {
      assert collected[iata] == Pairs(outbound[iata], inbound[iata], Policy(st));
      assert trips[iata] == SortByTotal(collected[iata]);
    }
  }

  // ---------------------------------------------------------------------------
  // Flight times

  /**
    * One trip of `add_flight_times`: `s.start_time` is set from its lookup,
    * then `b.back_time` from its own; a KeyError of either aborts, the
    * second one after the first write.
    */
  method AddTripTimes(tt: Timetables, trips: seq<Trip>, i: int, ghost starts: set<FlightInfo>, ghost backs: set<FlightInfo>)
    returns (r: Result<(), Error>)
    requires 0 <= i < |trips| && Enriched(tt, trips, i)
    requires StartTimesKnown(tt, starts) && BackTimesKnown(tt, backs)
    modifies trips[i].start`startTime, trips[i].back`backTime
    ensures r.Ok? <==> TripTimes(tt, trips[i]).Ok?
    ensures r.Err? ==> TripTimes(tt, trips[i]) == Err(r.error)
    ensures r.Ok? ==> Enriched(tt, trips, i + 1)
    ensures r.Err? ==> Enriched(tt, trips, i)
    ensures r.Ok? ==> StartTimesKnown(tt, starts) && BackTimesKnown(tt, backs)
    ensures DepartureTime(tt, trips[i].start).Ok? ==> trips[i].start.startTime == DepartureTime(tt, trips[i].start).value
    ensures DepartureTime(tt, trips[i].start).Err? ==> trips[i].start.startTime == old(trips[i].start.startTime)
    ensures r.Err? ==> trips[i].back.backTime == old(trips[i].back.backTime)
  {
    var s, b := trips[i].start, trips[i].back;
    var sTime := GetFlightTime(tt, s, Departures);
    if sTime.Err? {
      return Err(sTime.error);
    }
    StoreStartTime(tt, trips, i, sTime.value, starts, backs);
    var bTime := GetFlightTime(tt, b, Arrivals);
    if bTime.Err? {
      return Err(bTime.error);
    }
    StoreBackTime(tt, trips, i, bTime.value, starts, backs);
    r := Ok(());
  }

  /**
    * `add_flight_times` on one airport's list: every trip in order, the
    * first KeyError aborting with the trips before it timed and, when only
    * the return lookup failed, the failing trip's departure time written.
    */
  method AddListTimes(tt: Timetables, trips: seq<Trip>, ghost starts: set<FlightInfo>, ghost backs: set<FlightInfo>)
    returns (r: Result<(), Error>)
    requires StartTimesKnown(tt, starts) && BackTimesKnown(tt, backs)
    modifies StartLegs(trips)`startTime, BackLegs(trips)`backTime
    ensures r.Ok? <==> LookupsOk(tt, trips)
    ensures r.Ok? ==> Enriched(tt, trips, |trips|)
    ensures r.Ok? ==> StartTimesKnown(tt, starts) && BackTimesKnown(tt, backs)
    ensures r.Err? ==> exists i | 0 <= i < |trips| ::
      LookupsOk(tt, trips[..i]) && TripTimes(tt, trips[i]) == Err(r.error) && Enriched(tt, trips, i) &&
      (DepartureTime(tt, trips[i].start).Ok? ==> HasStartTime(tt, trips[i].start))
  {
    for i := 0 to |trips|
      invariant Enriched(tt, trips, i)
      invariant StartTimesKnown(tt, starts) && BackTimesKnown(tt, backs)
    {
      var step := AddTripTimes(tt, trips, i, starts, backs);
      if step.Err? {
        FirstLookupError(tt, trips, i, step.error);
        assert LookupsOk(tt, trips[..i]) && TripTimes(tt, trips[i]) == Err(step.error) && Enriched(tt, trips, i) &&
          (DepartureTime(tt, trips[i].start).Ok? ==> HasStartTime(tt, trips[i].start));
        return Err(step.error);
      }
    }
    LookupsFromTimes(tt, trips, |trips|);
    assert trips[..|trips|] == trips;
    r := Ok(());
  }

  /** One airport of `add_flight_times`: its legs get their times, those of the airports done keep theirs. */
  method AddAirportTimes(tt: Timetables, trips: TripsDict, ghost done: set<string>, iata: string)
    returns (r: Result<(), Error>)
    requires iata in trips
    requires StartTimesKnown(tt, StartLegsIn(trips, done)) && BackTimesKnown(tt, BackLegsIn(trips, done))
    modifies StartLegs(trips[iata])`startTime, BackLegs(trips[iata])`backTime
    ensures r.Ok? <==> LookupsOk(tt, trips[iata])
    ensures r.Ok? ==> StartTimesKnown(tt, StartLegsIn(trips, done + {iata})) && BackTimesKnown(tt, BackLegsIn(trips, done + {iata}))
    ensures r.Err? ==> exists i | 0 <= i < |trips[iata]| :: TripTimes(tt, trips[iata][i]) == Err(r.error)
  {
    LegsInStep(trips, done, iata);
    r := AddListTimes(tt, trips[iata], StartLegsIn(trips, done), BackLegsIn(trips, done));
    if r.Ok? {
      EnrichedLegs(tt, trips[iata]);
    }
  }

  /**
    * `add_flight_times`: airport by airport (in the dictionary's order,
    * unspecified here), trip by trip, sets both legs' times; it removes and
    * reorders nothing and returns the same dictionary. The first KeyError
    * of a lookup aborts the pass.
    */
  method AddFlightTimes(tt: Timetables, trips: TripsDict, ghost starts: set<FlightInfo>, ghost backs: set<FlightInfo>)
    returns (r: Result<TripsDict, Error>)
    requires StartLegsIn(trips, trips.Keys) <= starts && BackLegsIn(trips, trips.Keys) <= backs
    modifies starts`startTime, backs`backTime
    ensures r.Ok? <==> LookupsOkIn(tt, trips, trips.Keys)
    ensures r.Ok? ==> r.value == trips
    ensures r.Ok? ==> StartTimesKnown(tt, StartLegsIn(trips, trips.Keys)) && BackTimesKnown(tt, BackLegsIn(trips, trips.Keys))
    ensures r.Err? ==> exists iata, i | iata in trips && 0 <= i < |trips[iata]| :: TripTimes(tt, trips[iata][i]) == Err(r.error)
  {
    var todo := trips.Keys;
    while todo != {}
      invariant todo <= trips.Keys
      invariant LookupsOkIn(tt, trips, trips.Keys - todo)
      invariant StartTimesKnown(tt, StartLegsIn(trips, trips.Keys - todo))
      invariant BackTimesKnown(tt, BackLegsIn(trips, trips.Keys - todo))
      decreases todo
    {
      var iata :| iata in todo;
      ghost var done := trips.Keys - todo;
      LegsInStep(trips, done, iata);
      var step := AddAirportTimes(tt, trips, done, iata);
      if step.Err? {
        return Err(step.error);
      }
      todo := todo - {iata};
      assert trips.Keys - todo == done + {iata};
    }
    r := Ok(trips);
  }

  // ---------------------------------------------------------------------------
  // The pipeline

  /** `legs` holds exactly the flights of `data` under the per-leg ceiling. */
  predicate CheapLegs(data: seq<FlightInfo>, limit: int, legs: seq<FlightInfo>)
    reads data, legs
  {
    && (forall i | 0 <= i < |legs| :: legs[i] in data && legs[i].price.IntPrice? && legs[i].price.amount < limit)
    && (forall i | 0 <= i < |data| && data[i].price.IntPrice? && data[i].price.amount < limit :: data[i] in legs)
  }

  /** `filter_by_price` selects exactly the flights under the ceiling. */
  lemma SelectCheap(data: seq<FlightInfo>, limit: int)
    requires Converted(data)
    ensures Converted(FilterByPrice(data, limit))
    ensures CheapLegs(data, limit, FilterByPrice(data, limit))
  {
    FilterByPriceCounts(data, limit);
    var legs := FilterByPrice(data, limit);
    forall i | 0 <= i < |data| && data[i].price.amount < limit ensures data[i] in legs {
      assert data[i] in multiset(legs);
    }
  }

  /**
    * Outbound leg `s` and return leg `b` make a duration trip: both listed,
    * each under the per-leg ceiling, out to and back from the same
    * airport, and accepted by both validity rules.
    */
  predicate DurationPair(st: DurationSettings, p2a: seq<FlightInfo>, a2p: seq<FlightInfo>, s: FlightInfo, b: FlightInfo)
    reads s`price, b`price
  {
    && s in p2a && b in a2p
    && s.price.IntPrice? && s.price.amount < st.priceLimit
    && b.price.IntPrice? && b.price.amount < st.priceLimit
    && s.end == b.start && DurationMatch(st, s, b)
  }

  /** A duration pair whose trip is also under the trip ceiling: what the processor offers. */
  predicate OfferedPair(st: DurationSettings, p2a: seq<FlightInfo>, a2p: seq<FlightInfo>, s: FlightInfo, b: FlightInfo)
    reads s`price, b`price
  {
    DurationPair(st, p2a, a2p, s, b) && s.price.amount + b.price.amount < st.priceLimit
  }

  /** Every trip of `trips` is a duration pair's trip, filed under its away airport. */
  predicate FoundTrips(st: DurationSettings, p2a: seq<FlightInfo>, a2p: seq<FlightInfo>, trips: TripsDict)
    reads Flights(p2a)`price, Flights(a2p)`price
  {
    forall iata, i | iata in trips && 0 <= i < |trips[iata]| ::
      && trips[iata][i].start in p2a && trips[iata][i].back in a2p
      && DurationPair(st, p2a, a2p, trips[iata][i].start, trips[iata][i].back)
      && trips[iata][i].start.end == iata
      && trips[iata][i] == TripOf(trips[iata][i].start, trips[iata][i].back)
  }

  /** The trip of every duration pair is in `trips`, under its away airport. */
  predicate AllFound(st: DurationSettings, p2a: seq<FlightInfo>, a2p: seq<FlightInfo>, trips: TripsDict)
    reads Flights(p2a)`price, Flights(a2p)`price
  {
    forall s, b | s in p2a && b in a2p && DurationPair(st, p2a, a2p, s, b) :: s.end in trips && TripOf(s, b) in trips[s.end]
  }

  /** Every trip of `trips` is an offered pair's trip, filed under its away airport. */
  predicate OfferedTrips(st: DurationSettings, p2a: seq<FlightInfo>, a2p: seq<FlightInfo>, trips: TripsDict)
    reads Flights(p2a)`price, Flights(a2p)`price
  {
    forall iata, i | iata in trips && 0 <= i < |trips[iata]| ::
      && trips[iata][i].start in p2a && trips[iata][i].back in a2p
      && OfferedPair(st, p2a, a2p, trips[iata][i].start, trips[iata][i].back)
      && trips[iata][i].start.end == iata
      && trips[iata][i] == TripOf(trips[iata][i].start, trips[iata][i].back)
  }

  /** The trip of every offered pair is in `trips`, under its away airport. */
  predicate OffersEvery(st: DurationSettings, p2a: seq<FlightInfo>, a2p: seq<FlightInfo>, trips: TripsDict)
    reads Flights(p2a)`price, Flights(a2p)`price
  {
    forall s, b | s in p2a && b in a2p && OfferedPair(st, p2a, a2p, s, b) :: s.end in trips && TripOf(s, b) in trips[s.end]
  }

  /** A trip paired for an airport from its groups of cheap legs is a duration pair's trip under that airport. */
  lemma FoundTrip(st: DurationSettings, p2a: seq<FlightInfo>, a2p: seq<FlightInfo>, starts: seq<FlightInfo>, backs: seq<FlightInfo>,
                  outbound: map<string, seq<FlightInfo>>, inbound: map<string, seq<FlightInfo>>, iata: string, t: Trip)
    requires CheapLegs(p2a, st.priceLimit, starts) && CheapLegs(a2p, st.priceLimit, backs)
    requires GroupMembers(outbound, starts, EndOf) && GroupMembers(inbound, backs, StartOf)
    requires iata in outbound && iata in inbound && Converted(outbound[iata]) && Converted(inbound[iata])
    requires t in Pairs(outbound[iata], inbound[iata], Policy(st))
    ensures t.start in p2a && t.back in a2p && DurationPair(st, p2a, a2p, t.start, t.back)
    ensures t.start.end == iata && t == TripOf(t.start, t.back)
  {
    TripsForIataMembers(st, outbound[iata], inbound[iata], t);
    assert EndOf(t.start) == iata && StartOf(t.back) == iata;
    var j :| 0 <= j < |starts| && starts[j] == t.start;
    var k :| 0 <= k < |backs| && backs[k] == t.back;
  }

  /** The trip of a duration pair is paired from its away airport's groups of cheap legs. */
  lemma FoundPair(st: DurationSettings, p2a: seq<FlightInfo>, a2p: seq<FlightInfo>, starts: seq<FlightInfo>, backs: seq<FlightInfo>,
                  outbound: map<string, seq<FlightInfo>>, inbound: map<string, seq<FlightInfo>>, s: FlightInfo, b: FlightInfo)
    requires CheapLegs(p2a, st.priceLimit, starts) && CheapLegs(a2p, st.priceLimit, backs)
    requires GroupMembers(outbound, starts, EndOf) && GroupMembers(inbound, backs, StartOf)
    requires AllConverted(outbound) && AllConverted(inbound)
    requires DurationPair(st, p2a, a2p, s, b)
    ensures s.end in outbound && s.end in inbound
    ensures TripOf(s, b) in Pairs(outbound[s.end], inbound[s.end], Policy(st))
  {
    var i :| 0 <= i < |p2a| && p2a[i] == s;
    var j :| 0 <= j < |a2p| && a2p[j] == b;
    assert s in starts && b in backs;
    assert EndOf(s) in outbound && s in outbound[EndOf(s)];
    assert StartOf(b) in inbound && b in inbound[StartOf(b)];
    TripsForIataMembers(st, outbound[s.end], inbound[s.end], TripOf(s, b));
  }

  /** `find_available_trips` on the cheap, grouped legs yields exactly the duration pairs' trips. */
  lemma FoundPairs(st: DurationSettings, p2a: seq<FlightInfo>, a2p: seq<FlightInfo>, starts: seq<FlightInfo>, backs: seq<FlightInfo>,
                   outbound: map<string, seq<FlightInfo>>, inbound: map<string, seq<FlightInfo>>, found: TripsDict)
    requires CheapLegs(p2a, st.priceLimit, starts) && CheapLegs(a2p, st.priceLimit, backs)
    requires GroupMembers(outbound, starts, EndOf) && GroupMembers(inbound, backs, StartOf)
    requires AllConverted(outbound) && AllConverted(inbound)
    requires found.Keys == outbound.Keys * inbound.Keys
    requires forall iata | iata in found :: multiset(found[iata]) == multiset(Pairs(outbound[iata], inbound[iata], Policy(st)))
    ensures FoundTrips(st, p2a, a2p, found)
    ensures AllFound(st, p2a, a2p, found)
  {
    forall iata, i | iata in found && 0 <= i < |found[iata]|
      ensures found[iata][i].start in p2a && found[iata][i].back in a2p
      ensures DurationPair(st, p2a, a2p, found[iata][i].start, found[iata][i].back)
      ensures found[iata][i].start.end == iata
      ensures found[iata][i] == TripOf(found[iata][i].start, found[iata][i].back)
    {
      assert found[iata][i] in multiset(found[iata]);
      FoundTrip(st, p2a, a2p, starts, backs, outbound, inbound, iata, found[iata][i]);
    }
    forall s, b | s in p2a && b in a2p && DurationPair(st, p2a, a2p, s, b)
      ensures s.end in found && TripOf(s, b) in found[s.end]
    {
      FoundPair(st, p2a, a2p, starts, backs, outbound, inbound, s, b);
      assert TripOf(s, b) in multiset(found[s.end]);
    }
  }

  /**
    * The matching half of `process_flights_info`: the per-leg ceiling on
    * both lists, grouping by away airport, and `find_available_trips`.
    */
  method MatchDurationLegs(st: DurationSettings, p2a: seq<FlightInfo>, a2p: seq<FlightInfo>) returns (found: TripsDict)
    requires Converted(p2a) && Converted(a2p)
    ensures FoundTrips(st, p2a, a2p, found) && AllFound(st, p2a, a2p, found)
    ensures forall iata | iata in found :: SortedBy(found[iata], Total, IntLe)
  {
    SelectCheap(p2a, st.priceLimit);
    SelectCheap(a2p, st.priceLimit);
    var starts := FilterByPrice(p2a, st.priceLimit);
    var backs := FilterByPrice(a2p, st.priceLimit);
    var outbound := GroupFlightsByKey(starts, EndOf);
    var inbound := GroupFlightsByKey(backs, StartOf);
    GroupsConverted(starts, EndOf);
    GroupsConverted(backs, StartOf);
    found := FindAvailableTrips(st, outbound, inbound);
    GroupByMembers(starts, EndOf);
    GroupByMembers(backs, StartOf);
    FoundPairs(st, p2a, a2p, starts, backs, outbound, inbound, found);
  }

  /**
    * The trip ceiling applied to the duration pairs' trips offers exactly
    * the offered pairs' trips, drops the airports left without one, and
    * keeps each list sorted.
    */
  lemma OfferedFromFound(st: DurationSettings, p2a: seq<FlightInfo>, a2p: seq<FlightInfo>, found: TripsDict, offered: TripsDict)
    requires FoundTrips(st, p2a, a2p, found) && AllFound(st, p2a, a2p, found)
    requires forall iata | iata in found :: SortedBy(found[iata], Total, IntLe)
    requires offered == TotalPriceFiltered(found, st.priceLimit)
    ensures OfferedTrips(st, p2a, a2p, offered) && OffersEvery(st, p2a, a2p, offered)
    ensures forall iata | iata in offered :: offered[iata] != [] && SortedBy(offered[iata], Total, IntLe)
  {
    var under := UnderLimit(st.priceLimit);
    forall iata, i | iata in offered && 0 <= i < |offered[iata]|
      ensures offered[iata][i].start in p2a && offered[iata][i].back in a2p
      ensures OfferedPair(st, p2a, a2p, offered[iata][i].start, offered[iata][i].back)
      ensures offered[iata][i].start.end == iata
      ensures offered[iata][i] == TripOf(offered[iata][i].start, offered[iata][i].back)
    {
      var t := offered[iata][i];
      assert under(t);
      assert t in multiset(found[iata]);
      var j :| 0 <= j < |found[iata]| && found[iata][j] == t;
    }
    forall s, b | s in p2a && b in a2p && OfferedPair(st, p2a, a2p, s, b)
      ensures s.end in offered && TripOf(s, b) in offered[s.end]
    {
      var t := TripOf(s, b);
      assert t in found[s.end];
      var j :| 0 <= j < |found[s.end]| && found[s.end][j] == t;
      assert under(t);
      assert multiset(Filter(found[s.end], under))[t] == multiset(found[s.end])[t];
      assert t in multiset(Filter(found[s.end], under));
    }
    forall iata | iata in offered ensures SortedBy(offered[iata], Total, IntLe) {
      FilterSorted(found[iata], under, Total, IntLe);
    }
  }

  /** Both timetable lookups of every offered pair's trip succeed. */
  predicate OfferedLookupsOk(tt: Timetables, st: DurationSettings, p2a: seq<FlightInfo>, a2p: seq<FlightInfo>)
    reads Flights(p2a)`price, Flights(a2p)`price
  {
    forall s, b | s in p2a && b in a2p && OfferedPair(st, p2a, a2p, s, b) :: TripTimes(tt, TripOf(s, b)).Ok?
  }

  /** When `trips` holds exactly the offered pairs' trips, its lookups all succeed iff every offered pair's do. */
  lemma OfferedLookupsAgree(tt: Timetables, st: DurationSettings, p2a: seq<FlightInfo>, a2p: seq<FlightInfo>, trips: TripsDict)
    requires OfferedTrips(st, p2a, a2p, trips) && OffersEvery(st, p2a, a2p, trips)
    ensures LookupsOkIn(tt, trips, trips.Keys) <==> OfferedLookupsOk(tt, st, p2a, a2p)
  {
    if LookupsOkIn(tt, trips, trips.Keys) {
      forall s, b | s in p2a && b in a2p && OfferedPair(st, p2a, a2p, s, b) ensures TripTimes(tt, TripOf(s, b)).Ok? {
        var i :| 0 <= i < |trips[s.end]| && trips[s.end][i] == TripOf(s, b);
        assert LookupsOk(tt, trips[s.end]);
      }
    }
    if OfferedLookupsOk(tt, st, p2a, a2p) {
      forall iata | iata in trips ensures LookupsOk(tt, trips[iata]) {
        forall i | 0 <= i < |trips[iata]| ensures TripTimes(tt, trips[iata][i]).Ok? {
          var t := trips[iata][i];
          assert OfferedPair(st, p2a, a2p, t.start, t.back) && t == TripOf(t.start, t.back);
        }
      }
    }
  }

  /** The legs of the offered trips come from the two input lists. */
  lemma OfferedLegs(st: DurationSettings, p2a: seq<FlightInfo>, a2p: seq<FlightInfo>, trips: TripsDict)
    requires OfferedTrips(st, p2a, a2p, trips)
    ensures StartLegsIn(trips, trips.Keys) <= Flights(p2a)
    ensures BackLegsIn(trips, trips.Keys) <= Flights(a2p)
  {
    forall f | f in StartLegsIn(trips, trips.Keys) ensures f in Flights(p2a) {
      var iata, i :| iata in trips && 0 <= i < |trips[iata]| && trips[iata][i].start == f;
    }
    forall f | f in BackLegsIn(trips, trips.Keys) ensures f in Flights(a2p) {
      var iata, i :| iata in trips && 0 <= i < |trips[iata]| && trips[iata][i].back == f;
    }
  }

  /** `f` is the outbound leg of no offered pair: `add_flight_times` never writes its departure time. */
  predicate UnofferedStart(st: DurationSettings, p2a: seq<FlightInfo>, a2p: seq<FlightInfo>, f: FlightInfo)
    reads f`price, Flights(a2p)`price
  {
    forall b | b in a2p :: !OfferedPair(st, p2a, a2p, f, b)
  }

  /** `f` is the return leg of no offered pair: `add_flight_times` never writes its return time. */
  predicate UnofferedBack(st: DurationSettings, p2a: seq<FlightInfo>, a2p: seq<FlightInfo>, f: FlightInfo)
    reads f`price, Flights(p2a)`price
  {
    forall s | s in p2a :: !OfferedPair(st, p2a, a2p, s, f)
  }

  /** The legs of the offered trips are legs of offered pairs. */
  lemma OfferedPairLegs(st: DurationSettings, p2a: seq<FlightInfo>, a2p: seq<FlightInfo>, trips: TripsDict)
    requires OfferedTrips(st, p2a, a2p, trips)
    ensures forall f | f in StartLegsIn(trips, trips.Keys) :: !UnofferedStart(st, p2a, a2p, f)
    ensures forall f | f in BackLegsIn(trips, trips.Keys) :: !UnofferedBack(st, p2a, a2p, f)
  {
    forall f | f in StartLegsIn(trips, trips.Keys) ensures !UnofferedStart(st, p2a, a2p, f) {
      var iata, i :| iata in trips && 0 <= i < |trips[iata]| && trips[iata][i].start == f;
      assert trips[iata][i].back in a2p && OfferedPair(st, p2a, a2p, f, trips[iata][i].back);
    }
    forall f | f in BackLegsIn(trips, trips.Keys) ensures !UnofferedBack(st, p2a, a2p, f) {
      var iata, i :| iata in trips && 0 <= i < |trips[iata]| && trips[iata][i].back == f;
      assert trips[iata][i].start in p2a && OfferedPair(st, p2a, a2p, trips[iata][i].start, f);
    }
  }

  /** A lookup error of an offered trip is a lookup error of an offered pair. */
  lemma OfferedLookupError(tt: Timetables, st: DurationSettings, p2a: seq<FlightInfo>, a2p: seq<FlightInfo>, trips: TripsDict, e: Error)
    requires OfferedTrips(st, p2a, a2p, trips)
    requires exists iata, i | iata in trips && 0 <= i < |trips[iata]| :: TripTimes(tt, trips[iata][i]) == Err(e)
    ensures exists s, b | s in p2a && b in a2p && OfferedPair(st, p2a, a2p, s, b) :: TripTimes(tt, TripOf(s, b)) == Err(e)
  {
    var iata, i :| iata in trips && 0 <= i < |trips[iata]| && TripTimes(tt, trips[iata][i]) == Err(e);
    var t := trips[iata][i];
    assert OfferedPair(st, p2a, a2p, t.start, t.back) && t == TripOf(t.start, t.back);
  }

  /**
    * The matching stages and the trip ceiling: the offered pairs' trips,
    * sorted, under the airports that keep one.
    */
  method OfferDurationTrips(st: DurationSettings, p2a: seq<FlightInfo>, a2p: seq<FlightInfo>) returns (offered: TripsDict)
    requires Converted(p2a) && Converted(a2p)
    ensures OfferedTrips(st, p2a, a2p, offered) && OffersEvery(st, p2a, a2p, offered)
    ensures forall iata | iata in offered :: offered[iata] != [] && SortedBy(offered[iata], Total, IntLe)
  {
    var found := MatchDurationLegs(st, p2a, a2p);
    offered := FilterByTotalPrice(found, st.priceLimit);
    OfferedFromFound(st, p2a, a2p, found, offered);
  }

  /**
    * `add_flight_times` on the offered trips, given the sets of their
    * outbound and return legs: the lookups and the result.
    */
  method AddOfferedTimes(st: DurationSettings, tt: Timetables, p2a: seq<FlightInfo>, a2p: seq<FlightInfo>, offered: TripsDict,
                         ghost starts: set<FlightInfo>, ghost backs: set<FlightInfo>)
    returns (r: Result<TripsDict, Error>)
    requires OfferedTrips(st, p2a, a2p, offered) && OffersEvery(st, p2a, a2p, offered)
    requires starts == StartLegsIn(offered, offered.Keys) && backs == BackLegsIn(offered, offered.Keys)
    modifies starts`startTime, backs`backTime
    ensures r.Ok? <==> LookupsOkIn(tt, offered, offered.Keys)
    ensures r.Ok? ==> r.value == offered
    ensures r.Ok? ==> StartTimesKnown(tt, starts) && BackTimesKnown(tt, backs)
    ensures r.Err? ==>
      exists s, b | s in p2a && b in a2p && OfferedPair(st, p2a, a2p, s, b) :: TripTimes(tt, TripOf(s, b)) == Err(r.error)
  {
    r := AddFlightTimes(tt, offered, starts, backs);
    if r.Err? {
      OfferedLookupError(tt, st, p2a, a2p, offered, r.error);
    }
  }

  /**
    * `add_flight_times` on the offered trips: afterwards every leg of every
    * offered trip carries its times, unless a lookup of an offered pair
    * raised KeyError. Only the legs of offered pairs are written.
    */
  method TimeOffered(st: DurationSettings, tt: Timetables, p2a: seq<FlightInfo>, a2p: seq<FlightInfo>, offered: TripsDict)
    returns (r: Result<TripsDict, Error>)
    requires OfferedTrips(st, p2a, a2p, offered) && OffersEvery(st, p2a, a2p, offered)
    modifies Flights(p2a)`startTime, Flights(a2p)`backTime
    ensures r.Ok? <==> OfferedLookupsOk(tt, st, p2a, a2p)
    ensures r.Ok? ==> r.value == offered
    ensures r.Ok? ==>
      StartTimesKnown(tt, StartLegsIn(offered, offered.Keys)) && BackTimesKnown(tt, BackLegsIn(offered, offered.Keys))
    ensures r.Err? ==>
      exists s, b | s in p2a && b in a2p && OfferedPair(st, p2a, a2p, s, b) :: TripTimes(tt, TripOf(s, b)) == Err(r.error)
    ensures forall f | f in Flights(p2a) && UnofferedStart(st, p2a, a2p, f) :: f.startTime == old(f.startTime)
    ensures forall f | f in Flights(a2p) && UnofferedBack(st, p2a, a2p, f) :: f.backTime == old(f.backTime)
  {
    OfferedLegs(st, p2a, a2p, offered);
    ghost var starts, backs := StartLegsIn(offered, offered.Keys), BackLegsIn(offered, offered.Keys);
    r := AddOfferedTimes(st, tt, p2a, a2p, offered, starts, backs);
    OfferedPairLegs(st, p2a, a2p, offered);
    OfferedLookupsAgree(tt, st, p2a, a2p, offered);
  }

  /**
    * The stages of `process_flights_info` after price conversion, as
    * `flights_processor_duration.py` wires them: the per-leg ceiling,
    * grouping, matching, the trip ceiling, then the flight times of the
    * trips that remain. Only the legs' times change; the first KeyError of
    * a lookup aborts.
    */
  method SelectDurationTrips(st: DurationSettings, tt: Timetables, p2a: seq<FlightInfo>, a2p: seq<FlightInfo>)
    returns (r: Result<TripsDict, Error>)
    requires Converted(p2a) && Converted(a2p)
    modifies Flights(p2a)`startTime, Flights(a2p)`backTime
    ensures r.Ok? <==> OfferedLookupsOk(tt, st, p2a, a2p)
    ensures r.Ok? ==> OfferedTrips(st, p2a, a2p, r.value) && OffersEvery(st, p2a, a2p, r.value)
    ensures r.Ok? ==> forall iata | iata in r.value :: r.value[iata] != [] && SortedBy(r.value[iata], Total, IntLe)
    ensures r.Ok? ==>
      StartTimesKnown(tt, StartLegsIn(r.value, r.value.Keys)) && BackTimesKnown(tt, BackLegsIn(r.value, r.value.Keys))
    ensures r.Err? ==>
      exists s, b | s in p2a && b in a2p && OfferedPair(st, p2a, a2p, s, b) :: TripTimes(tt, TripOf(s, b)) == Err(r.error)
    ensures forall f | f in Flights(p2a) && UnofferedStart(st, p2a, a2p, f) :: f.startTime == old(f.startTime)
    ensures forall f | f in Flights(a2p) && UnofferedBack(st, p2a, a2p, f) :: f.backTime == old(f.backTime)
  {
    var offered := OfferDurationTrips(st, p2a, a2p);
    r := TimeOffered(st, tt, p2a, a2p, offered);
  }

  /**
    * `process_flights_info` minus the rendering, wired as in
    * `flights_processor_duration.py`: convert the prices of both lists (one
    * pass over their concatenation, as the two calls stop at the same first
    * bad price), then select the trips. It fails with the ValueError of the
    * first price that fails or, when every price converts, with the KeyError
    * of an offered pair's lookup (which one depends on the dictionary's
    * order, not modelled).
    */
  method ProcessDuration(st: DurationSettings, tt: Timetables, p2a: seq<FlightInfo>, a2p: seq<FlightInfo>)
    returns (r: Result<TripsDict, Error>)
    modifies Flights(p2a + a2p)`price, Flights(p2a)`startTime, Flights(a2p)`backTime
    ensures r.Ok? <==> old(AllPricesConvert(p2a + a2p)) && OfferedLookupsOk(tt, st, p2a, a2p)
    ensures old(AllPricesConvert(p2a + a2p)) ==> ConvertedFromOld(p2a + a2p)
    ensures r.Ok? ==> OfferedTrips(st, p2a, a2p, r.value) && OffersEvery(st, p2a, a2p, r.value)
    ensures r.Ok? ==> forall iata | iata in r.value :: r.value[iata] != [] && SortedBy(r.value[iata], Total, IntLe)
    ensures r.Ok? ==>
      StartTimesKnown(tt, StartLegsIn(r.value, r.value.Keys)) && BackTimesKnown(tt, BackLegsIn(r.value, r.value.Keys))
    ensures !old(AllPricesConvert(p2a + a2p)) ==>
      && r.Err? && (exists i :: StoppedAt(p2a + a2p, i, r.error))
      && forall f | f in Flights(p2a + a2p) :: f.startTime == old(f.startTime) && f.backTime == old(f.backTime)
    ensures r.Err? && old(AllPricesConvert(p2a + a2p)) ==>
      exists s, b | s in p2a && b in a2p && OfferedPair(st, p2a, a2p, s, b) :: TripTimes(tt, TripOf(s, b)) == Err(r.error)
    ensures forall f | f in Flights(p2a) && UnofferedStart(st, p2a, a2p, f) :: f.startTime == old(f.startTime)
    ensures forall f | f in Flights(a2p) && UnofferedBack(st, p2a, a2p, f) :: f.backTime == old(f.backTime)
  {
    var converted := ConvertPrices(p2a + a2p);
    if converted.Err? {
      return Err(converted.error);
    }
    ConvertedSplit(p2a, a2p);
    r := SelectDurationTrips(st, tt, p2a, a2p);
  }

  /** The local name that `process_flights_info` of the package reads but never assigns. */
  const MisspelledName: string := "anywhere_to_pololand_filtered"

  /**
    * `process_flights_info` of the package as written: after converting the
    * prices, filtering both lists and grouping the outbound legs, grouping
    * the return legs reads an undefined local name, so every call that gets
    * past price conversion raises NameError and no trip is ever offered.
    * The prices stay converted in place, up to the first bad one.
    */
  method ProcessDurationAsWritten(st: DurationSettings, p2a: seq<FlightInfo>, a2p: seq<FlightInfo>)
    returns (r: Result<TripsDict, Error>)
    modifies Flights(p2a + a2p)`price
    ensures r.Err?
    ensures (forall i | 0 <= i < |p2a + a2p| :: ConvertPrice(old((p2a + a2p)[i].price)).Ok?) <==>
      r == Err(NameError(MisspelledName))
    ensures (exists i | 0 <= i < |p2a + a2p| :: ConvertPrice(old((p2a + a2p)[i].price)).Err?) ==>
      r.Err? && exists i | 0 <= i < |p2a + a2p| ::
        && (forall j | 0 <= j < i :: ConvertPrice(old((p2a + a2p)[j].price)).Ok?)
        && ConvertPrice(old((p2a + a2p)[i].price)) == Err(r.error)
    ensures old(AllPricesConvert(p2a + a2p)) ==> ConvertedFromOld(p2a + a2p)
    ensures !old(AllPricesConvert(p2a + a2p)) ==> exists i :: StoppedAt(p2a + a2p, i, r.error)
  {
    var converted := ConvertPrices(p2a + a2p);
    if converted.Err? {
      return Err(converted.error);
    }
    ConvertedSplit(p2a, a2p);
    var starts := FilterByPrice(p2a, st.priceLimit);
    var backs := FilterByPrice(a2p, st.priceLimit);
    var outbound := GroupFlightsByKey(starts, EndOf);
    r := Err(NameError(MisspelledName));
  }
}
