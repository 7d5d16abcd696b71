/**
  * The oldest weekend matcher, `FlightProcessor` in `flights_processor.py`.
  * Its flights are dicts with the fields of the scraper's record and its
  * trips are dicts `{start_flight, back_flight, total_price}`; the model
  * takes them as `FlightRecord` and `TripRecord` values, and each loop
  * that rewrites the dicts in place as a method returning the rewritten
  * list.
  */
module Legacy {
  import opened Wrappers
  import opened Seqs
  import opened Calendar
  import opened Models
  import opened Base
  import opened Listing
  import opened Scraping

  /** The fixed configuration: a 200 price limit, Friday/Saturday departures, Saturday/Sunday/Monday returns. */
  const PriceLimit: int := 200
  const StartWeekdays: set<int> := {4, 5}
  const EndWeekdays: set<int> := {5, 6, 0}

  // ---------------------------------------------------------------------------
  // Filters

  function OnDays(days: set<int>): FlightRecord -> bool {
    (f: FlightRecord) => Weekday(f.date) in days
  }

  /** `filter_by_weekdays`: the flights whose date falls on one of `days`, in order. */
  function FilterByWeekdays(data: seq<FlightRecord>, days: set<int>): seq<FlightRecord> {
    Filter(data, OnDays(days))
  }

  /** The weekday filter keeps every copy of each flight on one of the days and nothing else. */
  lemma FilterByWeekdaysSpec(data: seq<FlightRecord>, days: set<int>, x: FlightRecord)
    ensures multiset(FilterByWeekdays(data, days))[x] == if Weekday(x.date) in days then multiset(data)[x] else 0
    ensures x in FilterByWeekdays(data, days) <==> x in data && Weekday(x.date) in days
  {
    FilterCount(data, OnDays(days), x);
    assert x in FilterByWeekdays(data, days) <==> x in multiset(FilterByWeekdays(data, days));
    assert x in data <==> x in multiset(data);
  }

  /** Every price is an int, as after `convert_prices`. */
  predicate IntPrices(data: seq<FlightRecord>) {
    forall i | 0 <= i < |data| :: data[i].price.IntPrice?
  }

  function UnderPrice(limit: int): FlightRecord -> bool {
    (f: FlightRecord) => f.price.IntPrice? && f.price.amount < limit
  }

  /** `filter_by_price`: the flights strictly below the limit, in order. */
  function FilterByPrice(data: seq<FlightRecord>, limit: int): (r: seq<FlightRecord>)
    requires IntPrices(data)
    ensures IntPrices(r)
  {
    Filter(data, UnderPrice(limit))
  }

  /** The price filter is strict, keeps every copy of what it keeps, and a second pass changes nothing. */
  lemma FilterByPriceSpec(data: seq<FlightRecord>, limit: int, x: FlightRecord)
    requires IntPrices(data)
    ensures multiset(FilterByPrice(data, limit))[x] == if x.price.IntPrice? && x.price.amount < limit then multiset(data)[x] else 0
    ensures x in data && x.price == IntPrice(limit) ==> x !in FilterByPrice(data, limit)
    ensures FilterByPrice(FilterByPrice(data, limit), limit) == FilterByPrice(data, limit)
  {
    FilterCount(data, UnderPrice(limit), x);
    FilterIdempotent(data, UnderPrice(limit));
  }

  /** A filter of int-priced flights has int prices. */
  lemma IntPricesFilter(data: seq<FlightRecord>, p: FlightRecord -> bool)
    requires IntPrices(data)
    ensures IntPrices(Filter(data, p))
  {
    var r := Filter(data, p);
    forall i | 0 <= i < |r| ensures r[i].price.IntPrice? {
      assert r[i] in multiset(data);
    }
  }

  // ---------------------------------------------------------------------------
  // In-place rewrites

  /** Every price converts. */
  predicate PricesConvert(data: seq<FlightRecord>) {
    forall i | 0 <= i < |data| :: ConvertPrice(data[i].price).Ok?
  }

  /** The list after `convert_prices`: each flight with the int its price converts to. */
  function WithIntPrices(data: seq<FlightRecord>): (r: seq<FlightRecord>)
    requires PricesConvert(data)
    ensures |r| == |data| && IntPrices(r)
  {
    seq(|data|, i requires 0 <= i < |data| => data[i].(price := IntPrice(ConvertPrice(data[i].price).value)))
  }

  /** Every date has a day before it. */
  predicate DatesAfterFirst(data: seq<FlightRecord>) {
    forall i | 0 <= i < |data| :: data[i].date >= 2
  }

  /** A flight after `add_week_number`: its week is the adjusted week of its date. */
  function WithWeek(f: FlightRecord): FlightRecord
    requires f.date >= 2
  {
    f.(week := IsoCalendar(f.date - 1).week)
  }

  /** The list after `add_week_number`: each flight with the adjusted week of its date. */
  function WithWeeks(data: seq<FlightRecord>): (r: seq<FlightRecord>)
    requires DatesAfterFirst(data)
    ensures |r| == |data|
  {
    seq(|data|, i requires 0 <= i < |data| => WithWeek(data[i]))
  }

  /** A list holding each flight of `data` with its week added is `WithWeeks(data)`. */
  lemma WeeksAdded(data: seq<FlightRecord>, out: seq<FlightRecord>)
    requires |out| == |data|
    requires forall k | 0 <= k < |data| :: data[k].date >= 2 && out[k] == WithWeek(data[k])
    ensures DatesAfterFirst(data) && out == WithWeeks(data)
  {
  }

  /** `e` is the error of the first price in `data` that does not convert. */
  predicate FirstBadPrice(data: seq<FlightRecord>, e: Error) {
    exists i | 0 <= i < |data| ::
      ConvertPrice(data[i].price) == Err(e) && forall j | 0 <= j < i :: ConvertPrice(data[j].price).Ok?
  }

  /** `e` is the overflow of the first flight in `data` whose date has no day before it. */
  predicate FirstOverflow(data: seq<FlightRecord>, e: Error) {
    exists i | 0 <= i < |data| ::
      data[i].date < 2 && e == DateOverflow(data[i].date) && forall j | 0 <= j < i :: data[j].date >= 2
  }

  /**
    * `convert_prices`: every price becomes the int `_convert_price_to_int`
    * gives, in list order; the first price that does not convert raises.
    */
  method ConvertPrices(data: seq<FlightRecord>) returns (r: Result<seq<FlightRecord>, Error>)
    ensures r.Ok? <==> forall i | 0 <= i < |data| :: ConvertPrice(data[i].price).Ok?
    ensures r.Ok? ==> |r.value| == |data| && IntPrices(r.value) && r.value == WithIntPrices(data)
    ensures r.Ok? ==> forall i | 0 <= i < |data| ::
      Converts(data[i].price, r.value[i].price) && r.value[i] == data[i].(price := r.value[i].price)
    ensures r.Err? ==> FirstBadPrice(data, r.error)
  {
    var out: seq<FlightRecord> := [];
    for i := 0 to |data|
      invariant |out| == i
      invariant forall k | 0 <= k < i :: Converts(data[k].price, out[k].price) && out[k] == data[k].(price := out[k].price)
    {
      var p := ConvertPrice(data[i].price);
      if p.Err? {
        return Err(p.error);
      }
      out := out + [data[i].(price := IntPrice(p.value))];
    }
    return Ok(out);
  }

  /**
    * `add_week_number`: every flight's week becomes the adjusted week of
    * its date; a date without a day before it raises.
    */
  method AddWeekNumbers(data: seq<FlightRecord>) returns (r: Result<seq<FlightRecord>, Error>)
    ensures r.Ok? <==> forall i | 0 <= i < |data| :: data[i].date >= 2
    ensures r.Ok? ==> |r.value| == |data| && r.value == WithWeeks(data)
    ensures r.Ok? ==> forall i | 0 <= i < |data| ::
      r.value[i] == data[i].(week := IsoCalendar(data[i].date - 1).week) && r.value[i].price == data[i].price
    ensures r.Err? ==> FirstOverflow(data, r.error)
  {
    var out: seq<FlightRecord> := [];
    for i := 0 to |data|
      invariant |out| == i
      invariant forall k | 0 <= k < i :: data[k].date >= 2 && out[k] == WithWeek(data[k])
    {
      var w := AdjustedWeek(data[i].date);
      if w.Err? {
        assert data[i].date < 2 && w.error == DateOverflow(data[i].date);
        return Err(w.error);
      }
      out := out + [data[i].(week := w.value)];
    }
    WeeksAdded(data, out);
    return Ok(out);
  }

  // ---------------------------------------------------------------------------
  // Matching

  /** The trip dict of two legs: its total is the sum of their prices. */
  function PairOf(s: FlightRecord, b: FlightRecord): TripRecord
    requires s.price.IntPrice? && b.price.IntPrice?
  {
    TripRecord(s, b, s.price.amount + b.price.amount)
  }

  /** The trips of one start leg with each return leg, in order. */
  function RowOf(s: FlightRecord, backs: seq<FlightRecord>): (r: seq<TripRecord>)
    requires s.price.IntPrice? && IntPrices(backs)
    ensures |r| == |backs| && forall j | 0 <= j < |backs| :: r[j] == PairOf(s, backs[j])
  {
    seq(|backs|, j requires 0 <= j < |backs| => PairOf(s, backs[j]))
  }

  /** The trips of the two nested loops, in loop order. */
  function AllPairs(starts: seq<FlightRecord>, backs: seq<FlightRecord>): seq<TripRecord>
    requires IntPrices(starts) && IntPrices(backs)
    decreases |starts|
  {
    if starts == [] then []
    else AllPairs(starts[..|starts| - 1], backs) + RowOf(starts[|starts| - 1], backs)
  }

  /** A trip whose total is the sum of its legs' int prices. */
  predicate Priced(t: TripRecord) {
    t.start.price.IntPrice? && t.back.price.IntPrice? && t.total == t.start.price.amount + t.back.price.amount
  }

  /** The nested loops produce exactly the priced trips of a start leg and a return leg. */
  lemma {:induction false} AllPairsMembers(starts: seq<FlightRecord>, backs: seq<FlightRecord>, t: TripRecord)
    requires IntPrices(starts) && IntPrices(backs)
    ensures t in AllPairs(starts, backs) <==> t.start in starts && t.back in backs && Priced(t)
    decreases |starts|
  {
    if starts != [] {
      var init := starts[..|starts| - 1];
      var last := starts[|starts| - 1];
      AllPairsMembers(init, backs, t);
      assert starts == init + [last];
      if t.start in starts && t.back in backs && Priced(t) && t.start == last {
        var j :| 0 <= j < |backs| && backs[j] == t.back;
        assert RowOf(last, backs)[j] == t;
      }
    }
  }

  function WeekKey(f: FlightRecord): int {
    f.week
  }

  /** A trip `find_available_trips` offers for an airport: legs of the same week, priced. */
  predicate SameWeekTrip(starts: seq<FlightRecord>, backs: seq<FlightRecord>, t: TripRecord) {
    t.start in starts && t.back in backs && t.start.week == t.back.week && Priced(t)
  }

  /** The legs of week `w`, paired, are exactly the same-week trips of that week. */
  lemma WeekPairs(starts: seq<FlightRecord>, backs: seq<FlightRecord>, w: int, t: TripRecord)
    requires IntPrices(starts) && IntPrices(backs)
    ensures IntPrices(Filter(starts, HasKey(WeekKey, w))) && IntPrices(Filter(backs, HasKey(WeekKey, w)))
    ensures t in AllPairs(Filter(starts, HasKey(WeekKey, w)), Filter(backs, HasKey(WeekKey, w))) <==>
      SameWeekTrip(starts, backs, t) && t.start.week == w
  {
    var ws := Filter(starts, HasKey(WeekKey, w));
    var wb := Filter(backs, HasKey(WeekKey, w));
    IntPricesFilter(starts, HasKey(WeekKey, w));
    IntPricesFilter(backs, HasKey(WeekKey, w));
    AllPairsMembers(ws, wb, t);
    FilterMember(starts, HasKey(WeekKey, w), t.start);
    FilterMember(backs, HasKey(WeekKey, w), t.back);
    assert HasKey(WeekKey, w)(t.start) == (t.start.week == w);
    assert HasKey(WeekKey, w)(t.back) == (t.back.week == w);
  }

  /** One more return leg adds its trip at the end of the row. */
  lemma RowOfSnoc(s: FlightRecord, backs: seq<FlightRecord>, j: int)
    requires s.price.IntPrice? && IntPrices(backs) && 0 <= j < |backs|
    ensures RowOf(s, backs[..j + 1]) == RowOf(s, backs[..j]) + [PairOf(s, backs[j])]
  {
    assert backs[..j + 1][j] == backs[j];
  }

  /** One more start leg adds its row at the end. */
  lemma AllPairsSnoc(ws: seq<FlightRecord>, wb: seq<FlightRecord>, i: int)
    requires IntPrices(ws) && IntPrices(wb) && 0 <= i < |ws|
    ensures AllPairs(ws[..i + 1], wb) == AllPairs(ws[..i], wb) + RowOf(ws[i], wb)
  {
    assert ws[..i + 1][..i] == ws[..i];
  }

  /** One more return leg: its trip joins the de-duplicated list unless it is already there. */
  lemma DedupRowStep(s: FlightRecord, wb: seq<FlightRecord>, j: int, before: seq<TripRecord>)
    requires s.price.IntPrice? && IntPrices(wb) && 0 <= j < |wb|
    ensures var d := Dedup(before + RowOf(s, wb[..j]));
      Dedup(before + RowOf(s, wb[..j + 1])) == if PairOf(s, wb[j]) in d then d else d + [PairOf(s, wb[j])]
  {
    RowOfSnoc(s, wb, j);
    assert before + RowOf(s, wb[..j + 1]) == before + RowOf(s, wb[..j]) + [PairOf(s, wb[j])];
    DedupSnoc(before + RowOf(s, wb[..j]), PairOf(s, wb[j]));
  }

  /** The trips offered after one more start leg. */
  lemma OfferedSnoc(offered: seq<TripRecord>, ws: seq<FlightRecord>, wb: seq<FlightRecord>, i: int)
    requires IntPrices(ws) && IntPrices(wb) && 0 <= i < |ws|
    ensures offered + AllPairs(ws[..i + 1], wb) == (offered + AllPairs(ws[..i], wb)) + RowOf(ws[i], wb)
  {
    AllPairsSnoc(ws, wb, i);
  }

  /**
    * The inner loop of one start leg: each trip is appended `if trip not
    * in` the airport's list, so the list stays the de-duplication of all
    * trips offered so far.
    */
  method PairRow(s: FlightRecord, wb: seq<FlightRecord>, trips: seq<TripRecord>, ghost before: seq<TripRecord>)
    returns (r: seq<TripRecord>)
    requires s.price.IntPrice? && IntPrices(wb)
    requires trips == Dedup(before)
    ensures r == Dedup(before + RowOf(s, wb))
  {
    r := trips;
    assert before + RowOf(s, wb[..0]) == before;
    for j := 0 to |wb|
      invariant r == Dedup(before + RowOf(s, wb[..j]))
    {
      var t := PairOf(s, wb[j]);
      DedupRowStep(s, wb, j, before);
      if t !in r {
        r := r + [t];
      }
    }
    assert wb[..|wb|] == wb;
  }

  /** The nested loops of one week: the airport's list becomes the de-duplication of everything offered. */
  method PairWeek(ws: seq<FlightRecord>, wb: seq<FlightRecord>, trips: seq<TripRecord>, ghost offered: seq<TripRecord>)
    returns (r: seq<TripRecord>)
    requires IntPrices(ws) && IntPrices(wb)
    requires trips == Dedup(offered)
    ensures r == Dedup(offered + AllPairs(ws, wb))
  {
    r := trips;
    assert AllPairs(ws[..0], wb) == [];
    assert offered + AllPairs(ws[..0], wb) == offered;
    for i := 0 to |ws|
      invariant r == Dedup(offered + AllPairs(ws[..i], wb))
    {
      r := PairRow(ws[i], wb, r, offered + AllPairs(ws[..i], wb));
      OfferedSnoc(offered, ws, wb, i);
    }
    assert ws[..|ws|] == ws;
  }

  /** Some start leg and some return leg share a week. */
  predicate HasCommonWeek(starts: seq<FlightRecord>, backs: seq<FlightRecord>) {
    exists i, j | 0 <= i < |starts| && 0 <= j < |backs| :: starts[i].week == backs[j].week
  }

  /** `offered` holds exactly the same-week trips of the weeks in `done`. */
  ghost predicate OfferedFor(starts: seq<FlightRecord>, backs: seq<FlightRecord>, done: set<int>, offered: seq<TripRecord>) {
    forall t :: t in offered <==> SameWeekTrip(starts, backs, t) && t.start.week in done
  }

  /** Pairing the legs of one more week offers that week's trips. */
  lemma OfferedStep(starts: seq<FlightRecord>, backs: seq<FlightRecord>, done: set<int>, offered: seq<TripRecord>, w: int)
    requires IntPrices(starts) && IntPrices(backs)
    requires OfferedFor(starts, backs, done, offered)
    ensures IntPrices(Filter(starts, HasKey(WeekKey, w))) && IntPrices(Filter(backs, HasKey(WeekKey, w)))
    ensures OfferedFor(starts, backs, done + {w},
      offered + AllPairs(Filter(starts, HasKey(WeekKey, w)), Filter(backs, HasKey(WeekKey, w))))
  {
    IntPricesFilter(starts, HasKey(WeekKey, w));
    IntPricesFilter(backs, HasKey(WeekKey, w));
    forall t {
      WeekPairs(starts, backs, w, t);
    }
  }

  /** Once every common week is done, the de-duplicated list is the airport's same-week trips. */
  lemma OfferedAll(starts: seq<FlightRecord>, backs: seq<FlightRecord>, offered: seq<TripRecord>, trips: seq<TripRecord>)
    requires IntPrices(starts) && IntPrices(backs)
    requires OfferedFor(starts, backs, WeeksOf(starts) * WeeksOf(backs), offered)
    requires trips == Dedup(offered)
    ensures NoDup(trips)
    ensures forall t :: t in trips <==> SameWeekTrip(starts, backs, t)
    ensures trips != [] <==> HasCommonWeek(starts, backs)
  {
    forall t ensures t in trips <==> SameWeekTrip(starts, backs, t) {
      if SameWeekTrip(starts, backs, t) {
        assert t.start.week in WeeksOf(starts);
        assert t.back.week in WeeksOf(backs);
      }
    }
    if HasCommonWeek(starts, backs) {
      var i, j :| 0 <= i < |starts| && 0 <= j < |backs| && starts[i].week == backs[j].week;
      assert SameWeekTrip(starts, backs, PairOf(starts[i], backs[j]));
    }
    if trips != [] {
      var t := trips[0];
      var i :| 0 <= i < |starts| && starts[i] == t.start;
      var j :| 0 <= j < |backs| && backs[j] == t.back;
    }
  }

  /** The weeks a list of legs flies in. */
  function WeeksOf(legs: seq<FlightRecord>): set<int> {
    set f | f in legs :: f.week
  }

  /** One week of the week loop: its legs' pairs join the list, without repeats. */
  method PairNextWeek(starts: seq<FlightRecord>, backs: seq<FlightRecord>, trips: seq<TripRecord>,
                      ghost done: set<int>, ghost offered: seq<TripRecord>, w: int)
    returns (r: seq<TripRecord>, ghost offered': seq<TripRecord>)
    requires IntPrices(starts) && IntPrices(backs)
    requires trips == Dedup(offered) && OfferedFor(starts, backs, done, offered)
    ensures r == Dedup(offered') && OfferedFor(starts, backs, done + {w}, offered')
  {
    OfferedStep(starts, backs, done, offered, w);
    var ws := Filter(starts, HasKey(WeekKey, w));
    var wb := Filter(backs, HasKey(WeekKey, w));
    r := PairWeek(ws, wb, trips, offered);
    offered' := offered + AllPairs(ws, wb);
  }

  /** Moving week `w` from the weeks to do to the weeks done. */
  lemma WeekDone(common: set<int>, todo: set<int>, w: int)
    requires todo <= common && w in todo
    ensures todo - {w} <= common && common - (todo - {w}) == (common - todo) + {w}
  {
  }

  /**
    * One airport of `find_available_trips`: for every week both directions
    * fly in, every start leg with every return leg of that week, without
    * repeats. There is no date-order check.
    */
  method MatchAirport(starts: seq<FlightRecord>, backs: seq<FlightRecord>) returns (trips: seq<TripRecord>)
    requires IntPrices(starts) && IntPrices(backs)
    ensures NoDup(trips)
    ensures forall t :: t in trips <==> SameWeekTrip(starts, backs, t)
    ensures trips != [] <==> HasCommonWeek(starts, backs)
  {
    var common := WeeksOf(starts) * WeeksOf(backs);
    var todo := common;
    ghost var offered: seq<TripRecord> := [];
    trips := [];
    while todo != {}
      invariant todo <= common
      invariant trips == Dedup(offered)
      invariant OfferedFor(starts, backs, common - todo, offered)
      decreases |todo|
    {
      var w :| w in todo;
      trips, offered := PairNextWeek(starts, backs, trips, common - todo, offered, w);
      WeekDone(common, todo, w);
      todo := todo - {w};
    }
    OfferedAll(starts, backs, offered, trips);
  }

  /** Every list of a grouping has int prices. */
  predicate AllIntPrices(g: map<string, seq<FlightRecord>>) {
    forall k | k in g :: IntPrices(g[k])
  }

  /** `trips` holds, for the airports of `keys`, what `find_available_trips` pairs before sorting. */
  ghost predicate MatchedIn(outbound: map<string, seq<FlightRecord>>, inbound: map<string, seq<FlightRecord>>,
                            keys: set<string>, trips: map<string, seq<TripRecord>>)
  {
    && (forall k | k in trips :: k in keys && k in outbound && k in inbound)
    && (forall k | k in keys && k in outbound && k in inbound :: k in trips <==> HasCommonWeek(outbound[k], inbound[k]))
    && (forall k | k in trips :: NoDup(trips[k]) && forall t :: t in trips[k] <==> SameWeekTrip(outbound[k], inbound[k], t))
  }

  /**
    * The airport loop of `find_available_trips`: an airport gets a list
    * when its first trip is appended, so airports without a common week get
    * no key.
    */
  method MatchAirports(outbound: map<string, seq<FlightRecord>>, inbound: map<string, seq<FlightRecord>>)
    returns (trips: map<string, seq<TripRecord>>)
    requires AllIntPrices(outbound) && AllIntPrices(inbound)
    ensures MatchedIn(outbound, inbound, outbound.Keys * inbound.Keys, trips)
  {
    var common := outbound.Keys * inbound.Keys;
    var todo := common;
    trips := map[];
    while todo != {}
      invariant todo <= common
      invariant MatchedIn(outbound, inbound, common - todo, trips)
      decreases todo
    {
      var iata :| iata in todo;
      trips := MatchNextAirport(outbound, inbound, common - todo, iata, trips);
      assert (common - todo) + {iata} == common - (todo - {iata});
      todo := todo - {iata};
    }
  }

  /** One airport of the loop: its list is stored only when it is not empty. */
  method MatchNextAirport(outbound: map<string, seq<FlightRecord>>, inbound: map<string, seq<FlightRecord>>,
                          ghost done: set<string>, iata: string, trips: map<string, seq<TripRecord>>)
    returns (r: map<string, seq<TripRecord>>)
    requires AllIntPrices(outbound) && AllIntPrices(inbound)
    requires iata in outbound && iata in inbound
    requires MatchedIn(outbound, inbound, done, trips)
    ensures MatchedIn(outbound, inbound, done + {iata}, r)
  {
    var found := MatchAirport(outbound[iata], inbound[iata]);
    r := trips;
    if found != [] {
      r := trips[iata := found];
    }
  }

  /** The final loop of `find_available_trips`: every list sorted by total in place. */
  method SortByTotalPrice(trips: map<string, seq<TripRecord>>) returns (sorted: map<string, seq<TripRecord>>)
    ensures sorted.Keys == trips.Keys
    ensures forall k | k in trips :: sorted[k] == SortBy(trips[k], RecordTotal, IntLe)
  {
    var todo := trips.Keys;
    sorted := map[];
    while todo != {}
      invariant todo <= trips.Keys && sorted.Keys == trips.Keys - todo
      invariant forall k | k in sorted :: sorted[k] == SortBy(trips[k], RecordTotal, IntLe)
      decreases |todo|
    {
      var iata :| iata in todo;
      sorted := sorted[iata := SortBy(trips[iata], RecordTotal, IntLe)];
      todo := todo - {iata};
    }
  }

  /**
    * `find_available_trips`: an airport is listed exactly when both
    * directions fly it in a common week; its list holds every same-week
    * trip once, sorted by total.
    */
  method FindAvailableTrips(outbound: map<string, seq<FlightRecord>>, inbound: map<string, seq<FlightRecord>>)
    returns (trips: map<string, seq<TripRecord>>)
    requires AllIntPrices(outbound) && AllIntPrices(inbound)
    ensures forall k :: k in trips <==> k in outbound && k in inbound && HasCommonWeek(outbound[k], inbound[k])
    ensures forall k | k in trips :: SortedBy(trips[k], RecordTotal, IntLe) && NoDup(trips[k])
    ensures forall k | k in trips :: forall t :: t in trips[k] <==> SameWeekTrip(outbound[k], inbound[k], t)
  {
    var matched := MatchAirports(outbound, inbound);
    trips := SortByTotalPrice(matched);
    IntLeTotalOrder();
    forall k | k in trips
      ensures SortedBy(trips[k], RecordTotal, IntLe) && NoDup(trips[k])
      ensures forall t :: t in trips[k] <==> SameWeekTrip(outbound[k], inbound[k], t)
    {
      SortByFacts(matched[k], RecordTotal, IntLe);
      NoDupPermutation(matched[k], trips[k]);
      forall t ensures t in trips[k] <==> t in matched[k] {
        assert t in trips[k] <==> t in multiset(trips[k]);
        assert t in matched[k] <==> t in multiset(matched[k]);
      }
    }
  }

  /**
    * No date-order check: Saturday 2026-09-12 and Sunday 2025-09-14 share
    * adjusted week 37, so a return 363 days before the departure is paired.
    */
  lemma ReturnBeforeDeparture(s: FlightRecord, b: FlightRecord)
    requires s.date == 739871 && b.date == 739508 && s.price.IntPrice? && b.price.IntPrice?
    requires s.week == AdjustedWeek(s.date).value && b.week == AdjustedWeek(b.date).value
    ensures Weekday(s.date) in StartWeekdays && Weekday(b.date) in EndWeekdays
    ensures SameWeekTrip([s], [b], PairOf(s, b))
    ensures b.date < s.date
  {
    IsoExample20260912();
    IsoExample20250914();
    assert Weekday(739871) == 5 && Weekday(739508) == 6;
  }

  // ---------------------------------------------------------------------------
  // The printer's grouping

  /** One destination the printer writes: name, code and its weeks. */
  datatype PrintedDestination = PrintedDestination(name: string, iata: string, weeks: seq<WeekSection>)

  function NameOf(item: Item): string
    requires item.1 != []
  {
    item.1[0].start.endName
  }

  /** Item `k` is the first non-empty item with its destination name. */
  predicate FirstOfName(items: seq<Item>, k: int) {
    && 0 <= k < |items| && items[k].1 != []
    && forall j | 0 <= j < k && items[j].1 != [] :: NameOf(items[j]) != NameOf(items[k])
  }

  /** What the printer writes for a destination: its weeks in order, each de-duplicated and sorted by total. */
  function PrintedOf(item: Item): PrintedDestination
    requires item.1 != []
  {
    PrintedDestination(NameOf(item), item.0, WeekSections(item.1))
  }

  /** Each entry of `printed` was written for the first-of-name item `from[a]`, one of the first `i`. */
  ghost predicate WrittenFrom(items: seq<Item>, i: int, from: seq<int>, printed: seq<PrintedDestination>) {
    && |from| == |printed|
    && forall a | 0 <= a < |from| :: from[a] < i && FirstOfName(items, from[a]) && printed[a] == PrintedOf(items[from[a]])
  }

  /** `names` holds exactly the names written. */
  ghost predicate NamesWritten(names: set<string>, printed: seq<PrintedDestination>) {
    && (forall a | 0 <= a < |printed| :: printed[a].name in names)
    && (forall n | n in names :: exists a | 0 <= a < |printed| :: printed[a].name == n)
  }

  /** The name of each non-empty item among the first `i` is in `names`. */
  ghost predicate NamesSeen(items: seq<Item>, i: int, names: set<string>) {
    && i <= |items|
    && forall k | 0 <= k < i && items[k].1 != [] :: NameOf(items[k]) in names
  }

  /** No name is written twice. */
  ghost predicate DistinctNames(printed: seq<PrintedDestination>) {
    forall a, b | 0 <= a < b < |printed| :: printed[a].name != printed[b].name
  }

  /** Every first-of-name item among the first `i` was written. */
  ghost predicate FirstsWritten(items: seq<Item>, i: int, printed: seq<PrintedDestination>) {
    forall k | FirstOfName(items, k) && k < i :: PrintedOf(items[k]) in printed
  }

  /**
    * After the first `i` items: `printed` holds, in order, what was written
    * for first-of-name items `from`, and `names` holds exactly their names.
    */
  ghost predicate PrintedUpTo(items: seq<Item>, i: int, names: set<string>, from: seq<int>, printed: seq<PrintedDestination>) {
    && 0 <= i <= |items|
    && WrittenFrom(items, i, from, printed)
    && NamesWritten(names, printed)
    && NamesSeen(items, i, names)
    && DistinctNames(printed)
    && FirstsWritten(items, i, printed)
  }

  lemma WrittenFromStep(items: seq<Item>, i: int, from: seq<int>, printed: seq<PrintedDestination>)
    requires WrittenFrom(items, i, from, printed)
    ensures WrittenFrom(items, i + 1, from, printed)
  {
  }

  lemma NamesSeenStep(items: seq<Item>, i: int, names: set<string>)
    requires NamesSeen(items, i, names) && 0 <= i < |items|
    requires items[i].1 != [] ==> NameOf(items[i]) in names
    ensures NamesSeen(items, i + 1, names)
  {
  }

  lemma FirstsWrittenStep(items: seq<Item>, i: int, printed: seq<PrintedDestination>)
    requires FirstsWritten(items, i, printed) && 0 <= i < |items| && !FirstOfName(items, i)
    ensures FirstsWritten(items, i + 1, printed)
  {
  }

  /** An empty list, or a name already written, writes nothing. */
  lemma PrintSkip(items: seq<Item>, i: int, names: set<string>, from: seq<int>, printed: seq<PrintedDestination>)
    requires PrintedUpTo(items, i, names, from, printed) && i < |items|
    requires items[i].1 != [] ==> NameOf(items[i]) in names
    ensures PrintedUpTo(items, i + 1, names, from, printed)
    ensures !FirstOfName(items, i)
  {
    if items[i].1 != [] {
      var a :| 0 <= a < |printed| && printed[a].name == NameOf(items[i]);
      NotFirstOfName(items, from[a], i);
    }
    WrittenFromStep(items, i, from, printed);
    NamesSeenStep(items, i, names);
    FirstsWrittenStep(items, i, printed);
  }

  /** An item whose name an earlier non-empty item has is not the first of its name. */
  lemma NotFirstOfName(items: seq<Item>, j: int, i: int)
    requires 0 <= j < i < |items| && items[j].1 != [] && items[i].1 != []
    requires NameOf(items[j]) == NameOf(items[i])
    ensures !FirstOfName(items, i)
  {
  }

  /** A new name writes its destination. */
  lemma PrintAdd(items: seq<Item>, i: int, names: set<string>, from: seq<int>, printed: seq<PrintedDestination>)
    requires PrintedUpTo(items, i, names, from, printed) && i < |items|
    requires items[i].1 != [] && NameOf(items[i]) !in names
    ensures PrintedUpTo(items, i + 1, names + {NameOf(items[i])}, from + [i], printed + [PrintedOf(items[i])])
    ensures FirstOfName(items, i)
  {
    FirstOfNewName(items, i, names);
    WrittenFromAdd(items, i, from, printed);
    NamesWrittenAdd(names, printed, PrintedOf(items[i]));
    NamesSeenAdd(items, i, names);
    DistinctNamesAdd(names, printed, PrintedOf(items[i]));
    FirstsWrittenAdd(items, i, printed);
  }

  /** A non-empty item whose name no earlier item had is the first of its name. */
  lemma FirstOfNewName(items: seq<Item>, i: int, names: set<string>)
    requires NamesSeen(items, i, names) && 0 <= i < |items|
    requires items[i].1 != [] && NameOf(items[i]) !in names
    ensures FirstOfName(items, i)
  {
  }

  lemma WrittenFromAdd(items: seq<Item>, i: int, from: seq<int>, printed: seq<PrintedDestination>)
    requires WrittenFrom(items, i, from, printed) && FirstOfName(items, i)
    ensures WrittenFrom(items, i + 1, from + [i], printed + [PrintedOf(items[i])])
  {
  }

  lemma NamesWrittenAdd(names: set<string>, printed: seq<PrintedDestination>, d: PrintedDestination)
    requires NamesWritten(names, printed)
    ensures NamesWritten(names + {d.name}, printed + [d])
  {
    var p := printed + [d];
    assert p[|printed|].name == d.name;
    forall m | m in names + {d.name} ensures exists a | 0 <= a < |p| :: p[a].name == m {
      if m in names {
        var a :| 0 <= a < |printed| && printed[a].name == m;
        assert p[a].name == m;
      }
    }
  }

  lemma NamesSeenAdd(items: seq<Item>, i: int, names: set<string>)
    requires NamesSeen(items, i, names) && 0 <= i < |items| && items[i].1 != []
    ensures NamesSeen(items, i + 1, names + {NameOf(items[i])})
  {
  }

  lemma DistinctNamesAdd(names: set<string>, printed: seq<PrintedDestination>, d: PrintedDestination)
    requires DistinctNames(printed) && NamesWritten(names, printed) && d.name !in names
    ensures DistinctNames(printed + [d])
  {
  }

  lemma FirstsWrittenAdd(items: seq<Item>, i: int, printed: seq<PrintedDestination>)
    requires FirstsWritten(items, i, printed) && 0 <= i < |items| && items[i].1 != []
    ensures FirstsWritten(items, i + 1, printed + [PrintedOf(items[i])])
  {
  }

  /** `p` is what the printer writes for some first-of-name item. */
  predicate WrittenFor(items: seq<Item>, p: PrintedDestination) {
    exists k | 0 <= k < |items| && FirstOfName(items, k) :: p == PrintedOf(items[k])
  }

  /** What the printer writes for the first `n` items: the first-of-name items' destinations, in item order. */
  function FirstsWrittenIn(items: seq<Item>, n: int): seq<PrintedDestination>
    requires 0 <= n <= |items|
  {
    if n == 0 then []
    else FirstsWrittenIn(items, n - 1) + (if FirstOfName(items, n - 1) then [PrintedOf(items[n - 1])] else [])
  }

  /** Everything written after the last item was written for a first-of-name item. */
  lemma PrintedAll(items: seq<Item>, names: set<string>, from: seq<int>, printed: seq<PrintedDestination>)
    requires PrintedUpTo(items, |items|, names, from, printed)
    ensures forall i | 0 <= i < |printed| :: WrittenFor(items, printed[i])
  {
    forall a | 0 <= a < |printed| ensures WrittenFor(items, printed[a]) {
      var k := from[a];
      assert FirstOfName(items, k) && printed[a] == PrintedOf(items[k]);
    }
  }

  /**
    * `print_flights_grouped_by_weekend` without the text: it walks the
    * items, skips empty lists, and writes a destination only the first
    * time its name comes up, even under another airport code, so the
    * destinations come out in the items' order.
    */
  method PrintFlightsGroupedByWeekend(items: seq<Item>) returns (printed: seq<PrintedDestination>)
    ensures forall i, j | 0 <= i < j < |printed| :: printed[i].name != printed[j].name
    ensures forall i | 0 <= i < |printed| :: WrittenFor(items, printed[i])
    ensures forall k | FirstOfName(items, k) :: PrintedOf(items[k]) in printed
    ensures printed == FirstsWrittenIn(items, |items|)
  {
    var names: set<string> := {};
    ghost var from: seq<int> := [];
    printed := [];
    for i := 0 to |items|
      invariant PrintedUpTo(items, i, names, from, printed)
      invariant printed == FirstsWrittenIn(items, i)
    {
      var (iata, flights) := items[i];
      if flights != [] && flights[0].start.endName !in names {
        var name := flights[0].start.endName;
        PrintAdd(items, i, names, from, printed);
        printed := printed + [PrintedDestination(name, iata, WeekSections(flights))];
        from := from + [i];
        names := names + {name};
      } else {
        PrintSkip(items, i, names, from, printed);
      }
    }
    PrintedAll(items, names, from, printed);
  }

  // ---------------------------------------------------------------------------
  // The whole pass

  /** `trips.items()`: each airport once with its list, in an order the model leaves open. */
  method ItemsOfMap(trips: map<string, seq<TripRecord>>) returns (items: seq<Item>)
    ensures ItemsOf(items, trips)
  {
    items := [];
    var todo := trips.Keys;
    while todo != {}
      invariant todo <= trips.Keys
      invariant forall i | 0 <= i < |items| :: items[i].0 in trips && trips[items[i].0] == items[i].1 && items[i].0 !in todo
      invariant forall k | k in trips && k !in todo :: exists i | 0 <= i < |items| :: items[i].0 == k
      invariant forall i, j | 0 <= i < j < |items| :: items[i].0 != items[j].0
      decreases |todo|
    {
      var iata :| iata in todo;
      ghost var before := items;
      items := items + [(iata, trips[iata])];
      todo := todo - {iata};
      forall k | k in trips && k !in todo ensures exists i | 0 <= i < |items| :: items[i].0 == k {
        if k == iata {
          assert items[|before|].0 == k;
        } else {
          var i :| 0 <= i < |before| && before[i].0 == k;
          assert items[i].0 == k;
        }
      }
    }
  }

  /** The flights of one direction that reach the matching: converted, on the right days, under the limit. */
  function Kept(data: seq<FlightRecord>, days: set<int>): (r: seq<FlightRecord>)
    requires PricesConvert(data)
    ensures IntPrices(r)
  {
    IntPricesFilter(WithIntPrices(data), OnDays(days));
    FilterByPrice(FilterByWeekdays(WithIntPrices(data), days), PriceLimit)
  }

  /** The airport of an outbound leg and of a return leg (`'end'` and `'start'`). */
  function EndKey(f: FlightRecord): string {
    f.end
  }

  function StartKey(f: FlightRecord): string {
    f.start
  }

  /** `f` is flight `i` of `data` with its price converted and its week added. */
  predicate FromInput(f: FlightRecord, data: seq<FlightRecord>) {
    exists i | 0 <= i < |data| ::
      && ConvertPrice(data[i].price).Ok? && data[i].date >= 2
      && f == data[i].(price := IntPrice(ConvertPrice(data[i].price).value), week := IsoCalendar(data[i].date - 1).week)
  }

  /**
    * A trip the pass may print for `iata`: an outbound leg to it on a
    * Friday or Saturday and a return leg from it on a Saturday, Sunday or
    * Monday, each under the limit, in the same adjusted week, both taken
    * from the input.
    */
  predicate LegacyTrip(outbound: seq<FlightRecord>, inbound: seq<FlightRecord>, iata: string, t: TripRecord) {
    && t.start.end == iata && t.back.start == iata
    && Weekday(t.start.date) in StartWeekdays && Weekday(t.back.date) in EndWeekdays
    && Priced(t) && t.start.price.amount < PriceLimit && t.back.price.amount < PriceLimit
    && t.start.week == t.back.week
    && FromInput(t.start, outbound) && FromInput(t.back, inbound)
  }

  /** Every trip in every week of every printed destination is a `LegacyTrip` for its airport. */
  predicate PrintsLegacyTrips(outbound: seq<FlightRecord>, inbound: seq<FlightRecord>, printed: seq<PrintedDestination>) {
    forall a, w | 0 <= a < |printed| && 0 <= w < |printed[a].weeks| ::
      forall t | t in printed[a].weeks[w].trips :: LegacyTrip(outbound, inbound, printed[a].iata, t)
  }

  /** A flight that reaches the matching was kept from the input, with its week added. */
  lemma KeptLeg(data: seq<FlightRecord>, days: set<int>, f: FlightRecord)
    requires PricesConvert(data) && DatesAfterFirst(Kept(data, days))
    requires f in WithWeeks(Kept(data, days))
    ensures Weekday(f.date) in days && f.price.IntPrice? && f.price.amount < PriceLimit
    ensures FromInput(f, data)
  {
    var x := WeekAddedTo(Kept(data, days), f);
    KeptFlight(data, days, x);
    var k :| 0 <= k < |data| && x == data[k].(price := IntPrice(ConvertPrice(data[k].price).value));
    assert data[k].date == x.date;
    assert f == data[k].(price := IntPrice(ConvertPrice(data[k].price).value), week := IsoCalendar(data[k].date - 1).week);
  }

  /** A flight of `WithWeeks(data)` is a flight of `data` with its week added. */
  lemma WeekAddedTo(data: seq<FlightRecord>, f: FlightRecord) returns (x: FlightRecord)
    requires DatesAfterFirst(data) && f in WithWeeks(data)
    ensures x in data && x.date >= 2 && f == x.(week := IsoCalendar(x.date - 1).week)
  {
    var i :| 0 <= i < |data| && WithWeeks(data)[i] == f;
    x := data[i];
    assert f == WithWeek(x);
  }

  /** A kept flight is an input flight with its price converted, on one of the days and under the limit. */
  lemma KeptFlight(data: seq<FlightRecord>, days: set<int>, x: FlightRecord)
    requires PricesConvert(data) && x in Kept(data, days)
    ensures Weekday(x.date) in days && x.price.IntPrice? && x.price.amount < PriceLimit
    ensures exists k | 0 <= k < |data| :: x == data[k].(price := IntPrice(ConvertPrice(data[k].price).value))
  {
    var conv := WithIntPrices(data);
    FilterTwice(conv, OnDays(days), UnderPrice(PriceLimit), x);
    var k :| 0 <= k < |conv| && conv[k] == x;
  }

  /** The trips matched from the two kept, grouped directions are `LegacyTrip`s. */
  lemma MatchedLegacyTrips(outbound: seq<FlightRecord>, inbound: seq<FlightRecord>,
                           g1: map<string, seq<FlightRecord>>, g2: map<string, seq<FlightRecord>>,
                           trips: map<string, seq<TripRecord>>)
    requires PricesConvert(outbound) && PricesConvert(inbound)
    requires DatesAfterFirst(Kept(outbound, StartWeekdays)) && DatesAfterFirst(Kept(inbound, EndWeekdays))
    requires g1 == GroupBy(WithWeeks(Kept(outbound, StartWeekdays)), EndKey)
    requires g2 == GroupBy(WithWeeks(Kept(inbound, EndWeekdays)), StartKey)
    requires forall k | k in trips :: k in g1 && k in g2 && forall t :: t in trips[k] <==> SameWeekTrip(g1[k], g2[k], t)
    ensures forall k, t | k in trips && t in trips[k] :: LegacyTrip(outbound, inbound, k, t)
  {
    forall k, t | k in trips && t in trips[k] ensures LegacyTrip(outbound, inbound, k, t) {
      assert SameWeekTrip(g1[k], g2[k], t);
      GroupByMembership(WithWeeks(Kept(outbound, StartWeekdays)), EndKey, t.start, k);
      GroupByMembership(WithWeeks(Kept(inbound, EndWeekdays)), StartKey, t.back, k);
      KeptLeg(outbound, StartWeekdays, t.start);
      KeptLeg(inbound, EndWeekdays, t.back);
    }
  }

  /** What the printer writes from matched trips shows only trips of their airport's list. */
  lemma PrintedLegacyTrips(outbound: seq<FlightRecord>, inbound: seq<FlightRecord>,
                           trips: map<string, seq<TripRecord>>, items: seq<Item>, printed: seq<PrintedDestination>)
    requires forall k, t | k in trips && t in trips[k] :: LegacyTrip(outbound, inbound, k, t)
    requires ItemsOf(items, trips)
    requires forall a | 0 <= a < |printed| :: WrittenFor(items, printed[a])
    ensures PrintsLegacyTrips(outbound, inbound, printed)
  {
    forall a, w | 0 <= a < |printed| && 0 <= w < |printed[a].weeks|
      ensures forall t | t in printed[a].weeks[w].trips :: LegacyTrip(outbound, inbound, printed[a].iata, t)
    {
      var k :| 0 <= k < |items| && FirstOfName(items, k) && printed[a] == PrintedOf(items[k]);
      var iata := items[k].0;
      WeekSectionsSpec(trips[iata]);
      assert SectionShows(WeekSections(trips[iata])[w], trips[iata]);
    }
  }

  /**
    * `process_flights_info`: prices are converted before anything else, so
    * a price that does not convert fails the pass whatever its date; weeks
    * are added only after the weekday and price filters, so only a kept
    * flight on 0001-01-01 overflows. On success the destinations are
    * written once per name, and every trip written is a `LegacyTrip`.
    */
  method ProcessFlightsInfo(outbound: seq<FlightRecord>, inbound: seq<FlightRecord>)
    returns (r: Result<seq<PrintedDestination>, Error>)
    ensures r.Ok? <==>
      && PricesConvert(outbound) && PricesConvert(inbound)
      && DatesAfterFirst(Kept(outbound, StartWeekdays)) && DatesAfterFirst(Kept(inbound, EndWeekdays))
    ensures r.Ok? ==> forall i, j | 0 <= i < j < |r.value| :: r.value[i].name != r.value[j].name
    ensures r.Ok? ==> PrintsLegacyTrips(outbound, inbound, r.value)
    ensures !PricesConvert(outbound) ==> r.Err? && FirstBadPrice(outbound, r.error)
    ensures PricesConvert(outbound) && !PricesConvert(inbound) ==> r.Err? && FirstBadPrice(inbound, r.error)
    ensures PricesConvert(outbound) && PricesConvert(inbound) && !DatesAfterFirst(Kept(outbound, StartWeekdays)) ==>
      r.Err? && FirstOverflow(Kept(outbound, StartWeekdays), r.error)
    ensures (&& PricesConvert(outbound) && PricesConvert(inbound) && DatesAfterFirst(Kept(outbound, StartWeekdays))
             && !DatesAfterFirst(Kept(inbound, EndWeekdays))) ==>
      r.Err? && FirstOverflow(Kept(inbound, EndWeekdays), r.error)
  {
    var converted1 := ConvertPrices(outbound);
    if converted1.Err? {
      return Err(converted1.error);
    }
    var converted2 := ConvertPrices(inbound);
    if converted2.Err? {
      return Err(converted2.error);
    }
    var filtered1 := FilterByWeekdays(converted1.value, StartWeekdays);
    var filtered2 := FilterByWeekdays(converted2.value, EndWeekdays);
    IntPricesFilter(converted1.value, OnDays(StartWeekdays));
    IntPricesFilter(converted2.value, OnDays(EndWeekdays));
    filtered1 := FilterByPrice(filtered1, PriceLimit);
    filtered2 := FilterByPrice(filtered2, PriceLimit);
    assert filtered1 == Kept(outbound, StartWeekdays);
    assert filtered2 == Kept(inbound, EndWeekdays);
    var weeks1 := AddWeekNumbers(filtered1);
    if weeks1.Err? {
      return Err(weeks1.error);
    }
    var weeks2 := AddWeekNumbers(filtered2);
    if weeks2.Err? {
      return Err(weeks2.error);
    }
    var printed := MatchAndPrint(outbound, inbound, weeks1.value, weeks2.value);
    return Ok(printed);
  }

  /**
    * The stages of `process_flights_info` after the weeks are added: group
    * by airport, match, and print once per destination name.
    */
  method MatchAndPrint(outbound: seq<FlightRecord>, inbound: seq<FlightRecord>, legs1: seq<FlightRecord>, legs2: seq<FlightRecord>)
    returns (printed: seq<PrintedDestination>)
    requires PricesConvert(outbound) && PricesConvert(inbound)
    requires DatesAfterFirst(Kept(outbound, StartWeekdays)) && DatesAfterFirst(Kept(inbound, EndWeekdays))
    requires legs1 == WithWeeks(Kept(outbound, StartWeekdays)) && legs2 == WithWeeks(Kept(inbound, EndWeekdays))
    ensures forall i, j | 0 <= i < j < |printed| :: printed[i].name != printed[j].name
    ensures PrintsLegacyTrips(outbound, inbound, printed)
  {
    var grouped1 := GroupFlightsByKey(legs1, EndKey);
    var grouped2 := GroupFlightsByKey(legs2, StartKey);
    WeekedIntPrices(Kept(outbound, StartWeekdays), legs1, EndKey);
    WeekedIntPrices(Kept(inbound, EndWeekdays), legs2, StartKey);
    var trips := FindAvailableTrips(grouped1, grouped2);
    MatchedLegacyTrips(outbound, inbound, grouped1, grouped2, trips);
    var items := ItemsOfMap(trips);
    printed := PrintFlightsGroupedByWeekend(items);
    PrintedLegacyTrips(outbound, inbound, trips, items, printed);
  }

  /** Adding weeks keeps the prices, so every group of the result has int prices. */
  lemma WeekedIntPrices(data: seq<FlightRecord>, weeked: seq<FlightRecord>, key: FlightRecord -> string)
    requires IntPrices(data) && DatesAfterFirst(data) && weeked == WithWeeks(data)
    ensures AllIntPrices(GroupBy(weeked, key))
  {
    assert IntPrices(weeked);
    forall k | k in GroupBy(weeked, key) ensures IntPrices(GroupBy(weeked, key)[k]) {
      IntPricesFilter(weeked, HasKey(key, k));
    }
  }
}
