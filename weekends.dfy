/**
  * `FlightProcessorWeekends`: short round trips that leave on a Friday or
  * Saturday and come back on a Sunday, Monday or Tuesday of the same
  * (adjusted) week, with a same-day rule for trips that return the day
  * they leave.
  */
module Weekends {
  import opened Wrappers
  import opened Seqs
  import opened Calendar
  import opened Models
  import opened Timetable
  import opened Base
  import opened Pairing

  /** Friday and Saturday. */
  const StartWeekdays: set<int> := {4, 5}
  /** Sunday, Monday and Tuesday. */
  const EndWeekdays: set<int> := {6, 0, 1}

  // ---------------------------------------------------------------------------
  // Weekday pre-filter

  function OnWeekdays(days: set<int>): FlightInfo -> bool {
    (f: FlightInfo) => Weekday(f.date) in days
  }

  /**
    * `_filter_by_weekdays`: exactly the flights whose date falls on one of
    * `days`, each with all its copies, in input order.
    */
  function FilterByWeekdays(data: seq<FlightInfo>, days: set<int>): (r: seq<FlightInfo>)
    ensures forall i | 0 <= i < |r| :: Weekday(r[i].date) in days
    ensures multiset(r) <= multiset(data)
    ensures forall i | 0 <= i < |data| && Weekday(data[i].date) in days :: multiset(r)[data[i]] == multiset(data)[data[i]]
  {
    var r := Filter(data, OnWeekdays(days));
    assert forall i | 0 <= i < |r| :: OnWeekdays(days)(r[i]);
    assert forall i | 0 <= i < |data| && Weekday(data[i].date) in days :: OnWeekdays(days)(data[i]);
    r
  }

  /** The weekday filter keeps relative order, so it distributes over concatenation. */
  lemma FilterByWeekdaysAppend(a: seq<FlightInfo>, b: seq<FlightInfo>, days: set<int>)
    ensures FilterByWeekdays(a + b, days) == FilterByWeekdays(a, days) + FilterByWeekdays(b, days)
  {
    FilterAppend(a, b, OnWeekdays(days));
  }

  // ---------------------------------------------------------------------------
  // Matching

  function WeekOf(f: FlightInfo): int {
    f.week
  }

  /** The pairing rule: same adjusted week, and the return not before the outbound flight. */
  predicate WeekendMatch(s: FlightInfo, b: FlightInfo) {
    s.week == b.week && s.date <= b.date
  }

  /** The rule inside one week bucket: `if s.date > b.date: continue`. */
  predicate DateOrdered(s: FlightInfo, b: FlightInfo) {
    s.date <= b.date
  }

  /** `WeekendMatch` restricted to the weeks in `done`. */
  function InWeeks(done: set<int>): (FlightInfo, FlightInfo) -> bool {
    (s: FlightInfo, b: FlightInfo) => s.week in done && s.week == b.week && s.date <= b.date
  }

  /** The week bucket of `w`, as `by_week_start[w]` / `by_week_back[w]` hold it. */
  function Bucket(data: seq<FlightInfo>, w: int): seq<FlightInfo> {
    Filter(data, HasKey(WeekOf, w))
  }

  /** Pairing one more week's buckets adds exactly the matching pairs of that week. */
  lemma WeekStep(starts: seq<FlightInfo>, backs: seq<FlightInfo>, done: set<int>, w: int)
    requires Converted(starts) && Converted(backs) && w !in done
    ensures Converted(Bucket(starts, w)) && Converted(Bucket(backs, w))
    ensures multiset(Pairs(starts, backs, InWeeks(done + {w}))) ==
      multiset(Pairs(starts, backs, InWeeks(done))) + multiset(Pairs(Bucket(starts, w), Bucket(backs, w), DateOrdered))
  {
    ConvertedSubset(Bucket(starts, w), starts);
    ConvertedSubset(Bucket(backs, w), backs);
    var after := multiset(Pairs(starts, backs, InWeeks(done + {w})));
    var before := multiset(Pairs(starts, backs, InWeeks(done)));
    var added := multiset(Pairs(Bucket(starts, w), Bucket(backs, w), DateOrdered));
    forall t: Trip ensures after[t] == (before + added)[t] {
      WeekStepAt(starts, backs, done, w, t);
    }
    MultisetExt(after, before + added);
  }

  lemma WeekStepAt(starts: seq<FlightInfo>, backs: seq<FlightInfo>, done: set<int>, w: int, t: Trip)
    requires Converted(starts) && Converted(backs) && w !in done
    requires Converted(Bucket(starts, w)) && Converted(Bucket(backs, w))
    ensures multiset(Pairs(starts, backs, InWeeks(done + {w})))[t] ==
      multiset(Pairs(starts, backs, InWeeks(done)))[t] + multiset(Pairs(Bucket(starts, w), Bucket(backs, w), DateOrdered))[t]
  {
    PairsCount(starts, backs, InWeeks(done + {w}), t);
    PairsCount(starts, backs, InWeeks(done), t);
    PairsCount(Bucket(starts, w), Bucket(backs, w), DateOrdered, t);
    FilterCount(starts, HasKey(WeekOf, w), t.start);
    FilterCount(backs, HasKey(WeekOf, w), t.back);
    var s, b := t.start, t.back;
    InWeek(s, w);
    InWeek(b, w);
    assert InWeeks(done + {w})(s, b) == (s.week in done + {w} && s.week == b.week && s.date <= b.date);
    assert InWeeks(done)(s, b) == (s.week in done && s.week == b.week && s.date <= b.date);
  }

  lemma InWeek(f: FlightInfo, w: int)
    ensures HasKey(WeekOf, w)(f) <==> f.week == w
  {
    assert HasKey(WeekOf, w)(f) == (WeekOf(f) == w);
  }

  /** Pairing the weeks both sides have covers every same-week pair. */
  lemma AllWeeks(starts: seq<FlightInfo>, backs: seq<FlightInfo>)
    requires Converted(starts) && Converted(backs)
    ensures multiset(Pairs(starts, backs, InWeeks(KeysOf(starts, WeekOf) * KeysOf(backs, WeekOf)))) ==
      multiset(Pairs(starts, backs, WeekendMatch))
  {
    var common := KeysOf(starts, WeekOf) * KeysOf(backs, WeekOf);
    var some := multiset(Pairs(starts, backs, InWeeks(common)));
    var all := multiset(Pairs(starts, backs, WeekendMatch));
    forall t: Trip ensures some[t] == all[t] {
      AllWeeksAt(starts, backs, t);
    }
    MultisetExt(some, all);
  }

  lemma AllWeeksAt(starts: seq<FlightInfo>, backs: seq<FlightInfo>, t: Trip)
    requires Converted(starts) && Converted(backs)
    ensures multiset(Pairs(starts, backs, InWeeks(KeysOf(starts, WeekOf) * KeysOf(backs, WeekOf))))[t] ==
      multiset(Pairs(starts, backs, WeekendMatch))[t]
  {
    var common := KeysOf(starts, WeekOf) * KeysOf(backs, WeekOf);
    PairsCount(starts, backs, InWeeks(common), t);
    PairsCount(starts, backs, WeekendMatch, t);
    var s, b := t.start, t.back;
    assert InWeeks(common)(s, b) == (s.week in common && s.week == b.week && s.date <= b.date);
    if s in starts && b in backs {
      var i :| 0 <= i < |starts| && starts[i] == s;
      var j :| 0 <= j < |backs| && backs[j] == b;
      assert WeekOf(starts[i]) in KeysOf(starts, WeekOf);
      assert WeekOf(backs[j]) in KeysOf(backs, WeekOf);
    } else {
      assert multiset(starts)[s] == 0 || multiset(backs)[b] == 0;
    }
  }

  lemma MoveDone(common: set<int>, todo: set<int>, done: set<int>, x: int)
    requires todo <= common && done == common - todo && x in todo
    ensures todo - {x} <= common && done + {x} == common - (todo - {x})
  {
  }

  /** Before any week is paired nothing is. */
  lemma NoWeeks(starts: seq<FlightInfo>, backs: seq<FlightInfo>)
    requires Converted(starts) && Converted(backs)
    ensures Pairs(starts, backs, InWeeks({})) == []
  {
    var none := multiset(Pairs(starts, backs, InWeeks({})));
    forall t: Trip ensures none[t] == multiset{}[t] {
      PairsCount(starts, backs, InWeeks({}), t);
    }
    MultisetExt(none, multiset{});
  }

  /** The buckets of `data` by adjusted week, as `by_week_start` / `by_week_back` hold them. */
  predicate Buckets(byWeek: map<int, seq<FlightInfo>>, data: seq<FlightInfo>) {
    byWeek.Keys == KeysOf(data, WeekOf) && forall w | w in byWeek :: byWeek[w] == Bucket(data, w)
  }

  /** The week loop of `_find_available_trips`: pairs the buckets of every week both sides have. */
  method PairCommonWeeks(starts: seq<FlightInfo>, backs: seq<FlightInfo>,
                         byWeekStart: map<int, seq<FlightInfo>>, byWeekBack: map<int, seq<FlightInfo>>)
    returns (found: seq<Trip>)
    requires Converted(starts) && Converted(backs)
    requires Buckets(byWeekStart, starts) && Buckets(byWeekBack, backs)
    ensures multiset(found) == multiset(Pairs(starts, backs, WeekendMatch))
  {
    var todo := byWeekStart.Keys * byWeekBack.Keys;
    ghost var common := todo;
    ghost var done: set<int> := {};
    found := [];
    NoWeeks(starts, backs);
    while todo != {}
      invariant todo <= common && done == common - todo
      invariant multiset(found) == multiset(Pairs(starts, backs, InWeeks(done)))
      decreases todo
    {
      var week :| week in todo;
      assert byWeekStart[week] == Bucket(starts, week) && byWeekBack[week] == Bucket(backs, week);
      ConvertedSubset(Bucket(starts, week), starts);
      ConvertedSubset(Bucket(backs, week), backs);
      var pairs := Pairs(byWeekStart[week], byWeekBack[week], DateOrdered);
      assert week !in done;
      WeekStep(starts, backs, done, week);
      assert multiset(found + pairs) == multiset(found) + multiset(pairs);
      found := found + pairs;
      MoveDone(common, todo, done, week);
      done := done + {week};
      todo := todo - {week};
    }
    assert done == KeysOf(starts, WeekOf) * KeysOf(backs, WeekOf);
    AllWeeks(starts, backs);
  }

  /**
    * One airport of `_find_available_trips`: bucket both sides by week,
    * pair the common weeks' buckets, then sort by total. The week order is
    * a set's, so ties come out in an unspecified order.
    */
  method MatchAirport(starts: seq<FlightInfo>, backs: seq<FlightInfo>) returns (trips: seq<Trip>)
    requires Converted(starts) && Converted(backs)
    ensures SortedBy(trips, Total, IntLe)
    ensures multiset(trips) == multiset(Pairs(starts, backs, WeekendMatch))
  {
    var byWeekStart := GroupFlightsByKey(starts, WeekOf);
    var byWeekBack := GroupFlightsByKey(backs, WeekOf);
    var found := PairCommonWeeks(starts, backs, byWeekStart, byWeekBack);
    trips := SortByTotal(found);
  }

  /**
    * `trips` holds, for the common airports in `keys`, the sorted matches
    * of each airport that has one, and no other airport.
    */
  ghost predicate MatchedIn(outbound: map<string, seq<FlightInfo>>, inbound: map<string, seq<FlightInfo>>, keys: set<string>,
                      trips: TripsDict)
    requires AllConverted(outbound) && AllConverted(inbound)
    reads set iata, i | iata in outbound && 0 <= i < |outbound[iata]| :: outbound[iata][i]
    reads set iata, i | iata in inbound && 0 <= i < |inbound[iata]| :: inbound[iata][i]
  {
    && (forall iata :: iata in trips <==>
          iata in keys && iata in outbound && iata in inbound && Pairs(outbound[iata], inbound[iata], WeekendMatch) != [])
    && (forall iata | iata in trips :: SortedBy(trips[iata], Total, IntLe))
    && (forall iata | iata in trips :: multiset(trips[iata]) == multiset(Pairs(outbound[iata], inbound[iata], WeekendMatch)))
  }

  /** Adding one airport's sorted matches, when there are any, extends `MatchedIn` by that airport. */
  lemma MatchedStep(outbound: map<string, seq<FlightInfo>>, inbound: map<string, seq<FlightInfo>>,
                    done: set<string>, iata: string, trips: TripsDict, found: seq<Trip>, r: TripsDict)
    requires AllConverted(outbound) && AllConverted(inbound)
    requires iata in outbound && iata in inbound
    requires MatchedIn(outbound, inbound, done, trips)
    requires SortedBy(found, Total, IntLe)
    requires multiset(found) == multiset(Pairs(outbound[iata], inbound[iata], WeekendMatch))
    requires r == if found != [] then trips[iata := found] else trips
    ensures MatchedIn(outbound, inbound, done + {iata}, r)
  {
    var matches := Pairs(outbound[iata], inbound[iata], WeekendMatch);
    assert found == [] <==> matches == [] by {
      assert |found| == |multiset(found)| == |multiset(matches)| == |matches|;
    }
    forall k ensures k in r <==>
      k in done + {iata} && k in outbound && k in inbound && Pairs(outbound[k], inbound[k], WeekendMatch) != []
    {
      if k != iata {
        assert k in r <==> k in trips;
      }
    }
    forall k | k in r ensures SortedBy(r[k], Total, IntLe) && multiset(r[k]) == multiset(Pairs(outbound[k], inbound[k], WeekendMatch))
    {
      if k != iata {
        assert r[k] == trips[k];
      }
    }
  }

  /** One airport of `_find_available_trips`: its sorted matches join `trips` when there are any. */
  method MatchCommonAirport(outbound: map<string, seq<FlightInfo>>, inbound: map<string, seq<FlightInfo>>,
                            ghost done: set<string>, iata: string, trips: TripsDict)
    returns (r: TripsDict)
    requires AllConverted(outbound) && AllConverted(inbound)
    requires iata in outbound && iata in inbound
    requires MatchedIn(outbound, inbound, done, trips)
    ensures MatchedIn(outbound, inbound, done + {iata}, r)
  {
    assert Converted(outbound[iata]) && Converted(inbound[iata]);
    var found := MatchAirport(outbound[iata], inbound[iata]);
    assert AllConverted(outbound) && AllConverted(inbound);
    assert MatchedIn(outbound, inbound, done, trips);
    r := if found != [] then trips[iata := found] else trips;
    MatchedStep(outbound, inbound, done, iata, trips, found, r);
  }

  /**
    * `_find_available_trips`: for every airport both maps have, the
    * same-week pairs with the return not earlier, sorted by total; an
    * airport without such a pair gets no key.
    */
  method FindAvailableTrips(outbound: map<string, seq<FlightInfo>>, inbound: map<string, seq<FlightInfo>>)
    returns (trips: TripsDict)
    requires AllConverted(outbound) && AllConverted(inbound)
    ensures forall iata :: iata in trips <==>
      iata in outbound && iata in inbound && Pairs(outbound[iata], inbound[iata], WeekendMatch) != []
    ensures forall iata | iata in trips :: SortedBy(trips[iata], Total, IntLe)
    ensures forall iata | iata in trips ::
      multiset(trips[iata]) == multiset(Pairs(outbound[iata], inbound[iata], WeekendMatch))
  {
    trips := map[];
    var common := outbound.Keys * inbound.Keys;
    var todo := common;
    while todo != {}
      invariant todo <= common
      invariant MatchedIn(outbound, inbound, common - todo, trips)
      decreases todo
    {
      var iata :| iata in todo;
      trips := MatchCommonAirport(outbound, inbound, common - todo, iata, trips);
      assert (common - todo) + {iata} == common - (todo - {iata});
      todo := todo - {iata};
    }
  }

  // ---------------------------------------------------------------------------
  // Filtering and enrichment

  /**
    * The timing rule of `_filter_and_enrich_trips` on the looked-up times:
    * both known, and a trip that returns the day it leaves departs no later
    * than `maxStart` and lasts at least `minTripHours`.
    */
  predicate KeepsTimes(sDate: Date, bDate: Date, sTime: Option<Time>, bTime: Option<Time>, maxStart: Time, minTripHours: int) {
    sTime.Some? && bTime.Some? &&
    (sDate != bDate || (sTime.value <= maxStart && bTime.value - sTime.value >= minTripHours * 60))
  }

  /** Whether `_filter_and_enrich_trips` keeps a trip, given that both lookups succeed. */
  predicate Keep(tt: Timetables, maxStart: Time, minTripHours: int, t: Trip) {
    TripTimes(tt, t).Ok? &&
    KeepsTimes(t.start.date, t.back.date, TripTimes(tt, t).value.0, TripTimes(tt, t).value.1, maxStart, minTripHours)
  }

  function KeepRule(tt: Timetables, maxStart: Time, minTripHours: int): Trip -> bool {
    (t: Trip) => Keep(tt, maxStart, minTripHours, t)
  }

  /** `datetime.combine(d, t)` as a count of minutes since the proleptic calendar's day 0. */
  function Combine(d: Date, t: Time): (r: int)
    ensures r / 1440 == d && r % 1440 == t
  {
    d * 1440 + t
  }

  /**
    * The keep rule as `_filter_and_enrich_trips` writes it, on the looked-up
    * times: a missing time drops the trip; legs on different dates keep it;
    * a same-date trip is kept iff it leaves no later than `maxStart` and the
    * combined return datetime is at least `minTripHours` hours after the
    * combined departure datetime.
    */
  lemma KeepRuleSpec(tt: Timetables, maxStart: Time, minTripHours: int, t: Trip)
    requires DepartureTime(tt, t.start).Ok? && ReturnTime(tt, t.back).Ok?
    ensures DepartureTime(tt, t.start).value.None? || ReturnTime(tt, t.back).value.None? ==>
      !Keep(tt, maxStart, minTripHours, t)
    ensures DepartureTime(tt, t.start).value.Some? && ReturnTime(tt, t.back).value.Some? ==>
      var sTime, bTime := DepartureTime(tt, t.start).value.value, ReturnTime(tt, t.back).value.value;
      if t.start.date != t.back.date then Keep(tt, maxStart, minTripHours, t)
      else if sTime > maxStart then !Keep(tt, maxStart, minTripHours, t)
      else Keep(tt, maxStart, minTripHours, t) <==>
        Combine(t.back.date, bTime) - Combine(t.start.date, sTime) >= minTripHours * 60
  {
  }

  /** The trips `EnrichTrips` keeps, in the form its loop builds them (`KeptTripsIsFilter`). */
  function KeptTrips(tt: Timetables, maxStart: Time, minTripHours: int, trips: seq<Trip>): seq<Trip>
    decreases |trips|
  {
    if trips == [] then []
    else
      var last := trips[|trips| - 1];
      KeptTrips(tt, maxStart, minTripHours, trips[..|trips| - 1]) + (if Keep(tt, maxStart, minTripHours, last) then [last] else [])
  }

  lemma {:induction false} KeptTripsIsFilter(tt: Timetables, maxStart: Time, minTripHours: int, trips: seq<Trip>)
    ensures KeptTrips(tt, maxStart, minTripHours, trips) == Filter(trips, KeepRule(tt, maxStart, minTripHours))
    decreases |trips|
  {
    if trips != [] {
      KeptTripsIsFilter(tt, maxStart, minTripHours, trips[..|trips| - 1]);
      FilterPrefixStep(trips, |trips| - 1, KeepRule(tt, maxStart, minTripHours));
      assert trips[..|trips|] == trips;
    }
  }

  /** One more trip of the loop of `EnrichTrips`. */
  lemma KeptTripsStep(tt: Timetables, maxStart: Time, minTripHours: int, trips: seq<Trip>, i: int,
                      times: (Option<Time>, Option<Time>))
    requires 0 <= i < |trips| && TripTimes(tt, trips[i]) == Ok(times)
    ensures KeptTrips(tt, maxStart, minTripHours, trips[..i + 1]) == KeptTrips(tt, maxStart, minTripHours, trips[..i]) +
      (if KeepsTimes(trips[i].start.date, trips[i].back.date, times.0, times.1, maxStart, minTripHours) then [trips[i]] else [])
  {
    assert trips[..i + 1][..i] == trips[..i];
  }

  /**
    * The lookups for trip `i`, the departure first, and the writes
    * `s.start_time = s_time; b.back_time = b_time`, made only when both
    * succeed; the legs of the trips before it keep their times.
    */
  method EnrichTrip(tt: Timetables, trips: seq<Trip>, i: int, ghost starts: set<FlightInfo>, ghost backs: set<FlightInfo>)
    returns (r: Result<(Option<Time>, Option<Time>), Error>)
    requires 0 <= i < |trips| && Enriched(tt, trips, i)
    requires StartTimesKnown(tt, starts) && BackTimesKnown(tt, backs)
    modifies trips[i].start`startTime, trips[i].back`backTime
    ensures r == TripTimes(tt, trips[i])
    ensures r.Ok? ==> Enriched(tt, trips, i + 1)
    ensures r.Err? ==> Enriched(tt, trips, i)
    ensures StartTimesKnown(tt, starts) && BackTimesKnown(tt, backs)
  {
    var s, b := trips[i].start, trips[i].back;
    var sTime := GetFlightTime(tt, s, Departures);
    if sTime.Err? {
      return Err(sTime.error);
    }
    var bTime := GetFlightTime(tt, b, Arrivals);
    if bTime.Err? {
      return Err(bTime.error);
    }
    StoreStartTime(tt, trips, i, sTime.value, starts, backs);
    StoreBackTime(tt, trips, i, bTime.value, starts, backs);
    r := Ok((sTime.value, bTime.value));
  }

  /**
    * `_filter_and_enrich_trips` for one airport: looks up both legs' times
    * trip by trip, stores them on the legs, and keeps the trips the timing
    * rule accepts; a missing timetable key raises out of the loop, leaving
    * the earlier trips' legs enriched.
    */
  method EnrichTrips(tt: Timetables, maxStart: Time, minTripHours: int, trips: seq<Trip>,
                     ghost starts: set<FlightInfo>, ghost backs: set<FlightInfo>)
    returns (r: Result<seq<Trip>, Error>)
    requires StartTimesKnown(tt, starts) && BackTimesKnown(tt, backs)
    modifies StartLegs(trips)`startTime, BackLegs(trips)`backTime
    ensures r.Ok? <==> LookupsOk(tt, trips)
    ensures r.Ok? ==> r.value == KeptTrips(tt, maxStart, minTripHours, trips)
    ensures r.Ok? ==> Enriched(tt, trips, |trips|)
    ensures r.Ok? ==> StartTimesKnown(tt, starts) && BackTimesKnown(tt, backs)
    ensures r.Err? ==> exists i | 0 <= i < |trips| ::
      LookupsOk(tt, trips[..i]) && TripTimes(tt, trips[i]) == Err(r.error) && Enriched(tt, trips, i)
  {
    var kept: seq<Trip> := [];
    for i := 0 to |trips|
      invariant kept == KeptTrips(tt, maxStart, minTripHours, trips[..i])
      invariant Enriched(tt, trips, i)
      invariant StartTimesKnown(tt, starts) && BackTimesKnown(tt, backs)
    {
      var times := EnrichTrip(tt, trips, i, starts, backs);
      if times.Err? {
        FirstLookupError(tt, trips, i, times.error);
        return Err(times.error);
      }
      KeptTripsStep(tt, maxStart, minTripHours, trips, i, times.value);
      if KeepsTimes(trips[i].start.date, trips[i].back.date, times.value.0, times.value.1, maxStart, minTripHours) {
        kept := kept + [trips[i]];
      }
    }
    LookupsFromTimes(tt, trips, |trips|);
    assert trips[..|trips|] == trips;
    r := Ok(kept);
  }

  /** What `_filter_and_enrich_trips` returns for the airports in `keys`: their kept trips, when they keep one. */
  function EnrichFiltered(tt: Timetables, maxStart: Time, minTripHours: int, trips: TripsDict, keys: set<string>): TripsDict {
    map iata | iata in keys && iata in trips && KeptTrips(tt, maxStart, minTripHours, trips[iata]) != [] ::
      KeptTrips(tt, maxStart, minTripHours, trips[iata])
  }

  /** One more airport: its kept trips join the result, when there are any. */
  lemma EnrichFilteredStep(tt: Timetables, maxStart: Time, minTripHours: int, trips: TripsDict, keys: set<string>, iata: string)
    requires iata in trips
    ensures LookupsOkIn(tt, trips, keys + {iata}) <==> LookupsOkIn(tt, trips, keys) && LookupsOk(tt, trips[iata])
    ensures EnrichFiltered(tt, maxStart, minTripHours, trips, keys + {iata}) ==
      if KeptTrips(tt, maxStart, minTripHours, trips[iata]) != [] then
        EnrichFiltered(tt, maxStart, minTripHours, trips, keys)[iata := KeptTrips(tt, maxStart, minTripHours, trips[iata])]
      else EnrichFiltered(tt, maxStart, minTripHours, trips, keys)
  {
  }

  /**
    * One airport of `_filter_and_enrich_trips`: enrich and filter its
    * trips and add the survivors, if any, under its code; the legs of the
    * airports done before keep their times.
    */
  method EnrichAirport(tt: Timetables, maxStart: Time, minTripHours: int, trips: TripsDict, ghost done: set<string>,
                       iata: string, filtered: TripsDict)
    returns (r: Result<TripsDict, Error>)
    requires iata in trips && filtered == EnrichFiltered(tt, maxStart, minTripHours, trips, done)
    requires StartTimesKnown(tt, StartLegsIn(trips, done)) && BackTimesKnown(tt, BackLegsIn(trips, done))
    modifies StartLegs(trips[iata])`startTime, BackLegs(trips[iata])`backTime
    ensures r.Ok? <==> LookupsOk(tt, trips[iata])
    ensures r.Ok? ==> r.value == EnrichFiltered(tt, maxStart, minTripHours, trips, done + {iata})
    ensures r.Ok? ==> StartTimesKnown(tt, StartLegsIn(trips, done + {iata})) && BackTimesKnown(tt, BackLegsIn(trips, done + {iata}))
    ensures r.Err? ==> exists i | 0 <= i < |trips[iata]| :: TripTimes(tt, trips[iata][i]) == Err(r.error)
  {
    LegsInStep(trips, done, iata);
    EnrichFilteredStep(tt, maxStart, minTripHours, trips, done, iata);
    var kept := EnrichTrips(tt, maxStart, minTripHours, trips[iata], StartLegsIn(trips, done), BackLegsIn(trips, done));
    if kept.Err? {
      return Err(kept.error);
    }
    EnrichedLegs(tt, trips[iata]);
    if kept.value != [] {
      r := Ok(filtered[iata := kept.value]);
    } else {
      r := Ok(filtered);
    }
  }

  /**
    * `_filter_and_enrich_trips`: airport by airport (in the dictionary's
    * order, unspecified here), enrich and filter its trips; the first
    * missing timetable key aborts the whole pass.
    */
  method FilterAndEnrich(tt: Timetables, maxStart: Time, minTripHours: int, trips: TripsDict,
                         ghost starts: set<FlightInfo>, ghost backs: set<FlightInfo>)
    returns (r: Result<TripsDict, Error>)
    requires StartLegsIn(trips, trips.Keys) <= starts && BackLegsIn(trips, trips.Keys) <= backs
    modifies starts`startTime, backs`backTime
    ensures r.Ok? <==> LookupsOkIn(tt, trips, trips.Keys)
    ensures r.Ok? ==> r.value == EnrichFiltered(tt, maxStart, minTripHours, trips, trips.Keys)
    ensures r.Ok? ==> StartTimesKnown(tt, StartLegsIn(trips, trips.Keys)) && BackTimesKnown(tt, BackLegsIn(trips, trips.Keys))
    ensures r.Err? ==> exists iata, i | iata in trips && 0 <= i < |trips[iata]| :: TripTimes(tt, trips[iata][i]) == Err(r.error)
  {
    var filtered: TripsDict := map[];
    var todo := trips.Keys;
    while todo != {}
      invariant todo <= trips.Keys
      invariant LookupsOkIn(tt, trips, trips.Keys - todo)
      invariant filtered == EnrichFiltered(tt, maxStart, minTripHours, trips, trips.Keys - todo)
      invariant StartTimesKnown(tt, StartLegsIn(trips, trips.Keys - todo))
      invariant BackTimesKnown(tt, BackLegsIn(trips, trips.Keys - todo))
      decreases todo
    {
      var iata :| iata in todo;
      ghost var done := trips.Keys - todo;
      LegsInStep(trips, done, iata);
      var step := EnrichAirport(tt, maxStart, minTripHours, trips, done, iata, filtered);
      if step.Err? {
        return Err(step.error);
      }
      filtered := step.value;
      todo := todo - {iata};
      assert trips.Keys - todo == done + {iata};
    }
    r := Ok(filtered);
  }

  // ---------------------------------------------------------------------------
  // The pipeline

  /**
    * The settings of a `FlightProcessorWeekends`: the ceiling on each leg's
    * and on each trip's price, the shortest same-day stay in hours and the
    * latest same-day departure.
    */
  datatype WeekendSettings = WeekendSettings(priceLimit: int, minTripHours: int, maxStart: Time)

  /**
    * `FlightProcessorWeekends.__init__`: `time(hour=max_start_hour)` is the
    * full hour, and raises ValueError for an hour outside 0..23.
    */
  function NewWeekendSettings(priceLimit: int, minTripHours: int, maxStartHour: int): (r: Result<WeekendSettings, Error>)
    ensures r.Ok? <==> 0 <= maxStartHour < 24
    ensures r.Ok? ==> r.value.priceLimit == priceLimit && r.value.minTripHours == minTripHours
    ensures r.Ok? ==> r.value.maxStart / 60 == maxStartHour && r.value.maxStart % 60 == 0
    ensures r.Err? ==> r.error == HourError(maxStartHour)
  {
    if 0 <= maxStartHour < 24 then Ok(WeekendSettings(priceLimit, minTripHours, TimeOf(maxStartHour, 0)))
    else Err(HourError(maxStartHour))
  }

  /** Every flight of `legs` is a flight of `data` on one of `days` under the per-leg ceiling. */
  predicate LegsFrom(data: seq<FlightInfo>, days: set<int>, limit: int, legs: seq<FlightInfo>)
    reads legs
  {
    forall i | 0 <= i < |legs| ::
      legs[i] in data && Weekday(legs[i].date) in days && legs[i].price.IntPrice? && legs[i].price.amount < limit
  }

  /** Every flight of `data` on one of `days` under the per-leg ceiling is in `legs`. */
  predicate LegsCover(data: seq<FlightInfo>, days: set<int>, limit: int, legs: seq<FlightInfo>)
    reads data
  {
    forall i | 0 <= i < |data| && Weekday(data[i].date) in days && data[i].price.IntPrice? && data[i].price.amount < limit ::
      data[i] in legs
  }

  /** The weekday pre-filter followed by the price ceiling selects exactly those legs. */
  lemma SelectLegs(data: seq<FlightInfo>, days: set<int>, limit: int)
    requires Converted(data)
    ensures Converted(FilterByWeekdays(data, days))
    ensures LegsFrom(data, days, limit, FilterByPrice(FilterByWeekdays(data, days), limit))
    ensures LegsCover(data, days, limit, FilterByPrice(FilterByWeekdays(data, days), limit))
  {
    var w := FilterByWeekdays(data, days);
    ConvertedSubset(w, data);
    FilterByPriceCounts(w, limit);
    var legs := FilterByPrice(w, limit);
    forall i | 0 <= i < |legs| ensures legs[i] in data && Weekday(legs[i].date) in days {
      var j :| 0 <= j < |w| && w[j] == legs[i];
      assert w[j] in multiset(data);
    }
    forall i | 0 <= i < |data| && Weekday(data[i].date) in days && data[i].price.IntPrice? && data[i].price.amount < limit
      ensures data[i] in legs
    {
      assert data[i] in multiset(w);
      var j :| 0 <= j < |w| && w[j] == data[i];
      assert data[i] in multiset(legs);
    }
  }

  /**
    * Outbound leg `s` and return leg `b` make a weekend trip: both listed,
    * on a start and an end weekday, each under the ceiling, out to and back
    * from the same airport, in one adjusted week, the return not earlier.
    */
  predicate WeekendPair(limit: int, p2a: seq<FlightInfo>, a2p: seq<FlightInfo>, s: FlightInfo, b: FlightInfo)
    reads s`price, b`price
  {
    && s in p2a && b in a2p
    && Weekday(s.date) in StartWeekdays && Weekday(b.date) in EndWeekdays
    && s.price.IntPrice? && s.price.amount < limit
    && b.price.IntPrice? && b.price.amount < limit
    && s.end == b.start && WeekendMatch(s, b)
  }

  /** Every trip of `trips` is the trip of a weekend pair, filed under its away airport. */
  predicate PairTrips(limit: int, p2a: seq<FlightInfo>, a2p: seq<FlightInfo>, trips: TripsDict)
    reads Flights(p2a)`price, Flights(a2p)`price
  {
    forall iata, i | iata in trips && 0 <= i < |trips[iata]| ::
      && trips[iata][i].start in p2a && trips[iata][i].back in a2p
      && WeekendPair(limit, p2a, a2p, trips[iata][i].start, trips[iata][i].back)
      && trips[iata][i].start.end == iata
      && trips[iata][i] == TripOf(trips[iata][i].start, trips[iata][i].back)
  }

  /** The trip of every weekend pair is in `trips`, under its away airport. */
  predicate AllPairTrips(limit: int, p2a: seq<FlightInfo>, a2p: seq<FlightInfo>, trips: TripsDict)
    reads Flights(p2a)`price, Flights(a2p)`price
  {
    forall s, b | s in p2a && b in a2p && WeekendPair(limit, p2a, a2p, s, b) ::
      s.end in trips && TripOf(s, b) in trips[s.end]
  }

  /** A trip paired for an airport from its grouped legs is a weekend pair's trip filed under that airport. */
  lemma PairedTrip(limit: int, p2a: seq<FlightInfo>, a2p: seq<FlightInfo>, starts: seq<FlightInfo>, backs: seq<FlightInfo>,
                   iata: string, t: Trip)
    requires LegsFrom(p2a, StartWeekdays, limit, starts) && LegsFrom(a2p, EndWeekdays, limit, backs)
    requires t.start in starts && t.start.end == iata && t.back in backs && t.back.start == iata
    requires WeekendMatch(t.start, t.back) && SumPriced(t)
    ensures WeekendPair(limit, p2a, a2p, t.start, t.back) && t.start.end == iata && t == TripOf(t.start, t.back)
  {
    var j :| 0 <= j < |starts| && starts[j] == t.start;
    var k :| 0 <= k < |backs| && backs[k] == t.back;
  }

  /** The legs of a weekend pair are among the selected legs. */
  lemma PairSelected(limit: int, p2a: seq<FlightInfo>, a2p: seq<FlightInfo>, starts: seq<FlightInfo>, backs: seq<FlightInfo>,
                     s: FlightInfo, b: FlightInfo)
    requires LegsCover(p2a, StartWeekdays, limit, starts) && LegsCover(a2p, EndWeekdays, limit, backs)
    requires WeekendPair(limit, p2a, a2p, s, b)
    ensures s in starts && b in backs
  {
    var i :| 0 <= i < |p2a| && p2a[i] == s;
    var j :| 0 <= j < |a2p| && a2p[j] == b;
  }

  /** A trip paired from an airport's groups of selected legs is a weekend pair's trip under that airport. */
  lemma FoundTrip(limit: int, p2a: seq<FlightInfo>, a2p: seq<FlightInfo>, starts: seq<FlightInfo>, backs: seq<FlightInfo>,
                  outbound: map<string, seq<FlightInfo>>, inbound: map<string, seq<FlightInfo>>, iata: string, t: Trip)
    requires LegsFrom(p2a, StartWeekdays, limit, starts) && LegsFrom(a2p, EndWeekdays, limit, backs)
    requires GroupMembers(outbound, starts, EndOf) && GroupMembers(inbound, backs, StartOf)
    requires iata in outbound && iata in inbound && Converted(outbound[iata]) && Converted(inbound[iata])
    requires t in Pairs(outbound[iata], inbound[iata], WeekendMatch)
    ensures WeekendPair(limit, p2a, a2p, t.start, t.back) && t.start.end == iata && t == TripOf(t.start, t.back)
  {
    PairsMembership(outbound[iata], inbound[iata], WeekendMatch, t);
    assert EndOf(t.start) == iata && StartOf(t.back) == iata;
    PairedTrip(limit, p2a, a2p, starts, backs, iata, t);
  }

  /** The trip of a weekend pair is paired from its away airport's groups of selected legs. */
  lemma FoundPair(limit: int, p2a: seq<FlightInfo>, a2p: seq<FlightInfo>, starts: seq<FlightInfo>, backs: seq<FlightInfo>,
                  outbound: map<string, seq<FlightInfo>>, inbound: map<string, seq<FlightInfo>>, s: FlightInfo, b: FlightInfo)
    requires LegsCover(p2a, StartWeekdays, limit, starts) && LegsCover(a2p, EndWeekdays, limit, backs)
    requires GroupMembers(outbound, starts, EndOf) && GroupMembers(inbound, backs, StartOf)
    requires AllConverted(outbound) && AllConverted(inbound)
    requires WeekendPair(limit, p2a, a2p, s, b)
    ensures s.end in outbound && s.end in inbound
    ensures TripOf(s, b) in Pairs(outbound[s.end], inbound[s.end], WeekendMatch)
  {
    PairSelected(limit, p2a, a2p, starts, backs, s, b);
    assert EndOf(s) in outbound && s in outbound[EndOf(s)];
    assert StartOf(b) in inbound && b in inbound[StartOf(b)];
    PairsMembership(outbound[s.end], inbound[s.end], WeekendMatch, TripOf(s, b));
  }

  /** `_find_available_trips` on the selected, grouped legs yields exactly the weekend pairs' trips. */
  lemma FoundPairs(limit: int, p2a: seq<FlightInfo>, a2p: seq<FlightInfo>, starts: seq<FlightInfo>, backs: seq<FlightInfo>,
                   outbound: map<string, seq<FlightInfo>>, inbound: map<string, seq<FlightInfo>>, found: TripsDict)
    requires LegsFrom(p2a, StartWeekdays, limit, starts) && LegsFrom(a2p, EndWeekdays, limit, backs)
    requires LegsCover(p2a, StartWeekdays, limit, starts) && LegsCover(a2p, EndWeekdays, limit, backs)
    requires GroupMembers(outbound, starts, EndOf) && GroupMembers(inbound, backs, StartOf)
    requires AllConverted(outbound) && AllConverted(inbound)
    requires forall iata :: iata in found <==>
      iata in outbound && iata in inbound && Pairs(outbound[iata], inbound[iata], WeekendMatch) != []
    requires forall iata | iata in found ::
      multiset(found[iata]) == multiset(Pairs(outbound[iata], inbound[iata], WeekendMatch))
    ensures PairTrips(limit, p2a, a2p, found)
    ensures AllPairTrips(limit, p2a, a2p, found)
  {
    forall iata, i | iata in found && 0 <= i < |found[iata]|
      ensures WeekendPair(limit, p2a, a2p, found[iata][i].start, found[iata][i].back)
      ensures found[iata][i].start.end == iata
      ensures found[iata][i] == TripOf(found[iata][i].start, found[iata][i].back)
    {
      assert found[iata][i] in multiset(found[iata]);
      FoundTrip(limit, p2a, a2p, starts, backs, outbound, inbound, iata, found[iata][i]);
    }
    forall s, b | s in p2a && b in a2p && WeekendPair(limit, p2a, a2p, s, b)
      ensures s.end in found && TripOf(s, b) in found[s.end]
    {
      FoundPair(limit, p2a, a2p, starts, backs, outbound, inbound, s, b);
      assert TripOf(s, b) in multiset(found[s.end]);
    }
  }

  /**
    * The matching half of `process_flights_info`: the weekday pre-filter
    * and the per-leg ceiling on both lists, grouping by away airport, and
    * `_find_available_trips`.
    */
  method MatchWeekendLegs(limit: int, p2a: seq<FlightInfo>, a2p: seq<FlightInfo>) returns (found: TripsDict)
    requires Converted(p2a) && Converted(a2p)
    ensures PairTrips(limit, p2a, a2p, found)
    ensures AllPairTrips(limit, p2a, a2p, found)
    ensures forall iata | iata in found :: SortedBy(found[iata], Total, IntLe)
  {
    SelectLegs(p2a, StartWeekdays, limit);
    SelectLegs(a2p, EndWeekdays, limit);
    var starts := FilterByPrice(FilterByWeekdays(p2a, StartWeekdays), limit);
    var backs := FilterByPrice(FilterByWeekdays(a2p, EndWeekdays), limit);
    var outbound := GroupFlightsByKey(starts, EndOf);
    var inbound := GroupFlightsByKey(backs, StartOf);
    GroupsConverted(starts, EndOf);
    GroupsConverted(backs, StartOf);
    found := FindAvailableTrips(outbound, inbound);
    GroupByMembers(starts, EndOf);
    GroupByMembers(backs, StartOf);
    FoundPairs(limit, p2a, a2p, starts, backs, outbound, inbound, found);
  }

  // ---------------------------------------------------------------------------
  // What the weekend processor offers

  /** The trips of an airport that the timing rule keeps and that cost less than the trip ceiling. */
  function OfferedOf(tt: Timetables, st: WeekendSettings, trips: seq<Trip>): seq<Trip> {
    Filter(Filter(trips, KeepRule(tt, st.maxStart, st.minTripHours)), UnderLimit(st.priceLimit))
  }

  /** The two filters after matching compose, airport by airport, into `OfferedOf`. */
  lemma OfferedAt(tt: Timetables, st: WeekendSettings, found: TripsDict, iata: string)
    ensures var result := TotalPriceFiltered(EnrichFiltered(tt, st.maxStart, st.minTripHours, found, found.Keys), st.priceLimit);
      && (iata in result <==> iata in found && OfferedOf(tt, st, found[iata]) != [])
      && (iata in result ==> result[iata] == OfferedOf(tt, st, found[iata]))
  {
    if iata in found {
      KeptTripsIsFilter(tt, st.maxStart, st.minTripHours, found[iata]);
    }
  }

  /** Every trip of `result` is a trip of `found`, under the same airport, that passes both filters. */
  predicate OfferedFromFound(st: WeekendSettings, tt: Timetables, found: TripsDict, result: TripsDict) {
    forall iata, i | iata in result && 0 <= i < |result[iata]| ::
      && iata in found && result[iata][i] in found[iata]
      && Keep(tt, st.maxStart, st.minTripHours, result[iata][i]) && result[iata][i].total < st.priceLimit
  }

  /**
    * The two filters after matching, on values: a trip survives the timing
    * rule and the trip ceiling iff it is kept and under the ceiling, and
    * each airport's list stays sorted.
    */
  lemma OfferedMembers(tt: Timetables, st: WeekendSettings, found: TripsDict)
    ensures var result := TotalPriceFiltered(EnrichFiltered(tt, st.maxStart, st.minTripHours, found, found.Keys), st.priceLimit);
      && OfferedFromFound(st, tt, found, result)
      && (forall iata, t | iata in found && t in found[iata] && Keep(tt, st.maxStart, st.minTripHours, t) && t.total < st.priceLimit ::
            iata in result && t in result[iata])
      && ((forall iata | iata in found :: SortedBy(found[iata], Total, IntLe)) ==>
            forall iata | iata in result :: SortedBy(result[iata], Total, IntLe))
  {
    var result := TotalPriceFiltered(EnrichFiltered(tt, st.maxStart, st.minTripHours, found, found.Keys), st.priceLimit);
    var keep := KeepRule(tt, st.maxStart, st.minTripHours);
    var under := UnderLimit(st.priceLimit);
    forall iata, i | iata in result && 0 <= i < |result[iata]|
      ensures && iata in found && result[iata][i] in found[iata]
              && Keep(tt, st.maxStart, st.minTripHours, result[iata][i]) && result[iata][i].total < st.priceLimit
    {
      var t := result[iata][i];
      assert t in result[iata];
      OfferedAt(tt, st, found, iata);
      FilterTwice(found[iata], keep, under, t);
    }
    forall iata, t | iata in found && t in found[iata] && Keep(tt, st.maxStart, st.minTripHours, t) && t.total < st.priceLimit
      ensures iata in result && t in result[iata]
    {
      OfferedAt(tt, st, found, iata);
      FilterTwice(found[iata], keep, under, t);
    }
    if forall iata | iata in found :: SortedBy(found[iata], Total, IntLe) {
      forall iata | iata in result ensures SortedBy(result[iata], Total, IntLe) {
        OfferedAt(tt, st, found, iata);
        FilterSorted(found[iata], keep, Total, IntLe);
        FilterSorted(Filter(found[iata], keep), under, Total, IntLe);
      }
    }
  }

  /** Both timetable lookups of every weekend pair's trip succeed. */
  predicate PairLookupsOk(tt: Timetables, limit: int, p2a: seq<FlightInfo>, a2p: seq<FlightInfo>)
    reads Flights(p2a)`price, Flights(a2p)`price
  {
    forall s, b | s in p2a && b in a2p && WeekendPair(limit, p2a, a2p, s, b) :: TripTimes(tt, TripOf(s, b)).Ok?
  }

  /** Every trip of `trips` passes the timing rule and the trip ceiling, and its legs carry their times. */
  predicate TimedUnder(st: WeekendSettings, tt: Timetables, trips: TripsDict)
    reads StartLegsIn(trips, trips.Keys)`startTime, BackLegsIn(trips, trips.Keys)`backTime
  {
    forall iata, i | iata in trips && 0 <= i < |trips[iata]| ::
      && Keep(tt, st.maxStart, st.minTripHours, trips[iata][i]) && trips[iata][i].total < st.priceLimit
      && HasStartTime(tt, trips[iata][i].start) && HasBackTime(tt, trips[iata][i].back)
  }

  /** Every weekend pair that passes the timing rule and the trip ceiling is in `trips`, under its away airport. */
  predicate OffersAll(st: WeekendSettings, tt: Timetables, p2a: seq<FlightInfo>, a2p: seq<FlightInfo>, trips: TripsDict)
    reads Flights(p2a)`price, Flights(a2p)`price
  {
    forall s, b | s in p2a && b in a2p && WeekendPair(st.priceLimit, p2a, a2p, s, b) &&
                  Keep(tt, st.maxStart, st.minTripHours, TripOf(s, b)) && TripOf(s, b).total < st.priceLimit ::
      s.end in trips && TripOf(s, b) in trips[s.end]
  }

  /** Both legs of every weekend pair carry their times, whether or not the pair's trip is kept. */
  predicate PairsTimed(tt: Timetables, limit: int, p2a: seq<FlightInfo>, a2p: seq<FlightInfo>)
    reads Flights(p2a)`price, Flights(a2p)`price, Flights(p2a)`startTime, Flights(a2p)`backTime
  {
    forall s, b | s in p2a && b in a2p && WeekendPair(limit, p2a, a2p, s, b) :: HasStartTime(tt, s) && HasBackTime(tt, b)
  }

  /** `f` is the outbound leg of no weekend pair: `_filter_and_enrich_trips` never writes its departure time. */
  predicate LoneStart(limit: int, p2a: seq<FlightInfo>, a2p: seq<FlightInfo>, f: FlightInfo)
    reads f`price, Flights(a2p)`price
  {
    forall b | b in a2p :: !WeekendPair(limit, p2a, a2p, f, b)
  }

  /** `f` is the return leg of no weekend pair: `_filter_and_enrich_trips` never writes its return time. */
  predicate LoneBack(limit: int, p2a: seq<FlightInfo>, a2p: seq<FlightInfo>, f: FlightInfo)
    reads f`price, Flights(p2a)`price
  {
    forall s | s in p2a :: !WeekendPair(limit, p2a, a2p, s, f)
  }

  /** The legs of the weekend pairs' trips are legs of weekend pairs. */
  lemma PairedLegs(limit: int, p2a: seq<FlightInfo>, a2p: seq<FlightInfo>, trips: TripsDict)
    requires PairTrips(limit, p2a, a2p, trips)
    ensures forall f | f in StartLegsIn(trips, trips.Keys) :: !LoneStart(limit, p2a, a2p, f)
    ensures forall f | f in BackLegsIn(trips, trips.Keys) :: !LoneBack(limit, p2a, a2p, f)
  {
    forall f | f in StartLegsIn(trips, trips.Keys) ensures !LoneStart(limit, p2a, a2p, f) {
      var iata, i :| iata in trips && 0 <= i < |trips[iata]| && trips[iata][i].start == f;
      assert trips[iata][i].back in a2p && WeekendPair(limit, p2a, a2p, f, trips[iata][i].back);
    }
    forall f | f in BackLegsIn(trips, trips.Keys) ensures !LoneBack(limit, p2a, a2p, f) {
      var iata, i :| iata in trips && 0 <= i < |trips[iata]| && trips[iata][i].back == f;
      assert trips[iata][i].start in p2a && WeekendPair(limit, p2a, a2p, trips[iata][i].start, f);
    }
  }

  /** When `trips` holds exactly the weekend pairs' trips, its lookups all succeed iff every weekend pair's do. */
  lemma LookupsAgree(tt: Timetables, limit: int, p2a: seq<FlightInfo>, a2p: seq<FlightInfo>, trips: TripsDict)
    requires PairTrips(limit, p2a, a2p, trips) && AllPairTrips(limit, p2a, a2p, trips)
    ensures LookupsOkIn(tt, trips, trips.Keys) <==> PairLookupsOk(tt, limit, p2a, a2p)
  {
    if LookupsOkIn(tt, trips, trips.Keys) {
      forall s, b | s in p2a && b in a2p && WeekendPair(limit, p2a, a2p, s, b) ensures TripTimes(tt, TripOf(s, b)).Ok? {
        var i :| 0 <= i < |trips[s.end]| && trips[s.end][i] == TripOf(s, b);
        assert LookupsOk(tt, trips[s.end]);
      }
    }
    if PairLookupsOk(tt, limit, p2a, a2p) {
      forall iata | iata in trips ensures LookupsOk(tt, trips[iata]) {
        forall i | 0 <= i < |trips[iata]| ensures TripTimes(tt, trips[iata][i]).Ok? {
          var t := trips[iata][i];
          assert WeekendPair(limit, p2a, a2p, t.start, t.back) && t == TripOf(t.start, t.back);
        }
      }
    }
  }

  /** The legs of the weekend pairs' trips come from the two input lists. */
  lemma PairLegs(limit: int, p2a: seq<FlightInfo>, a2p: seq<FlightInfo>, trips: TripsDict)
    requires PairTrips(limit, p2a, a2p, trips)
    ensures StartLegsIn(trips, trips.Keys) <= Flights(p2a)
    ensures BackLegsIn(trips, trips.Keys) <= Flights(a2p)
  {
    forall f | f in StartLegsIn(trips, trips.Keys) ensures f in Flights(p2a) {
      var iata, i :| iata in trips && 0 <= i < |trips[iata]| && trips[iata][i].start == f;
    }
    forall f | f in BackLegsIn(trips, trips.Keys) ensures f in Flights(a2p) {
      var iata, i :| iata in trips && 0 <= i < |trips[iata]| && trips[iata][i].back == f;
    }
  }

  /** A lookup error of a matched trip is a lookup error of a weekend pair. */
  lemma PairLookupError(tt: Timetables, limit: int, p2a: seq<FlightInfo>, a2p: seq<FlightInfo>, trips: TripsDict, e: Error)
    requires PairTrips(limit, p2a, a2p, trips)
    requires exists iata, i | iata in trips && 0 <= i < |trips[iata]| :: TripTimes(tt, trips[iata][i]) == Err(e)
    ensures exists s, b | s in p2a && b in a2p && WeekendPair(limit, p2a, a2p, s, b) :: TripTimes(tt, TripOf(s, b)) == Err(e)
  {
    var iata, i :| iata in trips && 0 <= i < |trips[iata]| && TripTimes(tt, trips[iata][i]) == Err(e);
    var t := trips[iata][i];
    assert WeekendPair(limit, p2a, a2p, t.start, t.back) && t == TripOf(t.start, t.back);
  }

  /** Enriching the weekend pairs' trips gives every weekend pair's legs their times. */
  lemma PairsTimedFrom(tt: Timetables, limit: int, p2a: seq<FlightInfo>, a2p: seq<FlightInfo>, trips: TripsDict)
    requires AllPairTrips(limit, p2a, a2p, trips)
    requires StartTimesKnown(tt, StartLegsIn(trips, trips.Keys)) && BackTimesKnown(tt, BackLegsIn(trips, trips.Keys))
    ensures PairsTimed(tt, limit, p2a, a2p)
  {
    forall s, b | s in p2a && b in a2p && WeekendPair(limit, p2a, a2p, s, b) ensures HasStartTime(tt, s) && HasBackTime(tt, b) {
      var i :| 0 <= i < |trips[s.end]| && trips[s.end][i] == TripOf(s, b);
      assert s in StartLegsIn(trips, trips.Keys) && b in BackLegsIn(trips, trips.Keys);
    }
  }

  /** The offered trips are weekend pairs' trips that pass both filters, with both legs timed. */
  lemma OfferedSound(st: WeekendSettings, tt: Timetables, p2a: seq<FlightInfo>, a2p: seq<FlightInfo>, found: TripsDict, result: TripsDict)
    requires PairTrips(st.priceLimit, p2a, a2p, found)
    requires StartTimesKnown(tt, StartLegsIn(found, found.Keys)) && BackTimesKnown(tt, BackLegsIn(found, found.Keys))
    requires OfferedFromFound(st, tt, found, result)
    ensures PairTrips(st.priceLimit, p2a, a2p, result)
    ensures TimedUnder(st, tt, result)
  {
    forall iata, i | iata in result && 0 <= i < |result[iata]|
      ensures WeekendPair(st.priceLimit, p2a, a2p, result[iata][i].start, result[iata][i].back)
      ensures result[iata][i].start.end == iata && result[iata][i] == TripOf(result[iata][i].start, result[iata][i].back)
      ensures HasStartTime(tt, result[iata][i].start) && HasBackTime(tt, result[iata][i].back)
    {
      var t := result[iata][i];
      var j :| 0 <= j < |found[iata]| && found[iata][j] == t;
      assert t.start in StartLegsIn(found, found.Keys) && t.back in BackLegsIn(found, found.Keys);
    }
  }

  /** Every weekend pair whose trip passes both filters is offered. */
  lemma OfferedComplete(st: WeekendSettings, tt: Timetables, p2a: seq<FlightInfo>, a2p: seq<FlightInfo>, found: TripsDict, result: TripsDict)
    requires AllPairTrips(st.priceLimit, p2a, a2p, found)
    requires forall iata, t | iata in found && t in found[iata] && Keep(tt, st.maxStart, st.minTripHours, t) && t.total < st.priceLimit ::
      iata in result && t in result[iata]
    ensures OffersAll(st, tt, p2a, a2p, result)
  {
  }

  /** The last two stages applied to the weekend pairs' enriched trips offer exactly the trips that pass both filters. */
  lemma OfferedFrom(st: WeekendSettings, tt: Timetables, p2a: seq<FlightInfo>, a2p: seq<FlightInfo>,
                    found: TripsDict, enriched: TripsDict, result: TripsDict)
    requires PairTrips(st.priceLimit, p2a, a2p, found) && AllPairTrips(st.priceLimit, p2a, a2p, found)
    requires forall iata | iata in found :: SortedBy(found[iata], Total, IntLe)
    requires StartTimesKnown(tt, StartLegsIn(found, found.Keys)) && BackTimesKnown(tt, BackLegsIn(found, found.Keys))
    requires enriched == EnrichFiltered(tt, st.maxStart, st.minTripHours, found, found.Keys)
    requires result == TotalPriceFiltered(enriched, st.priceLimit)
    ensures PairTrips(st.priceLimit, p2a, a2p, result) && TimedUnder(st, tt, result)
    ensures OffersAll(st, tt, p2a, a2p, result)
    ensures forall iata | iata in result :: SortedBy(result[iata], Total, IntLe)
    ensures PairsTimed(tt, st.priceLimit, p2a, a2p)
  {
    OfferedMembers(tt, st, found);
    OfferedSound(st, tt, p2a, a2p, found, result);
    OfferedComplete(st, tt, p2a, a2p, found, result);
    PairsTimedFrom(tt, st.priceLimit, p2a, a2p, found);
  }

  /**
    * `_filter_and_enrich_trips` on the weekend pairs' trips, given the sets
    * of their outbound and return legs: the lookups and the result.
    */
  method EnrichPairLegs(st: WeekendSettings, tt: Timetables, p2a: seq<FlightInfo>, a2p: seq<FlightInfo>, found: TripsDict,
                        ghost starts: set<FlightInfo>, ghost backs: set<FlightInfo>)
    returns (r: Result<TripsDict, Error>)
    requires PairTrips(st.priceLimit, p2a, a2p, found)
    requires starts == StartLegsIn(found, found.Keys) && backs == BackLegsIn(found, found.Keys)
    modifies starts`startTime, backs`backTime
    ensures r.Ok? <==> LookupsOkIn(tt, found, found.Keys)
    ensures r.Ok? ==> r.value == EnrichFiltered(tt, st.maxStart, st.minTripHours, found, found.Keys)
    ensures r.Ok? ==> StartTimesKnown(tt, starts) && BackTimesKnown(tt, backs)
    ensures r.Err? ==>
      exists s, b | s in p2a && b in a2p && WeekendPair(st.priceLimit, p2a, a2p, s, b) :: TripTimes(tt, TripOf(s, b)) == Err(r.error)
  {
    r := FilterAndEnrich(tt, st.maxStart, st.minTripHours, found, starts, backs);
    if r.Err? {
      PairLookupError(tt, st.priceLimit, p2a, a2p, found, r.error);
    }
  }

  /**
    * `_filter_and_enrich_trips` on the weekend pairs' trips: it writes the
    * times of their legs only, so a leg of no weekend pair keeps its times.
    */
  method EnrichPairs(st: WeekendSettings, tt: Timetables, p2a: seq<FlightInfo>, a2p: seq<FlightInfo>, found: TripsDict)
    returns (r: Result<TripsDict, Error>)
    requires PairTrips(st.priceLimit, p2a, a2p, found)
    modifies Flights(p2a)`startTime, Flights(a2p)`backTime
    ensures r.Ok? <==> LookupsOkIn(tt, found, found.Keys)
    ensures r.Ok? ==> r.value == EnrichFiltered(tt, st.maxStart, st.minTripHours, found, found.Keys)
    ensures r.Ok? ==> StartTimesKnown(tt, StartLegsIn(found, found.Keys)) && BackTimesKnown(tt, BackLegsIn(found, found.Keys))
    ensures r.Err? ==>
      exists s, b | s in p2a && b in a2p && WeekendPair(st.priceLimit, p2a, a2p, s, b) :: TripTimes(tt, TripOf(s, b)) == Err(r.error)
    ensures forall f | f in Flights(p2a) && LoneStart(st.priceLimit, p2a, a2p, f) :: f.startTime == old(f.startTime)
    ensures forall f | f in Flights(a2p) && LoneBack(st.priceLimit, p2a, a2p, f) :: f.backTime == old(f.backTime)
  {
    PairLegs(st.priceLimit, p2a, a2p, found);
    ghost var starts, backs := StartLegsIn(found, found.Keys), BackLegsIn(found, found.Keys);
    r := EnrichPairLegs(st, tt, p2a, a2p, found, starts, backs);
    PairedLegs(st.priceLimit, p2a, a2p, found);
  }

  /**
    * The last two stages of `process_flights_info` on the weekend pairs'
    * trips: enrich and filter them, then apply the trip ceiling. Only the
    * times of the weekend pairs' legs change; a KeyError of a lookup aborts.
    */
  method EnrichAndLimit(st: WeekendSettings, tt: Timetables, p2a: seq<FlightInfo>, a2p: seq<FlightInfo>, found: TripsDict)
    returns (r: Result<TripsDict, Error>)
    requires PairTrips(st.priceLimit, p2a, a2p, found) && AllPairTrips(st.priceLimit, p2a, a2p, found)
    requires forall iata | iata in found :: SortedBy(found[iata], Total, IntLe)
    modifies Flights(p2a)`startTime, Flights(a2p)`backTime
    ensures r.Ok? <==> LookupsOkIn(tt, found, found.Keys)
    ensures r.Ok? ==> PairTrips(st.priceLimit, p2a, a2p, r.value) && TimedUnder(st, tt, r.value)
    ensures r.Ok? ==> OffersAll(st, tt, p2a, a2p, r.value)
    ensures r.Ok? ==> forall iata | iata in r.value :: SortedBy(r.value[iata], Total, IntLe)
    ensures r.Ok? ==> PairsTimed(tt, st.priceLimit, p2a, a2p)
    ensures r.Err? ==>
      exists s, b | s in p2a && b in a2p && WeekendPair(st.priceLimit, p2a, a2p, s, b) :: TripTimes(tt, TripOf(s, b)) == Err(r.error)
    ensures forall f | f in Flights(p2a) && LoneStart(st.priceLimit, p2a, a2p, f) :: f.startTime == old(f.startTime)
    ensures forall f | f in Flights(a2p) && LoneBack(st.priceLimit, p2a, a2p, f) :: f.backTime == old(f.backTime)
  {
    var enriched := EnrichPairs(st, tt, p2a, a2p, found);
    if enriched.Err? {
      return Err(enriched.error);
    }
    assert PairTrips(st.priceLimit, p2a, a2p, found) && AllPairTrips(st.priceLimit, p2a, a2p, found);
    var result := FilterByTotalPrice(enriched.value, st.priceLimit);
    OfferedFrom(st, tt, p2a, a2p, found, enriched.value, result);
    r := Ok(result);
  }

  /**
    * The stages of `process_flights_info` after price conversion: pre-filter
    * by weekday, apply the per-leg ceiling, group by away airport, match,
    * enrich and filter, and apply the trip ceiling.
    */
  method SelectWeekendTrips(st: WeekendSettings, tt: Timetables, p2a: seq<FlightInfo>, a2p: seq<FlightInfo>)
    returns (r: Result<TripsDict, Error>)
    requires Converted(p2a) && Converted(a2p)
    modifies Flights(p2a)`startTime, Flights(a2p)`backTime
    ensures r.Ok? <==> PairLookupsOk(tt, st.priceLimit, p2a, a2p)
    ensures r.Ok? ==> PairTrips(st.priceLimit, p2a, a2p, r.value) && TimedUnder(st, tt, r.value)
    ensures r.Ok? ==> OffersAll(st, tt, p2a, a2p, r.value)
    ensures r.Ok? ==> forall iata | iata in r.value :: SortedBy(r.value[iata], Total, IntLe)
    ensures r.Ok? ==> PairsTimed(tt, st.priceLimit, p2a, a2p)
    ensures r.Err? ==>
      exists s, b | s in p2a && b in a2p && WeekendPair(st.priceLimit, p2a, a2p, s, b) :: TripTimes(tt, TripOf(s, b)) == Err(r.error)
    ensures forall f | f in Flights(p2a) && LoneStart(st.priceLimit, p2a, a2p, f) :: f.startTime == old(f.startTime)
    ensures forall f | f in Flights(a2p) && LoneBack(st.priceLimit, p2a, a2p, f) :: f.backTime == old(f.backTime)
  {
    var found := MatchWeekendLegs(st.priceLimit, p2a, a2p);
    LookupsAgree(tt, st.priceLimit, p2a, a2p, found);
    r := EnrichAndLimit(st, tt, p2a, a2p, found);
  }

  /**
    * `process_flights_info` minus the rendering: convert the prices of both
    * lists (one pass over their concatenation, as the two calls stop at the
    * same first bad price), then select the trips. It fails with the
    * ValueError of the first price that fails or, when every price converts,
    * with the KeyError of a weekend pair's lookup (which one depends on the
    * dictionary's order, not modelled).
    */
  method ProcessWeekends(st: WeekendSettings, tt: Timetables, p2a: seq<FlightInfo>, a2p: seq<FlightInfo>)
    returns (r: Result<TripsDict, Error>)
    modifies Flights(p2a + a2p)`price, Flights(p2a)`startTime, Flights(a2p)`backTime
    ensures r.Ok? <==> old(AllPricesConvert(p2a + a2p)) && PairLookupsOk(tt, st.priceLimit, p2a, a2p)
    ensures old(AllPricesConvert(p2a + a2p)) ==> ConvertedFromOld(p2a + a2p)
    ensures r.Ok? ==> PairTrips(st.priceLimit, p2a, a2p, r.value) && TimedUnder(st, tt, r.value)
    ensures r.Ok? ==> OffersAll(st, tt, p2a, a2p, r.value)
    ensures r.Ok? ==> forall iata | iata in r.value :: SortedBy(r.value[iata], Total, IntLe)
    ensures r.Ok? ==> PairsTimed(tt, st.priceLimit, p2a, a2p)
    ensures !old(AllPricesConvert(p2a + a2p)) ==>
      && r.Err? && (exists i :: StoppedAt(p2a + a2p, i, r.error))
      && forall f | f in Flights(p2a + a2p) :: f.startTime == old(f.startTime) && f.backTime == old(f.backTime)
    ensures r.Err? && old(AllPricesConvert(p2a + a2p)) ==>
      exists s, b | s in p2a && b in a2p && WeekendPair(st.priceLimit, p2a, a2p, s, b) :: TripTimes(tt, TripOf(s, b)) == Err(r.error)
    ensures forall f | f in Flights(p2a) && LoneStart(st.priceLimit, p2a, a2p, f) :: f.startTime == old(f.startTime)
    ensures forall f | f in Flights(a2p) && LoneBack(st.priceLimit, p2a, a2p, f) :: f.backTime == old(f.backTime)
  {
    var converted := ConvertPrices(p2a + a2p);
    if converted.Err? {
      return Err(converted.error);
    }
    ConvertedSplit(p2a, a2p);
    r := SelectWeekendTrips(st, tt, p2a, a2p);
  }

  /**
    * No weekend trip returns on a Tuesday when both legs carry their
    * adjusted week and lie less than 360 days apart: a Tuesday shares its
    * week number only with the Friday and Saturday after it.
    */
  lemma NoTuesdayReturn(limit: int, p2a: seq<FlightInfo>, a2p: seq<FlightInfo>, s: FlightInfo, b: FlightInfo)
    requires WeekendPair(limit, p2a, a2p, s, b)
    requires 2 <= s.date && b.date < s.date + 360
    requires s.week == WeekNumber(s.date) && b.week == WeekNumber(b.date)
    ensures Weekday(b.date) != 1
  {
    if Weekday(b.date) == 1 {
      NoTuesdayInStartWeek(s.date, b.date);
    }
  }
}
