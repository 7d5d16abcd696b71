/**
  * The data half of every `_format_trips_to_html`: which destinations are
  * listed and in what order, which trips each lists (duplicates by `str`
  * removed) and in what order. The HTML itself is not modelled; trips are
  * taken as snapshots of their field values, which is what `str` prints.
  */
module Listing {
  import opened Wrappers
  import opened Seqs
  import opened Text
  import opened Calendar
  import opened Models
  import opened Timetable

  // ---------------------------------------------------------------------------
  // Snapshots

  /** The field values of a `FlightInfo`, all of which its dataclass `repr` prints. */
  datatype FlightRecord = FlightRecord(
    start: string, startName: string, end: string, endName: string, date: Date,
    price: Price, week: int, startTime: Option<Time>, backTime: Option<Time>)

  /**
    * A trip as `str` prints it: both legs' fields and the total. Two trips
    * print the same text exactly when their records are equal.
    */
  datatype TripRecord = TripRecord(start: FlightRecord, back: FlightRecord, total: int)

  function RecordOf(f: FlightInfo): (r: FlightRecord)
    reads f
    ensures r.start == f.start && r.startName == f.startName && r.end == f.end && r.endName == f.endName
    ensures r.date == f.date && r.price == f.price && r.week == f.week
    ensures r.startTime == f.startTime && r.backTime == f.backTime
  {
    FlightRecord(f.start, f.startName, f.end, f.endName, f.date, f.price, f.week, f.startTime, f.backTime)
  }

  function TripRecordOf(t: Trip): (r: TripRecord)
    reads t.start, t.back
    ensures r.start == RecordOf(t.start) && r.back == RecordOf(t.back) && r.total == t.total
  {
    TripRecord(RecordOf(t.start), RecordOf(t.back), t.total)
  }

  /** The records of a list of trips, in order. */
  function Snapshot(trips: seq<Trip>): (r: seq<TripRecord>)
    reads set i | 0 <= i < |trips| :: trips[i].start
    reads set i | 0 <= i < |trips| :: trips[i].back
    ensures |r| == |trips| && forall i | 0 <= i < |trips| :: r[i] == TripRecordOf(trips[i])
  {
    seq(|trips|, i reads if 0 <= i < |trips| then {trips[i].start, trips[i].back} else {} requires 0 <= i < |trips| => TripRecordOf(trips[i]))
  }

  /** The nine fields of two flights agree. */
  predicate SameFields(f: FlightInfo, g: FlightInfo)
    reads f, g
  {
    && f.start == g.start && f.startName == g.startName && f.end == g.end && f.endName == g.endName
    && f.date == g.date && f.price == g.price && f.week == g.week
    && f.startTime == g.startTime && f.backTime == g.backTime
  }

  /**
    * `str(t) == str(u)` exactly when the totals and all nine fields of both
    * legs agree, so de-duplicating by text is de-duplicating by record.
    */
  lemma SameText(t: Trip, u: Trip)
    ensures TripRecordOf(t) == TripRecordOf(u) <==>
      t.total == u.total && SameFields(t.start, u.start) && SameFields(t.back, u.back)
  {
  }

  /** The rows a formatter works on: each airport's trips of a processor's result, as records, in order. */
  function Rows(trips: TripsDict): (r: map<string, seq<TripRecord>>)
    reads set k, i | k in trips && 0 <= i < |trips[k]| :: trips[k][i].start
    reads set k, i | k in trips && 0 <= i < |trips[k]| :: trips[k][i].back
    ensures r.Keys == trips.Keys
    ensures forall k | k in trips :: |r[k]| == |trips[k]|
    ensures forall k, i | k in trips && 0 <= i < |trips[k]| :: r[k][i] == TripRecordOf(trips[k][i])
  {
    map k | k in trips :: Snapshot(trips[k])
  }

  function RecordTotal(t: TripRecord): int {
    t.total
  }

  // ---------------------------------------------------------------------------
  // One list of trips

  /**
    * `list({str(t): t for t in trips}.values())` sorted by `total_price`:
    * the dictionary keeps each text at its first position, then a stable
    * sort by total.
    */
  function UniqueByTotal(rows: seq<TripRecord>): seq<TripRecord> {
    SortBy(Dedup(rows), RecordTotal, IntLe)
  }

  /**
    * The trips listed for a list: ordered by total, each text once, and
    * exactly the trips of the list; the first is the cheapest.
    */
  lemma UniqueByTotalSpec(rows: seq<TripRecord>)
    ensures SortedBy(UniqueByTotal(rows), RecordTotal, IntLe)
    ensures NoDup(UniqueByTotal(rows))
    ensures forall x :: x in UniqueByTotal(rows) <==> x in rows
    ensures |UniqueByTotal(rows)| <= |rows|
    ensures rows != [] ==> UniqueByTotal(rows) != [] && forall x | x in rows :: UniqueByTotal(rows)[0].total <= x.total
  {
    var d := Dedup(rows);
    var r := UniqueByTotal(rows);
    IntLeTotalOrder();
    SortByFacts(d, RecordTotal, IntLe);
    NoDupPermutation(d, r);
    forall x ensures x in r <==> x in rows {
      assert x in r <==> x in multiset(r);
      assert x in d <==> x in multiset(d);
    }
    assert |r| == |multiset(r)| == |multiset(d)| == |d|;
    if rows != [] {
      assert rows[0] in r;
      CheapestFirst(r);
    }
  }

  /** In a list sorted by total, the first trip is the cheapest. */
  lemma CheapestFirst(rows: seq<TripRecord>)
    requires rows != [] && SortedBy(rows, RecordTotal, IntLe)
    ensures forall x | x in rows :: rows[0].total <= x.total
  {
    forall x | x in rows ensures rows[0].total <= x.total {
      var j :| 0 <= j < |rows| && rows[j] == x;
      if j > 0 {
        assert IntLe(RecordTotal(rows[0]), RecordTotal(rows[j]));
      }
    }
  }

  /** De-duplicating an already duplicate-free sorted list changes nothing. */
  lemma UniqueByTotalOfSorted(rows: seq<TripRecord>)
    requires NoDup(rows) && SortedBy(rows, RecordTotal, IntLe)
    ensures UniqueByTotal(rows) == rows
  {
    DedupOfNoDup(rows);
    IntLeTotalOrder();
    SortBySorted(rows, RecordTotal, IntLe);
  }

  /** `t.strftime("%H:%M") if t else "N/A"`: a missing time shows as "N/A". */
  function ShownTime(t: Option<Time>): string {
    if t.Some? then FormatTime(t.value) else "N/A"
  }

  /** "N/A" is shown exactly for a missing time, and a shown time reads back as itself. */
  lemma ShownTimeSpec(t: Option<Time>)
    ensures ShownTime(t) == "N/A" <==> t.None?
    ensures t.Some? ==> ParseTime(ShownTime(t)) == Ok(t.value)
  {
    if t.Some? {
      assert |FormatTime(t.value)| == 5;
      ParseFormattedTime(t.value);
    }
  }

  // ---------------------------------------------------------------------------
  // Destinations

  /** One `(iata, trips)` item of a trip dictionary. */
  type Item = (string, seq<TripRecord>)

  /** `items` are the items of `rows`, in some order: each key once, with its list. */
  predicate ItemsOf(items: seq<Item>, rows: map<string, seq<TripRecord>>) {
    && (forall i | 0 <= i < |items| :: items[i].0 in rows && rows[items[i].0] == items[i].1)
    && (forall k | k in rows :: exists i | 0 <= i < |items| :: items[i].0 == k)
    && (forall i, j | 0 <= i < j < |items| :: items[i].0 != items[j].0)
  }

  /** `d` lists the airports of `rows` that have a trip: each exactly once, with its own list. */
  predicate ListsNonEmpty(d: seq<Item>, rows: map<string, seq<TripRecord>>) {
    && (forall i | 0 <= i < |d| :: d[i].0 in rows && d[i].1 == rows[d[i].0] && d[i].1 != [])
    && (forall k | k in rows && rows[k] != [] :: exists i | 0 <= i < |d| :: d[i].0 == k)
    && (forall i, j | 0 <= i < j < |d| :: d[i].0 != d[j].0)
  }

  /** The sort key of a destination: the away airport's name on its first trip, or "" for an empty list. */
  function DestinationKey(item: Item): string {
    if item.1 != [] then item.1[0].start.endName else ""
  }

  predicate NonEmpty(item: Item) {
    item.1 != []
  }

  /** `sorted(trips.items(), key=DestinationKey)`, skipping the empty lists. */
  function Destinations(items: seq<Item>): seq<Item> {
    Filter(SortBy(items, DestinationKey, StrLe), NonEmpty)
  }

  /** Any list holding exactly the non-empty items, once each, lists the airports with a trip once each. */
  lemma NonEmptyItems(items: seq<Item>, rows: map<string, seq<TripRecord>>, d: seq<Item>)
    requires ItemsOf(items, rows)
    requires forall x :: multiset(d)[x] == if NonEmpty(x) then multiset(items)[x] else 0
    ensures ListsNonEmpty(d, rows)
  {
    assert NoDup(items);
    forall x ensures multiset(d)[x] <= 1 {
      NoDupCount(items, x);
    }
    CountsNoDup(d);
    forall i | 0 <= i < |d| ensures d[i] in items && NonEmpty(d[i]) {
      assert d[i] in multiset(d);
    }
    forall k | k in rows && rows[k] != [] ensures exists i | 0 <= i < |d| :: d[i].0 == k {
      var j :| 0 <= j < |items| && items[j].0 == k;
      assert items[j] in multiset(items);
      assert items[j] in multiset(d);
      var i :| 0 <= i < |d| && d[i] == items[j];
    }
  }

  /**
    * The destinations listed: ordered by name, each airport that has a
    * trip exactly once, with its own list.
    */
  lemma DestinationsSpec(items: seq<Item>, rows: map<string, seq<TripRecord>>)
    requires ItemsOf(items, rows)
    ensures SortedBy(Destinations(items), DestinationKey, StrLe)
    ensures ListsNonEmpty(Destinations(items), rows)
  {
    var sorted := SortBy(items, DestinationKey, StrLe);
    var d := Destinations(items);
    StrLeTotalOrder();
    SortByFacts(items, DestinationKey, StrLe);
    FilterSorted(sorted, NonEmpty, DestinationKey, StrLe);
    forall x ensures multiset(d)[x] == if NonEmpty(x) then multiset(items)[x] else 0 {
      FilterCount(sorted, NonEmpty, x);
    }
    NonEmptyItems(items, rows, d);
  }

  // ---------------------------------------------------------------------------
  // The duration listing

  /** One destination of the duration page: name, code, lowest total and the unique trips by total. */
  datatype DurationEntry = DurationEntry(name: string, iata: string, lowest: int, trips: seq<TripRecord>)

  /** The entry of a non-empty destination: its name and lowest price are read off the first unique trip. */
  function DurationEntryOf(item: Item): DurationEntry
    requires item.1 != []
  {
    var unique := UniqueByTotal(item.1);
    UniqueByTotalSpec(item.1);
    DurationEntry(unique[0].start.endName, item.0, unique[0].total, unique)
  }

  /** The data of the duration page (`_format_trips_to_html` of the duration processors). */
  function DurationListing(items: seq<Item>): seq<DurationEntry> {
    var d := Destinations(items);
    assert forall i | 0 <= i < |d| :: NonEmpty(d[i]);
    seq(|d|, i requires 0 <= i < |d| => DurationEntryOf(d[i]))
  }

  /** A duration entry shows the trips of its airport once each, cheapest first, and the cheapest total as its lowest. */
  predicate DurationEntryShows(e: DurationEntry, rows: map<string, seq<TripRecord>>) {
    && e.iata in rows
    && SortedBy(e.trips, RecordTotal, IntLe) && NoDup(e.trips)
    && (forall x | x in e.trips :: x in rows[e.iata]) && (forall x | x in rows[e.iata] :: x in e.trips)
    && (forall x | x in rows[e.iata] :: e.lowest <= x.total)
    && (exists x | x in rows[e.iata] :: e.lowest == x.total)
    && e.trips != [] && e.name == e.trips[0].start.endName && e.lowest == e.trips[0].total
  }

  /** The entry of one airport with a trip shows that airport's trips. */
  lemma DurationEntryOfShows(item: Item, rows: map<string, seq<TripRecord>>)
    requires item.0 in rows && rows[item.0] == item.1 && item.1 != []
    ensures DurationEntryShows(DurationEntryOf(item), rows)
  {
    var e := DurationEntryOf(item);
    UniqueByTotalSpec(item.1);
    assert e.trips[0] in item.1;
  }

  /**
    * The duration page lists every destination with a trip once, in name
    * order, and each entry shows its trips as DurationEntryShows says.
    */
  lemma DurationListingSpec(items: seq<Item>, rows: map<string, seq<TripRecord>>)
    requires ItemsOf(items, rows)
    ensures forall k | k in rows && rows[k] != [] :: exists i | 0 <= i < |DurationListing(items)| :: DurationListing(items)[i].iata == k
    ensures forall i, j | 0 <= i < j < |DurationListing(items)| :: DurationListing(items)[i].iata != DurationListing(items)[j].iata
    ensures forall i | 0 <= i < |DurationListing(items)| :: DurationEntryShows(DurationListing(items)[i], rows)
  {
    DestinationsSpec(items, rows);
    var d := Destinations(items);
    var l := DurationListing(items);
    forall i | 0 <= i < |d| ensures DurationEntryShows(l[i], rows) {
      DurationEntryOfShows(d[i], rows);
    }
    forall k | k in rows && rows[k] != [] ensures exists i | 0 <= i < |l| :: l[i].iata == k {
      var i :| 0 <= i < |d| && d[i].0 == k;
      assert l[i].iata == k;
    }
  }

  // ---------------------------------------------------------------------------
  // The weekend listing

  function StartWeek(t: TripRecord): int {
    t.start.week
  }

  function WeekKeys(rows: seq<TripRecord>): seq<int> {
    seq(|rows|, i requires 0 <= i < |rows| => StartWeek(rows[i]))
  }

  function Identity(w: int): int {
    w
  }

  /** `sorted(by_week)`: the distinct outbound weeks of a list, ascending. */
  function Weeks(rows: seq<TripRecord>): seq<int> {
    SortBy(Dedup(WeekKeys(rows)), Identity, IntLe)
  }

  /** The weeks of a list: strictly ascending, and exactly the outbound weeks of its trips. */
  lemma WeeksSpec(rows: seq<TripRecord>)
    ensures forall i, j | 0 <= i < j < |Weeks(rows)| :: Weeks(rows)[i] < Weeks(rows)[j]
    ensures forall w :: w in Weeks(rows) <==> exists x | x in rows :: x.start.week == w
  {
    var ws := WeekKeys(rows);
    var d := Dedup(ws);
    var weeks := Weeks(rows);
    IntLeTotalOrder();
    SortByFacts(d, Identity, IntLe);
    NoDupPermutation(d, weeks);
    forall i, j | 0 <= i < j < |weeks| ensures weeks[i] < weeks[j] {
      assert IntLe(Identity(weeks[i]), Identity(weeks[j]));
    }
    forall w ensures w in weeks <==> exists x | x in rows :: x.start.week == w {
      assert w in weeks <==> w in multiset(weeks);
      assert w in d <==> w in multiset(d);
      if w in ws {
        var k :| 0 <= k < |ws| && ws[k] == w;
        assert rows[k] in rows;
      }
      if exists x | x in rows :: x.start.week == w {
        var x :| x in rows && x.start.week == w;
        var k :| 0 <= k < |rows| && rows[k] == x;
        assert ws[k] == w;
      }
    }
  }

  /** `by_week[w]`: the trips of the list leaving in week `w`, in order (`setdefault(...).append`). */
  function InWeek(rows: seq<TripRecord>, w: int): seq<TripRecord> {
    Filter(rows, HasKey(StartWeek, w))
  }

  /** A trip is in a week's bucket exactly when it is in the list and leaves that week. */
  lemma InWeekSpec(rows: seq<TripRecord>, w: int, x: TripRecord)
    ensures x in InWeek(rows, w) <==> x in rows && x.start.week == w
  {
    FilterCount(rows, HasKey(StartWeek, w), x);
    assert HasKey(StartWeek, w)(x) == (StartWeek(x) == w);
    assert x in InWeek(rows, w) <==> x in multiset(InWeek(rows, w));
    assert x in rows <==> x in multiset(rows);
  }

  /** One week of a weekend destination: the week number and its unique trips by total. */
  datatype WeekSection = WeekSection(week: int, trips: seq<TripRecord>)

  function WeekSections(rows: seq<TripRecord>): seq<WeekSection> {
    var weeks := Weeks(rows);
    seq(|weeks|, i requires 0 <= i < |weeks| => WeekSection(weeks[i], UniqueByTotal(InWeek(rows, weeks[i]))))
  }

  /** A week section holds exactly its week's trips of the list, once each, cheapest first. */
  predicate SectionShows(sec: WeekSection, rows: seq<TripRecord>) {
    && SortedBy(sec.trips, RecordTotal, IntLe) && NoDup(sec.trips) && sec.trips != []
    && (forall x | x in sec.trips :: x in rows && x.start.week == sec.week)
    && (forall x | x in rows && x.start.week == sec.week :: x in sec.trips)
  }

  /** The section of a week in which some trip leaves shows exactly that week's trips. */
  lemma SectionOfShows(rows: seq<TripRecord>, w: int)
    requires exists x | x in rows :: x.start.week == w
    ensures SectionShows(WeekSection(w, UniqueByTotal(InWeek(rows, w))), rows)
  {
    UniqueByTotalSpec(InWeek(rows, w));
    forall x ensures x in InWeek(rows, w) <==> x in rows && x.start.week == w {
      InWeekSpec(rows, w, x);
    }
  }

  /** Every trip's outbound week has a section. */
  lemma SectionsCoverWeeks(rows: seq<TripRecord>)
    ensures forall x | x in rows :: exists i | 0 <= i < |WeekSections(rows)| :: WeekSections(rows)[i].week == x.start.week
  {
    var weeks := Weeks(rows);
    var secs := WeekSections(rows);
    WeeksSpec(rows);
    forall x | x in rows ensures exists i | 0 <= i < |secs| :: secs[i].week == x.start.week {
      assert x.start.week in weeks;
      var i :| 0 <= i < |weeks| && weeks[i] == x.start.week;
      assert secs[i].week == x.start.week;
    }
  }

  /**
    * The weeks of a destination: ascending without repetition, one for
    * every outbound week of its trips, each showing that week's trips.
    */
  lemma WeekSectionsSpec(rows: seq<TripRecord>)
    ensures forall i, j | 0 <= i < j < |WeekSections(rows)| :: WeekSections(rows)[i].week < WeekSections(rows)[j].week
    ensures forall x | x in rows :: exists i | 0 <= i < |WeekSections(rows)| :: WeekSections(rows)[i].week == x.start.week
    ensures forall i | 0 <= i < |WeekSections(rows)| :: SectionShows(WeekSections(rows)[i], rows)
  {
    var weeks := Weeks(rows);
    var secs := WeekSections(rows);
    WeeksSpec(rows);
    SectionsCoverWeeks(rows);
    forall i | 0 <= i < |secs| ensures SectionShows(secs[i], rows) {
      assert weeks[i] in weeks;
      assert secs[i] == WeekSection(weeks[i], UniqueByTotal(InWeek(rows, weeks[i])));
      SectionOfShows(rows, weeks[i]);
    }
  }

  /** One destination of the weekend page: name and lowest price from its first trip, then its weeks. */
  datatype WeekendEntry = WeekendEntry(name: string, iata: string, lowest: int, weeks: seq<WeekSection>)

  function WeekendEntryOf(item: Item): WeekendEntry
    requires item.1 != []
  {
    WeekendEntry(item.1[0].start.endName, item.0, item.1[0].total, WeekSections(item.1))
  }

  /** The data of the weekend page (`_format_trips_to_html` of the weekend processors). */
  function WeekendListing(items: seq<Item>): seq<WeekendEntry> {
    var d := Destinations(items);
    assert forall i | 0 <= i < |d| :: NonEmpty(d[i]);
    seq(|d|, i requires 0 <= i < |d| => WeekendEntryOf(d[i]))
  }

  /**
    * A weekend entry shows its airport's weeks, and the name and price of
    * its first trip; when the airport's list is sorted by total (as the
    * processors leave it), that price is its cheapest trip's.
    */
  predicate WeekendEntryShows(e: WeekendEntry, rows: map<string, seq<TripRecord>>) {
    && e.iata in rows && rows[e.iata] != []
    && e.name == rows[e.iata][0].start.endName && e.lowest == rows[e.iata][0].total
    && e.weeks == WeekSections(rows[e.iata])
    && (SortedBy(rows[e.iata], RecordTotal, IntLe) ==> forall x | x in rows[e.iata] :: e.lowest <= x.total)
  }

  /** The weekend page lists every destination with a trip once, in name order. */
  lemma WeekendListingSpec(items: seq<Item>, rows: map<string, seq<TripRecord>>)
    requires ItemsOf(items, rows)
    ensures forall k | k in rows && rows[k] != [] :: exists i | 0 <= i < |WeekendListing(items)| :: WeekendListing(items)[i].iata == k
    ensures forall i, j | 0 <= i < j < |WeekendListing(items)| :: WeekendListing(items)[i].iata != WeekendListing(items)[j].iata
    ensures forall i | 0 <= i < |WeekendListing(items)| :: WeekendEntryShows(WeekendListing(items)[i], rows)
  {
    DestinationsSpec(items, rows);
    var d := Destinations(items);
    var l := WeekendListing(items);
    forall i | 0 <= i < |d| ensures WeekendEntryShows(l[i], rows) {
      if SortedBy(d[i].1, RecordTotal, IntLe) {
        CheapestFirst(d[i].1);
      }
    }
    forall k | k in rows && rows[k] != [] ensures exists i | 0 <= i < |l| :: l[i].iata == k {
      var i :| 0 <= i < |d| && d[i].0 == k;
      assert l[i].iata == k;
    }
  }

  // ---------------------------------------------------------------------------
  // The pages of a processor's result

  /**
    * A duration entry lists the trips of its airport in `trips`: each text
    * once, cheapest first, and every trip's text among them; its name and
    * lowest price are a cheapest trip's.
    */
  predicate DurationEntryLists(e: DurationEntry, trips: TripsDict)
    reads set k, i | k in trips && 0 <= i < |trips[k]| :: trips[k][i].start
    reads set k, i | k in trips && 0 <= i < |trips[k]| :: trips[k][i].back
  {
    && e.iata in trips
    && SortedBy(e.trips, RecordTotal, IntLe) && NoDup(e.trips)
    && (forall i | 0 <= i < |trips[e.iata]| :: TripRecordOf(trips[e.iata][i]) in e.trips)
    && (forall x | x in e.trips :: exists i | 0 <= i < |trips[e.iata]| :: TripRecordOf(trips[e.iata][i]) == x)
    && (forall i | 0 <= i < |trips[e.iata]| :: e.lowest <= trips[e.iata][i].total)
    && (exists i | 0 <= i < |trips[e.iata]| :: e.lowest == trips[e.iata][i].total && e.name == trips[e.iata][i].start.endName)
  }

  /** An entry that shows an airport's records lists that airport's trips. */
  lemma DurationEntryOnTrips(e: DurationEntry, trips: TripsDict)
    requires DurationEntryShows(e, Rows(trips))
    ensures DurationEntryLists(e, trips)
  {
    var rows := Rows(trips);
    var ts := trips[e.iata];
    forall x | x in rows[e.iata] ensures exists i | 0 <= i < |ts| :: TripRecordOf(ts[i]) == x {
      var i :| 0 <= i < |rows[e.iata]| && rows[e.iata][i] == x;
    }
    forall i | 0 <= i < |ts| ensures TripRecordOf(ts[i]) in rows[e.iata] && e.lowest <= ts[i].total {
      assert rows[e.iata][i] == TripRecordOf(ts[i]);
    }
    var i :| 0 <= i < |ts| && TripRecordOf(ts[i]) == e.trips[0];
  }

  /**
    * The duration page of a processor's result lists every airport with a
    * trip exactly once, each entry with the texts of that airport's trips.
    */
  lemma DurationPageSpec(trips: TripsDict, items: seq<Item>)
    requires ItemsOf(items, Rows(trips))
    ensures forall k | k in trips && trips[k] != [] :: exists i | 0 <= i < |DurationListing(items)| :: DurationListing(items)[i].iata == k
    ensures forall i, j | 0 <= i < j < |DurationListing(items)| :: DurationListing(items)[i].iata != DurationListing(items)[j].iata
    ensures forall i | 0 <= i < |DurationListing(items)| :: DurationEntryLists(DurationListing(items)[i], trips)
  {
    var rows := Rows(trips);
    DurationListingSpec(items, rows);
    var l := DurationListing(items);
    forall j | 0 <= j < |l| ensures DurationEntryLists(l[j], trips) {
      DurationEntryOnTrips(l[j], trips);
    }
    forall k | k in trips && trips[k] != [] ensures exists i | 0 <= i < |l| :: l[i].iata == k {
      assert rows[k] != [];
    }
  }

  /**
    * A weekend entry shows the name and total of its airport's first trip
    * in `trips` and the weeks of that airport's trips; when the list is
    * sorted by total, that total is the cheapest.
    */
  predicate WeekendEntryLists(e: WeekendEntry, trips: TripsDict)
    reads set k, i | k in trips && 0 <= i < |trips[k]| :: trips[k][i].start
    reads set k, i | k in trips && 0 <= i < |trips[k]| :: trips[k][i].back
  {
    && e.iata in trips && trips[e.iata] != []
    && e.name == trips[e.iata][0].start.endName && e.lowest == trips[e.iata][0].total
    && e.weeks == WeekSections(Rows(trips)[e.iata])
    && (SortedBy(trips[e.iata], Total, IntLe) ==> forall i | 0 <= i < |trips[e.iata]| :: e.lowest <= trips[e.iata][i].total)
  }

  /** The weekend page of a processor's result lists every airport with a trip exactly once, as WeekendEntryLists says. */
  lemma WeekendPageSpec(trips: TripsDict, items: seq<Item>)
    requires ItemsOf(items, Rows(trips))
    ensures forall k | k in trips && trips[k] != [] :: exists i | 0 <= i < |WeekendListing(items)| :: WeekendListing(items)[i].iata == k
    ensures forall i, j | 0 <= i < j < |WeekendListing(items)| :: WeekendListing(items)[i].iata != WeekendListing(items)[j].iata
    ensures forall i | 0 <= i < |WeekendListing(items)| :: WeekendEntryLists(WeekendListing(items)[i], trips)
  {
    var rows := Rows(trips);
    WeekendListingSpec(items, rows);
    var l := WeekendListing(items);
    forall j | 0 <= j < |l| ensures WeekendEntryLists(l[j], trips) {
      var e := l[j];
      var ts := trips[e.iata];
      assert WeekendEntryShows(e, rows);
      if SortedBy(ts, Total, IntLe) {
        forall a, b | 0 <= a < b < |rows[e.iata]| ensures IntLe(RecordTotal(rows[e.iata][a]), RecordTotal(rows[e.iata][b])) {
          assert IntLe(Total(ts[a]), Total(ts[b]));
        }
        forall i | 0 <= i < |ts| ensures e.lowest <= ts[i].total {
          assert rows[e.iata][i] in rows[e.iata];
        }
      }
    }
    forall k | k in trips && trips[k] != [] ensures exists i | 0 <= i < |l| :: l[i].iata == k {
      assert rows[k] != [];
    }
  }
}
