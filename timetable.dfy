/**
  * Static airport timetables: the parsers that turn a loaded timetable
  * document into `FlightTimetable` entries, and the first-match lookup
  * `get_flight_time` that attaches a scheduled time to a flight.
  */
module Timetable {
  import opened Wrappers
  import opened Calendar
  import opened Text
  import opened Models

  // ---------------------------------------------------------------------------
  // Dates

  /** The three layouts `_parse_date` tries: "%Y-%m-%d", "%Y/%m/%d" and "%d.%m.%Y". */
  datatype DateFormat = YearMonthDayDash | YearMonthDaySlash | DayMonthYearDot

  /** The order in which `_parse_date` tries its formats when none are given. */
  const DefaultFormats: seq<DateFormat> := [YearMonthDayDash, YearMonthDaySlash, DayMonthYearDot]

  function Separator(f: DateFormat): char {
    match f
    case YearMonthDayDash => '-'
    case YearMonthDaySlash => '/'
    case DayMonthYearDot => '.'
  }

  /** A calendar date as its three fields. */
  datatype Civil = Civil(year: int, month: int, day: int)

  predicate ValidCivil(c: Civil) {
    ValidDate(c.year, c.month, c.day)
  }

  /** The zero-padded text of a valid date in format `f`. */
  function FormatDate(c: Civil, f: DateFormat): (s: string)
    requires ValidCivil(c)
  {
    var sep := [Separator(f)];
    if f.DayMonthYearDot? then PadDigits(c.day, 2) + sep + PadDigits(c.month, 2) + sep + PadDigits(c.year, 4)
    else PadDigits(c.year, 4) + sep + PadDigits(c.month, 2) + sep + PadDigits(c.day, 2)
  }

  /** Ten characters laid out as format `f`: digit fields around two separators. */
  predicate Shaped(s: string, f: DateFormat) {
    var sep := Separator(f);
    |s| == 10 &&
    if f.DayMonthYearDot? then
      s[2] == sep && s[5] == sep && AllDigits(s[..2]) && AllDigits(s[3..5]) && AllDigits(s[6..])
    else
      s[4] == sep && s[7] == sep && AllDigits(s[..4]) && AllDigits(s[5..7]) && AllDigits(s[8..])
  }

  /** The fields a text of shape `f` spells. */
  function Fields(s: string, f: DateFormat): Civil
    requires Shaped(s, f)
  {
    if f.DayMonthYearDot? then Civil(DigitsValue(s[6..]), DigitsValue(s[3..5]), DigitsValue(s[..2]))
    else Civil(DigitsValue(s[..4]), DigitsValue(s[5..7]), DigitsValue(s[8..]))
  }

  /** `datetime.strptime(s, f).date()`, or `None` where it raises ValueError. */
  function ParseDateAs(s: string, f: DateFormat): Option<Date> {
    if Shaped(s, f) && ValidCivil(Fields(s, f)) then
      var c := Fields(s, f);
      Some(Ordinal(c.year, c.month, c.day))
    else None
  }

  /** Formatting a valid date and parsing it back in the same format gives that date. */
  lemma ParseFormattedDate(c: Civil, f: DateFormat)
    requires ValidCivil(c)
    ensures Shaped(FormatDate(c, f), f)
    ensures ParseDateAs(FormatDate(c, f), f) == Some(Ordinal(c.year, c.month, c.day))
  {
    var s := FormatDate(c, f);
    var y, m, d := PadDigits(c.year, 4), PadDigits(c.month, 2), PadDigits(c.day, 2);
    assert Pow10(2) == 100 && Pow10(4) == 10000;
    PadDigitsRoundTrip(c.year, 4);
    PadDigitsRoundTrip(c.month, 2);
    PadDigitsRoundTrip(c.day, 2);
    if f.DayMonthYearDot? {
      assert s[..2] == d && s[3..5] == m && s[6..] == y;
    } else {
      assert s[..4] == y && s[5..7] == m && s[8..] == d;
    }
  }

  /** Conversely, every text a format accepts is the zero-padded text of the date it yields. */
  lemma ParsedDateIsFormatted(s: string, f: DateFormat)
    requires ParseDateAs(s, f).Some?
    ensures Shaped(s, f) && ValidCivil(Fields(s, f))
    ensures s == FormatDate(Fields(s, f), f)
  {
    if f.DayMonthYearDot? {
      DayFirstIsFormatted(s, f);
    } else {
      YearFirstIsFormatted(s, f);
    }
  }

  lemma DayFirstIsFormatted(s: string, f: DateFormat)
    requires f.DayMonthYearDot? && Shaped(s, f) && ValidCivil(Fields(s, f))
    ensures s == FormatDate(Fields(s, f), f)
  {
    PadDigitsOfValue(s[..2]);
    PadDigitsOfValue(s[3..5]);
    PadDigitsOfValue(s[6..]);
    assert s == s[..2] + [s[2]] + s[3..5] + [s[5]] + s[6..];
  }

  lemma YearFirstIsFormatted(s: string, f: DateFormat)
    requires !f.DayMonthYearDot? && Shaped(s, f) && ValidCivil(Fields(s, f))
    ensures s == FormatDate(Fields(s, f), f)
  {
    PadDigitsOfValue(s[..4]);
    PadDigitsOfValue(s[5..7]);
    PadDigitsOfValue(s[8..]);
    assert s == s[..4] + [s[4]] + s[5..7] + [s[7]] + s[8..];
  }

  /** No text has the shape of two different formats. */
  lemma ShapesExclusive(s: string, f: DateFormat, g: DateFormat)
    requires Shaped(s, f) && Shaped(s, g)
    ensures f == g
  {
  }

  /**
    * `_parse_date(s, formats)`: the date of the first format that accepts
    * `s`, or a ValueError when none does.
    */
  function ParseDate(s: string, formats: seq<DateFormat>): (r: Result<Date, Error>)
    ensures r.Ok? <==> exists i | 0 <= i < |formats| :: ParseDateAs(s, formats[i]).Some?
    ensures r.Ok? ==> exists i | 0 <= i < |formats| ::
      && ParseDateAs(s, formats[i]) == Some(r.value)
      && forall j | 0 <= j < i :: ParseDateAs(s, formats[j]).None?
    ensures r.Err? ==> r.error == DateFormatError(s)
    decreases |formats|
  {
    if formats == [] then Err(DateFormatError(s))
    else
      match ParseDateAs(s, formats[0])
      case Some(d) => Ok(d)
      case None =>
        var r := ParseDate(s, formats[1..]);
        assert forall i | 1 <= i < |formats| :: formats[i] == formats[1..][i - 1];
        if r.Ok? then
          var i :| 0 <= i < |formats[1..]| && ParseDateAs(s, formats[1..][i]) == Some(r.value)
                   && forall j | 0 <= j < i :: ParseDateAs(s, formats[1..][j]).None?;
          assert ParseDateAs(s, formats[i + 1]) == Some(r.value);
          r
        else r
  }

  /** With the default formats, a date written in any of the three layouts parses back to itself. */
  lemma DefaultFormatsRoundTrip(c: Civil, f: DateFormat)
    requires ValidCivil(c)
    ensures ParseDate(FormatDate(c, f), DefaultFormats) == Ok(Ordinal(c.year, c.month, c.day))
  {
    var s := FormatDate(c, f);
    ParseFormattedDate(c, f);
    forall g | g != f ensures ParseDateAs(s, g).None? {
      if Shaped(s, g) {
        ShapesExclusive(s, f, g);
      }
    }
  }

  // ---------------------------------------------------------------------------
  // Times of day

  /** "HH:MM": two digits, a colon, two digits. */
  predicate TimeShaped(s: string) {
    |s| == 5 && s[2] == ':' && AllDigits(s[..2]) && AllDigits(s[3..])
  }

  /**
    * `_parse_time`: the empty string stands for 23:59; anything else must be
    * "HH:MM" with an hour below 24 and a minute below 60.
    */
  function ParseTime(s: string): (r: Result<Time, Error>)
    ensures s == "" ==> r == Ok(TimeOf(23, 59))
    ensures s != "" && r.Ok? ==> TimeShaped(s)
    ensures r.Err? ==> r.error == TimeFormatError(s)
  {
    if s == "" then Ok(TimeOf(23, 59))
    else if TimeShaped(s) && DigitsValue(s[..2]) < 24 && DigitsValue(s[3..]) < 60 then
      Ok(TimeOf(DigitsValue(s[..2]), DigitsValue(s[3..])))
    else Err(TimeFormatError(s))
  }

  /** `t.strftime("%H:%M")`. */
  function FormatTime(t: Time): (s: string)
    ensures TimeShaped(s)
  {
    var s := PadDigits(t / 60, 2) + ":" + PadDigits(t % 60, 2);
    assert s[..2] == PadDigits(t / 60, 2) && s[3..] == PadDigits(t % 60, 2);
    s
  }

  /** Every time of day survives formatting and parsing. */
  lemma ParseFormattedTime(t: Time)
    ensures ParseTime(FormatTime(t)) == Ok(t)
  {
    var s := FormatTime(t);
    assert s[..2] == PadDigits(t / 60, 2) && s[3..] == PadDigits(t % 60, 2);
    assert Pow10(2) == 100;
    PadDigitsRoundTrip(t / 60, 2);
    PadDigitsRoundTrip(t % 60, 2);
  }

  /** Every non-empty text `_parse_time` accepts is the formatted time it yields. */
  lemma ParsedTimeIsFormatted(s: string)
    requires s != "" && ParseTime(s).Ok?
    ensures s == FormatTime(ParseTime(s).value)
  {
    var t := ParseTime(s).value;
    var h, m := DigitsValue(s[..2]), DigitsValue(s[3..]);
    assert t / 60 == h && t % 60 == m;
    PadDigitsOfValue(s[..2]);
    PadDigitsOfValue(s[3..]);
    assert s == s[..2] + ":" + s[3..];
  }

  // ---------------------------------------------------------------------------
  // Weekdays

  /**
    * The weekday of a timetable token (Monday = 0): the Polish abbreviations
    * in upper and title case ("So" is sobota, Saturday) and the numbers 1..7.
    */
  function WeekdayOf(token: WeekdayToken): (r: Option<int>)
    ensures r.Some? ==> 0 <= r.value < 7
  {
    match token
    case Number(n) => if 1 <= n <= 7 then Some(n - 1) else None
    case Name(s) =>
      if s == "PN" || s == "Pn" then Some(0)
      else if s == "WT" || s == "Wt" then Some(1)
      else if s == "\U{015A}R" || s == "\U{015A}r" then Some(2)
      else if s == "CZ" || s == "Cz" then Some(3)
      else if s == "PT" || s == "Pt" then Some(4)
      else if s == "SB" || s == "So" then Some(5)
      else if s == "NDZ" || s == "Nd" then Some(6)
      else None
  }

  /**
    * `_parse_to_weekday_number`: every token translated in order, or a
    * ValueError naming the first unknown token.
    */
  function WeekdayNumbers(tokens: seq<WeekdayToken>): (r: Result<seq<int>, Error>)
    ensures r.Ok? <==> forall i | 0 <= i < |tokens| :: WeekdayOf(tokens[i]).Some?
    ensures r.Ok? ==> |r.value| == |tokens|
    ensures r.Ok? ==> forall i | 0 <= i < |tokens| :: WeekdayOf(tokens[i]) == Some(r.value[i])
    ensures r.Err? ==> exists i | 0 <= i < |tokens| ::
      && WeekdayOf(tokens[i]).None?
      && r.error == UnknownWeekday(tokens[i])
      && forall j | 0 <= j < i :: WeekdayOf(tokens[j]).Some?
    decreases |tokens|
  {
    if tokens == [] then Ok([])
    else
      match WeekdayOf(tokens[0])
      case None => Err(UnknownWeekday(tokens[0]))
      case Some(w) =>
        var rest := WeekdayNumbers(tokens[1..]);
        assert forall i | 1 <= i < |tokens| :: tokens[i] == tokens[1..][i - 1];
        if rest.Err? then
          var i :| 0 <= i < |tokens[1..]| && WeekdayOf(tokens[1..][i]).None?
                   && rest.error == UnknownWeekday(tokens[1..][i])
                   && forall j | 0 <= j < i :: WeekdayOf(tokens[1..][j]).Some?;
          assert WeekdayOf(tokens[i + 1]).None?;
          Err(rest.error)
        else
          Ok([w] + rest.value)
  }

  /** The loop of `_parse_to_weekday_number`, appending one weekday per token. */
  method ParseToWeekdayNumbers(tokens: seq<WeekdayToken>) returns (r: Result<seq<int>, Error>)
    ensures r == WeekdayNumbers(tokens)
  {
    var parsed: seq<int> := [];
    for i := 0 to |tokens|
      invariant |parsed| == i
      invariant forall j | 0 <= j < i :: WeekdayOf(tokens[j]) == Some(parsed[j])
    {
      var w := WeekdayOf(tokens[i]);
      if w.None? {
        r := Err(UnknownWeekday(tokens[i]));
        var spec := WeekdayNumbers(tokens);
        assert spec.Err?;
        if spec.Err? {
          var k :| 0 <= k < |tokens| && WeekdayOf(tokens[k]).None?
                   && spec.error == UnknownWeekday(tokens[k])
                   && forall j | 0 <= j < k :: WeekdayOf(tokens[j]).Some?;
          assert k == i;
          assert spec == r;
        }
        return;
      }
      parsed := parsed + [w.value];
    }
    r := Ok(parsed);
    var spec := WeekdayNumbers(tokens);
    assert spec.Ok?;
    assert |spec.value| == |parsed|;
    assert forall j | 0 <= j < |tokens| :: spec.value[j] == parsed[j];
    assert spec.value == parsed;
  }

  /** The Katowice timetable scraper's names for the weekdays 1..7. */
  function KatowiceWeekdayName(k: int): string
    requires 1 <= k <= 7
  {
    ["Pn", "Wt", "\U{015A}r", "Cz", "Pt", "So", "Nd"][k - 1]
  }

  /** The Katowice names and the numbers 1..7 denote the same weekday, Monday = 0. */
  lemma KatowiceNamesAgree(k: int)
    requires 1 <= k <= 7
    ensures WeekdayOf(Name(KatowiceWeekdayName(k))) == WeekdayOf(Number(k)) == Some(k - 1)
  {
  }

  // ---------------------------------------------------------------------------
  // Loading a timetable document

  /** One entry of a loaded timetable file, fields still as text. */
  datatype RawEntry = RawEntry(
    endDate: string,
    startDate: string,
    startTime: string,
    landingTime: string,
    weekdays: seq<WeekdayToken>)

  /** A loaded timetable file: direction ("departures" / "arrivals") -> airport -> entries. */
  type RawTimetable = map<string, map<string, seq<RawEntry>>>

  /** Parsed entries by airport at the other end of the route. */
  type RouteTable = map<string, seq<FlightTimetable>>

  /** One airport's parsed timetable: direction -> routes. */
  type AirportTimetable = map<string, RouteTable>

  /** Every airport's timetable, by IATA code. */
  type Timetables = map<string, AirportTimetable>

  /**
    * One entry, its fields parsed in the order end date, start date, start
    * time, landing time, weekdays; the first failure is the error.
    */
  function ParseEntry(e: RawEntry): (r: Result<FlightTimetable, Error>)
    ensures r.Ok? <==>
      && ParseDate(e.endDate, DefaultFormats).Ok? && ParseDate(e.startDate, DefaultFormats).Ok?
      && ParseTime(e.startTime).Ok? && ParseTime(e.landingTime).Ok?
      && WeekdayNumbers(e.weekdays).Ok?
    ensures r.Ok? ==> forall i | 0 <= i < |r.value.weekdays| :: 0 <= r.value.weekdays[i] < 7
  {
    var endDate :- ParseDate(e.endDate, DefaultFormats);
    var startDate :- ParseDate(e.startDate, DefaultFormats);
    var startTime :- ParseTime(e.startTime);
    var landingTime :- ParseTime(e.landingTime);
    var weekdays :- WeekdayNumbers(e.weekdays);
    assert forall i | 0 <= i < |weekdays| :: WeekdayOf(e.weekdays[i]) == Some(weekdays[i]);
    Ok(FlightTimetable(startTime, landingTime, weekdays, startDate, endDate))
  }

  /** Every entry of the document parses. */
  predicate AllParse(raw: RawTimetable) {
    forall way, iata, k | way in raw && iata in raw[way] && 0 <= k < |raw[way][iata]| ::
      ParseEntry(raw[way][iata][k]).Ok?
  }

  function ParsedEntries(es: seq<RawEntry>): (r: seq<FlightTimetable>)
    requires forall k | 0 <= k < |es| :: ParseEntry(es[k]).Ok?
    ensures |r| == |es|
  {
    seq(|es|, k requires 0 <= k < |es| => ParseEntry(es[k]).value)
  }

  /** Entry `k` is the first of `es` that fails to parse, with error `e`. */
  predicate FirstFailure(es: seq<RawEntry>, k: int, e: Error) {
    && 0 <= k < |es|
    && ParseEntry(es[k]) == Err(e)
    && forall j | 0 <= j < k :: ParseEntry(es[j]).Ok?
  }

  /**
    * The entries of one route parsed in order, as `one_way[iata]` collects
    * them, or the error of the first entry that fails.
    */
  method ParseEntries(es: seq<RawEntry>) returns (r: Result<seq<FlightTimetable>, Error>)
    ensures r.Ok? <==> forall k | 0 <= k < |es| :: ParseEntry(es[k]).Ok?
    ensures r.Ok? ==> r.value == ParsedEntries(es)
    ensures r.Err? ==> exists k :: FirstFailure(es, k, r.error)
  {
    var parsed: seq<FlightTimetable> := [];
    for k := 0 to |es|
      invariant |parsed| == k
      invariant forall j | 0 <= j < k :: ParseEntry(es[j]) == Ok(parsed[j])
    {
      var entry := ParseEntry(es[k]);
      if entry.Err? {
        assert FirstFailure(es, k, entry.error);
        return Err(entry.error);
      }
      ghost var before := parsed;
      parsed := parsed + [entry.value];
      forall j | 0 <= j < k + 1 ensures ParseEntry(es[j]) == Ok(parsed[j]) {
        if j < k {
          assert parsed[j] == before[j];
        }
      }
    }
    r := Ok(parsed);
    assert forall k | 0 <= k < |es| :: parsed[k] == ParsedEntries(es)[k];
  }

  /** The airports of one direction with their parsed entries. */
  function ParsedRoutes(routes: map<string, seq<RawEntry>>): RouteTable
    requires forall iata, k | iata in routes && 0 <= k < |routes[iata]| :: ParseEntry(routes[iata][k]).Ok?
  {
    map iata | iata in routes && routes[iata] != [] :: ParsedEntries(routes[iata])
  }

  /**
    * The parsed document: the same directions, each airport with a
    * non-empty entry list mapped to its parsed entries in file order.
    */
  function ParsedTimetable(raw: RawTimetable): AirportTimetable
    requires AllParse(raw)
  {
    map way | way in raw :: ParsedRoutes(raw[way])
  }

  /**
    * The body of `_parse_timetable` for one direction: every airport's
    * entries appended to a default dictionary, so an airport with no
    * entries gets no key.
    */
  method ParseRoutes(routes: map<string, seq<RawEntry>>) returns (r: Result<RouteTable, Error>)
    ensures r.Ok? <==> forall iata, k | iata in routes && 0 <= k < |routes[iata]| :: ParseEntry(routes[iata][k]).Ok?
    ensures r.Ok? ==> r.value == ParsedRoutes(routes)
    ensures r.Err? ==> exists iata, k | iata in routes && 0 <= k < |routes[iata]| ::
      ParseEntry(routes[iata][k]) == Err(r.error)
  {
    var oneWay: RouteTable := map[];
    var iatas := routes.Keys;
    while iatas != {}
      invariant iatas <= routes.Keys
      invariant oneWay.Keys == set iata | iata in routes.Keys - iatas && routes[iata] != []
      invariant forall iata, k | iata in routes.Keys - iatas && 0 <= k < |routes[iata]| ::
        ParseEntry(routes[iata][k]).Ok?
      invariant forall iata | iata in oneWay :: oneWay[iata] == ParsedEntries(routes[iata])
      decreases iatas
    {
      var iata :| iata in iatas;
      var entries := ParseEntries(routes[iata]);
      if entries.Err? {
        return Err(entries.error);
      }
      if entries.value != [] {
        oneWay := oneWay[iata := entries.value];
      }
      iatas := iatas - {iata};
    }
    r := Ok(oneWay);
  }

  /** `_parse_timetable`: every direction parsed, or the error of an entry that fails. */
  method ParseTimetable(raw: RawTimetable) returns (r: Result<AirportTimetable, Error>)
    ensures r.Ok? <==> AllParse(raw)
    ensures r.Ok? ==> r.value == ParsedTimetable(raw)
    ensures r.Err? ==> exists way, iata, k | way in raw && iata in raw[way] && 0 <= k < |raw[way][iata]| ::
      ParseEntry(raw[way][iata][k]) == Err(r.error)
  {
    var info: AirportTimetable := map[];
    var ways := raw.Keys;
    while ways != {}
      invariant ways <= raw.Keys
      invariant info.Keys == raw.Keys - ways
      invariant forall way, iata, k | way in info && iata in raw[way] && 0 <= k < |raw[way][iata]| ::
        ParseEntry(raw[way][iata][k]).Ok?
      invariant forall way | way in info :: info[way] == ParsedRoutes(raw[way])
      decreases ways
    {
      var way :| way in ways;
      var oneWay := ParseRoutes(raw[way]);
      if oneWay.Err? {
        return Err(oneWay.error);
      }
      info := info[way := oneWay.value];
      ways := ways - {way};
    }
    r := Ok(info);
  }

  // ---------------------------------------------------------------------------
  // Looking up a flight's scheduled time

  /** Which half of an airport's timetable to read: `flight_type`. */
  datatype Direction = Departures | Arrivals

  function DirectionKey(dir: Direction): string {
    if dir.Departures? then "departures" else "arrivals"
  }

  /** An entry runs on `d`: inside its season and on one of its weekdays. */
  predicate Runs(e: FlightTimetable, d: Date) {
    e.startDate <= d <= e.endDate && Weekday(d) in e.weekdays
  }

  /** The start time of the first entry that runs on `d`, if any (`FirstMatchSpec`). */
  function FirstMatch(entries: seq<FlightTimetable>, d: Date): Option<Time>
    decreases |entries|
  {
    if entries == [] then None
    else if Runs(entries[0], d) then Some(entries[0].startTime)
    else FirstMatch(entries[1..], d)
  }

  /**
    * The lookup finds a time iff some entry runs on `d`, and the time it
    * finds is that of the earliest such entry.
    */
  lemma {:induction false} FirstMatchSpec(entries: seq<FlightTimetable>, d: Date)
    ensures FirstMatch(entries, d).Some? <==> exists i | 0 <= i < |entries| :: Runs(entries[i], d)
    ensures FirstMatch(entries, d).Some? ==> exists i | 0 <= i < |entries| ::
      && Runs(entries[i], d) && FirstMatch(entries, d).value == entries[i].startTime
      && forall j | 0 <= j < i :: !Runs(entries[j], d)
    decreases |entries|
  {
    if entries != [] && !Runs(entries[0], d) {
      FirstMatchSpec(entries[1..], d);
      assert forall i | 1 <= i < |entries| :: entries[i] == entries[1..][i - 1];
      var r := FirstMatch(entries[1..], d);
      if r.Some? {
        var i :| 0 <= i < |entries[1..]| && Runs(entries[1..][i], d) && r.value == entries[1..][i].startTime
                 && forall j | 0 <= j < i :: !Runs(entries[1..][j], d);
        assert Runs(entries[i + 1], d);
      }
    } else if entries != [] {
      assert Runs(entries[0], d);
    }
  }

  /** The airport whose timetable is read and the airport at the route's other end. */
  function Route(start: string, end: string, dir: Direction): (string, string) {
    if dir.Departures? then (start, end) else (end, start)
  }

  /**
    * `get_flight_time` for a flight from `start` to `end` on `date`: a
    * KeyError for the first missing key, else the first matching entry's
    * start time or `None`.
    */
  function FlightTime(tt: Timetables, start: string, end: string, date: Date, dir: Direction): (r: Result<Option<Time>, Error>)
    ensures r.Ok? <==>
      var (from, to) := Route(start, end, dir);
      from in tt && DirectionKey(dir) in tt[from] && to in tt[from][DirectionKey(dir)]
    ensures r.Ok? ==>
      var (from, to) := Route(start, end, dir);
      r.value == FirstMatch(tt[from][DirectionKey(dir)][to], date)
  {
    var (from, to) := Route(start, end, dir);
    var key := DirectionKey(dir);
    if from !in tt then Err(KeyError(from))
    else if key !in tt[from] then Err(KeyError(key))
    else if to !in tt[from][key] then Err(KeyError(to))
    else Ok(FirstMatch(tt[from][key][to], date))
  }

  /** An arrival is looked up in the timetable of its destination, with the origin as the route key. */
  lemma ArrivalsSwapEnds(tt: Timetables, start: string, end: string, date: Date)
    ensures FlightTime(tt, start, end, date, Arrivals).Ok? <==>
      end in tt && "arrivals" in tt[end] && start in tt[end]["arrivals"]
    ensures FlightTime(tt, start, end, date, Arrivals).Ok? ==>
      FlightTime(tt, start, end, date, Arrivals).value == FirstMatch(tt[end]["arrivals"][start], date)
  {
  }

  /** The lookup loop of `get_flight_time`. */
  method GetFlightTime(tt: Timetables, flight: FlightInfo, dir: Direction) returns (r: Result<Option<Time>, Error>)
    ensures r == FlightTime(tt, flight.start, flight.end, flight.date, dir)
  {
    var startIata := if dir.Departures? then flight.start else flight.end;
    var endIata := if dir.Departures? then flight.end else flight.start;
    var key := DirectionKey(dir);
    if startIata !in tt {
      return Err(KeyError(startIata));
    }
    if key !in tt[startIata] {
      return Err(KeyError(key));
    }
    if endIata !in tt[startIata][key] {
      return Err(KeyError(endIata));
    }
    var timetable := tt[startIata][key][endIata];
    for i := 0 to |timetable|
      invariant forall j | 0 <= j < i :: !Runs(timetable[j], flight.date)
    {
      var info := timetable[i];
      if info.startDate <= flight.date <= info.endDate && Weekday(flight.date) in info.weekdays {
        assert FirstMatch(timetable, flight.date) == Some(info.startTime) by {
          FirstMatchSpec(timetable, flight.date);
          var m := FirstMatch(timetable, flight.date);
          var k :| 0 <= k < |timetable| && Runs(timetable[k], flight.date) && m.value == timetable[k].startTime
                   && forall j | 0 <= j < k :: !Runs(timetable[j], flight.date);
          assert k == i;
        }
        return Ok(Some(info.startTime));
      }
    }
    FirstMatchSpec(timetable, flight.date);
    return Ok(None);
  }
}
