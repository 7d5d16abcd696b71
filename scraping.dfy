/**
  * The pure helpers of the three scrapers: price extraction from the date
  * picker's price text, the adjusted week number, and the rule that turns
  * one calendar day cell into a flight record (or none). The browser
  * automation around them is not modelled.
  */
module Scraping {
  import opened Wrappers
  import opened Text
  import opened Calendar
  import opened Models
  import opened Timetable
  import opened Base
  import opened Listing

  // ---------------------------------------------------------------------------
  // Prices

  /** The longest prefix of `s` made of digits. */
  function LeadingDigits(s: string): (r: string)
    ensures |r| <= |s| && r == s[..|r|]
    ensures AllDigits(r)
    ensures |r| == |s| || !IsDigit(s[|r|])
    decreases |s|
  {
    if s == [] || !IsDigit(s[0]) then [] else [s[0]] + LeadingDigits(s[1..])
  }

  /** `int(re.search(r'\d+', text).group())`, or `None` when the text holds no digit. */
  function ExtractPrice(text: string): Option<int>
    decreases |text|
  {
    if text == [] then None
    else if IsDigit(text[0]) then Some(DigitsValue(LeadingDigits(text)))
    else ExtractPrice(text[1..])
  }

  /** `text[i..j]` is the first run of digits in `text`: no digit before it, none right after it. */
  predicate FirstDigitRun(text: string, i: int, j: int) {
    && 0 <= i < j <= |text|
    && (forall k | 0 <= k < i :: !IsDigit(text[k]))
    && AllDigits(text[i..j])
    && (j == |text| || !IsDigit(text[j]))
  }

  /**
    * The price is `None` exactly when the text has no digit; otherwise it
    * is the value of the first run of digits only ("1 234" gives 1).
    */
  lemma {:induction false} ExtractPriceSpec(text: string)
    ensures ExtractPrice(text).None? <==> forall k | 0 <= k < |text| :: !IsDigit(text[k])
    ensures ExtractPrice(text).Some? ==>
      exists i, j :: FirstDigitRun(text, i, j) && ExtractPrice(text).value == DigitsValue(text[i..j])
    decreases |text|
  {
    if text != [] {
      if IsDigit(text[0]) {
        var run := LeadingDigits(text);
        assert text[0] == run[0];
        assert FirstDigitRun(text, 0, |run|);
      } else {
        var rest := text[1..];
        ExtractPriceSpec(rest);
        assert forall k | 1 <= k < |text| :: text[k] == rest[k - 1];
        if ExtractPrice(rest).Some? {
          var i, j :| FirstDigitRun(rest, i, j) && ExtractPrice(rest).value == DigitsValue(rest[i..j]);
          assert text[i + 1..j + 1] == rest[i..j];
          assert FirstDigitRun(text, i + 1, j + 1);
        }
      }
    }
  }

  /** Text without digits in front of the price does not change the price. */
  lemma {:induction false} ExtractPriceSkips(prefix: string, rest: string)
    requires forall k | 0 <= k < |prefix| :: !IsDigit(prefix[k])
    ensures ExtractPrice(prefix + rest) == ExtractPrice(rest)
    decreases |prefix|
  {
    if prefix == [] {
      assert prefix + rest == rest;
    } else {
      assert (prefix + rest)[0] == prefix[0];
      assert (prefix + rest)[1..] == prefix[1..] + rest;
      ExtractPriceSkips(prefix[1..], rest);
    }
  }

  /** A digit run followed by a non-digit (or nothing) is exactly the leading digits. */
  lemma {:induction false} LeadingDigitsOf(digits: string, suffix: string)
    requires AllDigits(digits)
    requires suffix == [] || !IsDigit(suffix[0])
    ensures LeadingDigits(digits + suffix) == digits
    decreases |digits|
  {
    if digits == [] {
      assert digits + suffix == suffix;
    } else {
      assert (digits + suffix)[1..] == digits[1..] + suffix;
      LeadingDigitsOf(digits[1..], suffix);
    }
  }

  /**
    * The price a picker cell shows is read back: "od 215 zł" and "215"
    * give 215 — any digit-free text around the number `str(n)`.
    */
  lemma ExtractShownPrice(prefix: string, n: nat, suffix: string)
    requires forall k | 0 <= k < |prefix| :: !IsDigit(prefix[k])
    requires suffix == [] || !IsDigit(suffix[0])
    ensures ExtractPrice(prefix + NatToDigits(n) + suffix) == Some(n)
  {
    var digits := NatToDigits(n);
    assert prefix + digits + suffix == prefix + (digits + suffix);
    ExtractPriceSkips(prefix, digits + suffix);
    LeadingDigitsOf(digits, suffix);
    assert (digits + suffix)[0] == digits[0];
    NatToDigitsRoundTrip(n);
  }

  /** Concrete prices: only the first run of digits counts, and "-" has none. */
  lemma ExtractPriceExamples()
    ensures ExtractPrice("1 234") == Some(1)
    ensures ExtractPrice("-") == None
  {
    assert LeadingDigits("1 234") == "1" by {
      assert "1 234"[1..] == " 234";
    }
    assert "1"[..0] == "";
    assert "-"[1..] == [];
  }

  // ---------------------------------------------------------------------------
  // Week numbers

  /**
    * `_week_number` / `get_week_number`: a Monday is moved back to the
    * Sunday before, then the ISO week number is taken. Stepping back from
    * 0001-01-01 (the first day, a Monday) overflows.
    */
  function AdjustedWeek(d: Date): (r: Result<int, Error>)
    ensures r.Ok? <==> d >= 2
    ensures r.Err? ==> r.error == DateOverflow(d)
    ensures r.Ok? ==> r.value == IsoCalendar(d - 1).week && 1 <= r.value <= 53
  {
    if d >= 2 then
      WeekNumberIsPreviousDayIsoWeek(d);
      Ok(WeekNumber(d))
    else Err(DateOverflow(d))
  }

  // ---------------------------------------------------------------------------
  // Records

  /** The route a scrape is for: both airports' codes and names. */
  datatype Route = Route(start: string, startName: string, end: string, endName: string)

  /** What a date-picker day cell shows where its price belongs. */
  datatype PriceCell =
    | Span(text: string)  // the price span is there
    | Div(text: string)   // only the price div is there
    | NoCell              // neither is there

  /** The record of one priced day: its adjusted week, no times yet. */
  function RecordOn(route: Route, d: Date, price: Price): (r: Result<FlightRecord, Error>) {
    match AdjustedWeek(d)
    case Ok(w) => Ok(FlightRecord(route.start, route.startName, route.end, route.endName, d, price, w, None, None))
    case Err(e) => Err(e)
  }

  /**
    * The day rule of the playwright scraper and `kiwi_scrapper_new` on a
    * parsed date: a day that has no price element, whose div shows '-', or
    * whose text has no digits gives no record.
    */
  function NewDay(route: Route, d: Date, cell: PriceCell): (r: Result<Option<FlightRecord>, Error>) {
    if cell.NoCell? || (cell.Div? && cell.text == "-") then Ok(None)
    else
      match ExtractPrice(cell.text)
      case None => Ok(None)
      case Some(p) =>
        match RecordOn(route, d, IntPrice(p))
        case Ok(rec) => Ok(Some(rec))
        case Err(e) => Err(e)
  }

  /**
    * The date a day cell's `data-value` attribute gives: none when the
    * attribute is missing or `strptime` rejects it.
    */
  function AttributeDate(dateAttr: Option<string>): Option<Date> {
    match dateAttr
    case None => None
    case Some(text) => ParseDateAs(text, YearMonthDayDash)
  }

  /**
    * The newer scrapers' rule for one day cell: a missing or empty
    * `data-value` and a date that does not parse are skipped.
    */
  function NewRecord(route: Route, dateAttr: Option<string>, cell: PriceCell): (r: Result<Option<FlightRecord>, Error>) {
    if dateAttr.None? || dateAttr.value == "" then Ok(None)
    else
      match ParseDateAs(dateAttr.value, YearMonthDayDash)
      case None => Ok(None)
      case Some(d) => NewDay(route, d, cell)
  }

  /**
    * The day rule of `kiwi_scrapper` on a parsed date: a div other than '-'
    * or a missing element is re-raised, and a text without digits is
    * stored as a missing price instead of being skipped.
    */
  function LegacyDay(route: Route, d: Date, cell: PriceCell): (r: Result<Option<FlightRecord>, Error>) {
    if cell.Div? && cell.text == "-" then Ok(None)
    else if !cell.Span? then Err(NoSuchElement)
    else
      var price := match ExtractPrice(cell.text) case Some(p) => IntPrice(p) case None => NoPrice;
      match RecordOn(route, d, price)
      case Ok(rec) => Ok(Some(rec))
      case Err(e) => Err(e)
  }

  /**
    * The oldest scraper's rule for one day cell: the attribute goes to
    * `strptime` unchecked, so a missing one raises TypeError, which the
    * `except ValueError` does not catch; a date that does not parse is
    * skipped.
    */
  function LegacyRecord(route: Route, dateAttr: Option<string>, cell: PriceCell): (r: Result<Option<FlightRecord>, Error>) {
    match dateAttr
    case None => Err(MissingDateAttribute)
    case Some(text) =>
      match ParseDateAs(text, YearMonthDayDash)
      case None => Ok(None)
      case Some(d) => LegacyDay(route, d, cell)
  }

  /** A cell the newer scrapers take a price from. */
  predicate ShowsPrice(cell: PriceCell) {
    !cell.NoCell? && !(cell.Div? && cell.text == "-") && ExtractPrice(cell.text).Some?
  }

  /**
    * The newer scrapers make a record exactly for a parsable date with a
    * priced cell; it carries the route, the date, the extracted price (a
    * price `_convert_price_to_int` keeps as it is), the adjusted week and
    * no times.
    */
  lemma NewRecordSpec(route: Route, dateAttr: Option<string>, cell: PriceCell)
    ensures NewRecord(route, dateAttr, cell).Err? <==> AttributeDate(dateAttr) == Some(1) && ShowsPrice(cell)
    ensures NewRecord(route, dateAttr, cell).Ok? && NewRecord(route, dateAttr, cell).value.Some? <==>
      AttributeDate(dateAttr).Some? && AttributeDate(dateAttr).value >= 2 && ShowsPrice(cell)
    ensures NewRecord(route, dateAttr, cell).Ok? && NewRecord(route, dateAttr, cell).value.Some? ==>
      var rec := NewRecord(route, dateAttr, cell).value.value;
      && rec.start == route.start && rec.startName == route.startName && rec.end == route.end && rec.endName == route.endName
      && rec.date == AttributeDate(dateAttr).value
      && ConvertPrice(rec.price) == Ok(ExtractPrice(cell.text).value)
      && Converts(rec.price, rec.price)
      && rec.week == IsoCalendar(rec.date - 1).week
      && rec.startTime.None? && rec.backTime.None?
  {
    if dateAttr.Some? {
      ParsedDatesAreDays(dateAttr.value);
      EmptyDateRejected();
      match ParseDateAs(dateAttr.value, YearMonthDayDash)
      case None =>
      case Some(d) => NewDaySpec(route, d, cell);
    }
  }

  /** `strptime` rejects an empty text, so the newer scrapers' emptiness check skips nothing it would parse. */
  lemma EmptyDateRejected()
    ensures ParseDateAs("", YearMonthDayDash) == None
  {
  }

  /** The newer scrapers' rule on a parsed date: an error only for the first day, a record exactly for a priced cell. */
  lemma NewDaySpec(route: Route, d: Date, cell: PriceCell)
    requires d >= 1
    ensures NewDay(route, d, cell).Err? <==> d == 1 && ShowsPrice(cell)
    ensures NewDay(route, d, cell).Ok? && NewDay(route, d, cell).value.Some? <==> d >= 2 && ShowsPrice(cell)
    ensures NewDay(route, d, cell).Ok? && NewDay(route, d, cell).value.Some? ==>
      var rec := NewDay(route, d, cell).value.value;
      && rec.start == route.start && rec.startName == route.startName && rec.end == route.end && rec.endName == route.endName
      && rec.date == d
      && ConvertPrice(rec.price) == Ok(ExtractPrice(cell.text).value)
      && Converts(rec.price, rec.price)
      && rec.week == IsoCalendar(rec.date - 1).week
      && rec.startTime.None? && rec.backTime.None?
  {
    if ShowsPrice(cell) && d >= 2 {
      var p := ExtractPrice(cell.text).value;
      assert NewDay(route, d, cell) == Ok(Some(RecordOn(route, d, IntPrice(p)).value));
    }
  }

  /** A date `strptime` accepts is on or after 0001-01-01. */
  lemma ParsedDatesAreDays(dateText: string)
    ensures ParseDateAs(dateText, YearMonthDayDash).Some? ==> ParseDateAs(dateText, YearMonthDayDash).value >= 1
  {
    if ParseDateAs(dateText, YearMonthDayDash).Some? {
      var c := Fields(dateText, YearMonthDayDash);
      OrdinalInYear(c.year, c.month, c.day);
      DaysBeforeYearBound(c.year);
    }
  }

  /**
    * Where the oldest scraper reads a price span with digits, it makes the
    * same record as the newer ones. A price div other than '-', which the
    * newer scrapers read like a span, or no price element at all, is an
    * error there.
    */
  lemma ScrapersAgree(route: Route, d: Date, cell: PriceCell)
    ensures cell.Span? && ExtractPrice(cell.text).Some? ==> LegacyDay(route, d, cell) == NewDay(route, d, cell)
    ensures cell.Div? && cell.text != "-" ==>
      LegacyDay(route, d, cell) == Err(NoSuchElement) && NewDay(route, d, cell) == NewDay(route, d, Span(cell.text))
    ensures cell.NoCell? ==> LegacyDay(route, d, cell) == Err(NoSuchElement) && NewDay(route, d, cell) == Ok(None)
  {
  }

  /**
    * The `data-value` attribute: a missing one aborts the oldest scraper
    * with a TypeError where the newer ones skip the day; otherwise the
    * scrapers skip the same unparsable dates and apply their day rules to
    * the same date.
    */
  lemma ScrapersOnAttribute(route: Route, dateAttr: Option<string>, cell: PriceCell)
    ensures dateAttr.None? ==> LegacyRecord(route, dateAttr, cell) == Err(MissingDateAttribute) && NewRecord(route, dateAttr, cell) == Ok(None)
    ensures dateAttr.Some? && AttributeDate(dateAttr).None? ==> LegacyRecord(route, dateAttr, cell) == Ok(None) == NewRecord(route, dateAttr, cell)
    ensures AttributeDate(dateAttr).Some? ==>
      && LegacyRecord(route, dateAttr, cell) == LegacyDay(route, AttributeDate(dateAttr).value, cell)
      && NewRecord(route, dateAttr, cell) == NewDay(route, AttributeDate(dateAttr).value, cell)
  {
    EmptyDateRejected();
  }

  /**
    * A digit-free price text: the newer scrapers skip the day, the oldest
    * stores a record with no price, which `_convert_price_to_int` rejects.
    */
  lemma MissingPriceStored(route: Route, d: Date, text: string)
    requires d >= 2 && ExtractPrice(text) == None
    ensures NewDay(route, d, Span(text)) == Ok(None)
    ensures LegacyDay(route, d, Span(text)).Ok? && LegacyDay(route, d, Span(text)).value.Some?
    ensures ConvertPrice(LegacyDay(route, d, Span(text)).value.value.price) == Err(WrongPriceType)
  {
  }
}
