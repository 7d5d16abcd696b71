/**
  * The records the processors work on: a scraped one-way flight price
  * (`FlightInfo`, mutable: processors rewrite its price and attach
  * timetable times), a seasonal timetable entry (`FlightTimetable`, frozen)
  * and a round trip, the `{'start_flight', 'back_flight', 'total_price'}`
  * dictionary of the processors.
  */
module Models {
  import opened Wrappers
  import opened Calendar

  /** A time of day in whole minutes after midnight (`datetime.time` with zero seconds). */
  type Time = t: int | 0 <= t < 1440

  /** `time(hour=h, minute=m)`. */
  function TimeOf(hour: int, minute: int): (t: Time)
    requires 0 <= hour < 24 && 0 <= minute < 60
    ensures t / 60 == hour && t % 60 == minute
  {
    hour * 60 + minute
  }

  /**
    * A price as scraped: normally an int, a decimal string in older data,
    * or `None` where the oldest scraper found no digits.
    */
  datatype Price = IntPrice(amount: int) | StrPrice(text: string) | NoPrice

  /** The exceptions the core raises, with the value that caused them. */
  datatype Error =
    | DateFormatError(text: string)    // ValueError from `_parse_date`
    | TimeFormatError(text: string)    // ValueError from `_parse_time`
    | UnknownWeekday(token: WeekdayToken)  // ValueError from `_parse_to_weekday_number`
    | PriceParseError(text: string)    // ValueError from `int(price)`
    | WrongPriceType                   // ValueError for a price that is neither int nor str
    | KeyError(key: string)            // a missing timetable key
    | NameError(name: string)          // an undefined local name
    | HourError(hour: int)             // ValueError from `time(hour=...)` outside 0..23
    | DateOverflow(date: int)          // OverflowError from stepping back from 0001-01-01
    | NoSuchElement                    // NoSuchElementException re-raised by the oldest scraper
    | MissingDateAttribute             // TypeError from `strptime(None)` in the oldest scraper

  /** A weekday as timetable files write it: a Polish abbreviation or a number 1..7. */
  datatype WeekdayToken = Name(name: string) | Number(n: int)

  /** A one-way flight offer on one date. */
  class FlightInfo {
    /** IATA code and name of the departure airport. */
    const start: string
    const startName: string
    /** IATA code and name of the arrival airport. */
    const end: string
    const endName: string
    const date: Date
    /** The adjusted ISO week the scraper computed from `date`. */
    const week: int
    var price: Price
    /** Departure time from the timetable, attached by the processors. */
    var startTime: Option<Time>
    /** Return-leg departure time from the timetable, attached by the processors. */
    var backTime: Option<Time>

    constructor (start: string, startName: string, end: string, endName: string, date: Date,
                 price: Price, week: int, startTime: Option<Time>, backTime: Option<Time>)
      ensures this.start == start && this.startName == startName
      ensures this.end == end && this.endName == endName
      ensures this.date == date && this.week == week
      ensures this.price == price && this.startTime == startTime && this.backTime == backTime
    {
      this.start := start;
      this.startName := startName;
      this.end := end;
      this.endName := endName;
      this.date := date;
      this.price := price;
      this.week := week;
      this.startTime := startTime;
      this.backTime := backTime;
    }
  }

  /** A seasonal timetable entry; weekdays are numbered Monday = 0 .. Sunday = 6. */
  datatype FlightTimetable = FlightTimetable(
    startTime: Time,
    landingTime: Time,
    weekdays: seq<int>,
    startDate: Date,
    endDate: Date)

  /** A round trip: an outbound leg, a return leg and the sum of their prices. */
  datatype Trip = Trip(start: FlightInfo, back: FlightInfo, total: int)

  /** Trips by the IATA code of the away airport. */
  type TripsDict = map<string, seq<Trip>>

  /** The flights of a list, as a set. */
  function Flights(s: seq<FlightInfo>): set<FlightInfo> {
    set i | 0 <= i < |s| :: s[i]
  }

  /** Every price of `s` has been converted to an int. */
  predicate Converted(s: seq<FlightInfo>)
    reads s
  {
    forall i | 0 <= i < |s| :: s[i].price.IntPrice?
  }

  /** The prices of two lists are converted once those of their concatenation are. */
  lemma ConvertedSplit(a: seq<FlightInfo>, b: seq<FlightInfo>)
    requires Converted(a + b)
    ensures Converted(a) && Converted(b)
  {
    forall i | 0 <= i < |a| ensures a[i].price.IntPrice? {
      assert a[i] == (a + b)[i];
    }
    forall i | 0 <= i < |b| ensures b[i].price.IntPrice? {
      assert b[i] == (a + b)[|a| + i];
    }
  }

  /** The trip of `s` and `b` as the matchers build it, priced at the current prices. */
  function TripOf(s: FlightInfo, b: FlightInfo): (t: Trip)
    reads s`price, b`price
    requires s.price.IntPrice? && b.price.IntPrice?
  {
    Trip(s, b, s.price.amount + b.price.amount)
  }

  /** Both legs carry int prices and the trip's total is their sum. */
  predicate SumPriced(t: Trip)
    reads t.start, t.back
  {
    t.start.price.IntPrice? && t.back.price.IntPrice? && t.total == t.start.price.amount + t.back.price.amount
  }

  /** The sort key of every trip list: `key=lambda x: x['total_price']`. */
  function Total(t: Trip): int {
    t.total
  }
}
