# KiwiFlightSearch trip matching, in Dafny

KiwiFlightSearch scrapes one-way flight prices between Polish airports and
destinations abroad. It then turns two lists of priced one-way flights into
round trips and ranks them:
- `poland_to_anywhere` holds the outbound legs;
- `anywhere_to_poland` holds the return legs.

This project models that matching and filtering engine and proves what it
computes.

- **Shared helpers** (`BaseFlightProcessor`, in the package and in a legacy copy):
  - price normalisation to `int`;
  - the strict per-leg and per-trip price ceilings;
  - grouping flights by airport;
  - the timetable parsers: dates in three layouts, `HH:MM` times, Polish weekday tokens;
  - the first-match timetable lookup `get_flight_time`.
- **Weekend policy** (`FlightProcessorWeekends`). Legs are pre-filtered by weekday and bucketed by adjusted week number. Legs are paired within a week, with the return not before the departure. Each leg is given its timetable time. The same-day rule is applied, then the trip ceiling.
- **Duration policy** (`FlightProcessorDuration`). Every outbound leg is paired with every return leg of the same airport. A trip must return strictly later, inside an optional date window, and last between a minimum and a maximum number of days.
- **Oldest processor** (`FlightProcessor` in `flights_processor.py`). This is a dict-based weekend matcher. It has fixed settings, no date-order check, and de-duplicates trips as it inserts them.
- **Scraper helpers** used by the engine:
  - price extraction, which takes the first run of digits;
  - the adjusted week number: a Monday is moved back to the Sunday before, then the ISO 8601 week number is taken (ISO 8601:2004, section 4.1.4, week dates);
  - the rule that turns one date-picker day cell into a flight record.
- **Listing**: the grouping, de-duplication and ordering keys of the HTML formatters, without the rendering.

Modules:
- `Wrappers`: `Option` and `Result`.
- `Seqs`: filter, stable insertion sort, group-by and de-duplication, with their lemmas.
- `Text`: digits, `int()` and `str()` of integers, string order.
- `Calendar`: proleptic Gregorian day numbers, weekdays, ISO weeks, the adjusted week.
- `Models`: `FlightInfo`, `FlightTimetable` and `Trip`.
- `Timetable`: the parsers and the lookup.
- `Base`: the shared helpers.
- `Pairing`: the nested pairing loops.
- `Weekends` and `Duration`: the two processors.
- `Listing`: the formatters' data.
- `Scraping`: the scraper helpers.
- `Legacy`: `flights_processor.py`.

Representation:
- A date is its proleptic Gregorian ordinal (`date.toordinal()`; 0001-01-01 is day 1). A time of day is a number of minutes, 0..1439.
- `FlightInfo` is a class. Its price and its two timetable times are mutable fields, because the processors overwrite them in place. The same object can sit in many trips.
- A trip is a value `Trip(start, back, total)`. A `TripsDict` is `map<string, seq<Trip>>`.
- Python's `list.sort` is stable, so sorting is a stable insertion sort by total price.
- Errors are `Result` values naming the Python exception: `ValueError`, `KeyError`, `NameError`, `OverflowError`.
- The dict-based legacy processor works on value snapshots (`FlightRecord`, `TripRecord`), which are also what `str()`-based de-duplication compares.

Where the documentation and the code disagree, the model follows the code:
- The legacy weekend processor's docstring says returns fall on Saturday, Sunday or Monday. Its code, like the package's, uses Sunday, Monday and Tuesday (`{6, 0, 1}`).
- The package duration processor names an undefined variable. It is modelled as written and as evidently intended (see Findings).

## Model

| member | source | states |
|---|---|---|
| Models.FlightInfo.constructor | kiwiflight/models.py:5-21 | a flight record holds the nine fields it is built from: route, names, date, price, week, and both times (`None` until enrichment); the copy at kiwi_scrapper.py lines 20-30 behaves the same |
| Base.ConvertPriceSpec | kiwiflight/processing/base.py:95-100 | an int price is kept; a string converts exactly when it is a decimal integer literal, to the value it spells; any other price is a ValueError; `int(str(n)) == n`; the copy at base_flights_processor.py lines 224-228 behaves the same |
| Base.ConvertPriceIdempotent | kiwiflight/processing/base.py:95-100 | converting an already converted price gives the same int |
| Base.ConvertPrices | kiwiflight/processing/base.py:102-105 | writes prices only. It succeeds iff every price converts, and then each flight's price is the int its old price converts to. On failure the error is that of the first price that does not convert; the flights before it hold their converted prices and the flights after it their old ones. The copy at base_flights_processor.py lines 240-242 behaves the same |
| Base.FilterByPrice | kiwiflight/processing/base.py:76-77 | every flight kept is from the input and priced strictly under the limit |
| Base.FilterByPriceCount | kiwiflight/processing/base.py:76-77 | a flight is kept once per input copy iff its price is under the limit, never otherwise |
| Base.FilterByPriceAppend | kiwiflight/processing/base.py:76-77 | the filter distributes over concatenation, so it keeps input order |
| Base.FilterByPriceIdempotent | kiwiflight/processing/base.py:76-77 | filtering twice by the same limit equals filtering once |
| Base.FilterByPriceCounts | base_flights_processor.py:174 | the legacy per-leg filter keeps a sub-multiset, with every cheap flight kept in all its copies |
| Base.TotalPriceFilteredSpec | kiwiflight/processing/base.py:79-85 | an airport stays iff one of its trips costs strictly less than the limit; every kept trip does; every such trip is kept in all its copies |
| Base.TotalPriceFilteredIdempotent | kiwiflight/processing/base.py:79-85 | applying the trip ceiling twice equals applying it once |
| Base.KeepUnderLimit | kiwiflight/processing/base.py:82-84 | the inner loop returns the airport's trips under the ceiling, in order |
| Base.FilterByTotalPrice | kiwiflight/processing/base.py:79-85 | the default-dict loop builds exactly the filtered map, so an airport without survivors gets no key; the copy at base_flights_processor.py lines 186-191 behaves the same |
| Base.GroupFlightsByKey | kiwiflight/processing/base.py:88-92 | the append loop builds exactly the group-by map |
| Seqs.GroupByPartition | kiwiflight/processing/base.py:88-92 | the keys are the attribute values present; each item is in the group of its key with all its copies; every group holds only its key's items and is non-empty |
| Seqs.GroupByMembership | base_flights_processor.py:205-208 | an item is in group `k` iff it is in the input and its attribute is `k` |
| Seqs.FilterSorted | kiwiflight/processing/base.py:79-85 | filtering a sorted list leaves it sorted, so the trip ceiling keeps each list ordered by total |
| Base.SortByTotal | kiwiflight/processing/weekends.py:55-56 | the sort gives a permutation of the input, ascending by total price, with trips of equal total in input order |
| Timetable.ParseFormattedDate | kiwiflight/processing/base.py:30-38 | a valid date written in one of the three layouts parses back to that date |
| Timetable.ParsedDateIsFormatted | kiwiflight/processing/base.py:30-38 | a text a layout accepts is exactly the zero-padded text of the date it yields |
| Timetable.ShapesExclusive | kiwiflight/processing/base.py:32 | no text has the shape of two layouts |
| Timetable.ParseDate | kiwiflight/processing/base.py:30-38 | succeeds iff some layout accepts the text, with the date of the first layout that does; otherwise a ValueError naming the text; the copy at base_flights_processor.py lines 55-78 behaves the same |
| Timetable.DefaultFormatsRoundTrip | base_flights_processor.py:69-78 | with the default order Y-m-d, Y/m/d, d.m.Y, a date in any layout parses back to itself |
| Timetable.ParseTime | kiwiflight/processing/base.py:41-44 | the empty text is 23:59; any other accepted text is `HH:MM`; a failure is a ValueError naming the text |
| Timetable.ParseFormattedTime | kiwiflight/processing/base.py:41-44 | every time of day formatted as `HH:MM` parses back to itself |
| Timetable.ParsedTimeIsFormatted | base_flights_processor.py:96-102 | every non-empty text accepted is the `HH:MM` text of the time it yields |
| Timetable.WeekdayOf | kiwiflight/processing/base.py:48-49 | a known token maps to a weekday in 0..6 |
| Timetable.WeekdayNumbers | kiwiflight/processing/base.py:47-55 | succeeds iff every token is known; the output has the input's length and order; on failure a ValueError names an unknown token |
| Timetable.ParseToWeekdayNumbers | kiwiflight/processing/base.py:50-55 | the append loop computes exactly `WeekdayNumbers`; the copy at base_flights_processor.py lines 118-133 behaves the same |
| Timetable.KatowiceNamesAgree | timetable_processors/KTW_timetable_processor.py:11 | the Katowice weekday names and the numbers 1..7 denote the same weekday |
| Timetable.ParseEntry | kiwiflight/processing/base.py:62-70 | an entry parses iff all five fields parse; its weekdays are in 0..6 |
| Timetable.ParseEntries | kiwiflight/processing/base.py:60-70 | a route's entries parse in file order, or the error is that of the first entry that fails, every entry before it parsing |
| Timetable.ParseRoutes | kiwiflight/processing/base.py:57-72 | an airport with entries gets its parsed list; an airport with none gets no key |
| Timetable.ParseTimetable | kiwiflight/processing/base.py:57-72 | succeeds iff every entry parses, giving the parsed document; otherwise the error of an entry that fails; the copy at base_flights_processor.py lines 135-160 behaves the same |
| Timetable.FirstMatchSpec | kiwiflight/processing/base.py:111-115 | a time is found iff some entry runs on the date (in season, on a listed weekday), and it is the start time of the earliest such entry |
| Timetable.FlightTime | kiwiflight/processing/base.py:107-115 | succeeds iff the airport, direction and route keys all exist (otherwise a KeyError for the first missing one); then it gives the first match or `None` |
| Timetable.ArrivalsSwapEnds | kiwiflight/processing/base.py:108-109 | an arrival is looked up in its destination's timetable, keyed by its origin |
| Timetable.GetFlightTime | kiwiflight/processing/base.py:107-115 | the lookup loop returns exactly `FlightTime`; the copy at base_flights_processor.py lines 255-263 behaves the same |
| Base.TripTimes | kiwiflight/processing/weekends.py:65-66 | a trip's two lookups, outbound first, succeed iff both do; otherwise the first error |
| Calendar.IsoCalendarBounds | kiwiflight/scraping/playwright_scraper.py:130 | the ISO week number lies in 1..53 and the ISO weekday in 1..7 |
| Calendar.FourthOfJanuaryInWeekOne | kiwiflight/scraping/playwright_scraper.py:130 | 4 January is always in week 1 of its own ISO year |
| Calendar.SameWeekAsMonday | kiwiflight/scraping/playwright_scraper.py:127-130 | every day from a Monday to the Sunday after it has that Monday's ISO week |
| Calendar.DistinctIsoWeeks | kiwiflight/scraping/playwright_scraper.py:130 | two Mondays at most 363 days apart have different ISO week numbers |
| Calendar.WeekNumberIsPreviousDayIsoWeek | kiwiflight/scraping/playwright_scraper.py:127-130 | the adjusted week is the ISO week of the day before, in 1..53; the copy at flights_processor.py lines 28-31 behaves the same |
| Calendar.MondayExample | kiwiflight/scraping/playwright_scraper.py:128-129 | Monday 2025-09-15 is in ISO week 38, but its adjusted week is 37 |
| Calendar.WeekCollisionExample | kiwiflight/scraping/playwright_scraper.py:130 | Friday 2025-09-12 and Tuesday 2026-09-08 share adjusted week 37, because the ISO year is dropped |
| Calendar.NoTuesdayInStartWeek | kiwiflight/processing/weekends.py:20-21 | a Friday or Saturday never shares its adjusted week with a Tuesday after it that is less than 360 days later |
| Scraping.AdjustedWeek | kiwiflight/scraping/playwright_scraper.py:127-130 | defined iff a day precedes the date; then the ISO week of the day before, in 1..53; otherwise an OverflowError; the copies at kiwi_scrapper_new.py lines 61-64 and kiwi_scrapper.py lines 65-68 behave the same |
| Scraping.ExtractPriceSpec | kiwiflight/scraping/playwright_scraper.py:122-124 | `None` iff the text has no digit; otherwise the value of the first run of digits; the copy at kiwi_scrapper.py lines 61-62 behaves the same |
| Scraping.ExtractPriceExamples | kiwiflight/scraping/playwright_scraper.py:122-124 | "1 234" gives 1 and "-" gives `None` |
| Scraping.ExtractShownPrice | kiwi_scrapper_new.py:57-58 | a number written between digit-free texts is read back exactly |
| Scraping.NewRecordSpec | kiwiflight/scraping/playwright_scraper.py:157-185 | a missing or empty `data-value` attribute is skipped; a record is made iff the attribute's date parses and the cell shows digits. It has the route's codes and names, the date, the extracted int price, the adjusted week and no times; the copy at kiwi_scrapper_new.py lines 103-139 behaves the same |
| Scraping.NewDaySpec | kiwiflight/scraping/playwright_scraper.py:165-185 | on a parsed date, a record is made iff the cell shows digits and a day precedes the date; only 0001-01-01 with a priced cell is an error |
| Scraping.ScrapersAgree | kiwi_scrapper.py:100-119 | on a price span with digits the oldest scraper makes the same record; a non-'-' div or a missing element is re-raised there |
| Scraping.ScrapersOnAttribute | kiwi_scrapper.py:93-97 | a day cell without a `data-value` attribute aborts the oldest scraper with a TypeError, which its `except ValueError` does not catch, while the newer scrapers skip it (playwright_scraper.py lines 158-160); an attribute that does not parse is skipped by both, and a parsed date goes to each scraper's day rule |
| Scraping.MissingPriceStored | kiwi_scrapper.py:110-119 | for any day after the first and any price text without a digit, the newer scrapers skip the day; the oldest stores a record with no price, which price conversion later rejects |
| Pairing.PairsCount | kiwiflight/processing/duration.py:43-53 | the nested loops yield a trip once per copy of its outbound leg times once per copy of its return leg when the pair is accepted and the total is the sum of the prices, else never |
| Pairing.PairsMembership | kiwiflight/processing/duration.py:43-53 | a trip is yielded iff both legs are listed, the pair is accepted and the total is the sum |
| Pairing.PairsOnce | kiwiflight/processing/weekends.py:46-54 | with no repeated legs, each accepted pair yields exactly one trip |
| Pairing.PairRow | kiwiflight/processing/duration.py:47-53 | the inner loop yields the accepted return legs in order |
| Pairing.PairUp | kiwiflight/processing/duration.py:44-53 | the nested loops yield the pairs, outbound leg outermost |
| Weekends.FilterByWeekdays | kiwiflight/processing/weekends.py:26-27 | keeps exactly the flights on the given weekdays, each in all its copies; the copy at flights_processor_weekends.py line 51 behaves the same |
| Weekends.FilterByWeekdaysAppend | kiwiflight/processing/weekends.py:26-27 | the filter distributes over concatenation, so it keeps input order |
| Weekends.WeekStep | kiwiflight/processing/weekends.py:45-54 | pairing one more week's buckets adds exactly that week's date-ordered pairs |
| Weekends.AllWeeks | kiwiflight/processing/weekends.py:39-54 | pairing over the weeks common to both directions gives every same-week, date-ordered pair |
| Weekends.PairCommonWeeks | kiwiflight/processing/weekends.py:45-54 | the bucket loops produce, up to order, every same-week pair with the return not earlier |
| Weekends.MatchAirport | kiwiflight/processing/weekends.py:37-56 | an airport's trips are sorted by total and are, as a multiset, the pairs that match |
| Weekends.FindAvailableTrips | kiwiflight/processing/weekends.py:30-57 | an airport has a key iff it is in both maps and one of its pairs matches; each list is sorted and holds exactly the matching pairs; the copy at flights_processor_weekends.py lines 71-104 behaves the same |
| Weekends.Combine | kiwiflight/processing/weekends.py:76-77 | a combined datetime gives back its date as the whole days and its time as the minutes left over |
| Weekends.KeepRuleSpec | kiwiflight/processing/weekends.py:69-79 | a trip with a missing time is dropped; a trip whose legs are on different dates is kept; a same-date trip that leaves after the latest start is dropped, otherwise it is kept iff the combined return datetime is at least the minimum hours after the combined departure datetime; the copy at flights_processor_weekends.py lines 131-153 behaves the same |
| Weekends.KeptTripsIsFilter | kiwiflight/processing/weekends.py:62-79 | the survivors are the trips that pass the rule, in their relative order |
| Base.StoreStartTime | kiwiflight/processing/weekends.py:67 | the outbound leg now carries its departure time; every leg that carried its time still does |
| Base.StoreBackTime | kiwiflight/processing/weekends.py:68 | the return leg now carries its return time, so the trip is enriched; every leg that carried its time still does |
| Weekends.EnrichTrip | kiwiflight/processing/weekends.py:65-68 | both lookups are made; on success both times are written onto the shared flights, even for a trip that is then dropped |
| Weekends.EnrichTrips | kiwiflight/processing/weekends.py:62-79 | succeeds iff every lookup does; gives the kept trips; all legs carry their times; otherwise the first lookup error, with every trip before the failing one carrying both its times |
| Weekends.FilterAndEnrich | kiwiflight/processing/weekends.py:59-80 | over all airports: succeeds iff every lookup does; gives each airport's kept trips; all legs carry their times |
| Weekends.EnrichAirport | kiwiflight/processing/weekends.py:61-79 | one airport of the loop: succeeds iff every lookup of its trips does; then the result is the kept trips of the airports done plus this one, and their legs and this airport's legs carry their times; otherwise the error of one of its trips' lookups |
| Weekends.NewWeekendSettings | kiwiflight/processing/weekends.py:17-22 | the latest start is the full hour `max_start_hour`; an hour outside 0..23 is a ValueError |
| Weekends.SelectLegs | kiwiflight/processing/weekends.py:128-131 | the weekday filter and then the leg ceiling select exactly the listed legs on those days under the limit |
| Weekends.MatchWeekendLegs | kiwiflight/processing/weekends.py:128-134 | filter, group by airport, then match: exactly the weekend pairs' trips, each list sorted |
| Weekends.OfferedSound | kiwiflight/processing/weekends.py:134-136 | every offered trip is a weekend pair that passes the timing rule and the trip ceiling, and its legs carry their times |
| Weekends.OfferedComplete | kiwiflight/processing/weekends.py:134-136 | every weekend pair that passes the timing rule and the trip ceiling is offered |
| Weekends.SelectWeekendTrips | kiwiflight/processing/weekends.py:128-136 | succeeds iff every weekend pair's lookups succeed. Then the offered trips are exactly those that pass, sorted, with times written on every pair's legs. A leg in no weekend pair keeps its times |
| Weekends.ProcessWeekends | kiwiflight/processing/weekends.py:123-136 | writes only prices, outbound departure times and return times. Convert, then select: succeeds iff every price converts and every pair's lookups succeed. When a price fails, the error is the first failing price's, the prices before it are converted, the rest keep their old ones, and no time is written. When the prices convert, they are all converted, and the error (if any) is a weekend pair's lookup error. A leg in no weekend pair keeps its times. The copy at flights_processor_weekends.py lines 226-240 behaves the same |
| Weekends.EnrichAndLimit | kiwiflight/processing/weekends.py:135-136 | enrich, then apply the trip ceiling. Succeeds iff every found trip's lookups do. Then every kept trip is a weekend pair's trip that passes the timing rule and the ceiling, every such pair's trip is kept, each list stays sorted by total, and both legs of every weekend pair carry their times. Otherwise the error is some weekend pair's lookup error. A leg in no weekend pair keeps its times |
| Weekends.EnrichPairs | kiwiflight/processing/weekends.py:59-80 | enriching the weekend pairs' trips succeeds iff every lookup does, giving the kept trips with all their legs timed; otherwise some weekend pair's lookup error. It writes only outbound departure and return times, and a leg in no weekend pair keeps its times |
| Weekends.EnrichPairLegs | kiwiflight/processing/weekends.py:59-80 | given exactly the legs of the weekend pairs' trips and writing only their times: succeeds iff every lookup does, giving the kept trips with all those legs timed; otherwise some weekend pair's lookup error |
| Weekends.NoTuesdayReturn | kiwiflight/processing/weekends.py:20-21 | no weekend pair whose legs are less than 360 days apart returns on a Tuesday |
| Duration.WindowBound | kiwiflight/processing/duration.py:24-25 | an absent or empty bound is `None`; any other bound must parse as `%d.%m.%Y`, else a ValueError |
| Duration.WindowBoundOfFormatted | kiwiflight/processing/duration.py:24-25 | a date written as `%d.%m.%Y` becomes that bound |
| Duration.NewDurationSettings | kiwiflight/processing/duration.py:19-25 | settings exist iff both bounds parse, holding the limits and the parsed bounds; otherwise the start bound's ValueError, else the end bound's; the copy at flights_processor_duration.py lines 24-41 behaves the same |
| Duration.ValidTripInWindow | kiwiflight/processing/duration.py:28-41 | an accepted pair leaves inside the window, returns strictly later and inside the window, and lasts between the minimum and maximum days; the copy at flights_processor_duration.py lines 43-62 behaves the same |
| Duration.WindowTripValid | kiwiflight/processing/duration.py:28-41 | conversely, such a pair passes both checks |
| Duration.RowOfInvalidStart | kiwiflight/processing/duration.py:44-46 | an outbound leg outside the window yields no trip |
| Duration.FindTripsForIata | kiwiflight/processing/duration.py:43-53 | the generator yields exactly the accepted pairs in loop order; the copy at flights_processor_duration.py lines 64-75 behaves the same |
| Duration.TripsForIataMembers | kiwiflight/processing/duration.py:43-53 | a trip is yielded iff its legs are listed and pass both checks, with the total as the sum; with its multiplicity |
| Duration.CollectTrips | kiwiflight/processing/duration.py:59-64 | every common airport gets the accepted pairs of its legs |
| Duration.SortTripLists | kiwiflight/processing/duration.py:65-66 | each list is stably sorted by total; the keys are unchanged |
| Duration.FindAvailableTrips | kiwiflight/processing/duration.py:56-67 | the keys are exactly the common airports; each list is a sorted, stable permutation of the accepted pairs; the copy at flights_processor_duration.py lines 90-99 behaves the same |
| Duration.AddTripTimes | kiwiflight/processing/duration.py:71-75 | one trip's lookups. A successful departure lookup is written onto the outbound flight even when the return lookup then fails. A failed departure lookup writes nothing. On a failure the return time is untouched; on success both times are written onto the shared flights |
| Duration.AddListTimes | kiwiflight/processing/duration.py:71-75 | one list: succeeds iff every lookup does; no trip is removed; otherwise the first lookup error, with every trip before the failing one carrying both its times and the failing trip's departure time written when only its return lookup failed |
| Duration.AddFlightTimes | kiwiflight/processing/duration.py:69-76 | succeeds iff every lookup does, and returns the map unchanged with every leg carrying its time; the copy at flights_processor_duration.py lines 113-119 behaves the same |
| Duration.AddAirportTimes | kiwiflight/processing/duration.py:71-75 | one airport of the loop: succeeds iff every lookup of its trips does; then the legs of this airport and of the airports done carry their times; otherwise the error of one of its trips' lookups |
| Duration.SelectCheap | flights_processor_duration.py:197-198 | the leg ceiling keeps exactly the listed legs under the limit |
| Duration.MatchDurationLegs | flights_processor_duration.py:197-203 | leg ceiling, group by airport, match: exactly the duration pairs' trips, each list sorted |
| Duration.OfferDurationTrips | flights_processor_duration.py:197-204 | after the trip ceiling: exactly the pairs whose total is also under the limit, in non-empty sorted lists |
| Duration.TimeOffered | flights_processor_duration.py:205 | enriching the offered trips succeeds iff every offered pair's lookups do, and changes no list. A leg in no offered pair keeps its times |
| Duration.AddOfferedTimes | flights_processor_duration.py:205 | given exactly the legs of the offered trips and writing only their times: succeeds iff every lookup of those trips does, returning the trips unchanged with all those legs timed; otherwise an offered pair's lookup error |
| Duration.SelectDurationTrips | flights_processor_duration.py:197-205 | the selected trips are exactly the offered pairs, sorted, with their times; otherwise a lookup error. A leg in no offered pair keeps its times |
| Duration.ProcessDuration | flights_processor_duration.py:178-206 | writes only prices, outbound departure times and return times. Convert, then select: succeeds iff every price converts and every offered pair's lookups succeed. When a price fails, the error is the first failing price's, the prices before it are converted, the rest keep their old ones, and no time is written. When the prices convert, they are all converted, and the error (if any) is an offered pair's lookup error. A leg in no offered pair keeps its times |
| Duration.ProcessDurationAsWritten | kiwiflight/processing/duration.py:121-133 | every call fails: with the first bad price's error, the prices before it converted in place and the rest untouched, or, once every price converts in place, with NameError |
| Listing.Rows | kiwiflight/processing/duration.py:80-88 | the formatter works on each airport of a processor result with one record per trip, in order; each record holds the total and every field of both legs |
| Listing.SameText | kiwiflight/processing/duration.py:88 | two trips have equal records iff their totals and all nine fields of both legs agree, which is when `str` prints them the same; the weekend formatter (kiwiflight/processing/weekends.py line 96) de-duplicates by the same text |
| Listing.UniqueByTotalSpec | kiwiflight/processing/duration.py:88-89 | de-duplicating and sorting gives a sorted list without repeats, holding exactly the input's trips; the first is the cheapest; the weekend formatter (kiwiflight/processing/weekends.py lines 96-98) de-duplicates and sorts each week the same way |
| Listing.UniqueByTotalOfSorted | flights_processor_duration.py:133-134 | on an already sorted list without repeats, de-duplicating and sorting changes nothing |
| Listing.CheapestFirst | kiwiflight/processing/duration.py:93-94 | the first trip of a sorted list is a cheapest one |
| Listing.ShownTimeSpec | kiwiflight/processing/duration.py:105-109 | a missing time shows as "N/A"; a present one shows as `HH:MM` text that parses back to it |
| Listing.DestinationsSpec | kiwiflight/processing/weekends.py:84-88 | destinations are ordered by name, and empty lists are skipped; the copy at flights_processor_weekends.py lines 158-165 behaves the same |
| Listing.DurationListingSpec | kiwiflight/processing/duration.py:79-111 | every airport with trips is listed exactly once. Each entry holds its de-duplicated, sorted trips, with the first one's name and total, which is the lowest. The copy at flights_processor_duration.py lines 121-176 behaves the same |
| Listing.DurationPageSpec | kiwiflight/processing/duration.py:79-111 | on a processor's result: every airport with trips is listed once. Each entry lists every trip's text once, cheapest first, and nothing else, with a cheapest trip's destination name and total |
| Listing.WeeksSpec | kiwiflight/processing/weekends.py:92-95 | the sections are the weeks of the trips' outbound legs, strictly ascending |
| Listing.InWeekSpec | kiwiflight/processing/weekends.py:92-94 | a week's section holds exactly the trips whose outbound leg is in that week |
| Listing.WeekSectionsSpec | kiwiflight/processing/weekends.py:92-98 | weeks are ascending and every trip's week appears; each section is de-duplicated and sorted |
| Listing.WeekendListingSpec | kiwiflight/processing/weekends.py:83-113 | every airport with trips is listed exactly once. Each entry shows its first trip's destination name and total, and its week sections. On a list sorted by total, that total is the cheapest. The copy at flights_processor_weekends.py lines 156-211 behaves the same |
| Listing.WeekendPageSpec | kiwiflight/processing/weekends.py:83-113 | on a processor's result: every airport with trips is listed once. Each entry shows the destination name and total of the airport's first trip, and the weeks of its trips' records; on a list sorted by total, that total is the cheapest |
| Legacy.FilterByWeekdaysSpec | flights_processor.py:20-21 | keeps a flight, in all its copies, iff its weekday is in the set |
| Legacy.FilterByPriceSpec | flights_processor.py:24-25 | keeps a flight, in all its copies, iff its price is strictly under the limit; a flight at the limit is dropped; the filter is idempotent |
| Legacy.ConvertPrices | flights_processor.py:114-124 | succeeds iff every price converts, giving the list with int prices and nothing else changed; otherwise the first failing price's error |
| Legacy.AddWeekNumbers | flights_processor.py:28-35 | every flight gets the adjusted week of its date and keeps all else; otherwise the OverflowError of the first date with no day before it |
| Legacy.AllPairsMembers | flights_processor.py:59-65 | the pair loops produce exactly the trips of listed legs priced as the sum, with no date-order check |
| Legacy.WeekPairs | flights_processor.py:56-65 | pairing one week's buckets produces exactly the same-week trips of that week |
| Legacy.PairRow | flights_processor.py:61-67 | the inner loop appends each trip not already present |
| Legacy.PairWeek | flights_processor.py:59-67 | one week's loops add the new trips of that week, without repeats |
| Legacy.MatchAirport | flights_processor.py:51-67 | an airport's list has no repeats, holds exactly the same-week trips, and is non-empty iff a week is common to both directions |
| Legacy.MatchAirports | flights_processor.py:46-67 | over the airports of both maps: an airport gets a key iff some week is common to both directions, and its list holds, without repeats, exactly the same-week trips |
| Legacy.MatchNextAirport | flights_processor.py:49-67 | one airport of the loop: the airports done plus this one keep that property; the list is stored only when it is not empty |
| Legacy.SortByTotalPrice | flights_processor.py:70-71 | each list is sorted by total price; the keys are unchanged |
| Legacy.FindAvailableTrips | flights_processor.py:45-73 | an airport has a key iff it is in both maps and shares a week; each list is sorted, has no repeats and holds exactly the same-week trips |
| Legacy.ReturnBeforeDeparture | flights_processor.py:59-65 | Saturday 2026-09-12 and Sunday 2025-09-14 share adjusted week 37, so a return 363 days before the departure is paired |
| Legacy.ItemsOfMap | flights_processor.py:79 | the printer walks every airport of the map once |
| Legacy.PrintFlightsGroupedByWeekend | flights_processor.py:76-111 | each destination name is printed at most once, from its first non-empty airport; every printed entry comes from an airport's list; the entries are exactly those of the first-of-name airports, in the order `trips.items()` yields them |
| Legacy.KeptFlight | flights_processor.py:130-140 | a leg that survives conversion and both filters is an input flight with its price converted, on a listed weekday, under 200 |
| Legacy.KeptLeg | flights_processor.py:130-143 | a leg reaching the matcher also carries the adjusted week of its date |
| Legacy.MatchedLegacyTrips | flights_processor.py:145-148 | every matched trip pairs such legs of one airport in one week |
| Legacy.PrintedLegacyTrips | flights_processor.py:148-150 | every printed trip is such a trip |
| Legacy.ProcessFlightsInfo | flights_processor.py:126-150 | succeeds iff all prices convert and every kept leg has a day before it; then names are printed once and every printed trip is a legal weekend trip; otherwise the error of the first outbound price that fails, else of the first inbound one, else the overflow of the first kept outbound leg dated 0001-01-01, else of the first kept inbound one |
| Legacy.MatchAndPrint | flights_processor.py:145-150 | after grouping, matching and printing, every destination name is printed once and every printed trip is a legal weekend trip built from kept input legs |

## Left out

- I/O: the timetable JSON files, pickles, the HTML templates, e-mail, logging and `tqdm` progress bars are not modelled. The loaded timetable document is an in-memory map parameter.
- Browser automation: Selenium and Playwright page handling are not modelled. A day cell is a parameter (`PriceCell`), already reduced to a price span, a price div or nothing.
- Rendering: Jinja2, BeautifulSoup's `prettify` and the `strftime` texts (dates with weekday names, durations) are not modelled. Only the grouping, de-duplication, ordering keys and the "N/A" rule are.
- `strptime` is modelled as fixed-width layouts. It also accepts non-padded fields such as `2025-9-1`; that leniency is not modelled.
- Python's `int()` is modelled on an optional sign followed by ASCII digits. Surrounding whitespace, `_` separators and non-ASCII digits are not modelled. `\d` in the price pattern is modelled as ASCII digits only.
- The ISO calendar is computed by the ISO 8601 Thursday rule, not by CPython's `isocalendar` code. The two agree by the standard's definition.
- Dictionary and set iteration order is not modelled. Airports and weeks are visited in an arbitrary order. Where the result depends on that order (the order of equal-total trips after weekend matching), the contract states sortedness and the multiset.
- `parse_dates` in `flights_processor.py` is not modelled: dates are taken as already parsed.
- `main.py`, `pipeline.py`, `config.py` and the driver scripts are not part of this model: they only read configuration, run the scrapers and send results.
- The HTML timetable extractors are not part of this model, except the Katowice weekday names.
- Legacy.ConvertPrices: the in-place overwriting of each dict entry is modelled as a returned copy. No other reference to the dicts is read afterwards, so aliasing is not modelled here.
- Legacy.AddWeekNumbers: modelled the same way as `Legacy.ConvertPrices`, as a returned copy.
- Legacy.FilterByPrice: requires int prices. Python raises TypeError on a string price; the pipeline converts every price first.
- Legacy.ProcessFlightsInfo: states that every printed trip is a legal weekend trip and that each name is printed once. It does not state that every qualifying trip is printed: the printer skips a later airport whose destination name was already printed.
- Weekends.ProcessWeekends: the package converts the two lists with two calls. They are modelled as one pass over the concatenation, which stops at the same first bad price.
- Duration.ProcessDuration: converts the two lists the same way as `Weekends.ProcessWeekends`.
- Weekends.MatchAirport: states the multiset and the order by total, not the tie order among equal totals, which depends on set iteration order.
- Weekends.FilterAndEnrich: on a KeyError, the times written before the failure stay written. `Weekends.EnrichTrips` and `Duration.AddListTimes` state this for the failing airport's earlier trips. The pass over the dictionary does not state which airports were visited before, because that order is not modelled.
- Duration.AddFlightTimes: the same as `Weekends.FilterAndEnrich`: on a KeyError it states the first error, not the times written on the airports visited before.

## Findings

| source | as written | input that shows it | evidently intended | confidence | as-written member | corrected member |
|---|---|---|---|---|---|---|
| kiwiflight/processing/duration.py:129 | grouping the return legs reads `anywhere_to_pololand_filtered`, a name never assigned, so `process_flights_info` raises NameError whenever the prices convert | any two lists whose prices all convert, e.g. two empty lists | group the filtered return legs `anywhere_to_poland_filtered`, as `flights_processor_duration.py:194-205` does | high; not executed | Duration.ProcessDurationAsWritten | Duration.ProcessDuration |
