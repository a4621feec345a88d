# A verified model of the GTFS feed loader

This project models the core of a Rust library that loads a GTFS ("General
Transit Feed Specification", static part) feed into memory (`src/lib.rs`).
The library reads the CSV files of a feed. These are calendar.txt,
calendar_dates.txt, stops.txt, routes.txt, trips.txt, stop_times.txt,
agency.txt, shapes.txt and fare_attributes.txt. They come from a directory
or from the entries of a zip archive. The library does three things with them:

- it builds maps of the records by id;
- it attaches every stop time to its trip and sorts each trip's stop times by
  `stop_sequence`;
- it answers two kinds of query: id lookups, and the service days of a
  service counted from a start date (`trip_days`).

The Dafny modules follow the structure of the program:

| module | file | what it holds |
|---|---|---|
| `Wrappers` | wrappers.dfy | `Option`, `Result`, and `Outcome` (the Rust `Result<(), E>`) |
| `Decoders` | decoders.dfy | the field decoders: route type, transfers, location type, 0/1 flags, pickup/drop-off type, payment method, wheelchair availability, `u32` parsing, and `parse_time` with the split on `:` |
| `Entities` | entities.dfy | the records (Calendar, CalendarDate, Stop, Route, StopTime, Trip, Agency, Shape, FareAttribute), dates as day numbers, `valid_weekday`, the display name of a route and the id of an agency |
| `Sequences` | sequences.dfy | the order-preserving selection of the elements with one key ("the records naming X, in file order") |
| `StableSort` | sorting.dfy | a stable sort by an integer key, with sortedness, permutation and stability proved |
| `Tables` | tables.dfy | reading one file: decoded and undecodable rows, id-keyed maps where the last row wins, groups appended in file order, and lookup by id |
| `StopTimes` | stop_times.dfy | the specification of `read_stop_times`: which row stops the reading, what is attached to each trip, and the sort that follows |
| `ServiceDays` | service_days.dfy | the specification of `trip_days` |
| `Feed` | feed.dfy | the `Gtfs` class with its eight collections, the `read_*` methods that update them in place, `trip_days` with its two loops, and the `get_*` lookups |
| `Loading` | loading.dfy | `Gtfs::new` over a directory and `from_reader` over archive entries: which files are required, the suffix test on entry names, stop times read last, and the missing-file error |

Modelling choices:

- **Dates.** A date is an integer day number. Day 0 is 1970-01-01, a Thursday,
  so the weekday of day `d` is `(d + 3) % 7` with Monday as 0. The date
  2017-01-01 is day 17167.
- **Rows.** A file's content is the sequence of its data rows, each either
  `Good(record)` or `Bad`. A `Bad` row is one the CSV/serde layer cannot
  decode. The first `Bad` row is reported as `DecodeError(index)`.
- **Shared stops.** The `Arc<Stop>` a stop time shares is the stop's id.
- **Trips.** The `trips` map of the `Gtfs` class owns its `Trip` values, as the
  Rust `HashMap<String, Trip>` does. Pushing through `get_mut` replaces the
  map entry.
- **Sorting.** The library's stable `sort_by` is the functional insertion sort
  `StableSort.SortBy`. The `Feed.Gtfs.SortAllTrips` loop applies it to one trip
  at a time.
- **Fixed-width integers.** `u16` and `u32` are subset types. `offset as u16`
  is written out as `% 65536`. `parse_time`'s `u32` arithmetic is modelled as
  a debug build runs it: an overflow is an error (`Overflow`), where a
  release build would wrap modulo 2^32.

Behaviour of the code that the model makes explicit:

- **`trip_days` order.** `trip_days` neither sorts nor removes duplicates
  (src/lib.rs:757-790). The added dates come first, in encounter order, and
  then the pattern days in increasing order. A day both added and on the
  pattern appears twice (`ServiceDays.AddedPatternDayRepeats`).
- **Partial state after an error.** The rows before a failing stop-time row
  stay pushed onto their trips (src/lib.rs:724-733). The model states the
  trips on error exactly (`Feed.Gtfs.ReadStopTimes`). The loaders then drop
  the feed, so no caller sees that state.
- **Removals.** A type-2 removal never suppresses a type-1 addition
  (src/lib.rs:766-767, 783). The removal set only filters the weekly
  pattern (`ServiceDays.AdditionSurvivesRemoval`).

## Model

| member | source | states |
|---|---|---|
| Decoders.RouteTypeOf | src/lib.rs:82-99 | every 16-bit code decodes; codes 0..7 give Tramway, Subway, Rail, Bus, Ferry, CableCar, Gondola, Funicular in that order, any other code c gives Other(c), and the code is recovered from the result |
| Decoders.RouteTypeReencodes | src/lib.rs:61-99 | encoding a route type and decoding the code gives it back exactly unless it is an Other holding a standard code |
| Decoders.TransfersOf | src/lib.rs:451-471 | an empty cell gives the default Unlimited, and only it does; 0/1/2 give NoTransfer/UniqueTransfer/TwoTransfers; any other n gives Other(n); the cell is recovered from the result |
| Decoders.LocationTypeOf | src/lib.rs:494-504 | never fails: "1" is StopArea, "2" is StationEntrance, any other text is StopPoint, each an if-and-only-if |
| Decoders.FlagOf | src/lib.rs:848-854 | a flag is true if and only if its text is exactly "1" |
| Decoders.PickupDropOffOf | src/lib.rs:102-115 | decodes exactly "0".."3", to the variant whose renamed text is the input; any other text is a decode error |
| Decoders.PaymentMethodOf | src/lib.rs:433-439 | "0" is Aboard, "1" is PreBoarding, anything else is a decode error, each an if-and-only-if |
| Decoders.AvailabilityOf | src/lib.rs:158-169 | an empty cell takes the default InformationNotAvailable (as the empty-default decoder at src/lib.rs:513-520 does); "0".."2" name the three variants; any other text is a decode error |
| Decoders.Decimal | src/lib.rs:481-484 | the decimal text of n is a non-empty digit string whose value is n (the partner of the number parser) |
| Decoders.ParseU32 | src/lib.rs:481-484 | a number parses only from a non-empty string of decimal digits, or from a '+' followed by one, and its value is that of the digits |
| Decoders.ParseU32Digits | src/lib.rs:481-484 | a non-empty digit string whose value fits in 32 bits parses to that value |
| Decoders.ParseU32Decimal | src/lib.rs:481-484 | the parser reads back the decimal text of every u32 |
| Decoders.IndexOf | src/lib.rs:482 | the index found holds the first occurrence of the separator |
| Decoders.Split | src/lib.rs:482 | splitting gives at least one piece and no piece holds the separator |
| Decoders.SplitJoin | src/lib.rs:482 | joining the pieces with the separator gives back the text |
| Decoders.JoinSplits | src/lib.rs:482 | splitting the join of separator-free pieces gives back the pieces |
| Decoders.SplitFirst | src/lib.rs:482 | a separator-free prefix followed by the separator splits off as the first piece |
| Decoders.ParseTime | src/lib.rs:481-484 | a time parses only when the text has at least three pieces whose first three are numbers, and its value is then h*3600 + m*60 + s; a missing component is reported with the number of pieces there are, and a number error names one of the text's colon-separated pieces, one that does not parse |
| Decoders.ParseTimeDigits | src/lib.rs:481-484 | "H:M:S" with digit pieces parses to H*3600 + M*60 + S whatever the hour, with pieces after the third ignored |
| Decoders.ParseTimeOfNumbers | src/lib.rs:481-484 | separator-free pieces whose first three parse as numbers give the time of those numbers |
| Decoders.ParseTimePastMidnight | src/lib.rs:481-484 | "25:10:00" is 90600 seconds: hours are not capped at 23 |
| Decoders.ParseTimeRejectsNonNumeric | src/lib.rs:481-484 | a first piece that is not a number is an error naming that piece |
| Entities.WeekdayIndex | src/lib.rs:171-183 | the weekday of a date is one of seven |
| Entities.Calendar.ValidWeekday | src/lib.rs:171-183 | a calendar runs on a date exactly when the flag of the date's weekday is set |
| Entities.WeekdayPeriodic | src/lib.rs:171-183 | weekdays repeat every seven days |
| Entities.Calendar.Flags | src/lib.rs:117-139 | a calendar has seven weekday flags |
| Entities.CalendarOf | src/lib.rs:117-139 | a decoded calendar keeps its id and dates, and its flag for weekday i is set if and only if cell i reads "1" |
| Entities.ValidWeekdayFlag | src/lib.rs:171-183 | a calendar runs on a date exactly when the flag of that date's weekday is set, and the answer repeats every seven days |
| Entities.DecodedWeekday | src/lib.rs:171-183 | for a decoded calendar, the service runs on a date if and only if the cell of the date's weekday reads "1" |
| Entities.Route.DisplayName | src/lib.rs:300-308 | a route shows its long name when that is not empty and its short name otherwise; the name is empty only when both are |
| Entities.StopTimeRecord.ToStopTime | src/lib.rs:262-273 | the stop time of a row keeps the row's times, pickup and drop-off types and sequence, and points at the row's stop |
| Entities.Agency.Key | src/lib.rs:368-375 | an agency's id is its id when present and the empty string otherwise |
| Sequences.Matching | src/lib.rs:723-741 | selecting the records of one key never lengthens the sequence |
| Sequences.MatchingMultiset | src/lib.rs:723-741 | the selection holds every element of the key as often as the input does, and nothing else |
| Sequences.MatchingAppend | src/lib.rs:723-741 | selecting from a concatenation concatenates the selections |
| StableSort.Insert | src/lib.rs:735-738 | inserting adds exactly one element |
| StableSort.SortBy | src/lib.rs:735-738 | sorting is a permutation of its input |
| StableSort.SortBySorted | src/lib.rs:735-738 | the sort's output is in non-decreasing key order |
| StableSort.SortByStable | src/lib.rs:735-738 | among the elements of any one key, the sort keeps the input order |
| StableSort.InsertSorted | src/lib.rs:735-738 | insertion keeps a sorted sequence sorted |
| StableSort.InsertMatching | src/lib.rs:735-738 | insertion into a sorted sequence puts the element after every element with its key |
| Tables.Values | src/lib.rs:650-707 | the records of decoded rows, one per row, in file order |
| Tables.FirstBad | src/lib.rs:650-721 | the first undecodable row: every row before it decodes |
| Tables.FirstBadAt | src/lib.rs:650-721 | the first undecodable row is the only bad row with every earlier row good |
| Tables.Decoded | src/lib.rs:660-671 | the records read before the first bad row, one per row |
| Tables.DecodedAll | src/lib.rs:660-671 | when every row decodes, the records read are all of them, one per row |
| Tables.CollectAll | src/lib.rs:702-707 | collecting a file succeeds if and only if every row decodes, giving every record in file order, and otherwise fails with the first bad row's error |
| Tables.KeyedBy | src/lib.rs:650-700 | every id of a keyed map holds a record with that id |
| Tables.KeyedByLastWins | src/lib.rs:650-700 | an id is a key if and only if some record has it, and it maps to the last record that has it |
| Tables.CollectKeyed | src/lib.rs:650-700 | reading a keyed file succeeds if and only if every row decodes, giving the map of its records by id; otherwise the error is the first bad row's |
| Tables.Grouped | src/lib.rs:660-671 | after grouping, the keys are the earlier keys and the key of every record, no more |
| Tables.GroupedAppends | src/lib.rs:660-671 | grouping appends to every id exactly the records carrying it, in file order, without dedup, and creates a group only for an id some record carries |
| Tables.AppendGrouped | src/lib.rs:660-671 | the grouping loop appends the records before the first bad row and then reports that row, or succeeds when every row decodes |
| Tables.Lookup | src/lib.rs:793-845 | a lookup succeeds if and only if the id is a key, returning its entry, and otherwise fails with an error carrying the queried id |
| StopTimes.RowError | src/lib.rs:725-731 | a row resolves exactly when it decodes and names a known trip and a known stop |
| StopTimes.RowErrorIds | src/lib.rs:723-733 | an undecodable row is a decode error at its index; an unknown trip is reported with the trip's id even when the stop is unknown too, and an unknown stop of a known trip with the stop's id |
| StopTimes.UnresolvedFrom | src/lib.rs:723-733 | the first row that stops the reading: every row before it resolves |
| StopTimes.UnresolvedAt | src/lib.rs:723-733 | that row is the only failing row with every earlier row resolving |
| StopTimes.AllResolved | src/lib.rs:723-733 | when no row fails, every row decodes and names a known trip |
| StopTimes.Attach | src/lib.rs:724-733 | pushing stop times onto trips keeps the set of trips |
| StopTimes.AttachAppends | src/lib.rs:724-733 | attaching pushes onto each trip exactly the stop times of the rows naming it, in file order, and changes nothing else about the trip |
| StopTimes.SortTrips | src/lib.rs:735-738 | sorting every trip keeps the set of trips |
| StopTimes.ResolvedTrip | src/lib.rs:723-741 | after a successful read each trip keeps its id, service and route, and its stop times are exactly those of the rows naming it, ordered by stop_sequence with ties in file order |
| StopTimes.AttachKeepsStops | src/lib.rs:726-732 | attaching rows whose stops are known keeps every stop time pointing at a known stop |
| StopTimes.SortTripsKeepsStops | src/lib.rs:735-738 | sorting keeps every stop time pointing at a known stop |
| StopTimes.SortTripsSorted | src/lib.rs:735-738 | after sorting, every trip's stop times are in stop_sequence order |
| ServiceDays.AsU16 | src/lib.rs:765 | the u16 cast keeps every offset below 65536 |
| ServiceDays.TripDays | src/lib.rs:751-791 | no exceptions and no calendar give no days; the result starts with the additions, in exception order, and nothing is dropped from them |
| ServiceDays.Additions | src/lib.rs:755-770 | each exception adds at most one offset |
| ServiceDays.Removals | src/lib.rs:755-770 | removed offsets are never negative: only exceptions on or after the start date count |
| ServiceDays.PatternDays | src/lib.rs:772-788 | the walk over n offsets yields at most n days |
| ServiceDays.AdditionsAppend | src/lib.rs:755-769 | additions keep the order in which their exceptions are listed |
| ServiceDays.AdditionsMembers | src/lib.rs:755-769 | an offset is added if and only if a type-1 exception on or after the start date has it |
| ServiceDays.RemovalsMembers | src/lib.rs:755-769 | an offset is removed if and only if a type-2 exception on or after the start date has it |
| ServiceDays.PatternDaysSpec | src/lib.rs:771-788 | the pattern walk yields exactly the offsets on which the pattern runs, each once, in strictly increasing order |
| ServiceDays.TripDaysSpec | src/lib.rs:751-791 | the service days are the additions followed by the pattern days; an offset is a pattern day if and only if it is between 0 and end - start, its date is in the calendar's range and on a flagged weekday, and it is not removed; pattern days strictly increase |
| ServiceDays.AdditionSurvivesRemoval | src/lib.rs:757-769 | a type-1 exception on or after the start date is a service day whatever other exceptions say |
| ServiceDays.AddedPatternDayRepeats | src/lib.rs:757-788 | a day both added and on the pattern is listed at least twice: the result is not deduplicated |
| ServiceDays.AdditionIsListed | src/lib.rs:762-765 | a type-1 exception on or after the start date is among the additions |
| ServiceDays.PatternDayIsListed | src/lib.rs:771-788 | a day on the pattern is among the pattern days, which follow the additions |
| ServiceDays.WeekendServiceExample | src/lib.rs:995-1000 | a weekend service from 2017-01-01 to 2017-01-15 with 2017-01-01 removed, counted from 2017-01-01, runs on offsets 6, 7, 13 and 14 |
| ServiceDays.AddedDayExample | src/lib.rs:1001-1002 | a service given only by the start date as an added date runs on offset 0 alone |
| Feed.Gtfs.constructor | src/lib.rs:526-537 | the default feed has every collection empty |
| Feed.Gtfs.ReadCalendars | src/lib.rs:650-658 | the calendars become the map of the rows by id when every row decodes, and stay as they were otherwise, with the first bad row's error |
| Feed.Gtfs.ReadStops | src/lib.rs:673-681 | the stops become the map of the rows by id when every row decodes, and stay as they were otherwise |
| Feed.Gtfs.ReadRoutes | src/lib.rs:683-690 | the routes become the map of the rows by id when every row decodes, and stay as they were otherwise |
| Feed.Gtfs.ReadTrips | src/lib.rs:692-700 | the trips become the map of the rows by id when every row decodes, and stay as they were otherwise |
| Feed.Gtfs.ReadFareAttributes | src/lib.rs:743-749 | the fares become the map of all rows by id when every row decodes, and stay as they were otherwise |
| Feed.Gtfs.ReadAgencies | src/lib.rs:702-707 | the agencies become every row in file order when every row decodes, and stay as they were otherwise |
| Feed.Gtfs.ReadCalendarDates | src/lib.rs:660-671 | each decoded row is appended to its service's group, in file order, up to the first bad row, which is the error |
| Feed.Gtfs.ReadShapes | src/lib.rs:709-721 | each decoded row is appended to its shape's group, in file order, up to the first bad row, which is the error |
| Feed.Gtfs.ReadStopTimes | src/lib.rs:723-741 | on the first row that does not resolve, the error is that row's and the trips hold the stop times of the earlier rows; when all resolve, the trips are attached and sorted; the trip ids never change and stop times keep pointing at known stops |
| Feed.Gtfs.AttachRows | src/lib.rs:724-733 | the loop attaches the rows before the first unresolved row to their trips and reports that row's error |
| Feed.Gtfs.SortAllTrips | src/lib.rs:735-738 | every trip's stop times get sorted |
| Feed.Gtfs.TripDays | src/lib.rs:751-791 | the service days are those specified by `ServiceDays.TripDays`: the additions, then the pattern days when the service has a calendar |
| Feed.ScanExceptions | src/lib.rs:755-770 | the first loop collects exactly the additions, in encounter order, and the removals |
| Feed.WalkPattern | src/lib.rs:772-788 | the second loop appends exactly the pattern days from offset 0 to the calendar's end |
| Feed.Gtfs.GetStop | src/lib.rs:793-798 | the stop if the id is a key, otherwise a reference error carrying the id |
| Feed.Gtfs.GetTrip | src/lib.rs:800-805 | the trip if the id is a key, otherwise a reference error carrying the id |
| Feed.Gtfs.GetRoute | src/lib.rs:807-812 | the route if the id is a key, otherwise a reference error carrying the id |
| Feed.Gtfs.GetCalendar | src/lib.rs:814-819 | the calendar if the id is a key, otherwise a reference error carrying the id |
| Feed.Gtfs.GetCalendarDate | src/lib.rs:821-829 | the exceptions of a service if the id is a key, otherwise a reference error carrying the id |
| Feed.Gtfs.GetShape | src/lib.rs:831-836 | the points of a shape if the id is a key, otherwise a reference error carrying the id |
| Feed.Gtfs.GetFareAttributes | src/lib.rs:838-845 | the fare if the id is a key, otherwise a reference error carrying the id |
| Loading.KindAmong | src/lib.rs:605-637 | an entry's kind is one whose file name its name ends with; no kind means no GTFS file name ends it |
| Loading.KindOfName | src/lib.rs:605-637 | an entry whose name ends with a GTFS file name is read as that file, whatever directory it sits in, because no GTFS file name ends with another |
| Loading.NameNotSuffix | src/lib.rs:605-637 | no GTFS file name ends with another, so the order of the suffix tests does not matter |
| Loading.Kinds | src/lib.rs:603-605 | the kind of every entry, in archive order |
| Loading.LastOf | src/lib.rs:626-641 | the stop-times entry read is the last one: no later entry has that kind, and there is none exactly when no entry has it |
| Loading.FromArchive | src/lib.rs:598-648 | loading an archive succeeds exactly when `Loading.ArchiveRead` gives a feed, that is, when every entry decodes, there is a stop_times.txt entry and the last one's rows all resolve against the trips and stops read; the feed is then the entries read in archive order (`Loading.EntriesRead`, each by `Loading.EntryRead`), with the trips replaced by the stop times attached and sorted; a loaded feed has every stop time pointing at a stop and sorted trips; without a stop_times.txt entry the result is an error, the missing-file error when the other entries decode; an entry that does not decode is a decode error |
| Loading.ReadEntries | src/lib.rs:603-640 | the loop over the entries succeeds exactly when every entry decodes as its kind, and then leaves the collections as `Loading.EntriesRead` of the old ones; a failure is a decode error; no trip gets stop times |
| Loading.EntriesReadStep | src/lib.rs:603-640 | reading the entries up to one more reads that entry, as its kind, into the feed the earlier entries gave |
| Loading.ArchiveReadStopTimes | src/lib.rs:641-647 | when every entry decodes, what the archive loads to is the entries' feed with its trips replaced by the stop times of the last stop_times.txt entry read against that feed's trips and stops, or nothing when one of them does not resolve |
| Loading.ReadEntry | src/lib.rs:605-637 | an entry is read as its kind, succeeding exactly when it decodes; the feed's collections become `Loading.EntryRead` of the old ones: a keyed file replaces its map only when every row decodes, a grouped file appends the rows before its first bad row, and stop times and entries of no kind change nothing |
| Loading.ReadStopTimesLast | src/lib.rs:641-644 | reading the stop times last succeeds exactly when every row resolves, giving a loaded feed whose trips are the old ones with every stop time attached to its trip and each trip's stop times sorted (`Loading.StopTimesRead`); otherwise the error is the first failing row's |
| Loading.FirstMissing | src/lib.rs:551-562 | the first required file, in opening order, that the directory lacks: every required file before it is present; none exactly when all seven are there |
| Loading.FromDirectory | src/lib.rs:551-582 | loading a directory succeeds exactly when `Loading.DirectoryRead` gives a feed, and the feed is that one: the files named trips.txt, calendar.txt, calendar_dates.txt, stops.txt, routes.txt, stop_times.txt and agency.txt in the directory, with shapes.txt and fare_attributes.txt when present, read by `Loading.FilesRead`; a missing required file is the error, before anything is read; a loaded directory decodes and has every stop time pointing at a stop and sorted trips; when every file decodes, loading succeeds exactly when the stop times resolve |
| Loading.DirectoryDecodes | src/lib.rs:551-582 | a complete directory decodes exactly when every present file's rows do |
| Loading.ReadFiles | src/lib.rs:564-581 | reading in the order trips, calendars, calendar dates, stops, routes, stop times, agencies, shapes, fares succeeds exactly when every file decodes and the stop times resolve; the feed then holds the calendars, stops, routes and fare attributes keyed by id, the calendar dates and shapes grouped by service and shape, every agency in file order, and the trips keyed by id with their stop times attached and sorted; an absent shapes or fare file leaves its collection empty |
| Loading.FilesReadSucceeds | src/lib.rs:564-581 | the files load to a feed exactly when every file decodes and every stop time resolves against the trips and stops they define |
| Loading.FilesReadLoaded | src/lib.rs:564-581 | when they do, the feed is, collection by collection, the keyed, grouped and listed records with the stop times read into the trips |
| Loading.ReadFromStopTimes | src/lib.rs:571-578 | the reads from the stop times on succeed exactly when the stop times resolve and the agencies and any shapes and fares decode; the trips then have their stop times attached and sorted, the agencies are every row, and the shapes and fares are grouped and keyed when present and unchanged when absent |
| Loading.ReadBeforeStopTimes | src/lib.rs:564-570 | the reads before the stop times succeed exactly when those five files decode; the trips, calendars, stops and routes are then keyed by id and the calendar dates grouped by service |
| Loading.ReadAfterStopTimes | src/lib.rs:572-578 | the reads after the stop times succeed exactly when the agencies and any shapes and fares decode; the agencies are then every row, the shapes grouped and the fares keyed by id when those files are present, and unchanged when absent |

## Left out

- File, directory and zip I/O are not modelled: `File::open`, `ZipArchive`, and
  the errors of `archive.by_index`. A directory is a map from file name to
  content, and an archive is a sequence of named entries.
- `from_zip` and `from_url` are not modelled. The first only opens a file;
  the second fetches over the network.
- The CSV reader and serde are not modelled. Each file is given as the
  sequence of rows it decodes to, a row being a record or an undecodable
  row. The decoders of individual cells are modelled as functions on the
  cell's text or integer.
- The `%Y%m%d` date parse is not modelled. Dates are day numbers.
- Floating-point fields are not modelled: stop and shape coordinates,
  `shape_dist_traveled`, and the trimmed-float decoder.
- `read_duration`, which comes from the clock, is not modelled. Nor is
  `print_stats`, which is output only.
- `Arc` reference counting is not modelled. A stop time holds its stop's id.
- The `Display` implementations other than `Route`'s are not modelled: they
  only format text.
- The error texts that `with_context` adds are not modelled. The model keeps
  the kind of error and the row or id it concerns.
- Feed.Gtfs.SortAllTrips: the library sorts each trip's vector in place. The
  model replaces each trip's sequence with its stably sorted copy. The
  result is the same, but the in-place swaps are not modelled.
- Decoders.ParseTime: the index out of bounds panics in Rust, and so does a
  u32 overflow in a debug build. Here they are the explicit errors
  `MissingComponent` and `Overflow`. A release build instead wraps the
  arithmetic modulo 2^32 ("1193047:0:0" gives 1904); the model does not
  capture that.
  `str::parse::<u32>` is modelled for ASCII decimal digits with an
  optional leading `+`.
- ServiceDays.PatternDaysSpec, ServiceDays.TripDaysSpec,
  ServiceDays.AddedPatternDayRepeats and ServiceDays.PatternDayIsListed assume
  that the calendar's end lies fewer than 65536 days after the start date.
  Past that, `as u16` wraps offsets, and strict increase and membership no
  longer hold. `ServiceDays.AsU16` and `Feed.Gtfs.TripDays` model the
  wrap-around itself for every offset.
- Loading.ReadBeforeStopTimes, Loading.ReadAfterStopTimes,
  Loading.ReadFromStopTimes and Loading.ReadStopTimesLast: on failure, which
  collections were already read is not stated. The loaders discard the feed
  then. (`Feed.Gtfs.ReadStopTimes` does state the trips after a failing row.)
- The test fixtures are not part of this model. The two service-day
  examples use a calendar and exceptions that give the test's expected
  results.
