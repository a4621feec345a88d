/** Building a feed from a directory of files (src/lib.rs:551-582) or from
    the entries of a zip archive (src/lib.rs:598-648). Reading the bytes is
    not modelled: each file is given as the rows it decodes to when read as
    each kind of GTFS file. */
module Loading {
  import opened Wrappers
  import opened Entities
  import opened Tables
  import opened StableSort
  import opened StopTimes
  import opened Feed

  /** The rows a file's text decodes to, read as each kind of file. */
  datatype Content = Content(
    calendars: seq<Row<Calendar>>,
    stops: seq<Row<Stop>>,
    calendarDates: seq<Row<CalendarDate>>,
    routes: seq<Row<Route>>,
    trips: seq<Row<DecodedTrip>>,
    stopTimes: seq<Row<StopTimeRecord>>,
    agencies: seq<Row<Agency>>,
    shapes: seq<Row<Shape>>,
    fareAttributes: seq<Row<FareAttribute>>)

  /** The kinds of file, in the order an archive entry's name is tested. */
  datatype FileKind =
    | CalendarFile | StopsFile | CalendarDatesFile | RoutesFile | TripsFile
    | StopTimesFile | AgencyFile | ShapesFile | FareAttributesFile

  function FileName(k: FileKind): string {
    match k
    case CalendarFile => "calendar.txt"
    case StopsFile => "stops.txt"
    case CalendarDatesFile => "calendar_dates.txt"
    case RoutesFile => "routes.txt"
    case TripsFile => "trips.txt"
    case StopTimesFile => "stop_times.txt"
    case AgencyFile => "agency.txt"
    case ShapesFile => "shapes.txt"
    case FareAttributesFile => "fare_attributes.txt"
  }

  const TestOrder: seq<FileKind> := [CalendarFile, StopsFile, CalendarDatesFile, RoutesFile,
    TripsFile, StopTimesFile, AgencyFile, ShapesFile, FareAttributesFile]

  predicate EndsWith(s: string, suffix: string) {
    |suffix| <= |s| && s[|s| - |suffix|..] == suffix
  }

  /** The first kind among kinds whose file name the name ends with. */
  function KindAmong(name: string, kinds: seq<FileKind>): (k: Option<FileKind>)
    ensures k.Some? ==> k.value in kinds && EndsWith(name, FileName(k.value))
    ensures k.None? <==> forall i :: 0 <= i < |kinds| ==> !EndsWith(name, FileName(kinds[i]))
  {
    if kinds == [] then None
    else if EndsWith(name, FileName(kinds[0])) then Some(kinds[0])
    else
      var k := KindAmong(name, kinds[1..]);
      assert forall i :: 1 <= i < |kinds| ==> kinds[i] == kinds[1..][i - 1];
      k
  }

  /** The kind of an archive entry: the first kind, in test order, whose file
      name its name ends with; none when it ends with no GTFS file name. */
  function KindOf(name: string): Option<FileKind> {
    KindAmong(name, TestOrder)
  }

  /** A name ending with two suffixes ends with the longer, and the longer
      ends with the shorter. */
  lemma SuffixOfSuffix(name: string, long: string, short: string)
    requires EndsWith(name, long) && EndsWith(name, short) && |short| <= |long|
    ensures EndsWith(long, short)
  {
    assert long[|long| - |short|..] == name[|name| - |short|..];
  }

  /** A string does not end with another when they differ m places from the end. */
  lemma NotEndsWith(x: string, y: string, m: nat)
    requires m < |x| && m < |y| && x[|x| - 1 - m] != y[|y| - 1 - m]
    ensures !EndsWith(x, y)
  {
    if |y| <= |x| {
      assert x[|x| - |y|..][|y| - 1 - m] == x[|x| - 1 - m];
    }
  }

  /** No GTFS file name ends with another. */
  lemma NameNotSuffix(a: FileKind, b: FileKind)
    ensures a == b || !EndsWith(FileName(a), FileName(b))
  {
    match a
    case CalendarFile => CalendarNotSuffix(b);
    case StopsFile => StopsNotSuffix(b);
    case CalendarDatesFile => CalendarDatesNotSuffix(b);
    case RoutesFile => RoutesNotSuffix(b);
    case TripsFile => TripsNotSuffix(b);
    case StopTimesFile => StopTimesNotSuffix(b);
    case AgencyFile => AgencyNotSuffix(b);
    case ShapesFile => ShapesNotSuffix(b);
    case FareAttributesFile => FareAttributesNotSuffix(b);
  }

  lemma CalendarNotSuffix(b: FileKind)
    ensures b == CalendarFile || !EndsWith(FileName(CalendarFile), FileName(b))
  {
    match b
    case CalendarFile =>
    case StopsFile => NotEndsWith(FileName(CalendarFile), FileName(b), 4);
    case CalendarDatesFile => NotEndsWith(FileName(CalendarFile), FileName(b), 4);
    case RoutesFile => NotEndsWith(FileName(CalendarFile), FileName(b), 4);
    case TripsFile => NotEndsWith(FileName(CalendarFile), FileName(b), 4);
    case StopTimesFile => NotEndsWith(FileName(CalendarFile), FileName(b), 4);
    case AgencyFile => NotEndsWith(FileName(CalendarFile), FileName(b), 4);
    case ShapesFile => NotEndsWith(FileName(CalendarFile), FileName(b), 4);
    case FareAttributesFile => NotEndsWith(FileName(CalendarFile), FileName(b), 4);
  }

  lemma StopsNotSuffix(b: FileKind)
    ensures b == StopsFile || !EndsWith(FileName(StopsFile), FileName(b))
  {
    match b
    case CalendarFile => NotEndsWith(FileName(StopsFile), FileName(b), 4);
    case StopsFile =>
    case CalendarDatesFile => NotEndsWith(FileName(StopsFile), FileName(b), 5);
    case RoutesFile => NotEndsWith(FileName(StopsFile), FileName(b), 5);
    case TripsFile => NotEndsWith(FileName(StopsFile), FileName(b), 6);
    case StopTimesFile => NotEndsWith(FileName(StopsFile), FileName(b), 5);
    case AgencyFile => NotEndsWith(FileName(StopsFile), FileName(b), 4);
    case ShapesFile => NotEndsWith(FileName(StopsFile), FileName(b), 5);
    case FareAttributesFile => NotEndsWith(FileName(StopsFile), FileName(b), 5);
  }

  lemma CalendarDatesNotSuffix(b: FileKind)
    ensures b == CalendarDatesFile || !EndsWith(FileName(CalendarDatesFile), FileName(b))
  {
    match b
    case CalendarFile => NotEndsWith(FileName(CalendarDatesFile), FileName(b), 4);
    case StopsFile => NotEndsWith(FileName(CalendarDatesFile), FileName(b), 5);
    case CalendarDatesFile =>
    case RoutesFile => NotEndsWith(FileName(CalendarDatesFile), FileName(b), 7);
    case TripsFile => NotEndsWith(FileName(CalendarDatesFile), FileName(b), 5);
    case StopTimesFile => NotEndsWith(FileName(CalendarDatesFile), FileName(b), 6);
    case AgencyFile => NotEndsWith(FileName(CalendarDatesFile), FileName(b), 4);
    case ShapesFile => NotEndsWith(FileName(CalendarDatesFile), FileName(b), 6);
    case FareAttributesFile => NotEndsWith(FileName(CalendarDatesFile), FileName(b), 7);
  }

  lemma RoutesNotSuffix(b: FileKind)
    ensures b == RoutesFile || !EndsWith(FileName(RoutesFile), FileName(b))
  {
    match b
    case CalendarFile => NotEndsWith(FileName(RoutesFile), FileName(b), 4);
    case StopsFile => NotEndsWith(FileName(RoutesFile), FileName(b), 5);
    case CalendarDatesFile => NotEndsWith(FileName(RoutesFile), FileName(b), 7);
    case RoutesFile =>
    case TripsFile => NotEndsWith(FileName(RoutesFile), FileName(b), 5);
    case StopTimesFile => NotEndsWith(FileName(RoutesFile), FileName(b), 6);
    case AgencyFile => NotEndsWith(FileName(RoutesFile), FileName(b), 4);
    case ShapesFile => NotEndsWith(FileName(RoutesFile), FileName(b), 6);
    case FareAttributesFile => NotEndsWith(FileName(RoutesFile), FileName(b), 8);
  }

  lemma TripsNotSuffix(b: FileKind)
    ensures b == TripsFile || !EndsWith(FileName(TripsFile), FileName(b))
  {
    match b
    case CalendarFile => NotEndsWith(FileName(TripsFile), FileName(b), 4);
    case StopsFile => NotEndsWith(FileName(TripsFile), FileName(b), 6);
    case CalendarDatesFile => NotEndsWith(FileName(TripsFile), FileName(b), 5);
    case RoutesFile => NotEndsWith(FileName(TripsFile), FileName(b), 5);
    case TripsFile =>
    case StopTimesFile => NotEndsWith(FileName(TripsFile), FileName(b), 5);
    case AgencyFile => NotEndsWith(FileName(TripsFile), FileName(b), 4);
    case ShapesFile => NotEndsWith(FileName(TripsFile), FileName(b), 5);
    case FareAttributesFile => NotEndsWith(FileName(TripsFile), FileName(b), 5);
  }

  lemma StopTimesNotSuffix(b: FileKind)
    ensures b == StopTimesFile || !EndsWith(FileName(StopTimesFile), FileName(b))
  {
    match b
    case CalendarFile => NotEndsWith(FileName(StopTimesFile), FileName(b), 4);
    case StopsFile => NotEndsWith(FileName(StopTimesFile), FileName(b), 5);
    case CalendarDatesFile => NotEndsWith(FileName(StopTimesFile), FileName(b), 6);
    case RoutesFile => NotEndsWith(FileName(StopTimesFile), FileName(b), 6);
    case TripsFile => NotEndsWith(FileName(StopTimesFile), FileName(b), 5);
    case StopTimesFile =>
    case AgencyFile => NotEndsWith(FileName(StopTimesFile), FileName(b), 4);
    case ShapesFile => NotEndsWith(FileName(StopTimesFile), FileName(b), 6);
    case FareAttributesFile => NotEndsWith(FileName(StopTimesFile), FileName(b), 6);
  }

  lemma AgencyNotSuffix(b: FileKind)
    ensures b == AgencyFile || !EndsWith(FileName(AgencyFile), FileName(b))
  {
    match b
    case CalendarFile => NotEndsWith(FileName(AgencyFile), FileName(b), 4);
    case StopsFile => NotEndsWith(FileName(AgencyFile), FileName(b), 4);
    case CalendarDatesFile => NotEndsWith(FileName(AgencyFile), FileName(b), 4);
    case RoutesFile => NotEndsWith(FileName(AgencyFile), FileName(b), 4);
    case TripsFile => NotEndsWith(FileName(AgencyFile), FileName(b), 4);
    case StopTimesFile => NotEndsWith(FileName(AgencyFile), FileName(b), 4);
    case AgencyFile =>
    case ShapesFile => NotEndsWith(FileName(AgencyFile), FileName(b), 4);
    case FareAttributesFile => NotEndsWith(FileName(AgencyFile), FileName(b), 4);
  }

  lemma ShapesNotSuffix(b: FileKind)
    ensures b == ShapesFile || !EndsWith(FileName(ShapesFile), FileName(b))
  {
    match b
    case CalendarFile => NotEndsWith(FileName(ShapesFile), FileName(b), 4);
    case StopsFile => NotEndsWith(FileName(ShapesFile), FileName(b), 5);
    case CalendarDatesFile => NotEndsWith(FileName(ShapesFile), FileName(b), 6);
    case RoutesFile => NotEndsWith(FileName(ShapesFile), FileName(b), 6);
    case TripsFile => NotEndsWith(FileName(ShapesFile), FileName(b), 5);
    case StopTimesFile => NotEndsWith(FileName(ShapesFile), FileName(b), 6);
    case AgencyFile => NotEndsWith(FileName(ShapesFile), FileName(b), 4);
    case ShapesFile =>
    case FareAttributesFile => NotEndsWith(FileName(ShapesFile), FileName(b), 6);
  }

  lemma FareAttributesNotSuffix(b: FileKind)
    ensures b == FareAttributesFile || !EndsWith(FileName(FareAttributesFile), FileName(b))
  {
    match b
    case CalendarFile => NotEndsWith(FileName(FareAttributesFile), FileName(b), 4);
    case StopsFile => NotEndsWith(FileName(FareAttributesFile), FileName(b), 5);
    case CalendarDatesFile => NotEndsWith(FileName(FareAttributesFile), FileName(b), 7);
    case RoutesFile => NotEndsWith(FileName(FareAttributesFile), FileName(b), 8);
    case TripsFile => NotEndsWith(FileName(FareAttributesFile), FileName(b), 5);
    case StopTimesFile => NotEndsWith(FileName(FareAttributesFile), FileName(b), 6);
    case AgencyFile => NotEndsWith(FileName(FareAttributesFile), FileName(b), 4);
    case ShapesFile => NotEndsWith(FileName(FareAttributesFile), FileName(b), 6);
    case FareAttributesFile =>
  }

  /** Every entry whose name ends with a GTFS file name is read as that
      file, whatever directory it sits in. */
  lemma KindOfName(name: string, k: FileKind)
    requires EndsWith(name, FileName(k))
    ensures KindOf(name) == Some(k)
  {
    assert k in TestOrder;
    var r := KindOf(name);
    if r.value != k {
      if |FileName(r.value)| <= |FileName(k)| {
        SuffixOfSuffix(name, FileName(k), FileName(r.value));
        NameNotSuffix(k, r.value);
      } else {
        SuffixOfSuffix(name, FileName(r.value), FileName(k));
        NameNotSuffix(r.value, k);
      }
    }
  }

  datatype Entry = Entry(name: string, content: Content)

  /** The kind of every entry, in archive order. */
  function Kinds(entries: seq<Entry>): (ks: seq<Option<FileKind>>)
    ensures |ks| == |entries|
    ensures forall i :: 0 <= i < |entries| ==> ks[i] == KindOf(entries[i].name)
  {
    seq(|entries|, i requires 0 <= i < |entries| => KindOf(entries[i].name))
  }

  /** The last position holding a kind. */
  function LastOf(ks: seq<Option<FileKind>>, k: FileKind): (r: Option<nat>)
    ensures r.Some? ==> r.value < |ks| && ks[r.value] == Some(k)
    ensures r.Some? ==> forall j :: r.value < j < |ks| ==> ks[j] != Some(k)
    ensures r.None? <==> Some(k) !in ks
  {
    if ks == [] then None
    else if ks[|ks| - 1] == Some(k) then Some(|ks| - 1)
    else
      var r := LastOf(ks[..|ks| - 1], k);
      assert ks == ks[..|ks| - 1] + [ks[|ks| - 1]];
      r
  }

  /** The entry stop times are read from: the last one named stop_times.txt. */
  function StopTimesEntry(entries: seq<Entry>): Option<nat> {
    LastOf(Kinds(entries), StopTimesFile)
  }

  /** Whether a file's rows all decode when it is read as the given kind;
      stop times are judged when they are resolved, and a file of no kind
      is not read. */
  predicate Decodes(c: Content, k: Option<FileKind>) {
    match k
    case None => true
    case Some(CalendarFile) => AllGood(c.calendars)
    case Some(StopsFile) => AllGood(c.stops)
    case Some(CalendarDatesFile) => AllGood(c.calendarDates)
    case Some(RoutesFile) => AllGood(c.routes)
    case Some(TripsFile) => AllGood(c.trips)
    case Some(StopTimesFile) => true
    case Some(AgencyFile) => AllGood(c.agencies)
    case Some(ShapesFile) => AllGood(c.shapes)
    case Some(FareAttributesFile) => AllGood(c.fareAttributes)
  }

  /** Whether every entry decodes as the kind its name gives it. */
  predicate ArchiveDecodes(entries: seq<Entry>) {
    forall i :: 0 <= i < |entries| ==> Decodes(entries[i].content, Kinds(entries)[i])
  }

  /** Every stop time of a loaded feed points at one of its stops, and every
      trip's stop times are in stop_sequence order. */
  predicate Loaded(g: Gtfs)
    reads g`trips, g`stops
  {
    g.StopsResolve() && forall t :: t in g.trips ==> SortedBy(g.trips[t].stopTimes, SequenceOf)
  }

  /** No stop times are attached yet. */
  predicate NoStopTimes(trips: map<string, Trip>) {
    forall t :: t in trips ==> trips[t].stopTimes == []
  }

  /** Reads the entries of an archive in order, each by the kind its name
      ends with, and then the stop times from the last stop_times.txt entry;
      the first error ends the reading. */
  method FromArchive(entries: seq<Entry>) returns (r: Result<Gtfs, LoadError>)
    ensures r.Success? <==> ArchiveRead(entries).Some?
    ensures r.Success? ==> r.value.Contents() == ArchiveRead(entries).value
    ensures r.Success? ==> Loaded(r.value)
    ensures Some(StopTimesFile) !in Kinds(entries) ==> r.Failure?
    ensures ArchiveDecodes(entries) && Some(StopTimesFile) !in Kinds(entries) ==>
      r == Failure(MissingFile(FileName(StopTimesFile)))
    ensures !ArchiveDecodes(entries) ==> r.Failure? && r.error.DecodeError?
  {
    var g := new Gtfs();
    var status := ReadEntries(g, entries);
    if status.Fail? {
      return Failure(status.error);
    }
    var index := StopTimesEntry(entries);
    if index.None? {
      return Failure(MissingFile(FileName(StopTimesFile)));
    }
    ghost var d := g.Contents();
    var rows := entries[index.value].content.stopTimes;
    r := ReadStopTimesLast(g, rows);
    ArchiveReadStopTimes(entries, index.value, d);
    if r.Success? {
      assert StopTimesRead(rows, d.trips, d.stops) == Some(g.trips);
      assert g.Contents() == d.(trips := g.trips);
    }
  }

  /** When every entry decodes, an archive loads to its entries' reading with
      the stop times of its last stop_times.txt entry read in. */
  lemma {:induction false} ArchiveReadStopTimes(entries: seq<Entry>, i: nat, d: FeedData)
    requires ArchiveDecodes(entries) && StopTimesEntry(entries) == Some(i)
    requires d == EntriesRead(EmptyFeed, entries)
    ensures i < |entries|
    ensures ArchiveRead(entries) ==
      match StopTimesRead(entries[i].content.stopTimes, d.trips, d.stops)
      case None => None
      case Some(trips) => Some(d.(trips := trips))
  {
  }

  /** Reads the entries of an archive into the feed in order, each by the
      kind its name ends with; the first entry that does not decode ends the
      reading. */
  method ReadEntries(g: Gtfs, entries: seq<Entry>) returns (status: Outcome<LoadError>)
    requires NoStopTimes(g.trips)
    modifies g
    ensures NoStopTimes(g.trips)
    ensures status.Pass? <==> ArchiveDecodes(entries)
    ensures status.Fail? ==> status.error.DecodeError?
    ensures status.Pass? ==> g.Contents() == EntriesRead(old(g.Contents()), entries)
  {
    status := Pass;
    var kinds := Kinds(entries);
    var i := 0;
    while i < |entries|
      invariant i <= |entries|
      invariant status == Pass
      invariant forall j :: 0 <= j < i ==> Decodes(entries[j].content, kinds[j])
      invariant NoStopTimes(g.trips)
      invariant g.Contents() == EntriesRead(old(g.Contents()), entries[..i])
    {
      status := ReadEntry(g, kinds[i], entries[i].content);
      if status.Fail? {
        assert !Decodes(entries[i].content, Kinds(entries)[i]);
        return;
      }
      DecodedSoFar(entries, kinds, i);
      EntriesReadStep(old(g.Contents()), entries, i);
      i := i + 1;
    }
    assert entries[..i] == entries;
  }

  lemma DecodedSoFar(entries: seq<Entry>, kinds: seq<Option<FileKind>>, i: nat)
    requires i < |entries| == |kinds|
    requires forall j :: 0 <= j < i ==> Decodes(entries[j].content, kinds[j])
    requires Decodes(entries[i].content, kinds[i])
    ensures forall j :: 0 <= j <= i ==> Decodes(entries[j].content, kinds[j])
  {
  }

  /** The feed's collections after one archive entry is read as the kind its
      name gives it: a keyed file replaces its map only when every row
      decodes, a grouped file appends the rows before its first bad row, and
      stop times and entries of no kind change nothing. */
  function EntryRead(d: FeedData, kind: Option<FileKind>, c: Content): FeedData {
    match kind
    case None => d
    case Some(CalendarFile) =>
      if AllGood(c.calendars) then d.(calendar := KeyedBy(Values(c.calendars), CalendarKey)) else d
    case Some(StopsFile) =>
      if AllGood(c.stops) then d.(stops := KeyedBy(Values(c.stops), StopKey)) else d
    case Some(CalendarDatesFile) =>
      d.(calendarDates := Grouped(d.calendarDates, Decoded(c.calendarDates), ServiceKey))
    case Some(RoutesFile) =>
      if AllGood(c.routes) then d.(routes := KeyedBy(Values(c.routes), RouteKey)) else d
    case Some(TripsFile) =>
      if AllGood(c.trips) then d.(trips := KeyedBy(Values(c.trips), TripKey)) else d
    case Some(StopTimesFile) => d
    case Some(AgencyFile) =>
      if AllGood(c.agencies) then d.(agencies := Values(c.agencies)) else d
    case Some(ShapesFile) =>
      d.(shapes := Grouped(d.shapes, Decoded(c.shapes), ShapeKey))
    case Some(FareAttributesFile) =>
      if AllGood(c.fareAttributes) then d.(fareAttributes := KeyedBy(Values(c.fareAttributes), FareKey)) else d
  }

  /** A feed with no records, as a new `Gtfs` starts. */
  const EmptyFeed: FeedData := FeedData(map[], map[], map[], map[], map[], [], map[], map[])

  /** The feed's collections after the entries are read in archive order,
      each as the kind its name gives it. */
  function EntriesRead(d: FeedData, entries: seq<Entry>): FeedData
    decreases |entries|
  {
    if entries == [] then d
    else
      var last := entries[|entries| - 1];
      EntryRead(EntriesRead(d, entries[..|entries| - 1]), KindOf(last.name), last.content)
  }

  /** Reading one more entry reads it into the feed the earlier ones gave. */
  lemma EntriesReadStep(d: FeedData, entries: seq<Entry>, i: nat)
    requires i < |entries|
    ensures EntriesRead(d, entries[..i + 1]) == EntryRead(EntriesRead(d, entries[..i]), KindOf(entries[i].name), entries[i].content)
  {
    assert entries[..i + 1][..i] == entries[..i];
  }

  /** The trips once stop-time rows are read into them: each row's stop time
      attached to its trip, then every trip's stop times sorted by
      stop_sequence; none when some row does not resolve. */
  function StopTimesRead(rows: seq<Row<StopTimeRecord>>, trips: map<string, Trip>, stops: map<string, Stop>): Option<map<string, Trip>> {
    if Unresolved(rows, trips, stops) < |rows| then None
    else
      AllResolved(rows, trips, stops);
      Some(SortTrips(Attach(trips, Values(rows))))
  }

  /** What an archive loads to: its entries read in order, then the stop
      times of its last stop_times.txt entry read into the trips; none when
      an entry does not decode, there is no stop_times.txt entry, or a stop
      time does not resolve. */
  function ArchiveRead(entries: seq<Entry>): Option<FeedData> {
    if !ArchiveDecodes(entries) then None
    else match StopTimesEntry(entries)
      case None => None
      case Some(i) =>
        var d := EntriesRead(EmptyFeed, entries);
        match StopTimesRead(entries[i].content.stopTimes, d.trips, d.stops)
        case None => None
        case Some(trips) => Some(d.(trips := trips))
  }

  /** Reads one archive entry into the feed as the kind its name gives it;
      stop times are left for last and entries of no kind are skipped. */
  method ReadEntry(g: Gtfs, kind: Option<FileKind>, content: Content) returns (status: Outcome<LoadError>)
    requires NoStopTimes(g.trips)
    modifies g
    ensures NoStopTimes(g.trips)
    ensures status.Pass? <==> Decodes(content, kind)
    ensures status.Fail? ==> status.error.DecodeError?
    ensures g.Contents() == EntryRead(old(g.Contents()), kind, content)
  {
    status := Pass;
    match kind {
      case None =>
      case Some(CalendarFile) => status := g.ReadCalendars(content.calendars);
      case Some(StopsFile) => status := g.ReadStops(content.stops);
      case Some(CalendarDatesFile) => status := g.ReadCalendarDates(content.calendarDates);
      case Some(RoutesFile) => status := g.ReadRoutes(content.routes);
      case Some(TripsFile) => status := g.ReadTrips(content.trips);
      case Some(StopTimesFile) =>
      case Some(AgencyFile) => status := g.ReadAgencies(content.agencies);
      case Some(ShapesFile) => status := g.ReadShapes(content.shapes);
      case Some(FareAttributesFile) => status := g.ReadFareAttributes(content.fareAttributes);
    }
  }

  /** Reads the stop times into a feed none of whose trips has any yet, and
      returns the feed when they resolve. */
  method ReadStopTimesLast(g: Gtfs, rows: seq<Row<StopTimeRecord>>) returns (r: Result<Gtfs, LoadError>)
    requires NoStopTimes(g.trips)
    modifies g`trips
    ensures r.Success? ==> r.value == g && Loaded(g)
    ensures r.Success? <==> Unresolved(rows, old(g.trips), g.stops) == |rows|
    ensures r.Failure? ==> r.error == RowError(rows, Unresolved(rows, old(g.trips), g.stops), old(g.trips), g.stops).value
    ensures r.Success? ==> Some(g.trips) == StopTimesRead(rows, old(g.trips), g.stops)
  {
    var status := g.ReadStopTimes(rows);
    if status.Fail? {
      return Failure(status.error);
    }
    SortTripsSorted(Attach(old(g.trips), Values(rows)));
    r := Success(g);
    assert g.trips == SortTrips(Attach(old(g.trips), Values(rows)));
  }

  /** The files a directory must hold, in the order they are opened. */
  const Required: seq<FileKind> := [TripsFile, CalendarFile, StopsFile, CalendarDatesFile,
    RoutesFile, StopTimesFile, AgencyFile]

  /** The first required file, in opening order, that a directory lacks. */
  function FirstMissing(dir: map<string, Content>): (r: Option<FileKind>)
    ensures r.Some? ==> r.value in Required && FileName(r.value) !in dir
    ensures r.Some? ==> exists i ::
      && 0 <= i < |Required| && r.value == Required[i]
      && forall j :: 0 <= j < i ==> FileName(Required[j]) in dir
    ensures r.None? <==> forall i :: 0 <= i < |Required| ==> FileName(Required[i]) in dir
  {
    FirstMissingFrom(dir, 0)
  }

  function FirstMissingFrom(dir: map<string, Content>, i: nat): (r: Option<FileKind>)
    requires i <= |Required|
    ensures r.Some? ==> r.value in Required[i..] && FileName(r.value) !in dir
    ensures r.Some? ==> exists k ::
      && i <= k < |Required| && r.value == Required[k]
      && forall j :: i <= j < k ==> FileName(Required[j]) in dir
    ensures r.None? <==> forall j :: i <= j < |Required| ==> FileName(Required[j]) in dir
    decreases |Required| - i
  {
    if i == |Required| then None
    else if FileName(Required[i]) !in dir then Some(Required[i])
    else FirstMissingFrom(dir, i + 1)
  }

  /** Whether the named file of a directory, if present, decodes as its kind. */
  predicate FileDecodes(dir: map<string, Content>, k: FileKind) {
    FileName(k) in dir ==> Decodes(dir[FileName(k)], Some(k))
  }

  /** Whether every file a directory holds decodes as its kind. */
  predicate AllFilesDecode(dir: map<string, Content>) {
    && FileDecodes(dir, CalendarFile) && FileDecodes(dir, StopsFile) && FileDecodes(dir, CalendarDatesFile)
    && FileDecodes(dir, RoutesFile) && FileDecodes(dir, TripsFile) && FileDecodes(dir, AgencyFile)
    && FileDecodes(dir, ShapesFile) && FileDecodes(dir, FareAttributesFile)
  }

  /** Opens the required files of a directory, failing on the first missing
      one before reading anything, then reads them. */
  method FromDirectory(dir: map<string, Content>) returns (r: Result<Gtfs, LoadError>)
    ensures r.Success? <==> DirectoryRead(dir).Some?
    ensures r.Success? ==> r.value.Contents() == DirectoryRead(dir).value
    ensures FirstMissing(dir).Some? ==> r == Failure(MissingFile(FileName(FirstMissing(dir).value)))
    ensures r.Success? ==> FirstMissing(dir).None? && Loaded(r.value) && AllFilesDecode(dir)
    ensures FirstMissing(dir).None? && AllFilesDecode(dir) ==>
      (r.Success? <==> Unresolved(dir[FileName(StopTimesFile)].stopTimes,
                                  KeyedBy(Values(dir[FileName(TripsFile)].trips), TripKey),
                                  KeyedBy(Values(dir[FileName(StopsFile)].stops), StopKey)) == |dir[FileName(StopTimesFile)].stopTimes|)
  {
    var missing := FirstMissing(dir);
    if missing.Some? {
      return Failure(MissingFile(FileName(missing.value)));
    }
    assert forall i :: 0 <= i < |Required| ==> FileName(Required[i]) in dir;
    var trips, calendars, calendarDates := dir[FileName(TripsFile)].trips, dir[FileName(CalendarFile)].calendars,
                                           dir[FileName(CalendarDatesFile)].calendarDates;
    var stops, routes := dir[FileName(StopsFile)].stops, dir[FileName(RoutesFile)].routes;
    var stopTimes, agencies := dir[FileName(StopTimesFile)].stopTimes, dir[FileName(AgencyFile)].agencies;
    r := ReadFiles(trips, calendars, calendarDates, stops, routes, stopTimes, agencies, ShapesOf(dir), FaresOf(dir));
    DirectoryDecodes(dir);
    FilesReadSucceeds(trips, calendars, calendarDates, stops, routes, stopTimes, agencies, ShapesOf(dir), FaresOf(dir));
    if r.Success? {
      FilesReadLoaded(trips, calendars, calendarDates, stops, routes, stopTimes, agencies,
                      ShapesOf(dir), FaresOf(dir), r.value.trips);
    }
  }

  /** The rows of a directory's shapes.txt, which may be absent. */
  function ShapesOf(dir: map<string, Content>): Option<seq<Row<Shape>>> {
    if FileName(ShapesFile) in dir then Some(dir[FileName(ShapesFile)].shapes) else None
  }

  /** The rows of a directory's fare_attributes.txt, which may be absent. */
  function FaresOf(dir: map<string, Content>): Option<seq<Row<FareAttribute>>> {
    if FileName(FareAttributesFile) in dir then Some(dir[FileName(FareAttributesFile)].fareAttributes) else None
  }

  /** What a directory loads to: its files read as `FilesRead` reads them;
      none when a required file is missing or reading fails. */
  function DirectoryRead(dir: map<string, Content>): Option<FeedData> {
    if FirstMissing(dir).Some? then None
    else
      assert forall i :: 0 <= i < |Required| ==> FileName(Required[i]) in dir;
      FilesRead(dir[FileName(TripsFile)].trips, dir[FileName(CalendarFile)].calendars,
                dir[FileName(CalendarDatesFile)].calendarDates, dir[FileName(StopsFile)].stops,
                dir[FileName(RoutesFile)].routes, dir[FileName(StopTimesFile)].stopTimes,
                dir[FileName(AgencyFile)].agencies, ShapesOf(dir), FaresOf(dir))
  }

  /** A directory holding every required file decodes exactly when each of
      its files' rows all do. */
  lemma DirectoryDecodes(dir: map<string, Content>)
    requires FirstMissing(dir).None?
    ensures AllFilesDecode(dir) <==>
      && AllGood(dir[FileName(TripsFile)].trips) && AllGood(dir[FileName(CalendarFile)].calendars)
      && AllGood(dir[FileName(CalendarDatesFile)].calendarDates) && AllGood(dir[FileName(StopsFile)].stops)
      && AllGood(dir[FileName(RoutesFile)].routes) && AllGood(dir[FileName(AgencyFile)].agencies)
      && (FileName(ShapesFile) in dir ==> AllGood(dir[FileName(ShapesFile)].shapes))
      && (FileName(FareAttributesFile) in dir ==> AllGood(dir[FileName(FareAttributesFile)].fareAttributes))
  {
    assert forall i :: 0 <= i < |Required| ==> FileName(Required[i]) in dir;
  }

  /** Whether a file that may be absent decodes when present. */
  predicate OptionalGood<T>(rows: Option<seq<Row<T>>>) {
    rows.Some? ==> AllGood(rows.value)
  }

  /** The feed a directory's files load to: calendars, stops, routes and fare
      attributes keyed by id, calendar dates and shapes grouped by their
      service and shape, every agency in file order, and the trips keyed by
      id with their stop times read in; an absent shapes or fare file leaves
      its collection empty. None when a file does not decode or a stop time
      does not resolve. */
  function FilesRead(trips: seq<Row<DecodedTrip>>, calendars: seq<Row<Calendar>>,
                     calendarDates: seq<Row<CalendarDate>>, stops: seq<Row<Stop>>,
                     routes: seq<Row<Route>>, stopTimes: seq<Row<StopTimeRecord>>,
                     agencies: seq<Row<Agency>>, shapes: Option<seq<Row<Shape>>>,
                     fares: Option<seq<Row<FareAttribute>>>): Option<FeedData>
  {
    if !(&& AllGood(trips) && AllGood(calendars) && AllGood(calendarDates) && AllGood(stops)
         && AllGood(routes) && AllGood(agencies) && OptionalGood(shapes) && OptionalGood(fares))
    then None
    else
      var keyedTrips := KeyedBy(Values(trips), TripKey);
      var keyedStops := KeyedBy(Values(stops), StopKey);
      match StopTimesRead(stopTimes, keyedTrips, keyedStops)
      case None => None
      case Some(loadedTrips) =>
        Some(FeedData(
          KeyedBy(Values(calendars), CalendarKey),
          Grouped(map[], Values(calendarDates), ServiceKey),
          keyedStops,
          KeyedBy(Values(routes), RouteKey),
          loadedTrips,
          Values(agencies),
          if shapes.Some? then Grouped(map[], Values(shapes.value), ShapeKey) else map[],
          if fares.Some? then KeyedBy(Values(fares.value), FareKey) else map[]))
  }

  /** Reads the files of a directory in the order trips, calendars, calendar
      dates, stops, routes, stop times, agencies, then shapes and fare
      attributes when present; the first error ends the reading. */
  method ReadFiles(trips: seq<Row<DecodedTrip>>, calendars: seq<Row<Calendar>>,
                   calendarDates: seq<Row<CalendarDate>>, stops: seq<Row<Stop>>,
                   routes: seq<Row<Route>>, stopTimes: seq<Row<StopTimeRecord>>,
                   agencies: seq<Row<Agency>>, shapes: Option<seq<Row<Shape>>>,
                   fares: Option<seq<Row<FareAttribute>>>)
    returns (r: Result<Gtfs, LoadError>)
    ensures r.Success? ==> Loaded(r.value)
    ensures r.Success? ==>
      && AllGood(trips) && AllGood(calendars) && AllGood(calendarDates) && AllGood(stops)
      && AllGood(routes) && AllGood(agencies) && OptionalGood(shapes) && OptionalGood(fares)
    ensures
      && AllGood(trips) && AllGood(calendars) && AllGood(calendarDates) && AllGood(stops) && AllGood(routes)
      && AllGood(agencies) && OptionalGood(shapes) && OptionalGood(fares)
      ==> (r.Success? <==> Unresolved(stopTimes, KeyedBy(Values(trips), TripKey), KeyedBy(Values(stops), StopKey)) == |stopTimes|)
    ensures r.Success? ==>
      && r.value.calendar == KeyedBy(Values(calendars), CalendarKey)
      && r.value.calendarDates == Grouped(map[], Values(calendarDates), ServiceKey)
      && r.value.stops == KeyedBy(Values(stops), StopKey)
      && r.value.routes == KeyedBy(Values(routes), RouteKey)
      && r.value.agencies == Values(agencies)
      && r.value.shapes == (if shapes.Some? then Grouped(map[], Values(shapes.value), ShapeKey) else map[])
      && r.value.fareAttributes == (if fares.Some? then KeyedBy(Values(fares.value), FareKey) else map[])
    ensures r.Success? ==>
      Some(r.value.trips) == StopTimesRead(stopTimes, KeyedBy(Values(trips), TripKey), KeyedBy(Values(stops), StopKey))
  {
    var g := new Gtfs();
    var status := ReadBeforeStopTimes(g, trips, calendars, calendarDates, stops, routes);
    if status.Fail? { return Failure(status.error); }
    DecodedAll(calendarDates);
    r := ReadFromStopTimes(g, stopTimes, agencies, shapes, fares);
  }

  /** The reads from the stop times on: the stop times, then the agencies,
      shapes and fare attributes; the first error ends the reading. */
  method ReadFromStopTimes(g: Gtfs, stopTimes: seq<Row<StopTimeRecord>>, agencies: seq<Row<Agency>>,
                           shapes: Option<seq<Row<Shape>>>, fares: Option<seq<Row<FareAttribute>>>)
    returns (r: Result<Gtfs, LoadError>)
    requires NoStopTimes(g.trips)
    modifies g`trips, g`agencies, g`shapes, g`fareAttributes
    ensures r.Success? ==> r.value == g && Loaded(g)
    ensures r.Success? <==>
      && Unresolved(stopTimes, old(g.trips), g.stops) == |stopTimes|
      && AllGood(agencies) && OptionalGood(shapes) && OptionalGood(fares)
    ensures r.Success? ==> Some(g.trips) == StopTimesRead(stopTimes, old(g.trips), g.stops)
    ensures r.Success? ==>
      && g.agencies == Values(agencies)
      && g.shapes == (if shapes.Some? then Grouped(old(g.shapes), Values(shapes.value), ShapeKey) else old(g.shapes))
      && g.fareAttributes == (if fares.Some? then KeyedBy(Values(fares.value), FareKey) else old(g.fareAttributes))
  {
    r := ReadStopTimesLast(g, stopTimes);
    if r.Failure? { return; }
    ghost var read := StopTimesRead(stopTimes, old(g.trips), g.stops);
    assert read == Some(g.trips);
    var status := ReadAfterStopTimes(g, agencies, shapes, fares);
    if status.Fail? { return Failure(status.error); }
    if shapes.Some? { DecodedAll(shapes.value); }
    assert read == Some(g.trips);
  }

  /** A directory's files load exactly when every file decodes and every
      stop time resolves against the trips and stops they define. */
  lemma FilesReadSucceeds(trips: seq<Row<DecodedTrip>>, calendars: seq<Row<Calendar>>,
                          calendarDates: seq<Row<CalendarDate>>, stops: seq<Row<Stop>>,
                          routes: seq<Row<Route>>, stopTimes: seq<Row<StopTimeRecord>>,
                          agencies: seq<Row<Agency>>, shapes: Option<seq<Row<Shape>>>,
                          fares: Option<seq<Row<FareAttribute>>>)
    ensures FilesRead(trips, calendars, calendarDates, stops, routes, stopTimes, agencies, shapes, fares).Some? <==>
      && AllGood(trips) && AllGood(calendars) && AllGood(calendarDates) && AllGood(stops)
      && AllGood(routes) && AllGood(agencies) && OptionalGood(shapes) && OptionalGood(fares)
      && Unresolved(stopTimes, KeyedBy(Values(trips), TripKey), KeyedBy(Values(stops), StopKey)) == |stopTimes|
  {
  }

  /** When every file decodes and every stop time resolves, the feed a
      directory's files load to, collection by collection. */
  lemma {:induction false} FilesReadLoaded(trips: seq<Row<DecodedTrip>>, calendars: seq<Row<Calendar>>,
                        calendarDates: seq<Row<CalendarDate>>, stops: seq<Row<Stop>>,
                        routes: seq<Row<Route>>, stopTimes: seq<Row<StopTimeRecord>>,
                        agencies: seq<Row<Agency>>, shapes: Option<seq<Row<Shape>>>,
                        fares: Option<seq<Row<FareAttribute>>>, loadedTrips: map<string, Trip>)
    requires && AllGood(trips) && AllGood(calendars) && AllGood(calendarDates) && AllGood(stops)
             && AllGood(routes) && AllGood(agencies) && OptionalGood(shapes) && OptionalGood(fares)
    requires StopTimesRead(stopTimes, KeyedBy(Values(trips), TripKey), KeyedBy(Values(stops), StopKey)) == Some(loadedTrips)
    ensures FilesRead(trips, calendars, calendarDates, stops, routes, stopTimes, agencies, shapes, fares) ==
      Some(FeedData(
        KeyedBy(Values(calendars), CalendarKey), Grouped(map[], Values(calendarDates), ServiceKey),
        KeyedBy(Values(stops), StopKey), KeyedBy(Values(routes), RouteKey), loadedTrips, Values(agencies),
        if shapes.Some? then Grouped(map[], Values(shapes.value), ShapeKey) else map[],
        if fares.Some? then KeyedBy(Values(fares.value), FareKey) else map[]))
  {
  }

  /** The reads that precede the stop times. */
  method ReadBeforeStopTimes(g: Gtfs, trips: seq<Row<DecodedTrip>>, calendars: seq<Row<Calendar>>,
                             calendarDates: seq<Row<CalendarDate>>, stops: seq<Row<Stop>>,
                             routes: seq<Row<Route>>)
    returns (status: Outcome<LoadError>)
    requires g.trips == map[]
    modifies g`trips, g`calendar, g`calendarDates, g`stops, g`routes
    ensures status.Pass? <==>
      AllGood(trips) && AllGood(calendars) && AllGood(calendarDates) && AllGood(stops) && AllGood(routes)
    ensures NoStopTimes(g.trips)
    ensures status.Pass? ==> g.trips == KeyedBy(Values(trips), TripKey) && g.stops == KeyedBy(Values(stops), StopKey)
    ensures status.Pass? ==> g.calendar == KeyedBy(Values(calendars), CalendarKey)
    ensures status.Pass? ==> g.calendarDates == Grouped(old(g.calendarDates), Decoded(calendarDates), ServiceKey)
    ensures status.Pass? ==> g.routes == KeyedBy(Values(routes), RouteKey)
  {
    status := g.ReadTrips(trips);
    if status.Fail? { return; }
    status := g.ReadCalendars(calendars);
    if status.Fail? { return; }
    status := g.ReadCalendarDates(calendarDates);
    if status.Fail? { return; }
    status := g.ReadStops(stops);
    if status.Fail? { return; }
    status := g.ReadRoutes(routes);
  }

  /** The reads that follow the stop times. */
  method ReadAfterStopTimes(g: Gtfs, agencies: seq<Row<Agency>>, shapes: Option<seq<Row<Shape>>>,
                            fares: Option<seq<Row<FareAttribute>>>)
    returns (status: Outcome<LoadError>)
    modifies g`agencies, g`shapes, g`fareAttributes
    ensures status.Pass? <==> AllGood(agencies) && OptionalGood(shapes) && OptionalGood(fares)
    ensures status.Pass? ==> g.agencies == Values(agencies)
    ensures shapes.Some? && status.Pass? ==> g.shapes == Grouped(old(g.shapes), Decoded(shapes.value), ShapeKey)
    ensures shapes.None? ==> g.shapes == old(g.shapes)
    ensures fares.Some? && status.Pass? ==> g.fareAttributes == KeyedBy(Values(fares.value), FareKey)
    ensures fares.None? ==> g.fareAttributes == old(g.fareAttributes)
  {
    status := g.ReadAgencies(agencies);
    if status.Fail? { return; }
    if shapes.Some? {
      status := g.ReadShapes(shapes.value);
      if status.Fail? { return; }
    }
    if fares.Some? {
      status := g.ReadFareAttributes(fares.value);
    }
  }
}
