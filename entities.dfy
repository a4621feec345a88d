/** The records of a GTFS feed (src/lib.rs:117-453), with dates as day
    numbers and the shared stop of a stop time as the stop's id. */
module Entities {
  import opened Wrappers
  import opened Decoders

  // ---------------------------------------------------------------------
  // Dates

  /** A calendar date as a day number; day 0 is 1970-01-01, a Thursday. */
  type Date = int

  datatype Weekday = Mon | Tue | Wed | Thu | Fri | Sat | Sun

  const Week: seq<Weekday> := [Mon, Tue, Wed, Thu, Fri, Sat, Sun]

  /** The position of a date in its Monday-first week. */
  function WeekdayIndex(d: Date): (i: nat)
    ensures i < 7
  {
    (d + 3) % 7
  }

  /** Weekdays repeat every seven days. */
  lemma WeekdayPeriodic(d: Date)
    ensures WeekdayIndex(d + 7) == WeekdayIndex(d)
  {
    var q, r := (d + 3) / 7, (d + 3) % 7;
    assert d + 7 + 3 == 7 * (q + 1) + r;
  }

  function WeekdayOf(d: Date): Weekday {
    Week[WeekdayIndex(d)]
  }

  // ---------------------------------------------------------------------
  // calendar.txt and calendar_dates.txt

  datatype Calendar = Calendar(
    id: string,
    monday: bool, tuesday: bool, wednesday: bool, thursday: bool,
    friday: bool, saturday: bool, sunday: bool,
    startDate: Date, endDate: Date)
  {
    /** The weekday flags, Monday first. */
    function Flags(): (f: seq<bool>)
      ensures |f| == 7
    {
      [monday, tuesday, wednesday, thursday, friday, saturday, sunday]
    }

    /** Whether the service pattern runs on the weekday of a date. */
    function ValidWeekday(date: Date): (b: bool)
      ensures b <==> Flags()[WeekdayIndex(date)]
    {
      match WeekdayOf(date)
      case Mon => monday
      case Tue => tuesday
      case Wed => wednesday
      case Thu => thursday
      case Fri => friday
      case Sat => saturday
      case Sun => sunday
    }
  }

  /** A calendar decoded from its seven weekday cells, Monday first. */
  function CalendarOf(id: string, cells: seq<string>, startDate: Date, endDate: Date): (c: Calendar)
    requires |cells| == 7
    ensures c.id == id && c.startDate == startDate && c.endDate == endDate
    ensures forall i :: 0 <= i < 7 ==> (c.Flags()[i] <==> cells[i] == "1")
  {
    Calendar(id, FlagOf(cells[0]), FlagOf(cells[1]), FlagOf(cells[2]), FlagOf(cells[3]),
             FlagOf(cells[4]), FlagOf(cells[5]), FlagOf(cells[6]), startDate, endDate)
  }

  /** A calendar runs on a date exactly when the flag of that date's weekday
      is set, and so on every date seven days later too. */
  lemma ValidWeekdayFlag(c: Calendar, date: Date)
    ensures c.ValidWeekday(date) <==> c.Flags()[WeekdayIndex(date)]
    ensures c.ValidWeekday(date + 7) == c.ValidWeekday(date)
  {
    WeekdayPeriodic(date);
    var i := WeekdayIndex(date);
    assert WeekdayOf(date) == Week[i] && WeekdayOf(date + 7) == Week[i];
    FlagOfWeekday(c, i);
  }

  lemma FlagOfWeekday(c: Calendar, i: nat)
    requires i < 7
    ensures c.Flags()[i] == match Week[i]
      case Mon => c.monday case Tue => c.tuesday case Wed => c.wednesday
      case Thu => c.thursday case Fri => c.friday case Sat => c.saturday
      case Sun => c.sunday
  {
  }

  /** For a decoded calendar, the service runs on a date's weekday exactly
      when that weekday's cell reads "1". */
  lemma DecodedWeekday(id: string, cells: seq<string>, startDate: Date, endDate: Date, date: Date)
    requires |cells| == 7
    ensures CalendarOf(id, cells, startDate, endDate).ValidWeekday(date)
        <==> cells[WeekdayIndex(date)] == "1"
  {
    ValidWeekdayFlag(CalendarOf(id, cells, startDate, endDate), date);
  }

  datatype CalendarDate = CalendarDate(serviceId: string, date: Date, exceptionType: U8)

  // ---------------------------------------------------------------------
  // stops.txt, routes.txt, trips.txt, stop_times.txt

  datatype Stop = Stop(
    id: string,
    code: Option<string>,
    name: string,
    description: string,
    locationType: LocationType,
    parentStation: Option<string>,
    timezone: Option<string>,
    wheelchairBoarding: Availability)

  datatype Route = Route(
    id: string,
    shortName: string,
    longName: string,
    routeType: RouteType,
    agencyId: Option<string>,
    routeOrder: Option<U32>)
  {
    /** The name a route is displayed with: its long name, or its short
        name when the long name is empty. */
    function DisplayName(): (name: string)
      ensures longName != [] ==> name == longName
      ensures longName == [] ==> name == shortName
      ensures name == [] <==> longName == [] && shortName == []
    {
      if longName != [] then longName else shortName
    }
  }

  /** A resolved stop time; `stop` is the id of the stop it shares. */
  datatype StopTime = StopTime(
    arrivalTime: U32,
    stop: string,
    departureTime: U32,
    pickupType: Option<PickupDropOffType>,
    dropOffType: Option<PickupDropOffType>,
    stopSequence: U16)

  /** A stop_times.txt row as decoded, before its trip and stop are resolved. */
  datatype StopTimeRecord = StopTimeRecord(
    tripId: string,
    arrivalTime: U32,
    departureTime: U32,
    stopId: string,
    stopSequence: U16,
    pickupType: Option<PickupDropOffType>,
    dropOffType: Option<PickupDropOffType>)
  {
    /** The stop time this row becomes once its stop is resolved. */
    function ToStopTime(): (st: StopTime)
      ensures st.stop == stopId && st.stopSequence == stopSequence
      ensures st.arrivalTime == arrivalTime && st.departureTime == departureTime
      ensures st.pickupType == pickupType && st.dropOffType == dropOffType
    {
      StopTime(arrivalTime, stopId, departureTime, pickupType, dropOffType, stopSequence)
    }
  }

  datatype Trip = Trip(id: string, serviceId: string, routeId: string, stopTimes: seq<StopTime>)

  /** A trip as trips.txt decodes it: its stop times are filled in later. */
  type DecodedTrip = t: Trip | t.stopTimes == [] witness Trip("", "", "", [])

  // ---------------------------------------------------------------------
  // agency.txt, shapes.txt, fare_attributes.txt

  datatype Agency = Agency(
    id: Option<string>,
    name: string,
    url: string,
    timezone: string,
    lang: Option<string>,
    phone: Option<string>,
    fareUrl: Option<string>,
    email: Option<string>)
  {
    /** The agency's id, or the empty string when it has none. */
    function Key(): (k: string)
      ensures id.Some? ==> k == id.value
      ensures id.None? ==> k == ""
    {
      match id
      case None => ""
      case Some(s) => s
    }
  }

  datatype Shape = Shape(id: string, sequence: U16)

  datatype FareAttribute = FareAttribute(
    id: string,
    price: string,
    currency: string,
    paymentMethod: PaymentMethod,
    transfers: Transfers,
    agencyId: Option<string>,
    transferDuration: Option<nat>)

  // ---------------------------------------------------------------------
  // Errors

  /** A reference to an id the feed does not hold. */
  datatype ReferenceError = ReferenceError(id: string)

  /** Why loading a file stops: a row that does not decode (its index among
      the data rows), an unresolved reference, or a missing file. */
  datatype LoadError =
    | DecodeError(row: nat)
    | MissingReference(reference: ReferenceError)
    | MissingFile(name: string)

  // ---------------------------------------------------------------------
  // The key each keyed record is stored under

  function CalendarKey(c: Calendar): string { c.id }
  function ServiceKey(d: CalendarDate): string { d.serviceId }
  function StopKey(s: Stop): string { s.id }
  function RouteKey(r: Route): string { r.id }
  function TripKey(t: Trip): string { t.id }
  function ShapeKey(s: Shape): string { s.id }
  function FareKey(f: FareAttribute): string { f.id }
  function RecordTrip(r: StopTimeRecord): string { r.tripId }
  function SequenceOf(st: StopTime): int { st.stopSequence }
}
