/** The loaded feed (src/lib.rs:515-845): maps of records by id that the
    readers fill in place, the service-day calculator and the lookups. */
module Feed {
  import opened Wrappers
  import opened Decoders
  import opened Sequences
  import opened Entities
  import opened Tables
  import opened StopTimes
  import ServiceDays

  /** The collections of a feed, as values. */
  datatype FeedData = FeedData(
    calendar: map<string, Calendar>,
    calendarDates: map<string, seq<CalendarDate>>,
    stops: map<string, Stop>,
    routes: map<string, Route>,
    trips: map<string, Trip>,
    agencies: seq<Agency>,
    shapes: map<string, seq<Shape>>,
    fareAttributes: map<string, FareAttribute>)

  class Gtfs {
    var calendar: map<string, Calendar>
    var calendarDates: map<string, seq<CalendarDate>>
    var stops: map<string, Stop>
    var routes: map<string, Route>
    var trips: map<string, Trip>
    var agencies: seq<Agency>
    var shapes: map<string, seq<Shape>>
    var fareAttributes: map<string, FareAttribute>

    /** The empty feed every loader starts from. */
    constructor ()
      ensures calendar == map[] && calendarDates == map[] && stops == map[] && routes == map[]
      ensures trips == map[] && agencies == [] && shapes == map[] && fareAttributes == map[]
    {
      calendar := map[];
      calendarDates := map[];
      stops := map[];
      routes := map[];
      trips := map[];
      agencies := [];
      shapes := map[];
      fareAttributes := map[];
    }

    /** The feed's collections as they stand. */
    function Contents(): FeedData
      reads this
    {
      FeedData(calendar, calendarDates, stops, routes, trips, agencies, shapes, fareAttributes)
    }

    /** Every stop time of every trip points at a stop of the feed. */
    predicate StopsResolve()
      reads this`trips, this`stops
    {
      StopsKnown(trips, stops)
    }

    // -------------------------------------------------------------------
    // Keyed readers: the field is replaced only when every row decodes

    method ReadCalendars(rows: seq<Row<Calendar>>) returns (status: Outcome<LoadError>)
      modifies this`calendar
      ensures status.Pass? <==> AllGood(rows)
      ensures status.Fail? ==> status.error == DecodeError(FirstBad(rows)) && calendar == old(calendar)
      ensures status.Pass? ==> calendar == KeyedBy(Values(rows), CalendarKey)
    {
      match CollectKeyed(rows, CalendarKey)
      case Failure(e) => status := Fail(e);
      case Success(m) => calendar, status := m, Pass;
    }

    method ReadStops(rows: seq<Row<Stop>>) returns (status: Outcome<LoadError>)
      modifies this`stops
      ensures status.Pass? <==> AllGood(rows)
      ensures status.Fail? ==> status.error == DecodeError(FirstBad(rows)) && stops == old(stops)
      ensures status.Pass? ==> stops == KeyedBy(Values(rows), StopKey)
    {
      match CollectKeyed(rows, StopKey)
      case Failure(e) => status := Fail(e);
      case Success(m) => stops, status := m, Pass;
    }

    method ReadRoutes(rows: seq<Row<Route>>) returns (status: Outcome<LoadError>)
      modifies this`routes
      ensures status.Pass? <==> AllGood(rows)
      ensures status.Fail? ==> status.error == DecodeError(FirstBad(rows)) && routes == old(routes)
      ensures status.Pass? ==> routes == KeyedBy(Values(rows), RouteKey)
    {
      match CollectKeyed(rows, RouteKey)
      case Failure(e) => status := Fail(e);
      case Success(m) => routes, status := m, Pass;
    }

    method ReadTrips(rows: seq<Row<DecodedTrip>>) returns (status: Outcome<LoadError>)
      modifies this`trips
      ensures status.Pass? <==> AllGood(rows)
      ensures status.Fail? ==> status.error == DecodeError(FirstBad(rows)) && trips == old(trips)
      ensures status.Pass? ==> trips == KeyedBy(Values(rows), TripKey)
    {
      match CollectKeyed(rows, TripKey)
      case Failure(e) => status := Fail(e);
      case Success(m) => trips, status := m, Pass;
    }

    method ReadFareAttributes(rows: seq<Row<FareAttribute>>) returns (status: Outcome<LoadError>)
      modifies this`fareAttributes
      ensures status.Pass? <==> AllGood(rows)
      ensures status.Fail? ==> status.error == DecodeError(FirstBad(rows)) && fareAttributes == old(fareAttributes)
      ensures status.Pass? ==> fareAttributes == KeyedBy(Values(rows), FareKey)
    {
      match CollectAll(rows)
      case Failure(e) => status := Fail(e);
      case Success(fares) => fareAttributes, status := KeyedBy(fares, FareKey), Pass;
    }

    method ReadAgencies(rows: seq<Row<Agency>>) returns (status: Outcome<LoadError>)
      modifies this`agencies
      ensures status.Pass? <==> AllGood(rows)
      ensures status.Fail? ==> status.error == DecodeError(FirstBad(rows)) && agencies == old(agencies)
      ensures status.Pass? ==> agencies == Values(rows)
    {
      match CollectAll(rows)
      case Failure(e) => status := Fail(e);
      case Success(all) => agencies, status := all, Pass;
    }

    // -------------------------------------------------------------------
    // Grouping readers: rows before a bad row stay appended

    method ReadCalendarDates(rows: seq<Row<CalendarDate>>) returns (status: Outcome<LoadError>)
      modifies this`calendarDates
      ensures status.Pass? <==> AllGood(rows)
      ensures status.Fail? ==> status.error == DecodeError(FirstBad(rows))
      ensures calendarDates == Grouped(old(calendarDates), Decoded(rows), ServiceKey)
    {
      calendarDates, status := AppendGrouped(calendarDates, rows, ServiceKey);
    }

    method ReadShapes(rows: seq<Row<Shape>>) returns (status: Outcome<LoadError>)
      modifies this`shapes
      ensures status.Pass? <==> AllGood(rows)
      ensures status.Fail? ==> status.error == DecodeError(FirstBad(rows))
      ensures shapes == Grouped(old(shapes), Decoded(rows), ShapeKey)
    {
      shapes, status := AppendGrouped(shapes, rows, ShapeKey);
    }

    // -------------------------------------------------------------------
    // Stop times

    /** Attaches each row to its trip until the first row that does not
        decode or names an unknown trip or stop, which is the error; when
        every row resolves, sorts every trip's stop times by stop_sequence. */
    method ReadStopTimes(rows: seq<Row<StopTimeRecord>>) returns (status: Outcome<LoadError>)
      modifies this`trips
      ensures Unresolved(rows, old(trips), stops) < |rows| ==>
        && AllGood(rows[..Unresolved(rows, old(trips), stops)])
        && TripsKnown(Values(rows[..Unresolved(rows, old(trips), stops)]), old(trips))
        && status == Fail(RowError(rows, Unresolved(rows, old(trips), stops), old(trips), stops).value)
        && trips == Attach(old(trips), Values(rows[..Unresolved(rows, old(trips), stops)]))
      ensures Unresolved(rows, old(trips), stops) == |rows| ==>
        && AllGood(rows) && TripsKnown(Values(rows), old(trips))
        && status == Pass
        && trips == SortTrips(Attach(old(trips), Values(rows)))
      ensures trips.Keys == old(trips).Keys
      ensures old(StopsResolve()) ==> StopsResolve()
    {
      var k;
      k, status := AttachRows(rows);
      if status.Fail? {
        return;
      }
      assert rows[..k] == rows;
      SortKeepsStops(trips);
      SortAllTrips();
    }

    /** The row-by-row half of reading stop_times.txt: attaches rows until
        the first one that does not resolve, and reports it. */
    method AttachRows(rows: seq<Row<StopTimeRecord>>) returns (k: nat, status: Outcome<LoadError>)
      modifies this`trips
      ensures k == Unresolved(rows, old(trips), stops)
      ensures AllGood(rows[..k]) && TripsKnown(Values(rows[..k]), old(trips))
      ensures trips == Attach(old(trips), Values(rows[..k]))
      ensures k < |rows| ==> status == Fail(RowError(rows, k, old(trips), stops).value)
      ensures k == |rows| ==> status == Pass
      ensures old(StopsResolve()) ==> StopsResolve()
    {
      k := 0;
      while k < |rows|
        invariant k <= |rows|
        invariant ResolvedUpTo(rows, k, old(trips), stops)
        invariant trips == Attach(old(trips), Values(rows[..k]))
      {
        match rows[k]
        case Bad =>
          status := Fail(DecodeError(k));
          break;
        case Good(record) =>
          if record.tripId !in trips {
            status := Fail(MissingReference(ReferenceError(record.tripId)));
            break;
          }
          if record.stopId !in stops {
            status := Fail(MissingReference(ReferenceError(record.stopId)));
            break;
          }
          RowErrorIds(rows, k, old(trips), stops);
          ResolvedUpToNext(rows, k, old(trips), stops);
          AttachSnoc(old(trips), Values(rows[..k]), record);
          var trip := trips[record.tripId];
          trips := trips[record.tripId := trip.(stopTimes := trip.stopTimes + [record.ToStopTime()])];
          k := k + 1;
      }
      if k == |rows| {
        status := Pass;
      }
      UnresolvedAt(rows, k, old(trips), stops);
      KeepsStops(old(trips), Values(rows[..k]));
    }

    /** Attaching resolved records keeps every stop time pointing at a stop. */
    lemma KeepsStops(before: map<string, Trip>, recs: seq<StopTimeRecord>)
      requires TripsKnown(recs, before) && RecordStopsKnown(recs, stops)
      ensures StopsKnown(before, stops) ==> StopsKnown(Attach(before, recs), stops)
    {
      if StopsKnown(before, stops) {
        AttachKeepsStops(before, recs, stops);
      }
    }

    /** Sorting every trip keeps every stop time pointing at a stop. */
    lemma SortKeepsStops(before: map<string, Trip>)
      ensures StopsKnown(before, stops) ==> StopsKnown(SortTrips(before), stops)
    {
      if StopsKnown(before, stops) {
        SortTripsKeepsStops(before, stops);
      }
    }

    /** Sorts the stop times of every trip, one trip at a time. */
    method SortAllTrips()
      modifies this`trips
      ensures trips == SortTrips(old(trips))
    {
      var pending := trips.Keys;
      while pending != {}
        invariant SortedExcept(trips, old(trips), pending)
        decreases |pending|
      {
        var t :| t in pending;
        SortOneMore(trips, old(trips), pending, t);
        trips := trips[t := SortedTrip(trips[t])];
        pending := pending - {t};
      }
      SortedAll(trips, old(trips));
    }

    // -------------------------------------------------------------------
    // Service days

    /** The service days of a service, counted from a start date. */
    method TripDays(serviceId: string, start: Date) returns (days: seq<U16>)
      ensures days == ServiceDays.TripDays(GroupOf(calendarDates, serviceId),
                        if serviceId in calendar then Some(calendar[serviceId]) else None, start)
    {
      var exceptions := GroupOf(calendarDates, serviceId);
      var removed;
      days, removed := ScanExceptions(exceptions, start);
      if serviceId in calendar {
        days := WalkPattern(calendar[serviceId], start, removed, days);
      }
    }

    // -------------------------------------------------------------------
    // Lookups

    function GetStop(id: string): (r: Result<Stop, ReferenceError>)
      reads this
      ensures r.Success? <==> id in stops
      ensures r.Success? ==> r.value == stops[id]
      ensures r.Failure? ==> r.error == ReferenceError(id)
    {
      Lookup(stops, id)
    }

    function GetTrip(id: string): (r: Result<Trip, ReferenceError>)
      reads this
      ensures r.Success? <==> id in trips
      ensures r.Success? ==> r.value == trips[id]
      ensures r.Failure? ==> r.error == ReferenceError(id)
    {
      Lookup(trips, id)
    }

    function GetRoute(id: string): (r: Result<Route, ReferenceError>)
      reads this
      ensures r.Success? <==> id in routes
      ensures r.Success? ==> r.value == routes[id]
      ensures r.Failure? ==> r.error == ReferenceError(id)
    {
      Lookup(routes, id)
    }

    function GetCalendar(id: string): (r: Result<Calendar, ReferenceError>)
      reads this
      ensures r.Success? <==> id in calendar
      ensures r.Success? ==> r.value == calendar[id]
      ensures r.Failure? ==> r.error == ReferenceError(id)
    {
      Lookup(calendar, id)
    }

    function GetCalendarDate(id: string): (r: Result<seq<CalendarDate>, ReferenceError>)
      reads this
      ensures r.Success? <==> id in calendarDates
      ensures r.Success? ==> r.value == calendarDates[id]
      ensures r.Failure? ==> r.error == ReferenceError(id)
    {
      Lookup(calendarDates, id)
    }

    function GetShape(id: string): (r: Result<seq<Shape>, ReferenceError>)
      reads this
      ensures r.Success? <==> id in shapes
      ensures r.Success? ==> r.value == shapes[id]
      ensures r.Failure? ==> r.error == ReferenceError(id)
    {
      Lookup(shapes, id)
    }

    function GetFareAttributes(id: string): (r: Result<FareAttribute, ReferenceError>)
      reads this
      ensures r.Success? <==> id in fareAttributes
      ensures r.Success? ==> r.value == fareAttributes[id]
      ensures r.Failure? ==> r.error == ReferenceError(id)
    {
      Lookup(fareAttributes, id)
    }
  }

  /** The first loop of trip_days: the offsets added by exception, in
      encounter order, and the set of offsets removed by exception. */
  method ScanExceptions(exceptions: seq<CalendarDate>, start: Date) returns (days: seq<U16>, removed: set<int>)
    ensures days == ServiceDays.Additions(exceptions, start)
    ensures removed == ServiceDays.Removals(exceptions, start)
  {
    days := [];
    removed := {};
    var i := 0;
    while i < |exceptions|
      invariant i <= |exceptions|
      invariant days == ServiceDays.Additions(exceptions[..i], start)
      invariant removed == ServiceDays.Removals(exceptions[..i], start)
    {
      var extra := exceptions[i];
      var offset := extra.date - start;
      if offset >= 0 {
        if extra.exceptionType == 1 {
          days := days + [ServiceDays.AsU16(offset)];
        } else if extra.exceptionType == 2 {
          removed := removed + {offset};
        }
      }
      assert exceptions[..i + 1][..i] == exceptions[..i];
      i := i + 1;
    }
    assert exceptions[..i] == exceptions;
  }

  /** The second loop of trip_days: appends each offset from 0 to the end of
      the calendar on which its weekly pattern runs and that is not removed. */
  method WalkPattern(c: Calendar, start: Date, removed: set<int>, before: seq<U16>) returns (days: seq<U16>)
    ensures days == before + ServiceDays.PatternDays(c, start, removed, ServiceDays.PatternSpan(c, start))
  {
    days := before;
    var total := c.endDate - start;
    var offset := 0;
    while offset <= total
      invariant 0 <= offset <= ServiceDays.PatternSpan(c, start)
      invariant days == before + ServiceDays.PatternDays(c, start, removed, offset)
    {
      var current := start + offset;
      if c.startDate <= current && c.endDate >= current && c.ValidWeekday(current) && offset !in removed {
        days := days + [ServiceDays.AsU16(offset)];
      }
      offset := offset + 1;
    }
  }
}
