/** What reading stop_times.txt does to the trips (src/lib.rs:723-741):
    each row is attached to its trip, pointing at its stop, until the first
    row that does not decode or names an unknown trip or stop; on success
    every trip's stop times are then stably sorted by stop_sequence. */
module StopTimes {
  import opened Wrappers
  import opened Sequences
  import opened StableSort
  import opened Entities
  import opened Tables

  /** The error row i of stop_times.txt stops the reading with, if any: an
      undecodable row, then an unknown trip, then an unknown stop. */
  function RowError(rows: seq<Row<StopTimeRecord>>, i: nat, trips: map<string, Trip>, stops: map<string, Stop>): (r: Option<LoadError>)
    requires i < |rows|
    ensures r.None? <==> rows[i].Good? && rows[i].value.tripId in trips && rows[i].value.stopId in stops
  {
    match rows[i]
    case Bad => Some(DecodeError(i))
    case Good(r) =>
      if r.tripId !in trips then Some(MissingReference(ReferenceError(r.tripId)))
      else if r.stopId !in stops then Some(MissingReference(ReferenceError(r.stopId)))
      else None
  }

  /** The trip is looked up before the stop: an unknown trip is reported
      with the trip's id even when the stop is unknown too, and an unknown
      stop of a known trip with the stop's id. */
  lemma RowErrorIds(rows: seq<Row<StopTimeRecord>>, i: nat, trips: map<string, Trip>, stops: map<string, Stop>)
    requires i < |rows|
    ensures rows[i].Good? && rows[i].value.tripId !in trips ==>
      RowError(rows, i, trips, stops) == Some(MissingReference(ReferenceError(rows[i].value.tripId)))
    ensures rows[i].Good? && rows[i].value.tripId in trips && rows[i].value.stopId !in stops ==>
      RowError(rows, i, trips, stops) == Some(MissingReference(ReferenceError(rows[i].value.stopId)))
    ensures rows[i].Bad? ==> RowError(rows, i, trips, stops) == Some(DecodeError(i))
  {
  }

  /** The index of the first row that stops the reading, from row i on. */
  function UnresolvedFrom(rows: seq<Row<StopTimeRecord>>, i: nat, trips: map<string, Trip>, stops: map<string, Stop>): (k: nat)
    requires i <= |rows|
    ensures i <= k <= |rows|
    ensures forall j :: i <= j < k ==> RowError(rows, j, trips, stops).None?
    ensures k < |rows| ==> RowError(rows, k, trips, stops).Some?
    decreases |rows| - i
  {
    if i == |rows| || RowError(rows, i, trips, stops).Some? then i
    else UnresolvedFrom(rows, i + 1, trips, stops)
  }

  /** The index of the first row that stops the reading, or |rows|. */
  function Unresolved(rows: seq<Row<StopTimeRecord>>, trips: map<string, Trip>, stops: map<string, Stop>): (k: nat)
    ensures k <= |rows|
  {
    UnresolvedFrom(rows, 0, trips, stops)
  }

  /** The first row that stops the reading is the one every row before
      which resolves. */
  lemma UnresolvedAt(rows: seq<Row<StopTimeRecord>>, i: nat, trips: map<string, Trip>, stops: map<string, Stop>)
    requires i <= |rows|
    requires forall j :: 0 <= j < i ==> RowError(rows, j, trips, stops).None?
    requires i < |rows| ==> RowError(rows, i, trips, stops).Some?
    ensures Unresolved(rows, trips, stops) == i
  {
  }

  /** When every row resolves, every row decodes and names a known trip. */
  lemma AllResolved(rows: seq<Row<StopTimeRecord>>, trips: map<string, Trip>, stops: map<string, Stop>)
    requires Unresolved(rows, trips, stops) == |rows|
    ensures AllGood(rows) && TripsKnown(Values(rows), trips)
  {
    forall j | 0 <= j < |rows|
      ensures rows[j].Good? && rows[j].value.tripId in trips
    {
      assert RowError(rows, j, trips, stops).None?;
    }
  }

  /** Rows 0..k all resolve: each decodes and names a known trip and stop. */
  predicate ResolvedUpTo(rows: seq<Row<StopTimeRecord>>, k: nat, trips: map<string, Trip>, stops: map<string, Stop>)
    requires k <= |rows|
  {
    && (forall j :: 0 <= j < k ==> RowError(rows, j, trips, stops).None?)
    && AllGood(rows[..k])
    && TripsKnown(Values(rows[..k]), trips)
    && RecordStopsKnown(Values(rows[..k]), stops)
  }

  /** One more row that resolves extends the resolved prefix by its record. */
  lemma ResolvedUpToNext(rows: seq<Row<StopTimeRecord>>, k: nat, trips: map<string, Trip>, stops: map<string, Stop>)
    requires k < |rows| && ResolvedUpTo(rows, k, trips, stops)
    requires RowError(rows, k, trips, stops).None?
    ensures ResolvedUpTo(rows, k + 1, trips, stops)
    ensures Values(rows[..k + 1]) == Values(rows[..k]) + [rows[k].value]
  {
    RowErrorIds(rows, k, trips, stops);
    ValuesSnoc(rows, k);
  }

  /** Every record names a known trip. */
  predicate TripsKnown(recs: seq<StopTimeRecord>, trips: map<string, Trip>) {
    forall i :: 0 <= i < |recs| ==> recs[i].tripId in trips
  }

  /** The stop times the records become, in order. */
  function Converted(recs: seq<StopTimeRecord>): (sts: seq<StopTime>)
    ensures |sts| == |recs|
  {
    seq(|recs|, i requires 0 <= i < |recs| => recs[i].ToStopTime())
  }

  /** The trips after each record is pushed onto its trip's stop times. */
  function Attach(trips: map<string, Trip>, recs: seq<StopTimeRecord>): (m: map<string, Trip>)
    requires TripsKnown(recs, trips)
    ensures m.Keys == trips.Keys
  {
    if recs == [] then trips
    else
      var n := |recs| - 1;
      var m := Attach(trips, recs[..n]);
      var t := recs[n].tripId;
      m[t := m[t].(stopTimes := m[t].stopTimes + [recs[n].ToStopTime()])]
  }

  /** Attaching one more record pushes it onto its trip's stop times. */
  lemma AttachSnoc(trips: map<string, Trip>, recs: seq<StopTimeRecord>, r: StopTimeRecord)
    requires TripsKnown(recs, trips) && r.tripId in trips
    ensures TripsKnown(recs + [r], trips)
    ensures var m := Attach(trips, recs);
      Attach(trips, recs + [r]) == m[r.tripId := m[r.tripId].(stopTimes := m[r.tripId].stopTimes + [r.ToStopTime()])]
  {
    assert (recs + [r])[..|recs|] == recs;
  }

  /** A trip's stop times before sorting: those it had, then one for every
      record naming it, in file order. */
  function Listed(trips: map<string, Trip>, recs: seq<StopTimeRecord>, t: string): seq<StopTime>
    requires t in trips
  {
    trips[t].stopTimes + Converted(Matching(recs, RecordTrip, t))
  }

  /** Attaching appends to each trip exactly the records naming it, in file
      order, and changes nothing else about the trip. */
  lemma {:induction false} AttachAppends(trips: map<string, Trip>, recs: seq<StopTimeRecord>, t: string)
    requires TripsKnown(recs, trips) && t in trips
    ensures Attach(trips, recs)[t] == trips[t].(stopTimes := Listed(trips, recs, t))
  {
    if recs == [] {
      assert trips[t].stopTimes + Converted([]) == trips[t].stopTimes;
    } else {
      var n := |recs| - 1;
      AttachAppends(trips, recs[..n], t);
      var tail := if recs[n].tripId == t then [recs[n]] else [];
      var prefix := Matching(recs[..n], RecordTrip, t);
      assert Matching(recs, RecordTrip, t) == prefix + tail;
      assert Converted(prefix + tail) == Converted(prefix) + Converted(tail);
      var before := trips[t].stopTimes;
      assert before + (Converted(prefix) + Converted(tail)) == (before + Converted(prefix)) + Converted(tail);
    }
  }

  /** Every trip with its stop times stably sorted by stop_sequence. */
  function SortTrips(trips: map<string, Trip>): (m: map<string, Trip>)
    ensures m.Keys == trips.Keys
  {
    map t | t in trips :: SortedTrip(trips[t])
  }

  /** The trip with its stop times stably sorted by stop_sequence. */
  function SortedTrip(trip: Trip): Trip {
    trip.(stopTimes := SortBy(trip.stopTimes, SequenceOf))
  }

  /** Every trip of the original is sorted in current, except the pending ones,
      which are as they were. */
  predicate SortedExcept(current: map<string, Trip>, original: map<string, Trip>, pending: set<string>) {
    && pending <= current.Keys && current.Keys == original.Keys
    && forall t :: t in current ==>
         current[t] == if t in pending then original[t] else SortedTrip(original[t])
  }

  /** Sorting one pending trip leaves one trip fewer pending. */
  lemma SortOneMore(current: map<string, Trip>, original: map<string, Trip>, pending: set<string>, t: string)
    requires SortedExcept(current, original, pending) && t in pending
    ensures SortedExcept(current[t := SortedTrip(current[t])], original, pending - {t})
  {
  }

  /** With no trip pending, every trip is sorted. */
  lemma SortedAll(current: map<string, Trip>, original: map<string, Trip>)
    requires SortedExcept(current, original, {})
    ensures current == SortTrips(original)
  {
  }

  /** After a successful read, each trip keeps its id, service and route,
      and its stop times are exactly its listed ones, ordered by
      stop_sequence, with ties kept in file order. */
  lemma ResolvedTrip(trips: map<string, Trip>, recs: seq<StopTimeRecord>, t: string)
    requires TripsKnown(recs, trips) && t in trips
    ensures var after := SortTrips(Attach(trips, recs))[t];
      && after.id == trips[t].id && after.serviceId == trips[t].serviceId && after.routeId == trips[t].routeId
      && SortedBy(after.stopTimes, SequenceOf)
      && multiset(after.stopTimes) == multiset(Listed(trips, recs, t))
      && forall q :: Matching(after.stopTimes, SequenceOf, q) == Matching(Listed(trips, recs, t), SequenceOf, q)
  {
    AttachAppends(trips, recs, t);
    var listed := Listed(trips, recs, t);
    SortBySorted(listed, SequenceOf);
    forall q
      ensures Matching(SortBy(listed, SequenceOf), SequenceOf, q) == Matching(listed, SequenceOf, q)
    {
      SortByStable(listed, SequenceOf, q);
    }
  }

  // ---------------------------------------------------------------------
  // Stop times point at stops of the feed

  /** Every stop time of every trip points at one of the stops. */
  predicate StopsKnown(trips: map<string, Trip>, stops: map<string, Stop>) {
    forall t, i :: t in trips && 0 <= i < |trips[t].stopTimes| ==> trips[t].stopTimes[i].stop in stops
  }

  /** Every record names one of the stops. */
  predicate RecordStopsKnown(recs: seq<StopTimeRecord>, stops: map<string, Stop>) {
    forall i :: 0 <= i < |recs| ==> recs[i].stopId in stops
  }

  /** Attaching records whose stops are known keeps every stop time pointing
      at a known stop. */
  lemma {:induction false} AttachKeepsStops(trips: map<string, Trip>, recs: seq<StopTimeRecord>, stops: map<string, Stop>)
    requires TripsKnown(recs, trips) && RecordStopsKnown(recs, stops) && StopsKnown(trips, stops)
    ensures StopsKnown(Attach(trips, recs), stops)
  {
    if recs != [] {
      var n := |recs| - 1;
      assert RecordStopsKnown(recs[..n], stops) by {
        forall i | 0 <= i < n ensures recs[..n][i].stopId in stops {
          assert recs[..n][i] == recs[i];
        }
      }
      AttachKeepsStops(trips, recs[..n], stops);
      var m := Attach(trips, recs[..n]);
      var t := recs[n].tripId;
      var sts := m[t].stopTimes + [recs[n].ToStopTime()];
      assert forall i :: 0 <= i < |sts| ==> sts[i].stop in stops by {
        forall i | 0 <= i < |sts| ensures sts[i].stop in stops {
          if i < |m[t].stopTimes| {
            assert sts[i] == m[t].stopTimes[i];
          }
        }
      }
    }
  }

  /** Sorting keeps the stop times, so it keeps the stops they point at. */
  lemma SortTripsKeepsStops(trips: map<string, Trip>, stops: map<string, Stop>)
    requires StopsKnown(trips, stops)
    ensures StopsKnown(SortTrips(trips), stops)
  {
    var sorted := SortTrips(trips);
    forall t, i | t in sorted && 0 <= i < |sorted[t].stopTimes|
      ensures sorted[t].stopTimes[i].stop in stops
    {
      var st := sorted[t].stopTimes[i];
      assert st in multiset(trips[t].stopTimes);
      var j :| 0 <= j < |trips[t].stopTimes| && trips[t].stopTimes[j] == st;
    }
  }

  /** After sorting, every trip's stop times are in stop_sequence order. */
  lemma SortTripsSorted(trips: map<string, Trip>)
    ensures forall t :: t in SortTrips(trips) ==> SortedBy(SortTrips(trips)[t].stopTimes, SequenceOf)
  {
    forall t | t in SortTrips(trips)
      ensures SortedBy(SortTrips(trips)[t].stopTimes, SequenceOf)
    {
      SortBySorted(trips[t].stopTimes, SequenceOf);
    }
  }
}
