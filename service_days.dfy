/** The days on which a service runs, counted from a start date
    (src/lib.rs:751-791): first the dates the service gains by exception,
    then the dates of its weekly pattern that are not removed. */
module ServiceDays {
  import opened Wrappers
  import opened Decoders
  import opened Entities

  /** `offset as u16`: the low sixteen bits of a non-negative offset. */
  function AsU16(offset: nat): (r: U16)
    ensures offset < 0x1_0000 ==> r == offset
  {
    offset % 0x1_0000
  }

  const Added: U8 := 1
  const Removed: U8 := 2

  /** The offset of a date from the start date; negative before it. */
  function Offset(d: CalendarDate, start: Date): int {
    d.date - start
  }

  /** The offsets of the dates added by exception, in encounter order. */
  function Additions(exceptions: seq<CalendarDate>, start: Date): (a: seq<U16>)
    ensures |a| <= |exceptions|
  {
    if exceptions == [] then []
    else
      var n := |exceptions| - 1;
      var e := exceptions[n];
      Additions(exceptions[..n], start)
        + (if Offset(e, start) >= 0 && e.exceptionType == Added then [AsU16(Offset(e, start))] else [])
  }

  /** The offsets of the dates removed by exception. */
  function Removals(exceptions: seq<CalendarDate>, start: Date): (r: set<int>)
    ensures forall d :: d in r ==> d >= 0
  {
    if exceptions == [] then {}
    else
      var n := |exceptions| - 1;
      var e := exceptions[n];
      Removals(exceptions[..n], start)
        + (if Offset(e, start) >= 0 && e.exceptionType == Removed then {Offset(e, start)} else {})
  }

  /** Whether the weekly pattern of a calendar runs on the day at an offset. */
  predicate OnPattern(c: Calendar, start: Date, removed: set<int>, offset: nat) {
    var date := start + offset;
    c.startDate <= date && date <= c.endDate && c.ValidWeekday(date) && offset !in removed
  }

  /** The pattern days among the first n offsets, in increasing order. */
  function PatternDays(c: Calendar, start: Date, removed: set<int>, n: nat): (p: seq<U16>)
    ensures |p| <= n
  {
    if n == 0 then []
    else
      PatternDays(c, start, removed, n - 1)
        + (if OnPattern(c, start, removed, n - 1) then [AsU16(n - 1)] else [])
  }

  /** How many offsets the pattern walk visits: 0 through end - start. */
  function PatternSpan(c: Calendar, start: Date): nat {
    if c.endDate - start >= 0 then c.endDate - start + 1 else 0
  }

  /** The service days of a service, given its exceptions (empty when it has
      none) and its calendar, if any. */
  function TripDays(exceptions: seq<CalendarDate>, calendar: Option<Calendar>, start: Date): (days: seq<U16>)
    ensures exceptions == [] && calendar.None? ==> days == []
    ensures |days| >= |Additions(exceptions, start)|
    ensures days[..|Additions(exceptions, start)|] == Additions(exceptions, start)
  {
    Additions(exceptions, start)
      + match calendar
        case None => []
        case Some(c) => PatternDays(c, start, Removals(exceptions, start), PatternSpan(c, start))
  }

  // ---------------------------------------------------------------------
  // What the service days are

  /** Additions of consecutive exception lists concatenate, so additions keep
      the order in which their exceptions are listed. */
  lemma {:induction false} AdditionsAppend(a: seq<CalendarDate>, b: seq<CalendarDate>, start: Date)
    ensures Additions(a + b, start) == Additions(a, start) + Additions(b, start)
    decreases |b|
  {
    if b == [] {
      assert a + b == a;
    } else {
      var n := |b| - 1;
      assert (a + b)[..|a| + n] == a + b[..n];
      assert (a + b)[|a| + n] == b[n];
      AdditionsAppend(a, b[..n], start);
    }
  }

  /** An offset is added exactly when an exception of type 1 on or after the
      start date has it (modulo 2^16). */
  lemma {:induction false} AdditionsMembers(exceptions: seq<CalendarDate>, start: Date, x: int)
    ensures x in Additions(exceptions, start) <==>
      exists i :: 0 <= i < |exceptions| && exceptions[i].exceptionType == Added &&
        Offset(exceptions[i], start) >= 0 && x == AsU16(Offset(exceptions[i], start))
  {
    if exceptions != [] {
      var n := |exceptions| - 1;
      AdditionsMembers(exceptions[..n], start, x);
      assert forall i :: 0 <= i < n ==> exceptions[..n][i] == exceptions[i];
    }
  }

  /** An offset is removed exactly when an exception of type 2 has it. */
  lemma {:induction false} RemovalsMembers(exceptions: seq<CalendarDate>, start: Date, d: int)
    ensures d in Removals(exceptions, start) <==>
      exists i :: 0 <= i < |exceptions| && exceptions[i].exceptionType == Removed &&
        Offset(exceptions[i], start) >= 0 && d == Offset(exceptions[i], start)
  {
    if exceptions != [] {
      var n := |exceptions| - 1;
      RemovalsMembers(exceptions[..n], start, d);
      assert forall i :: 0 <= i < n ==> exceptions[..n][i] == exceptions[i];
    }
  }

  /** Within sixteen bits, the pattern walk yields exactly the offsets below n
      on which the pattern runs, each once, in strictly increasing order. */
  lemma {:induction false} PatternDaysSpec(c: Calendar, start: Date, removed: set<int>, n: nat)
    requires n <= 0x1_0000
    ensures forall x: int :: x in PatternDays(c, start, removed, n) <==> 0 <= x < n && OnPattern(c, start, removed, x)
    ensures forall i, j :: 0 <= i < j < |PatternDays(c, start, removed, n)| ==>
      PatternDays(c, start, removed, n)[i] < PatternDays(c, start, removed, n)[j]
  {
    if n > 0 {
      PatternDaysSpec(c, start, removed, n - 1);
      var p := PatternDays(c, start, removed, n - 1);
      forall i | 0 <= i < |p|
        ensures p[i] < n - 1
      {
        assert p[i] in p;
      }
    }
  }

  /** The pattern days of a calendar, counted from the start date. */
  function PatternOf(exceptions: seq<CalendarDate>, c: Calendar, start: Date): seq<U16> {
    PatternDays(c, start, Removals(exceptions, start), PatternSpan(c, start))
  }

  /** The service days are the additions followed by the pattern days, and
      an offset is a pattern day exactly when it lies between the start date
      and the calendar's end, in the calendar's range, on a flagged weekday,
      and is not removed; pattern days strictly increase. */
  lemma TripDaysSpec(exceptions: seq<CalendarDate>, c: Calendar, start: Date, x: int)
    requires PatternSpan(c, start) <= 0x1_0000
    ensures TripDays(exceptions, Some(c), start) == Additions(exceptions, start) + PatternOf(exceptions, c, start)
    ensures x in PatternOf(exceptions, c, start) <==>
      (0 <= x <= c.endDate - start && c.startDate <= start + x &&
       c.ValidWeekday(start + x) && x !in Removals(exceptions, start))
    ensures forall i, j :: 0 <= i < j < |PatternOf(exceptions, c, start)| ==>
      PatternOf(exceptions, c, start)[i] < PatternOf(exceptions, c, start)[j]
  {
    PatternDaysSpec(c, start, Removals(exceptions, start), PatternSpan(c, start));
  }

  /** A removal never suppresses an addition: a type-1 exception on or after
      the start date is a service day whatever other exceptions say. */
  lemma AdditionSurvivesRemoval(exceptions: seq<CalendarDate>, calendar: Option<Calendar>, start: Date, i: nat)
    requires i < |exceptions| && exceptions[i].exceptionType == Added
    requires exceptions[i].date >= start
    ensures AsU16(exceptions[i].date - start) in TripDays(exceptions, calendar, start)
  {
    AdditionsMembers(exceptions, start, AsU16(exceptions[i].date - start));
  }

  /** Additions are not merged with the pattern: a date both added by
      exception and on the weekly pattern is listed twice. */
  lemma AddedPatternDayRepeats(exceptions: seq<CalendarDate>, c: Calendar, start: Date, i: nat)
    requires PatternSpan(c, start) <= 0x1_0000
    requires i < |exceptions| && exceptions[i].exceptionType == Added
    requires 0 <= Offset(exceptions[i], start) && OnPattern(c, start, Removals(exceptions, start), Offset(exceptions[i], start))
    ensures multiset(TripDays(exceptions, Some(c), start))[Offset(exceptions[i], start)] >= 2
  {
    var y := AsU16(Offset(exceptions[i], start));
    AdditionIsListed(exceptions, start, i);
    PatternDayIsListed(exceptions, c, start, Offset(exceptions[i], start));
    CountTwice(Additions(exceptions, start), PatternOf(exceptions, c, start), y);
  }

  /** A type-1 exception on or after the start date is among the additions. */
  lemma AdditionIsListed(exceptions: seq<CalendarDate>, start: Date, i: nat)
    requires i < |exceptions| && exceptions[i].exceptionType == Added
    requires Offset(exceptions[i], start) >= 0
    ensures AsU16(Offset(exceptions[i], start)) in Additions(exceptions, start)
  {
    AdditionsMembers(exceptions, start, AsU16(Offset(exceptions[i], start)));
  }

  /** A day on the pattern is among the pattern days. */
  lemma PatternDayIsListed(exceptions: seq<CalendarDate>, c: Calendar, start: Date, x: nat)
    requires PatternSpan(c, start) <= 0x1_0000
    requires OnPattern(c, start, Removals(exceptions, start), x)
    ensures x < 0x1_0000 && AsU16(x) in PatternOf(exceptions, c, start)
    ensures TripDays(exceptions, Some(c), start) == Additions(exceptions, start) + PatternOf(exceptions, c, start)
  {
    TripDaysSpec(exceptions, c, start, x);
  }

  /** A value in both halves of a concatenation occurs there at least twice. */
  lemma CountTwice(a: seq<U16>, p: seq<U16>, y: U16)
    requires y in a && y in p
    ensures multiset(a + p)[y] >= 2
  {
    assert multiset(a + p) == multiset(a) + multiset(p);
  }

  /** Weekend service over 2017-01-01 .. 2017-01-15 with 2017-01-01 removed,
      counted from 2017-01-01 (a Sunday), runs on offsets 6, 7, 13 and 14. */
  lemma WeekendServiceExample()
    ensures TripDays([CalendarDate("service1", 17167, Removed)],
                     Some(Calendar("service1", false, false, false, false, false, true, true, 17167, 17181)),
                     17167)
         == [6, 7, 13, 14]
  {
    var e := [CalendarDate("service1", 17167, Removed)];
    var c := Calendar("service1", false, false, false, false, false, true, true, 17167, 17181);
    assert e[..0] == [];
    assert Additions(e, 17167) == [];
    assert Removals(e, 17167) == {0};
    assert PatternSpan(c, 17167) == 15;
    assert PatternDays(c, 17167, {0}, 5) == [];
    assert PatternDays(c, 17167, {0}, 10) == [6, 7];
    assert PatternDays(c, 17167, {0}, 15) == [6, 7, 13, 14];
  }

  /** A service given only by one added date, the start date itself, and no
      calendar runs on offset 0 alone. */
  lemma AddedDayExample()
    ensures TripDays([CalendarDate("service2", 17167, Added)], None, 17167) == [0]
  {
    var e := [CalendarDate("service2", 17167, Added)];
    assert e[..0] == [];
    assert Offset(e[0], 17167) == 0;
    assert Additions(e, 17167) == [0];
  }
}
