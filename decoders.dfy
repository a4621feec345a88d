/** Field decoders: the rules that turn one CSV cell, already split out of
    its row, into a typed field of a GTFS record (src/lib.rs). */
module Decoders {
  import opened Wrappers

  /** Rust's fixed-width unsigned integers. */
  type U8 = x: int | 0 <= x < 0x100
  type U16 = x: int | 0 <= x < 0x1_0000
  type U32 = x: int | 0 <= x < 0x1_0000_0000

  const U32_MAX: int := 0xFFFF_FFFF

  // ---------------------------------------------------------------------
  // route_type: an open enumeration

  datatype RouteType =
    | Tramway | Subway | Rail | Bus | Ferry | CableCar | Gondola | Funicular
      /** Any code outside 0..7, kept as read rather than rejected. */
    | Other(code: U16)

  /** The eight route types of the GTFS reference, indexed by their code. */
  const StandardRouteTypes: seq<RouteType> :=
    [Tramway, Subway, Rail, Bus, Ferry, CableCar, Gondola, Funicular]

  /** `RouteType::default()`. */
  const DefaultRouteType: RouteType := Bus

  /** The code a route type is written with. */
  function RouteTypeCode(rt: RouteType): U16 {
    match rt
    case Tramway => 0
    case Subway => 1
    case Rail => 2
    case Bus => 3
    case Ferry => 4
    case CableCar => 5
    case Gondola => 6
    case Funicular => 7
    case Other(c) => c
  }

  /** Decodes a route_type code. Total: every 16-bit code has a route type,
      and no code is lost. */
  function RouteTypeOf(code: U16): (rt: RouteType)
    ensures code < |StandardRouteTypes| ==> rt == StandardRouteTypes[code]
    ensures code >= |StandardRouteTypes| ==> rt == RouteType.Other(code)
    ensures RouteTypeCode(rt) == code
  {
    match code
    case 0 => Tramway
    case 1 => Subway
    case 2 => Rail
    case 3 => Bus
    case 4 => Ferry
    case 5 => CableCar
    case 6 => Gondola
    case 7 => Funicular
    case _ => RouteType.Other(code)
  }

  /** Re-encoding and decoding again gives the same route type back exactly
      when the route type is not an `Other` that hides a standard code. */
  lemma RouteTypeReencodes(rt: RouteType)
    ensures RouteTypeOf(RouteTypeCode(rt)) == rt <==> !(rt.Other? && rt.code < 8)
  {
    if rt.Other? && rt.code < 8 {
      assert RouteTypeOf(rt.code) == StandardRouteTypes[rt.code];
    }
  }

  // ---------------------------------------------------------------------
  // transfers: an open enumeration with a default for an empty cell

  datatype Transfers =
    | Unlimited | NoTransfer | UniqueTransfer | TwoTransfers
      /** Any count other than 0, 1 and 2, kept as read. */
    | Other(count: U16)

  /** The transfer counts the GTFS reference names, indexed by their code. */
  const StandardTransfers: seq<Transfers> := [NoTransfer, UniqueTransfer, TwoTransfers]

  /** The (possibly empty) cell a transfers value is written as. */
  function TransfersCode(t: Transfers): Option<U16> {
    match t
    case Unlimited => None
    case NoTransfer => Some(0)
    case UniqueTransfer => Some(1)
    case TwoTransfers => Some(2)
    case Other(n) => Some(n)
  }

  /** Decodes the transfers column; an empty cell is the default, Unlimited. */
  function TransfersOf(raw: Option<U16>): (t: Transfers)
    ensures raw.None? <==> t == Unlimited
    ensures raw.Some? && raw.value < |StandardTransfers| ==> t == StandardTransfers[raw.value]
    ensures raw.Some? && raw.value >= |StandardTransfers| ==> t == Transfers.Other(raw.value)
    ensures TransfersCode(t) == raw
  {
    match raw
    case None => Unlimited
    case Some(0) => NoTransfer
    case Some(1) => UniqueTransfer
    case Some(2) => TwoTransfers
    case Some(a) => Transfers.Other(a)
  }

  // ---------------------------------------------------------------------
  // location_type and boolean flags: decoders that never fail

  datatype LocationType = StopPoint | StopArea | StationEntrance

  /** Decodes the location_type text; anything but "1" and "2" is a stop point. */
  function LocationTypeOf(s: string): (lt: LocationType)
    ensures lt == StopArea <==> s == "1"
    ensures lt == StationEntrance <==> s == "2"
    ensures lt == StopPoint <==> s != "1" && s != "2"
  {
    match s
    case "1" => StopArea
    case "2" => StationEntrance
    case _ => StopPoint
  }

  /** Decodes a 0/1 flag cell: only the exact text "1" is true. */
  function FlagOf(s: string): (b: bool)
    ensures b <==> s == "1"
  {
    s == "1"
  }

  // ---------------------------------------------------------------------
  // pickup_type / drop_off_type: a closed enumeration

  datatype PickupDropOffType = Regular | NotAvailable | ArrangeByPhone | CoordinateWithDriver

  /** The text each variant is renamed to for deserialization. */
  function PickupDropOffCode(p: PickupDropOffType): string {
    match p
    case Regular => "0"
    case NotAvailable => "1"
    case ArrangeByPhone => "2"
    case CoordinateWithDriver => "3"
  }

  /** Decodes a pickup/drop-off cell; any text but "0".."3" is a decode error. */
  function PickupDropOffOf(s: string): (r: Option<PickupDropOffType>)
    ensures r.Some? <==> s in ["0", "1", "2", "3"]
    ensures r.Some? ==> PickupDropOffCode(r.value) == s
  {
    match s
    case "0" => Some(Regular)
    case "1" => Some(PickupDropOffType.NotAvailable)
    case "2" => Some(ArrangeByPhone)
    case "3" => Some(CoordinateWithDriver)
    case _ => None
  }

  // ---------------------------------------------------------------------
  // payment_method and wheelchair_boarding: closed enumerations

  datatype PaymentMethod = Aboard | PreBoarding

  /** Decodes payment_method; any text but "0" and "1" is a decode error. */
  function PaymentMethodOf(s: string): (r: Option<PaymentMethod>)
    ensures r == Some(Aboard) <==> s == "0"
    ensures r == Some(PreBoarding) <==> s == "1"
    ensures r.None? <==> s != "0" && s != "1"
  {
    match s
    case "0" => Some(Aboard)
    case "1" => Some(PreBoarding)
    case _ => None
  }

  datatype Availability = InformationNotAvailable | Available | NotAvailable

  const DefaultAvailability: Availability := InformationNotAvailable

  /** Decodes wheelchair_boarding: an empty cell takes the default, "0".."2"
      name the three variants and any other text is a decode error. */
  function AvailabilityOf(s: string): (r: Option<Availability>)
    ensures s == "" ==> r == Some(DefaultAvailability)
    ensures r == Some(InformationNotAvailable) <==> s == "" || s == "0"
    ensures r == Some(Availability.Available) <==> s == "1"
    ensures r == Some(Availability.NotAvailable) <==> s == "2"
    ensures r.None? <==> s !in ["", "0", "1", "2"]
  {
    match s
    case "" => Some(DefaultAvailability)
    case "0" => Some(InformationNotAvailable)
    case "1" => Some(Availability.Available)
    case "2" => Some(Availability.NotAvailable)
    case _ => None
  }

  // ---------------------------------------------------------------------
  // Unsigned decimal numbers, as Rust's `str::parse::<u32>` reads them

  predicate IsDigit(c: char) {
    '0' <= c <= '9'
  }

  predicate AllDigits(s: string) {
    forall i :: 0 <= i < |s| ==> IsDigit(s[i])
  }

  function DigitValue(c: char): nat
    requires IsDigit(c)
  {
    (c as int) - ('0' as int)
  }

  function DigitChar(d: nat): char
    requires d < 10
  {
    (('0' as int) + d) as char
  }

  /** The value of a string of decimal digits, most significant first. */
  function DecimalValue(s: string): nat
    requires AllDigits(s)
  {
    if s == [] then 0 else DecimalValue(s[..|s| - 1]) * 10 + DigitValue(s[|s| - 1])
  }

  /** The shortest decimal text of n: the partner of DecimalValue. */
  function Decimal(n: nat): (s: string)
    ensures |s| >= 1 && AllDigits(s)
    ensures DecimalValue(s) == n
  {
    if n < 10 then [DigitChar(n)]
    else
      var prefix := Decimal(n / 10);
      var s := prefix + [DigitChar(n % 10)];
      assert s[..|s| - 1] == prefix;
      s
  }

  /** `s.parse::<u32>()`: an optional '+', then at least one digit and
      nothing else, with a value that fits in 32 bits. */
  function ParseU32(s: string): (r: Option<U32>)
    ensures r.Some? ==>
      || (s != [] && AllDigits(s) && r.value == DecimalValue(s))
      || (|s| >= 2 && s[0] == '+' && AllDigits(s[1..]) && r.value == DecimalValue(s[1..]))
  {
    var digits := if |s| > 0 && s[0] == '+' then s[1..] else s;
    if digits == [] || !AllDigits(digits) then None
    else if DecimalValue(digits) <= U32_MAX then Some(DecimalValue(digits))
    else None
  }

  /** A digit string that fits in 32 bits parses to its value. */
  lemma ParseU32Digits(s: string)
    requires s != [] && AllDigits(s) && DecimalValue(s) <= U32_MAX
    ensures ParseU32(s) == Some(DecimalValue(s))
  {
    assert IsDigit(s[0]);
  }

  /** ParseU32 reads back what Decimal writes. */
  lemma ParseU32Decimal(n: nat)
    requires n <= U32_MAX
    ensures ParseU32(Decimal(n)) == Some(n)
  {
    ParseU32Digits(Decimal(n));
  }

  // ---------------------------------------------------------------------
  // Splitting on a separator, as `str::split(sep)` does

  /** The index of the first occurrence of c in s. */
  function IndexOf(s: string, c: char): (i: nat)
    requires c in s
    ensures i < |s| && s[i] == c && c !in s[..i]
  {
    if s[0] == c then 0
    else
      assert c in s[1..] by { var j :| 0 <= j < |s| && s[j] == c; assert s[1..][j - 1] == c; }
      var i := IndexOf(s[1..], c) + 1;
      assert s[..i] == [s[0]] + s[1..][..i - 1];
      i
  }

  /** Joins parts with sep between them: the inverse of Split. */
  function Join(parts: seq<string>, sep: char): string
    requires |parts| >= 1
  {
    if |parts| == 1 then parts[0] else parts[0] + [sep] + Join(parts[1..], sep)
  }

  /** The pieces of s between occurrences of sep, empty pieces included;
      there is always at least one piece and no piece holds sep. */
  function Split(s: string, sep: char): (parts: seq<string>)
    ensures |parts| >= 1
    ensures forall i :: 0 <= i < |parts| ==> sep !in parts[i]
    decreases |s|
  {
    if sep !in s then [s]
    else
      var i := IndexOf(s, sep);
      [s[..i]] + Split(s[i + 1..], sep)
  }

  /** Joining the pieces with the separator gives the text back. */
  lemma {:induction false} SplitJoin(s: string, sep: char)
    ensures Join(Split(s, sep), sep) == s
    decreases |s|
  {
    if sep in s {
      var i := IndexOf(s, sep);
      SplitJoin(s[i + 1..], sep);
      JoinCons(s[..i], Split(s[i + 1..], sep), sep);
      assert s == s[..i] + [sep] + s[i + 1..];
    }
  }

  lemma JoinCons(a: string, parts: seq<string>, sep: char)
    requires |parts| >= 1
    ensures Join([a] + parts, sep) == a + [sep] + Join(parts, sep)
  {
    assert ([a] + parts)[1..] == parts;
  }

  /** A piece free of sep followed by sep splits off as the first piece. */
  lemma SplitFirst(a: string, sep: char, rest: string)
    requires sep !in a
    ensures Split(a + [sep] + rest, sep) == [a] + Split(rest, sep)
  {
    var s := a + [sep] + rest;
    assert s[..|a|] == a;
    assert s[|a|] == sep;
    assert s[|a| + 1..] == rest;
    var i := IndexOf(s, sep);
    assert i == |a|;
  }

  /** Splitting the join of ':'-free pieces gives the pieces back. */
  lemma {:induction false} JoinSplits(parts: seq<string>, sep: char)
    requires |parts| >= 1
    requires forall i :: 0 <= i < |parts| ==> sep !in parts[i]
    ensures Split(Join(parts, sep), sep) == parts
  {
    if |parts| > 1 {
      JoinSplits(parts[1..], sep);
      SplitFirst(parts[0], sep, Join(parts[1..], sep));
      assert parts == [parts[0]] + parts[1..];
    }
  }

  // ---------------------------------------------------------------------
  // Clock times "H:M:S"

  /** Why parse_time gives no value. InvalidNumber is the parse error the
      Rust code returns; MissingComponent and Overflow are the panics of an
      out-of-bounds index and of u32 arithmetic overflow (a debug build). */
  datatype TimeError =
    | InvalidNumber(text: string)
    | MissingComponent(index: nat)
    | Overflow

  /** `parse_time`: split on ':' and compute h*3600 + m*60 + s in u32, the
      operands evaluated from left to right; pieces after the third are
      never looked at. */
  function ParseTime(s: string): (r: Result<U32, TimeError>)
    ensures r.Success? ==> var v := Split(s, ':');
      && |v| >= 3
      && ParseU32(v[0]).Some? && ParseU32(v[1]).Some? && ParseU32(v[2]).Some?
      && r.value == ParseU32(v[0]).value * 3600 + ParseU32(v[1]).value * 60 + ParseU32(v[2]).value
    ensures r.Failure? && r.error.MissingComponent? ==> |Split(s, ':')| == r.error.index
    ensures r.Failure? && r.error.InvalidNumber? ==> ParseU32(r.error.text).None?
    ensures r.Failure? && r.error.InvalidNumber? ==> r.error.text in Split(s, ':')
  {
    TimeOfPieces(Split(s, ':'))
  }

  /** The arithmetic of parse_time over the pieces of the split text. */
  function TimeOfPieces(v: seq<string>): Result<U32, TimeError>
    requires |v| >= 1
  {
    match ParseU32(v[0])
    case None => Failure(InvalidNumber(v[0]))
    case Some(h) =>
      if h * 3600 > U32_MAX then Failure(Overflow)
      else if |v| < 2 then Failure(MissingComponent(1))
      else match ParseU32(v[1])
        case None => Failure(InvalidNumber(v[1]))
        case Some(m) =>
          if m * 60 > U32_MAX || h * 3600 + m * 60 > U32_MAX then Failure(Overflow)
          else if |v| < 3 then Failure(MissingComponent(2))
          else match ParseU32(v[2])
            case None => Failure(InvalidNumber(v[2]))
            case Some(sec) =>
              if h * 3600 + m * 60 + sec > U32_MAX then Failure(Overflow)
              else Success(h * 3600 + m * 60 + sec)
  }

  /** "H:M:S" with digit pieces parses to H*3600 + M*60 + S, whatever the
      hour (24 and above included); further ':'-separated pieces are
      ignored. */
  lemma ParseTimeDigits(v: seq<string>, h: nat, m: nat, sec: nat)
    requires |v| >= 3
    requires v[0] != [] && v[1] != [] && v[2] != []
    requires AllDigits(v[0]) && AllDigits(v[1]) && AllDigits(v[2])
    requires DecimalValue(v[0]) == h && DecimalValue(v[1]) == m && DecimalValue(v[2]) == sec
    requires h * 3600 + m * 60 + sec <= U32_MAX
    requires forall i :: 3 <= i < |v| ==> ':' !in v[i]
    ensures ParseTime(Join(v, ':')) == Success(h * 3600 + m * 60 + sec)
  {
    DigitPieces(v);
    ParseTimeOfNumbers(v, h, m, sec);
  }

  /** Digit pieces hold no ':' and each parses to its value. */
  lemma DigitPieces(v: seq<string>)
    requires |v| >= 3
    requires v[0] != [] && v[1] != [] && v[2] != []
    requires AllDigits(v[0]) && AllDigits(v[1]) && AllDigits(v[2])
    requires DecimalValue(v[0]) <= U32_MAX && DecimalValue(v[1]) <= U32_MAX && DecimalValue(v[2]) <= U32_MAX
    requires forall i :: 3 <= i < |v| ==> ':' !in v[i]
    ensures forall i :: 0 <= i < |v| ==> ':' !in v[i]
    ensures ParseU32(v[0]) == Some(DecimalValue(v[0]))
    ensures ParseU32(v[1]) == Some(DecimalValue(v[1]))
    ensures ParseU32(v[2]) == Some(DecimalValue(v[2]))
  {
    forall i | 0 <= i < |v| ensures ':' !in v[i] {
      if i < 3 {
        NoSeparatorInDigits(v[i]);
      }
    }
    ParseU32Digits(v[0]);
    ParseU32Digits(v[1]);
    ParseU32Digits(v[2]);
  }

  /** Pieces free of ':' whose first three parse as numbers make a time. */
  lemma ParseTimeOfNumbers(v: seq<string>, h: nat, m: nat, sec: nat)
    requires |v| >= 3
    requires forall i :: 0 <= i < |v| ==> ':' !in v[i]
    requires ParseU32(v[0]) == Some(h) && ParseU32(v[1]) == Some(m) && ParseU32(v[2]) == Some(sec)
    requires h * 3600 + m * 60 + sec <= U32_MAX
    ensures ParseTime(Join(v, ':')) == Success(h * 3600 + m * 60 + sec)
  {
    JoinSplits(v, ':');
    TimeOfDigitPieces(v, h, m, sec);
  }

  lemma TimeOfDigitPieces(v: seq<string>, h: nat, m: nat, sec: nat)
    requires |v| >= 3
    requires ParseU32(v[0]) == Some(h) && ParseU32(v[1]) == Some(m) && ParseU32(v[2]) == Some(sec)
    requires h * 3600 + m * 60 + sec <= U32_MAX
    ensures TimeOfPieces(v) == Success(h * 3600 + m * 60 + sec)
  {
  }

  lemma NoSeparatorInDigits(s: string)
    requires AllDigits(s)
    ensures ':' !in s
  {
  }

  /** Hours are not capped at 23: "25:10:00" is 90600 seconds. */
  lemma ParseTimePastMidnight(s: string)
    requires s == "25:10:00"
    ensures ParseTime(s) == Success(90600)
  {
    var v := PastMidnightPieces(s);
    TimeOfDigitPieces(v, 25, 10, 0);
  }

  lemma PastMidnightPieces(s: string) returns (v: seq<string>)
    requires s == "25:10:00"
    ensures |v| == 3 && Split(s, ':') == v
    ensures ParseU32(v[0]) == Some(25) && ParseU32(v[1]) == Some(10) && ParseU32(v[2]) == Some(0)
  {
    var h, m, sec := "25", "10", "00";
    v := [h, m, sec];
    TwoDigitsParse(h, 25);
    TwoDigitsParse(m, 10);
    TwoDigitsParse(sec, 0);
    assert v[1..] == [m, sec] && [m, sec][1..] == [sec];
    assert Join([m, sec], ':') == m + [':'] + sec;
    assert Join(v, ':') == s;
    JoinSplits(v, ':');
  }

  lemma TwoDigitsParse(s: string, n: nat)
    requires |s| == 2 && IsDigit(s[0]) && IsDigit(s[1])
    requires DigitValue(s[0]) * 10 + DigitValue(s[1]) == n
    ensures ParseU32(s) == Some(n)
  {
    assert AllDigits(s);
    assert s[..1][..0] == [] && s[..1][0] == s[0];
    assert DecimalValue(s[..1]) == DigitValue(s[0]);
    ParseU32Digits(s);
  }

  /** A first piece that is not a number is an error, however the rest looks. */
  lemma ParseTimeRejectsNonNumeric(s: string)
    requires ParseU32(Split(s, ':')[0]).None?
    ensures ParseTime(s) == Failure(InvalidNumber(Split(s, ':')[0]))
  {
  }
}
