/**
 A time zone with European summer time and fold semantics. Days count from
 1 January of year 1 (a Monday) in the proleptic Gregorian calendar; instants
 and wall-clock readings count microseconds from that day's midnight.
 */
module Zones {
  import opened Domain

  // -- the calendar ---------------------------------------------------------------

  predicate Leap(year: int) {
    year % 4 == 0 && (year % 100 != 0 || year % 400 == 0)
  }

  function YearLength(year: int): int {
    if Leap(year) then 366 else 365
  }

  /** Days from 1 January of year 1 to 1 January of `year`. */
  function DaysBeforeYear(year: int): int
    decreases if year >= 1 then year else 2 - year
  {
    if year == 1 then 0
    else if year > 1 then DaysBeforeYear(year - 1) + YearLength(year - 1)
    else DaysBeforeYear(year + 1) - YearLength(year)
  }

  function DaysBeforeMonth(year: int, month: int): int
    requires 1 <= month <= 12
  {
    [0, 31, 59, 90, 120, 151, 181, 212, 243, 273, 304, 334][month - 1] + if month > 2 && Leap(year) then 1 else 0
  }

  function DayNumber(year: int, month: int, day: int): int
    requires 1 <= month <= 12
  {
    DaysBeforeYear(year) + DaysBeforeMonth(year, month) + day - 1
  }

  /** Monday is 0, Sunday is 6. */
  function Weekday(day: int): int {
    day % 7
  }

  lemma NextYear(year: int)
    ensures DaysBeforeYear(year + 1) == DaysBeforeYear(year) + YearLength(year)
  {
  }

  lemma {:induction false} YearsGrow(a: int, b: int)
    requires a <= b
    ensures DaysBeforeYear(a) + 365 * (b - a) <= DaysBeforeYear(b)
    decreases b - a
  {
    if a < b {
      YearsGrow(a, b - 1);
      NextYear(b - 1);
    }
  }

  /** The year a day lies in, found upward or downward from `guess`. */
  function YearFrom(day: int, guess: int): (y: int)
    ensures DaysBeforeYear(y) <= day < DaysBeforeYear(y + 1)
    decreases if day < DaysBeforeYear(guess) then DaysBeforeYear(guess) - day else day - DaysBeforeYear(guess + 1) + 1
  {
    NextYear(guess); NextYear(guess - 1); NextYear(guess + 1);
    if day < DaysBeforeYear(guess) then YearFrom(day, guess - 1)
    else if DaysBeforeYear(guess + 1) <= day then YearFrom(day, guess + 1)
    else guess
  }

  function YearOf(t: int): int {
    YearFrom(t / DAY, 1)
  }

  /** The day before the first of the next month, moved back to a Sunday. */
  function LastSunday(year: int, month: int): int
    requires 1 <= month <= 12
  {
    var d := FirstOfNext(year, month) - 1;
    d - (Weekday(d) + 1) % 7
  }

  lemma SundayAtOrBefore(d: int)
    ensures var s := d - (Weekday(d) + 1) % 7;
            s % 7 == 6 && d - 6 <= s <= d && forall later :: s < later <= d ==> Weekday(later) != 6
  {
    var q, r := d / 7, d % 7;
    assert d == 7 * q + r;
    var s := d - (r + 1) % 7;
    assert s == if r == 6 then 7 * q + 6 else 7 * (q - 1) + 6;
    forall later | s < later <= d ensures Weekday(later) != 6 {
      assert r != 6 && 7 * q <= later < 7 * q + 6;
    }
  }

  lemma MonthLength(year: int, month: int)
    requires 1 <= month <= 12
    ensures 28 <= FirstOfNext(year, month) - DayNumber(year, month, 1) <= 31
  {
    NextYear(year);
  }

  /** Thirty days have September, April, June and November. */
  lemma MonthLengths(year: int, month: int)
    requires 1 <= month <= 12
    ensures FirstOfNext(year, month) - DayNumber(year, month, 1)
         == if month == 2 then (if year % 4 == 0 && (year % 100 != 0 || year % 400 == 0) then 29 else 28)
            else if month == 4 || month == 6 || month == 9 || month == 11 then 30 else 31
  {
    NextYear(year);
  }

  function FirstOfNext(year: int, month: int): int
    requires 1 <= month <= 12
  {
    if month == 12 then DayNumber(year + 1, 1, 1) else DayNumber(year, month + 1, 1)
  }

  /** It is a Sunday of the month, and no later day of the month is one. */
  lemma LastSundayIsLast(year: int, month: int)
    requires 1 <= month <= 12
    ensures var d := LastSunday(year, month);
            && Weekday(d) == 6
            && DayNumber(year, month, 1) <= d < FirstOfNext(year, month)
            && FirstOfNext(year, month) - 7 <= d
            && forall later :: d < later < FirstOfNext(year, month) ==> Weekday(later) != 6
  {
    MonthLength(year, month);
    SundayAtOrBefore(FirstOfNext(year, month) - 1);
  }

  // -- summer time ------------------------------------------------------------------

  function SummerStart(year: int): int {
    LastSunday(year, 3) * DAY + HOUR
  }

  function SummerEnd(year: int): int {
    LastSunday(year, 10) * DAY + HOUR
  }

  lemma TransitionBounds(year: int)
    ensures DaysBeforeYear(year) * DAY + 60 * DAY <= SummerStart(year)
    ensures SummerStart(year) + 60 * DAY <= SummerEnd(year)
    ensures SummerEnd(year) + 60 * DAY <= DaysBeforeYear(year + 1) * DAY
  {
    NextYear(year);
    LastSundayIsLast(year, 3);
    LastSundayIsLast(year, 10);
  }

  predicate SummerOf(year: int, u: int) {
    SummerStart(year) <= u < SummerEnd(year)
  }

  /** Whether summer time is in force at UTC instant `u`. */
  predicate Summer(u: int) {
    SummerOf(YearOf(u), u)
  }

  /** The year used to look the transitions up may be off by a few days at its ends. */
  lemma NearbyYear(year: int, u: int)
    requires (DaysBeforeYear(year) - 10) * DAY <= u < (DaysBeforeYear(year + 1) + 10) * DAY
    ensures SummerOf(year, u) == Summer(u)
  {
    hide YearLength, LastSunday;
    var y := YearOf(u);
    TransitionBounds(year);
    TransitionBounds(y);
    if y < year {
      YearsGrow(y + 1, year);
    } else if y > year {
      YearsGrow(year + 1, y);
    }
  }

  // -- zones --------------------------------------------------------------------------

  datatype ZoneRule = Fixed(offset: int) | European(std: int, dst: int)

  predicate ValidRule(z: ZoneRule) {
    match z
    case Fixed(o) => -DAY < o < DAY
    case European(std, dst) => -DAY < std < dst < DAY
  }

  type Zone = z: ZoneRule | ValidRule(z) witness Fixed(0)

  datatype Local = Local(wall: int, fold: int)

  /** The offset of a wall-clock reading: the fold settles repeated and skipped readings. */
  function Offset(z: Zone, wall: int, fold: int): int {
    match z
    case Fixed(o) => o
    case European(std, dst) =>
      var year := YearOf(wall);
      var dstValid := SummerOf(year, wall - dst);
      var stdValid := !SummerOf(year, wall - std);
      if dstValid && stdValid then (if fold == 0 then dst else std)
      else if dstValid then dst
      else if stdValid then std
      else if fold == 0 then std else dst
  }

  function ToUtc(z: Zone, wall: int, fold: int): int {
    wall - Offset(z, wall, fold)
  }

  function FromUtc(z: Zone, u: int): Local {
    match z
    case Fixed(o) => Local(u + o, 0)
    case European(std, dst) =>
      var year := YearOf(u);
      var inDst := SummerOf(year, u);
      var fold := if !inDst && SummerEnd(year) <= u < SummerEnd(year) + (dst - std) then 1 else 0;
      Local(u + if inDst then dst else std, fold)
  }

  datatype Kind = Normal | Ambiguous | Imaginary

  function ClassifyLocal(z: Zone, wall: int): Kind {
    if Offset(z, wall, 0) == Offset(z, wall, 1) then Normal
    else if FromUtc(z, ToUtc(z, wall, 0)).wall != wall then Imaginary
    else Ambiguous
  }

  // -- both directions in terms of the instants alone -----------------------------------

  lemma OffsetRule(std: int, dst: int, wall: int, fold: int)
    requires ValidRule(European(std, dst))
    ensures Offset(European(std, dst), wall, fold)
         == if Summer(wall - dst) == Summer(wall - std)
            then (if Summer(wall - dst) then dst else std)
            else if Summer(wall - dst) then (if fold == 0 then dst else std)
            else (if fold == 0 then std else dst)
  {
    hide SummerOf, Summer;
    NearbyYear(YearOf(wall), wall - dst);
    NearbyYear(YearOf(wall), wall - std);
  }

  lemma FromUtcRule(std: int, dst: int, u: int)
    requires ValidRule(European(std, dst))
    ensures FromUtc(European(std, dst), u)
         == Local(u + if Summer(u) then dst else std, if !Summer(u) && Summer(u - (dst - std)) then 1 else 0)
  {
    hide SummerStart, DaysBeforeYear;
    TransitionBounds(YearOf(u));
    SummerEnds(YearOf(u), u - (dst - std));
    NearbyYear(YearOf(u), u - (dst - std));
  }

  lemma SummerEnds(year: int, u: int)
    ensures SummerOf(year, u) <==> SummerStart(year) <= u < SummerEnd(year)
  {
  }

  /** Every UTC instant survives the trip to local time and back, across year ends too. */
  lemma UtcRoundTrip(z: Zone, u: int)
    ensures var l := FromUtc(z, u); ToUtc(z, l.wall, l.fold) == u
  {
    hide Summer, SummerOf, YearOf;
    if z.European? {
      FromUtcRule(z.std, z.dst, u);
      OffsetRule(z.std, z.dst, FromUtc(z, u).wall, FromUtc(z, u).fold);
    }
  }

  /** The UTC instants at which a clock in the zone shows `wall`. */
  function Occurrences(z: Zone, wall: int): set<int> {
    match z
    case Fixed(o) => {wall - o}
    case European(std, dst) =>
      var first, second := wall - dst, wall - std;
      if Summer(first) then (if Summer(second) then {first} else {first, second})
      else if Summer(second) then {} else {second}
  }

  lemma OccurrencesAreAll(z: Zone, wall: int, u: int)
    ensures FromUtc(z, u).wall == wall <==> u in Occurrences(z, wall)
  {
    hide Summer, SummerOf, YearOf;
    if z.European? {
      FromUtcRule(z.std, z.dst, u);
    }
  }

  /** The classifier counts occurrences: normal once, ambiguous twice, imaginary never. */
  lemma ClassifierCounts(z: Zone, wall: int)
    ensures |Occurrences(z, wall)| == match ClassifyLocal(z, wall)
                                      case Normal => 1
                                      case Ambiguous => 2
                                      case Imaginary => 0
  {
    hide Summer, SummerOf, YearOf;
    if z.European? {
      assert wall - z.dst != wall - z.std;
      OffsetRule(z.std, z.dst, wall, 0);
      OffsetRule(z.std, z.dst, wall, 1);
      FromUtcRule(z.std, z.dst, ToUtc(z, wall, 0));
    }
  }

  /** The second pass of a repeated hour. */
  predicate SecondPass(z: Zone, u: int) {
    z.European? && SummerEnd(YearOf(u)) <= u < SummerEnd(YearOf(u)) + (z.dst - z.std)
  }

  lemma SecondPassIsFold(z: Zone, u: int)
    ensures SecondPass(z, u) <==> FromUtc(z, u).fold == 1
  {
    hide SummerStart, SummerEnd, YearOf;
  }

  /** Reading a clock and forgetting the fold loses exactly the second pass. */
  lemma FoldlessRoundTrip(z: Zone, u: int)
    ensures ToUtc(z, FromUtc(z, u).wall, 0) == u <==> !SecondPass(z, u)
  {
    hide Summer, SummerOf, YearOf, SecondPass;
    SecondPassIsFold(z, u);
    if z.European? {
      FromUtcRule(z.std, z.dst, u);
      OffsetRule(z.std, z.dst, FromUtc(z, u).wall, 0);
    }
  }

  // -- the calendar pinned down --------------------------------------------------------

  lemma QuotientSteps(n: int)
    ensures n / 4 == (n - 1) / 4 + if n % 4 == 0 then 1 else 0
    ensures n / 100 == (n - 1) / 100 + if n % 100 == 0 then 1 else 0
    ensures n / 400 == (n - 1) / 400 + if n % 400 == 0 then 1 else 0
    ensures n % 400 == 0 ==> n % 100 == 0
    ensures n % 100 == 0 ==> n % 4 == 0
  {
  }

  /** The days of the Gregorian years before `year`, without recursion. */
  function GregorianCount(year: int): int {
    365 * (year - 1) + (year - 1) / 4 - (year - 1) / 100 + (year - 1) / 400
  }

  lemma GregorianStep(year: int)
    ensures GregorianCount(year + 1) == GregorianCount(year) + YearLength(year)
  {
    QuotientSteps(year);
  }

  /** The recursive count is the proleptic Gregorian calendar's. */
  lemma {:induction false} GregorianDays(year: int)
    requires year >= 1
    ensures DaysBeforeYear(year) == GregorianCount(year)
  {
    hide GregorianCount, YearLength;
    if year > 1 {
      GregorianDays(year - 1);
      GregorianStep(year - 1);
    } else {
      FirstYear();
    }
  }

  lemma FirstYear()
    ensures GregorianCount(1) == 0
  {
  }

  /** A day lies in one year only. */
  lemma YearIs(year: int, t: int)
    requires DaysBeforeYear(year) <= t / DAY < DaysBeforeYear(year + 1)
    ensures YearOf(t) == year
  {
    var y := YearOf(t);
    if y < year {
      YearsGrow(y + 1, year);
    } else if y > year {
      YearsGrow(year + 1, y);
    }
  }

  const AMSTERDAM: Zone := European(HOUR, 2 * HOUR)

  /** A wall-clock reading of the year 2027. */
  function In2027(month: int, day: int, minutes: int): int
    requires 1 <= month <= 12
  {
    DayNumber(2027, month, day) * DAY + minutes * MINUTE
  }

  lemma Transitions2027()
    ensures DaysBeforeYear(2027) == 739981 && DaysBeforeYear(2028) == 740346
    ensures SummerStart(2027) == In2027(3, 28, 60) && SummerEnd(2027) == In2027(10, 31, 60)
  {
    GregorianDays(2027);
    GregorianDays(2028);
    hide DaysBeforeYear;
    assert FirstOfNext(2027, 3) == 740071 && FirstOfNext(2027, 10) == 740285;
  }

  /** The worked cases of 2027: the hour that repeats in Amsterdam starts at two, not at one;
      half past two never happens in March; and layovers across the changes last what UTC says. */
  lemma Amsterdam2027()
    ensures ClassifyLocal(AMSTERDAM, In2027(10, 31, 60)) == Normal
    ensures ClassifyLocal(AMSTERDAM, In2027(10, 31, 150)) == Ambiguous
    ensures ClassifyLocal(AMSTERDAM, In2027(3, 28, 150)) == Imaginary
    ensures ToUtc(AMSTERDAM, In2027(10, 31, 210), 0) - ToUtc(AMSTERDAM, In2027(10, 31, 60), 0) == 210 * MINUTE
    ensures ToUtc(AMSTERDAM, In2027(3, 28, 300), 0) - ToUtc(AMSTERDAM, In2027(3, 28, 90), 0) == 150 * MINUTE
  {
    Transitions2027();
    hide DaysBeforeYear, SummerStart, SummerEnd, YearOf;
    Year2027(In2027(10, 31, 60));
    Year2027(In2027(10, 31, 150));
    Year2027(In2027(10, 31, 210));
    Year2027(In2027(3, 28, 90));
    Year2027(In2027(3, 28, 150));
    Year2027(In2027(3, 28, 300));
    Year2027(In2027(10, 31, 150) - HOUR);
    Year2027(In2027(10, 31, 150) - 2 * HOUR);
    Year2027(In2027(3, 28, 150) - HOUR);
  }

  lemma Year2027(t: int)
    requires 739981 * DAY <= t < 740346 * DAY
    ensures YearOf(t) == 2027
  {
    Transitions2027();
    YearIs(2027, t);
  }
}
