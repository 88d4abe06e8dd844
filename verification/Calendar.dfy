/**
 The trading calendar of the index fund: fixed closures, sessions and the freshness window,
 on a local wall clock without daylight-saving changes.
 */
module Calendar {

  // ----- Dates -----------------------------------------------------------------------------

  datatype Date = Date(year: int, month: int, day: int)

  predicate Leap(y: int) { y % 4 == 0 && (y % 100 != 0 || y % 400 == 0) }

  function DaysIn(y: int, m: int): int {
    if m == 2 then (if Leap(y) then 29 else 28)
    else if m == 4 || m == 6 || m == 9 || m == 11 then 30
    else 31
  }

  predicate IsDate(d: Date) { 1 <= d.month <= 12 && 1 <= d.day <= DaysIn(d.year, d.month) }

  function Next(d: Date): (r: Date)
    requires IsDate(d)
    ensures IsDate(r)
  {
    if d.day < DaysIn(d.year, d.month) then d.(day := d.day + 1)
    else if d.month < 12 then Date(d.year, d.month + 1, 1)
    else Date(d.year + 1, 1, 1)
  }

  function Prev(d: Date): (r: Date)
    requires IsDate(d)
    ensures IsDate(r) && Next(r) == d
  {
    if d.day > 1 then d.(day := d.day - 1)
    else if d.month > 1 then Date(d.year, d.month - 1, DaysIn(d.year, d.month - 1))
    else Date(d.year - 1, 12, 31)
  }

  function DaysBeforeMonth(y: int, m: int): int
    requires 1 <= m <= 12
  {
    if m == 1 then 0 else DaysBeforeMonth(y, m - 1) + DaysIn(y, m - 1)
  }

  function DaysBeforeYear(y: int): int { (y - 1) * 365 + (y - 1) / 4 - (y - 1) / 100 + (y - 1) / 400 }

  /** `date.toordinal`. */
  function Ordinal(d: Date): int
    requires IsDate(d)
  {
    DaysBeforeYear(d.year) + DaysBeforeMonth(d.year, d.month) + d.day
  }

  /** Monday is 0. */
  function Weekday(d: Date): int
    requires IsDate(d)
  {
    DayOfWeek(Ordinal(d))
  }

  function DayOfWeek(n: int): (r: int)
    ensures 0 <= r < 7
  {
    (n + 6) % 7
  }

  lemma QuotientSteps(y: int)
    ensures y / 4 - (y - 1) / 4 == if y % 4 == 0 then 1 else 0
    ensures y / 100 - (y - 1) / 100 == if y % 100 == 0 then 1 else 0
    ensures y / 400 - (y - 1) / 400 == if y % 400 == 0 then 1 else 0
  {
  }

  lemma LeapDivides(y: int)
    ensures y % 100 == 0 ==> y % 4 == 0
    ensures y % 400 == 0 ==> y % 100 == 0
  {
  }

  lemma YearLength(y: int)
    ensures DaysBeforeYear(y + 1) - DaysBeforeYear(y) == if Leap(y) then 366 else 365
  {
    QuotientSteps(y);
    LeapDivides(y);
  }

  lemma MonthsFill(y: int)
    ensures DaysBeforeMonth(y, 12) + 31 == if Leap(y) then 366 else 365
  {
    assert DaysBeforeMonth(y, 3) == DaysBeforeMonth(y, 2) + DaysIn(y, 2) && DaysBeforeMonth(y, 2) == 31;
    assert DaysBeforeMonth(y, 5) == DaysBeforeMonth(y, 4) + 30 && DaysBeforeMonth(y, 4) == DaysBeforeMonth(y, 3) + 31;
    assert DaysBeforeMonth(y, 7) == DaysBeforeMonth(y, 6) + 30 && DaysBeforeMonth(y, 6) == DaysBeforeMonth(y, 5) + 31;
    assert DaysBeforeMonth(y, 9) == DaysBeforeMonth(y, 8) + 31 && DaysBeforeMonth(y, 8) == DaysBeforeMonth(y, 7) + 31;
    assert DaysBeforeMonth(y, 11) == DaysBeforeMonth(y, 10) + 31 && DaysBeforeMonth(y, 10) == DaysBeforeMonth(y, 9) + 30;
  }

  lemma NewYearOrdinal(y: int)
    ensures Ordinal(Date(y + 1, 1, 1)) == Ordinal(Date(y, 12, 31)) + 1
  {
    YearLength(y);
    MonthsFill(y);
  }

  /** Days are numbered without gaps, across months, years and leap years. */
  lemma NextOrdinal(d: Date)
    requires IsDate(d)
    ensures Ordinal(Next(d)) == Ordinal(d) + 1
    ensures Weekday(Next(d)) == (Weekday(d) + 1) % 7
  {
    if d.day < DaysIn(d.year, d.month) {
    } else if d.month < 12 {
      NewMonthOrdinal(d.year, d.month);
    } else {
      NewYearOrdinal(d.year);
    }
    WeekStep(Ordinal(d));
  }

  lemma NewMonthOrdinal(y: int, m: int)
    requires 1 <= m < 12
    ensures Ordinal(Date(y, m + 1, 1)) == Ordinal(Date(y, m, DaysIn(y, m))) + 1
  {
    assert DaysBeforeMonth(y, m + 1) == DaysBeforeMonth(y, m) + DaysIn(y, m);
  }

  lemma WeekStep(n: int)
    ensures DayOfWeek(n + 1) == (DayOfWeek(n) + 1) % 7
    ensures DayOfWeek(n) < 6 ==> DayOfWeek(n + 1) == DayOfWeek(n) + 1
  {
  }

  // ----- Closures ----------------------------------------------------------------------------

  predicate Nominal(d: Date) {
    (d.month == 1 && d.day == 1) || (d.month == 7 && d.day == 4) || (d.month == 12 && d.day == 25)
  }

  /** Saturday holidays are observed on Friday, Sunday ones on Monday. */
  predicate IsFixedClosure(d: Date)
    requires IsDate(d)
  {
    Nominal(d) || (Weekday(d) == 4 && Nominal(Next(d))) || (Weekday(d) == 0 && Nominal(Prev(d)))
  }

  predicate IsTradingDay(d: Date)
    requires IsDate(d)
  {
    Weekday(d) < 5 && !IsFixedClosure(d)
  }

  /** The date `n` days earlier. */
  function Back(d: Date, n: nat): (r: Date)
    requires IsDate(d)
    ensures IsDate(r)
  {
    if n == 0 then d else Prev(Back(d, n - 1))
  }

  /** Where a holiday is observed: on the adjacent weekday if it falls on a weekend. */
  function Observed(d: Date): (r: Date)
    requires IsDate(d)
    ensures IsDate(r)
  {
    if Weekday(d) == 5 then Prev(d) else if Weekday(d) == 6 then Next(d) else d
  }

  ghost predicate ObservesHoliday(w: Date)
    requires IsDate(w)
  {
    exists d :: IsDate(d) && Nominal(d) && Observed(d) == w
  }

  lemma PrevOfNext(d: Date)
    requires IsDate(d)
    ensures Prev(Next(d)) == d
  {
    NextInjective(Prev(Next(d)), d);
  }

  lemma SaturdayObserved(friday: Date)
    requires IsDate(friday) && Weekday(friday) == 4
    ensures Observed(Next(friday)) == friday
  {
    NextOrdinal(friday);
    PrevOfNext(friday);
  }

  lemma SundayObserved(monday: Date)
    requires IsDate(monday) && Weekday(monday) == 0
    ensures Observed(Prev(monday)) == monday
  {
    PrevWeekday(monday);
  }

  lemma ClosureObserves(w: Date)
    requires IsDate(w) && Weekday(w) < 5 && IsFixedClosure(w)
    ensures ObservesHoliday(w)
  {
    if Nominal(w) {
      assert Observed(w) == w;
    } else if Weekday(w) == 4 {
      SaturdayObserved(w);
    } else {
      SundayObserved(w);
    }
  }

  lemma ObservanceCloses(d: Date)
    requires IsDate(d) && Nominal(d) && Weekday(Observed(d)) < 5
    ensures IsFixedClosure(Observed(d))
  {
    NextOrdinal(d);
    PrevWeekday(d);
    PrevOfNext(d);
  }

  /** The closed weekdays are exactly the days on which a holiday is observed. */
  lemma ClosuresAreObservances(w: Date)
    requires IsDate(w) && Weekday(w) < 5
    ensures IsFixedClosure(w) <==> ObservesHoliday(w)
  {
    if IsFixedClosure(w) {
      ClosureObserves(w);
    }
    if ObservesHoliday(w) {
      var d :| IsDate(d) && Nominal(d) && Observed(d) == w;
      ObservanceCloses(d);
    }
  }

  /** Holidays are at least a week apart. */
  lemma NominalSpacing(d: Date)
    requires IsDate(d) && Nominal(d)
    ensures !Nominal(Next(d)) && !Nominal(Next(Next(d))) && !Nominal(Next(Next(Next(d))))
    ensures !Nominal(Next(Next(Next(Next(d))))) && !Nominal(Next(Next(Next(Next(Next(d))))))
  {
  }

  lemma PrevWeekday(d: Date)
    requires IsDate(d)
    ensures Weekday(d) == (Weekday(Prev(d)) + 1) % 7 && Ordinal(Prev(d)) == Ordinal(d) - 1
    ensures 0 <= Weekday(d) < 7
  {
    NextOrdinal(Prev(d));
  }

  lemma ClosedBeforeFriday(d: Date)
    requires IsDate(d) && Weekday(d) < 4 && IsFixedClosure(d)
    ensures !Nominal(Next(d)) && !Nominal(Next(Next(d)))
  {
    if Nominal(d) {
      NominalSpacing(d);
    } else {
      NominalSpacing(Prev(d));
    }
  }

  lemma OpenMidweek(d: Date)
    requires IsDate(d) && 1 <= Weekday(d) <= 4 && !Nominal(d) && !Nominal(Next(d))
    ensures IsTradingDay(d)
  {
  }

  lemma MidweekNext(d: Date)
    requires IsDate(d) && Weekday(d) < 4
    ensures 1 <= Weekday(Next(d)) <= 4
  {
    NextOrdinal(d);
    WeekStep(Ordinal(d));
  }

  /** After a closed weekday before Friday, the next day is open. */
  lemma NoTwoClosedInARow(d: Date)
    requires IsDate(d) && Weekday(d) < 4 && IsFixedClosure(d)
    ensures IsTradingDay(Next(d))
  {
    ClosedBeforeFriday(d);
    MidweekNext(d);
    OpenMidweek(Next(d));
  }

  lemma NoClosedFridayAndMonday(friday: Date)
    requires IsDate(friday) && Weekday(friday) == 4 && IsFixedClosure(friday)
    ensures IsTradingDay(Next(Next(Next(friday))))
  {
    var saturday := Next(friday);
    var sunday := Next(saturday);
    var monday := Next(sunday);
    NextOrdinal(friday);
    NextOrdinal(saturday);
    NextOrdinal(sunday);
    NextOrdinal(monday);
    if Nominal(friday) {
      NominalSpacing(friday);
    } else {
      NominalSpacing(saturday);
    }
    assert Prev(monday) == sunday by {
      PrevWeekday(monday);
      NextInjective(Prev(monday), sunday);
    }
  }

  lemma NextInjective(a: Date, b: Date)
    requires IsDate(a) && IsDate(b) && Next(a) == Next(b)
    ensures a == b
  {
  }

  lemma OpenSoon(d: Date)
    requires IsDate(d) && Weekday(d) < 4
    ensures IsTradingDay(d) || IsTradingDay(Next(d))
  {
    if IsFixedClosure(d) {
      NoTwoClosedInARow(d);
    }
  }

  lemma OpenAfterWeekend(friday: Date)
    requires IsDate(friday) && Weekday(friday) == 4
    ensures IsTradingDay(friday) || IsTradingDay(Next(Next(Next(friday))))
  {
    if IsFixedClosure(friday) {
      NoClosedFridayAndMonday(friday);
    }
  }

  /** Never more than three closed days in a row. */
  lemma OpenWithinFour(d: Date)
    requires IsDate(d)
    ensures IsTradingDay(d) || IsTradingDay(Prev(d)) || IsTradingDay(Prev(Prev(d))) || IsTradingDay(Prev(Prev(Prev(d))))
  {
    var b1 := Prev(d);
    var b2 := Prev(b1);
    var b3 := Prev(b2);
    PrevWeekday(d);
    PrevWeekday(b1);
    PrevWeekday(b2);
    PrevWeekday(b3);
    if Weekday(b3) < 4 {
      OpenSoon(b3);
    } else if Weekday(b3) == 4 {
      OpenAfterWeekend(b3);
    } else if Weekday(b3) == 5 {
      OpenSoon(b1);
    } else {
      OpenSoon(b2);
    }
  }

  lemma BackUnfolds(d: Date)
    requires IsDate(d)
    ensures Back(d, 0) == d && Back(d, 1) == Prev(d) && Back(d, 2) == Prev(Prev(d)) && Back(d, 3) == Prev(Prev(Prev(d)))
  {
    assert Back(d, 1) == Prev(Back(d, 0)) && Back(d, 2) == Prev(Back(d, 1)) && Back(d, 3) == Prev(Back(d, 2));
  }

  /** `day` is the latest trading day on or before `today`, `k` days back. */
  ghost predicate IsLatestTradingDay(today: Date, day: Date, k: nat)
    requires IsDate(today)
  {
    && day == Back(today, k) && IsTradingDay(day)
    && forall j: nat :: j < k ==> !IsTradingDay(Back(today, j))
  }

  /** The backward search: at most `n` steps to an open day. */
  function SearchBack(today: Date, n: nat): (r: Date)
    requires IsDate(today)
    ensures IsDate(r)
    decreases n
  {
    if n == 0 || IsTradingDay(today) then today else SearchBack(Prev(today), n - 1)
  }

  const SEARCH_STEPS: nat := 10

  function LastTradingDay(today: Date): Date
    requires IsDate(today)
  {
    SearchBack(today, SEARCH_STEPS)
  }

  lemma {:induction false} SearchBackStops(today: Date, n: nat, k: nat)
    requires IsDate(today) && k <= n && IsTradingDay(Back(today, k))
    requires forall j: nat :: j < k ==> !IsTradingDay(Back(today, j))
    ensures SearchBack(today, n) == Back(today, k)
    decreases n
  {
    if k > 0 {
      assert !IsTradingDay(Back(today, 0));
      forall j: nat | j <= k - 1 ensures Back(Prev(today), j) == Back(today, j + 1) {
        BackShift(today, j);
      }
      SearchBackStops(Prev(today), n - 1, k - 1);
    }
  }

  lemma {:induction false} BackShift(d: Date, j: nat)
    requires IsDate(d)
    ensures Back(Prev(d), j) == Back(d, j + 1)
  {
    if j > 0 {
      BackShift(d, j - 1);
    } else {
      BackUnfolds(d);
    }
  }

  lemma {:induction false} BackOrdinal(d: Date, j: nat)
    requires IsDate(d)
    ensures Ordinal(Back(d, j)) == Ordinal(d) - j
  {
    if j > 0 {
      BackOrdinal(d, j - 1);
      PrevWeekday(Back(d, j - 1));
    }
  }

  /** The search always finds the latest trading day, never more than three days back. */
  lemma SearchFindsLatest(today: Date) returns (k: nat)
    requires IsDate(today)
    ensures k < 4 && IsLatestTradingDay(today, LastTradingDay(today), k)
    ensures Ordinal(LastTradingDay(today)) == Ordinal(today) - k
  {
    OpenWithinFour(today);
    BackUnfolds(today);
    k := 0;
    while !IsTradingDay(Back(today, k))
      invariant forall j: nat :: j < k ==> !IsTradingDay(Back(today, j))
      invariant k < 4
      decreases 4 - k
    {
      if k == 3 {
        assert false;
      }
      k := k + 1;
    }
    SearchBackStops(today, SEARCH_STEPS, k);
    BackOrdinal(today, k);
  }

  /** `_last_weekday_close`'s loop. */
  method FindLastTradingDay(today: Date) returns (day: Date)
    requires IsDate(today)
    ensures day == LastTradingDay(today)
  {
    day := today;
    for i := 0 to SEARCH_STEPS
      invariant IsDate(day) && SearchBack(day, SEARCH_STEPS - i) == LastTradingDay(today)
    {
      if IsTradingDay(day) {
        return;
      }
      day := Prev(day);
    }
  }

  // ----- Sessions ----------------------------------------------------------------------------

  const SECOND := 1_000_000
  const HOUR := 3600 * SECOND
  const DAY := 24 * HOUR
  const MARKET_OPEN := 9 * HOUR + HOUR / 2
  const MARKET_CLOSE := 16 * HOUR
  const PRE_MARKET_OPEN := 4 * HOUR
  const AFTER_HOURS_CLOSE := 20 * HOUR

  datatype Session = Regular | PreMarket | AfterHours | Closed

  /** A wall-clock reading: a date and microseconds since its midnight. */
  datatype Local = Local(date: Date, clock: int)

  predicate IsLocal(l: Local) { IsDate(l.date) && 0 <= l.clock < DAY }

  function At(d: Date, clock: int): int
    requires IsDate(d)
  {
    Ordinal(d) * DAY + clock
  }

  function Instant(l: Local): int
    requires IsLocal(l)
  {
    At(l.date, l.clock)
  }

  function SessionAt(l: Local): Session
    requires IsLocal(l)
  {
    if !IsTradingDay(l.date) then Closed
    else if MARKET_OPEN <= l.clock < MARKET_CLOSE then Regular
    else if PRE_MARKET_OPEN <= l.clock < MARKET_OPEN then PreMarket
    else if MARKET_CLOSE <= l.clock < AFTER_HOURS_CLOSE then AfterHours
    else Closed
  }

  // ----- The freshness window ------------------------------------------------------------------

  /** The session boundaries of today and yesterday. */
  function Edges(d: Date): seq<int>
    requires IsDate(d)
  {
    [At(d, MARKET_CLOSE), At(d, PRE_MARKET_OPEN), At(d, MARKET_OPEN),
     At(Prev(d), MARKET_CLOSE), At(Prev(d), PRE_MARKET_OPEN), At(Prev(d), MARKET_OPEN)]
  }

  /** The same boundaries, counted from the start of the day. */
  function EdgesFrom(midnight: int): seq<int> {
    [midnight + MARKET_CLOSE, midnight + PRE_MARKET_OPEN, midnight + MARKET_OPEN,
     midnight - DAY + MARKET_CLOSE, midnight - DAY + PRE_MARKET_OPEN, midnight - DAY + MARKET_OPEN]
  }

  lemma AtYesterday(d: Date, clock: int)
    requires IsDate(d)
    ensures At(d, clock) == At(d, 0) + clock && At(Prev(d), clock) == At(d, 0) - DAY + clock
  {
    PrevWeekday(d);
  }

  lemma EdgesFromMidnight(d: Date)
    requires IsDate(d)
    ensures Edges(d) == EdgesFrom(At(d, 0))
  {
    AtYesterday(d, MARKET_CLOSE);
    AtYesterday(d, PRE_MARKET_OPEN);
    AtYesterday(d, MARKET_OPEN);
  }

  predicate IsLatestBehind(edges: seq<int>, now: int, edge: int) {
    && edge in edges && edge <= now
    && forall e :: e in edges && e <= now ==> e <= edge
  }

  lemma LatestOfSix(a: int, b: int, c: int, x: int, y: int, z: int, now: int, edge: int)
    requires edge == a || edge == b || edge == c || edge == x || edge == y || edge == z
    requires edge <= now && (a <= now ==> a <= edge) && (b <= now ==> b <= edge) && (c <= now ==> c <= edge)
    requires (x <= now ==> x <= edge) && (y <= now ==> y <= edge) && (z <= now ==> z <= edge)
    ensures IsLatestBehind([a, b, c, x, y, z], now, edge)
  {
    assert [a, b, c, x, y, z][0] == a && [a, b, c, x, y, z][1] == b && [a, b, c, x, y, z][2] == c;
    assert [a, b, c, x, y, z][3] == x && [a, b, c, x, y, z][4] == y && [a, b, c, x, y, z][5] == z;
  }

  /** The latest edge behind a clock reading, on a day that starts at `midnight`. */
  function EdgeBehind(midnight: int, clock: int): (edge: int)
    requires 0 <= clock < DAY
    ensures IsLatestBehind(EdgesFrom(midnight), midnight + clock, edge)
  {
    var edge :=
      if clock >= MARKET_CLOSE then midnight + MARKET_CLOSE
      else if clock >= MARKET_OPEN then midnight + MARKET_OPEN
      else if clock >= PRE_MARKET_OPEN then midnight + PRE_MARKET_OPEN
      else midnight - DAY + MARKET_CLOSE;
    LatestOfSix(midnight + MARKET_CLOSE, midnight + PRE_MARKET_OPEN, midnight + MARKET_OPEN, midnight - DAY + MARKET_CLOSE,
                midnight - DAY + PRE_MARKET_OPEN, midnight - DAY + MARKET_OPEN, midnight + clock, edge);
    edge
  }

  /** `_most_recent_session_edge`. */
  function MostRecentEdge(l: Local): (edge: int)
    requires IsLocal(l)
    ensures IsLatestBehind(Edges(l.date), Instant(l), edge)
  {
    EdgesFromMidnight(l.date);
    AtYesterday(l.date, l.clock);
    EdgeBehind(At(l.date, 0), l.clock)
  }

  /** `int(delta.total_seconds())` of a delta that is not negative. */
  function WholeSeconds(micros: int): int { micros / SECOND }

  function NonSessionWindow(l: Local, allowance: nat): int
    requires IsLocal(l)
  {
    var now := Instant(l);
    if !IsTradingDay(l.date) then WholeSeconds(now - At(LastTradingDay(l.date), MARKET_CLOSE)) + allowance
    else if SessionAt(l) == PreMarket || SessionAt(l) == AfterHours then WholeSeconds(now - MostRecentEdge(l)) + allowance
    else if now >= At(l.date, MARKET_CLOSE) then WholeSeconds(now - At(l.date, MARKET_CLOSE)) + allowance
    else WholeSeconds(now - MostRecentEdge(l)) + allowance
  }

  function FreshnessWindow(l: Local, allowance: nat): int
    requires IsLocal(l)
  {
    if SessionAt(l) == Regular then allowance
    else if NonSessionWindow(l, allowance) < 0 then 0 else NonSessionWindow(l, allowance)
  }

  /** The close of the latest trading day that has closed. */
  function LastClose(l: Local): int
    requires IsLocal(l)
  {
    if IsTradingDay(l.date) && l.clock >= MARKET_CLOSE then At(l.date, MARKET_CLOSE)
    else At(LastTradingDay(Prev(l.date)), MARKET_CLOSE)
  }

  /** A quote is stale when its age in seconds exceeds the window. */
  predicate Stale(observedAt: int, l: Local, allowance: nat)
    requires IsLocal(l)
  {
    Instant(l) - observedAt > FreshnessWindow(l, allowance) * SECOND
  }

  lemma WholeSecondsBounds(micros: int)
    requires micros >= 0
    ensures 0 <= WholeSeconds(micros) * SECOND <= micros < (WholeSeconds(micros) + 1) * SECOND
  {
  }

  lemma SearchFromClosedDay(d: Date)
    requires IsDate(d) && !IsTradingDay(d)
    ensures LastTradingDay(d) == LastTradingDay(Prev(d))
  {
    var k := SearchFindsLatest(Prev(d));
    SearchBackStops(Prev(d), SEARCH_STEPS - 1, k);
  }

  /** The latest trading day is `d` itself or lies a whole day or more before it. */
  lemma LastTradingDayBehind(d: Date)
    requires IsDate(d)
    ensures IsTradingDay(d) ==> LastTradingDay(d) == d
    ensures !IsTradingDay(d) ==> Ordinal(LastTradingDay(d)) <= Ordinal(d) - 1
  {
    var k := SearchFindsLatest(d);
    assert Back(d, 0) == d;
  }

  lemma EarlierDay(a: Date, b: Date, n: int, clock: int)
    requires IsDate(a) && IsDate(b) && Ordinal(a) <= Ordinal(b) - n
    ensures At(a, clock) <= At(b, clock) - n * DAY
  {
  }

  lemma Yesterday(d: Date, clock: int)
    requires IsDate(d)
    ensures At(Prev(d), clock) == At(d, clock) - DAY
  {
    PrevWeekday(d);
  }

  predicate ClosedToday(l: Local)
    requires IsLocal(l)
  {
    IsTradingDay(l.date) && l.clock >= MARKET_CLOSE
  }

  /** Unless today has closed, the last close is yesterday's, or a day or more before that. */
  lemma LastCloseBehind(l: Local)
    requires IsLocal(l) && !ClosedToday(l)
    ensures IsTradingDay(Prev(l.date)) ==> LastClose(l) == At(l.date, MARKET_CLOSE) - DAY
    ensures !IsTradingDay(Prev(l.date)) ==> LastClose(l) <= At(l.date, MARKET_CLOSE) - 2 * DAY
  {
    LastTradingDayBehind(Prev(l.date));
    Yesterday(l.date, MARKET_CLOSE);
    if !IsTradingDay(Prev(l.date)) {
      EarlierDay(LastTradingDay(Prev(l.date)), Prev(l.date), 1, MARKET_CLOSE);
    }
  }

  /** The reference point of a window outside the session. */
  function Reference(l: Local): int
    requires IsLocal(l)
  {
    if !IsTradingDay(l.date) then At(LastTradingDay(l.date), MARKET_CLOSE)
    else if l.clock >= MARKET_CLOSE then At(l.date, MARKET_CLOSE)
    else if l.clock >= MARKET_OPEN then At(l.date, MARKET_OPEN)
    else if l.clock >= PRE_MARKET_OPEN then At(l.date, PRE_MARKET_OPEN)
    else At(Prev(l.date), MARKET_CLOSE)
  }

  lemma WindowFromReference(l: Local, allowance: nat)
    requires IsLocal(l)
    ensures NonSessionWindow(l, allowance) == WholeSeconds(Instant(l) - Reference(l)) + allowance
  {
  }

  lemma ReferenceBehind(l: Local)
    requires IsLocal(l)
    ensures Reference(l) <= Instant(l)
    ensures !IsTradingDay(l.date) || ClosedToday(l) ==> Reference(l) == LastClose(l)
  {
    Yesterday(l.date, MARKET_CLOSE);
    if !IsTradingDay(l.date) {
      SearchFromClosedDay(l.date);
      LastTradingDayBehind(l.date);
      EarlierDay(LastTradingDay(l.date), l.date, 1, MARKET_CLOSE);
    }
  }

  /** The window outside the session is never negative, so the clamp never acts. */
  lemma WindowNeverNegative(l: Local, allowance: nat)
    requires IsLocal(l) && SessionAt(l) != Regular
    ensures NonSessionWindow(l, allowance) >= allowance && FreshnessWindow(l, allowance) == NonSessionWindow(l, allowance)
  {
    WindowFromReference(l, allowance);
    ReferenceBehind(l);
    WholeSecondsBounds(Instant(l) - Reference(l));
  }

  /** After the close, and on every closed day, a quote struck at the last close is current. */
  lemma LastCloseAdmitted(l: Local, allowance: nat)
    requires IsLocal(l) && allowance >= 1 && (!IsTradingDay(l.date) || l.clock >= MARKET_CLOSE)
    ensures !Stale(LastClose(l), l, allowance)
  {
    WindowNeverNegative(l, allowance);
    WindowFromReference(l, allowance);
    ReferenceBehind(l);
    WholeSecondsBounds(Instant(l) - Reference(l));
  }

  /** A close at least `gap` microseconds before the reference is out of a window smaller than the gap. */
  lemma TooFarBehind(now: int, reference: int, close: int, allowance: nat)
    requires close <= reference - 12 * HOUR && reference <= now && allowance < 43200
    ensures now - close > (WholeSeconds(now - reference) + allowance) * SECOND
  {
    WholeSecondsBounds(now - reference);
  }

  /**
   With a session freshness below twelve hours, that is not so everywhere: before the open the
   last close is admitted only before 04:00 and only if yesterday was a trading day.
   */
  lemma LastCloseAdmittedExactly(l: Local, allowance: nat)
    requires IsLocal(l) && 1 <= allowance < 43200
    ensures !Stale(LastClose(l), l, allowance) <==>
            !IsTradingDay(l.date) || l.clock >= MARKET_CLOSE || (l.clock < PRE_MARKET_OPEN && IsTradingDay(Prev(l.date)))
  {
    if !IsTradingDay(l.date) || l.clock >= MARKET_CLOSE {
      LastCloseAdmitted(l, allowance);
    } else {
      BeforeTheClose(l, allowance);
    }
  }

  lemma BeforeTheClose(l: Local, allowance: nat)
    requires IsLocal(l) && IsTradingDay(l.date) && l.clock < MARKET_CLOSE && 1 <= allowance < 43200
    ensures !Stale(LastClose(l), l, allowance) <==> l.clock < PRE_MARKET_OPEN && IsTradingDay(Prev(l.date))
  {
    LastCloseBehind(l);
    ReferenceBehind(l);
    WindowFromReference(l, allowance);
    Yesterday(l.date, MARKET_CLOSE);
    WholeSecondsBounds(Instant(l) - Reference(l));
    if SessionAt(l) == Regular {
      TooFarBehind(Instant(l), Instant(l), LastClose(l), allowance);
    } else {
      WindowNeverNegative(l, allowance);
      if l.clock >= PRE_MARKET_OPEN || !IsTradingDay(Prev(l.date)) {
        TooFarBehind(Instant(l), Reference(l), LastClose(l), allowance);
      }
    }
  }

  /** The last close is never ahead of the clock. */
  lemma LastCloseNotAhead(l: Local)
    requires IsLocal(l)
    ensures LastClose(l) <= Instant(l)
  {
    if !ClosedToday(l) {
      LastCloseBehind(l);
    }
  }

  lemma AnOrdinaryWednesday()
    ensures Weekday(Date(2024, 3, 6)) == 2 && IsTradingDay(Date(2024, 3, 6))
  {
    assert DaysBeforeMonth(2024, 2) == 31 && DaysBeforeMonth(2024, 3) == 60;
    assert DaysBeforeYear(2024) == 738885;
  }

  /** Wednesday 6 March 2024 at 05:00: the close of Tuesday is out of the five-minute fund's window. */
  lemma PreMarketMissesTheClose()
    ensures IsLocal(Local(Date(2024, 3, 6), 5 * HOUR)) && SessionAt(Local(Date(2024, 3, 6), 5 * HOUR)) == PreMarket
    ensures Stale(LastClose(Local(Date(2024, 3, 6), 5 * HOUR)), Local(Date(2024, 3, 6), 5 * HOUR), 300)
  {
    AnOrdinaryWednesday();
    LastCloseAdmittedExactly(Local(Date(2024, 3, 6), 5 * HOUR), 300);
  }
}
