/** Which days trade, which hours belong to which session, and how long a quote stays current, on the dates and clock themselves. */
module TradingHours {
  import opened Calendar

  // ----- Days ----------------------------------------------------------------------------------

  /** The three holidays of a year. */
  function Holidays(year: int): set<Date> { {Date(year, 1, 1), Date(year, 7, 4), Date(year, 12, 25)} }

  /** A holiday falls on the day itself, on the Saturday after this Friday, or on the Sunday before this Monday. */
  predicate HolidayAround(d: Date)
    requires IsDate(d)
  {
    || d in Holidays(d.year)
    || (Weekday(d) == 4 && Next(d) in Holidays(Next(d).year))
    || (Weekday(d) == 0 && Prev(d) in Holidays(Prev(d).year))
  }

  lemma NominalMeans(d: Date)
    ensures Nominal(d) <==> d in Holidays(d.year)
  {
  }

  /** Trading days are the days from Monday to Friday around which no holiday is observed on that day. */
  lemma TradingDayExactly(d: Date)
    requires IsDate(d)
    ensures IsTradingDay(d) <==> Weekday(d) in {0, 1, 2, 3, 4} && !HolidayAround(d)
  {
    NominalMeans(d);
    NominalMeans(Next(d));
    NominalMeans(Prev(d));
  }

  lemma OrdinalsAhead()
    ensures DaysBeforeYear(2021) == 737790 && DaysBeforeYear(2026) == 739616
  {
  }

  lemma MonthsOf(y: int)
    ensures DaysBeforeMonth(y, 7) == 181 + (if Leap(y) then 1 else 0)
    ensures DaysBeforeMonth(y, 12) == 334 + (if Leap(y) then 1 else 0)
  {
    assert DaysBeforeMonth(y, 3) == DaysBeforeMonth(y, 2) + DaysIn(y, 2) && DaysBeforeMonth(y, 2) == 31;
    assert DaysBeforeMonth(y, 5) == DaysBeforeMonth(y, 4) + 30 && DaysBeforeMonth(y, 4) == DaysBeforeMonth(y, 3) + 31;
    assert DaysBeforeMonth(y, 7) == DaysBeforeMonth(y, 6) + 30 && DaysBeforeMonth(y, 6) == DaysBeforeMonth(y, 5) + 31;
    assert DaysBeforeMonth(y, 9) == DaysBeforeMonth(y, 8) + 31 && DaysBeforeMonth(y, 8) == DaysBeforeMonth(y, 7) + 31;
    assert DaysBeforeMonth(y, 11) == DaysBeforeMonth(y, 10) + 31 && DaysBeforeMonth(y, 10) == DaysBeforeMonth(y, 9) + 30;
    assert DaysBeforeMonth(y, 12) == DaysBeforeMonth(y, 11) + 30;
  }

  /**
   New Year 2022 fell on a Saturday and closed Friday 31 December 2021; Independence Day 2021 fell on a Sunday and
   closed Monday 5 July; that of 2026 falls on a Saturday and closes Friday 3 July, while the Thursday before trades.
   */
  lemma ObservedClosures()
    ensures !IsTradingDay(Date(2021, 12, 31)) && !IsTradingDay(Date(2021, 7, 5)) && !IsTradingDay(Date(2026, 7, 3))
    ensures IsTradingDay(Date(2026, 7, 2)) && !IsTradingDay(Date(2026, 7, 4))
  {
    OrdinalsAhead();
    MonthsOf(2021);
    MonthsOf(2026);
  }

  // ----- Hours ---------------------------------------------------------------------------------

  const MINUTE := 60 * SECOND

  /** The clock is within these hours, given in minutes of the day. */
  predicate Between(l: Local, from: int, to: int) { from * MINUTE <= l.clock < to * MINUTE }

  /** On trading days pre-market runs from 04:00, the regular session from 09:30, after-hours from 16:00 to 20:00. */
  lemma SessionExactly(l: Local)
    requires IsLocal(l)
    ensures SessionAt(l) == Regular <==> IsTradingDay(l.date) && Between(l, 570, 960)
    ensures SessionAt(l) == PreMarket <==> IsTradingDay(l.date) && Between(l, 240, 570)
    ensures SessionAt(l) == AfterHours <==> IsTradingDay(l.date) && Between(l, 960, 1200)
    ensures SessionAt(l) == Closed <==> !IsTradingDay(l.date) || Between(l, 0, 240) || Between(l, 1200, 1440)
  {
  }

  // ----- The freshness window ------------------------------------------------------------------

  /** The window reaches to this moment, in whole seconds, and the allowance beyond it. */
  predicate ReachesTo(window: int, moment: int, l: Local, allowance: nat)
    requires IsLocal(l)
  {
    moment <= Instant(l) && (window - allowance) * SECOND <= Instant(l) - moment < (window - allowance + 1) * SECOND
  }

  /** No trading day lies between this one and today. */
  ghost predicate LastTraded(day: Date, today: Date) {
    && IsDate(day) && IsDate(today) && IsTradingDay(day)
    && exists k: nat :: day == Back(today, k) && forall j: nat :: j < k ==> !IsTradingDay(Back(today, j))
  }

  /**
   In the regular session the window is the allowance. On a closed day it reaches to the close of the last day that traded;
   on a trading day to today's close once that is past, to 04:00 in pre-market, and before that to 16:00 of the day before,
   whether that day traded or not.
   */
  lemma WindowMeans(l: Local, allowance: nat) returns (day: Date)
    requires IsLocal(l)
    ensures LastTraded(day, l.date)
    ensures var w := FreshnessWindow(l, allowance);
            && (IsTradingDay(l.date) && Between(l, 570, 960) ==> w == allowance)
            && (!IsTradingDay(l.date) ==> ReachesTo(w, At(day, 960 * MINUTE), l, allowance))
            && (IsTradingDay(l.date) && Between(l, 960, 1440) ==> ReachesTo(w, At(l.date, 960 * MINUTE), l, allowance))
            && (IsTradingDay(l.date) && Between(l, 240, 570) ==> ReachesTo(w, At(l.date, 240 * MINUTE), l, allowance))
            && (IsTradingDay(l.date) && Between(l, 0, 240) ==> ReachesTo(w, At(l.date, 960 * MINUTE) - DAY, l, allowance))
  {
    var k := SearchFindsLatest(l.date);
    day := LastTradingDay(l.date);
    if SessionAt(l) != Regular {
      WindowNeverNegative(l, allowance);
      WindowFromReference(l, allowance);
      ReferenceBehind(l);
      Yesterday(l.date, MARKET_CLOSE);
      WholeSecondsBounds(Instant(l) - Reference(l));
    }
  }
}
