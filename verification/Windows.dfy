/** The reconciliation reminder window around a month end, and the periods that may be reconciled. */
module Windows {
  import opened Prelude
  import opened Calendar

  datatype Window = Window(periodEnd: Date, promptStart: Date, promptEnd: Date, open: bool)
  datatype PeriodError = NotMonthEnd | FutureMonth

  function MonthEnd(value: Date): Date {
    GoDate(value.year, value.month + 1, 0)
  }

  function ReconciliationWindowForPeriod(today: Date, period: Date): Window {
    var periodEnd := MonthEnd(period);
    var promptStart := AddDate(periodEnd, 0, 0, -5);
    var nextMonth := AddDate(periodEnd, 0, 0, 1);
    var promptEnd := GoDate(nextMonth.year, nextMonth.month, 5);
    Window(periodEnd, promptStart, promptEnd, !Before(today, promptStart) && !After(today, promptEnd))
  }

  function MonthBack(today: Date): Date {
    AddDate(today, 0, -1, 0)
  }

  function ReconciliationWindow(today: Date): Window {
    var currentEnd := MonthEnd(today);
    var periodEnd :=
      if today.day <= 5 then MonthEnd(MonthBack(today))
      else if !Before(today, AddDate(currentEnd, 0, 0, -5)) then currentEnd
      else MonthEnd(MonthBack(today));
    ReconciliationWindowForPeriod(today, periodEnd)
  }

  function ValidateReconciliationPeriod(today: Date, periodEnd: Date): Result<(), PeriodError> {
    if periodEnd != MonthEnd(periodEnd) then Err(NotMonthEnd)
    else if After(periodEnd, MonthEnd(today)) then Err(FutureMonth)
    else Ok(())
  }

  ghost predicate IsMonthEnd(d: Date) {
    d.day == DaysIn(Index(d))
  }

  // ----- month ends as day numbers

  lemma {:induction false} MonthEndLands(value: Date)
    ensures Index(MonthEnd(value)) == Index(value)
    ensures IsMonthEnd(MonthEnd(value))
    ensures DayNumber(MonthEnd(value)) == MonthStart(Index(value) + 1) - 1
  {
    GoDateZero(value.year, value.month);
    MonthStep(Index(value));
  }

  /** A date equals its own month end exactly when it is the last day of its month. */
  lemma {:induction false} MonthEndFixed(d: Date)
    ensures d == MonthEnd(d) <==> IsMonthEnd(d)
  {
    MonthEndLands(d);
    if IsMonthEnd(d) {
      SameDate(d, MonthEnd(d));
    }
  }

  /** The prompt opens five days before the month end and closes on the fifth of the next month. */
  lemma {:induction false} PromptBounds(today: Date, period: Date)
    ensures var w := ReconciliationWindowForPeriod(today, period); var turn := MonthStart(Index(period) + 1);
            && DayNumber(w.promptStart) == turn - 6
            && DayNumber(w.promptEnd) == turn + 4
            && (w.open <==> turn - 6 <= DayNumber(today) <= turn + 4)
  {
    hide FromDayNumber, MonthStart, DaysIn;
    var periodEnd := MonthEnd(period);
    var index := Index(period);
    MonthEndLands(period);
    AddDaysShifts(periodEnd, -5);
    AddDaysShifts(periodEnd, 1);
    var nextMonth := AddDate(periodEnd, 0, 0, 1);
    DayInMonth(index + 1, 1);
    assert Index(nextMonth) == index + 1 by {
      DateToNumberAndBack(nextMonth);
    }
    GoDateInside(nextMonth.year, nextMonth.month, 5);
  }

  /** In terms of today: the month before is open through the 5th, this month from five days before its end. */
  lemma {:induction false} OpenExactlyWhen(today: Date, period: Date)
    ensures ReconciliationWindowForPeriod(today, period).open
            <==> (Index(period) == Index(today) - 1 && today.day <= 5)
                 || (Index(period) == Index(today) && DaysIn(Index(today)) - 5 <= today.day)
  {
    hide ReconciliationWindowForPeriod, MonthStart, DaysIn;
    var i, m := Index(today), Index(period);
    PromptBounds(today, period);
    DaysInMonth(today.year, today.month);
    MonthStep(i);
    if m < i - 1 {
      MonthStartGrows(m + 1, i - 1);
      MonthStartGrows(i - 1, i);
    } else if i < m {
      MonthStartGrows(i + 1, m);
      MonthStartGrows(m, m + 1);
    }
  }

  /** No date has two month ends with an open window. */
  lemma {:induction false} AtMostOneOpen(today: Date, a: Date, b: Date)
    requires IsMonthEnd(a) && IsMonthEnd(b)
    requires ReconciliationWindowForPeriod(today, a).open && ReconciliationWindowForPeriod(today, b).open
    ensures a == b
  {
    hide ReconciliationWindowForPeriod, DaysIn;
    OpenExactlyWhen(today, a);
    OpenExactlyWhen(today, b);
    SameDate(a, b);
  }

  /** Stepping back a month keeps the day whenever the day exists in every month. */
  lemma {:induction false} MonthBackKeepsDay(today: Date)
    requires today.day <= 28
    ensures Index(MonthBack(today)) == Index(today) - 1 && MonthBack(today).day == today.day
  {
    hide GoDate, DayNumber, DaysIn;
    assert MonthIndex(today.year + 0, today.month + -1) == Index(today) - 1;
    GoDateInside(today.year + 0, today.month + -1, today.day);
  }

  /** The suggestion: the month before through the 5th and in mid-month, this month near its end. */
  lemma {:induction false} SuggestedMonth(today: Date)
    ensures var w := ReconciliationWindow(today); var last := DaysIn(Index(today));
            && w == ReconciliationWindowForPeriod(today, w.periodEnd)
            && IsMonthEnd(w.periodEnd)
            && Index(w.periodEnd) == (if 6 <= today.day && last - 5 <= today.day then Index(today)
                                      else Index(today) - 1)
            && (Index(w.periodEnd) == Index(today) - 1 ==> Index(MonthBack(today)) == Index(today) - 1)
  {
    hide MonthStart, DaysIn, FromDayNumber;
    var currentEnd := MonthEnd(today);
    MonthEndLands(today);
    AddDaysShifts(currentEnd, -5);
    DaysInMonth(today.year, today.month);
    MonthStep(Index(today));
    var near := !Before(today, AddDate(currentEnd, 0, 0, -5));
    assert near <==> DaysIn(Index(today)) - 5 <= today.day;
    var periodEnd := if 6 <= today.day && near then currentEnd else MonthEnd(MonthBack(today));
    if 6 <= today.day && near {
    } else {
      MonthBackKeepsDay(today);
      MonthEndLands(MonthBack(today));
    }
    MonthEndFixed(periodEnd);
  }

  /** The suggested window is open exactly when some month end's is, and then it is that month end. */
  lemma {:induction false} WindowFindsTheOpenPeriod(today: Date)
    ensures ReconciliationWindow(today).open
            <==> exists e: Date :: IsMonthEnd(e) && ReconciliationWindowForPeriod(today, e).open
    ensures forall e: Date :: IsMonthEnd(e) && ReconciliationWindowForPeriod(today, e).open
                              ==> e == ReconciliationWindow(today).periodEnd
  {
    hide ReconciliationWindow, ReconciliationWindowForPeriod, DaysIn, IsMonthEnd;
    var w := ReconciliationWindow(today);
    SuggestedMonth(today);
    OpenExactlyWhen(today, w.periodEnd);
    forall e: Date | IsMonthEnd(e) && ReconciliationWindowForPeriod(today, e).open
      ensures w.open && e == w.periodEnd
    {
      OpenExactlyWhen(today, e);
      AtMostOneOpen(today, e, w.periodEnd);
    }
  }

  /** A period is refused exactly when it is not a month end or lies in a later month than today. */
  lemma {:induction false} ValidExactlyWhen(today: Date, periodEnd: Date)
    ensures ValidateReconciliationPeriod(today, periodEnd).Ok?
            <==> IsMonthEnd(periodEnd) && Index(periodEnd) <= Index(today)
    ensures ValidateReconciliationPeriod(today, periodEnd) == Err(NotMonthEnd) <==> !IsMonthEnd(periodEnd)
  {
    hide MonthEnd, MonthStart, DaysIn;
    MonthEndFixed(periodEnd);
    MonthEndLands(today);
    MonthEndLands(periodEnd);
    if Index(periodEnd) <= Index(today) {
      MonthStartGrows(Index(periodEnd) + 1, Index(today) + 1);
    } else {
      MonthStartLater(Index(today) + 1, Index(periodEnd) + 1);
    }
  }

  lemma {:induction false} SuggestionIsValid(today: Date)
    ensures ValidateReconciliationPeriod(today, ReconciliationWindow(today).periodEnd).Ok?
  {
    hide ReconciliationWindow, ValidateReconciliationPeriod;
    SuggestedMonth(today);
    ValidExactlyWhen(today, ReconciliationWindow(today).periodEnd);
  }

  /**
   One month back stays in the month before exactly when that month has the day; otherwise it overflows into this one.
   */
  lemma {:induction false} MonthBackOverflowsExactlyWhen(today: Date)
    ensures Index(MonthBack(today)) == (if today.day <= DaysIn(Index(today) - 1) then Index(today) - 1
                                        else Index(today))
    ensures ReconciliationWindow(today).periodEnd != MonthEnd(today) ==> today.day <= DaysIn(Index(today) - 1)
  {
    hide FromDayNumber, MonthStart, DaysIn, ReconciliationWindow;
    SuggestedMonth(today);
    if Index(ReconciliationWindow(today).periodEnd) == Index(today) {
      MonthEndLands(today);
      SameDate(ReconciliationWindow(today).periodEnd, MonthEnd(today));
    }
    var last := DaysIn(Index(today) - 1);
    assert MonthIndex(today.year + 0, today.month + -1) == Index(today) - 1;
    if today.day <= last {
      GoDateInside(today.year + 0, today.month + -1, today.day);
    } else {
      MonthStep(Index(today) - 1);
      DayInMonth(Index(today), today.day - last);
    }
  }
}
