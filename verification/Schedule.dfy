/** Recurring schedules: an anchor date repeated every so many days, weeks, months or years. */
module Schedule {
  import opened Calendar

  datatype IntervalUnit = Days | Weeks | Months | Years

  /** The date `months` months after the anchor, on the anchor's day or the last day of a shorter month. */
  function AddMonthsClamped(anchor: Date, months: int): Date {
    var first := AddDate(GoDate(anchor.year, anchor.month, 1), 0, months, 0);
    var lastDay := GoDate(first.year, first.month + 1, 0).day;
    var day := if anchor.day > lastDay then lastDay else anchor.day;
    GoDate(first.year, first.month, day)
  }

  /** Go's integer division, which truncates toward zero. */
  function GoDiv(a: int, b: int): int
    requires b > 0
  {
    if a >= 0 then a / b else -((-a) / b)
  }

  function StepMonths(unit: IntervalUnit, count: int): int {
    if unit == Years then count * 12 else count
  }

  function MonthsElapsed(anchor: Date, current: Date): int {
    (current.year - anchor.year) * 12 + (current.month - anchor.month)
  }

  function FirstIndex(anchor: Date, current: Date, stepMonths: int): int
    requires stepMonths >= 1
  {
    GoDiv(MonthsElapsed(anchor, current), stepMonths) + 1
  }

  /** What `nextRecurringDate` returns; NextRecurringDate below is its loop. */
  function Next(anchor: Date, current: Date, unit: IntervalUnit, count: int): Date
    requires count >= 1
  {
    match unit
    case Days => AddDays(current, count)
    case Weeks => AddDays(current, 7 * count)
    case _ =>
      var stepMonths := StepMonths(unit, count);
      AddMonthsClamped(anchor, FirstIndex(anchor, current, stepMonths) * stepMonths)
  }

  /** The k-th date of a schedule, counted from the anchor and never from the previous date. */
  function Slot(anchor: Date, unit: IntervalUnit, count: int, k: int): Date {
    match unit
    case Days => AddDays(anchor, k * count)
    case Weeks => AddDays(anchor, k * (7 * count))
    case _ => AddMonthsClamped(anchor, k * StepMonths(unit, count))
  }

  /** `n` calls of nextRecurringDate, starting from the anchor. */
  function Iterate(anchor: Date, unit: IntervalUnit, count: int, n: nat): Date
    requires count >= 1
  {
    if n == 0 then anchor else Next(anchor, Iterate(anchor, unit, count, n - 1), unit, count)
  }

  // ----- arithmetic

  lemma NotNegative(a: int, b: int)
    requires a >= 0 && b >= 0
    ensures a * b >= 0
  {
  }

  lemma Grows(j: int, k: int, s: int)
    requires j < k && s >= 1
    ensures j * s + s <= k * s
  {
    NotNegative(k - j - 1, s);
    assert (k - j - 1) * s == k * s - j * s - s;
  }

  lemma Quotient(k: int, s: int)
    requires s >= 1
    ensures (k * s) / s == k && (k * s) % s == 0
  {
    var q, r := (k * s) / s, (k * s) % s;
    assert (k - q) * s == r;
    if q < k {
      Grows(q, k, s);
    } else if k < q {
      Grows(k, q, s);
    }
  }

  lemma Truncation(a: int, s: int)
    requires s >= 1
    ensures a < (GoDiv(a, s) + 1) * s
  {
    if a < 0 {
      assert ((-a) / s) * s <= -a;
      assert (GoDiv(a, s) + 1) * s == -(((-a) / s) * s) + s;
    }
  }

  // ----- the clamped month step

  lemma {:induction false} FirstOfStep(anchor: Date, months: int)
    ensures var first := AddDate(GoDate(anchor.year, anchor.month, 1), 0, months, 0);
            Index(first) == Index(anchor) + months && first.day == 1
  {
    GoDateInside(anchor.year, anchor.month, 1);
    var opening := GoDate(anchor.year, anchor.month, 1);
    assert MonthIndex(opening.year + 0, opening.month + months) == Index(anchor) + months;
    GoDateInside(opening.year + 0, opening.month + months, 1);
  }

  /** The clamped step lands in the month it names, on the anchor's day or that month's last. */
  lemma {:induction false} AddMonthsClampedLands(anchor: Date, months: int)
    ensures var index := Index(anchor) + months; var d := AddMonthsClamped(anchor, months);
            Index(d) == index && d.day == if anchor.day <= DaysIn(index) then anchor.day else DaysIn(index)
  {
    hide FromDayNumber, DaysIn;
    var index := Index(anchor) + months;
    FirstOfStep(anchor, months);
    var first := AddDate(GoDate(anchor.year, anchor.month, 1), 0, months, 0);
    GoDateZero(first.year, first.month);
    GoDateInside(first.year, first.month, if anchor.day <= DaysIn(index) then anchor.day else DaysIn(index));
  }

  /** The correction loop of nextRecurringDate never runs: its guard is false on entry, for every anchor and current. */
  lemma {:induction false} CorrectionLoopIdle(anchor: Date, current: Date, stepMonths: int)
    requires stepMonths >= 1
    ensures After(AddMonthsClamped(anchor, FirstIndex(anchor, current, stepMonths) * stepMonths), current)
  {
    var elapsed := MonthsElapsed(anchor, current);
    var months := FirstIndex(anchor, current, stepMonths) * stepMonths;
    Truncation(elapsed, stepMonths);
    AddMonthsClampedLands(anchor, months);
    assert Index(current) == Index(anchor) + elapsed;
    EarlierMonth(current, AddMonthsClamped(anchor, months));
  }

  lemma {:induction false} NotAfterBound(anchor: Date, current: Date, months: int)
    requires !After(AddMonthsClamped(anchor, months), current)
    ensures months <= MonthsElapsed(anchor, current)
  {
    AddMonthsClampedLands(anchor, months);
    if MonthsElapsed(anchor, current) < months {
      EarlierMonth(current, AddMonthsClamped(anchor, months));
    }
  }

  method NextRecurringDate(anchor: Date, current: Date, unit: IntervalUnit, count: int) returns (next: Date)
    requires count >= 1
    ensures next == Next(anchor, current, unit, count)
    ensures After(next, current)
  {
    hide AddMonthsClamped, AddDate, DayNumber;
    match unit {
      case Days =>
        AddDaysShifts(current, count);
        next := AddDays(current, count);
      case Weeks =>
        AddDaysShifts(current, 7 * count);
        next := AddDays(current, 7 * count);
      case _ =>
        var stepMonths := count;
        if unit == Years {
          stepMonths := stepMonths * 12;
        }
        var monthsElapsed := (current.year - anchor.year) * 12 + (current.month - anchor.month);
        var index := GoDiv(monthsElapsed, stepMonths) + 1;
        ghost var first := index;
        var candidate := AddMonthsClamped(anchor, index * stepMonths);
        while !After(candidate, current)
          invariant first <= index
          invariant candidate == AddMonthsClamped(anchor, index * stepMonths)
          invariant forall j :: first <= j < index ==> !After(AddMonthsClamped(anchor, j * stepMonths), current)
          decreases monthsElapsed - index * stepMonths
        {
          NotAfterBound(anchor, current, index * stepMonths);
          Grows(index, index + 1, stepMonths);
          index := index + 1;
          candidate := AddMonthsClamped(anchor, index * stepMonths);
        }
        CorrectionLoopIdle(anchor, current, stepMonths);
        assert index == first;
        next := candidate;
    }
  }

  // ----- schedules

  lemma {:induction false} SlotDay(anchor: Date, unit: IntervalUnit, count: int, k: int)
    requires unit.Days? || unit.Weeks?
    ensures DayNumber(Slot(anchor, unit, count, k)) ==
            DayNumber(anchor) + k * (if unit.Days? then count else 7 * count)
  {
    AddDaysShifts(anchor, k * (if unit.Days? then count else 7 * count));
  }

  /** A schedule strictly increases, clamped month ends included. */
  lemma {:induction false} SlotsIncrease(anchor: Date, unit: IntervalUnit, count: int, j: int, k: int)
    requires count >= 1 && j < k
    ensures Before(Slot(anchor, unit, count, j), Slot(anchor, unit, count, k))
  {
    if unit.Days? || unit.Weeks? {
      SlotDay(anchor, unit, count, j);
      SlotDay(anchor, unit, count, k);
      Grows(j, k, if unit.Days? then count else 7 * count);
    } else {
      var s := StepMonths(unit, count);
      Grows(j, k, s);
      AddMonthsClampedLands(anchor, j * s);
      AddMonthsClampedLands(anchor, k * s);
      EarlierMonth(Slot(anchor, unit, count, j), Slot(anchor, unit, count, k));
    }
  }

  lemma {:induction false} SlotZero(anchor: Date, unit: IntervalUnit, count: int)
    ensures Slot(anchor, unit, count, 0) == anchor
  {
    var first := Slot(anchor, unit, count, 0);
    if unit.Days? || unit.Weeks? {
      SlotDay(anchor, unit, count, 0);
      assert 0 * count == 0 && 0 * (7 * count) == 0;
      SameNumberSameDate(first, anchor);
    } else {
      assert 0 * StepMonths(unit, count) == 0;
      AddMonthsClampedLands(anchor, 0);
      DaysInMonth(anchor.year, anchor.month);
      SameDate(first, anchor);
    }
  }

  lemma {:induction false} NextDayOfSlot(anchor: Date, step: int, k: int)
    ensures AddDays(AddDays(anchor, k * step), step) == AddDays(anchor, (k + 1) * step)
  {
    AddDaysShifts(anchor, k * step);
    AddDaysShifts(AddDays(anchor, k * step), step);
    AddDaysShifts(anchor, (k + 1) * step);
    assert (k + 1) * step == k * step + step;
    SameNumberSameDate(AddDays(AddDays(anchor, k * step), step), AddDays(anchor, (k + 1) * step));
  }

  lemma {:induction false} NextMonthOfSlot(anchor: Date, step: int, k: nat)
    requires step >= 1
    ensures FirstIndex(anchor, AddMonthsClamped(anchor, k * step), step) == k + 1
  {
    hide AddMonthsClamped;
    AddMonthsClampedLands(anchor, k * step);
    var elapsed := MonthsElapsed(anchor, AddMonthsClamped(anchor, k * step));
    Quotient(k, step);
    assert elapsed == k * step >= 0;
  }

  /** On the schedule, nextRecurringDate is the exact successor. */
  lemma {:induction false} NextOfSlot(anchor: Date, unit: IntervalUnit, count: int, k: nat)
    requires count >= 1
    ensures Next(anchor, Slot(anchor, unit, count, k), unit, count) == Slot(anchor, unit, count, k + 1)
  {
    match unit {
      case Days => NextDayOfSlot(anchor, count, k);
      case Weeks => NextDayOfSlot(anchor, 7 * count, k);
      case _ => NextMonthOfSlot(anchor, StepMonths(unit, count), k);
    }
  }

  /** Month-end schedules never drift: n calls from the anchor are one clamped step of n intervals. */
  lemma {:induction false} IterationNeverDrifts(anchor: Date, unit: IntervalUnit, count: int, n: nat)
    requires count >= 1
    ensures Iterate(anchor, unit, count, n) == Slot(anchor, unit, count, n)
    ensures unit.Months? || unit.Years? ==>
              Iterate(anchor, unit, count, n) == AddMonthsClamped(anchor, n * StepMonths(unit, count))
  {
    hide Next, AddMonthsClamped, AddDate, GoDate, DayNumber;
    if n == 0 {
      SlotZero(anchor, unit, count);
    } else {
      IterationNeverDrifts(anchor, unit, count, n - 1);
      NextOfSlot(anchor, unit, count, n - 1);
    }
  }

  // ----- off the schedule

  /** `next` is the earliest date of the schedule after `current`. */
  ghost predicate IsSuccessor(anchor: Date, unit: IntervalUnit, count: int, current: Date, next: Date) {
    && After(next, current)
    && (exists k: nat :: next == Slot(anchor, unit, count, k))
    && (forall k: nat :: After(Slot(anchor, unit, count, k), current) ==> !Before(Slot(anchor, unit, count, k), next))
  }

  /**
   What a caller can check of `current` beforehand. From the anchor on: counted in days it lies on the schedule;
   counted in months it is not earlier in an anchored month than that month's own date. Before the anchor: one
   interval leads to the anchor, which counted in months allows any day of the months one interval away.
   */
  predicate MeetsSchedule(anchor: Date, unit: IntervalUnit, count: int, current: Date)
    requires count >= 1
  {
    if Before(current, anchor) then
      match unit
      case Days => DayNumber(anchor) - DayNumber(current) == count
      case Weeks => DayNumber(anchor) - DayNumber(current) == 7 * count
      case _ => StepMonths(unit, count) <= -MonthsElapsed(anchor, current) < 2 * StepMonths(unit, count)
    else
      match unit
      case Days => (DayNumber(current) - DayNumber(anchor)) % count == 0
      case Weeks => (DayNumber(current) - DayNumber(anchor)) % (7 * count) == 0
      case _ =>
        var last := DaysIn(Index(current));
        MonthsElapsed(anchor, current) % StepMonths(unit, count) != 0
        || (if anchor.day <= last then anchor.day else last) <= current.day
  }

  lemma DivMod(a: int, s: int)
    requires s >= 1
    ensures a == (a / s) * s + a % s && 0 <= a % s < s
  {
  }

  lemma {:induction false} SuccessorOfSlot(anchor: Date, unit: IntervalUnit, count: int, j: nat, current: Date)
    requires count >= 1
    requires !After(Slot(anchor, unit, count, j), current)
    requires After(Slot(anchor, unit, count, j + 1), current)
    ensures IsSuccessor(anchor, unit, count, current, Slot(anchor, unit, count, j + 1))
  {
    hide AddMonthsClamped, AddDate, DayNumber, Slot;
    var next := Slot(anchor, unit, count, j + 1);
    forall k: nat | After(Slot(anchor, unit, count, k), current)
      ensures !Before(Slot(anchor, unit, count, k), next)
    {
      if k < j {
        SlotsIncrease(anchor, unit, count, k, j);
      } else if j + 1 < k {
        SlotsIncrease(anchor, unit, count, j + 1, k);
      }
    }
  }

  lemma {:induction false} DaySuccessor(anchor: Date, unit: IntervalUnit, count: int, current: Date)
    requires count >= 1 && (unit.Days? || unit.Weeks?) && !Before(current, anchor)
    ensures IsSuccessor(anchor, unit, count, current, Next(anchor, current, unit, count))
            <==> MeetsSchedule(anchor, unit, count, current)
  {
    hide AddMonthsClamped, AddDate, DayNumber, Slot;
    var s := if unit.Days? then count else 7 * count;
    var gap := DayNumber(current) - DayNumber(anchor);
    var next := Next(anchor, current, unit, count);
    AddDaysShifts(current, s);
    DivMod(gap, s);
    if gap % s == 0 {
      var k := gap / s;
      SlotDay(anchor, unit, count, k);
      SameNumberSameDate(current, Slot(anchor, unit, count, k));
      NextOfSlot(anchor, unit, count, k);
      SuccessorOfSlot(anchor, unit, count, k, current);
    } else if exists k: nat :: next == Slot(anchor, unit, count, k) {
      var k: nat :| next == Slot(anchor, unit, count, k);
      SlotDay(anchor, unit, count, k);
      assert (k - 1) * s == gap;
      Quotient(k - 1, s);
    }
  }

  lemma ElapsedParts(elapsed: int, s: int)
    requires s >= 1 && elapsed >= 0
    ensures elapsed / s >= 0 && (elapsed / s) * s <= elapsed
    ensures elapsed % s != 0 <==> (elapsed / s) * s < elapsed
  {
    DivMod(elapsed, s);
  }

  /** A clamped step to the current month or an earlier one lies ahead only in the current month, on a later day. */
  lemma {:induction false} StepAhead(anchor: Date, months: int, current: Date)
    requires Index(anchor) + months <= Index(current)
    ensures var last := DaysIn(Index(current));
            After(AddMonthsClamped(anchor, months), current) <==>
              Index(anchor) + months == Index(current)
                && current.day < (if anchor.day <= last then anchor.day else last)
  {
    hide AddMonthsClamped, DaysIn, DayNumber;
    var here := AddMonthsClamped(anchor, months);
    AddMonthsClampedLands(anchor, months);
    if Index(here) < Index(current) {
      EarlierMonth(here, current);
    } else {
      OrderIsLexicographic(current, here);
    }
  }

  /** The schedule's date of the current month, or of the last anchored month before it. */
  lemma {:induction false} HereOrLater(anchor: Date, unit: IntervalUnit, count: int, current: Date)
    requires count >= 1 && (unit.Months? || unit.Years?) && !Before(current, anchor) && Index(anchor) <= Index(current)
    ensures var k := MonthsElapsed(anchor, current) / StepMonths(unit, count);
            k >= 0 && (After(Slot(anchor, unit, count, k), current) <==> !MeetsSchedule(anchor, unit, count, current))
  {
    hide AddMonthsClamped, DaysIn, DayNumber, StepMonths;
    assert StepMonths(unit, count) >= 1 by {
      StepIsPositive(unit, count);
    }
    var k := MonthsElapsed(anchor, current) / StepMonths(unit, count);
    ElapsedParts(MonthsElapsed(anchor, current), StepMonths(unit, count));
    StepAhead(anchor, k * StepMonths(unit, count), current);
  }

  lemma StepIsPositive(unit: IntervalUnit, count: int)
    requires count >= 1
    ensures StepMonths(unit, count) >= 1
  {
  }

  lemma {:induction false} MonthSuccessor(anchor: Date, unit: IntervalUnit, count: int, current: Date)
    requires count >= 1 && (unit.Months? || unit.Years?) && !Before(current, anchor) && Index(anchor) <= Index(current)
    ensures IsSuccessor(anchor, unit, count, current, Next(anchor, current, unit, count))
            <==> MeetsSchedule(anchor, unit, count, current)
  {
    hide AddMonthsClamped, DayNumber, MeetsSchedule;
    var k := MonthsElapsed(anchor, current) / StepMonths(unit, count);
    HereOrLater(anchor, unit, count, current);
    CorrectionLoopIdle(anchor, current, StepMonths(unit, count));
    assert Next(anchor, current, unit, count) == Slot(anchor, unit, count, k + 1);
    if After(Slot(anchor, unit, count, k), current) {
      SlotsIncrease(anchor, unit, count, k, k + 1);
    } else {
      SuccessorOfSlot(anchor, unit, count, k, current);
    }
  }

  /** Before the anchor the earliest later date of the schedule is the anchor itself. */
  lemma {:induction false} AnchorComesFirst(anchor: Date, unit: IntervalUnit, count: int, current: Date, next: Date)
    requires count >= 1 && Before(current, anchor)
    ensures IsSuccessor(anchor, unit, count, current, next) <==> next == anchor
  {
    hide DayNumber, AddMonthsClamped, AddDate;
    SlotZero(anchor, unit, count);
    assert Slot(anchor, unit, count, 0) == anchor;
    forall k: nat
      ensures !Before(Slot(anchor, unit, count, k), anchor)
    {
      if k > 0 {
        SlotsIncrease(anchor, unit, count, 0, k);
      }
    }
    if IsSuccessor(anchor, unit, count, current, next) {
      var k: nat :| next == Slot(anchor, unit, count, k);
      if k > 0 {
        SlotsIncrease(anchor, unit, count, 0, k);
      }
    }
  }

  lemma {:induction false} StepToAnchor(anchor: Date, unit: IntervalUnit, count: int, current: Date)
    requires count >= 1 && Before(current, anchor)
    ensures Next(anchor, current, unit, count) == anchor <==> MeetsSchedule(anchor, unit, count, current)
  {
    hide DayNumber, AddMonthsClamped, AddDate, DaysIn;
    var next := Next(anchor, current, unit, count);
    if unit.Days? || unit.Weeks? {
      var s := if unit.Days? then count else 7 * count;
      AddDaysShifts(current, s);
      if DayNumber(next) == DayNumber(anchor) {
        SameNumberSameDate(next, anchor);
      }
    } else {
      var s := StepMonths(unit, count);
      if Index(anchor) < Index(current) {
        EarlierMonth(anchor, current);
      }
      var back := -MonthsElapsed(anchor, current);
      var index := FirstIndex(anchor, current, s);
      AddMonthsClampedLands(anchor, index * s);
      MonthsBack(back, s);
      if index == 0 {
        SlotZero(anchor, unit, count);
        assert index * s == 0 * StepMonths(unit, count);
      } else {
        assert index * s != 0;
      }
    }
  }

  lemma MonthsBack(back: int, s: int)
    requires s >= 1 && back >= 0
    ensures GoDiv(-back, s) + 1 == 0 <==> s <= back < 2 * s
  {
    DivMod(back, s);
    if s <= back < 2 * s {
      assert (back / s) * s > 0 && (back / s) * s < 2 * s;
    }
  }

  /**
   nextRecurringDate is the earliest later date of the schedule exactly when `current` meets the schedule;
   otherwise it steps over a date, or leaves the schedule.
   */
  lemma {:induction false} SuccessorExactlyWhen(anchor: Date, unit: IntervalUnit, count: int, current: Date)
    requires count >= 1
    ensures IsSuccessor(anchor, unit, count, current, Next(anchor, current, unit, count))
            <==> MeetsSchedule(anchor, unit, count, current)
  {
    hide IsSuccessor, MeetsSchedule, DayNumber;
    if Before(current, anchor) {
      AnchorComesFirst(anchor, unit, count, current, Next(anchor, current, unit, count));
      StepToAnchor(anchor, unit, count, current);
    } else if unit.Days? || unit.Weeks? {
      DaySuccessor(anchor, unit, count, current);
    } else {
      if Index(current) < Index(anchor) {
        EarlierMonth(current, anchor);
      }
      MonthSuccessor(anchor, unit, count, current);
    }
  }

  /** From 10 February on a schedule of month ends, the 28 February date is stepped over. */
  lemma {:induction false} SkipsAnAnchoredDate()
    ensures !IsSuccessor(Civil(2027, 1, 31), Months, 1, Civil(2027, 2, 10),
                         Next(Civil(2027, 1, 31), Civil(2027, 2, 10), Months, 1))
  {
    hide IsSuccessor, Next, DaysIn, MonthStart;
    EarlierMonth(Civil(2027, 1, 31), Civil(2027, 2, 10));
    MonthSuccessor(Civil(2027, 1, 31), Months, 1, Civil(2027, 2, 10));
    DaysInMonth(2027, 2);
  }
}
