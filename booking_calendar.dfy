/** The booking calendar: the grid of days shown for a month, month
    navigation, which days can be picked, what a click does, and the split of
    the day's slots into morning, afternoon and evening. Days are calendar
    dates; the time of day a `Date` object carries is not modelled. */
module BookingCalendar {
  import opened Common
  import opened CivilDate

  // ---------------------------------------------------------------------
  // Day arithmetic
  // ---------------------------------------------------------------------

  function StartOfMonth(d: Date): (r: Date)
    requires Valid(d)
    ensures Valid(r)
  {
    Date(d.year, d.month, 1)
  }

  function EndOfMonth(d: Date): (r: Date)
    requires Valid(d)
    ensures Valid(r)
  {
    Date(d.year, d.month, DaysInMonth(d.year, d.month))
  }

  /** `addDays(d, n)` for `n >= 0`. */
  function AddDays(d: Date, n: nat): (r: Date)
    requires Valid(d)
    ensures Valid(r)
    decreases n
  {
    if n == 0 then d else NextDay(AddDays(d, n - 1))
  }

  /** Going back `n` days. */
  function SubDays(d: Date, n: nat): (r: Date)
    requires Valid(d)
    ensures Valid(r)
    decreases n
  {
    if n == 0 then d else PrevDay(SubDays(d, n - 1))
  }

  lemma NextOfPrev(d: Date)
    requires Valid(d)
    ensures NextDay(PrevDay(d)) == d
  {
    NextDayIs(PrevDay(d));
  }

  lemma {:induction false} AddDaysAdd(d: Date, a: nat, b: nat)
    requires Valid(d)
    ensures AddDays(AddDays(d, a), b) == AddDays(d, a + b)
    decreases b
  {
    if b > 0 {
      AddDaysAdd(d, a, b - 1);
    }
  }

  lemma {:induction false} AddAfterSub(d: Date, k: nat)
    requires Valid(d)
    ensures AddDays(SubDays(d, k), k) == d
    decreases k
  {
    if k > 0 {
      var x := SubDays(d, k - 1);
      AddDaysAdd(PrevDay(x), 1, k - 1);
      NextOfPrev(x);
      AddAfterSub(d, k - 1);
    }
  }

  /** Counting days from the first of a month stays in that month. */
  lemma {:induction false} DaysOfMonth(y: int, m: int, k: int)
    requires 1 <= m <= 12 && 1 <= k <= DaysInMonth(y, m)
    ensures AddDays(Date(y, m, 1), k - 1) == Date(y, m, k)
    decreases k
  {
    if k > 1 {
      DaysOfMonth(y, m, k - 1);
      NextDayIs(Date(y, m, k - 1));
    }
  }

  lemma NextIsLater(d: Date)
    requires Valid(d)
    ensures LexLt(d, NextDay(d))
  {
    NextDayIs(d);
  }

  /** Later counts give later days. */
  lemma {:induction false} AddDaysOrdered(d: Date, i: nat, j: nat)
    requires Valid(d) && i < j
    ensures LexLt(AddDays(d, i), AddDays(d, j))
    decreases j
  {
    NextIsLater(AddDays(d, j - 1));
    if i < j - 1 {
      AddDaysOrdered(d, i, j - 1);
    }
  }

  lemma ModShift(x: int, k: int)
    ensures (x + k) % 7 == (x % 7 + k) % 7
  {
    var q := x / 7;
    assert x + k == 7 * q + (x % 7 + k);
  }

  lemma WeekdayOfNext(d: Date)
    requires Valid(d)
    ensures Weekday(NextDay(d)) == (Weekday(d) + 1) % 7
  {
    NextDayNumber(d);
    WeekdayNumber(d);
    WeekdayNumber(NextDay(d));
    ModShift(DayNumber(d) + 4, 1);
  }

  lemma WeekdayOfPrev(d: Date)
    requires Valid(d)
    ensures Weekday(PrevDay(d)) == (Weekday(d) + 6) % 7
  {
    PrevDayNumber(d);
    WeekdayNumber(d);
    WeekdayNumber(PrevDay(d));
    ModShift(DayNumber(d) + 4, -1);
    ModShift(Weekday(d) - 1, 7);
  }

  lemma {:induction false} WeekdayAfter(d: Date, n: nat)
    requires Valid(d)
    ensures Weekday(AddDays(d, n)) == (Weekday(d) + n) % 7
    decreases n
  {
    if n > 0 {
      WeekdayAfter(d, n - 1);
      WeekdayOfNext(AddDays(d, n - 1));
      ModShift(Weekday(d) + n - 1, 1);
    }
  }

  lemma {:induction false} WeekdayBefore(d: Date, n: nat)
    requires Valid(d)
    ensures Weekday(SubDays(d, n)) == (Weekday(d) + 6 * n) % 7
    decreases n
  {
    if n > 0 {
      WeekdayBefore(d, n - 1);
      WeekdayOfPrev(SubDays(d, n - 1));
      ModShift(Weekday(d) + 6 * (n - 1), 6);
    }
  }

  /** `startOfWeek` with the pt-BR locale, whose weeks start on Sunday:
      the Sunday on or before `d`. */
  function StartOfWeek(d: Date): (r: Date)
    requires Valid(d)
    ensures Valid(r) && Weekday(r) == 0 && AddDays(r, Weekday(d)) == d
  {
    WeekdayBefore(d, Weekday(d));
    ModShift(7 * Weekday(d), 0);
    AddAfterSub(d, Weekday(d));
    SubDays(d, Weekday(d))
  }

  /** `endOfWeek` with the pt-BR locale: the Saturday on or after `d`. */
  function EndOfWeek(d: Date): (r: Date)
    requires Valid(d)
    ensures Valid(r) && Weekday(r) == 6
  {
    WeekdayAfter(d, 6 - Weekday(d));
    AddDays(d, 6 - Weekday(d))
  }

  // ---------------------------------------------------------------------
  // The grid
  // ---------------------------------------------------------------------

  function CalendarStart(month: Date): (r: Date)
    requires Valid(month)
    ensures Valid(r)
  {
    StartOfWeek(StartOfMonth(month))
  }

  function CalendarEnd(month: Date): (r: Date)
    requires Valid(month)
    ensures Valid(r)
  {
    EndOfWeek(EndOfMonth(month))
  }

  /** The number of days from the grid's first Sunday to its last Saturday:
      whole weeks, four to six of them. */
  function GridLength(month: Date): (n: nat)
    requires Valid(month)
    ensures n % 7 == 0 && 28 <= n <= 42
  {
    WeeksSpanned(Weekday(StartOfMonth(month)), DaysInMonth(month.year, month.month))
  }

  /** A month of `dim` days starting on weekday `w`, padded to whole weeks. */
  function WeeksSpanned(w: int, dim: int): (n: nat)
    requires 0 <= w < 7 && 28 <= dim <= 31
    ensures n % 7 == 0 && 28 <= n <= 42 && w + dim <= n
  {
    var x := w + dim - 1;
    x - x % 7 + 7
  }

  /** The month's last day, counted from its first. */
  lemma MonthEnd(month: Date)
    requires Valid(month)
    ensures var dim := DaysInMonth(month.year, month.month);
            AddDays(StartOfMonth(month), dim - 1) == EndOfMonth(month)
            && Weekday(EndOfMonth(month)) == (Weekday(StartOfMonth(month)) + dim - 1) % 7
  {
    var dim := DaysInMonth(month.year, month.month);
    DaysOfMonth(month.year, month.month, dim);
    WeekdayAfter(StartOfMonth(month), dim - 1);
  }

  /** The grid's last day is the Saturday after the month's last day. */
  lemma GridEnd(month: Date)
    requires Valid(month)
    ensures AddDays(CalendarStart(month), GridLength(month) - 1) == CalendarEnd(month)
  {
    var ms := StartOfMonth(month);
    var me := EndOfMonth(month);
    var dim := DaysInMonth(month.year, month.month);
    MonthEnd(month);
    var gap := 6 - Weekday(me);
    var w := Weekday(ms);
    SpanAfterPadding(w, dim, gap);
    AddDaysChain(CalendarStart(month), ms, me, w, dim - 1, gap);
  }

  lemma SpanAfterPadding(w: int, dim: int, gap: int)
    requires 0 <= w < 7 && 28 <= dim <= 31 && gap == 6 - (w + dim - 1) % 7
    ensures WeeksSpanned(w, dim) - 1 == w + (dim - 1 + gap)
  {
  }

  lemma AddDaysChain(a: Date, b: Date, c: Date, i: nat, j: nat, k: nat)
    requires Valid(a) && AddDays(a, i) == b && AddDays(b, j) == c
    ensures AddDays(a, i + (j + k)) == AddDays(c, k)
  {
    AddDaysAdd(a, i, j + k);
    AddDaysAdd(b, j, k);
  }

  /** `n` consecutive days from `d`. */
  function Run(d: Date, n: nat): (r: seq<Date>)
    requires Valid(d)
    ensures |r| == n && forall i :: 0 <= i < n ==> Valid(r[i])
  {
    if n == 0 then [] else Run(d, n - 1) + [AddDays(d, n - 1)]
  }

  lemma {:induction false} RunIndex(d: Date, n: nat, i: nat)
    requires Valid(d) && i < n
    ensures Run(d, n)[i] == AddDays(d, i)
    decreases n
  {
    if i < n - 1 {
      RunIndex(d, n - 1, i);
    }
  }

  /** The days the calendar shows for the month of `month`. */
  function CalendarGrid(month: Date): (g: seq<Date>)
    requires Valid(month)
    ensures |g| == GridLength(month) && forall i :: 0 <= i < |g| ==> Valid(g[i])
  {
    Run(CalendarStart(month), GridLength(month))
  }

  /** The grid runs from a Sunday to a Saturday. */
  lemma GridShape(month: Date)
    requires Valid(month)
    ensures var g := CalendarGrid(month);
            Weekday(g[0]) == 0 && Weekday(g[|g| - 1]) == 6
  {
    var cs := CalendarStart(month);
    var n := GridLength(month);
    RunIndex(cs, n, 0);
    RunIndex(cs, n, n - 1);
    GridEnd(month);
  }

  /** Each day of the grid is the day after the one before it. */
  lemma GridConsecutive(month: Date)
    requires Valid(month)
    ensures var g := CalendarGrid(month);
            forall i :: 0 <= i < |g| - 1 ==> g[i + 1] == NextDay(g[i])
  {
    var g := CalendarGrid(month);
    assert g == Run(CalendarStart(month), GridLength(month));
    RunConsecutive(CalendarStart(month), GridLength(month));
  }

  lemma RunConsecutive(d: Date, n: nat)
    requires Valid(d)
    ensures forall i :: 0 <= i < n - 1 ==> Run(d, n)[i + 1] == NextDay(Run(d, n)[i])
  {
    forall i | 0 <= i < n - 1
      ensures Run(d, n)[i + 1] == NextDay(Run(d, n)[i])
    {
      RunIndex(d, n, i);
      RunIndex(d, n, i + 1);
    }
  }

  /** Every day of the month is in the grid, at the column of its weekday. */
  lemma GridCoversMonth(month: Date, k: int)
    requires Valid(month) && 1 <= k <= DaysInMonth(month.year, month.month)
    ensures var g := CalendarGrid(month);
            var i := Weekday(StartOfMonth(month)) + k - 1;
            i < |g| && g[i] == Date(month.year, month.month, k)
  {
    var ms := StartOfMonth(month);
    var cs := CalendarStart(month);
    var w := Weekday(ms);
    var n := GridLength(month);
    RunIndex(cs, n, w + k - 1);
    AddDaysAdd(cs, w, k - 1);
    DaysOfMonth(month.year, month.month, k);
  }

  /** The grid's first column holds Sundays, so it can never be picked. */
  lemma GridSundaysDisabled(month: Date, disabledDates: seq<Date>, i: nat)
    requires Valid(month) && i < |CalendarGrid(month)| && i % 7 == 0
    ensures IsDayDisabled(disabledDates, CalendarGrid(month)[i])
  {
    var cs := CalendarStart(month);
    RunIndex(cs, GridLength(month), i);
    WeekdayAfter(cs, i);
  }

  /** The walk's stopping test: the day `k` days into the grid is past its
      last day exactly when `k` is the grid's length. */
  lemma PastGridEnd(d: Date, n: nat, k: nat)
    requires Valid(d) && 1 <= n && k <= n
    ensures LexLt(AddDays(d, n - 1), AddDays(d, k)) <==> k == n
  {
    if k == n {
      NextIsLater(AddDays(d, n - 1));
    } else if k < n - 1 {
      AddDaysOrdered(d, k, n - 1);
    }
  }

  // ---------------------------------------------------------------------
  // Month navigation
  // ---------------------------------------------------------------------

  /** Months counted from year 0. */
  function MonthIndex(d: Date): int
  {
    d.year * 12 + (d.month - 1)
  }

  /** `addMonths(d, k)`: the same day `k` months on, or the last day of that
      month when it is shorter; `subMonths(d, k)` is `addMonths(d, -k)`. */
  function AddMonths(d: Date, k: int): (r: Date)
    requires Valid(d)
    ensures Valid(r)
    ensures MonthIndex(r) == MonthIndex(d) + k
    ensures r.day == if d.day <= DaysInMonth(r.year, r.month) then d.day else DaysInMonth(r.year, r.month)
    ensures k == 0 ==> r == d
  {
    var idx := MonthIndex(d) + k;
    var y := idx / 12;
    var m := idx % 12 + 1;
    var last := DaysInMonth(y, m);
    Date(y, m, if d.day <= last then d.day else last)
  }

  /** Going forward a month and back again shows the same grid, and gives
      back the very same day when it exists in every month. */
  lemma NavigationRoundTrip(d: Date)
    requires Valid(d)
    ensures var back := AddMonths(AddMonths(d, 1), -1);
            back.year == d.year && back.month == d.month
            && CalendarGrid(back) == CalendarGrid(d)
            && (d.day <= 28 ==> back == d)
  {
    var back := AddMonths(AddMonths(d, 1), -1);
    assert MonthIndex(back) == MonthIndex(d);
    assert back.year == d.year && back.month == d.month;
    assert StartOfMonth(back) == StartOfMonth(d);
    assert EndOfMonth(back) == EndOfMonth(d);
  }

  // ---------------------------------------------------------------------
  // Picking a day
  // ---------------------------------------------------------------------

  /** `disabledDates.some((d) => isSameDay(d, day))`. */
  function AnySameDay(disabledDates: seq<Date>, day: Date): (r: bool)
    ensures r <==> exists k :: 0 <= k < |disabledDates| && disabledDates[k] == day
  {
    if disabledDates == [] then false
    else disabledDates[0] == day || AnySameDay(disabledDates[1..], day)
  }

  /** `isDayDisabled`: Sundays, and the listed dates. */
  function IsDayDisabled(disabledDates: seq<Date>, day: Date): (r: bool)
    requires Valid(day)
    ensures r <==> Weekday(day) == 0 || day in disabledDates
  {
    Weekday(day) == 0 || AnySameDay(disabledDates, day)
  }

  /** `format(day, "yyyy-MM-dd")`: the year of the era (year 0 is 1 BC),
      padded to four digits. */
  function DayKey(d: Date): (s: string)
    requires Valid(d)
    ensures 1 <= d.year < 10000 ==> s == DateKey(d)
  {
    var y: nat := if d.year > 0 then d.year else 1 - d.year;
    (if y < 10000 then Pad4(y) else NatToString(y)) + "-" + Pad2(d.month) + "-" + Pad2(d.day)
  }

  /** The emitted key names the clicked day. */
  lemma DayKeyRoundTrip(d: Date)
    requires Valid(d) && 1 <= d.year < 10000
    ensures ParseDateKey(DayKey(d)) == Some(d)
  {
    DateKeyRoundTrip(d);
  }

  // ---------------------------------------------------------------------
  // The component's state
  // ---------------------------------------------------------------------

  class Calendar {
    var currentMonth: Date
    var selectedDate: Option<Date>
    const disabledDates: seq<Date>

    predicate WellFormed()
      reads this
    {
      Valid(currentMonth) && (selectedDate.Some? ==> Valid(selectedDate.value))
    }

    /** Opens on the month of `today` with nothing selected. */
    constructor (today: Date, disabledDates: seq<Date>)
      requires Valid(today)
      ensures WellFormed()
      ensures currentMonth == today && selectedDate == None && this.disabledDates == disabledDates
    {
      currentMonth := today;
      selectedDate := None;
      this.disabledDates := disabledDates;
    }

    /** `calendarDays`: the days pushed while walking from the grid's first
        day to its last. */
    method CalendarDays() returns (days: seq<Date>)
      requires WellFormed()
      ensures days == CalendarGrid(currentMonth)
    {
      var monthStart := StartOfMonth(currentMonth);
      var monthEnd := EndOfMonth(currentMonth);
      var calStart := StartOfWeek(monthStart);
      var calEnd := EndOfWeek(monthEnd);
      var total := GridLength(currentMonth);
      GridEnd(currentMonth);
      days := [];
      var day := calStart;
      PastGridEnd(calStart, total, 0);
      while !LexLt(calEnd, day)
        invariant Valid(day) && |days| <= total
        invariant days == Run(calStart, |days|) && day == AddDays(calStart, |days|)
        invariant LexLt(calEnd, day) <==> |days| == total
        decreases total - |days|
      {
        days := days + [day];
        day := NextDay(day);
        PastGridEnd(calStart, total, |days|);
      }
    }

    method GoToPrevMonth()
      requires WellFormed()
      modifies this
      ensures WellFormed()
      ensures currentMonth == AddMonths(old(currentMonth), -1) && selectedDate == old(selectedDate)
    {
      currentMonth := AddMonths(currentMonth, -1);
    }

    method GoToNextMonth()
      requires WellFormed()
      modifies this
      ensures WellFormed()
      ensures currentMonth == AddMonths(old(currentMonth), 1) && selectedDate == old(selectedDate)
    {
      currentMonth := AddMonths(currentMonth, 1);
    }

    /** `handleDayClick`: a day before `today` or a disabled day is ignored;
        any other day is selected and its key is passed on. */
    method HandleDayClick(day: Date, today: Date) returns (emitted: Option<string>)
      requires WellFormed() && Valid(day) && Valid(today)
      modifies this
      ensures WellFormed() && currentMonth == old(currentMonth)
      ensures LexLt(day, today) || IsDayDisabled(disabledDates, day) ==>
                emitted == None && selectedDate == old(selectedDate)
      ensures !(LexLt(day, today) || IsDayDisabled(disabledDates, day)) ==>
                emitted == Some(DayKey(day)) && selectedDate == Some(day) && Weekday(day) != 0
    {
      if LexLt(day, today) {
        return None;
      }
      if IsDayDisabled(disabledDates, day) {
        return None;
      }
      selectedDate := Some(day);
      emitted := Some(DayKey(day));
    }
  }

  // ---------------------------------------------------------------------
  // Slots by period
  // ---------------------------------------------------------------------

  datatype Period = Morning | Afternoon | Evening

  /** The period of an hour; a slot whose hour is not a number (an
      unparsable date gives `NaN`) fails both comparisons and lands in the
      evening. */
  function PeriodOf(hour: Option<int>): Period
  {
    if hour.Some? && hour.value < 12 then Morning
    else if hour.Some? && hour.value < 18 then Afternoon
    else Evening
  }

  /** The slots of one period, in their original order. */
  function InPeriod(slots: seq<string>, hourOf: string -> Option<int>, p: Period): (r: seq<string>)
    ensures |r| <= |slots|
  {
    if slots == [] then []
    else
      var last := slots[|slots| - 1];
      InPeriod(slots[..|slots| - 1], hourOf, p) + (if PeriodOf(hourOf(last)) == p then [last] else [])
  }

  /** A slot is listed under a period exactly when its hour falls in it. */
  lemma {:induction false} InPeriodMembers(slots: seq<string>, hourOf: string -> Option<int>, p: Period, s: string)
    ensures s in InPeriod(slots, hourOf, p) <==> s in slots && PeriodOf(hourOf(s)) == p
  {
    if slots != [] {
      var init := slots[..|slots| - 1];
      InPeriodMembers(init, hourOf, p, s);
      assert slots == init + [slots[|slots| - 1]];
    }
  }

  /** `groupedSlots`: one pass that pushes each slot onto the list of its
      period. `hourOf` stands for `new Date(slot).getHours()`. */
  method GroupSlots(slots: seq<string>, hourOf: string -> Option<int>)
    returns (morning: seq<string>, afternoon: seq<string>, evening: seq<string>)
    ensures morning == InPeriod(slots, hourOf, Morning)
    ensures afternoon == InPeriod(slots, hourOf, Afternoon)
    ensures evening == InPeriod(slots, hourOf, Evening)
  {
    morning, afternoon, evening := [], [], [];
    for i := 0 to |slots|
      invariant morning == InPeriod(slots[..i], hourOf, Morning)
      invariant afternoon == InPeriod(slots[..i], hourOf, Afternoon)
      invariant evening == InPeriod(slots[..i], hourOf, Evening)
    {
      assert slots[..i + 1][..i] == slots[..i];
      var slot := slots[i];
      var hour := hourOf(slot);
      if hour.Some? && hour.value < 12 {
        morning := morning + [slot];
      } else if hour.Some? && hour.value < 18 {
        afternoon := afternoon + [slot];
      } else {
        evening := evening + [slot];
      }
    }
    assert slots[..|slots|] == slots;
  }

  /** The periods split by hour: before noon, noon to 17h, 18h on. */
  lemma PeriodBounds(hour: int)
    ensures PeriodOf(Some(hour)) == Morning <==> hour < 12
    ensures PeriodOf(Some(hour)) == Afternoon <==> 12 <= hour < 18
    ensures PeriodOf(Some(hour)) == Evening <==> hour >= 18
  {
  }

  /** Every slot is in exactly one of the three lists, as often as it
      occurs in the input. */
  lemma {:induction false} GroupsPartition(slots: seq<string>, hourOf: string -> Option<int>)
    ensures multiset(InPeriod(slots, hourOf, Morning)) + multiset(InPeriod(slots, hourOf, Afternoon))
            + multiset(InPeriod(slots, hourOf, Evening)) == multiset(slots)
  {
    if slots != [] {
      var init := slots[..|slots| - 1];
      var last := slots[|slots| - 1];
      GroupsPartition(init, hourOf);
      assert slots == init + [last];
      var m, a, e := InPeriod(init, hourOf, Morning), InPeriod(init, hourOf, Afternoon), InPeriod(init, hourOf, Evening);
      var p := PeriodOf(hourOf(last));
      var m' := m + (if p == Morning then [last] else []);
      var a' := a + (if p == Afternoon then [last] else []);
      var e' := e + (if p == Evening then [last] else []);
      assert InPeriod(slots, hourOf, Morning) == m';
      assert InPeriod(slots, hourOf, Afternoon) == a';
      assert InPeriod(slots, hourOf, Evening) == e';
      StepMultiset(m, a, e, last, p);
    }
  }

  lemma StepMultiset(m: seq<string>, a: seq<string>, e: seq<string>, x: string, p: Period)
    ensures multiset(m + (if p == Morning then [x] else [])) + multiset(a + (if p == Afternoon then [x] else []))
            + multiset(e + (if p == Evening then [x] else [])) == multiset(m) + multiset(a) + multiset(e) + multiset{x}
  {
  }
}
