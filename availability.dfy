/** The availability settings actions: the weekly working hours (one row
    per organization and weekday), the break (one row per organization) and
    the unavailable days, each behind its input schema. */
module Availability {
  import opened Common
  import opened Domain
  import opened CivilDate
  import SlotEngine

  /** `getOrgIdAsync` throws this when no organization is signed in. */
  const OrgNotFound := "Organização não encontrada"

  /** `z.string().time("HH:mm")`: the argument is the check's error message. */
  const TimeMessage := "HH:mm"
  const HoursOrderMessage := "A hora de término deve ser posterior à hora de início"
  const BreakOrderMessage := "A hora de término do intervalo deve ser posterior à hora de início"
  const WorkingHoursSaved := "Horários de trabalho atualizados com sucesso!"
  const BreakSaved := "Intervalo de almoço atualizado com sucesso!"
  /** zod's default message for a failed `.date()`. */
  const InvalidDate := "Invalid date"
  const PastDate := "Não é possível adicionar uma data no passado"
  const DuplicateDate := "Esta data já foi adicionada como indisponível"
  const DayAdded := "Dia indisponível adicionado com sucesso!"
  const DayNotFound := "Dia indisponível não encontrado"
  const DayRemoved := "Dia indisponível removido com sucesso!"

  // ---------------------------------------------------------------------
  // updateWorkingHoursSchema
  // ---------------------------------------------------------------------

  /** The schema's keys, in declaration order, and the `daysMap` enum each
      one is stored under. */
  const DayKeys: seq<string> := ["monday", "tuesday", "wednesday", "thursday", "friday", "saturday", "sunday"]
  const Days: seq<DayOfWeek> := [MONDAY, TUESDAY, WEDNESDAY, THURSDAY, FRIDAY, SATURDAY, SUNDAY]

  /** `daysMap` sends the i-th key to the i-th weekday of the Monday-first
      week, so the seven keys name the seven weekdays once each. */
  lemma DaysMapMonday(i: nat)
    requires i < 7
    ensures |DayKeys| == |Days| == 7
    ensures MondayIndex(Days[i]) == i
  {
  }

  lemma DaysMapCovers(w: DayOfWeek)
    ensures Days[MondayIndex(w)] == w
  {
  }

  /** The suffixes of a day's three field names. */
  const WorkingSuffix := "-isWorking"
  const StartSuffix := "-startTime"
  const EndSuffix := "-endTime"

  /** One day of the submitted week. */
  datatype DayInput = DayInput(isWorking: bool, startTime: string, endTime: string)

  /** The three fields of one day, `"<key>-isWorking"` compared with `"true"`
      and the two times through `String(...)`. */
  function ParseDay(form: Form, key: string): (d: DayInput)
    ensures d.isWorking <==> key + WorkingSuffix in form && form[key + WorkingSuffix] == "true"
  {
    DayInput(key + WorkingSuffix in form && form[key + WorkingSuffix] == "true",
             FormText(form, key + StartSuffix), FormText(form, key + EndSuffix))
  }

  /** The `data` object of `updateWorkingHours`, Monday first. */
  function ParseWeek(form: Form): (week: seq<DayInput>)
    ensures |week| == 7
    ensures forall i :: 0 <= i < 7 ==> week[i] == ParseDay(form, DayKeys[i])
  {
    seq(7, i requires 0 <= i < 7 => ParseDay(form, DayKeys[i]))
  }

  /** Both times of every day pass `.time("HH:mm")`; zod checks them whether
      or not the day is worked. */
  predicate WeekTimesOk(week: seq<DayInput>, isTime: string -> bool)
  {
    forall i :: 0 <= i < |week| ==> isTime(week[i].startTime) && isTime(week[i].endTime)
  }

  /** The refinement: `day.isWorking && day.startTime >= day.endTime` fails,
      with `>=` on strings. */
  predicate WorkingDaysOrdered(week: seq<DayInput>)
  {
    forall i :: 0 <= i < |week| ==> week[i].isWorking ==> StrLt(week[i].startTime, week[i].endTime)
  }

  /** The message of the first zod issue, or None when the parse succeeds.
      Field issues come before the refinement's one. */
  function WeekError(week: seq<DayInput>, isTime: string -> bool): (r: Option<string>)
    ensures r.None? <==> WeekTimesOk(week, isTime) && WorkingDaysOrdered(week)
    ensures r == Some(HoursOrderMessage) <==> WeekTimesOk(week, isTime) && !WorkingDaysOrdered(week)
  {
    if !WeekTimesOk(week, isTime) then Some(TimeMessage)
    else if !WorkingDaysOrdered(week) then Some(HoursOrderMessage)
    else None
  }

  /** A day that is not worked is never checked for order: changing its
      times (to values `.time` accepts) does not change the verdict. */
  lemma NonWorkingDayUnchecked(week: seq<DayInput>, i: nat, start: string, end: string, isTime: string -> bool)
    requires i < |week| && !week[i].isWorking && isTime(start) && isTime(end)
    requires isTime(week[i].startTime) && isTime(week[i].endTime)
    ensures WeekError(week[i := DayInput(false, start, end)], isTime) == WeekError(week, isTime)
  {
    var week2 := week[i := DayInput(false, start, end)];
    assert WeekTimesOk(week2, isTime) <==> WeekTimesOk(week, isTime) by {
      if WeekTimesOk(week, isTime) {
        forall j | 0 <= j < |week2| ensures isTime(week2[j].startTime) && isTime(week2[j].endTime) {
          if j != i { assert week2[j] == week[j]; }
        }
      }
      if WeekTimesOk(week2, isTime) {
        forall j | 0 <= j < |week| ensures isTime(week[j].startTime) && isTime(week[j].endTime) {
          if j != i { assert week2[j] == week[j]; }
        }
      }
    }
    assert WorkingDaysOrdered(week2) <==> WorkingDaysOrdered(week) by {
      if WorkingDaysOrdered(week) {
        forall j | 0 <= j < |week2| && week2[j].isWorking ensures StrLt(week2[j].startTime, week2[j].endTime) {
          assert j != i && week2[j] == week[j];
        }
      }
      if WorkingDaysOrdered(week2) {
        forall j | 0 <= j < |week| && week[j].isWorking ensures StrLt(week[j].startTime, week[j].endTime) {
          assert j != i && week2[j] == week[j];
        }
      }
    }
  }

  /** For zero-padded `HH:mm` times an accepted working day has a window of
      positive length in minutes, which is what the slot generator needs. */
  lemma AcceptedDayHasWindow(week: seq<DayInput>, isTime: string -> bool, i: nat,
                             h1: nat, m1: nat, h2: nat, m2: nat)
    requires WeekError(week, isTime).None? && i < |week| && week[i].isWorking
    requires h1 < 24 && m1 < 60 && h2 < 24 && m2 < 60
    requires week[i].startTime == SlotEngine.HHmm(h1, m1) && week[i].endTime == SlotEngine.HHmm(h2, m2)
    ensures h1 * 60 + m1 < h2 * 60 + m2
  {
    SlotEngine.HHmmOrder(h1, m1, h2, m2);
  }

  /** The row `updateWorkingHours` writes for one day. */
  function RowFor(org: OrgId, w: DayOfWeek, week: seq<DayInput>): (row: WorkingHours)
    requires |week| == 7
    ensures row.organizationId == org && row.dayOfWeek == w
  {
    var d := week[MondayIndex(w)];
    WorkingHours(org, w, d.isWorking, d.startTime, d.endTime)
  }

  /** The working-hours table after the loop has written its first `n`
      days for `org`. */
  function WriteWeek(rows: map<(OrgId, DayOfWeek), WorkingHours>, org: OrgId, week: seq<DayInput>, n: nat)
    : map<(OrgId, DayOfWeek), WorkingHours>
    requires |week| == 7 && n <= 7
  {
    if n == 0 then rows else WriteWeek(rows, org, week, n - 1)[(org, Days[n - 1]) := RowFor(org, Days[n - 1], week)]
  }

  /** After `n` steps every weekday among the first `n` holds its submitted
      row, and every other key is as before. */
  lemma {:induction false} WriteWeekSpec(rows: map<(OrgId, DayOfWeek), WorkingHours>, org: OrgId,
                                         week: seq<DayInput>, n: nat)
    requires |week| == 7 && n <= 7
    ensures forall w :: MondayIndex(w) < n ==>
              (org, w) in WriteWeek(rows, org, week, n) && WriteWeek(rows, org, week, n)[(org, w)] == RowFor(org, w, week)
    ensures forall o, w :: (o, w) in WriteWeek(rows, org, week, n) <==> (o, w) in rows || (o == org && MondayIndex(w) < n)
    ensures forall o, w :: (o, w) in rows && !(o == org && MondayIndex(w) < n) ==>
              WriteWeek(rows, org, week, n)[(o, w)] == rows[(o, w)]
  {
    if n > 0 {
      WriteWeekSpec(rows, org, week, n - 1);
      DaysMapMonday(n - 1);
    }
  }

  // ---------------------------------------------------------------------
  // updateBreakTimeSchema
  // ---------------------------------------------------------------------

  /** The first issue of the break schema: the two time formats, then
      `startTime < endTime`. */
  function BreakError(startTime: string, endTime: string, isTime: string -> bool): (r: Option<string>)
    ensures r.None? <==> isTime(startTime) && isTime(endTime) && StrLt(startTime, endTime)
    ensures r == Some(BreakOrderMessage) <==> isTime(startTime) && isTime(endTime) && !StrLt(startTime, endTime)
  {
    if !isTime(startTime) || !isTime(endTime) then Some(TimeMessage)
    else if !StrLt(startTime, endTime) then Some(BreakOrderMessage)
    else None
  }

  /** The break table holds at most one row per organization (its
      `organizationId` is unique). */
  predicate OneBreakPerOrg(rows: seq<BreakTime>)
  {
    forall i, j :: 0 <= i < j < |rows| ==> rows[i].organizationId != rows[j].organizationId
  }

  /** `prisma.breakTime.upsert` keyed by organization: the row of that
      organization is replaced in place, or a new row is added at the end. */
  function UpsertBreak(rows: seq<BreakTime>, b: BreakTime): (r: seq<BreakTime>)
    decreases |rows|
  {
    if rows == [] then [b]
    else if rows[0].organizationId == b.organizationId then [b] + rows[1..]
    else [rows[0]] + UpsertBreak(rows[1..], b)
  }

  /** After the upsert the organization's break is the new one, every other
      organization's rows are as before, and no organization gains a second
      row. */
  lemma {:induction false} UpsertBreakSpec(rows: seq<BreakTime>, b: BreakTime)
    ensures b in UpsertBreak(rows, b)
    ensures forall x :: x in UpsertBreak(rows, b) && x.organizationId != b.organizationId <==>
                        x in rows && x.organizationId != b.organizationId
    ensures OneBreakPerOrg(rows) ==> OneBreakPerOrg(UpsertBreak(rows, b))
    ensures OneBreakPerOrg(rows) ==>
              forall x :: x in UpsertBreak(rows, b) && x.organizationId == b.organizationId ==> x == b
    decreases |rows|
  {
    if rows != [] && rows[0].organizationId != b.organizationId {
      var tail := UpsertBreak(rows[1..], b);
      UpsertBreakSpec(rows[1..], b);
      assert UpsertBreak(rows, b) == [rows[0]] + tail;
      assert forall x :: x in rows <==> x == rows[0] || x in rows[1..];
      if OneBreakPerOrg(rows) {
        assert OneBreakPerOrg(rows[1..]) by {
          forall i, j | 0 <= i < j < |rows[1..]|
            ensures rows[1..][i].organizationId != rows[1..][j].organizationId
          {
            assert rows[1..][i] == rows[i + 1] && rows[1..][j] == rows[j + 1];
          }
        }
        forall j | 0 < j < |UpsertBreak(rows, b)|
          ensures UpsertBreak(rows, b)[0].organizationId != UpsertBreak(rows, b)[j].organizationId
        {
          var x := tail[j - 1];
          assert x in tail;
          if x.organizationId != b.organizationId {
            assert x in rows[1..];
            var k :| 0 <= k < |rows[1..]| && rows[1..][k] == x;
            assert rows[k + 1] == x;
          }
        }
      }
    } else if rows != [] {
      assert forall x :: x in rows <==> x == rows[0] || x in rows[1..];
      if OneBreakPerOrg(rows) {
        forall x | x in rows[1..] ensures x.organizationId != b.organizationId {
          var k :| 0 <= k < |rows[1..]| && rows[1..][k] == x;
          assert rows[k + 1] == x;
        }
      }
    }
  }

  // ---------------------------------------------------------------------
  // addUnavailableDaySchema and the unavailable-day table
  // ---------------------------------------------------------------------

  /** An unavailable-day row; `date` is the local midnight the action built. */
  datatype UnavailableDay = UnavailableDay(id: string, organizationId: OrgId, date: Date, reason: Option<string>)

  /** `new Date(year, month - 1, day)`: JavaScript reads a year 0..99 as
      1900..1999, which moves 29 February of year 0 (a leap year) to
      1 March 1900. */
  function LocalDate(d: Date): (r: Date)
    requires Valid(d)
    ensures Valid(r)
    ensures d.year >= 100 ==> r == d
  {
    if d.year >= 100 then d
    else if d.month == 2 && d.day == 29 && !IsLeap(1900 + d.year) then Date(1900 + d.year, 3, 1)
    else Date(1900 + d.year, d.month, d.day)
  }

  /** The table's unique keys: the row id, and (organization, date). */
  predicate UniqueDays(rows: seq<UnavailableDay>)
  {
    forall i, j :: 0 <= i < j < |rows| ==> DaysDiffer(rows[i], rows[j])
  }

  predicate DaysDiffer(a: UnavailableDay, b: UnavailableDay)
  {
    a.id != b.id && (a.organizationId != b.organizationId || a.date != b.date)
  }

  predicate HasDay(rows: seq<UnavailableDay>, org: OrgId, date: Date)
  {
    exists i :: 0 <= i < |rows| && rows[i].organizationId == org && rows[i].date == date
  }

  /** `findUnique({ where: { id } })` finds a row of the organization. */
  predicate OwnsDay(rows: seq<UnavailableDay>, id: string, org: OrgId)
  {
    exists i :: 0 <= i < |rows| && rows[i].id == id && rows[i].organizationId == org
  }

  predicate HasDayId(rows: seq<UnavailableDay>, id: string)
  {
    exists i :: 0 <= i < |rows| && rows[i].id == id
  }

  /** `delete({ where: { id } })`. */
  function WithoutId(rows: seq<UnavailableDay>, id: string): (r: seq<UnavailableDay>)
    ensures forall x :: x in r <==> x in rows && x.id != id
    ensures |r| <= |rows|
  {
    if rows == [] then []
    else
      assert forall x :: x in rows <==> x == rows[0] || x in rows[1..];
      (if rows[0].id == id then [] else [rows[0]]) + WithoutId(rows[1..], id)
  }

  /** Appending a row whose id and (organization, date) are new keeps both
      unique keys. */
  lemma AddKeepsUniqueDays(rows: seq<UnavailableDay>, x: UnavailableDay)
    requires UniqueDays(rows) && !HasDayId(rows, x.id) && !HasDay(rows, x.organizationId, x.date)
    ensures UniqueDays(rows + [x])
  {
    var r := rows + [x];
    forall i, j | 0 <= i < j < |r| ensures DaysDiffer(r[i], r[j])
    {
      if j == |rows| {
        assert r[i] == rows[i] && r[j] == x;
      } else {
        assert r[i] == rows[i] && r[j] == rows[j];
      }
    }
  }

  lemma UniqueDaysTail(rows: seq<UnavailableDay>)
    requires UniqueDays(rows) && rows != []
    ensures UniqueDays(rows[1..])
    ensures forall x :: x in rows[1..] ==> DaysDiffer(rows[0], x)
  {
    forall i, j | 0 <= i < j < |rows[1..]| ensures DaysDiffer(rows[1..][i], rows[1..][j])
    {
      assert rows[1..][i] == rows[i + 1] && rows[1..][j] == rows[j + 1];
    }
    forall x | x in rows[1..] ensures DaysDiffer(rows[0], x)
    {
      var k :| 0 <= k < |rows[1..]| && rows[1..][k] == x;
      assert rows[k + 1] == x;
    }
  }

  lemma UniqueDaysCons(x: UnavailableDay, tail: seq<UnavailableDay>)
    requires UniqueDays(tail) && forall y :: y in tail ==> DaysDiffer(x, y)
    ensures UniqueDays([x] + tail)
  {
    var r := [x] + tail;
    forall i, j | 0 <= i < j < |r| ensures DaysDiffer(r[i], r[j])
    {
      assert r[j] == tail[j - 1];
      if i > 0 {
        assert r[i] == tail[i - 1];
      } else {
        assert r[j] in tail;
      }
    }
  }

  /** Deleting rows keeps the keys unique. */
  lemma {:induction false} RemoveKeepsUniqueDays(rows: seq<UnavailableDay>, id: string)
    requires UniqueDays(rows)
    ensures UniqueDays(WithoutId(rows, id))
    decreases |rows|
  {
    if rows != [] {
      UniqueDaysTail(rows);
      RemoveKeepsUniqueDays(rows[1..], id);
      var tail := WithoutId(rows[1..], id);
      if rows[0].id != id {
        assert WithoutId(rows, id) == [rows[0]] + tail;
        UniqueDaysCons(rows[0], tail);
      } else {
        assert WithoutId(rows, id) == tail;
      }
    }
  }

  /** The three tables the actions write. */
  class AvailabilityStore {
    var workingHours: map<(OrgId, DayOfWeek), WorkingHours>
    var breakTimes: seq<BreakTime>
    var unavailableDays: seq<UnavailableDay>

    constructor(hours: map<(OrgId, DayOfWeek), WorkingHours>, breaks: seq<BreakTime>, days: seq<UnavailableDay>)
      ensures workingHours == hours && breakTimes == breaks && unavailableDays == days
    {
      workingHours := hours;
      breakTimes := breaks;
      unavailableDays := days;
    }

    /** `updateWorkingHours`: the signed-in organization is a parameter
        (None when there is none). On success every weekday of that
        organization holds the submitted row; nothing else changes. */
    method UpdateWorkingHours(orgId: Option<OrgId>, form: Form, isTime: string -> bool) returns (r: Response)
      modifies this
      ensures orgId.None? ==> r == Failure(OrgNotFound) && workingHours == old(workingHours)
      ensures orgId.Some? && WeekError(ParseWeek(form), isTime).Some? ==>
                r == Failure(WeekError(ParseWeek(form), isTime).value) && workingHours == old(workingHours)
      ensures orgId.Some? && WeekError(ParseWeek(form), isTime).None? ==>
                r == Success(WorkingHoursSaved)
                && workingHours == WriteWeek(old(workingHours), orgId.value, ParseWeek(form), 7)
                && (forall w :: (orgId.value, w) in workingHours
                                && workingHours[(orgId.value, w)] == RowFor(orgId.value, w, ParseWeek(form)))
                && (forall o, w :: o != orgId.value ==> ((o, w) in workingHours <==> (o, w) in old(workingHours)))
                && (forall o, w :: o != orgId.value && (o, w) in old(workingHours) ==>
                                   workingHours[(o, w)] == old(workingHours)[(o, w)])
      ensures breakTimes == old(breakTimes) && unavailableDays == old(unavailableDays)
    {
      if orgId.None? {
        return Failure(OrgNotFound);
      }
      var org := orgId.value;
      var week := ParseWeek(form);
      var err := WeekError(week, isTime);
      if err.Some? {
        return Failure(err.value);
      }
      for i := 0 to 7
        invariant workingHours == WriteWeek(old(workingHours), org, week, i)
        invariant breakTimes == old(breakTimes) && unavailableDays == old(unavailableDays)
      {
        var day := Days[i];
        DaysMapMonday(i);
        var d := week[i];
        workingHours := workingHours[(org, day) := WorkingHours(org, day, d.isWorking, d.startTime, d.endTime)];
      }
      WriteWeekSpec(old(workingHours), org, week, 7);
      return Success(WorkingHoursSaved);
    }

    /** `updateBreakTime`. */
    method UpdateBreakTime(orgId: Option<OrgId>, form: Form, isTime: string -> bool) returns (r: Response)
      modifies this
      ensures var s, e := FormText(form, "breakStartTime"), FormText(form, "breakEndTime");
              if orgId.None? then r == Failure(OrgNotFound) && breakTimes == old(breakTimes)
              else if BreakError(s, e, isTime).Some? then
                r == Failure(BreakError(s, e, isTime).value) && breakTimes == old(breakTimes)
              else
                r == Success(BreakSaved) && breakTimes == UpsertBreak(old(breakTimes), BreakTime(orgId.value, s, e))
      ensures old(OneBreakPerOrg(breakTimes)) ==> OneBreakPerOrg(breakTimes)
      ensures workingHours == old(workingHours) && unavailableDays == old(unavailableDays)
    {
      if orgId.None? {
        return Failure(OrgNotFound);
      }
      var s, e := FormText(form, "breakStartTime"), FormText(form, "breakEndTime");
      var err := BreakError(s, e, isTime);
      if err.Some? {
        return Failure(err.value);
      }
      UpsertBreakSpec(breakTimes, BreakTime(orgId.value, s, e));
      breakTimes := UpsertBreak(breakTimes, BreakTime(orgId.value, s, e));
      return Success(BreakSaved);
    }

    /** `addUnavailableDay`. `today` is the day number of the local date
        now; the new row id is a parameter. A date before today is refused,
        today itself is accepted, and a date already blocked for the
        organization trips the unique constraint. */
    method AddUnavailableDay(orgId: Option<OrgId>, form: Form, today: int, newId: string) returns (r: Response)
      modifies this
      requires !HasDayId(unavailableDays, newId)
      ensures var parsed := ParseDateKey(FormText(form, "date"));
              if orgId.None? then r == Failure(OrgNotFound) && unavailableDays == old(unavailableDays)
              else if parsed.None? then r == Failure(InvalidDate) && unavailableDays == old(unavailableDays)
              else if DayNumber(LocalDate(parsed.value)) < today then
                r == Failure(PastDate) && unavailableDays == old(unavailableDays)
              else if HasDay(old(unavailableDays), orgId.value, LocalDate(parsed.value)) then
                r == Failure(DuplicateDate) && unavailableDays == old(unavailableDays)
              else
                r == Success(DayAdded)
                && unavailableDays == old(unavailableDays) +
                     [UnavailableDay(newId, orgId.value, LocalDate(parsed.value),
                                     OrNull(if "reason" in form then Some(form["reason"]) else None))]
      ensures old(UniqueDays(unavailableDays)) ==> UniqueDays(unavailableDays)
      ensures workingHours == old(workingHours) && breakTimes == old(breakTimes)
    {
      if orgId.None? {
        return Failure(OrgNotFound);
      }
      var parsed := ParseDateKey(FormText(form, "date"));
      if parsed.None? {
        return Failure(InvalidDate);
      }
      var selected := LocalDate(parsed.value);
      if DayNumber(selected) < today {
        return Failure(PastDate);
      }
      if HasDay(unavailableDays, orgId.value, selected) {
        return Failure(DuplicateDate);
      }
      var reason := OrNull(if "reason" in form then Some(form["reason"]) else None);
      var row := UnavailableDay(newId, orgId.value, selected, reason);
      if UniqueDays(unavailableDays) {
        AddKeepsUniqueDays(unavailableDays, row);
      }
      unavailableDays := unavailableDays + [row];
      return Success(DayAdded);
    }

    /** `removeUnavailableDay`: only a row that exists and belongs to the
        caller's organization is deleted. */
    method RemoveUnavailableDay(orgId: Option<OrgId>, dayId: string) returns (r: Response)
      modifies this
      requires UniqueDays(unavailableDays)
      ensures orgId.None? ==> r == Failure(OrgNotFound) && unavailableDays == old(unavailableDays)
      ensures orgId.Some? ==>
                if OwnsDay(old(unavailableDays), dayId, orgId.value) then
                  r == Success(DayRemoved) && unavailableDays == WithoutId(old(unavailableDays), dayId)
                else
                  r == Failure(DayNotFound) && unavailableDays == old(unavailableDays)
      ensures UniqueDays(unavailableDays)
      ensures workingHours == old(workingHours) && breakTimes == old(breakTimes)
    {
      if orgId.None? {
        return Failure(OrgNotFound);
      }
      var i := 0;
      while i < |unavailableDays| && unavailableDays[i].id != dayId
        invariant 0 <= i <= |unavailableDays|
        invariant forall k :: 0 <= k < i ==> unavailableDays[k].id != dayId
      {
        i := i + 1;
      }
      if i == |unavailableDays| || unavailableDays[i].organizationId != orgId.value {
        if i < |unavailableDays| {
          forall k | 0 <= k < |unavailableDays| && unavailableDays[k].id == dayId
            ensures unavailableDays[k].organizationId != orgId.value
          {
            if k != i {
              assert false;
            }
          }
        }
        return Failure(DayNotFound);
      }
      RemoveKeepsUniqueDays(unavailableDays, dayId);
      unavailableDays := WithoutId(unavailableDays, dayId);
      return Success(DayRemoved);
    }
  }
}
