/** The weekly working-hours form: one row per weekday, Monday first, each
    showing the stored hours of that day or the defaults, with a switch that
    enables the day's time inputs. The form posts to the working-hours
    update action. */
module WorkingHoursForm {
  import opened Common
  import opened Domain
  import Availability

  /** One entry of `DAYS_OF_WEEK`. */
  datatype DayEntry = DayEntry(key: string, caption: string, enumName: string)

  const DaysOfWeek: seq<DayEntry> := [
    DayEntry("monday", "Segunda-feira", "MONDAY"),
    DayEntry("tuesday", "Terça-feira", "TUESDAY"),
    DayEntry("wednesday", "Quarta-feira", "WEDNESDAY"),
    DayEntry("thursday", "Quinta-feira", "THURSDAY"),
    DayEntry("friday", "Sexta-feira", "FRIDAY"),
    DayEntry("saturday", "Sábado", "SATURDAY"),
    DayEntry("sunday", "Domingo", "SUNDAY")]

  /** The rows follow the server's day order: the i-th key is the key the
      action reads for the i-th weekday, and the i-th enumeration name is
      that weekday's. */
  lemma DaysOfWeekMatchServer(i: nat)
    requires i < 7
    ensures |DaysOfWeek| == 7
    ensures DaysOfWeek[i].key == Availability.DayKeys[i]
    ensures DaysOfWeek[i].enumName == DayName(Availability.Days[i])
  {
  }

  lemma KeysDistinct(i: nat, j: nat)
    requires i < 7 && j < 7 && i != j
    ensures DaysOfWeek[i].key != DaysOfWeek[j].key
  {
  }

  /** The hours shown for a day. */
  datatype Hours = Hours(isWorking: bool, startTime: string, endTime: string)

  const DefaultStart := "08:00"
  const DefaultEnd := "17:00"

  /** `DEFAULT_HOURS`, in `DAYS_OF_WEEK` order. */
  const DefaultHours: seq<Hours> := [
    Hours(true, DefaultStart, DefaultEnd), Hours(true, DefaultStart, DefaultEnd),
    Hours(true, DefaultStart, DefaultEnd), Hours(true, DefaultStart, DefaultEnd),
    Hours(true, DefaultStart, DefaultEnd), Hours(false, DefaultStart, DefaultEnd),
    Hours(false, DefaultStart, DefaultEnd)]

  /** Monday to Friday are worked from 08:00 to 17:00 by default; Saturday
      and Sunday are not worked. */
  lemma DefaultsWorkWeekdays(i: nat)
    requires i < 7
    ensures |DefaultHours| == 7
    ensures DefaultHours[i].isWorking <==> Availability.Days[i] != SATURDAY && Availability.Days[i] != SUNDAY
    ensures DefaultHours[i].startTime == DefaultStart && DefaultHours[i].endTime == DefaultEnd
  {
  }

  /** The default week passes the action's order check. */
  lemma DefaultsPassOrderCheck()
    ensures Availability.WorkingDaysOrdered(seq(7, i requires 0 <= i < 7 =>
              Availability.DayInput(DefaultHours[i].isWorking, DefaultHours[i].startTime, DefaultHours[i].endTime)))
  {
    assert StrLt(DefaultStart, DefaultEnd) by {
      assert DefaultStart[0] < DefaultEnd[0];
    }
  }

  /** The component's view of a working-hours row. */
  datatype HoursRow = HoursRow(dayOfWeek: string, startTime: string, endTime: string, isWorking: bool)

  /** `dayMap`: each row under its lowercased weekday; a later row for the
      same day overwrites an earlier one. */
  function DayMapOf(rows: seq<HoursRow>): map<string, HoursRow>
  {
    if rows == [] then map[]
    else DayMapOf(rows[..|rows| - 1])[Lower(rows[|rows| - 1].dayOfWeek) := rows[|rows| - 1]]
  }

  /** `dayMap` holds a key exactly when some row lowercases to it. */
  lemma {:induction false} DayMapDomain(rows: seq<HoursRow>, key: string)
    ensures key in DayMapOf(rows) <==> exists i :: 0 <= i < |rows| && Lower(rows[i].dayOfWeek) == key
    decreases |rows|
  {
    if rows != [] {
      var init := rows[..|rows| - 1];
      DayMapDomain(init, key);
      forall i | 0 <= i < |init| ensures init[i] == rows[i] { }
    }
  }

  /** The last row for a day is the one kept. */
  lemma {:induction false} DayMapLast(rows: seq<HoursRow>, key: string, k: nat)
    requires k < |rows| && Lower(rows[k].dayOfWeek) == key
    requires forall j :: k < j < |rows| ==> Lower(rows[j].dayOfWeek) != key
    ensures key in DayMapOf(rows) && DayMapOf(rows)[key] == rows[k]
    decreases |rows|
  {
    if k < |rows| - 1 {
      var init := rows[..|rows| - 1];
      DayMapLast(init, key, k);
    }
  }

  /** The `forEach` that builds `dayMap`. */
  method BuildDayMap(rows: seq<HoursRow>) returns (m: map<string, HoursRow>)
    ensures m == DayMapOf(rows)
  {
    m := map[];
    for i := 0 to |rows|
      invariant m == DayMapOf(rows[..i])
    {
      assert rows[..i + 1][..i] == rows[..i];
      m := m[Lower(rows[i].dayOfWeek) := rows[i]];
    }
    assert rows[..|rows|] == rows;
  }

  /** The hours a row shows: `dayMap[key] ?? DEFAULT_HOURS[key]`. */
  function RowData(dayMap: map<string, HoursRow>, i: nat): (h: Hours)
    requires i < 7
    ensures DaysOfWeek[i].key !in dayMap ==> h == DefaultHours[i]
  {
    var key := DaysOfWeek[i].key;
    if key in dayMap then Hours(dayMap[key].isWorking, dayMap[key].startTime, dayMap[key].endTime)
    else DefaultHours[i]
  }

  /** Rows as the database returns them name their day by the enumeration,
      whose lowercase is the row's key. */
  lemma DayNameLowersToKey(d: DayOfWeek)
    ensures Lower(DayName(d)) == Availability.DayKeys[MondayIndex(d)]
  {
    match d
    case MONDAY => assert Availability.DayKeys[0] == "monday"; LowerOfCapitals("MONDAY", "monday");
    case TUESDAY => assert Availability.DayKeys[1] == "tuesday"; LowerOfCapitals("TUESDAY", "tuesday");
    case WEDNESDAY => assert Availability.DayKeys[2] == "wednesday"; LowerOfCapitals("WEDNESDAY", "wednesday");
    case THURSDAY => assert Availability.DayKeys[3] == "thursday"; LowerOfCapitals("THURSDAY", "thursday");
    case FRIDAY => assert Availability.DayKeys[4] == "friday"; LowerOfCapitals("FRIDAY", "friday");
    case SATURDAY => assert Availability.DayKeys[5] == "saturday"; LowerOfCapitals("SATURDAY", "saturday");
    case SUNDAY => assert Availability.DayKeys[6] == "sunday"; LowerOfCapitals("SUNDAY", "sunday");
  }

  lemma EnumNameLowersToKey(i: nat)
    requires i < 7
    ensures Lower(DaysOfWeek[i].enumName) == DaysOfWeek[i].key
  {
    DaysOfWeekMatchServer(i);
    Availability.DaysMapMonday(i);
    DayNameLowersToKey(Availability.Days[i]);
  }

  predicate EnumNamed(row: HoursRow)
  {
    exists i :: 0 <= i < 7 && row.dayOfWeek == DaysOfWeek[i].enumName
  }

  /** With one stored row per weekday, each form row shows its own day's
      stored hours. */
  lemma StoredDayShown(rows: seq<HoursRow>, i: nat, k: nat)
    requires i < 7 && k < |rows|
    requires forall j :: 0 <= j < |rows| ==> EnumNamed(rows[j])
    requires forall j :: 0 <= j < |rows| && j != k ==> rows[j].dayOfWeek != rows[k].dayOfWeek
    requires rows[k].dayOfWeek == DaysOfWeek[i].enumName
    ensures RowData(DayMapOf(rows), i) == Hours(rows[k].isWorking, rows[k].startTime, rows[k].endTime)
  {
    var key := DaysOfWeek[i].key;
    EnumNameLowersToKey(i);
    forall j | k < j < |rows| ensures Lower(rows[j].dayOfWeek) != key {
      var m :| 0 <= m < 7 && rows[j].dayOfWeek == DaysOfWeek[m].enumName;
      EnumNameLowersToKey(m);
      if m != i {
        KeysDistinct(m, i);
      }
    }
    DayMapLast(rows, key, k);
  }

  /** `initialActive`: each day's switch starts at the shown `isWorking`. */
  method InitialActive(dayMap: map<string, HoursRow>) returns (state: map<string, bool>)
    ensures forall i :: 0 <= i < 7 ==> DaysOfWeek[i].key in state && state[DaysOfWeek[i].key] == RowData(dayMap, i).isWorking
    ensures forall k :: k in state ==> exists i :: 0 <= i < 7 && DaysOfWeek[i].key == k
  {
    state := map[];
    for n := 0 to 7
      invariant forall i :: 0 <= i < n ==> DaysOfWeek[i].key in state && state[DaysOfWeek[i].key] == RowData(dayMap, i).isWorking
      invariant forall k :: k in state ==> exists i :: 0 <= i < n && DaysOfWeek[i].key == k
    {
      forall i | 0 <= i < n ensures DaysOfWeek[i].key != DaysOfWeek[n].key {
        KeysDistinct(i, n);
      }
      state := state[DaysOfWeek[n].key := RowData(dayMap, n).isWorking];
    }
  }

  // ---------------------------------------------------------------------
  // The submitted fields
  // ---------------------------------------------------------------------

  /** The three field names of a day are `<key>` plus one of these. */
  const FieldSuffixes: seq<string> := [Availability.WorkingSuffix, Availability.StartSuffix, Availability.EndSuffix]

  /** The value the browser submits for field `f` of day `i`. The switch's
      hidden input carries `"true"` or `"false"`. An enabled time input
      submits what it holds (`typed`, or the shown value when untouched); a
      disabled one is not submitted, and the hidden copy carries the shown
      value instead. */
  function FieldValue(dayMap: map<string, HoursRow>, active: map<string, bool>, typed: Form, i: nat, f: nat): string
    requires i < 7 && f < 3
  {
    var key := DaysOfWeek[i].key;
    var on := key in active && active[key];
    var name := key + FieldSuffixes[f];
    var shown := RowData(dayMap, i);
    if f == 0 then (if on then "true" else "false")
    else if on && name in typed then typed[name]
    else if f == 1 then shown.startTime
    else shown.endTime
  }

  /** The form data of a submission carries three fields per day with
      these values. */
  predicate IsSubmission(form: Form, dayMap: map<string, HoursRow>, active: map<string, bool>, typed: Form)
  {
    forall i, f :: 0 <= i < 7 && 0 <= f < 3 ==>
      DaysOfWeek[i].key + FieldSuffixes[f] in form
      && form[DaysOfWeek[i].key + FieldSuffixes[f]] == FieldValue(dayMap, active, typed, i, f)
  }

  /** What the action reads for each day from a submission of this form:
      the switch's state, and the shown times of a disabled day. */
  lemma SubmissionReadBack(form: Form, dayMap: map<string, HoursRow>, active: map<string, bool>, typed: Form, i: nat)
    requires i < 7 && IsSubmission(form, dayMap, active, typed)
    ensures var day := Availability.ParseWeek(form)[i];
            var key := DaysOfWeek[i].key;
            (day.isWorking <==> key in active && active[key])
            && (!day.isWorking ==> day.startTime == RowData(dayMap, i).startTime
                                   && day.endTime == RowData(dayMap, i).endTime)
  {
    DaysOfWeekMatchServer(i);
    var key := DaysOfWeek[i].key;
    var w, st, en := key + FieldSuffixes[0], key + FieldSuffixes[1], key + FieldSuffixes[2];
    assert w in form && form[w] == FieldValue(dayMap, active, typed, i, 0);
    assert st in form && form[st] == FieldValue(dayMap, active, typed, i, 1);
    assert en in form && form[en] == FieldValue(dayMap, active, typed, i, 2);
    var day := Availability.ParseDay(form, key);
    assert Availability.ParseWeek(form)[i] == day;
    assert day == Availability.DayInput(form[w] == "true", form[st], form[en]);
  }

  /** The form's state: the rows it was given and the switches. */
  class HoursForm {
    var dayMap: map<string, HoursRow>
    var activeDays: map<string, bool>

    constructor(rows: seq<HoursRow>)
      ensures dayMap == DayMapOf(rows)
      ensures forall i :: 0 <= i < 7 ==>
                DaysOfWeek[i].key in activeDays && activeDays[DaysOfWeek[i].key] == RowData(dayMap, i).isWorking
    {
      var m := BuildDayMap(rows);
      var state := InitialActive(m);
      dayMap := m;
      activeDays := state;
    }

    /** The switch of day `i`: `onChange(!checked)` stores the flipped flag
        under that day's key only. */
    method Toggle(i: nat)
      modifies this
      requires i < 7
      ensures var key := DaysOfWeek[i].key;
              activeDays == old(activeDays)[key := !(key in old(activeDays) && old(activeDays)[key])]
      ensures dayMap == old(dayMap)
    {
      var key := DaysOfWeek[i].key;
      var checked := key in activeDays && activeDays[key];
      activeDays := activeDays[key := !checked];
    }
  }

  /** Toggling one day never changes what another day submits. */
  lemma ToggleOnlyThatDay(dayMap: map<string, HoursRow>, active: map<string, bool>, typed: Form, i: nat, j: nat, f: nat)
    requires i < 7 && j < 7 && f < 3 && i != j
    ensures var key := DaysOfWeek[i].key;
            FieldValue(dayMap, active[key := !(key in active && active[key])], typed, j, f)
            == FieldValue(dayMap, active, typed, j, f)
  {
    KeysDistinct(i, j);
  }
}
