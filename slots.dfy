/** The public slot endpoint (GET /api/slots) and the older slot generator
    kept in the booking actions: candidate start times are laid on a grid of
    the service's duration inside the working window, and a candidate
    survives only if it overlaps no break and no active booking. */
module SlotEngine {
  import opened Common
  import opened Domain
  import opened CivilDate

  /** A half-open interval [start, end) of minutes. */
  datatype Interval = Interval(start: int, end: int)

  // ---------------------------------------------------------------------
  // Helpers of the route
  // ---------------------------------------------------------------------

  /** `Number(part)` for the forms the time fields hold: a string of decimal
      digits (the empty string is 0); anything else is NaN (None). */
  function NumberOf(part: string): (r: Option<int>)
    ensures r.Some? <==> AllDigits(part)
    ensures r.Some? ==> r.value >= 0
  {
    if AllDigits(part) then Some(ParseDecimal(part)) else None
  }

  /** `timeToMinutes`: `split(":")`, both parts through `Number`, then
      `hours * 60 + minutes`; a missing minutes part gives NaN (None). */
  function TimeToMinutes(time: string): (r: Option<int>)
    ensures r.Some? ==> r.value >= 0
  {
    var parts := Split(time, ':');
    if |parts| < 2 then None
    else
      match (NumberOf(parts[0]), NumberOf(parts[1]))
      case (Some(h), Some(m)) => Some(h * 60 + m)
      case _ => None
  }

  /** The `HH:mm` text of a time of day. */
  function HHmm(h: nat, m: nat): (s: string)
    requires h < 24 && m < 60
    ensures |s| == 5 && s[2] == ':'
  {
    Pad2(h) + ":" + Pad2(m)
  }

  lemma {:induction false} SplitNoSep(s: string, sep: char)
    requires sep !in s
    ensures Split(s, sep) == [s]
    decreases |s|
  {
    if s != [] {
      SplitNoSep(s[1..], sep);
      assert [s[0]] + s[1..] == s;
    }
  }

  lemma {:induction false} SplitAt(a: string, sep: char, b: string)
    requires sep !in a
    ensures Split(a + [sep] + b, sep) == [a] + Split(b, sep)
    decreases |a|
  {
    if a == [] {
      assert a + [sep] + b == [sep] + b;
      assert ([sep] + b)[1..] == b;
    } else {
      assert (a + [sep] + b)[1..] == a[1..] + [sep] + b;
      SplitAt(a[1..], sep, b);
      assert [a[0]] + a[1..] == a;
    }
  }

  /** `timeToMinutes` reads back what `HH:mm` writes. */
  lemma TimeToMinutesHHmm(h: nat, m: nat)
    requires h < 24 && m < 60
    ensures TimeToMinutes(HHmm(h, m)) == Some(h * 60 + m)
  {
    var a, b := Pad2(h), Pad2(m);
    assert HHmm(h, m) == a + [':'] + b;
    assert ':' !in a && ':' !in b by {
      assert IsDigit(a[0]) && IsDigit(a[1]) && IsDigit(b[0]) && IsDigit(b[1]);
    }
    SplitAt(a, ':', b);
    SplitNoSep(b, ':');
    Pad2Parse(h);
    Pad2Parse(m);
  }

  /** The working-hours refinement compares `HH:mm` strings with `>=`; on
      zero-padded times string order is minute order. */
  lemma HHmmOrder(h1: nat, m1: nat, h2: nat, m2: nat)
    requires h1 < 24 && m1 < 60 && h2 < 24 && m2 < 60
    ensures StrLt(HHmm(h1, m1), HHmm(h2, m2)) <==> h1 * 60 + m1 < h2 * 60 + m2
  {
    assert HHmm(h1, m1) == Pad2(h1) + (":" + Pad2(m1));
    assert HHmm(h2, m2) == Pad2(h2) + (":" + Pad2(m2));
    StrLtConcat(Pad2(h1), ":" + Pad2(m1), Pad2(h2), ":" + Pad2(m2));
    StrLtConcat(":", Pad2(m1), ":", Pad2(m2));
    Pad2Order(h1, h2);
    Pad2Order(m1, m2);
  }

  /** Comparing strings whose first parts have equal length: the first parts
      decide unless they are equal. */
  lemma {:induction false} StrLtConcat(x: string, y: string, x2: string, y2: string)
    requires |x| == |x2|
    ensures StrLt(x + y, x2 + y2) == if x == x2 then StrLt(y, y2) else StrLt(x, x2)
    decreases |x|
  {
    if x != [] {
      assert (x + y)[1..] == x[1..] + y && (x2 + y2)[1..] == x2[1..] + y2;
      assert (x + y)[0] == x[0] && (x2 + y2)[0] == x2[0];
      if x[0] == x2[0] {
        StrLtConcat(x[1..], y, x2[1..], y2);
        assert x == x2 <==> x[1..] == x2[1..] by {
          assert x == [x[0]] + x[1..] && x2 == [x2[0]] + x2[1..];
        }
      }
    } else {
      assert x + y == y && x2 + y2 == y2;
    }
  }

  lemma Pad2Order(a: nat, b: nat)
    requires a < 100 && b < 100
    ensures StrLt(Pad2(a), Pad2(b)) <==> a < b
    ensures Pad2(a) == Pad2(b) <==> a == b
  {
    var p, q := Pad2(a), Pad2(b);
    assert p[1..][1..] == [] && q[1..][1..] == [];
    assert p[0] == DigitChar(a / 10) && p[1] == DigitChar(a % 10) && p[1..][0] == p[1];
    assert q[0] == DigitChar(b / 10) && q[1] == DigitChar(b % 10) && q[1..][0] == q[1];
    assert a < b <==> a / 10 < b / 10 || (a / 10 == b / 10 && a % 10 < b % 10);
    assert (p[0] < q[0]) == (a / 10 < b / 10) && (p[0] == q[0]) == (a / 10 == b / 10);
    assert (p[1] < q[1]) == (a % 10 < b % 10);
    assert StrLt(p, q) == if p[0] != q[0] then p[0] < q[0] else StrLt(p[1..], q[1..]);
    assert StrLt(p[1..], q[1..]) == if p[1] != q[1] then p[1] < q[1] else StrLt(p[1..][1..], q[1..][1..]);
    Pad2Parse(a);
    Pad2Parse(b);
  }

  /** `JS_DAY_TO_ENUM`: index 0 is Sunday, as `getDay()` counts. */
  const JsDayToEnum: seq<DayOfWeek> := [SUNDAY, MONDAY, TUESDAY, WEDNESDAY, THURSDAY, FRIDAY, SATURDAY]

  /** The table agrees with the Monday-first numbering of the enumeration,
      and so names every weekday exactly once. */
  lemma JsDayToEnumShift(d: nat)
    requires d < 7
    ensures |JsDayToEnum| == 7
    ensures MondayIndex(JsDayToEnum[d]) == (d + 6) % 7
  {
  }

  lemma JsDayToEnumCovers(w: DayOfWeek)
    ensures exists d :: 0 <= d < 7 && JsDayToEnum[d] == w
  {
    var d := (MondayIndex(w) + 1) % 7;
    assert JsDayToEnum[d] == w;
  }

  /** `intervalsOverlap` on half-open intervals. */
  predicate IntervalsOverlap(aStart: int, aEnd: int, bStart: int, bEnd: int)
  {
    aStart < bEnd && aEnd > bStart
  }

  /** Minute `t` lies in [start, end). */
  predicate Covers(start: int, end: int, t: int) { start <= t < end }

  /** For non-empty intervals the test means exactly "some minute lies in
      both"; touching intervals do not overlap. */
  lemma IntervalsOverlapMeaning(aStart: int, aEnd: int, bStart: int, bEnd: int)
    requires aStart < aEnd && bStart < bEnd
    ensures IntervalsOverlap(aStart, aEnd, bStart, bEnd) <==>
            exists t :: Covers(aStart, aEnd, t) && Covers(bStart, bEnd, t)
  {
    if IntervalsOverlap(aStart, aEnd, bStart, bEnd) {
      var t := if aStart < bStart then bStart else aStart;
      assert Covers(aStart, aEnd, t) && Covers(bStart, bEnd, t);
    }
  }

  lemma IntervalsOverlapSymmetric(aStart: int, aEnd: int, bStart: int, bEnd: int)
    ensures IntervalsOverlap(aStart, aEnd, bStart, bEnd) <==> IntervalsOverlap(bStart, bEnd, aStart, aEnd)
  {
  }

  // ---------------------------------------------------------------------
  // The slot grid
  // ---------------------------------------------------------------------

  predicate BlockedByBreak(m: int, d: int, breaks: seq<Interval>)
  {
    exists i :: 0 <= i < |breaks| && IntervalsOverlap(m, m + d, breaks[i].start, breaks[i].end)
  }

  predicate BlockedByBooking(instant: int, d: int, bookings: seq<Interval>)
  {
    exists i :: 0 <= i < |bookings| && IntervalsOverlap(instant, instant + d, bookings[i].start, bookings[i].end)
  }

  /** Whether the candidate at minute offset `m` of the day starting at
      instant `dayStart` survives both filters. */
  predicate SlotFree(dayStart: int, m: int, d: int, breaks: seq<Interval>, bookings: seq<Interval>)
  {
    !BlockedByBreak(m, d, breaks) && !BlockedByBooking(dayStart + m, d, bookings)
  }

  /** The slot instants the loop produces from offset `from` on. */
  function AvailableStarts(dayStart: int, from: int, workEnd: int, d: int,
                           breaks: seq<Interval>, bookings: seq<Interval>): seq<int>
    requires d > 0
    decreases workEnd - from
  {
    if from + d > workEnd then []
    else (if SlotFree(dayStart, from, d, breaks, bookings) then [dayStart + from] else [])
         + AvailableStarts(dayStart, from + d, workEnd, d, breaks, bookings)
  }

  /** The `k`-th point of the grid that starts at `from` with step `d`. */
  function GridPoint(from: int, d: int, k: nat): int { from + k * d }

  lemma GridPointNext(from: int, d: int, k: nat)
    ensures GridPoint(from, d, k + 1) == GridPoint(from + d, d, k)
  {
  }

  /** A slot is offered exactly when it is a grid point from the start of
      work, ends by the end of work, and overlaps no break and no active
      booking of the day. */
  lemma {:induction false} AvailableStartsIff(dayStart: int, from: int, workEnd: int, d: int,
                                             breaks: seq<Interval>, bookings: seq<Interval>, m: int)
    requires d > 0
    ensures dayStart + m in AvailableStarts(dayStart, from, workEnd, d, breaks, bookings) <==>
            (exists k: nat :: m == GridPoint(from, d, k)) && m + d <= workEnd && SlotFree(dayStart, m, d, breaks, bookings)
    decreases workEnd - from
  {
    var rest := AvailableStarts(dayStart, from + d, workEnd, d, breaks, bookings);
    if from + d > workEnd {
      if exists k: nat :: m == GridPoint(from, d, k) {
        var k: nat :| m == GridPoint(from, d, k);
        assert k * d >= 0;
      }
    } else {
      AvailableStartsIff(dayStart, from + d, workEnd, d, breaks, bookings, m);
      if exists k: nat :: m == GridPoint(from, d, k) {
        var k: nat :| m == GridPoint(from, d, k);
        if k > 0 {
          GridPointNext(from, d, k - 1);
          assert m == GridPoint(from + d, d, k - 1);
        }
      }
      var next := from + d;
      if exists k: nat :: m == GridPoint(next, d, k) {
        var k: nat :| m == GridPoint(next, d, k);
        GridPointNext(from, d, k);
        assert m == GridPoint(from, d, k + 1);
      }
      assert m == GridPoint(from, d, 0) ==> m == from;
      assert GridPoint(from, d, 0) == from;
    }
  }

  /** Every offered slot lies at or after the grid start. */
  lemma {:induction false} AvailableStartsLower(dayStart: int, from: int, workEnd: int, d: int,
                                               breaks: seq<Interval>, bookings: seq<Interval>)
    requires d > 0
    ensures forall s :: s in AvailableStarts(dayStart, from, workEnd, d, breaks, bookings) ==>
              dayStart + from <= s && s + d <= dayStart + workEnd
    decreases workEnd - from
  {
    if from + d <= workEnd {
      AvailableStartsLower(dayStart, from + d, workEnd, d, breaks, bookings);
    }
  }

  /** Each start is at least `d` after the one before it. */
  predicate Spaced(s: seq<int>, d: int) { forall i, j :: 0 <= i < j < |s| ==> s[i] + d <= s[j] }

  /** Offered slots come in increasing order and never overlap each other. */
  lemma {:induction false} AvailableStartsSpaced(dayStart: int, from: int, workEnd: int, d: int,
                                                breaks: seq<Interval>, bookings: seq<Interval>)
    requires d > 0
    ensures Spaced(AvailableStarts(dayStart, from, workEnd, d, breaks, bookings), d)
    decreases workEnd - from
  {
    if from + d <= workEnd {
      var rest := AvailableStarts(dayStart, from + d, workEnd, d, breaks, bookings);
      AvailableStartsSpaced(dayStart, from + d, workEnd, d, breaks, bookings);
      AvailableStartsLower(dayStart, from + d, workEnd, d, breaks, bookings);
      var s := AvailableStarts(dayStart, from, workEnd, d, breaks, bookings);
      if SlotFree(dayStart, from, d, breaks, bookings) {
        assert s == [dayStart + from] + rest;
        forall i, j | 0 <= i < j < |s| ensures s[i] + d <= s[j] {
          assert s[j] == rest[j - 1];
          if i > 0 {
            assert s[i] == rest[i - 1];
          } else {
            assert s[j] in rest;
          }
        }
      } else {
        assert s == rest;
      }
    }
  }

  /** The candidate loop of the route: from `workStart`, step the service's
      duration while the slot still ends by `workEnd`; skip a candidate that
      overlaps a break (in minutes of the day) or an active booking (as
      instants). */
  method GenerateSlots(dayStart: int, workStart: int, workEnd: int, d: int,
                       breaks: seq<Interval>, bookings: seq<Interval>) returns (slots: seq<int>)
    requires d > 0
    ensures slots == AvailableStarts(dayStart, workStart, workEnd, d, breaks, bookings)
  {
    slots := [];
    var m := workStart;
    while m + d <= workEnd
      invariant AvailableStarts(dayStart, workStart, workEnd, d, breaks, bookings) ==
                slots + AvailableStarts(dayStart, m, workEnd, d, breaks, bookings)
      decreases workEnd - m
    {
      var slotStart := dayStart + m;
      var blockedByBreak := BlockedByBreak(m, d, breaks);
      var blockedByBooking := BlockedByBooking(slotStart, d, bookings);
      ghost var next := AvailableStarts(dayStart, m + d, workEnd, d, breaks, bookings);
      assert AvailableStarts(dayStart, m, workEnd, d, breaks, bookings) ==
             (if !blockedByBreak && !blockedByBooking then [slotStart] else []) + next;
      if !blockedByBreak && !blockedByBooking {
        slots := slots + [slotStart];
      }
      m := m + d;
    }
  }

  // ---------------------------------------------------------------------
  // The queries the route runs
  // ---------------------------------------------------------------------

  /** Bookings of the organization whose status is PENDENTE or CONFIRMADO
      and whose start lies within the day (`T00:00:00` to `T23:59:59`). */
  function DayBookings(bookings: seq<Booking>, org: OrgId, dayStart: int): (r: seq<Interval>)
    ensures |r| <= |bookings|
    ensures forall iv :: iv in r <==>
              exists b :: b in bookings && b.organizationId == org && IsActive(b.status) &&
                          dayStart <= b.startTime < dayStart + MinutesPerDay && iv == Interval(b.startTime, b.endTime)
  {
    if bookings == [] then []
    else
      var b := bookings[0];
      var rest := DayBookings(bookings[1..], org, dayStart);
      assert forall x :: x in bookings <==> x == b || x in bookings[1..];
      if b.organizationId == org && IsActive(b.status) && dayStart <= b.startTime < dayStart + MinutesPerDay
      then [Interval(b.startTime, b.endTime)] + rest
      else rest
  }

  /** Break rows of the organization in minutes of the day. A row whose
      bound reads as NaN overlaps nothing (every comparison with NaN is
      false), so it is dropped. */
  function BreakIntervals(breaks: seq<BreakTime>, org: OrgId): (r: seq<Interval>)
    ensures |r| <= |breaks|
    ensures forall iv :: iv in r <==>
              exists b :: b in breaks && b.organizationId == org &&
                          TimeToMinutes(b.startTime) == Some(iv.start) && TimeToMinutes(b.endTime) == Some(iv.end)
  {
    if breaks == [] then []
    else
      var b := breaks[0];
      var rest := BreakIntervals(breaks[1..], org);
      assert forall x :: x in breaks <==> x == b || x in breaks[1..];
      if b.organizationId == org && TimeToMinutes(b.startTime).Some? && TimeToMinutes(b.endTime).Some?
      then [Interval(TimeToMinutes(b.startTime).value, TimeToMinutes(b.endTime).value)] + rest
      else rest
  }

  /** `findFirst({ organizationId, dayOfWeek })`. */
  function FindWorkingHours(rows: seq<WorkingHours>, org: OrgId, day: DayOfWeek): (r: Option<WorkingHours>)
    ensures r.Some? ==> r.value in rows && r.value.organizationId == org && r.value.dayOfWeek == day
    ensures r.None? ==> forall w :: w in rows ==> !(w.organizationId == org && w.dayOfWeek == day)
  {
    if rows == [] then None
    else if rows[0].organizationId == org && rows[0].dayOfWeek == day then Some(rows[0])
    else FindWorkingHours(rows[1..], org, day)
  }

  // ---------------------------------------------------------------------
  // GET /api/slots
  // ---------------------------------------------------------------------

  datatype SlotsResponse =
    | MissingParams                  // 400
    | ServiceNotFound                // 404
    | UnreadableDate                 // a date that is not YYYY-MM-DD
    | Slots(slots: seq<int>, duration: int, total: int)

  /** A query parameter counts as missing when absent or empty. */
  predicate Given(p: Option<string>) { p.Some? && p.value != "" }

  /** The whole handler over the tables it reads. Slots are instants. */
  method Get(orgId: Option<string>, serviceId: Option<string>, date: Option<string>,
             services: map<ServiceId, Service>, hours: seq<WorkingHours>,
             breakRows: seq<BreakTime>, bookings: seq<Booking>) returns (resp: SlotsResponse)
    requires forall k :: k in services ==> services[k].durationMinutes > 0
    ensures !(Given(orgId) && Given(serviceId) && Given(date)) <==> resp == MissingParams
    ensures resp == ServiceNotFound <==>
              Given(orgId) && Given(serviceId) && Given(date) &&
              (serviceId.value !in services || services[serviceId.value].organizationId != orgId.value)
    ensures resp == UnreadableDate <==>
              Given(orgId) && Given(serviceId) && Given(date) &&
              serviceId.value in services && services[serviceId.value].organizationId == orgId.value &&
              ParseDateKey(date.value).None?
    ensures resp.Slots? ==>
              Given(orgId) && Given(serviceId) && serviceId.value in services &&
              Given(date) && ParseDateKey(date.value).Some? &&
              var svc := services[serviceId.value];
              var day := ParseDateKey(date.value).value;
              var dayStart := DayNumber(day) * MinutesPerDay;
              var wh := FindWorkingHours(hours, orgId.value, JsDayToEnum[Weekday(day)]);
              resp.duration == svc.durationMinutes && resp.total == |resp.slots| &&
              if wh.None? || !wh.value.isWorking
                 || TimeToMinutes(wh.value.startTime).None? || TimeToMinutes(wh.value.endTime).None?
              then resp.slots == []
              else resp.slots == AvailableStarts(dayStart, TimeToMinutes(wh.value.startTime).value,
                                                 TimeToMinutes(wh.value.endTime).value, svc.durationMinutes,
                                                 BreakIntervals(breakRows, orgId.value),
                                                 DayBookings(bookings, orgId.value, dayStart))
  {
    if !(Given(orgId) && Given(serviceId) && Given(date)) {
      return MissingParams;
    }
    var org, sid := orgId.value, serviceId.value;
    if sid !in services || services[sid].organizationId != org {
      return ServiceNotFound;
    }
    var duration := services[sid].durationMinutes;
    var parsed := ParseDateKey(date.value);
    if parsed.None? {
      return UnreadableDate;
    }
    var day := parsed.value;
    var dayStart := DayNumber(day) * MinutesPerDay;
    var wh := FindWorkingHours(hours, org, JsDayToEnum[Weekday(day)]);
    if wh.None? || !wh.value.isWorking {
      return Slots([], duration, 0);
    }
    var workStart, workEnd := TimeToMinutes(wh.value.startTime), TimeToMinutes(wh.value.endTime);
    if workStart.None? || workEnd.None? {
      // NaN bounds: the loop condition is false at once.
      return Slots([], duration, 0);
    }
    var slots := GenerateSlots(dayStart, workStart.value, workEnd.value, duration,
                               BreakIntervals(breakRows, org), DayBookings(bookings, org, dayStart));
    return Slots(slots, duration, |slots|);
  }

  // ---------------------------------------------------------------------
  // The older generator (getAvailableSlotsAction)
  // ---------------------------------------------------------------------

  const LegacyStartHour: int := 8
  const LegacyEndHour: int := 18

  /** The inner loop for one hour: minutes 0, d, 2d, ... below 60, keeping a
      candidate only if it ends by 18:00. */
  function LegacyHour(dayStart: int, hour: int, minute: int, d: int): seq<int>
    requires d > 0
    decreases 60 - minute
  {
    if minute >= 60 then []
    else (if hour * 60 + minute + d > LegacyEndHour * 60 then [] else [dayStart + hour * 60 + minute])
         + LegacyHour(dayStart, hour, minute + d, d)
  }

  /** The outer loop over the hours 8..17. */
  function LegacyDay(dayStart: int, hour: int, d: int): seq<int>
    requires d > 0
    decreases LegacyEndHour - hour
  {
    if hour >= LegacyEndHour then [] else LegacyHour(dayStart, hour, 0, d) + LegacyDay(dayStart, hour + 1, d)
  }

  /** The booking filter that follows the loops. */
  function WithoutBookings(slots: seq<int>, d: int, bookings: seq<Interval>): (r: seq<int>)
    ensures forall s :: s in r <==> s in slots && !BlockedByBooking(s, d, bookings)
  {
    if slots == [] then []
    else
      assert forall x :: x in slots <==> x == slots[0] || x in slots[1..];
      (if BlockedByBooking(slots[0], d, bookings) then [] else [slots[0]]) + WithoutBookings(slots[1..], d, bookings)
  }

  /** `LegacyFetchError` is the catch-all answer: with an invalid date the
      first candidate's `toISOString()` throws. */
  datatype LegacyResponse = LegacyServiceNotFound | LegacyFetchError | LegacySlots(slots: seq<int>, duration: int)

  /** `date` is the day `new Date(`${date}T00:00:00`)` reads, or `None`
      when that is an invalid date. */
  method LegacyAvailableSlots(organizationId: OrgId, serviceId: ServiceId, date: Option<Date>,
                              services: map<ServiceId, Service>, bookings: seq<Booking>)
    returns (resp: LegacyResponse)
    requires date.Some? ==> Valid(date.value)
    requires forall k :: k in services ==> services[k].durationMinutes > 0
    ensures serviceId !in services <==> resp == LegacyServiceNotFound
    ensures resp == LegacyFetchError <==> serviceId in services && date.None?
    ensures resp.LegacySlots? ==>
              date.Some? &&
              var d := services[serviceId].durationMinutes;
              var dayStart := DayNumber(date.value) * MinutesPerDay;
              resp.duration == d &&
              resp.slots == WithoutBookings(LegacyDay(dayStart, LegacyStartHour, d), d,
                                            DayBookings(bookings, organizationId, dayStart))
  {
    if serviceId !in services {
      return LegacyServiceNotFound;
    }
    if date.None? {
      // The loop always reaches 08:00, whose NaN instant has no ISO text.
      return LegacyFetchError;
    }
    var d := services[serviceId].durationMinutes;
    var dayStart := DayNumber(date.value) * MinutesPerDay;
    var slots := LegacyCandidates(dayStart, d);
    var windows := DayBookings(bookings, organizationId, dayStart);
    var available := WithoutBookings(slots, d, windows);
    return LegacySlots(available, d);
  }

  /** The outer loop of the older generator, over the hours 8..17. */
  method LegacyCandidates(dayStart: int, d: int) returns (slots: seq<int>)
    requires d > 0
    ensures slots == LegacyDay(dayStart, LegacyStartHour, d)
  {
    slots := [];
    var hour := LegacyStartHour;
    while hour < LegacyEndHour
      invariant LegacyStartHour <= hour <= LegacyEndHour
      invariant LegacyDay(dayStart, LegacyStartHour, d) == slots + LegacyDay(dayStart, hour, d)
    {
      var hourSlots := LegacyMinutes(dayStart, hour, d);
      LegacyDayStep(slots, dayStart, hour, d);
      slots := slots + hourSlots;
      hour := hour + 1;
    }
  }

  /** One turn of the outer loop: the hour's candidates move from the rest
      of the day to the collected prefix. */
  lemma LegacyDayStep(slots: seq<int>, dayStart: int, hour: int, d: int)
    requires d > 0 && hour < LegacyEndHour
    ensures slots + LegacyDay(dayStart, hour, d)
            == (slots + LegacyHour(dayStart, hour, 0, d)) + LegacyDay(dayStart, hour + 1, d)
  {
  }

  /** The inner loop over the minutes of one hour. */
  method LegacyMinutes(dayStart: int, hour: int, d: int) returns (slots: seq<int>)
    requires d > 0
    ensures slots == LegacyHour(dayStart, hour, 0, d)
  {
    slots := [];
    var minute := 0;
    while minute < 60
      invariant 0 <= minute
      invariant LegacyHour(dayStart, hour, 0, d) == slots + LegacyHour(dayStart, hour, minute, d)
      decreases 60 - minute
    {
      var slotEnd := hour * 60 + minute + d;
      if slotEnd <= LegacyEndHour * 60 {
        slots := slots + [dayStart + hour * 60 + minute];
      }
      minute := minute + d;
    }
  }

  /** Every candidate of an hour starts at or after the minute the loop
      has reached in that hour, and ends by 18:00. */
  lemma {:induction false} LegacyHourBounds(dayStart: int, hour: int, minute: int, d: int)
    requires d > 0 && 0 <= minute
    ensures forall s :: s in LegacyHour(dayStart, hour, minute, d) ==>
              dayStart + hour * 60 + minute <= s && s + d <= dayStart + LegacyEndHour * 60
    decreases 60 - minute
  {
    if minute < 60 {
      LegacyHourBounds(dayStart, hour, minute + d, d);
    }
  }

  /** Every candidate from hour `hour` on starts at or after that hour and
      ends by 18:00; from the first hour, within 08:00-18:00. */
  lemma {:induction false} LegacyDayBounds(dayStart: int, hour: int, d: int)
    requires d > 0
    ensures forall s :: s in LegacyDay(dayStart, hour, d) ==>
              dayStart + hour * 60 <= s && s + d <= dayStart + LegacyEndHour * 60
    decreases LegacyEndHour - hour
  {
    if hour < LegacyEndHour {
      LegacyHourBounds(dayStart, hour, 0, d);
      LegacyDayBounds(dayStart, hour + 1, d);
    }
  }

  /** Euclidean division is determined by any quotient and remainder that
      fit. */
  lemma DivModUnique(x: int, d: int, q: int, r: int)
    requires d > 0 && 0 <= r < d && x == d * q + r
    ensures x / d == q && x % d == r
  {
    var q0, r0 := x / d, x % d;
    assert d * (q - q0) == r0 - r;
    if q - q0 >= 1 {
      MulAtLeast(d, q - q0);
    } else if q0 - q >= 1 {
      MulAtLeast(d, q0 - q);
    }
  }

  lemma MulAtLeast(d: int, k: int)
    requires d > 0 && k >= 1
    ensures d * k >= d
  {
    assert d * k == d + d * (k - 1);
  }

  /** Taking one step of `d` off leaves the remainder as it was. */
  lemma ModStepDown(x: int, d: int)
    requires d > 0
    ensures (x - d) % d == x % d
  {
    DivModUnique(x - d, d, x / d - 1, x % d);
  }

  /** The minutes one hour offers, from `minute` on: exactly those below 60
      a whole number of steps of `d` past `minute` whose slot ends by 18:00. */
  lemma {:induction false} LegacyHourMembers(dayStart: int, hour: int, minute: int, d: int, s: int)
    requires d > 0 && 0 <= minute
    ensures s in LegacyHour(dayStart, hour, minute, d) <==>
              var m := s - dayStart - hour * 60;
              minute <= m < 60 && (m - minute) % d == 0 && hour * 60 + m + d <= LegacyEndHour * 60
    decreases 60 - minute
  {
    if minute < 60 {
      var m := s - dayStart - hour * 60;
      var fits := hour * 60 + m + d <= LegacyEndHour * 60;
      var head := if hour * 60 + minute + d > LegacyEndHour * 60 then [] else [dayStart + hour * 60 + minute];
      assert LegacyHour(dayStart, hour, minute, d) == head + LegacyHour(dayStart, hour, minute + d, d);
      LegacyHourMembers(dayStart, hour, minute + d, d, s);
      assert s in head <==> m == minute && fits;
      if m >= minute + d {
        ModStepDown(m - minute, d);
        assert (m - (minute + d)) % d == (m - minute) % d;
      } else if minute < m {
        DivModUnique(m - minute, d, 0, m - minute);
        assert (m - minute) % d != 0;
      } else if m == minute {
        DivModUnique(0, d, 0, 0);
      }
    }
  }

  /** The starts the older generator offers from hour `hour` on: exactly
      the instants at or after that hour whose minute within their hour is
      a multiple of `d` and whose slot ends by 18:00. */
  lemma {:induction false} LegacyDayMembers(dayStart: int, hour: int, d: int, s: int)
    requires d > 0
    ensures s in LegacyDay(dayStart, hour, d) <==>
              var t := s - dayStart;
              hour * 60 <= t && (t % 60) % d == 0 && t + d <= LegacyEndHour * 60
    decreases LegacyEndHour - hour
  {
    if hour < LegacyEndHour {
      LegacyDayMembers(dayStart, hour + 1, d, s);
      LegacyHourMembers(dayStart, hour, 0, d, s);
      var t := s - dayStart;
      if hour * 60 <= t < hour * 60 + 60 {
        DivModUnique(t, 60, hour, t - hour * 60);
      }
    }
  }

  /** Because every hour restarts at minute 0, a duration that does not
      divide 60 yields candidates that overlap one another: with 90 minutes
      both 08:00-09:30 and 09:00-10:30 are offered. */
  lemma LegacyOverlapExample()
    ensures 8 * 60 in LegacyDay(0, LegacyStartHour, 90) && 9 * 60 in LegacyDay(0, LegacyStartHour, 90)
    ensures IntervalsOverlap(8 * 60, 8 * 60 + 90, 9 * 60, 9 * 60 + 90)
  {
    assert LegacyHour(0, 8, 0, 90) == [480];
    assert LegacyDay(0, 8, 90)[0] == 480;
    assert LegacyHour(0, 9, 0, 90) == [540];
    assert LegacyDay(0, 9, 90)[0] == 540;
    assert LegacyDay(0, 8, 90) == [480] + LegacyDay(0, 9, 90);
  }
}
