/** The blocked-dates list of the availability page: the add form, the
    optimistic delete that restores the list when the server refuses, the
    date-ordered display and the text each row's date goes through. */
module UnavailableDaysSection {
  import opened Common
  import opened CivilDate
  import opened Sorting
  import SlotEngine
  import opened Availability

  // ---------------------------------------------------------------------
  // Display order
  // ---------------------------------------------------------------------

  const MillisPerDay := 86400000

  /** `getTime()` of a stored day: its UTC midnight in milliseconds. */
  function Timestamp(d: Date): int
    requires Valid(d)
  {
    DayNumber(d) * MillisPerDay
  }

  /** The comparator of `sortedDays` is negative: `a` is the earlier day. */
  predicate EarlierDay(a: UnavailableDay, b: UnavailableDay)
  {
    LexLt(a.date, b.date)
  }

  /** Comparing calendar fields is comparing timestamps. */
  lemma EarlierDayIsEarlierInstant(a: UnavailableDay, b: UnavailableDay)
    requires Valid(a.date) && Valid(b.date)
    ensures EarlierDay(a, b) <==> Timestamp(a.date) < Timestamp(b.date)
  {
    DayNumberOrder(a.date, b.date);
  }

  lemma EarlierDayOrder()
    ensures StrictWeakOrder(EarlierDay)
  {
  }

  /** `[...unavailableDays].sort(...)`: the same days, earliest first. */
  function SortedDays(days: seq<UnavailableDay>): (r: seq<UnavailableDay>)
    ensures multiset(r) == multiset(days)
    ensures forall i, j :: 0 <= i < j < |r| ==> !LexLt(r[j].date, r[i].date)
  {
    EarlierDayOrder();
    SortBySorted(days, EarlierDay);
    SortBy(days, EarlierDay)
  }

  predicate AllValid(days: seq<UnavailableDay>)
  {
    forall k :: 0 <= k < |days| ==> Valid(days[k].date)
  }

  /** On valid dates the display is in timestamp order. */
  lemma SortedDaysChronological(days: seq<UnavailableDay>)
    requires AllValid(days)
    ensures AllValid(SortedDays(days))
    ensures forall i, j :: 0 <= i < j < |SortedDays(days)| ==>
              Timestamp(SortedDays(days)[i].date) <= Timestamp(SortedDays(days)[j].date)
  {
    var r := SortedDays(days);
    forall k | 0 <= k < |r| ensures Valid(r[k].date) {
      assert r[k] in multiset(days);
      var a :| 0 <= a < |days| && days[a] == r[k];
    }
    forall i, j | 0 <= i < j < |r| ensures Timestamp(r[i].date) <= Timestamp(r[j].date) {
      EarlierDayIsEarlierInstant(r[j], r[i]);
    }
  }

  /** Days on the same date keep the order they had in the list. */
  lemma SortedDaysStable(days: seq<UnavailableDay>, e: UnavailableDay)
    ensures TiedWith(SortedDays(days), e, EarlierDay) == TiedWith(days, e, EarlierDay)
  {
    EarlierDayOrder();
    SortByStable(days, e, EarlierDay);
  }

  // ---------------------------------------------------------------------
  // Date text of a row
  // ---------------------------------------------------------------------

  /** `${getUTCFullYear()}-${month + 1 padded}-${date padded}`: the year is
      not padded. */
  function DateText(d: Date): (s: string)
    requires Valid(d) && d.year >= 0
  {
    NatToString(d.year) + "-" + Pad2(d.month) + "-" + Pad2(d.day)
  }

  /** `dateStr.split("-").map(Number)` taken as `[y, m, d]`; a text whose
      first three parts are not all digits is refused. */
  function SplitDateText(s: string): (r: Option<(int, int, int)>)
  {
    var parts := Split(s, '-');
    if |parts| >= 3 && AllDigits(parts[0]) && AllDigits(parts[1]) && AllDigits(parts[2]) then
      Some((ParseDecimal(parts[0]), ParseDecimal(parts[1]), ParseDecimal(parts[2])))
    else None
  }

  /** Splitting the text gives back the stored year, month and day. */
  lemma DateTextRoundTrip(d: Date)
    requires Valid(d) && d.year >= 0
    ensures SplitDateText(DateText(d)) == Some((d.year, d.month, d.day))
  {
    var y, m, n := NatToString(d.year), Pad2(d.month), Pad2(d.day);
    assert '-' !in y && '-' !in m && '-' !in n by {
      assert forall k :: 0 <= k < |y| ==> IsDigit(y[k]);
      assert IsDigit(m[0]) && IsDigit(m[1]) && IsDigit(n[0]) && IsDigit(n[1]);
    }
    assert DateText(d) == y + ['-'] + (m + ['-'] + n);
    SlotEngine.SplitAt(y, '-', m + ['-'] + n);
    SlotEngine.SplitAt(m, '-', n);
    SlotEngine.SplitNoSep(n, '-');
    ParseNatToString(d.year);
    Pad2Parse(d.month);
    Pad2Parse(d.day);
  }

  /** The day a row shows: `new Date(y, m - 1, d)` of the split text. */
  function ShownDate(day: UnavailableDay): (r: Date)
    requires Valid(day.date) && day.date.year >= 0
    ensures r == LocalDate(day.date)
    ensures day.date.year >= 100 ==> r == day.date
  {
    DateTextRoundTrip(day.date);
    var (y, m, d) := SplitDateText(DateText(day.date)).value;
    LocalDate(Date(y, m, d))
  }

  // ---------------------------------------------------------------------
  // Optimistic delete
  // ---------------------------------------------------------------------

  /** The delete filter splits over concatenation ... */
  lemma {:induction false} WithoutIdConcat(a: seq<UnavailableDay>, b: seq<UnavailableDay>, id: string)
    ensures WithoutId(a + b, id) == WithoutId(a, id) + WithoutId(b, id)
    decreases |a|
  {
    if a != [] {
      assert (a + b)[0] == a[0] && (a + b)[1..] == a[1..] + b;
      WithoutIdConcat(a[1..], b, id);
    } else {
      assert a + b == b;
    }
  }

  /** ... and keeps a single row exactly when its id differs, so it drops
      the rows with that id and keeps the others in their order. */
  lemma WithoutIdSingle(x: UnavailableDay, id: string)
    ensures WithoutId([x], id) == (if x.id == id then [] else [x])
  {
    assert [x][1..] == [];
  }

  /** The section: the list the page passed in, the list shown, and the
      add form's inputs. */
  class DaysSection {
    const initialDays: seq<UnavailableDay>
    var date: string
    var reason: string
    var unavailableDays: seq<UnavailableDay>
    var errorMsg: Option<string>
    var addPending: bool
    var deletePending: bool

    constructor (initial: seq<UnavailableDay>)
      ensures initialDays == initial && unavailableDays == initial
      ensures date == "" && reason == "" && errorMsg == None
      ensures !addPending && !deletePending
    {
      initialDays := initial;
      unavailableDays := initial;
      date := "";
      reason := "";
      errorMsg := None;
      addPending := false;
      deletePending := false;
    }

    /** `disabled={addPending || !date}` on the submit button. */
    predicate SubmitDisabled()
      reads this
    {
      addPending || date == ""
    }

    /** The list as displayed. */
    function Shown(): seq<UnavailableDay>
      reads this
    {
      SortedDays(unavailableDays)
    }

    method SetDate(value: string)
      modifies this
      ensures date == value && SubmitDisabled() == (addPending || value == "")
      ensures reason == old(reason) && unavailableDays == old(unavailableDays)
      ensures errorMsg == old(errorMsg) && addPending == old(addPending) && deletePending == old(deletePending)
    {
      date := value;
    }

    method SetReason(value: string)
      modifies this
      ensures reason == value
      ensures date == old(date) && unavailableDays == old(unavailableDays)
      ensures errorMsg == old(errorMsg) && addPending == old(addPending) && deletePending == old(deletePending)
    {
      reason := value;
    }

    /** Submitting clears the error and sends the `date` and `reason`
        inputs. The transition's callback starts the action without
        returning its promise, so the transition ends as soon as the
        callback returns: `addPending` is false again, and the button stays
        enabled while the date is set, before the server has answered. */
    method HandleAddDay() returns (form: Form)
      modifies this
      ensures form == map["date" := old(date), "reason" := old(reason)]
      ensures errorMsg == None && !addPending
      ensures SubmitDisabled() <==> old(date) == ""
      ensures date == old(date) && reason == old(reason)
      ensures unavailableDays == old(unavailableDays) && deletePending == old(deletePending)
    {
      form := map["date" := date, "reason" := reason];
      errorMsg := None;
      addPending := false;  // the transition ends with its callback
    }

    /** The add action's answer: success clears both inputs, a failure
        shows its message. The transition has already ended. */
    method AddSettled(result: Response)
      modifies this
      ensures addPending == old(addPending)
      ensures result.Success? ==> date == "" && reason == "" && errorMsg == old(errorMsg)
      ensures result.Failure? ==>
                date == old(date) && reason == old(reason) && errorMsg == Some(result.error)
      ensures unavailableDays == old(unavailableDays) && deletePending == old(deletePending)
    {
      if result.Success? {
        date := "";
        reason := "";
      } else {
        errorMsg := Some(result.error);
      }
    }

    /** The timer four seconds after a failure. */
    method ErrorTimeout()
      modifies this
      ensures errorMsg == None
      ensures date == old(date) && reason == old(reason) && unavailableDays == old(unavailableDays)
      ensures addPending == old(addPending) && deletePending == old(deletePending)
    {
      errorMsg := None;
    }

    /** The row disappears at once, before the server answers. As with
        the add, the transition ends when its callback returns, so
        `deletePending` is false again and the other delete buttons stay
        enabled. */
    method HandleDeleteDay(dayId: string)
      modifies this
      ensures unavailableDays == WithoutId(old(unavailableDays), dayId)
      ensures !deletePending
      ensures date == old(date) && reason == old(reason) && errorMsg == old(errorMsg)
      ensures addPending == old(addPending)
    {
      unavailableDays := WithoutId(unavailableDays, dayId);
      deletePending := false;  // the transition ends with its callback
    }

    /** The remove action's answer: on failure the list goes back to the
        one the page passed in, whatever was deleted since. */
    method DeleteSettled(result: Response)
      modifies this
      ensures unavailableDays == if result.Success? then old(unavailableDays) else initialDays
      ensures date == old(date) && reason == old(reason) && errorMsg == old(errorMsg)
      ensures addPending == old(addPending) && deletePending == old(deletePending)
    {
      if !result.Success? {
        unavailableDays := initialDays;
      }
    }
  }
}
