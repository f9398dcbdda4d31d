/** The breaks list of the availability page: the add form and its reset,
    the optimistic remove that restores the list when the server refuses,
    and the display ordered by start time. */
module BreakTimesSection {
  import opened Common
  import opened Domain
  import opened Sorting
  import SlotEngine
  import opened Availability

  /** A break as the page passes it in; `description` is its `label`. */
  datatype BreakTimeRow = BreakTimeRow(id: string, organizationId: OrgId, description: Option<string>,
                                       startTime: string, endTime: string)

  /** The inputs' initial values, and the values a successful add puts back. */
  const ResetStart := "12:00"
  const ResetEnd := "13:00"

  /** Those values form a break the server's schema accepts. */
  lemma ResetIsAValidBreak(isTime: string -> bool)
    requires isTime(ResetStart) && isTime(ResetEnd)
    ensures BreakError(ResetStart, ResetEnd, isTime) == None
  {
    assert ResetStart == SlotEngine.HHmm(12, 0) && ResetEnd == SlotEngine.HHmm(13, 0);
    SlotEngine.HHmmOrder(12, 0, 13, 0);
  }

  // ---------------------------------------------------------------------
  // Display order
  // ---------------------------------------------------------------------

  /** `a.startTime.localeCompare(b.startTime)` is negative. */
  predicate StartsEarlier(a: BreakTimeRow, b: BreakTimeRow)
  {
    StrLt(a.startTime, b.startTime)
  }

  lemma StartsEarlierOrder()
    ensures StrictWeakOrder(StartsEarlier)
  {
    forall a: BreakTimeRow ensures !StartsEarlier(a, a) {
      StrLtIrreflexive(a.startTime);
    }
    forall a: BreakTimeRow, b: BreakTimeRow, c: BreakTimeRow | StartsEarlier(a, b) && StartsEarlier(b, c)
      ensures StartsEarlier(a, c)
    {
      StrLtTransitive(a.startTime, b.startTime, c.startTime);
    }
    forall a: BreakTimeRow, b: BreakTimeRow, c: BreakTimeRow | StartsEarlier(a, c)
      ensures StartsEarlier(a, b) || StartsEarlier(b, c)
    {
      if !StartsEarlier(a, b) && !StartsEarlier(b, c) {
        // c starts no later than b, and b no later than a.
        if b.startTime != a.startTime {
          StrLtTotal(a.startTime, b.startTime);
          StrLtTransitive(b.startTime, a.startTime, c.startTime);
        }
        StrLtTotal(b.startTime, c.startTime);
        StrLtIrreflexive(c.startTime);
        if b.startTime != c.startTime {
          StrLtTransitive(c.startTime, b.startTime, c.startTime);
        }
      }
    }
  }

  /** `[...breakTimes].sort(...)`: the same breaks, by start time. */
  function SortedBreakTimes(rows: seq<BreakTimeRow>): (r: seq<BreakTimeRow>)
    ensures multiset(r) == multiset(rows)
    ensures forall i, j :: 0 <= i < j < |r| ==> !StrLt(r[j].startTime, r[i].startTime)
  {
    StartsEarlierOrder();
    SortBySorted(rows, StartsEarlier);
    SortBy(rows, StartsEarlier)
  }

  /** Breaks with the same start time keep the order they had. */
  lemma SortedBreakTimesStable(rows: seq<BreakTimeRow>, e: BreakTimeRow)
    ensures TiedWith(SortedBreakTimes(rows), e, StartsEarlier) == TiedWith(rows, e, StartsEarlier)
  {
    StartsEarlierOrder();
    SortByStable(rows, e, StartsEarlier);
  }

  /** A zero-padded 24-hour `HH:mm` time. */
  ghost predicate IsClockTime(t: string)
  {
    exists h: nat, m: nat :: h < 24 && m < 60 && t == SlotEngine.HHmm(h, m)
  }

  /** Read as minutes, the start times never decrease. */
  predicate StartsInMinuteOrder(rows: seq<BreakTimeRow>)
  {
    forall i, j :: 0 <= i < j < |rows| ==>
      match (SlotEngine.TimeToMinutes(rows[i].startTime), SlotEngine.TimeToMinutes(rows[j].startTime))
      case (Some(a), Some(b)) => a <= b
      case _ => false
  }

  /** For `HH:mm` start times string order is clock order, so the list is
      shown chronologically. */
  lemma SortedBreakTimesChronological(rows: seq<BreakTimeRow>)
    requires forall k :: 0 <= k < |rows| ==> IsClockTime(rows[k].startTime)
    ensures StartsInMinuteOrder(SortedBreakTimes(rows))
  {
    var r := SortedBreakTimes(rows);
    forall k | 0 <= k < |r| ensures IsClockTime(r[k].startTime) {
      assert r[k] in multiset(rows);
      var n :| 0 <= n < |rows| && rows[n] == r[k];
    }
    forall i, j | 0 <= i < j < |r|
      ensures match (SlotEngine.TimeToMinutes(r[i].startTime), SlotEngine.TimeToMinutes(r[j].startTime))
              case (Some(a), Some(b)) => a <= b
              case _ => false
    {
      var h1: nat, m1: nat :| h1 < 24 && m1 < 60 && r[i].startTime == SlotEngine.HHmm(h1, m1);
      var h2: nat, m2: nat :| h2 < 24 && m2 < 60 && r[j].startTime == SlotEngine.HHmm(h2, m2);
      SlotEngine.HHmmOrder(h2, m2, h1, m1);
      SlotEngine.TimeToMinutesHHmm(h1, m1);
      SlotEngine.TimeToMinutesHHmm(h2, m2);
    }
  }

  // ---------------------------------------------------------------------
  // Optimistic remove
  // ---------------------------------------------------------------------

  /** `prev.filter((b) => b.id !== id)`. */
  function WithoutBreak(rows: seq<BreakTimeRow>, id: string): (r: seq<BreakTimeRow>)
    ensures forall x :: x in r <==> x in rows && x.id != id
  {
    if rows == [] then []
    else
      assert forall x :: x in rows <==> x == rows[0] || x in rows[1..];
      (if rows[0].id == id then [] else [rows[0]]) + WithoutBreak(rows[1..], id)
  }

  /** The filter splits over concatenation and keeps a single row exactly
      when its id differs: the other rows stay in their order. */
  lemma {:induction false} WithoutBreakConcat(a: seq<BreakTimeRow>, b: seq<BreakTimeRow>, id: string)
    ensures WithoutBreak(a + b, id) == WithoutBreak(a, id) + WithoutBreak(b, id)
    decreases |a|
  {
    if a != [] {
      assert (a + b)[0] == a[0] && (a + b)[1..] == a[1..] + b;
      WithoutBreakConcat(a[1..], b, id);
    } else {
      assert a + b == b;
    }
  }

  lemma WithoutBreakSingle(x: BreakTimeRow, id: string)
    ensures WithoutBreak([x], id) == (if x.id == id then [] else [x])
  {
    assert [x][1..] == [];
  }

  /** The section: the list the page passed in, the list shown, and the
      add form's inputs. */
  class BreaksSection {
    const initialBreakTimes: seq<BreakTimeRow>
    var startTime: string
    var endTime: string
    var description: string  // the `label` input
    var breakTimes: seq<BreakTimeRow>
    var errorMsg: Option<string>
    var addPending: bool
    var deletePending: bool

    constructor (initial: seq<BreakTimeRow>)
      ensures initialBreakTimes == initial && breakTimes == initial
      ensures startTime == ResetStart && endTime == ResetEnd && description == ""
      ensures errorMsg == None && !addPending && !deletePending
    {
      initialBreakTimes := initial;
      breakTimes := initial;
      startTime := ResetStart;
      endTime := ResetEnd;
      description := "";
      errorMsg := None;
      addPending := false;
      deletePending := false;
    }

    /** The list as displayed. */
    function Shown(): seq<BreakTimeRow>
      reads this
    {
      SortedBreakTimes(breakTimes)
    }

    /** Submitting clears the error and sends the three named inputs. The
        transition's callback starts the action without returning its
        promise, so the transition ends as soon as the callback returns:
        `addPending` is false again before the server answers, and the
        inputs stay enabled. */
    method HandleAddBreakTime() returns (form: Form)
      modifies this
      ensures form == map["startTime" := old(startTime), "endTime" := old(endTime), "label" := old(description)]
      ensures errorMsg == None && !addPending
      ensures startTime == old(startTime) && endTime == old(endTime) && description == old(description)
      ensures breakTimes == old(breakTimes) && deletePending == old(deletePending)
    {
      form := map["startTime" := startTime, "endTime" := endTime, "label" := description];
      errorMsg := None;
      addPending := false;  // the transition ends with its callback
    }

    /** The add action's answer: success puts the inputs back to
        12:00, 13:00 and no label; a failure shows its message. The
        transition has already ended. */
    method AddSettled(result: Response)
      modifies this
      ensures addPending == old(addPending)
      ensures result.Success? ==>
                startTime == ResetStart && endTime == ResetEnd && description == "" && errorMsg == old(errorMsg)
      ensures result.Failure? ==>
                startTime == old(startTime) && endTime == old(endTime) && description == old(description)
                && errorMsg == Some(result.error)
      ensures breakTimes == old(breakTimes) && deletePending == old(deletePending)
    {
      if result.Success? {
        startTime := ResetStart;
        endTime := ResetEnd;
        description := "";
      } else {
        errorMsg := Some(result.error);
      }
    }

    /** The timer four seconds after a failure. */
    method ErrorTimeout()
      modifies this
      ensures errorMsg == None
      ensures startTime == old(startTime) && endTime == old(endTime) && description == old(description)
      ensures breakTimes == old(breakTimes) && addPending == old(addPending) && deletePending == old(deletePending)
    {
      errorMsg := None;
    }

    /** The row disappears at once, before the server answers. As with
        the add, the transition ends when its callback returns, so
        `deletePending` is false again and the other remove buttons stay
        enabled. */
    method HandleRemoveBreakTime(id: string)
      modifies this
      ensures breakTimes == WithoutBreak(old(breakTimes), id)
      ensures !deletePending
      ensures startTime == old(startTime) && endTime == old(endTime) && description == old(description)
      ensures errorMsg == old(errorMsg) && addPending == old(addPending)
    {
      breakTimes := WithoutBreak(breakTimes, id);
      deletePending := false;  // the transition ends with its callback
    }

    /** The remove action's answer: on failure the list goes back to the
        one the page passed in. */
    method RemoveSettled(result: Response)
      modifies this
      ensures breakTimes == if result.Success? then old(breakTimes) else initialBreakTimes
      ensures startTime == old(startTime) && endTime == old(endTime) && description == old(description)
      ensures errorMsg == old(errorMsg) && addPending == old(addPending) && deletePending == old(deletePending)
    {
      if !result.Success? {
        breakTimes := initialBreakTimes;
      }
    }
  }
}
