/** The per-row status buttons of the bookings dashboard: which status
    changes the interface offers for a booking's current status. */
module BookingStatusActions {
  import opened Common
  import opened Domain
  import opened BookingActions

  datatype View =
    | TerminalLabel(text: string)               // "Cancelado" / "Concluído"
    | ActionButtons(actions: seq<BookingStatus>) // buttons, in display order

  /** The component over the status string it receives. */
  function Render(currentStatus: string): (v: View)
    ensures v.TerminalLabel? <==> currentStatus == "CANCELADO" || currentStatus == "CONCLUIDO"
    ensures v.ActionButtons? ==> PENDENTE !in v.actions
    ensures currentStatus == "PENDENTE" ==> v == ActionButtons([CONFIRMADO, CANCELADO])
    ensures currentStatus == "CONFIRMADO" ==> v == ActionButtons([CONCLUIDO, CANCELADO])
    ensures ParseStatus(currentStatus).None? ==> v == ActionButtons([])
  {
    if currentStatus == "CANCELADO" || currentStatus == "CONCLUIDO" then
      TerminalLabel(if currentStatus == "CANCELADO" then "Cancelado" else "Concluído")
    else
      ActionButtons(
        (if currentStatus == "PENDENTE" then [CONFIRMADO] else [])
        + (if currentStatus == "CONFIRMADO" then [CONCLUIDO] else [])
        + (if currentStatus == "PENDENTE" || currentStatus == "CONFIRMADO" then [CANCELADO] else []))
  }

  /** The status changes offered for a booking in status `s`. */
  function Offered(s: BookingStatus): (r: seq<BookingStatus>)
    ensures forall t :: t in r ==> t != PENDENTE
    ensures !IsActive(s) <==> r == []
  {
    match Render(StatusName(s))
    case TerminalLabel(_) => []
    case ActionButtons(actions) => actions
  }

  /** Every change the buttons offer keeps the bookings table free of
      double bookings: only active bookings get buttons, and each button
      either keeps the booking active or releases its time. */
  lemma OfferedKeepsNoDoubleBooking(bs: seq<Booking>, k: nat, st: BookingStatus)
    requires NoDoubleBooking(bs) && UniqueIds(bs)
    requires k < |bs| && st in Offered(bs[k].status)
    ensures NoDoubleBooking(SetStatus(bs, bs[k].id, st))
  {
    if IsActive(st) {
      assert forall j :: 0 <= j < |bs| && bs[j].id == bs[k].id ==> j == k;
      ActiveToActiveKeepsNoDoubleBooking(bs, bs[k].id, st);
    } else {
      DeactivateKeepsNoDoubleBooking(bs, bs[k].id, st);
    }
  }

  /** The toast after a successful update. */
  function SuccessToast(status: BookingStatus): (s: string)
    ensures Contains(s, Lower(StatusName(status)))
  {
    var prefix := "Status atualizado para ";
    ContainsInSuffix(prefix, Lower(StatusName(status)), Lower(StatusName(status)));
    assert Contains(Lower(StatusName(status)), Lower(StatusName(status))) by {
      ContainsAt(Lower(StatusName(status)), Lower(StatusName(status)), 0);
    }
    prefix + Lower(StatusName(status))
  }
}
