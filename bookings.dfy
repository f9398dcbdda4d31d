/** The booking server actions: creating a booking (validation, service and
    organization checks, the conflict query, the insert and the WhatsApp
    confirmation it triggers) and changing a booking's status. The bookings
    table is a sequence field that the actions reassign. */
module BookingActions {
  import opened Common
  import opened Domain
  import opened Validations

  /** The conflict query: an active booking of the organization with
      `startTime < end` and `endTime > start`. */
  predicate HasConflict(bs: seq<Booking>, org: OrgId, start: int, end: int)
  {
    exists i :: 0 <= i < |bs| && bs[i].organizationId == org && IsActive(bs[i].status)
                && bs[i].startTime < end && bs[i].endTime > start
  }

  predicate Clash(a: Booking, b: Booking)
  {
    a.organizationId == b.organizationId && IsActive(a.status) && IsActive(b.status)
    && a.startTime < b.endTime && a.endTime > b.startTime
  }

  /** No two active bookings of one organization overlap in time. */
  predicate NoDoubleBooking(bs: seq<Booking>)
  {
    forall i, j :: 0 <= i < |bs| && 0 <= j < |bs| && i != j ==> !Clash(bs[i], bs[j])
  }

  predicate UniqueIds(bs: seq<Booking>)
  {
    forall i, j :: 0 <= i < |bs| && 0 <= j < |bs| && i != j ==> bs[i].id != bs[j].id
  }

  predicate HasId(bs: seq<Booking>, id: BookingId) { exists i :: 0 <= i < |bs| && bs[i].id == id }

  /** Inserting a booking the conflict query did not object to keeps the
      table free of double bookings. */
  lemma InsertKeepsNoDoubleBooking(bs: seq<Booking>, b: Booking)
    requires NoDoubleBooking(bs)
    requires !HasConflict(bs, b.organizationId, b.startTime, b.endTime)
    ensures NoDoubleBooking(bs + [b])
  {
    var r := bs + [b];
    forall i, j | 0 <= i < |r| && 0 <= j < |r| && i != j ensures !Clash(r[i], r[j]) {
      if j == |bs| {
        assert !(r[i].organizationId == b.organizationId && IsActive(r[i].status)
                 && r[i].startTime < b.endTime && r[i].endTime > b.startTime);
      } else if i == |bs| {
        assert !(r[j].organizationId == b.organizationId && IsActive(r[j].status)
                 && r[j].startTime < b.endTime && r[j].endTime > b.startTime);
      }
    }
  }

  /** `booking.update({ where: { id }, data: { status } })` on the table. */
  function SetStatus(bs: seq<Booking>, id: BookingId, st: BookingStatus): (r: seq<Booking>)
    ensures |r| == |bs|
    ensures forall i :: 0 <= i < |bs| ==> r[i] == if bs[i].id == id then bs[i].(status := st) else bs[i]
  {
    if bs == [] then []
    else [if bs[0].id == id then bs[0].(status := st) else bs[0]] + SetStatus(bs[1..], id, st)
  }

  /** Cancelling or concluding never creates a double booking. */
  lemma DeactivateKeepsNoDoubleBooking(bs: seq<Booking>, id: BookingId, st: BookingStatus)
    requires NoDoubleBooking(bs) && !IsActive(st)
    ensures NoDoubleBooking(SetStatus(bs, id, st))
  {
    var r := SetStatus(bs, id, st);
    forall i, j | 0 <= i < |r| && 0 <= j < |r| && i != j ensures !Clash(r[i], r[j]) {
      assert !Clash(bs[i], bs[j]);
    }
  }

  /** Moving an already active booking to another active status (the
      PENDENTE to CONFIRMADO step) keeps the table free of double bookings. */
  lemma ActiveToActiveKeepsNoDoubleBooking(bs: seq<Booking>, id: BookingId, st: BookingStatus)
    requires NoDoubleBooking(bs) && IsActive(st)
    requires forall i :: 0 <= i < |bs| && bs[i].id == id ==> IsActive(bs[i].status)
    ensures NoDoubleBooking(SetStatus(bs, id, st))
  {
    var r := SetStatus(bs, id, st);
    forall i, j | 0 <= i < |r| && 0 <= j < |r| && i != j ensures !Clash(r[i], r[j]) {
      assert !Clash(bs[i], bs[j]);
    }
  }

  /** The status action itself accepts any target status for any booking:
      confirming a cancelled booking whose time was taken since then books
      the same time twice. */
  lemma ReconfirmCanDoubleBook()
    ensures var a := Booking("a", "org", "s", "Ana", "5511999999999", None, 600, 660, CONFIRMADO, None, 1, false);
            var b := Booking("b", "org", "s", "Bia", "5511888888888", None, 600, 660, CANCELADO, None, 0, false);
            NoDoubleBooking([b, a]) && !NoDoubleBooking(SetStatus([b, a], "b", CONFIRMADO))
  {
    var a := Booking("a", "org", "s", "Ana", "5511999999999", None, 600, 660, CONFIRMADO, None, 1, false);
    var b := Booking("b", "org", "s", "Bia", "5511888888888", None, 600, 660, CANCELADO, None, 0, false);
    var r := SetStatus([b, a], "b", CONFIRMADO);
    assert Clash(r[0], r[1]);
  }

  datatype CreateResult =
    | InvalidInput(fields: seq<BookingField>)
    | ServiceNotFound            // "Serviço não encontrado"
    | ServiceOfOtherOrganization // "Serviço não pertence a esta organização"
    | SlotTaken                  // "Este horário já está ocupado. Por favor, escolha outro."
    | Created(id: BookingId, startTime: int, endTime: int, status: BookingStatus)

  /** What `sendBookingConfirmation` is called with. */
  datatype ConfirmationNotice = ConfirmationNotice(
    clientName: string, clientPhone: string, serviceName: string,
    startTime: int, priceCents: int, organizationName: string)

  /** What `sendBookingCancellation` is called with. */
  datatype CancellationNotice = CancellationNotice(
    clientName: string, clientPhone: string, serviceName: string, startTime: int)

  datatype UpdateResult = UpdateFailed | Updated  // "Erro ao atualizar status" / success

  /** The pending row the create action inserts. */
  function NewBooking(input: BookingInput, id: BookingId, start: int, durationMinutes: int, now: int): (b: Booking)
    ensures b.status == PENDENTE && b.endTime == start + durationMinutes && !b.whatsappSent
  {
    Booking(id, input.organizationId, input.serviceId, input.clientName, input.clientPhone,
            OrNull(input.clientEmail), start, start + durationMinutes, PENDENTE, OrNull(input.notes), now, false)
  }

  class BookingStore {
    /** The bookings table. */
    var bookings: seq<Booking>

    constructor(initial: seq<Booking>)
      ensures bookings == initial
    {
      bookings := initial;
    }

    /** `createBookingAction`. The fresh row id and the clock are parameters. */
    method CreateBooking(input: BookingInput, fmt: Formats, services: map<ServiceId, Service>,
                         orgNames: map<OrgId, string>, newId: BookingId, now: int)
      returns (r: CreateResult, notice: Option<ConfirmationNotice>)
      modifies this
      requires !HasId(bookings, newId)
      requires forall k :: k in services ==> services[k].organizationId in orgNames
      ensures BookingErrors(input, fmt) != [] ==>
                r == InvalidInput(BookingErrors(input, fmt)) && bookings == old(bookings) && notice.None?
      ensures BookingErrors(input, fmt) == [] && input.serviceId !in services ==>
                r == ServiceNotFound && bookings == old(bookings) && notice.None?
      ensures BookingErrors(input, fmt) == [] && input.serviceId in services
              && services[input.serviceId].organizationId != input.organizationId ==>
                r == ServiceOfOtherOrganization && bookings == old(bookings) && notice.None?
      ensures BookingErrors(input, fmt) == [] && input.serviceId in services
              && services[input.serviceId].organizationId == input.organizationId ==>
                var svc := services[input.serviceId];
                var start := fmt.parseDateTime(input.startTime).value;
                if HasConflict(old(bookings), input.organizationId, start, start + svc.durationMinutes) then
                  r == SlotTaken && bookings == old(bookings) && notice.None?
                else
                  r == Created(newId, start, start + svc.durationMinutes, PENDENTE)
                  && bookings == old(bookings) + [NewBooking(input, newId, start, svc.durationMinutes, now)]
                  && notice == Some(ConfirmationNotice(input.clientName, input.clientPhone, svc.name, start,
                                                       svc.priceCents, orgNames[svc.organizationId]))
      ensures old(NoDoubleBooking(bookings)) ==> NoDoubleBooking(bookings)
      ensures old(UniqueIds(bookings)) ==> UniqueIds(bookings)
    {
      var errs := BookingErrors(input, fmt);
      if errs != [] {
        return InvalidInput(errs), None;
      }
      if input.serviceId !in services {
        return ServiceNotFound, None;
      }
      var svc := services[input.serviceId];
      if svc.organizationId != input.organizationId {
        return ServiceOfOtherOrganization, None;
      }
      assert BookingFieldOk(StartTimeField, input, fmt);
      var start := fmt.parseDateTime(input.startTime).value;
      var end := start + svc.durationMinutes;
      if HasConflict(bookings, input.organizationId, start, end) {
        return SlotTaken, None;
      }
      var b := NewBooking(input, newId, start, svc.durationMinutes, now);
      if NoDoubleBooking(bookings) {
        InsertKeepsNoDoubleBooking(bookings, b);
      }
      bookings := bookings + [b];
      r := Created(newId, start, end, PENDENTE);
      notice := Some(ConfirmationNotice(input.clientName, input.clientPhone, svc.name, start,
                                        svc.priceCents, orgNames[svc.organizationId]));
    }

    /** The follow-up of a successful WhatsApp send: `whatsappSent: true`. */
    method MarkWhatsAppSent(id: BookingId)
      modifies this
      ensures |bookings| == |old(bookings)|
      ensures forall i :: 0 <= i < |bookings| ==>
                bookings[i] == if old(bookings)[i].id == id then old(bookings)[i].(whatsappSent := true) else old(bookings)[i]
    {
      var i := 0;
      var updated: seq<Booking> := [];
      while i < |bookings|
        invariant 0 <= i <= |bookings|
        invariant |updated| == i
        invariant forall k :: 0 <= k < i ==>
                    updated[k] == if bookings[k].id == id then bookings[k].(whatsappSent := true) else bookings[k]
      {
        updated := updated + [if bookings[i].id == id then bookings[i].(whatsappSent := true) else bookings[i]];
        i := i + 1;
      }
      bookings := updated;
    }

    /** `updateBookingStatusAction`: any of CONFIRMADO, CANCELADO, CONCLUIDO
        for any booking; a missing booking makes the update throw. A
        cancellation also triggers the cancellation message. */
    method UpdateStatus(id: BookingId, status: BookingStatus, services: map<ServiceId, Service>)
      returns (r: UpdateResult, notice: Option<CancellationNotice>)
      modifies this
      requires status != PENDENTE
      requires forall i :: 0 <= i < |bookings| ==> bookings[i].serviceId in services
      ensures !HasId(old(bookings), id) ==> r == UpdateFailed && bookings == old(bookings) && notice.None?
      ensures HasId(old(bookings), id) ==> r == Updated && bookings == SetStatus(old(bookings), id, status)
      ensures notice.Some? <==> HasId(old(bookings), id) && status == CANCELADO
      ensures notice.Some? ==>
                exists i :: 0 <= i < |old(bookings)| && old(bookings)[i].id == id &&
                  notice.value == CancellationNotice(old(bookings)[i].clientName, old(bookings)[i].clientPhone,
                                                     services[old(bookings)[i].serviceId].name, old(bookings)[i].startTime)
    {
      var i := 0;
      while i < |bookings| && bookings[i].id != id
        invariant 0 <= i <= |bookings|
        invariant forall k :: 0 <= k < i ==> bookings[k].id != id
      {
        i := i + 1;
      }
      if i == |bookings| {
        return UpdateFailed, None;
      }
      var b := bookings[i];
      bookings := SetStatus(bookings, id, status);
      r := Updated;
      notice := if status == CANCELADO
                then Some(CancellationNotice(b.clientName, b.clientPhone, services[b.serviceId].name, b.startTime))
                else None;
    }
  }
}
