/** The WhatsApp gateway's webhook: an authenticated `messages.upsert` event
    from a client answers that client's newest pending booking, confirming
    or cancelling it by keyword. */
module WhatsAppWebhook {
  import opened Common
  import opened Domain
  import opened BookingActions

  datatype Message = Message(conversation: Option<string>, extendedText: Option<string>)

  /** The fields of the gateway's event the handler reads. */
  datatype Payload = Payload(event: string, remoteJid: string, fromMe: bool, message: Option<Message>)

  datatype Reply = Unauthorized | Received   // 401 / `{ received: true }`

  const JidSuffix: string := "@s.whatsapp.net"
  const ConfirmKeywords: seq<string> := ["sim", "confirmo", "ok", "confirmar", "confirmado"]
  const CancelKeywords: seq<string> := ["cancelar", "cancela", "não", "nao"]

  /** `keywords.some((kw) => text.includes(kw))`. */
  predicate MentionsAny(text: string, keywords: seq<string>)
  {
    exists i :: 0 <= i < |keywords| && Contains(text, keywords[i])
  }

  datatype Intent = Confirm | Cancel | NoIntent

  /** Confirmation keywords are tested first. */
  function Classify(text: string): (r: Intent)
    ensures r == Confirm <==> MentionsAny(text, ConfirmKeywords)
    ensures r == Cancel <==> !MentionsAny(text, ConfirmKeywords) && MentionsAny(text, CancelKeywords)
  {
    if MentionsAny(text, ConfirmKeywords) then Confirm
    else if MentionsAny(text, CancelKeywords) then Cancel
    else NoIntent
  }

  /** Keywords are matched as substrings and confirmation wins: a negated
      confirmation confirms the booking. */
  lemma ClassifyNegatedConfirmation()
    ensures Classify("não confirmo") == Confirm
  {
    ContainsAt("não confirmo", "confirmo", 4);
    assert ConfirmKeywords[1] == "confirmo";
  }

  /** A word that merely contains "sim" ("assim") confirms too. */
  lemma ClassifyEmbeddedKeyword()
    ensures Classify("cancelar assim") == Confirm
  {
    ContainsAt("cancelar assim", "sim", 11);
    assert ConfirmKeywords[0] == "sim";
  }

  lemma ClassifyCancel()
    ensures Classify("pode cancelar") == Cancel
  {
    var t := "pode cancelar";
    forall i | 0 <= i < |ConfirmKeywords| ensures !Contains(t, ConfirmKeywords[i]) {
      var kw := ConfirmKeywords[i];
      if i == 0 { NotContainsMissingChar(t, kw, 0); }
      else if i == 2 { NotContainsMissingChar(t, kw, 1); }
      else { NotContainsMissingChar(t, kw, 3); }
    }
    ContainsAt(t, "cancelar", 5);
    assert CancelKeywords[0] == "cancelar";
  }

  lemma ClassifyNoKeyword()
    ensures Classify("talvez") == NoIntent
  {
    var t := "talvez";
    forall i | 0 <= i < |ConfirmKeywords| ensures !Contains(t, ConfirmKeywords[i]) {
      NotContainsMissingChar(t, ConfirmKeywords[i], if i == 2 then 1 else 0);
    }
    forall i | 0 <= i < |CancelKeywords| ensures !Contains(t, CancelKeywords[i]) {
      NotContainsMissingChar(t, CancelKeywords[i], 0);
    }
  }

  /** `conversation || extendedTextMessage?.text || ""`: an empty string
      counts as absent. */
  function MessageText(m: Message): (t: string)
    ensures t != "" ==> Some(t) == m.conversation || Some(t) == m.extendedText
    ensures m.conversation.Some? && m.conversation.value != "" ==> t == m.conversation.value
  {
    if m.conversation.Some? && m.conversation.value != "" then m.conversation.value
    else if m.extendedText.Some? && m.extendedText.value != "" then m.extendedText.value
    else ""
  }

  /** `remoteJid.replace("@s.whatsapp.net", "")`: the first occurrence only. */
  function PhoneOf(remoteJid: string): string
  {
    ReplaceFirst(remoteJid, JidSuffix, "")
  }

  /** A JID built from a phone number yields that number. */
  lemma {:induction false} PhoneOfJid(phone: string)
    requires '@' !in phone
    ensures PhoneOf(phone + JidSuffix) == phone
    decreases |phone|
  {
    var s := phone + JidSuffix;
    if phone == [] {
      assert s == JidSuffix;
    } else {
      assert s[0] == phone[0] && s[0] != '@';
      assert s[..|JidSuffix|][0] == s[0];
      assert s[1..] == phone[1..] + JidSuffix;
      PhoneOfJid(phone[1..]);
      assert [phone[0]] + phone[1..] == phone;
    }
  }

  predicate PendingFor(b: Booking, phone: string) { b.clientPhone == phone && b.status == PENDENTE }

  /** `findFirst({ clientPhone, status: "PENDENTE" }, orderBy createdAt desc)`,
      as an index; among equal creation times the earliest row is taken. */
  function NewestPending(bs: seq<Booking>, phone: string): (r: Option<nat>)
    ensures r.Some? ==> r.value < |bs| && PendingFor(bs[r.value], phone)
    ensures r.Some? ==> forall j :: 0 <= j < |bs| && PendingFor(bs[j], phone) ==> bs[j].createdAt <= bs[r.value].createdAt
    ensures r.None? <==> forall j :: 0 <= j < |bs| ==> !PendingFor(bs[j], phone)
  {
    if bs == [] then None
    else
      var prev := NewestPending(bs[..|bs| - 1], phone);
      var last := |bs| - 1;
      if PendingFor(bs[last], phone) && (prev.None? || bs[prev.value].createdAt < bs[last].createdAt)
      then Some(last)
      else prev
  }

  /** The table after `handleIncomingMessage(phone, text)`. */
  function AfterMessage(bs: seq<Booking>, phone: string, text: string): seq<Booking>
  {
    match NewestPending(bs, phone)
    case None => bs
    case Some(i) =>
      match Classify(text)
      case Confirm => SetStatus(bs, bs[i].id, CONFIRMADO)
      case Cancel => SetStatus(bs, bs[i].id, CANCELADO)
      case NoIntent => bs
  }

  /** A client's answer never creates a double booking: it moves a pending
      booking to CONFIRMADO (still active) or to CANCELADO. */
  lemma AfterMessageKeepsNoDoubleBooking(bs: seq<Booking>, phone: string, text: string)
    requires NoDoubleBooking(bs) && UniqueIds(bs)
    ensures NoDoubleBooking(AfterMessage(bs, phone, text))
  {
    match NewestPending(bs, phone)
    case None =>
    case Some(i) =>
      match Classify(text)
      case Confirm =>
        assert forall k :: 0 <= k < |bs| && bs[k].id == bs[i].id ==> k == i;
        ActiveToActiveKeepsNoDoubleBooking(bs, bs[i].id, CONFIRMADO);
      case Cancel => DeactivateKeepsNoDoubleBooking(bs, bs[i].id, CANCELADO);
      case NoIntent =>
  }

  /** Only the chosen booking changes, and only its status. */
  lemma AfterMessageTouchesOnlyNewest(bs: seq<Booking>, phone: string, text: string)
    requires UniqueIds(bs)
    ensures var r := AfterMessage(bs, phone, text);
            |r| == |bs| &&
            forall k :: 0 <= k < |bs| && r[k] != bs[k] ==>
              NewestPending(bs, phone) == Some(k) && Classify(text) != NoIntent &&
              r[k] == bs[k].(status := if Classify(text) == Confirm then CONFIRMADO else CANCELADO)
  {
  }

  method HandleIncomingMessage(store: BookingStore, phone: string, text: string)
    modifies store
    ensures store.bookings == AfterMessage(old(store.bookings), phone, text)
  {
    var found := NewestPending(store.bookings, phone);
    if found.None? {
      return;
    }
    var booking := store.bookings[found.value];
    var intent := Classify(text);
    if intent == Confirm {
      store.bookings := SetStatus(store.bookings, booking.id, CONFIRMADO);
    } else if intent == Cancel {
      store.bookings := SetStatus(store.bookings, booking.id, CANCELADO);
    }
  }

  /** `apiKey !== process.env.EVOLUTION_API_KEY`: a missing header or an
      unset key never authorizes. */
  predicate Authorized(header: Option<string>, configured: Option<string>)
  {
    header.Some? && configured.Some? && header.value == configured.value
  }

  /** `POST`: the key is checked first; only client messages that carry a
      message body reach the booking table. */
  method Post(store: BookingStore, header: Option<string>, configured: Option<string>, payload: Payload)
    returns (reply: Reply)
    modifies store
    ensures !Authorized(header, configured) ==> reply == Unauthorized && store.bookings == old(store.bookings)
    ensures Authorized(header, configured) ==> reply == Received
    ensures Authorized(header, configured) && payload.event == "messages.upsert" && !payload.fromMe && payload.message.Some? ==>
              store.bookings == AfterMessage(old(store.bookings), PhoneOf(payload.remoteJid),
                                             Lower(Trim(MessageText(payload.message.value))))
    ensures !(payload.event == "messages.upsert" && !payload.fromMe && payload.message.Some?) ==>
              store.bookings == old(store.bookings)
  {
    if !Authorized(header, configured) {
      return Unauthorized;
    }
    if payload.event == "messages.upsert" && !payload.fromMe && payload.message.Some? {
      var phone := PhoneOf(payload.remoteJid);
      var text := MessageText(payload.message.value);
      HandleIncomingMessage(store, phone, Lower(Trim(text)));
    }
    return Received;
  }
}
