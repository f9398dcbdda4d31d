/** The fixed-text WhatsApp messages the booking actions send: each is a
    list of lines joined by a newline. */
module WhatsAppMessages {
  import opened Common
  import opened CivilDate

  const Footer := "_Mensagem automática - AgendaZap_"

  /** `format(startTime, "dd/MM/yyyy 'às' HH:mm")` for a local date and a
      minute of that day. */
  function FormatDateTime(d: Date, minute: nat): (r: string)
    requires Valid(d) && 0 <= d.year < 10000 && minute < 1440
    ensures |r| == 19 && r[10..14] == " às "
    ensures r[..10] == Pad2(d.day) + "/" + Pad2(d.month) + "/" + Pad4(d.year)
    ensures r[14..] == Pad2(minute / 60) + ":" + Pad2(minute % 60)
  {
    Pad2(d.day) + "/" + Pad2(d.month) + "/" + Pad4(d.year) + " às " + Pad2(minute / 60) + ":" + Pad2(minute % 60)
  }

  const PixLine := "Pague o PIX para confirmar sua reserva. Você receberá os dados de pagamento em seguida."
  const ConfirmedLine := "Seu agendamento está confirmado!"
  const FreeLine := "✅ Serviço gratuito"
  const ContactLine := "Caso precise cancelar ou reagendar, entre em contato conosco."
  const RescheduleLine := "Se desejar reagendar, acesse nosso link de agendamento."
  const PresenceLine := "Confirme sua presença respondendo esta mensagem."

  /** What the builders read: `formattedDate` is the formatted start and
      `priceText` the `Intl.NumberFormat` currency text of the price. */
  datatype MessageData = MessageData(clientName: string, serviceName: string, formattedDate: string,
                                     priceCents: int, priceText: string, organizationName: string)

  /** The price line: the value when the service is priced. */
  function PriceLine(m: MessageData): string
  {
    if m.priceCents > 0 then "💰 Valor: " + m.priceText else FreeLine
  }

  /** The payment line: the PIX instruction when the service is priced. */
  function PaymentLine(m: MessageData): string
  {
    if m.priceCents > 0
    then PixLine
    else ConfirmedLine
  }

  function ConfirmationLines(m: MessageData): seq<string>
  {
    ["Olá " + m.clientName + "! 👋",
     "",
     "Seu agendamento para *" + m.serviceName + "* na data *" + m.formattedDate + "* foi recebido!",
     "",
     "📍 *" + m.organizationName + "*",
     PriceLine(m),
     "",
     PaymentLine(m),
     "",
     ContactLine,
     "",
     Footer]
  }

  /** `buildBookingConfirmationMessage`. */
  function ConfirmationMessage(m: MessageData): string
  {
    Join(ConfirmationLines(m), "\n")
  }

  function CancellationLines(m: MessageData): seq<string>
  {
    ["Olá " + m.clientName + ",",
     "",
     "Informamos que seu agendamento para *" + m.serviceName + "* em *" + m.formattedDate + "* foi *cancelado*.",
     "",
     RescheduleLine,
     "",
     Footer]
  }

  /** `buildBookingCancellationMessage`. */
  function CancellationMessage(m: MessageData): string
  {
    Join(CancellationLines(m), "\n")
  }

  function ReminderLines(m: MessageData): seq<string>
  {
    ["Lembrete: Olá " + m.clientName + "! 🔔",
     "",
     "Sua consulta/reserva para *" + m.serviceName + "* é amanhã, *" + m.formattedDate + "*.",
     "",
     "📍 *" + m.organizationName + "*",
     "",
     PresenceLine,
     "",
     Footer]
  }

  /** `buildBookingReminderMessage`. */
  function ReminderMessage(m: MessageData): string
  {
    Join(ReminderLines(m), "\n")
  }

  /** The confirmation names the client, the service, the date and the
      organisation, and ends with the footer. */
  lemma ConfirmationContents(m: MessageData)
    ensures var msg := ConfirmationMessage(m);
            Contains(msg, m.clientName) && Contains(msg, m.serviceName)
            && Contains(msg, m.formattedDate) && Contains(msg, m.organizationName)
            && EndsWithLine(msg, "\n", Footer)
  {
    ConfirmationNamesClient(m);
    ConfirmationNamesService(m);
    ConfirmationNamesDate(m);
    ConfirmationNamesOrganization(m);
    ConfirmationEndsWithFooter(m);
  }

  lemma ConfirmationNamesClient(m: MessageData)
    ensures Contains(ConfirmationMessage(m), m.clientName)
  {
    JoinContainsMiddle(ConfirmationLines(m), "\n", 0, "Olá ", m.clientName, "! 👋");
  }

  lemma ConfirmationNamesService(m: MessageData)
    ensures Contains(ConfirmationMessage(m), m.serviceName)
  {
    JoinContainsMiddle(ConfirmationLines(m), "\n", 2, "Seu agendamento para *", m.serviceName,
                       "* na data *" + m.formattedDate + "* foi recebido!");
  }

  lemma ConfirmationNamesDate(m: MessageData)
    ensures Contains(ConfirmationMessage(m), m.formattedDate)
  {
    JoinContainsMiddle(ConfirmationLines(m), "\n", 2, "Seu agendamento para *" + m.serviceName + "* na data *",
                       m.formattedDate, "* foi recebido!");
  }

  lemma ConfirmationNamesOrganization(m: MessageData)
    ensures Contains(ConfirmationMessage(m), m.organizationName)
  {
    JoinContainsMiddle(ConfirmationLines(m), "\n", 4, "📍 *", m.organizationName, "*");
  }

  lemma ConfirmationEndsWithFooter(m: MessageData)
    ensures EndsWithLine(ConfirmationMessage(m), "\n", Footer)
  {
    JoinEndsWithLine(ConfirmationLines(m), "\n");
  }

  /** A priced service asks for the PIX payment; a free one says so and
      that the booking stands. */
  lemma ConfirmationPriceLines(m: MessageData)
    ensures var msg := ConfirmationMessage(m);
            if m.priceCents > 0 then
              Contains(msg, "💰 Valor: " + m.priceText)
              && Contains(msg, PixLine)
            else
              Contains(msg, FreeLine) && Contains(msg, ConfirmedLine)
  {
    var lines := ConfirmationLines(m);
    JoinContainsMiddle(lines, "\n", 5, "", PriceLine(m), "");
    JoinContainsMiddle(lines, "\n", 7, "", PaymentLine(m), "");
  }

  /** The cancellation names the client, the service and the date, says
      `*cancelado*`, and ends with the footer. */
  lemma CancellationContents(m: MessageData)
    ensures var msg := CancellationMessage(m);
            Contains(msg, m.clientName) && Contains(msg, m.serviceName) && Contains(msg, m.formattedDate)
            && Contains(msg, "*cancelado*") && EndsWithLine(msg, "\n", Footer)
  {
    var lines := CancellationLines(m);
    JoinContainsMiddle(lines, "\n", 0, "Olá ", m.clientName, ",");
    JoinContainsMiddle(lines, "\n", 2, "Informamos que seu agendamento para *", m.serviceName,
                       "* em *" + m.formattedDate + "* foi *cancelado*.");
    JoinContainsMiddle(lines, "\n", 2, "Informamos que seu agendamento para *" + m.serviceName + "* em *",
                       m.formattedDate, "* foi *cancelado*.");
    JoinContainsMiddle(lines, "\n", 2, "Informamos que seu agendamento para *" + m.serviceName + "* em *"
                       + m.formattedDate + "* foi ", "*cancelado*", ".");
    JoinEndsWithLine(lines, "\n");
  }

  /** The reminder names the client, the service, the date and the
      organisation, and ends with the footer. */
  lemma ReminderContents(m: MessageData)
    ensures var msg := ReminderMessage(m);
            Contains(msg, m.clientName) && Contains(msg, m.serviceName)
            && Contains(msg, m.formattedDate) && Contains(msg, m.organizationName)
            && EndsWithLine(msg, "\n", Footer)
  {
    var lines := ReminderLines(m);
    JoinContainsMiddle(lines, "\n", 0, "Lembrete: Olá ", m.clientName, "! 🔔");
    JoinContainsMiddle(lines, "\n", 2, "Sua consulta/reserva para *", m.serviceName,
                       "* é amanhã, *" + m.formattedDate + "*.");
    JoinContainsMiddle(lines, "\n", 2, "Sua consulta/reserva para *" + m.serviceName + "* é amanhã, *",
                       m.formattedDate, "*.");
    JoinContainsMiddle(lines, "\n", 4, "📍 *", m.organizationName, "*");
    JoinEndsWithLine(lines, "\n");
  }
}
