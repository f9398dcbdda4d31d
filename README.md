# AgendaZap scheduling core, modelled in Dafny

AgendaZap is a booking application for small businesses. An organization publishes its services and its weekly availability, clients book time slots on a public page, and a WhatsApp gateway sends confirmations and reads the clients' replies. This project models the logic under that application and proves what it promises:

- **Slot engine** (`slots.dfy`): the public slot endpoint lays candidate start times on a grid of the service's duration inside the day's working window. A candidate survives only if it overlaps no break and no active (PENDENTE or CONFIRMADO) booking. The older generator kept in the booking actions is modelled separately, with its fixed 08:00–18:00 window and its nested hour and minute loops.
- **Bookings** (`bookings.dfy`, `booking_status_actions.dfy`, `whatsapp_webhook.dfy`): creating a booking with its checks and conflict rule, setting a status, the transitions the dashboard offers, and the webhook that confirms or cancels a client's newest pending booking by keyword. The invariant "no two active bookings of an organization overlap" is proved for every path that keeps it. A counterexample lemma shows the one path that can break it: re-confirming a cancelled booking.
- **Availability** (`availability.dfy`, `working_hours_form.dfy`, `break_times_section.dfy`, `unavailable_days_section.dfy`, `booking_calendar.dfy`):
  - the working-hours, break and blocked-day actions and their schemas;
  - the settings forms and lists, with their stable sorts and optimistic removals;
  - the booking calendar: its month grid, which days can be picked, what a click does, and the morning/afternoon/evening split of slots.
- **Message templates** (`template_constants.dfy`, `whatsapp_templates.dfy`, `template_manager.dfy`, `whatsapp_messages.dfy`):
  - `{{key}}` substitution and the default templates;
  - the per-organization store of custom texts;
  - the editor, with its preview, cursor splice and save, reset and cancel handlers;
  - the fixed confirmation, cancellation and reminder messages.
- **Organizations** (`organization.dfy`, `organization_form.dfy`, `slugs.dfy`, `auth_setup.dfy`, `check_org_name.dfy`):
  - the profile schema and update;
  - the lifecycle ACTIVE → DELETED → PENDING_REACTIVATION → ACTIVE;
  - slug generation and the form's auto-slug rule;
  - account setup with its collision suffix, and the name-availability check.
- **Services** (`services.dfy`, `service_form_dialog.dfy`, `service_card.dfy`): the catalogue actions confined to the caller's organization, the dialog's client-side validation (proved at least as strict as the server's schema), and the card's labels.
- **Shared** (`common.dfy`, `domain.dfy`, `civil_date.dfy`, `validations.dfy`, `phone_formatter.dfy`, `sorting.dfy`):
  - the JavaScript string operations the code relies on;
  - the database enumerations and rows;
  - calendar dates and weekdays;
  - the shared zod schemas;
  - the phone formatter;
  - a stable comparator sort.

Modelling conventions:
- Database tables are `seq` or `map` fields of a class, and the actions are methods that reassign them. `findFirst` is the first row in sequence order.
- Times of day are minutes since midnight, and calendar days are (year, month, day) triples with day numbers.
- The clock, random tokens, freshly generated ids, the signed-in organization and format checks the code delegates to libraries (zod's `.time`, `.email`, `.uuid`, `.datetime`, `parseFloat`, `getHours`) are parameters.
- Where a name, a comment or the interface suggests one behaviour and the code does another, the code is followed. For example, `updateBookingStatusAction` sets any status it is given, including re-confirming a cancelled booking. `renderTemplate` applies its substitutions one after another, so rendering twice can differ from rendering once.

## Model

| member | source | states |
|---|---|---|
| Domain.ParseStatus | apps/web/src/app/dashboard/bookings/booking-actions.tsx:12 | a status string that is read as a status is that status's own name (also apps/web/src/app/dashboard/bookings/booking-actions.tsx:35-67) |
| Domain.ParseStatusName | apps/web/src/app/dashboard/bookings/booking-actions.tsx:35-67 | every status name reads back as its status |
| CivilDate.DaysInMonth | apps/web/src/components/booking/booking-calendar.tsx:63 | a month has 28 to 31 days |
| CivilDate.Weekday | apps/web/src/app/api/slots/route.ts:72 | `getDay()` lies in 0..6 (also apps/web/src/components/booking/booking-calendar.tsx:92) |
| CivilDate.NextDayIs | apps/web/src/components/booking/booking-calendar.tsx:71 | `addDays(day, 1)` moves to the next day of the month, from a month's last day to the first of the next month, and from 31 December to 1 January |
| CivilDate.NextDayNumber | apps/web/src/components/booking/booking-calendar.tsx:71 | the next day's day number is one more |
| CivilDate.DayNumberOrder | apps/web/src/components/booking/booking-calendar.tsx:82 | comparing instants at midnight is the same as comparing dates by year, month and day, in both directions, and equal instants mean equal dates |
| CivilDate.DateKey | apps/web/src/components/booking/booking-calendar.tsx:86 | `format(day, "yyyy-MM-dd")` is ten characters with `-` at positions 4 and 7 |
| CivilDate.ParseDateKey | apps/web/src/app/api/slots/route.ts:70-71 | `split("-").map(Number)` yields only valid dates (also apps/web/src/app/actions/availability.ts:349) |
| CivilDate.DateKeyRoundTrip | apps/web/src/components/booking/booking-calendar.tsx:86 | reading back a formatted date key gives the same date (also apps/web/src/app/api/slots/route.ts:70-71) |
| Validations.BrazilPhoneDigits | apps/web/src/lib/validations.ts:14-19 | a phone that `/^55\d{10,11}$/` accepts consists of digits only, so removing non-digits leaves it unchanged |
| Validations.BrazilPhoneShape | apps/web/src/lib/validations.ts:14-19 | `55`, a two-digit area code and a local number of 8 or 9 digits is accepted |
| Validations.AllBookingFields | apps/web/src/lib/validations.ts:7-23 | the field list names every field of the booking schema |
| Validations.FailingFields | apps/web/src/lib/validations.ts:7-23 | the failing fields are exactly the listed fields whose check fails |
| Validations.BookingErrors | apps/web/src/lib/validations.ts:7-23 | `safeParse` succeeds exactly when every field check passes, reports exactly the failing fields, and on success the start time reads as an instant |
| Validations.ValidOrganizationWitness | apps/web/src/lib/validations.ts:48-62 | a name, a three-letter-or-longer slug of `[a-z0-9-]` and a Brazilian number pass the organization schema |
| Validations.ExampleFieldsOk | apps/web/src/lib/validations.ts:49-57 | the example name and slug meet their length limits and the slug pattern |
| Validations.ExamplePhoneOk | apps/web/src/lib/validations.ts:58-61 | `5511999999999` is a valid WhatsApp number |
| Validations.ShortSlugRefused | apps/web/src/lib/validations.ts:50-53 | a two-character slug is refused |
| Validations.CapitalInSlugRefused | apps/web/src/lib/validations.ts:54-57 | a slug with a capital letter is refused |
| SlotEngine.NumberOf | apps/web/src/app/api/slots/route.ts:11 | `Number(part)` on a time part is a number exactly when the part is a string of decimal digits (the empty string reads as 0), and that number is never negative |
| SlotEngine.TimeToMinutes | apps/web/src/app/api/slots/route.ts:10-13 | `timeToMinutes` gives no negative result; a missing or non-numeric part gives NaN (None) |
| SlotEngine.TimeToMinutesHHmm | apps/web/src/app/api/slots/route.ts:10-13 | for every valid `HH:mm` text, `timeToMinutes` returns `HH * 60 + mm` |
| SlotEngine.JsDayToEnumShift | apps/web/src/app/api/slots/route.ts:15-24 | `JS_DAY_TO_ENUM` has seven entries, and index `d` (Sunday = 0) names the weekday at position `(d + 6) % 7` of the Monday-first enumeration |
| SlotEngine.JsDayToEnumCovers | apps/web/src/app/api/slots/route.ts:15-24 | every weekday of the enumeration appears in the table |
| SlotEngine.IntervalsOverlapMeaning | apps/web/src/app/api/slots/route.ts:26-34 | for non-empty half-open intervals, `intervalsOverlap` holds exactly when some minute lies in both |
| SlotEngine.IntervalsOverlapSymmetric | apps/web/src/app/api/slots/route.ts:26-34 | the overlap test does not depend on the order of its two intervals |
| SlotEngine.AvailableStarts | apps/web/src/app/api/slots/route.ts:122-153 | the instants the slot loop pushes from a given offset on; characterised by `AvailableStartsIff`, `AvailableStartsLower` and `AvailableStartsSpaced` |
| SlotEngine.AvailableStartsIff | apps/web/src/app/api/slots/route.ts:122-153 | an instant is offered exactly when it is `workStart + k * duration` for some `k`, the slot ends by `workEnd`, and it overlaps no break and no active booking of the day |
| SlotEngine.AvailableStartsLower | apps/web/src/app/api/slots/route.ts:122-126 | every offered slot starts at or after the start of work |
| SlotEngine.AvailableStartsSpaced | apps/web/src/app/api/slots/route.ts:122-153 | offered slots are in increasing order and each starts at least one duration after the one before, so no two overlap |
| SlotEngine.GenerateSlots | apps/web/src/app/api/slots/route.ts:120-153 | the `for` loop over minute offsets pushes exactly the `AvailableStarts` sequence |
| SlotEngine.DayBookings | apps/web/src/app/api/slots/route.ts:86-96 | the booking query returns exactly the intervals of the organization's PENDENTE or CONFIRMADO bookings that start within the requested day |
| SlotEngine.BreakIntervals | apps/web/src/app/api/slots/route.ts:82-85 | the break intervals are exactly the organization's break rows whose two bounds read as numbers (also apps/web/src/app/api/slots/route.ts:112-115) |
| SlotEngine.FindWorkingHours | apps/web/src/app/api/slots/route.ts:79-81 | `findFirst` returns a row of that organization and weekday when one exists, and nothing only when none exists |
| SlotEngine.Get | apps/web/src/app/api/slots/route.ts:40-159 | a missing or empty parameter gives 400 and nothing else does; an unknown service or one of another organization gives 404 and nothing else does; with those checks passed, an unreadable date is refused and every readable one gets a slots answer; that answer carries the service's `duration`, `total` the number of slots, no slots on a non-working day, and on a working day exactly `AvailableStarts` over that weekday's hours, the organization's breaks and the day's active bookings |
| SlotEngine.WithoutBookings | apps/web/src/app/actions/booking.ts:227-235 | the filter keeps exactly the slots that overlap no existing booking |
| SlotEngine.LegacyAvailableSlots | apps/web/src/app/actions/booking.ts:173-245 | an unknown service is refused and nothing else is; with a known service an invalid date ends in the catch-all error and nothing else does; otherwise the answer is the 08:00-18:00 candidates with the day's active bookings filtered out, with the service's duration |
| SlotEngine.LegacyDay | apps/web/src/app/actions/booking.ts:196-209 | the candidates of the hours from `hour` to 17; characterised by `LegacyDayMembers` and `LegacyDayBounds` |
| SlotEngine.LegacyHour | apps/web/src/app/actions/booking.ts:197-208 | the candidates of one hour from minute `minute` on; characterised by `LegacyHourMembers` and `LegacyHourBounds` |
| SlotEngine.LegacyCandidates | apps/web/src/app/actions/booking.ts:196-209 | the outer loop over the hours 8 to 17 produces exactly `LegacyDay` |
| SlotEngine.LegacyMinutes | apps/web/src/app/actions/booking.ts:197-208 | the inner loop over the minutes of one hour produces exactly `LegacyHour` |
| SlotEngine.LegacyDayStep | apps/web/src/app/actions/booking.ts:196-209 | one turn of the outer loop moves that hour's candidates from the remaining day to the slots produced, in order |
| SlotEngine.LegacyHourBounds | apps/web/src/app/actions/booking.ts:197-205 | every candidate the minute loop yields from minute `minute` of an hour on starts at or after that minute of that hour and ends by 18:00 |
| SlotEngine.LegacyDayBounds | apps/web/src/app/actions/booking.ts:188-209 | every candidate from hour `hour` on starts at or after that hour and ends by 18:00, so from 08:00 every one lies within 08:00-18:00 |
| SlotEngine.LegacyHourMembers | apps/web/src/app/actions/booking.ts:197-205 | an instant is offered by the minute loop of an hour, from `minute` on, exactly when it lies in that hour, a whole number of steps of the duration past `minute`, and its slot ends by 18:00 |
| SlotEngine.LegacyDayMembers | apps/web/src/app/actions/booking.ts:196-209 | an instant is a candidate of the day exactly when it is at or after the first hour, its minute within its hour is a multiple of the duration, and its slot ends by 18:00 |
| SlotEngine.LegacyOverlapExample | apps/web/src/app/actions/booking.ts:196-197 | since each hour restarts at minute 0, a 90-minute service gets candidates at 08:00 and 09:00, and those two overlap |
| BookingActions.InsertKeepsNoDoubleBooking | apps/web/src/app/actions/booking.ts:45-86 | inserting a booking that the conflict query found no clash for keeps every organization free of overlapping active bookings |
| BookingActions.SetStatus | apps/web/src/app/actions/booking.ts:139-141 | the status update keeps the table's length and changes only the status of the rows with that id |
| BookingActions.DeactivateKeepsNoDoubleBooking | apps/web/src/app/actions/booking.ts:134-146 | cancelling or concluding a booking never creates a double booking |
| BookingActions.ActiveToActiveKeepsNoDoubleBooking | apps/web/src/app/actions/booking.ts:134-146 | moving an active booking to another active status never creates a double booking |
| BookingActions.ReconfirmCanDoubleBook | apps/web/src/app/actions/booking.ts:134-146 | counterexample: the action accepts CONFIRMADO for a cancelled booking whose time another booking has since taken, which leaves two active bookings at the same time |
| BookingActions.NewBooking | apps/web/src/app/actions/booking.ts:70-81 | the inserted row is PENDENTE, ends one service duration after it starts, and has not been sent by WhatsApp |
| BookingActions.BookingStore.CreateBooking | apps/web/src/app/actions/booking.ts:18-120 | invalid input returns the failing fields; an unknown service, a service of another organization and a taken slot are refused, with the table unchanged in each case; otherwise exactly one PENDENTE row is appended and the confirmation message gets the client, the service, its price and the organization's name; no double booking and unique ids are preserved |
| BookingActions.BookingStore.MarkWhatsAppSent | apps/web/src/app/actions/booking.ts:97-104 | sets `whatsappSent` on the rows with that id and changes nothing else |
| BookingActions.BookingStore.UpdateStatus | apps/web/src/app/actions/booking.ts:134-166 | an unknown id fails and leaves the table as it was; otherwise the status is set; the cancellation message is sent exactly when the status is CANCELADO, and carries that booking's client, phone, service name and start |
| BookingStatusActions.Render | apps/web/src/app/dashboard/bookings/booking-actions.tsx:35-79 | CANCELADO and CONCLUIDO show a label and nothing else does; PENDENTE offers confirm and cancel; CONFIRMADO offers conclude and cancel; an unknown status offers no buttons; PENDENTE is never offered |
| BookingStatusActions.Offered | apps/web/src/app/dashboard/bookings/booking-actions.tsx:45-77 | no button leads back to PENDENTE, and there are no buttons exactly when the status is inactive |
| BookingStatusActions.OfferedKeepsNoDoubleBooking | apps/web/src/app/dashboard/bookings/booking-actions.tsx:45-77 | every change the buttons offer keeps the table free of double bookings (also apps/web/src/app/actions/booking.ts:134-146) |
| BookingStatusActions.SuccessToast | apps/web/src/app/dashboard/bookings/booking-actions.tsx:27-28 | the success toast contains the lower-cased status name |
| WhatsAppMessages.FormatDateTime | apps/web/src/lib/whatsapp.ts:49-51 | `dd/MM/yyyy 'às' HH:mm` is nineteen characters: the zero-padded day, month and four-digit year, then ` às `, then the zero-padded hour and minute |
| WhatsAppMessages.ConfirmationMessage | apps/web/src/lib/whatsapp.ts:46-76 | the text `buildBookingConfirmationMessage` returns, its lines joined by newlines; what it holds is stated by `ConfirmationContents` and the lemmas after it |
| WhatsAppMessages.ConfirmationContents | apps/web/src/lib/whatsapp.ts:46-76 | the confirmation names the client, the service, the date and the organization, and its last line is the automatic-message footer |
| WhatsAppMessages.ConfirmationNamesClient | apps/web/src/lib/whatsapp.ts:59 | the greeting line carries the client's name |
| WhatsAppMessages.ConfirmationNamesService | apps/web/src/lib/whatsapp.ts:61 | the booking line carries the service's name |
| WhatsAppMessages.ConfirmationNamesDate | apps/web/src/lib/whatsapp.ts:61 | the booking line carries the formatted date |
| WhatsAppMessages.ConfirmationNamesOrganization | apps/web/src/lib/whatsapp.ts:63 | the location line carries the organization's name |
| WhatsAppMessages.ConfirmationEndsWithFooter | apps/web/src/lib/whatsapp.ts:74-75 | the message ends with the footer line |
| WhatsAppMessages.ConfirmationPriceLines | apps/web/src/lib/whatsapp.ts:64-70 | a priced service shows its value and asks for the PIX payment; a free one says it is free and that the booking is confirmed |
| WhatsAppMessages.CancellationMessage | apps/web/src/lib/whatsapp.ts:78-94 | the text `buildBookingCancellationMessage` returns; what it holds is stated by `CancellationContents` |
| WhatsAppMessages.CancellationContents | apps/web/src/lib/whatsapp.ts:78-94 | the cancellation names the client, the service and the date, says `*cancelado*`, and ends with the footer |
| WhatsAppMessages.ReminderMessage | apps/web/src/lib/whatsapp.ts:96-117 | the text `buildBookingReminderMessage` returns; what it holds is stated by `ReminderContents` |
| WhatsAppMessages.ReminderContents | apps/web/src/lib/whatsapp.ts:96-117 | the reminder names the client, the service, the date and the organization, and ends with the footer |
| WhatsAppWebhook.Classify | apps/web/src/app/api/webhook/whatsapp/route.ts:95-111 | a text confirms exactly when it contains a confirmation keyword, and cancels exactly when it contains no confirmation keyword but a cancellation keyword |
| WhatsAppWebhook.ClassifyNegatedConfirmation | apps/web/src/app/api/webhook/whatsapp/route.ts:96-99 | `não confirmo` confirms, because the confirmation keywords are checked first |
| WhatsAppWebhook.ClassifyEmbeddedKeyword | apps/web/src/app/api/webhook/whatsapp/route.ts:96-99 | `cancelar assim` confirms, because `sim` is matched inside `assim` |
| WhatsAppWebhook.ClassifyCancel | apps/web/src/app/api/webhook/whatsapp/route.ts:97-105 | `pode cancelar` cancels |
| WhatsAppWebhook.ClassifyNoKeyword | apps/web/src/app/api/webhook/whatsapp/route.ts:99-111 | `talvez` matches neither list and changes nothing |
| WhatsAppWebhook.MessageText | apps/web/src/app/api/webhook/whatsapp/route.ts:45-48 | a non-empty text comes from `conversation` or from the extended text, and a non-empty `conversation` wins |
| WhatsAppWebhook.PhoneOfJid | apps/web/src/app/api/webhook/whatsapp/route.ts:44 | removing `@s.whatsapp.net` from a JID built from a phone number gives the number back |
| WhatsAppWebhook.NewestPending | apps/web/src/app/api/webhook/whatsapp/route.ts:78-88 | the booking found is a PENDENTE booking of that phone created no earlier than any other, and none is found exactly when the phone has no pending booking |
| WhatsAppWebhook.AfterMessageKeepsNoDoubleBooking | apps/web/src/app/api/webhook/whatsapp/route.ts:76-112 | a client's answer never creates a double booking |
| WhatsAppWebhook.AfterMessageTouchesOnlyNewest | apps/web/src/app/api/webhook/whatsapp/route.ts:90-111 | only the newest pending booking of the phone can change, only when the text has an intent, and only its status (to CONFIRMADO or CANCELADO as classified) |
| WhatsAppWebhook.HandleIncomingMessage | apps/web/src/app/api/webhook/whatsapp/route.ts:76-112 | the bookings table afterwards is `AfterMessage` of the table before |
| WhatsAppWebhook.Post | apps/web/src/app/api/webhook/whatsapp/route.ts:29-65 | a wrong or missing key gives 401 and changes nothing; an authorized request is acknowledged; a client's `messages.upsert` with a body is handled on the phone of its JID and its trimmed, lower-cased text; every other event changes nothing |
| TemplateConstants.ParseType | apps/web/src/lib/whatsapp-constants.ts:10 | a type name is accepted exactly when it is one of the three names, and it reads as the type of that name |
| TemplateConstants.ParseTypeName | apps/web/src/lib/whatsapp-constants.ts:10 | every type's name reads back as that type |
| TemplateConstants.Placeholder | apps/web/src/lib/whatsapp-constants.ts:99 | the text the pattern `\{\{key\}\}` matches starts with `{{` and is at least four characters long |
| TemplateConstants.RenderTemplate | apps/web/src/lib/whatsapp-constants.ts:93-102 | a template without `{{`, or an empty variable list, is returned unchanged; each value is inserted as `replace` inserts a string, so a value without `$` goes in as it is |
| TemplateConstants.NoBracesNoPlaceholder | apps/web/src/lib/whatsapp-constants.ts:99 | a text without `{{` contains no placeholder |
| TemplateConstants.RenderWithoutPlaceholders | apps/web/src/lib/whatsapp-constants.ts:93-102 | a text in which no variable's placeholder occurs is left as it is |
| TemplateConstants.RenderTwiceWhenClean | apps/web/src/lib/whatsapp-constants.ts:93-102 | once a rendered text shows no placeholder of the variables, rendering it again changes nothing |
| TemplateConstants.RenderTwiceCanDiffer | apps/web/src/lib/whatsapp-constants.ts:93-102 | counterexample: even with values free of `{{`, removing a placeholder can join the braces around it into a new placeholder, so the second rendering differs from the first |
| TemplateConstants.ReplaceAssemblesPlaceholder | apps/web/src/lib/whatsapp-constants.ts:99 | replacing the inner placeholder of `{{{{key}}key}}` by the empty value leaves the placeholder `{{key}}` |
| TemplateConstants.RenderIsSequential | apps/web/src/lib/whatsapp-constants.ts:97-101 | entries are applied in order, so a value that holds a later key's placeholder is substituted again |
| Common.Substitution | apps/web/src/lib/whatsapp-constants.ts:99 | a replacement text without `$` is inserted as it is; `$$`, `$&`, `` $` `` and `$'` stand for a dollar sign, the match, the text before it and the text after it |
| Common.ReplaceWithMatchIsIdentity | apps/web/src/lib/whatsapp-constants.ts:99 | replacing every match of a placeholder by `$&` gives the text back unchanged |
| TemplateConstants.RenderMatchValueKeepsPlaceholder | apps/web/src/lib/whatsapp-constants.ts:97-101 | a variable whose value is `$&` leaves any template unchanged, its placeholders included |
| TemplateConstants.RenderDoubledDollar | apps/web/src/lib/whatsapp-constants.ts:97-101 | the value `R$$` is shown as `R$` |
| TemplateConstants.MetaVariablesOccurInDefaults | apps/web/src/lib/whatsapp-constants.ts:23-84 | every variable that `TEMPLATE_META` lists for a type occurs in that type's default text |
| TemplateConstants.ConfirmationHasName | apps/web/src/lib/whatsapp-constants.ts:25 | the default confirmation holds `{{nome}}` |
| TemplateConstants.ConfirmationHasService | apps/web/src/lib/whatsapp-constants.ts:29 | the default confirmation holds `{{serviço}}` |
| TemplateConstants.ConfirmationHasDate | apps/web/src/lib/whatsapp-constants.ts:30 | the default confirmation holds `{{data}}` |
| TemplateConstants.ConfirmationHasOrganization | apps/web/src/lib/whatsapp-constants.ts:31 | the default confirmation holds `{{organização}}` |
| TemplateConstants.CancellationHasName | apps/web/src/lib/whatsapp-constants.ts:39 | the default cancellation holds `{{nome}}` |
| TemplateConstants.CancellationHasService | apps/web/src/lib/whatsapp-constants.ts:41 | the default cancellation holds `{{serviço}}` |
| TemplateConstants.CancellationHasDate | apps/web/src/lib/whatsapp-constants.ts:41 | the default cancellation holds `{{data}}` |
| TemplateConstants.ReminderHasName | apps/web/src/lib/whatsapp-constants.ts:49 | the default reminder holds `{{nome}}` |
| TemplateConstants.ReminderHasService | apps/web/src/lib/whatsapp-constants.ts:51 | the default reminder holds `{{serviço}}` |
| TemplateConstants.ReminderHasDate | apps/web/src/lib/whatsapp-constants.ts:51 | the default reminder holds `{{data}}` |
| TemplateConstants.ReminderHasOrganization | apps/web/src/lib/whatsapp-constants.ts:53 | the default reminder holds `{{organização}}` |
| TemplateConstants.CancellationOmitsOrganization | apps/web/src/lib/whatsapp-constants.ts:38-46 | the default cancellation does not hold `{{organização}}` |
| TemplateConstants.CancellationLinesLackZ | apps/web/src/lib/whatsapp-constants.ts:38-46 | no line of the default cancellation has the letter `z`, which `{{organização}}` does |
| TemplateConstants.CancellationLineLacksZ | apps/web/src/lib/whatsapp-constants.ts:39-45 | each single line of the default cancellation lacks `z` |
| TemplateConstants.CancellationNoticeLacksZ | apps/web/src/lib/whatsapp-constants.ts:41 | the notice line of the cancellation lacks `z` |
| TemplateConstants.DefaultPlaceholdersListed | apps/web/src/lib/whatsapp-constants.ts:23-84 | a known placeholder occurs in a type's default text exactly when `TEMPLATE_META` lists it for that type |
| TemplateConstants.OrganizationUnlistedForCancellation | apps/web/src/lib/whatsapp-constants.ts:74-78 | the cancellation's metadata does not list `{{organização}}` |
| TemplateConstants.KnownKeyListed | apps/web/src/lib/whatsapp-constants.ts:69-83 | the metadata lists the known placeholders in the order nome, serviço, data, organização (the cancellation only the first three) |
| WhatsAppTemplates.TemplateContent | apps/web/src/app/actions/whatsapp-templates.ts:67-76 | a customized text of that organization and type has priority; without one the type's default text is used |
| WhatsAppTemplates.Merge | apps/web/src/app/actions/whatsapp-templates.ts:42-61 | one entry per type in the order CONFIRMATION, CANCELLATION, REMINDER; each carries the content the sender would use, and is custom exactly when a non-empty text is stored for it |
| WhatsAppTemplates.IsCustomIffStored | apps/web/src/app/actions/whatsapp-templates.ts:53-59 | in a store that only holds texts the schema accepted, an entry is custom exactly when a row is stored for it (also apps/web/src/app/actions/whatsapp-templates.ts:26-32) |
| WhatsAppTemplates.ValidateUpsert | apps/web/src/app/actions/whatsapp-templates.ts:26-32 | the input passes exactly when the type is one of the three and the content has 10 to 1000 UTF-16 units; an unknown type is reported first, then a text that is too short or too long (also apps/web/src/app/actions/whatsapp-templates.ts:87) |
| WhatsAppTemplates.UpsertAffectsOneEntry | apps/web/src/app/actions/whatsapp-templates.ts:89-102 | writing a row changes the lookup of that organization and type only |
| WhatsAppTemplates.UpsertKeepsStoredContentOk | apps/web/src/app/actions/whatsapp-templates.ts:87-102 | writing a validated text keeps every stored text schema-valid |
| WhatsAppTemplates.ResetShowsDefault | apps/web/src/app/actions/whatsapp-templates.ts:118-127 | after a reset the entry shows the default text and is not custom (also apps/web/src/app/actions/whatsapp-templates.ts:53-59) |
| WhatsAppTemplates.ResetIdempotent | apps/web/src/app/actions/whatsapp-templates.ts:118-127 | resetting twice shows the same list as resetting once |
| WhatsAppTemplates.TemplateStore.Upsert | apps/web/src/app/actions/whatsapp-templates.ts:82-113 | invalid input is rejected with the first schema message and stores nothing; valid input stores the text under (organization, type) and changes no other row; the store stays schema-valid |
| WhatsAppTemplates.TemplateStore.Reset | apps/web/src/app/actions/whatsapp-templates.ts:118-134 | the row of (organization, type) is removed, whether or not it existed, and the reset reports success |
| TemplateManager.NextIndexOf | apps/web/src/app/dashboard/whatsapp/components/template-manager.tsx:70 | the first index at or after `k` holding the marker, or none when no later character is the marker |
| TemplateManager.MatchEnd | apps/web/src/app/dashboard/whatsapp/components/template-manager.tsx:70 | a match of `\*[^*]+\*` or `_[^_]+_` starting at `i` spans at least three characters and stays within the text |
| TemplateManager.SplitFrom | apps/web/src/app/dashboard/whatsapp/components/template-manager.tsx:70 | the split with a capturing group alternates text parts and matches, so it has an odd number of parts |
| TemplateManager.SplitFromJoin | apps/web/src/app/dashboard/whatsapp/components/template-manager.tsx:70 | joining the parts of the split from `start` gives the text from `start` |
| TemplateManager.SplitMarkersJoin | apps/web/src/app/dashboard/whatsapp/components/template-manager.tsx:70 | joining the parts of the split gives back the whole text |
| TemplateManager.MatchEndSpan | apps/web/src/app/dashboard/whatsapp/components/template-manager.tsx:70 | what a match covers is a marker, at least one other character, and the same marker |
| TemplateManager.SplitFromSpans | apps/web/src/app/dashboard/whatsapp/components/template-manager.tsx:70 | every odd-numbered part of the split is a captured match |
| TemplateManager.SpanStartsMatch | apps/web/src/app/dashboard/whatsapp/components/template-manager.tsx:70 | wherever a span of the pattern begins, the pattern matches from there |
| TemplateManager.SplitFromTextParts | apps/web/src/app/dashboard/whatsapp/components/template-manager.tsx:70 | every even-numbered part of the split holds no span anywhere inside it |
| TemplateManager.SplitMarkersParts | apps/web/src/app/dashboard/whatsapp/components/template-manager.tsx:70 | the parts of the split alternate: even-numbered ones hold no span, odd-numbered ones are spans |
| TemplateManager.SplitFromNoMarkers | apps/web/src/app/dashboard/whatsapp/components/template-manager.tsx:70 | a text without `*` or `_` splits into itself alone |
| TemplateManager.Inner | apps/web/src/app/dashboard/whatsapp/components/template-manager.tsx:73 | `slice(1, -1)` drops the first and last character, and gives the empty string for a part shorter than two (also apps/web/src/app/dashboard/whatsapp/components/template-manager.tsx:76) |
| TemplateManager.FormatPart | apps/web/src/app/dashboard/whatsapp/components/template-manager.tsx:71-79 | a part between `*` becomes `<strong>`, a part between `_` becomes `<em>` (both keyed by the part's index), and a part without markers is kept |
| TemplateManager.FormatParts | apps/web/src/app/dashboard/whatsapp/components/template-manager.tsx:71-79 | the map keeps the number of parts and formats each with its own index |
| TemplateManager.RenderPreview | apps/web/src/app/dashboard/whatsapp/components/template-manager.tsx:60-81 | the sample values substituted, split at the `*` and `_` spans and formatted part by part; stated by `PreviewWithoutMarkers`, `PreviewBold` and `PreviewLoneAsterisk` |
| TemplateManager.PreviewWithoutMarkers | apps/web/src/app/dashboard/whatsapp/components/template-manager.tsx:60-81 | a text that has no `*` or `_` after substitution is previewed exactly as substituted |
| TemplateManager.PreviewBold | apps/web/src/app/dashboard/whatsapp/components/template-manager.tsx:69-80 | `*oi*` is previewed as `<strong key="1">oi</strong>` |
| TemplateManager.SplitBold | apps/web/src/app/dashboard/whatsapp/components/template-manager.tsx:70 | `*oi*` splits into an empty part, the match and an empty part |
| TemplateManager.FormatBold | apps/web/src/app/dashboard/whatsapp/components/template-manager.tsx:71-79 | of those three parts, only the middle one becomes `<strong key="1">` |
| TemplateManager.PreviewLoneAsterisk | apps/web/src/app/dashboard/whatsapp/components/template-manager.tsx:69-80 | a lone `*` is no match, yet as a text part it starts and ends with `*`, so it becomes an empty `<strong>` and disappears from the preview |
| TemplateManager.Splice | apps/web/src/app/dashboard/whatsapp/components/template-manager.tsx:155-174 | the new value is the text before the selection, the variable and the text after it; the caret lands right after the inserted variable |
| TemplateManager.SpliceAtCaret | apps/web/src/app/dashboard/whatsapp/components/template-manager.tsx:155-174 | with no selection the insert only adds: removing the variable at the caret gives the old text back |
| TemplateManager.UpdateList | apps/web/src/app/dashboard/whatsapp/components/template-manager.tsx:407-411 | the list keeps its length and order; the entry of that type gets the new content and flag, and every other entry is unchanged |
| TemplateManager.SaveMatchesStore | apps/web/src/app/dashboard/whatsapp/components/template-manager.tsx:185-186 | after a successful save the list on screen equals the list the server would now return (also apps/web/src/app/actions/whatsapp-templates.ts:89-102) |
| TemplateManager.ResetMatchesStore | apps/web/src/app/dashboard/whatsapp/components/template-manager.tsx:195-203 | after a successful reset the list on screen equals the list the server would now return (also apps/web/src/app/actions/whatsapp-templates.ts:124-126) |
| TemplateManager.ResetEntry | apps/web/src/app/dashboard/whatsapp/components/template-manager.tsx:201-202 | the same, entry by entry |
| TemplateManager.CustomCount | apps/web/src/app/dashboard/whatsapp/components/template-manager.tsx:413 | the count is at most the length; it is zero exactly when no entry is custom, and the full length exactly when all are |
| TemplateManager.CustomBadge | apps/web/src/app/dashboard/whatsapp/components/template-manager.tsx:429-433 | no badge exactly when nothing is customized; `1 personalizado` for one, and the count with `personalizados` otherwise |
| TemplateManager.TemplateList.HandleUpdate | apps/web/src/app/dashboard/whatsapp/components/template-manager.tsx:407-411 | the list becomes `UpdateList` of the old list |
| TemplateManager.TemplateCard.HandleEdit | apps/web/src/app/dashboard/whatsapp/components/template-manager.tsx:143-148 | the editor restarts from the stored content, in edit mode and expanded |
| TemplateManager.TemplateCard.HandleCancel | apps/web/src/app/dashboard/whatsapp/components/template-manager.tsx:150-153 | the edit is discarded: back to the stored content, out of edit mode, and nothing left to save |
| TemplateManager.TemplateCard.ToggleExpanded | apps/web/src/app/dashboard/whatsapp/components/template-manager.tsx:251-253 | the expanded flag flips and nothing else changes |
| TemplateManager.TemplateCard.InsertVariable | apps/web/src/app/dashboard/whatsapp/components/template-manager.tsx:155-174 | without a mounted textarea nothing changes; otherwise the text is the splice and the caret follows the variable |
| TemplateManager.TemplateCard.HandleSave | apps/web/src/app/dashboard/whatsapp/components/template-manager.tsx:176-193 | a text over 1000 units is not sent; otherwise a text the server accepts is stored, reported to the list as custom and ends editing with the success toast; a refusal leaves everything as it was and shows the server's message |
| TemplateManager.TemplateCard.HandleReset | apps/web/src/app/dashboard/whatsapp/components/template-manager.tsx:195-210 | the stored row is removed, the list is told to show the default as not custom, the editor shows the default text, editing ends and the success toast is shown |
| TemplateManager.EnabledSaveIsAttempted | apps/web/src/app/dashboard/whatsapp/components/template-manager.tsx:176-183 | a text of at least 10 and at most 1000 units passes the server's schema for the card's type (also apps/web/src/app/actions/whatsapp-templates.ts:26-32) |
| Organizations.ProfileIssues | apps/web/src/app/actions/organization.ts:10-30 | the profile passes exactly when every field rule holds; an empty name reports `Nome é obrigatório` first, a name over 100 units `Nome muito longo`, and with a good name a slug over 50 units `Slug muito longo` |
| Organizations.GeneratedSlugAccepted | apps/web/src/app/actions/organization.ts:12-22 | a slug that `generateSlug` produces passes all the slug rules whenever it has 1 to 50 characters (also apps/web/src/app/dashboard/settings/organization-form.tsx:59-66) |
| Organizations.FindOrg | apps/web/src/app/actions/organization.ts:112-113 | finds the organization row of that id, and none exactly when no row has it |
| Organizations.FindUser | apps/web/src/app/actions/organization.ts:42-43 | finds the user row linked to the signed-in account, and none exactly when no row is (also apps/web/src/app/actions/organization.ts:178-179) |
| Organizations.FirstMembership | apps/web/src/app/actions/organization.ts:44-55 | the first membership of the user in an ACTIVE organization (an OWNER one when asked), and none exactly when there is none (also apps/web/src/app/actions/organization.ts:180-192) |
| Organizations.SessionOrg | apps/web/src/app/actions/organization.ts:32-68 | the session's organization is ACTIVE and is only found for a signed-in account that has a user row |
| Organizations.UserEmail | apps/web/src/app/actions/organization.ts:248-252 | the email of the user with that id, and none exactly when no user row has it |
| Organizations.FindReactivatable | apps/web/src/app/actions/organization.ts:245-266 | the first DELETED or PENDING_REACTIVATION organization with a member of that email, and none exactly when there is none |
| Organizations.FindByToken | apps/web/src/app/actions/organization.ts:326-328 | the organization holding the token, and none exactly when no organization holds it |
| Organizations.LifecycleRoundTrip | apps/web/src/app/actions/organization.ts:205-212 | deactivating, requesting reactivation and reactivating gives back the organization as it was (also apps/web/src/app/actions/organization.ts:290-297, apps/web/src/app/actions/organization.ts:353-362) |
| Organizations.ReactivationError | apps/web/src/app/actions/organization.ts:330-350 | reactivation is allowed exactly when the token is found, has an expiry not yet past and the organization is PENDING_REACTIVATION; an unknown token and a missing or past expiry report their own messages, in that order |
| Organizations.TokenLifetimeBound | apps/web/src/app/actions/organization.ts:285-287 | a token opens the organization until exactly 24 hours after it is issued and not later (also apps/web/src/app/actions/organization.ts:338) |
| Organizations.ReplaceKeepsUniqueKeys | apps/web/src/app/actions/organization.ts:97-119 | rewriting one row keeps ids, slugs and tokens unique when its id stays and its new slug and token are its own, absent, or unused |
| Organizations.OwnSlugIsFree | apps/web/src/app/actions/organization.ts:97-102 | keeping an organization's own slug never counts as a clash |
| Organizations.SubmittedWhatsapp | apps/web/src/app/actions/organization.ts:77 | an absent or empty number is submitted as none; otherwise the submitted text is used (also apps/web/src/app/actions/organization.ts:90, apps/web/src/app/actions/organization.ts:117) |
| Organizations.OrganizationStore.UpdateOrganization | apps/web/src/app/actions/organization.ts:70-151 | without a session organization the redirect error is returned; a missing name or slug, the first schema issue and a slug used by another organization are refused in that order, each leaving the tables unchanged; otherwise only the session's organization gets the new name, slug and number; the unique columns stay unique |
| Organizations.OrganizationStore.DeactivateOrganization | apps/web/src/app/actions/organization.ts:157-236 | the wrong confirmation phrase, no signed-in user and no OWNER membership of an ACTIVE organization are refused in that order with nothing changed; otherwise only that organization becomes DELETED, stamped with the time and the user |
| Organizations.OrganizationStore.RequestReactivation | apps/web/src/app/actions/organization.ts:242-319 | no deleted organization with a member of that lower-cased email and an email that is not an OWNER's are refused with nothing changed; otherwise that organization becomes PENDING_REACTIVATION with the new token and an expiry 24 hours ahead, and nothing else changes |
| Organizations.OrganizationStore.ReactivateOrganization | apps/web/src/app/actions/organization.ts:324-377 | each `ReactivationError` is returned with nothing changed; otherwise the organization holding the token becomes ACTIVE with its deletion and token fields cleared, and its slug is returned |
| OrganizationForm.SubmittedReadBack | apps/web/src/app/dashboard/settings/organization-form.tsx:40-45 | the action reads the submitted name and slug as filled exactly when they are not empty, and reads the number back as none exactly when it is empty (also apps/web/src/app/actions/organization.ts:75-91) |
| OrganizationForm.ProfileForm.HandleNameChange | apps/web/src/app/dashboard/settings/organization-form.tsx:68-76 | the name always changes; a slug that still follows the name is regenerated from the new name, and a slug edited by hand is kept |
| OrganizationForm.ProfileForm.HandleSlugChange | apps/web/src/app/dashboard/settings/organization-form.tsx:108-110 | only the slug changes |
| OrganizationForm.ProfileForm.HandleWhatsappChange | apps/web/src/app/dashboard/settings/organization-form.tsx:125-127 | only the number changes |
| OrganizationForm.ProfileForm.HandleSubmit | apps/web/src/app/dashboard/settings/organization-form.tsx:35-45 | the form sent holds the three fields as they are, so the name counts as filled exactly when it is not empty and an empty number is sent as none |
| Slugs.Decompose | apps/web/src/app/dashboard/settings/organization-form.tsx:62 | `normalize("NFD")` on one character gives it back, or a lower-case letter followed by one combining mark |
| Slugs.Nfd | apps/web/src/app/dashboard/settings/organization-form.tsx:62 | text without precomposed Latin-1 letters is unchanged by NFD |
| Slugs.StripMarks | apps/web/src/app/dashboard/settings/organization-form.tsx:63 | after the replace no combining mark is left, and text without marks is unchanged |
| Slugs.DropRun | apps/web/src/app/dashboard/settings/organization-form.tsx:64 | removes a maximal leading run of characters outside `[a-z0-9]` and keeps the rest |
| Slugs.CollapseShape | apps/web/src/app/dashboard/settings/organization-form.tsx:64 | after `replace(/[^a-z0-9]+/g, "-")` only `[a-z0-9-]` remains, with no two hyphens in a row; only the empty text gives the empty text, and the result starts with a hyphen exactly when the input starts outside `[a-z0-9]` |
| Slugs.ConsSlugText | apps/web/src/app/dashboard/settings/organization-form.tsx:64 | a slug character in front of slug text keeps it slug text unless it makes two hyphens |
| Slugs.GenerateSlug | apps/web/src/app/dashboard/settings/organization-form.tsx:59-66 | every generated slug has only `[a-z0-9-]`, no doubled hyphen, and no hyphen at either end (also apps/web/src/app/api/auth/setup/route.ts:16-21) |
| Slugs.StripKeepsClean | apps/web/src/app/dashboard/settings/organization-form.tsx:65 | removing one hyphen at each end of collapsed text leaves a clean slug |
| Slugs.CollapseClean | apps/web/src/app/dashboard/settings/organization-form.tsx:64 | a text that already is slug text not ending in a hyphen passes the collapsing step unchanged |
| Slugs.SlugTextTail | apps/web/src/app/dashboard/settings/organization-form.tsx:64 | the rest of slug text after its first character is still slug text |
| Slugs.LowerSlugChars | apps/web/src/app/dashboard/settings/organization-form.tsx:61 | lower-casing leaves slug characters alone |
| Slugs.GenerateSlugOfClean | apps/web/src/app/dashboard/settings/organization-form.tsx:59-66 | a clean slug is its own slug |
| Slugs.GenerateSlugIdempotent | apps/web/src/app/dashboard/settings/organization-form.tsx:59-66 | generating a slug from a generated slug changes nothing (also apps/web/src/app/dashboard/settings/organization-form.tsx:74) |
| Slugs.AccentFolds | apps/web/src/app/dashboard/settings/organization-form.tsx:61-63 | an accented Latin-1 letter, capital or small, comes out as its plain lower-case letter |
| Slugs.CollapseWord | apps/web/src/app/dashboard/settings/organization-form.tsx:64 | a word of `[a-z0-9]` passes the collapsing step untouched |
| Slugs.CollapseCons | apps/web/src/app/dashboard/settings/organization-form.tsx:64 | a leading letter or digit is kept by the collapsing step |
| Slugs.CollapseHyphen | apps/web/src/app/dashboard/settings/organization-form.tsx:64 | a single hyphen before a letter or digit is kept by the collapsing step |
| Slugs.DropSeparators | apps/web/src/app/dashboard/settings/organization-form.tsx:64 | a run of separators is skipped as a whole |
| Slugs.PlainTextUnchanged | apps/web/src/app/dashboard/settings/organization-form.tsx:61-63 | text below U+00C0 without capitals passes lower-casing, NFD and mark removal unchanged |
| Slugs.NoAccentsUnchanged | apps/web/src/app/dashboard/settings/organization-form.tsx:62-63 | text below U+00C0 passes NFD and mark removal unchanged |
| Slugs.LowerUnchanged | apps/web/src/app/dashboard/settings/organization-form.tsx:61 | text without capitals is unchanged by lower-casing |
| Slugs.CollapseWords | apps/web/src/app/dashboard/settings/organization-form.tsx:64 | two words joined by a run of separators become the two words joined by one hyphen |
| Slugs.CollapseSeparators | apps/web/src/app/dashboard/settings/organization-form.tsx:64 | a run of separators before a word becomes one hyphen |
| Slugs.WordsArePlain | apps/web/src/app/dashboard/settings/organization-form.tsx:61-63 | words of `[a-z0-9]` joined by spaces or punctuation contain no capitals and nothing at or above U+00C0 |
| Slugs.GenerateSlugWords | apps/web/src/app/dashboard/settings/organization-form.tsx:59-66 | two words joined by any run of spaces or punctuation become `word-word` |
| AuthSetup.HttpStatus | apps/web/src/app/api/auth/setup/route.ts:9-12 | a created account answers 200, missing fields 400 and a failed transaction 500, and no two answers share a code (also apps/web/src/app/api/auth/setup/route.ts:60-70) |
| AuthSetup.Base36Digit | apps/web/src/app/api/auth/setup/route.ts:29 | each digit of `toString(36)` is a lower-case letter or a decimal digit |
| AuthSetup.Base36Value | apps/web/src/app/api/auth/setup/route.ts:29 | a base-36 character stands for a value below 36 |
| AuthSetup.ToBase36 | apps/web/src/app/api/auth/setup/route.ts:29 | `Date.now().toString(36)` is never empty and has only lower-case letters and digits |
| AuthSetup.Base36RoundTrip | apps/web/src/app/api/auth/setup/route.ts:29 | the suffix reads back as exactly the timestamp it was made from |
| AuthSetup.FinalSlug | apps/web/src/app/api/auth/setup/route.ts:28-30 | the slug stored for the new organization; stated by `FinalSlugSuffix` and `FinalSlugClean` |
| AuthSetup.FinalSlugSuffix | apps/web/src/app/api/auth/setup/route.ts:28-30 | a taken slug becomes the slug, a hyphen and a base-36 suffix that reads back as the time of the request |
| AuthSetup.FinalSlugClean | apps/web/src/app/api/auth/setup/route.ts:16-30 | whenever the derived slug is not empty, the final slug, suffixed or not, has only `[a-z0-9-]`, no doubled hyphen and no hyphen at either end |
| AuthSetup.JoinSlugText | apps/web/src/app/api/auth/setup/route.ts:29 | joining two slug texts where no hyphen meets a hyphen gives slug text |
| AuthSetup.NewOrganization | apps/web/src/app/api/auth/setup/route.ts:42-47 | the organization row the transaction creates, with the table's default status and no token; used by `AppendKeepsUniqueKeys` and `Setup` |
| AuthSetup.AppendKeepsUniqueKeys | apps/web/src/app/api/auth/setup/route.ts:42-47 | adding an organization with a new id, an unused slug and no token keeps ids, slugs and tokens unique |
| AuthSetup.Setup | apps/web/src/app/api/auth/setup/route.ts:4-72 | a body missing any of the four fields is refused with 400 and nothing is stored; a final slug that is still taken or a second account for the same sign-up id fails with 500 and nothing is stored; otherwise one user, one ACTIVE organization with the final slug and one OWNER membership are added and their ids and slug returned; the unique columns stay unique |
| CheckOrgName.HttpStatus | apps/web/src/app/api/auth/check-org-name/route.ts:9-12 | a missing name answers 400, a free name 200 and a taken one 409 (also apps/web/src/app/api/auth/check-org-name/route.ts:28, apps/web/src/app/api/auth/check-org-name/route.ts:39, apps/web/src/app/api/auth/check-org-name/route.ts:50, apps/web/src/app/api/auth/check-org-name/route.ts:61, apps/web/src/app/api/auth/check-org-name/route.ts:65) |
| CheckOrgName.FindByName | apps/web/src/app/api/auth/check-org-name/route.ts:16-25 | finds the first organization whose name is exactly the one asked for, and none exactly when no organization has that name |
| CheckOrgName.Check | apps/web/src/app/api/auth/check-org-name/route.ts:4-65 | the answer is 400 exactly when the name is missing, and available exactly when no organization has that name or the first one has a status other than the three named; every refusal carries one of the three codes |
| CheckOrgName.Verdict | apps/web/src/app/api/auth/check-org-name/route.ts:28-65 | the answer for the first organization of that name, if any; stated by `Check`, `CodeNamesStatus` and `DeactivatedNameReported` |
| CheckOrgName.CodeNamesStatus | apps/web/src/app/api/auth/check-org-name/route.ts:32-63 | an ACTIVE first match reports `ORGANIZATION_EXISTS`, a PENDING_REACTIVATION one `ORGANIZATION_PENDING_REACTIVATION` and a DELETED one `ORGANIZATION_DELETED`, each with its own message |
| CheckOrgName.DeactivatedNameReported | apps/web/src/app/api/auth/check-org-name/route.ts:54-63 | after an organization is deactivated, asking for its name reports `ORGANIZATION_DELETED` (also apps/web/src/app/actions/organization.ts:205-212) |
| CheckOrgName.NameLookupAgrees | apps/web/src/app/api/auth/check-org-name/route.ts:16-25 | the lookup depends only on the names, in table order |
| Services.Issues | apps/web/src/app/actions/services.ts:38-57 | the schema reports no issue exactly when every field rule holds |
| Services.SchemaError | apps/web/src/app/actions/services.ts:68-73 | no error exactly when the input is accepted; an empty name gives `Nome é obrigatório`, a name over 100 units the length message, and with a good name a description over 500 units its own message; any error is one of the schema's issues (also apps/web/src/app/actions/services.ts:118-123) |
| Services.Cents | apps/web/src/app/actions/services.ts:82 | the stored `Decimal(10, 2)` price is the given price to within half a cent (also apps/web/src/app/actions/services.ts:141) |
| Services.NewService | apps/web/src/app/actions/services.ts:77-86 | the created row belongs to the caller's organization, is active, keeps the name and the whole duration of 5 to 480 minutes, stores an empty description as null, and has a price of 0 to 99999.99 |
| Services.Edited | apps/web/src/app/actions/services.ts:136-144 | an update changes name, description, price and duration as creation would, and keeps the id, the organization and `active` |
| Services.FindOwned | apps/web/src/app/actions/services.ts:126-128 | finds the first service with that id in the caller's organization, and none exactly when the organization has no such service (also apps/web/src/app/actions/services.ts:176-179, apps/web/src/app/actions/services.ts:214-216) |
| Services.BookingCount | apps/web/src/app/actions/services.ts:178 | counts the bookings of the service, whatever their status; zero exactly when none refers to it (also apps/web/src/app/actions/services.ts:185) |
| Services.LinkedBookingsError | apps/web/src/app/actions/services.ts:184-189 | the refusal for deleting a service that has bookings; its wording is stated by `LinkedBookingsWording` |
| Services.LinkedBookingsWording | apps/web/src/app/actions/services.ts:185-189 | the refusal writes out the count, and the noun and participle are singular exactly when the count is 1 |
| Services.OrgServices | apps/web/src/app/actions/services.ts:126-128 | the services of one organization are exactly the table's rows with that organization |
| Services.ReplaceIsolated | apps/web/src/app/actions/services.ts:136-144 | changing a row of one organization leaves every other organization's services as they were (also apps/web/src/app/actions/services.ts:222-225) |
| Services.RemoveIsolated | apps/web/src/app/actions/services.ts:192 | removing a row of one organization leaves every other organization's services as they were |
| Services.AppendIsolated | apps/web/src/app/actions/services.ts:77-86 | adding a row of one organization leaves every other organization's services as they were |
| Services.ReplaceKeepsUniqueIds | apps/web/src/app/actions/services.ts:136-144 | rewriting a row under its own id keeps ids unique (also apps/web/src/app/actions/services.ts:222-225) |
| Services.RemoveKeepsUniqueIds | apps/web/src/app/actions/services.ts:192 | removing a row keeps ids unique |
| Services.ServiceCatalog.CreateService | apps/web/src/app/actions/services.ts:63-106 | an input the schema refuses returns its first issue and changes nothing; otherwise exactly the new active row is added and returned; other organizations' services and the unique ids are kept |
| Services.ServiceCatalog.UpdateService | apps/web/src/app/actions/services.ts:112-164 | a refused input returns its first issue, and a service outside the caller's organization `Serviço não encontrado.`, both changing nothing; otherwise only that row gets the new fields and is returned; other organizations' services are kept |
| Services.ServiceCatalog.DeleteService | apps/web/src/app/actions/services.ts:170-201 | a service outside the caller's organization is not found, and one with any booking is refused with the count; neither changes anything; otherwise only that row is removed; other organizations' services are kept |
| Services.ServiceCatalog.ToggleServiceStatus | apps/web/src/app/actions/services.ts:207-237 | a service outside the caller's organization is not found and nothing changes; otherwise only its `active` flag becomes the requested value, with the activated or deactivated message; other organizations' services are kept |
| ServiceFormDialog.WithValue | apps/web/src/app/dashboard/services/service-form-dialog.tsx:142 | the edited field takes the typed value and every other field keeps its own |
| ServiceFormDialog.Cleared | apps/web/src/app/dashboard/services/service-form-dialog.tsx:144 | the field's message is removed and every other message kept |
| ServiceFormDialog.HexRun | apps/web/src/app/dashboard/services/service-form-dialog.tsx:103 | `parseInt` reads the longest run of hexadecimal digits after `0x` and stops at the first other character |
| ServiceFormDialog.ParseIntOfText | apps/web/src/app/dashboard/services/service-form-dialog.tsx:73 | `parseInt(String(n))` reads back as `n` for every whole number (also apps/web/src/app/dashboard/services/service-form-dialog.tsx:103) |
| ServiceFormDialog.ParseUnsignedDigits | apps/web/src/app/dashboard/services/service-form-dialog.tsx:103 | a text of decimal digits reads as its decimal value |
| ServiceFormDialog.ValidationErrors | apps/web/src/app/dashboard/services/service-form-dialog.tsx:81-114 | each field has a message exactly when its rule fails: a blank or over-long name, a description over 500 units, a missing, unreadable, negative or too high price, a missing, unreadable, too short or too long duration; an empty field gives the required message |
| ServiceFormDialog.TrimShorter | apps/web/src/app/dashboard/services/service-form-dialog.tsx:121-122 | trimming never makes a text longer |
| ServiceFormDialog.JsLengthPiece | apps/web/src/app/dashboard/services/service-form-dialog.tsx:121-122 | a piece of a text is no longer than the text |
| ServiceFormDialog.TrimSlice | apps/web/src/app/dashboard/services/service-form-dialog.tsx:121-122 | `trim()` keeps one contiguous slice of the text |
| ServiceFormDialog.ClientValidIsServerValid | apps/web/src/app/dashboard/services/service-form-dialog.tsx:81-125 | an input the dialog lets through is always accepted by the server's schema (also apps/web/src/app/actions/services.ts:38-57) |
| ServiceFormDialog.PrefilledDuration | apps/web/src/app/dashboard/services/service-form-dialog.tsx:32-37 | an opened dialog's duration reads back as the service's own, and as 60 in the empty form (also apps/web/src/app/dashboard/services/service-form-dialog.tsx:66-79) |
| ServiceFormDialog.Dialog.constructor | apps/web/src/app/dashboard/services/service-form-dialog.tsx:63-79 | an opened dialog shows the service's values, or the empty form, and no message |
| ServiceFormDialog.Dialog.Reopen | apps/web/src/app/dashboard/services/service-form-dialog.tsx:66-79 | reopening fills the form again and clears every message |
| ServiceFormDialog.Dialog.Validate | apps/web/src/app/dashboard/services/service-form-dialog.tsx:81-114 | the messages become exactly this form's validation errors, the form is untouched, and the answer is true exactly when there is none |
| ServiceFormDialog.Dialog.HandleSubmit | apps/web/src/app/dashboard/services/service-form-dialog.tsx:116-130 | nothing is sent exactly when validation finds a message; otherwise the trimmed and parsed values go to update for the edited service or to create, and the server accepts them |
| ServiceFormDialog.Dialog.HandleField | apps/web/src/app/dashboard/services/service-form-dialog.tsx:141-146 | the field takes the value; its message, if there is a non-empty one, is cleared; other messages stay |
| ServiceCard.FormatDuration | apps/web/src/app/dashboard/services/service-card.tsx:38-43 | the duration text; its three shapes are stated by `FormatDurationShape` and its losslessness by `ReadFormatDuration` |
| ServiceCard.FormatDurationShape | apps/web/src/app/dashboard/services/service-card.tsx:38-43 | durations under an hour show as `<m> min`, whole hours as `<h>h`, and others as `<h>h <m>min` with 1 to 59 minutes that add back to the duration |
| ServiceCard.ReadFormatDuration | apps/web/src/app/dashboard/services/service-card.tsx:38-43 | no duration is lost: the text of every duration of zero minutes or more reads back as it |
| ServiceCard.CountLabel | apps/web/src/app/dashboard/services/service-card.tsx:162-163 | the label starts with the count and ends in `s` exactly when the count is not 1 |
| ServiceCard.ToggleRequest | apps/web/src/app/dashboard/services/service-card.tsx:58 | the toggle always asks for the opposite of the current state |
| ServiceCard.ToggleFlipsBadge | apps/web/src/app/dashboard/services/service-card.tsx:88-90 | the menu offers `Desativar` exactly when the badge shows `Ativo`, and once the toggle is stored the badge changes (also apps/web/src/app/dashboard/services/service-card.tsx:126-131, apps/web/src/app/dashboard/services/service-card.tsx:58) |
| PhoneFormatter.FormatPhoneNumber | apps/web/src/lib/phone-formatter.ts:6-7 | the output is empty exactly when the input is |
| PhoneFormatter.FormattedDigits | apps/web/src/lib/phone-formatter.ts:6-23 | the digits of the output are the input's digits, with `55` put in front of exactly eleven of them |
| PhoneFormatter.RenderDigits | apps/web/src/lib/phone-formatter.ts:22 | the template adds no digits of its own |
| PhoneFormatter.PartsPartition | apps/web/src/lib/phone-formatter.ts:16-20 | the five slices cut the digit string without gap or overlap |
| PhoneFormatter.SliceJoin | apps/web/src/lib/phone-formatter.ts:16-20 | two adjacent slices make the slice that spans both |
| PhoneFormatter.PartsOfPieces | apps/web/src/lib/phone-formatter.ts:16-20 | pieces of 2, 2, 1 and 4 digits and a tail come back as the five parts |
| PhoneFormatter.FormatTwice | apps/web/src/lib/phone-formatter.ts:6-23 | formatting the output again changes nothing unless a country code would be added again |
| PhoneFormatter.FormatExample | apps/web/src/lib/phone-formatter.ts:1-5 | `5511999999999` is shown as `+55 (11) 9 9999-9999` |
| PhoneFormatter.StoredNumberShown | apps/web/src/lib/phone-formatter.ts:6-23 | a stored WhatsApp number keeps all its digits in the display (also apps/web/src/lib/validations.ts:48-62) |
| BookingCalendar.StartOfMonth | apps/web/src/components/booking/booking-calendar.tsx:62 | `startOfMonth` gives a valid date |
| BookingCalendar.EndOfMonth | apps/web/src/components/booking/booking-calendar.tsx:63 | `endOfMonth` gives a valid date |
| BookingCalendar.AddDays | apps/web/src/components/booking/booking-calendar.tsx:71 | `addDays` gives a valid date |
| BookingCalendar.SubDays | apps/web/src/components/booking/booking-calendar.tsx:64 | going back some days gives a valid date |
| BookingCalendar.NextOfPrev | apps/web/src/components/booking/booking-calendar.tsx:64 | the day after the day before is the same day (also apps/web/src/components/booking/booking-calendar.tsx:71) |
| BookingCalendar.AddDaysAdd | apps/web/src/components/booking/booking-calendar.tsx:67-72 | adding days twice is adding their sum |
| BookingCalendar.AddAfterSub | apps/web/src/components/booking/booking-calendar.tsx:64 | going back and then forward the same number of days returns to the start (also apps/web/src/components/booking/booking-calendar.tsx:67-72) |
| BookingCalendar.DaysOfMonth | apps/web/src/components/booking/booking-calendar.tsx:62-72 | counting days from the first of a month reaches each of its days |
| BookingCalendar.NextIsLater | apps/web/src/components/booking/booking-calendar.tsx:69-71 | the next day is always later, so the walk ends |
| BookingCalendar.AddDaysOrdered | apps/web/src/components/booking/booking-calendar.tsx:69-71 | more days added give a later date |
| BookingCalendar.WeekdayOfNext | apps/web/src/components/booking/booking-calendar.tsx:92 | the day after has the next weekday |
| BookingCalendar.WeekdayOfPrev | apps/web/src/components/booking/booking-calendar.tsx:92 | the day before has the previous weekday |
| BookingCalendar.WeekdayAfter | apps/web/src/components/booking/booking-calendar.tsx:92 | adding `n` days moves the weekday by `n` modulo 7 |
| BookingCalendar.WeekdayBefore | apps/web/src/components/booking/booking-calendar.tsx:64 | going back `n` days moves the weekday back by `n` modulo 7 |
| BookingCalendar.StartOfWeek | apps/web/src/components/booking/booking-calendar.tsx:64 | with the pt-BR locale the week starts on the Sunday on or before the day, that many days before it |
| BookingCalendar.EndOfWeek | apps/web/src/components/booking/booking-calendar.tsx:65 | with the pt-BR locale the week ends on the Saturday on or after the day |
| BookingCalendar.CalendarStart | apps/web/src/components/booking/booking-calendar.tsx:64 | the grid's first day is a valid date |
| BookingCalendar.CalendarEnd | apps/web/src/components/booking/booking-calendar.tsx:65 | the grid's last day is a valid date |
| BookingCalendar.GridLength | apps/web/src/components/booking/booking-calendar.tsx:61-74 | the grid has whole weeks, four to six of them |
| BookingCalendar.WeeksSpanned | apps/web/src/components/booking/booking-calendar.tsx:61-74 | a month padded to whole weeks covers its own days and spans four to six weeks |
| BookingCalendar.MonthEnd | apps/web/src/components/booking/booking-calendar.tsx:63 | the month's last day is its first day plus its length less one |
| BookingCalendar.GridEnd | apps/web/src/components/booking/booking-calendar.tsx:61-74 | the grid's last day is the Saturday that ends the month's last week |
| BookingCalendar.SpanAfterPadding | apps/web/src/components/booking/booking-calendar.tsx:64-65 | the padding before and after the month adds up to the grid's length |
| BookingCalendar.Run | apps/web/src/components/booking/booking-calendar.tsx:67-72 | a run of `n` days has `n` valid days |
| BookingCalendar.RunIndex | apps/web/src/components/booking/booking-calendar.tsx:67-72 | the `i`-th day of a run is the start plus `i` days |
| BookingCalendar.CalendarGrid | apps/web/src/components/booking/booking-calendar.tsx:61-74 | the grid has the grid's length of valid days |
| BookingCalendar.GridShape | apps/web/src/components/booking/booking-calendar.tsx:61-74 | the grid starts on a Sunday and ends on a Saturday |
| BookingCalendar.GridConsecutive | apps/web/src/components/booking/booking-calendar.tsx:67-72 | each day of the grid is the day after the one before it |
| BookingCalendar.RunConsecutive | apps/web/src/components/booking/booking-calendar.tsx:67-72 | each day of a run is the day after the one before it |
| BookingCalendar.GridCoversMonth | apps/web/src/components/booking/booking-calendar.tsx:61-74 | every day of the month is in the grid, in the column of its weekday |
| BookingCalendar.GridSundaysDisabled | apps/web/src/components/booking/booking-calendar.tsx:90-94 | every day in the grid's first column is disabled |
| BookingCalendar.PastGridEnd | apps/web/src/components/booking/booking-calendar.tsx:69 | the walk's test `day <= calEnd` first fails exactly one day past the grid's end |
| BookingCalendar.AddMonths | apps/web/src/components/booking/booking-calendar.tsx:77-78 | `addMonths` moves the month by `k` and keeps the day, or clamps it to the last day of a shorter month |
| BookingCalendar.NavigationRoundTrip | apps/web/src/components/booking/booking-calendar.tsx:77-78 | next month then previous month shows the same month and the same grid, and the very same day for days up to the 28th |
| BookingCalendar.AnySameDay | apps/web/src/components/booking/booking-calendar.tsx:93 | true exactly when one of the listed dates is that day |
| BookingCalendar.IsDayDisabled | apps/web/src/components/booking/booking-calendar.tsx:90-94 | a day is disabled exactly when it is a Sunday or is one of the listed dates |
| BookingCalendar.DayKey | apps/web/src/components/booking/booking-calendar.tsx:86 | for years 1 to 9999 the key is the `yyyy-MM-dd` key of the date |
| BookingCalendar.DayKeyRoundTrip | apps/web/src/components/booking/booking-calendar.tsx:86 | the emitted key reads back as the clicked day |
| BookingCalendar.Calendar.constructor | apps/web/src/components/booking/booking-calendar.tsx:55-58 | the calendar opens on today's month with nothing selected |
| BookingCalendar.Calendar.CalendarDays | apps/web/src/components/booking/booking-calendar.tsx:61-74 | the walk from the grid's first Sunday to its last Saturday produces exactly the grid |
| BookingCalendar.Calendar.GoToPrevMonth | apps/web/src/components/booking/booking-calendar.tsx:77 | the month becomes the previous one and the selection is kept |
| BookingCalendar.Calendar.GoToNextMonth | apps/web/src/components/booking/booking-calendar.tsx:78 | the month becomes the next one and the selection is kept |
| BookingCalendar.Calendar.HandleDayClick | apps/web/src/components/booking/booking-calendar.tsx:81-87 | a day before today or a disabled day changes nothing and emits nothing; any other day, never a Sunday, becomes the selection and its key is emitted |
| BookingCalendar.InPeriod | apps/web/src/components/booking/booking-calendar.tsx:97-110 | a period's list is never longer than the slots |
| BookingCalendar.InPeriodMembers | apps/web/src/components/booking/booking-calendar.tsx:102-107 | a slot is listed under a period exactly when it is one of the slots and its hour falls in that period |
| BookingCalendar.GroupSlots | apps/web/src/components/booking/booking-calendar.tsx:97-110 | the single pass gives each period exactly the slots of that period, in their original order |
| BookingCalendar.PeriodBounds | apps/web/src/components/booking/booking-calendar.tsx:104-106 | morning is before 12h, afternoon from 12h to before 18h, evening from 18h on |
| BookingCalendar.GroupsPartition | apps/web/src/components/booking/booking-calendar.tsx:102-107 | every slot lands in exactly one of the three lists, as often as it occurs |
| SlotEngine.HHmmOrder | apps/web/src/app/actions/availability.ts:71 | on zero-padded `HH:mm` times, string order is exactly the order of their minutes (also apps/web/src/app/actions/availability.ts:84) |
| SlotEngine.Pad2Order | apps/web/src/app/actions/availability.ts:71 | two-digit hours or minutes compare as strings exactly as they compare as numbers, and are equal exactly when the numbers are (also apps/web/src/app/actions/availability.ts:84) |
| Availability.DaysMapMonday | apps/web/src/app/actions/availability.ts:196-208 | the `i`-th key of the schema is stored under the `i`-th weekday of a Monday-first week |
| Availability.DaysMapCovers | apps/web/src/app/actions/availability.ts:196-208 | every weekday is the target of one key |
| Availability.ParseDay | apps/web/src/app/actions/availability.ts:154-159 | a day counts as worked exactly when its `isWorking` field is the text `true` |
| Availability.ParseWeek | apps/web/src/app/actions/availability.ts:154-190 | the submitted week has seven days, Monday first, each read from its own three fields |
| Availability.WeekError | apps/web/src/app/actions/availability.ts:31-78 | the week is accepted exactly when every time passes `.time("HH:mm")` and every worked day starts before it ends; with good times and a worked day out of order the refinement's message is returned (also apps/web/src/app/actions/availability.ts:193, apps/web/src/app/actions/availability.ts:242-247) |
| Availability.NonWorkingDayUnchecked | apps/web/src/app/actions/availability.ts:70-74 | the times of a day that is not worked never change the verdict |
| Availability.AcceptedDayHasWindow | apps/web/src/app/actions/availability.ts:71 | an accepted worked day of zero-padded times has a window of positive length in minutes (also apps/web/src/app/api/slots/route.ts:115-118) |
| Availability.RowFor | apps/web/src/app/actions/availability.ts:210-228 | the row written for a weekday belongs to the organization and to that weekday |
| Availability.WriteWeek | apps/web/src/app/actions/availability.ts:206-230 | the table after the first `n` turns of the upsert loop; stated by `WriteWeekSpec` |
| Availability.WriteWeekSpec | apps/web/src/app/actions/availability.ts:207-230 | after the loop every weekday of the organization holds its submitted row, and every other organization's rows are as before |
| Availability.BreakError | apps/web/src/app/actions/availability.ts:80-86 | the break is accepted exactly when both times pass `.time("HH:mm")` and the start is before the end; good times out of order give the refinement's message (also apps/web/src/app/actions/availability.ts:278-281, apps/web/src/app/actions/availability.ts:306-312) |
| Availability.UpsertBreak | apps/web/src/app/actions/availability.ts:283-294 | the break table after `prisma.breakTime.upsert` keyed by organization; stated by `UpsertBreakSpec` |
| Availability.UpsertBreakSpec | apps/web/src/app/actions/availability.ts:283-294 | after the upsert the organization's break is the new one, every other organization's breaks are kept, and no organization gets a second row |
| Availability.LocalDate | apps/web/src/app/actions/availability.ts:349-350 | `new Date(year, month - 1, day)` is a valid date, and the date itself for years from 100 on |
| Availability.WithoutId | apps/web/src/app/actions/availability.ts:432-434 | deletion keeps exactly the rows with another id |
| Availability.AddKeepsUniqueDays | apps/web/src/app/actions/availability.ts:362-368 | adding a row with a new id and a new (organization, date) pair keeps both unique keys |
| Availability.RemoveKeepsUniqueDays | apps/web/src/app/actions/availability.ts:432-434 | deleting keeps both unique keys |
| Availability.AvailabilityStore.constructor | apps/web/src/app/actions/availability.ts:111-123 | the store holds the three given tables |
| Availability.AvailabilityStore.UpdateWorkingHours | apps/web/src/app/actions/availability.ts:147-262 | without an organization `Organização não encontrada` is returned, and a refused week its first issue, both changing nothing; otherwise every weekday of the organization holds the submitted row, other organizations keep theirs, and the other tables are untouched |
| Availability.AvailabilityStore.UpdateBreakTime | apps/web/src/app/actions/availability.ts:268-326 | without an organization or with a refused break nothing changes and the matching message is returned; otherwise the break is upserted, one row per organization is kept, and the other tables are untouched |
| Availability.AvailabilityStore.AddUnavailableDay | apps/web/src/app/actions/availability.ts:332-407 | no organization, an unreadable date, a day before today and a day already blocked are refused in that order with nothing changed; otherwise exactly one row with the local date and the reason, or null, is added; the unique keys stay unique |
| Availability.AvailabilityStore.RemoveUnavailableDay | apps/web/src/app/actions/availability.ts:413-458 | without an organization, or for a day id not owned by the organization, nothing changes and the matching message is returned; otherwise that row is deleted; the unique keys stay unique |
| WorkingHoursForm.DaysOfWeekMatchServer | apps/web/src/components/availability/working-hours-form.tsx:20-28 | the form's seven rows follow the action's day order: the `i`-th key is the key it reads for the `i`-th weekday and the enumeration name is that weekday's (also apps/web/src/app/actions/availability.ts:154-204) |
| WorkingHoursForm.KeysDistinct | apps/web/src/components/availability/working-hours-form.tsx:20-28 | no two rows share a key |
| WorkingHoursForm.DefaultsWorkWeekdays | apps/web/src/components/availability/working-hours-form.tsx:30-38 | by default Monday to Friday are worked and Saturday and Sunday are not, all from 08:00 to 17:00 |
| WorkingHoursForm.DefaultsPassOrderCheck | apps/web/src/components/availability/working-hours-form.tsx:30-38 | the default week passes the action's start-before-end check (also apps/web/src/app/actions/availability.ts:67-78) |
| WorkingHoursForm.DayMapDomain | apps/web/src/components/availability/working-hours-form.tsx:73-79 | `dayMap` has a key exactly when some row's weekday lower-cases to it |
| WorkingHoursForm.DayMapLast | apps/web/src/components/availability/working-hours-form.tsx:75-77 | of several rows for one day, the last is kept |
| WorkingHoursForm.BuildDayMap | apps/web/src/components/availability/working-hours-form.tsx:73-79 | the `forEach` builds exactly `dayMap` |
| WorkingHoursForm.RowData | apps/web/src/components/availability/working-hours-form.tsx:84 | a day without a stored row shows its default hours (also apps/web/src/components/availability/working-hours-form.tsx:95) |
| WorkingHoursForm.DayNameLowersToKey | apps/web/src/components/availability/working-hours-form.tsx:76 | a stored weekday lower-cases to the key the action reads for it |
| WorkingHoursForm.EnumNameLowersToKey | apps/web/src/components/availability/working-hours-form.tsx:20-28 | each row's enumeration name lower-cases to its key (also apps/web/src/components/availability/working-hours-form.tsx:76) |
| WorkingHoursForm.StoredDayShown | apps/web/src/components/availability/working-hours-form.tsx:73-79 | with one stored row per weekday, each form row shows its own day's stored hours (also apps/web/src/components/availability/working-hours-form.tsx:95) |
| WorkingHoursForm.InitialActive | apps/web/src/components/availability/working-hours-form.tsx:81-88 | each of the seven switches starts at the shown day's `isWorking`, and no other key is set |
| WorkingHoursForm.FieldValue | apps/web/src/components/availability/working-hours-form.tsx:105-150 | the value the browser submits for one field of one day: the switch's hidden input, the typed time of an enabled input, or the hidden copy of a disabled one; read back by `SubmissionReadBack` |
| WorkingHoursForm.SubmissionReadBack | apps/web/src/components/availability/working-hours-form.tsx:67 | from a submission the action reads a day as worked exactly when its switch is on, and a day switched off keeps its shown times (also apps/web/src/components/availability/working-hours-form.tsx:126-150, apps/web/src/app/actions/availability.ts:154-190) |
| WorkingHoursForm.HoursForm.constructor | apps/web/src/components/availability/working-hours-form.tsx:73-90 | the form starts with `dayMap` and every switch at the shown `isWorking` |
| WorkingHoursForm.HoursForm.Toggle | apps/web/src/components/availability/working-hours-form.tsx:57 | clicking a switch flips that day's flag only (also apps/web/src/components/availability/working-hours-form.tsx:111) |
| WorkingHoursForm.ToggleOnlyThatDay | apps/web/src/components/availability/working-hours-form.tsx:111 | flipping one day's switch never changes what another day submits (also apps/web/src/components/availability/working-hours-form.tsx:126-150) |
| Sorting.Insert | apps/web/src/components/availability/break-times-section.tsx:73-75 | inserting adds exactly the one element (also apps/web/src/components/availability/unavailable-days-section.tsx:65-67) |
| Sorting.SortBy | apps/web/src/components/availability/break-times-section.tsx:73-75 | the sorted copy is a permutation of the list (also apps/web/src/components/availability/unavailable-days-section.tsx:65-67) |
| Sorting.InsertSorted | apps/web/src/components/availability/break-times-section.tsx:73-75 | inserting into a sorted list, under a strict weak order, keeps it sorted (also apps/web/src/components/availability/unavailable-days-section.tsx:65-67) |
| Sorting.SortBySorted | apps/web/src/components/availability/break-times-section.tsx:73-75 | the sorted copy is sorted under any strict weak order (also apps/web/src/components/availability/unavailable-days-section.tsx:65-67) |
| Sorting.InsertTied | apps/web/src/components/availability/break-times-section.tsx:73-75 | inserting places an element after the elements it is tied with (also apps/web/src/components/availability/unavailable-days-section.tsx:65-67) |
| Sorting.SortByStable | apps/web/src/components/availability/break-times-section.tsx:73-75 | the sort is stable: elements tied with one another keep their relative order (also apps/web/src/components/availability/unavailable-days-section.tsx:65-67) |
| BreakTimesSection.ResetIsAValidBreak | apps/web/src/components/availability/break-times-section.tsx:33-34 | the inputs' starting values 12:00 and 13:00 form a break the server's schema accepts (also apps/web/src/components/availability/break-times-section.tsx:50-51, apps/web/src/app/actions/availability.ts:80-86) |
| BreakTimesSection.StartsEarlierOrder | apps/web/src/components/availability/break-times-section.tsx:73-75 | the comparator by start time is a strict weak order |
| BreakTimesSection.SortedBreakTimes | apps/web/src/components/availability/break-times-section.tsx:73-75 | the shown list is the same breaks, with start times that never go down |
| BreakTimesSection.SortedBreakTimesStable | apps/web/src/components/availability/break-times-section.tsx:73-75 | breaks with the same start time keep the order they had |
| BreakTimesSection.SortedBreakTimesChronological | apps/web/src/components/availability/break-times-section.tsx:73-75 | for `HH:mm` start times the shown list is in clock order |
| BreakTimesSection.WithoutBreak | apps/web/src/components/availability/break-times-section.tsx:63 | the filter keeps exactly the breaks with another id |
| BreakTimesSection.WithoutBreakConcat | apps/web/src/components/availability/break-times-section.tsx:63 | the filter works piece by piece, so the other breaks keep their order |
| BreakTimesSection.WithoutBreakSingle | apps/web/src/components/availability/break-times-section.tsx:63 | one break is kept exactly when its id differs |
| BreakTimesSection.BreaksSection.constructor | apps/web/src/components/availability/break-times-section.tsx:30-40 | the section starts with the given list, 12:00 to 13:00, no label, no error and nothing pending |
| BreakTimesSection.BreaksSection.HandleAddBreakTime | apps/web/src/components/availability/break-times-section.tsx:42-60 | submitting clears the error and sends the three named inputs as they are; the transition ends as soon as its callback has started the action, so `addPending` is false again before the answer, and nothing else changes |
| BreakTimesSection.BreaksSection.AddSettled | apps/web/src/components/availability/break-times-section.tsx:48-58 | success resets the inputs to 12:00, 13:00 and no label; failure shows its message and keeps the inputs; the pending flags are untouched |
| BreakTimesSection.BreaksSection.ErrorTimeout | apps/web/src/components/availability/break-times-section.tsx:56 | four seconds after a failure only the error is cleared |
| BreakTimesSection.BreaksSection.HandleRemoveBreakTime | apps/web/src/components/availability/break-times-section.tsx:62-71 | the break is removed from the list at once, before any answer, and `deletePending` is false again once the transition's callback returns |
| BreakTimesSection.BreaksSection.RemoveSettled | apps/web/src/components/availability/break-times-section.tsx:65-69 | a failed removal puts back the list the page passed in; success keeps the current list; the pending flags are untouched |
| UnavailableDaysSection.EarlierDayIsEarlierInstant | apps/web/src/components/availability/unavailable-days-section.tsx:65-67 | the comparator is negative exactly when the first day's timestamp is smaller |
| UnavailableDaysSection.EarlierDayOrder | apps/web/src/components/availability/unavailable-days-section.tsx:65-67 | the comparator by date is a strict weak order |
| UnavailableDaysSection.SortedDays | apps/web/src/components/availability/unavailable-days-section.tsx:65-67 | the shown list is the same days, earliest first |
| UnavailableDaysSection.SortedDaysChronological | apps/web/src/components/availability/unavailable-days-section.tsx:65-67 | on valid dates the shown list is in timestamp order |
| UnavailableDaysSection.SortedDaysStable | apps/web/src/components/availability/unavailable-days-section.tsx:65-67 | entries on the same date keep the order they had |
| UnavailableDaysSection.DateText | apps/web/src/components/availability/unavailable-days-section.tsx:127 | the `y-MM-dd` text built from the UTC fields; read back by `DateTextRoundTrip` |
| UnavailableDaysSection.SplitDateText | apps/web/src/components/availability/unavailable-days-section.tsx:128 | `split("-").map(Number)` taken as year, month and day; inverts `DateText` by `DateTextRoundTrip` |
| UnavailableDaysSection.DateTextRoundTrip | apps/web/src/components/availability/unavailable-days-section.tsx:127-128 | splitting the `y-MM-dd` text gives back the stored year, month and day |
| UnavailableDaysSection.ShownDate | apps/web/src/components/availability/unavailable-days-section.tsx:123-129 | the row shows the date the action stored: the stored day itself for years from 100 on (also apps/web/src/app/actions/availability.ts:349-350) |
| UnavailableDaysSection.WithoutIdConcat | apps/web/src/components/availability/unavailable-days-section.tsx:55 | the delete filter works piece by piece, so the other days keep their order |
| UnavailableDaysSection.WithoutIdSingle | apps/web/src/components/availability/unavailable-days-section.tsx:55 | one day is kept exactly when its id differs |
| UnavailableDaysSection.DaysSection.constructor | apps/web/src/components/availability/unavailable-days-section.tsx:28-34 | the section starts with the given list, empty inputs, no error and nothing pending |
| UnavailableDaysSection.DaysSection.SetDate | apps/web/src/components/availability/unavailable-days-section.tsx:78 | only the date changes, and submitting is then disabled exactly when an add is pending or the date is empty (also apps/web/src/components/availability/unavailable-days-section.tsx:95) |
| UnavailableDaysSection.DaysSection.SetReason | apps/web/src/components/availability/unavailable-days-section.tsx:87 | only the reason changes |
| UnavailableDaysSection.DaysSection.HandleAddDay | apps/web/src/components/availability/unavailable-days-section.tsx:36-52 | submitting clears the error and sends the date and reason as they are; the transition ends as soon as its callback has started the action, so `addPending` is false again and the button is enabled exactly when the date is set, before any answer; nothing else changes |
| UnavailableDaysSection.DaysSection.AddSettled | apps/web/src/components/availability/unavailable-days-section.tsx:41-50 | success clears both inputs; failure shows its message and keeps them; the pending flags are untouched |
| UnavailableDaysSection.DaysSection.ErrorTimeout | apps/web/src/components/availability/unavailable-days-section.tsx:48 | four seconds after a failure only the error is cleared |
| UnavailableDaysSection.DaysSection.HandleDeleteDay | apps/web/src/components/availability/unavailable-days-section.tsx:54-63 | the day is removed from the list at once, before any answer, and `deletePending` is false again once the transition's callback returns |
| UnavailableDaysSection.DaysSection.DeleteSettled | apps/web/src/components/availability/unavailable-days-section.tsx:56-61 | a failed removal puts back the list the page passed in; success keeps the current list; the pending flags are untouched |

## Left out

- Network and I/O are not modelled: `sendTextMessage` and `getConfig` in `apps/web/src/lib/whatsapp.ts`, the gateway's HTTP calls, and e-mail sending. The booking actions record what the confirmation and cancellation senders are called with, and the `whatsappSent` follow-up is its own method.
- The concurrency of `createBookingAction` is not modelled: the race between the conflict query and the insert, and the unawaited send. The booking path is modelled as sequential and atomic.
- Session lookup (`getCurrentUserOrgId`, Supabase auth, `signOut`) is a parameter: the signed-in organization or user is passed in. Only the redirect message of `updateOrganization` is modelled.
- `revalidatePath`, `console` logging, `window.location.reload` after a successful add, and toasts are left out. The exceptions are the toast and result strings the contracts state.
- The catch-all branches that turn an unexpected database error into a generic message are left out. Such errors cannot arise in the model's stores, apart from the unique-key failures, which are modelled.
- The webhook's `GET` health check is left out. It returns a fixed body and touches no state.
- `getAvailabilityConfig` and the other read-only page queries are left out. They only list rows.
- `addBreakTime` and `removeBreakTime` are called by the breaks list but are not defined in `apps/web/src/app/actions/availability.ts`. Their answers are parameters of `BreakTimesSection.BreaksSection.AddSettled` and `RemoveSettled`.
- Time zones and DST are not modelled. A `Date` is a calendar day plus minutes of the day, `startOfDay(new Date())` is the `today` parameter, and `getHours` is the `hourOf` parameter.
- Randomness is a parameter: `crypto.randomBytes` tokens, generated row ids and `Date.now()`.
- Floating point is not modelled. Prices are reals in the schemas and integer cents in rows. `parseFloat`, `String(price)` and the `Intl.NumberFormat` currency text are parameters.
- Rendering-only parts of the components are left out: class names, icons, `isToday` and `isSameMonth` styling, and the `format(..., "dd 'de' MMMM")` labels.
- The dialog's duration preset buttons are left out. Each one is a `handleField` call with a fixed value.
- zod's `.time("HH:mm")`, `.date()`, `.email()`, `.uuid()` and `.datetime()` checks are parameters of the schemas.
- Unicode is covered only partly: lower-casing and NFD decomposition cover ASCII and the Latin-1 letters. String lengths count UTF-16 units only for text inside the Basic Multilingual Plane. The template editor's cursor positions (`selectionStart`, `selectionEnd`) are counted in characters, while the browser counts UTF-16 units; the two agree on such text too.
- `Common.StrLt`: orders strings by code point. JavaScript's `<` compares UTF-16 units, and the two orders differ only between characters above U+FFFF and those in U+E000-U+FFFF.
- `BreakTimesSection.StartsEarlier`: reads `localeCompare` as code-point order. The two differ on general text (`"a"` against `"B"`), and agree on the `HH:mm` texts the break schema admits.
- `TemplateConstants.DefaultPlaceholdersListed`: quantifies over the four known keys only, not over every `{{x}}` that could occur in a default text.
- The `isLoading` flag of the booking status buttons (`apps/web/src/app/dashboard/bookings/booking-actions.tsx`) is left out. It only disables the buttons while a status change is awaited.
- `Object.entries` order of the template variables is the order of the given sequence. Keys containing regular-expression special characters are not modelled, nor are `$1`-style group references in a value, which the placeholder pattern gives nothing to refer to and so leaves as written.
- `SlotEngine.NumberOf`: reads only strings of decimal digits. JavaScript's `Number` also accepts signs, white space, exponents and hexadecimal.
- `SlotEngine.Get`: a date that is not `yyyy-MM-dd` gives an unreadable-date answer. The route would instead carry on with an invalid or rolled-over `Date` (30 February becomes 1 March) and reach its 500 branch or return no slots.
- `SlotEngine.Get`: the day's upper bound `T23:59:59` is modelled at whole minutes.
- `CivilDate.ParseDateKey`: only four-digit years are read. JavaScript maps years below 100 to 19xx, and only `Availability.LocalDate` models that.
- `BookingCalendar.DayKey`: states the `yyyy-MM-dd` key only for years 1 to 9999, the years `format` writes with four digits.
- `BookingCalendar.NavigationRoundTrip`: gives back the very same day only for days up to the 28th. A later day can be clamped by a shorter month, as `addMonths` does.
- `ServiceFormDialog.ParseIntOfText`: reads whole numbers exactly. `parseInt` of numbers beyond 2^53 loses precision, which is not modelled.
- `Services.Cents`: rounds the price to the cent, half up. The database's `Decimal(10, 2)` rounding mode and the float the client sends are not modelled further.
- `BookingActions.BookingStore.UpdateStatus`: requires every booking's service to be in the services table. This stands for the `include` of service and organization that the source's query performs.
