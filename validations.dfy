/** The shared input schemas for bookings, services and organizations.
    Every check is a predicate on one field; a schema's parse fails with the
    list of the fields whose check fails, in the schema's order. */
module Validations {
  import opened Common

  /** The string formats zod checks with its own patterns; they are
      parameters of the model. `parseDateTime` reads an ISO date-time into
      an instant in minutes, None when `.datetime()` refuses it. */
  datatype Formats = Formats(isUuid: string -> bool, isEmail: string -> bool, parseDateTime: string -> Option<int>)

  /** `.min(lo).max(hi)` on a string. */
  predicate LengthBetween(s: string, lo: int, hi: int) { lo <= JsLength(s) <= hi }

  /** `/^55\d{10,11}$/`. */
  predicate IsBrazilPhone(s: string)
  {
    (|s| == 12 || |s| == 13) && s[..2] == "55" && AllDigits(s[2..])
  }

  /** A phone the pattern accepts is its own digit string. */
  lemma BrazilPhoneDigits(s: string)
    requires IsBrazilPhone(s)
    ensures AllDigits(s) && DigitsOnly(s) == s
  {
    assert s == s[..2] + s[2..];
    assert AllDigits(s);
    DigitsOnlyOfDigits(s);
  }

  /** Country code, area code and a local number of 8 or 9 digits. */
  lemma BrazilPhoneShape(ddd: string, local: string)
    requires |ddd| == 2 && AllDigits(ddd) && (|local| == 8 || |local| == 9) && AllDigits(local)
    ensures IsBrazilPhone("55" + ddd + local)
  {
    var s := "55" + ddd + local;
    assert s[..2] == "55";
    assert s[2..] == ddd + local;
  }

  // ---------------------------------------------------------------------
  // createBookingSchema
  // ---------------------------------------------------------------------

  datatype BookingInput = BookingInput(
    organizationId: string,
    serviceId: string,
    clientName: string,
    clientPhone: string,
    clientEmail: Option<string>,
    startTime: string,
    notes: Option<string>)

  datatype BookingField = OrganizationIdField | ServiceIdField | ClientNameField | ClientPhoneField
                        | ClientEmailField | StartTimeField | NotesField

  const BookingFields: seq<BookingField> :=
    [OrganizationIdField, ServiceIdField, ClientNameField, ClientPhoneField, ClientEmailField, StartTimeField, NotesField]

  lemma AllBookingFields()
    ensures forall f :: f in BookingFields
  {
    forall f: BookingField ensures f in BookingFields {
      var i := match f
        case OrganizationIdField => 0 case ServiceIdField => 1 case ClientNameField => 2
        case ClientPhoneField => 3 case ClientEmailField => 4 case StartTimeField => 5 case NotesField => 6;
      assert BookingFields[i] == f;
    }
  }

  predicate BookingFieldOk(f: BookingField, input: BookingInput, fmt: Formats)
  {
    match f
    case OrganizationIdField => fmt.isUuid(input.organizationId)
    case ServiceIdField => fmt.isUuid(input.serviceId)
    case ClientNameField => LengthBetween(input.clientName, 2, 100)
    case ClientPhoneField => IsBrazilPhone(input.clientPhone)
    // `.email().optional().or(z.literal(""))`
    case ClientEmailField => input.clientEmail.None? || input.clientEmail.value == "" || fmt.isEmail(input.clientEmail.value)
    case StartTimeField => fmt.parseDateTime(input.startTime).Some?
    case NotesField => input.notes.None? || JsLength(input.notes.value) <= 500
  }

  /** The fields of `fields` whose check fails, in order. */
  function FailingFields(fields: seq<BookingField>, input: BookingInput, fmt: Formats): (errs: seq<BookingField>)
    ensures |errs| <= |fields|
    ensures forall f :: f in errs <==> f in fields && !BookingFieldOk(f, input, fmt)
  {
    if fields == [] then []
    else
      assert forall x :: x in fields <==> x == fields[0] || x in fields[1..];
      (if BookingFieldOk(fields[0], input, fmt) then [] else [fields[0]]) + FailingFields(fields[1..], input, fmt)
  }

  /** `createBookingSchema.safeParse`: the field errors, empty on success. */
  function BookingErrors(input: BookingInput, fmt: Formats): (errs: seq<BookingField>)
    ensures errs == [] <==> forall f :: BookingFieldOk(f, input, fmt)
    ensures forall f :: f in errs <==> !BookingFieldOk(f, input, fmt)
    ensures errs == [] ==> fmt.parseDateTime(input.startTime).Some?
  {
    AllBookingFields();
    var errs := FailingFields(BookingFields, input, fmt);
    assert errs != [] ==> errs[0] in errs;
    assert StartTimeField in BookingFields;
    errs
  }

  // ---------------------------------------------------------------------
  // createServiceSchema (prices in cents)
  // ---------------------------------------------------------------------

  datatype ServiceInput = ServiceInput(name: string, description: Option<string>, priceCents: int, durationMinutes: int)

  predicate ValidService(input: ServiceInput)
  {
    LengthBetween(input.name, 2, 100)
    && (input.description.None? || JsLength(input.description.value) <= 500)
    && input.priceCents >= 0
    && 5 <= input.durationMinutes <= 480
  }

  // ---------------------------------------------------------------------
  // createOrganizationSchema
  // ---------------------------------------------------------------------

  datatype OrganizationInput = OrganizationInput(name: string, slug: string, whatsappNumber: Option<string>)

  /** `/^[a-z0-9-]+$/` */
  predicate SlugChars(s: string) { |s| >= 1 && forall i :: 0 <= i < |s| ==> IsLowerAlnum(s[i]) || s[i] == '-' }

  predicate ValidOrganization(input: OrganizationInput)
  {
    LengthBetween(input.name, 2, 100)
    && LengthBetween(input.slug, 3, 50) && SlugChars(input.slug)
    && (input.whatsappNumber.None? || IsBrazilPhone(input.whatsappNumber.value))
  }

  /** A slug needs three characters of `[a-z0-9-]`; an optional number is a
      Brazilian phone in digits. */
  lemma ValidOrganizationWitness()
    ensures ValidOrganization(OrganizationInput("Salão", "salao-x", Some("5511999999999")))
  {
    ExampleFieldsOk();
    ExamplePhoneOk();
  }

  lemma ExampleFieldsOk()
    ensures LengthBetween("Salão", 2, 100) && LengthBetween("salao-x", 3, 50) && SlugChars("salao-x")
  {
    assert JsLength("Salão") == 5 && JsLength("salao-x") == 7;
  }

  lemma ExamplePhoneOk()
    ensures IsBrazilPhone("5511999999999")
  {
    var s := "5511999999999";
    assert s[..2] == "55";
    assert forall i :: 0 <= i < |s[2..]| ==> IsDigit(s[2..][i]);
  }

  lemma ShortSlugRefused()
    ensures !ValidOrganization(OrganizationInput("Salão", "sa", None))
  {
    assert JsLength("sa") == 2;
  }

  lemma CapitalInSlugRefused()
    ensures !ValidOrganization(OrganizationInput("Salão", "Salao", None))
  {
    assert !IsLowerAlnum("Salao"[0]);
  }
}
