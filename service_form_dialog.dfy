/** The create/edit service dialog: its text fields, the client-side
    validation that fills the per-field errors, and the values it submits. */
module ServiceFormDialog {
  import opened Common
  import opened Domain
  import Services

  /** The four inputs, as text. */
  datatype FormValues = FormValues(name: string, description: string, price: string, durationMinutes: string)

  datatype Field = NameField | DescriptionField | PriceField | DurationField

  /** `Partial<ServiceFormValues>` of messages. */
  datatype FieldErrors = FieldErrors(name: Option<string>, description: Option<string>,
                                     price: Option<string>, durationMinutes: Option<string>)

  const EmptyForm := FormValues("", "", "", "60")
  const NoErrors := FieldErrors(None, None, None, None)

  const NameRequired := "Nome é obrigatório"
  const NameTooLong := "Nome deve ter no máximo 100 caracteres"
  const DescriptionTooLong := "Descrição deve ter no máximo 500 caracteres"
  const PriceRequired := "Preço é obrigatório"
  const PriceNegative := "Preço não pode ser negativo"
  const PriceTooHigh := "Preço muito alto"
  const DurationRequired := "Duração é obrigatória"
  const DurationTooShort := "Mínimo 5 minutos"
  const DurationTooLong := "Máximo 480 minutos"

  function Value(v: FormValues, f: Field): string
  {
    match f
    case NameField => v.name
    case DescriptionField => v.description
    case PriceField => v.price
    case DurationField => v.durationMinutes
  }

  /** `{ ...prev, [field]: value }`. */
  function WithValue(v: FormValues, f: Field, value: string): (r: FormValues)
    ensures Value(r, f) == value
    ensures forall g :: g != f ==> Value(r, g) == Value(v, g)
  {
    match f
    case NameField => v.(name := value)
    case DescriptionField => v.(description := value)
    case PriceField => v.(price := value)
    case DurationField => v.(durationMinutes := value)
  }

  function ErrorOf(e: FieldErrors, f: Field): Option<string>
  {
    match f
    case NameField => e.name
    case DescriptionField => e.description
    case PriceField => e.price
    case DurationField => e.durationMinutes
  }

  /** `{ ...prev, [field]: undefined }`. */
  function Cleared(e: FieldErrors, f: Field): (r: FieldErrors)
    ensures ErrorOf(r, f) == None
    ensures forall g :: g != f ==> ErrorOf(r, g) == ErrorOf(e, g)
  {
    match f
    case NameField => e.(name := None)
    case DescriptionField => e.(description := None)
    case PriceField => e.(price := None)
    case DurationField => e.(durationMinutes := None)
  }

  // ---------------------------------------------------------------------
  // parseInt
  // ---------------------------------------------------------------------

  predicate IsHexDigit(c: char) { IsDigit(c) || 'a' <= c <= 'f' || 'A' <= c <= 'F' }

  function HexValue(c: char): nat
    requires IsHexDigit(c)
  {
    if IsDigit(c) then DigitValue(c) else if 'a' <= c <= 'f' then c as int - 'a' as int + 10
    else c as int - 'A' as int + 10
  }

  /** The longest prefix of hexadecimal digits. */
  function HexRun(s: string): (r: string)
    ensures |r| <= |s| && r == s[..|r|] && forall i :: 0 <= i < |r| ==> IsHexDigit(r[i])
    ensures |r| < |s| ==> !IsHexDigit(s[|r|])
  {
    if s == [] || !IsHexDigit(s[0]) then [] else [s[0]] + HexRun(s[1..])
  }

  function ParseHex(s: string): nat
    requires forall i :: 0 <= i < |s| ==> IsHexDigit(s[i])
  {
    if s == [] then 0 else ParseHex(s[..|s| - 1]) * 16 + HexValue(s[|s| - 1])
  }

  /** `parseInt(s)` without a radix: leading white space and one sign are
      skipped, a `0x` or `0X` prefix switches to base 16, and the longest
      run of digits is read; no digit at all is `NaN` (`None`). */
  function ParseInt(s: string): Option<int>
  {
    ParseSigned(s[LeadingSpace(s)..])
  }

  function ParseSigned(t: string): Option<int>
  {
    if t != [] && t[0] == '-' then
      var m := ParseUnsigned(t[1..]);
      if m.None? then None else Some(-m.value)
    else if t != [] && t[0] == '+' then ParseUnsigned(t[1..])
    else ParseUnsigned(t)
  }

  function ParseUnsigned(u: string): Option<int>
  {
    if |u| >= 2 && u[0] == '0' && (u[1] == 'x' || u[1] == 'X') then
      var h := HexRun(u[2..]);
      if h == [] then None else Some(ParseHex(h))
    else
      var d := DigitRun(u);
      if d == [] then None else Some(ParseDecimal(d))
  }

  /** `parseInt(String(n))` is `n`: a duration put into the field reads back. */
  lemma ParseIntOfText(n: int)
    ensures ParseInt(IntText(n)) == Some(n)
  {
    var m: nat := if n < 0 then -n else n;
    var digits := NatToString(m);
    ParseUnsignedDigits(digits);
    ParseNatToString(m);
    var s := IntText(n);
    assert LeadingSpace(s) == 0 by { assert !IsJsWhitespace(s[0]); }
    assert s[0..] == s;
    if n < 0 {
      assert s[1..] == digits;
    }
  }

  lemma ParseUnsignedDigits(s: string)
    requires |s| >= 1 && AllDigits(s)
    ensures ParseUnsigned(s) == Some(ParseDecimal(s))
  {
    DigitRunOfDigits(s, []);
    assert s + [] == s;
  }

  // ---------------------------------------------------------------------
  // validate and handleSubmit
  // ---------------------------------------------------------------------

  /** `parseFloat` of the text after `replace(",", ".")`; `None` is `NaN`.
      The floating-point parse itself is a parameter. */
  function PriceOf(v: FormValues, parseFloat: string -> Option<real>): Option<real>
  {
    parseFloat(ReplaceFirst(v.price, ",", "."))
  }

  /** The errors `validate` records; each field is judged on its own, and
      the first failing rule of a field gives its message. */
  function ValidationErrors(v: FormValues, parseFloat: string -> Option<real>): (e: FieldErrors)
    ensures e.name.Some? <==> Trim(v.name) == "" || JsLength(v.name) > 100
    ensures e.description.Some? <==> JsLength(v.description) > 500
    ensures e.price.Some? <==> v.price == "" || PriceOf(v, parseFloat).None?
                               || PriceOf(v, parseFloat).value < 0.0 || PriceOf(v, parseFloat).value > Services.MaxPrice
    ensures e.durationMinutes.Some? <==> v.durationMinutes == "" || ParseInt(v.durationMinutes).None?
                                         || ParseInt(v.durationMinutes).value < 5 || ParseInt(v.durationMinutes).value > 480
    ensures Trim(v.name) == "" ==> e.name == Some(NameRequired)
    ensures v.price == "" ==> e.price == Some(PriceRequired)
    ensures v.durationMinutes == "" ==> e.durationMinutes == Some(DurationRequired)
  {
    var price := PriceOf(v, parseFloat);
    var duration := ParseInt(v.durationMinutes);
    FieldErrors(
      if Trim(v.name) == "" then Some(NameRequired)
      else if JsLength(v.name) > 100 then Some(NameTooLong) else None,
      if JsLength(v.description) > 500 then Some(DescriptionTooLong) else None,
      if v.price == "" || price.None? then Some(PriceRequired)
      else if price.value < 0.0 then Some(PriceNegative)
      else if price.value > Services.MaxPrice then Some(PriceTooHigh) else None,
      if v.durationMinutes == "" || duration.None? then Some(DurationRequired)
      else if duration.value < 5 then Some(DurationTooShort)
      else if duration.value > 480 then Some(DurationTooLong) else None)
  }

  /** The input `handleSubmit` passes to the action: trimmed texts and the
      parsed numbers. */
  function Submitted(v: FormValues, parseFloat: string -> Option<real>): Services.ServiceValues
  {
    var d := ParseInt(v.durationMinutes);
    Services.ServiceValues(Trim(v.name), Some(Trim(v.description)), PriceOf(v, parseFloat),
                           if d.Some? then Some(d.value as real) else None)
  }

  /** A middle piece counts no more than the whole text. */
  lemma JsLengthPiece(s: string, p: string, t: string, q: string)
    requires s == p + t + q
    ensures JsLength(t) <= JsLength(s)
  {
    JsLengthConcat(p + t, q);
    JsLengthConcat(p, t);
  }

  /** `trim()` keeps a slice of the text. */
  lemma TrimSlice(s: string) returns (a: nat, b: nat)
    ensures a <= b <= |s| && Trim(s) == s[a..b]
  {
    a := LeadingSpace(s);
    if a < |s| {
      b := |s| - TrailingSpace(s);
    } else {
      b := a;
    }
  }

  lemma TrimShorter(s: string)
    ensures JsLength(Trim(s)) <= JsLength(s)
  {
    var a, b := TrimSlice(s);
    var t := Trim(s);
    assert s == s[..a] + t + s[b..];
    JsLengthPiece(s, s[..a], t, s[b..]);
  }

  /** What the dialog lets through, the server's schema accepts: the
      client rules are at least as strict on every field. */
  lemma ClientValidIsServerValid(v: FormValues, parseFloat: string -> Option<real>)
    requires ValidationErrors(v, parseFloat) == NoErrors
    ensures Services.Accepted(Submitted(v, parseFloat))
  {
    TrimShorter(v.name);
    TrimShorter(v.description);
  }

  datatype Request =
    | CreateRequest(values: Services.ServiceValues)
    | UpdateRequest(serviceId: ServiceId, values: Services.ServiceValues)

  /** The form for the service being edited, or the empty form. The text of
      a price (`String(price)`) is a parameter. */
  function Prefilled(service: Option<Service>, priceText: real -> string): FormValues
  {
    if service.None? then EmptyForm
    else
      var s := service.value;
      FormValues(s.name, if s.description.Some? then s.description.value else "",
                 priceText(s.priceCents as real / 100.0), IntText(s.durationMinutes))
  }

  /** An opened dialog shows the service's own duration, and the empty form
      one of 60 minutes. */
  lemma PrefilledDuration(service: Option<Service>, priceText: real -> string)
    ensures ParseInt(Prefilled(service, priceText).durationMinutes)
            == Some(if service.Some? then service.value.durationMinutes else 60)
  {
    if service.Some? {
      ParseIntOfText(service.value.durationMinutes);
    } else {
      ParseIntOfText(60);
      assert IntText(60) == "60";
    }
  }

  class Dialog {
    const service: Option<Service>
    const parseFloat: string -> Option<real>
    const priceText: real -> string
    var form: FormValues
    var errors: FieldErrors

    /** Opening the dialog runs the effect that fills the form. */
    constructor (service: Option<Service>, parseFloat: string -> Option<real>, priceText: real -> string)
      ensures this.service == service && this.parseFloat == parseFloat && this.priceText == priceText
      ensures form == Prefilled(service, priceText) && errors == NoErrors
    {
      this.service := service;
      this.parseFloat := parseFloat;
      this.priceText := priceText;
      form := Prefilled(service, priceText);
      errors := NoErrors;
    }

    /** The effect, run again when the dialog is reopened. */
    method Reopen()
      modifies this
      ensures form == Prefilled(service, priceText) && errors == NoErrors
    {
      form := Prefilled(service, priceText);
      errors := NoErrors;
    }

    /** Replaces the errors with this form's and reports whether there are none. */
    method Validate() returns (ok: bool)
      modifies this
      ensures errors == ValidationErrors(form, parseFloat) && form == old(form)
      ensures ok <==> errors == NoErrors
    {
      errors := ValidationErrors(form, parseFloat);
      ok := errors == NoErrors;
    }

    /** Nothing is sent when validation fails; otherwise the trimmed, parsed
        values go to create, or to update for the service being edited. */
    method HandleSubmit() returns (request: Option<Request>)
      modifies this
      ensures errors == ValidationErrors(form, parseFloat) && form == old(form)
      ensures request.None? <==> errors != NoErrors
      ensures request.Some? ==>
                request.value == (if service.Some? then UpdateRequest(service.value.id, Submitted(form, parseFloat))
                                  else CreateRequest(Submitted(form, parseFloat)))
                && Services.Accepted(request.value.values)
    {
      var ok := Validate();
      if !ok {
        return None;
      }
      ClientValidIsServerValid(form, parseFloat);
      var values := Submitted(form, parseFloat);
      request := Some(if service.Some? then UpdateRequest(service.value.id, values) else CreateRequest(values));
    }

    /** Typing in one field sets it and clears that field's message only. */
    method HandleField(f: Field, value: string)
      modifies this
      ensures form == WithValue(old(form), f, value)
      ensures ErrorOf(errors, f) == (if ErrorOf(old(errors), f).Some? && ErrorOf(old(errors), f).value != "" then None
                                     else ErrorOf(old(errors), f))
      ensures forall g :: g != f ==> ErrorOf(errors, g) == ErrorOf(old(errors), g)
    {
      form := WithValue(form, f, value);
      var e := ErrorOf(errors, f);
      if e.Some? && e.value != "" {
        errors := Cleared(errors, f);
      }
    }
  }
}
