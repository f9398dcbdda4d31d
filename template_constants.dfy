/** The message templates' fixed data (the default text of each type and
    the variables each type offers) and the template engine that fills
    `{{key}}` placeholders. */
module TemplateConstants {
  import opened Common

  datatype TemplateType = CONFIRMATION | CANCELLATION | REMINDER

  const AllTypes: seq<TemplateType> := [CONFIRMATION, CANCELLATION, REMINDER]

  function TypeName(t: TemplateType): string
  {
    match t
    case CONFIRMATION => "CONFIRMATION"
    case CANCELLATION => "CANCELLATION"
    case REMINDER => "REMINDER"
  }

  /** `z.enum(["CONFIRMATION", "CANCELLATION", "REMINDER"])`. */
  function ParseType(name: string): (r: Option<TemplateType>)
    ensures r.Some? <==> name == "CONFIRMATION" || name == "CANCELLATION" || name == "REMINDER"
    ensures r.Some? ==> TypeName(r.value) == name
  {
    if name == "CONFIRMATION" then Some(CONFIRMATION)
    else if name == "CANCELLATION" then Some(CANCELLATION)
    else if name == "REMINDER" then Some(REMINDER)
    else None
  }

  lemma ParseTypeName(t: TemplateType)
    ensures ParseType(TypeName(t)) == Some(t)
  {
  }

  /** The placeholders the default texts and the metadata use. */
  const NameVar := "{{nome}}"
  const ServiceVar := "{{serviço}}"
  const DateVar := "{{data}}"
  const OrganizationVar := "{{organização}}"

  /** The fixed lines of the default texts, written in pieces. */
  const ConfirmedText := "Seu agendamento foi " + "*confirmado*! ✅"
  const ContactText := "Caso precise cancelar " + "ou reagendar, entre " + "em contato conosco."
  const CancelIntro := "Informamos que seu " + "agendamento para *"
  const RescheduleText := "Se desejar reagendar, " + "acesse nosso link " + "de agendamento."
  const ReminderIntro := "Sua consulta/reserva " + "para *"
  const PresenceText := "Confirme sua presença " + "respondendo esta " + "mensagem."
  const Signature := "_Mensagem automática " + "- Easyfy_"

  /** The lines of `DEFAULT_TEMPLATES[t]`. */
  function DefaultLines(t: TemplateType): seq<string>
  {
    match t
    case CONFIRMATION => [
      "Olá " + NameVar + "! 👋",
      "",
      ConfirmedText,
      "",
      "📅 *" + ServiceVar + "*",
      "🕐 *" + DateVar + "*",
      "📍 *" + OrganizationVar + "*",
      "",
      ContactText,
      "",
      Signature]
    case CANCELLATION => [
      "Olá " + NameVar + ",",
      "",
      CancelIntro + ServiceVar + "* em *" + DateVar + "* foi *cancelado*.",
      "",
      RescheduleText,
      "",
      Signature]
    case REMINDER => [
      "Lembrete: Olá " + NameVar + "! 🔔",
      "",
      ReminderIntro + ServiceVar + "* é amanhã, *" + DateVar + "*.",
      "",
      "📍 *" + OrganizationVar + "*",
      "",
      PresenceText,
      "",
      Signature]
  }

  /** `DEFAULT_TEMPLATES[t]`: the lines joined by a newline. */
  function DefaultTemplate(t: TemplateType): string
  {
    Join(DefaultLines(t), "\n")
  }

  datatype TemplateMeta = TemplateMeta(labelText: string, description: string, variables: seq<string>)

  const ConfirmationLabel := "Confirmação de Agendamento"
  const ConfirmationDescription := "Enviada ao cliente assim que o agendamento é criado"
  const CancellationLabel := "Cancelamento"
  const CancellationDescription := "Enviada quando um agendamento é cancelado"
  const ReminderLabel := "Lembrete (24h antes)"
  const ReminderDescription := "Enviada 24 horas antes do agendamento"

  /** `TEMPLATE_META[t]`. */
  function Meta(t: TemplateType): TemplateMeta
  {
    match t
    case CONFIRMATION => TemplateMeta(ConfirmationLabel, ConfirmationDescription,
                                      [NameVar, ServiceVar, DateVar, OrganizationVar])
    case CANCELLATION => TemplateMeta(CancellationLabel, CancellationDescription, [NameVar, ServiceVar, DateVar])
    case REMINDER => TemplateMeta(ReminderLabel, ReminderDescription, [NameVar, ServiceVar, DateVar, OrganizationVar])
  }

  // ---------------------------------------------------------------------
  // The engine
  // ---------------------------------------------------------------------

  /** The literal text that `new RegExp("\\{\\{" + key + "\\}\\}", "g")` matches. */
  function Placeholder(key: string): (p: string)
    ensures |p| >= 4 && p[..2] == "{{"
  {
    "{{" + key + "}}"
  }

  /** `renderTemplate`: for each entry in order, every occurrence of the
      entry's placeholder is replaced by its value, with the value's `$`
      patterns expanded as `replace` expands them. Variables are the
      entries of the record, in `Object.entries` order. */
  function RenderTemplate(template: string, variables: seq<(string, string)>): (r: string)
    ensures !Contains(template, "{{") ==> r == template
    ensures variables == [] ==> r == template
    decreases |variables|
  {
    if variables == [] then template
    else
      var (key, value) := variables[0];
      var next := ReplaceAll(template, Placeholder(key), value);
      NoBracesNoPlaceholder(template, key);
      RenderTemplate(next, variables[1..])
  }

  lemma NoBracesNoPlaceholder(s: string, key: string)
    ensures !Contains(s, "{{") ==> !Contains(s, Placeholder(key))
  {
    assert Placeholder(key) == "{{" + (key + "}}");
    if Contains(s, Placeholder(key)) {
      ContainsPrefixOfPattern(s, "{{", key + "}}");
    }
  }

  /** A text in which no variable's placeholder occurs is left alone. */
  lemma {:induction false} RenderWithoutPlaceholders(s: string, variables: seq<(string, string)>)
    requires forall i :: 0 <= i < |variables| ==> !Contains(s, Placeholder(variables[i].0))
    ensures RenderTemplate(s, variables) == s
    decreases |variables|
  {
    if variables != [] {
      RenderWithoutPlaceholders(s, variables[1..]);
    }
  }

  /** Rendering is stable once the result shows no placeholder of the
      variables: a second pass changes nothing. */
  lemma RenderTwiceWhenClean(template: string, variables: seq<(string, string)>)
    requires forall i :: 0 <= i < |variables| ==> !Contains(RenderTemplate(template, variables), Placeholder(variables[i].0))
    ensures RenderTemplate(RenderTemplate(template, variables), variables) == RenderTemplate(template, variables)
  {
    RenderWithoutPlaceholders(RenderTemplate(template, variables), variables);
  }

  /** Values are free of `{{` and yet a second pass still changes the text:
      the first pass can assemble a placeholder out of the text around the
      one it replaced (for `nome`, `{{{{nome}}nome}}` renders to `{{nome}}`
      and then to the empty text). */
  lemma RenderTwiceCanDiffer(key: string)
    requires key != [] && key[0] != '{'
    ensures var once := RenderTemplate("{{" + Placeholder(key) + key + "}}", [(key, "")]);
            once == Placeholder(key) && RenderTemplate(once, [(key, "")]) == ""
  {
    var p := Placeholder(key);
    var s := "{{" + p + key + "}}";
    ReplaceAssemblesPlaceholder(key);
    assert RenderTemplate(s, [(key, "")]) == RenderTemplate(p, []);
    assert p[..|p|] == p && p[|p|..] == [];
    assert ReplaceAll(p, p, "") == "" + ReplaceAllAfter(p, [], p, "");
    assert RenderTemplate(p, [(key, "")]) == RenderTemplate("", []);
  }

  lemma ReplaceAssemblesPlaceholder(key: string)
    requires key != [] && key[0] != '{'
    ensures ReplaceAll("{{" + Placeholder(key) + key + "}}", Placeholder(key), "") == Placeholder(key)
  {
    var p := Placeholder(key);
    var s := "{{" + p + key + "}}";
    assert s[2] == '{' && s[3] == '{' && p[2] == key[0];
    assert s[..|p|] != p by { assert s[..|p|][2] != p[2]; }
    assert s[1..][..|p|] != p by { assert s[1..][..|p|][2] != p[2]; }
    assert s[2..][..|p|] == p;
    var rest := s[2..][|p|..];
    assert rest == key + "}}";
    assert ReplaceAllAfter(s[..2], s[2..], p, "") == "" + rest;
    assert ReplaceAllAfter([], s, p, "") == [s[0]] + ([s[1]] + rest) by {
      assert [] + [s[0]] + [s[1]] == s[..2];
    }
  }

  /** Substitution is sequential: a value inserted for an earlier key is
      rewritten by a later key. */
  lemma RenderIsSequential()
    ensures RenderTemplate("{{a}}", [("a", "{{b}}"), ("b", "x")]) == "x"
  {
    assert Placeholder("a") == "{{a}}" && Placeholder("b") == "{{b}}";
    assert ReplaceAll("{{a}}", "{{a}}", "{{b}}") == "{{b}}" + ReplaceAllAfter("{{a}}", "", "{{a}}", "{{b}}");
    assert ReplaceAll("{{b}}", "{{b}}", "x") == "x" + ReplaceAllAfter("{{b}}", "", "{{b}}", "x");
  }

  /** A value of `$&` puts the placeholder back: every occurrence of it is
      replaced by itself. */
  lemma RenderMatchValueKeepsPlaceholder(template: string, key: string)
    ensures RenderTemplate(template, [(key, "$&")]) == template
  {
    ReplaceWithMatchIsIdentity([], template, Placeholder(key));
  }

  /** `$$` in a value stands for a single dollar sign: `R$$` is shown as `R$`. */
  lemma RenderDoubledDollar(key: string)
    ensures RenderTemplate(Placeholder(key), [(key, "R$$")]) == "R$"
  {
    var p := Placeholder(key);
    assert p[..|p|] == p && p[|p|..] == [];
    assert Substitution("R$$", [], p, []) == "R" + Substitution("$$", [], p, []);
    assert ReplaceAll(p, p, "R$$") == Substitution("R$$", [], p, []) + ReplaceAllAfter(p, [], p, "R$$");
  }

  // ---------------------------------------------------------------------
  // Defaults against metadata
  // ---------------------------------------------------------------------

  /** Every variable the metadata lists for a type occurs in its default text. */
  lemma MetaVariablesOccurInDefaults(t: TemplateType, i: nat)
    requires i < |Meta(t).variables|
    ensures Contains(DefaultTemplate(t), Meta(t).variables[i])
  {
    var v := Meta(t).variables[i];
    match t
    case CONFIRMATION =>
      if i == 0 { assert v == NameVar; ConfirmationHasName(); }
      else if i == 1 { assert v == ServiceVar; ConfirmationHasService(); }
      else if i == 2 { assert v == DateVar; ConfirmationHasDate(); }
      else { assert v == OrganizationVar; ConfirmationHasOrganization(); }
    case CANCELLATION =>
      if i == 0 { assert v == NameVar; CancellationHasName(); }
      else if i == 1 { assert v == ServiceVar; CancellationHasService(); }
      else { assert v == DateVar; CancellationHasDate(); }
    case REMINDER =>
      if i == 0 { assert v == NameVar; ReminderHasName(); }
      else if i == 1 { assert v == ServiceVar; ReminderHasService(); }
      else if i == 2 { assert v == DateVar; ReminderHasDate(); }
      else { assert v == OrganizationVar; ReminderHasOrganization(); }
  }

  // One lemma per placeholder of each default text, naming the line it is on.

  lemma ConfirmationHasName()
    ensures Contains(DefaultTemplate(CONFIRMATION), NameVar)
  {
    JoinContainsMiddle(DefaultLines(CONFIRMATION), "\n", 0, "Olá ", NameVar, "! 👋");
  }

  lemma ConfirmationHasService()
    ensures Contains(DefaultTemplate(CONFIRMATION), ServiceVar)
  {
    JoinContainsMiddle(DefaultLines(CONFIRMATION), "\n", 4, "📅 *", ServiceVar, "*");
  }

  lemma ConfirmationHasDate()
    ensures Contains(DefaultTemplate(CONFIRMATION), DateVar)
  {
    JoinContainsMiddle(DefaultLines(CONFIRMATION), "\n", 5, "🕐 *", DateVar, "*");
  }

  lemma ConfirmationHasOrganization()
    ensures Contains(DefaultTemplate(CONFIRMATION), OrganizationVar)
  {
    JoinContainsMiddle(DefaultLines(CONFIRMATION), "\n", 6, "📍 *", OrganizationVar, "*");
  }

  lemma CancellationHasName()
    ensures Contains(DefaultTemplate(CANCELLATION), NameVar)
  {
    JoinContainsMiddle(DefaultLines(CANCELLATION), "\n", 0, "Olá ", NameVar, ",");
  }

  lemma CancellationHasService()
    ensures Contains(DefaultTemplate(CANCELLATION), ServiceVar)
  {
    JoinContainsMiddle(DefaultLines(CANCELLATION), "\n", 2, CancelIntro, ServiceVar,
                       "* em *" + DateVar + "* foi *cancelado*.");
  }

  lemma CancellationHasDate()
    ensures Contains(DefaultTemplate(CANCELLATION), DateVar)
  {
    JoinContainsMiddle(DefaultLines(CANCELLATION), "\n", 2, CancelIntro + ServiceVar + "* em *", DateVar,
                       "* foi *cancelado*.");
  }

  lemma ReminderHasName()
    ensures Contains(DefaultTemplate(REMINDER), NameVar)
  {
    JoinContainsMiddle(DefaultLines(REMINDER), "\n", 0, "Lembrete: Olá ", NameVar, "! 🔔");
  }

  lemma ReminderHasService()
    ensures Contains(DefaultTemplate(REMINDER), ServiceVar)
  {
    JoinContainsMiddle(DefaultLines(REMINDER), "\n", 2, ReminderIntro, ServiceVar, "* é amanhã, *" + DateVar + "*.");
  }

  lemma ReminderHasDate()
    ensures Contains(DefaultTemplate(REMINDER), DateVar)
  {
    JoinContainsMiddle(DefaultLines(REMINDER), "\n", 2, ReminderIntro + ServiceVar + "* é amanhã, *", DateVar, "*.");
  }

  lemma ReminderHasOrganization()
    ensures Contains(DefaultTemplate(REMINDER), OrganizationVar)
  {
    JoinContainsMiddle(DefaultLines(REMINDER), "\n", 4, "📍 *", OrganizationVar, "*");
  }

  /** The keys the application fills in. */
  const KnownKeys: seq<string> := ["nome", "serviço", "data", "organização"]

  /** The cancellation text does not use `{{organização}}`, which its
      metadata leaves out. */
  lemma CancellationOmitsOrganization(t: TemplateType, p: string)
    requires t == CANCELLATION && p == Placeholder("organização")
    ensures !Contains(DefaultTemplate(t), p)
  {
    CancellationLinesLackZ();
    if 'z' in DefaultTemplate(t) {
      JoinChars(DefaultLines(t), "\n", 'z');
    }
    assert p[8] == 'z';
    NotContainsMissingChar(DefaultTemplate(t), p, 8);
  }

  /** No line of the cancellation text has the letter `z`. */
  lemma CancellationLinesLackZ()
    ensures forall k :: 0 <= k < |DefaultLines(CANCELLATION)| ==> 'z' !in DefaultLines(CANCELLATION)[k]
  {
    forall k | 0 <= k < |DefaultLines(CANCELLATION)| ensures 'z' !in DefaultLines(CANCELLATION)[k] {
      CancellationLineLacksZ(k);
    }
  }

  lemma CancellationLineLacksZ(k: nat)
    requires k < |DefaultLines(CANCELLATION)|
    ensures 'z' !in DefaultLines(CANCELLATION)[k]
  {
    var lines := DefaultLines(CANCELLATION);
    if k == 0 {
      assert lines[0] == "Olá " + NameVar + ",";
      assert 'z' !in NameVar;
    } else if k == 2 {
      CancellationNoticeLacksZ(lines[2]);
    } else if k == 4 {
      assert 'z' !in RescheduleText;
    } else if k == 6 {
      assert 'z' !in Signature;
    }
  }

  lemma CancellationNoticeLacksZ(line: string)
    requires line == CancelIntro + ServiceVar + "* em *" + DateVar + "* foi *cancelado*."
    ensures 'z' !in line
  {
    assert 'z' !in CancelIntro;
    assert 'z' !in ServiceVar && 'z' !in DateVar;
  }

  /** A known placeholder occurs in a default text exactly when the metadata
      lists it for that type. */
  lemma DefaultPlaceholdersListed(t: TemplateType, k: nat)
    requires k < |KnownKeys|
    ensures Contains(DefaultTemplate(t), Placeholder(KnownKeys[k])) <==> Placeholder(KnownKeys[k]) in Meta(t).variables
  {
    if t == CANCELLATION && k == 3 {
      OrganizationUnlistedForCancellation(t, KnownKeys[k]);
      CancellationOmitsOrganization(t, Placeholder(KnownKeys[k]));
    } else {
      KnownKeyListed(t, k);
      MetaVariablesOccurInDefaults(t, k);
    }
  }

  lemma OrganizationUnlistedForCancellation(t: TemplateType, key: string)
    requires t == CANCELLATION && key == "organização"
    ensures Placeholder(key) !in Meta(t).variables
  {
    var p := Placeholder(key);
    assert p == OrganizationVar;
    assert NameVar[2] != p[2] && ServiceVar[2] != p[2] && DateVar[2] != p[2];
  }

  lemma KnownKeyListed(t: TemplateType, k: nat)
    requires k < |KnownKeys| && (t == CANCELLATION ==> k < 3)
    ensures k < |Meta(t).variables| && Meta(t).variables[k] == Placeholder(KnownKeys[k])
  {
  }
}
