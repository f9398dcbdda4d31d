/** The per-organisation store of customised WhatsApp templates: the merge
    of custom texts with the defaults, the single-template lookup used when
    a message is sent, and the upsert and reset actions. */
module WhatsAppTemplates {
  import opened Common
  import opened Domain
  import opened TemplateConstants

  /** `WhatsAppTemplateData`: one row of the template list. */
  datatype TemplateData = TemplateData(ttype: TemplateType, content: string, isCustom: bool)

  /** The `whatsAppTemplate` table, keyed by its unique (organizationId, type). */
  type CustomTable = map<(OrgId, TemplateType), string>

  const MinContent := 10
  const MaxContent := 1000

  /** `updateTemplateSchema.content`: zod measures `length` in UTF-16 units. */
  predicate ContentOk(content: string)
  {
    MinContent <= JsLength(content) <= MaxContent
  }

  /** What the store keeps: every stored text passed the schema. */
  ghost predicate StoredContentOk(custom: CustomTable)
  {
    forall k :: k in custom ==> ContentOk(custom[k])
  }

  /** `getTemplateContent`: a customised text has priority over the default. */
  function TemplateContent(custom: CustomTable, org: OrgId, t: TemplateType): (r: string)
    ensures (org, t) in custom ==> r == custom[(org, t)]
    ensures (org, t) !in custom ==> r == DefaultTemplate(t)
  {
    if (org, t) in custom then custom[(org, t)] else DefaultTemplate(t)
  }

  /** One entry of `getWhatsAppTemplates`: `custom ?? DEFAULT_TEMPLATES[type]`
      and `!!custom` (an empty string is not a customisation). */
  function Entry(custom: CustomTable, org: OrgId, t: TemplateType): TemplateData
  {
    var stored := (org, t) in custom;
    TemplateData(t, if stored then custom[(org, t)] else DefaultTemplate(t),
                 stored && custom[(org, t)] != "")
  }

  /** `getWhatsAppTemplates`: one entry per type, in the fixed order, each
      carrying the content the sender would use. */
  function Merge(custom: CustomTable, org: OrgId): (r: seq<TemplateData>)
    ensures |r| == |AllTypes| == 3
    ensures forall i :: 0 <= i < 3 ==>
              r[i].ttype == AllTypes[i]
              && r[i].content == TemplateContent(custom, org, AllTypes[i])
              && (r[i].isCustom <==> (org, AllTypes[i]) in custom && custom[(org, AllTypes[i])] != "")
  {
    seq(|AllTypes|, i requires 0 <= i < |AllTypes| => Entry(custom, org, AllTypes[i]))
  }

  /** In a store that only holds schema-valid texts, an entry is custom
      exactly when a row for it is stored. */
  lemma IsCustomIffStored(custom: CustomTable, org: OrgId, i: nat)
    requires StoredContentOk(custom) && i < 3
    ensures Merge(custom, org)[i].isCustom <==> (org, AllTypes[i]) in custom
  {
    var k := (org, AllTypes[i]);
    if k in custom {
      assert ContentOk(custom[k]);
      assert custom[k] != "";
    }
  }

  /** The first schema issue `upsertWhatsAppTemplate` reports. */
  datatype UpsertError = InvalidType | TooShort | TooLong

  /** The message returned for an error; for the type, zod's default enum
      message. */
  function UpsertMessage(e: UpsertError, rawType: string): string
  {
    match e
    case InvalidType =>
      "Invalid enum value. Expected 'CONFIRMATION' | 'CANCELLATION' | 'REMINDER', received '" + rawType + "'"
    case TooShort => "Mensagem muito curta (mínimo 10 caracteres)"
    case TooLong => "Mensagem muito longa (máximo 1000 caracteres)"
  }

  /** `updateTemplateSchema.parse`: the type is checked before the content,
      and the minimum before the maximum. */
  function ValidateUpsert(rawType: string, content: string): (r: Option<UpsertError>)
    ensures r.None? <==> ParseType(rawType).Some? && ContentOk(content)
    ensures r == Some(InvalidType) <==> ParseType(rawType).None?
    ensures r == Some(TooShort) ==> JsLength(content) < MinContent
    ensures r == Some(TooLong) ==> JsLength(content) > MaxContent
  {
    if ParseType(rawType).None? then Some(InvalidType)
    else if JsLength(content) < MinContent then Some(TooShort)
    else if JsLength(content) > MaxContent then Some(TooLong)
    else None
  }

  datatype TemplateResponse = Saved | Rejected(error: string)

  /** Writing a row changes only that (org, type): every other lookup, of
      this org or another, is as before. */
  lemma UpsertAffectsOneEntry(custom: CustomTable, org: OrgId, t: TemplateType, content: string,
                              org2: OrgId, t2: TemplateType)
    ensures TemplateContent(custom[(org, t) := content], org2, t2)
            == if (org2, t2) == (org, t) then content else TemplateContent(custom, org2, t2)
  {
  }

  /** Writing a schema-valid text keeps the store's invariant. */
  lemma UpsertKeepsStoredContentOk(custom: CustomTable, org: OrgId, t: TemplateType, content: string)
    requires StoredContentOk(custom) && ContentOk(content)
    ensures StoredContentOk(custom[(org, t) := content])
  {
  }

  /** After a reset the default is shown and the entry is not custom. */
  lemma ResetShowsDefault(custom: CustomTable, org: OrgId, i: nat)
    requires i < 3
    ensures Merge(custom - {(org, AllTypes[i])}, org)[i] == TemplateData(AllTypes[i], DefaultTemplate(AllTypes[i]), false)
  {
    var m := Merge(custom - {(org, AllTypes[i])}, org);
    assert m[i].ttype == AllTypes[i];
  }

  /** Resetting twice shows the same list as resetting once. */
  lemma ResetIdempotent(custom: CustomTable, org: OrgId, t: TemplateType)
    ensures Merge((custom - {(org, t)}) - {(org, t)}, org) == Merge(custom - {(org, t)}, org)
  {
    assert (custom - {(org, t)}) - {(org, t)} == custom - {(org, t)};
  }

  class TemplateStore {
    var custom: CustomTable

    constructor(initial: CustomTable)
      ensures custom == initial
    {
      custom := initial;
    }

    /** `upsertWhatsAppTemplate` for the caller's org. */
    method Upsert(org: OrgId, rawType: string, content: string) returns (r: TemplateResponse)
      modifies this
      ensures ValidateUpsert(rawType, content).Some? ==>
                r == Rejected(UpsertMessage(ValidateUpsert(rawType, content).value, rawType)) && custom == old(custom)
      ensures ValidateUpsert(rawType, content).None? ==>
                r == Saved && custom == old(custom)[(org, ParseType(rawType).value) := content]
      ensures old(StoredContentOk(custom)) ==> StoredContentOk(custom)
    {
      var err := ValidateUpsert(rawType, content);
      if err.Some? {
        return Rejected(UpsertMessage(err.value, rawType));
      }
      ghost var before := custom;
      custom := custom[(org, ParseType(rawType).value) := content];
      if StoredContentOk(before) {
        UpsertKeepsStoredContentOk(before, org, ParseType(rawType).value, content);
      }
      return Saved;
    }

    /** `resetWhatsAppTemplate`: `deleteMany` of the (org, type) row, which
        succeeds whether or not a row exists. */
    method Reset(org: OrgId, t: TemplateType) returns (r: TemplateResponse)
      modifies this
      ensures r == Saved && custom == old(custom) - {(org, t)}
      ensures old(StoredContentOk(custom)) ==> StoredContentOk(custom)
    {
      custom := custom - {(org, t)};
      return Saved;
    }
  }
}
