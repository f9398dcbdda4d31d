/** The service catalogue actions: the server-side schema, and create,
    update, delete and toggle, each confined to the caller's organization. */
module Services {
  import opened Common
  import opened Domain

  /** The action's input as it arrives. A number field that is not a number
      (NaN, or not a number at all) is `None`. */
  datatype ServiceValues = ServiceValues(name: string, description: Option<string>,
                                         price: Option<real>, durationMinutes: Option<real>)

  const NameRequired := "Nome é obrigatório"
  const NameTooLong := "Nome deve ter no máximo 100 caracteres"
  const DescriptionTooLong := "Descrição deve ter no máximo 500 caracteres"
  const PriceInvalid := "Preço inválido"
  const PriceNegative := "Preço não pode ser negativo"
  const PriceTooHigh := "Preço muito alto"
  const DurationInvalid := "Duração inválida"
  const DurationNotInteger := "Duração deve ser um número inteiro"
  const DurationTooShort := "Duração mínima é 5 minutos"
  const DurationTooLong := "Duração máxima é 480 minutos (8 horas)"
  const NotFound := "Serviço não encontrado."
  const Created := "Serviço criado com sucesso!"
  const Updated := "Serviço atualizado com sucesso!"
  const Deleted := "Serviço excluído com sucesso!"
  const Activated := "Serviço ativado!"
  const Deactivated := "Serviço desativado!"

  const MaxPrice: real := 99999.99

  // ---------------------------------------------------------------------
  // serviceSchema
  // ---------------------------------------------------------------------

  /** What the schema accepts, field by field. */
  predicate Accepted(v: ServiceValues)
  {
    1 <= JsLength(v.name) <= 100
    && (v.description.None? || JsLength(v.description.value) <= 500)
    && v.price.Some? && 0.0 <= v.price.value <= MaxPrice
    && v.durationMinutes.Some? && v.durationMinutes.value.Floor as real == v.durationMinutes.value
    && 5.0 <= v.durationMinutes.value <= 480.0
  }

  function NameIssues(name: string): seq<string>
  {
    if JsLength(name) < 1 then [NameRequired] else if JsLength(name) > 100 then [NameTooLong] else []
  }

  /** Too long a text fails the string branch of `.optional().or(z.literal(""))`;
      the union then reports that branch's message. */
  function DescriptionIssues(d: Option<string>): seq<string>
  {
    if d.Some? && JsLength(d.value) > 500 then [DescriptionTooLong] else []
  }

  function PriceIssues(p: Option<real>): seq<string>
  {
    if p.None? then [PriceInvalid]
    else (if p.value < 0.0 then [PriceNegative] else []) + (if p.value > MaxPrice then [PriceTooHigh] else [])
  }

  /** All of `.int()`, `.min(5)` and `.max(480)` are checked; an invalid
      type stops the field. */
  function DurationIssues(d: Option<real>): seq<string>
  {
    if d.None? then [DurationInvalid]
    else (if d.value.Floor as real != d.value then [DurationNotInteger] else [])
         + (if d.value < 5.0 then [DurationTooShort] else [])
         + (if d.value > 480.0 then [DurationTooLong] else [])
  }

  /** `serviceSchema.safeParse(input).error.errors`, in field order. */
  function Issues(v: ServiceValues): (r: seq<string>)
    ensures r == [] <==> Accepted(v)
  {
    NameIssues(v.name) + DescriptionIssues(v.description) + PriceIssues(v.price) + DurationIssues(v.durationMinutes)
  }

  /** The message the action returns: the first issue. */
  function SchemaError(v: ServiceValues): (r: Option<string>)
    ensures r.None? <==> Accepted(v)
    ensures JsLength(v.name) < 1 ==> r == Some(NameRequired)
    ensures JsLength(v.name) > 100 ==> r == Some(NameTooLong)
    ensures 1 <= JsLength(v.name) <= 100 && v.description.Some? && JsLength(v.description.value) > 500
            ==> r == Some(DescriptionTooLong)
    ensures r.Some? ==> r.value in Issues(v)
  {
    var issues := Issues(v);
    if issues == [] then None else Some(issues[0])
  }

  // ---------------------------------------------------------------------
  // Rows
  // ---------------------------------------------------------------------

  /** A `Decimal(10, 2)` column keeps the price to the cent, rounding half up. */
  function Cents(price: real): (c: int)
    ensures c as real - 0.5 <= price * 100.0 < c as real + 0.5
  {
    (price * 100.0 + 0.5).Floor
  }

  /** The row `createService` inserts: active, an empty description stored
      as null. */
  function NewService(id: ServiceId, orgId: OrgId, v: ServiceValues): (s: Service)
    requires Accepted(v)
    ensures s.id == id && s.organizationId == orgId && s.active
    ensures s.name == v.name && 5 <= s.durationMinutes <= 480 && s.durationMinutes as real == v.durationMinutes.value
    ensures s.description.Some? <==> v.description.Some? && v.description.value != ""
    ensures 0 <= s.priceCents <= 9999999
  {
    Service(id, orgId, v.name, OrNull(v.description), Cents(v.price.value), v.durationMinutes.value.Floor, true)
  }

  /** `updateService`'s data: the four fields change, `active`, the id and
      the organization do not. */
  function Edited(s: Service, v: ServiceValues): (r: Service)
    requires Accepted(v)
    ensures r.id == s.id && r.organizationId == s.organizationId && r.active == s.active
    ensures r == NewService(s.id, s.organizationId, v).(active := s.active)
  {
    s.(name := v.name, description := OrNull(v.description), priceCents := Cents(v.price.value),
       durationMinutes := v.durationMinutes.value.Floor)
  }

  /** `findFirst({ where: { id, organizationId } })`. */
  function FindOwned(services: seq<Service>, id: ServiceId, orgId: OrgId): (r: Option<nat>)
    ensures r.Some? ==> r.value < |services| && services[r.value].id == id
                        && services[r.value].organizationId == orgId
    ensures r.None? <==> forall k :: 0 <= k < |services| ==> !(services[k].id == id && services[k].organizationId == orgId)
  {
    if services == [] then None
    else if services[0].id == id && services[0].organizationId == orgId then Some(0)
    else match FindOwned(services[1..], id, orgId)
      case None => None
      case Some(k) => Some(k + 1)
  }

  /** `_count.bookings`: every booking of the service, whatever its status. */
  function BookingCount(bookings: seq<Booking>, id: ServiceId): (n: nat)
    ensures n <= |bookings|
    ensures n == 0 <==> forall k :: 0 <= k < |bookings| ==> bookings[k].serviceId != id
  {
    if bookings == [] then 0
    else (if bookings[0].serviceId == id then 1 else 0) + BookingCount(bookings[1..], id)
  }

  const LinkedHead := "Este serviço possui "
  const LinkedTail := ". Desative-o em vez de excluí-lo."

  /** `agendamento${n !== 1 ? "s" : ""} vinculado${n !== 1 ? "s" : ""}`. */
  function LinkedNoun(n: nat): string
  {
    var s := if n != 1 then "s" else "";
    "agendamento" + s + " vinculado" + s
  }

  /** The refusal for a service that still has bookings. */
  function LinkedBookingsError(n: nat): string
  {
    LinkedHead + NatToString(n) + " " + LinkedNoun(n) + LinkedTail
  }

  /** The count is written out, and the noun is singular exactly when it is 1. */
  lemma LinkedBookingsWording(n: nat)
    ensures n == 1 ==> LinkedBookingsError(n) == LinkedHead + "1 agendamento vinculado" + LinkedTail
    ensures n != 1 ==> LinkedNoun(n) == "agendamentos vinculados"
  {
    if n == 1 {
      assert NatToString(1) == "1";
    }
  }

  function RemoveAt(services: seq<Service>, i: nat): (r: seq<Service>)
    requires i < |services|
    ensures |r| == |services| - 1
    ensures forall k :: 0 <= k < i ==> r[k] == services[k]
    ensures forall k :: i <= k < |r| ==> r[k] == services[k + 1]
  {
    services[..i] + services[i + 1..]
  }

  predicate UniqueIds(services: seq<Service>)
  {
    forall a, b :: 0 <= a < b < |services| ==> services[a].id != services[b].id
  }

  /** The services of one organization, in table order. */
  function OrgServices(services: seq<Service>, orgId: OrgId): (r: seq<Service>)
    ensures forall x :: x in r <==> x in services && x.organizationId == orgId
  {
    if services == [] then []
    else
      assert forall x :: x in services <==> x == services[0] || x in services[1..];
      (if services[0].organizationId == orgId then [services[0]] else []) + OrgServices(services[1..], orgId)
  }

  lemma {:induction false} OrgServicesConcat(a: seq<Service>, b: seq<Service>, orgId: OrgId)
    ensures OrgServices(a + b, orgId) == OrgServices(a, orgId) + OrgServices(b, orgId)
    decreases |a|
  {
    if a == [] {
      assert a + b == b;
    } else {
      assert (a + b)[0] == a[0] && (a + b)[1..] == a[1..] + b;
      OrgServicesConcat(a[1..], b, orgId);
    }
  }

  lemma OrgServicesSingle(x: Service, orgId: OrgId)
    ensures OrgServices([x], orgId) == if x.organizationId == orgId then [x] else []
  {
    assert [x][1..] == [];
  }

  /** Changing, adding or removing a row of organization `a` leaves every
      other organization's services as they were. */
  lemma ReplaceIsolated(services: seq<Service>, i: nat, x: Service, b: OrgId)
    requires i < |services| && services[i].organizationId == x.organizationId != b
    ensures OrgServices(services[i := x], b) == OrgServices(services, b)
  {
    var pre, post := services[..i], services[i + 1..];
    assert services == pre + ([services[i]] + post);
    assert services[i := x] == pre + ([x] + post);
    OrgServicesConcat(pre, [services[i]] + post, b);
    OrgServicesConcat([services[i]], post, b);
    OrgServicesConcat(pre, [x] + post, b);
    OrgServicesConcat([x], post, b);
    OrgServicesSingle(services[i], b);
    OrgServicesSingle(x, b);
  }

  lemma RemoveIsolated(services: seq<Service>, i: nat, b: OrgId)
    requires i < |services| && services[i].organizationId != b
    ensures OrgServices(RemoveAt(services, i), b) == OrgServices(services, b)
  {
    var pre, post := services[..i], services[i + 1..];
    assert services == pre + ([services[i]] + post);
    OrgServicesConcat(pre, [services[i]] + post, b);
    OrgServicesConcat([services[i]], post, b);
    OrgServicesSingle(services[i], b);
    OrgServicesConcat(pre, post, b);
  }

  lemma AppendIsolated(services: seq<Service>, x: Service, b: OrgId)
    requires x.organizationId != b
    ensures OrgServices(services + [x], b) == OrgServices(services, b)
  {
    OrgServicesConcat(services, [x], b);
    OrgServicesSingle(x, b);
  }

  lemma ReplaceKeepsUniqueIds(services: seq<Service>, i: nat, x: Service)
    requires UniqueIds(services) && i < |services| && x.id == services[i].id
    ensures UniqueIds(services[i := x])
  {
  }

  lemma RemoveKeepsUniqueIds(services: seq<Service>, i: nat)
    requires UniqueIds(services) && i < |services|
    ensures UniqueIds(RemoveAt(services, i))
  {
    var r := RemoveAt(services, i);
    forall a, b | 0 <= a < b < |r| ensures r[a].id != r[b].id {
      var a' := if a < i then a else a + 1;
      var b' := if b < i then b else b + 1;
      assert r[a] == services[a'] && r[b] == services[b'];
    }
  }

  datatype ServiceResult =
    | Done(message: string, data: Option<Service>)
    | Refused(error: string)

  /** The `service` table. The caller's organization is a parameter (the
      session lookup is not part of this module); fresh ids are parameters. */
  class ServiceCatalog {
    var services: seq<Service>

    constructor (initial: seq<Service>)
      requires UniqueIds(initial)
      ensures services == initial
    {
      services := initial;
    }

    method CreateService(orgId: OrgId, input: ServiceValues, newId: ServiceId) returns (r: ServiceResult)
      requires UniqueIds(services) && forall k :: 0 <= k < |services| ==> services[k].id != newId
      modifies this
      ensures UniqueIds(services)
      ensures SchemaError(input).Some? ==> r == Refused(SchemaError(input).value) && services == old(services)
      ensures SchemaError(input).None? ==>
                r == Done(Created, Some(NewService(newId, orgId, input)))
                && services == old(services) + [NewService(newId, orgId, input)]
      ensures forall b :: b != orgId ==> OrgServices(services, b) == OrgServices(old(services), b)
    {
      var err := SchemaError(input);
      if err.Some? {
        return Refused(err.value);
      }
      var s := NewService(newId, orgId, input);
      forall b | b != orgId ensures OrgServices(services + [s], b) == OrgServices(services, b) {
        AppendIsolated(services, s, b);
      }
      services := services + [s];
      r := Done(Created, Some(s));
    }

    method UpdateService(orgId: OrgId, serviceId: ServiceId, input: ServiceValues) returns (r: ServiceResult)
      requires UniqueIds(services)
      modifies this
      ensures UniqueIds(services)
      ensures SchemaError(input).Some? ==> r == Refused(SchemaError(input).value) && services == old(services)
      ensures SchemaError(input).None? && FindOwned(old(services), serviceId, orgId).None? ==>
                r == Refused(NotFound) && services == old(services)
      ensures SchemaError(input).None? && FindOwned(old(services), serviceId, orgId).Some? ==>
                var i := FindOwned(old(services), serviceId, orgId).value;
                services == old(services)[i := Edited(old(services)[i], input)]
                && r == Done(Updated, Some(services[i]))
      ensures forall b :: b != orgId ==> OrgServices(services, b) == OrgServices(old(services), b)
    {
      var err := SchemaError(input);
      if err.Some? {
        return Refused(err.value);
      }
      var found := FindOwned(services, serviceId, orgId);
      if found.None? {
        return Refused(NotFound);
      }
      var i := found.value;
      var s := Edited(services[i], input);
      ReplaceKeepsUniqueIds(services, i, s);
      forall b | b != orgId ensures OrgServices(services[i := s], b) == OrgServices(services, b) {
        ReplaceIsolated(services, i, s, b);
      }
      services := services[i := s];
      r := Done(Updated, Some(s));
    }

    method DeleteService(orgId: OrgId, serviceId: ServiceId, bookings: seq<Booking>) returns (r: ServiceResult)
      requires UniqueIds(services)
      modifies this
      ensures UniqueIds(services)
      ensures FindOwned(old(services), serviceId, orgId).None? ==> r == Refused(NotFound) && services == old(services)
      ensures FindOwned(old(services), serviceId, orgId).Some? && BookingCount(bookings, serviceId) > 0 ==>
                r == Refused(LinkedBookingsError(BookingCount(bookings, serviceId))) && services == old(services)
      ensures FindOwned(old(services), serviceId, orgId).Some? && BookingCount(bookings, serviceId) == 0 ==>
                r == Done(Deleted, None)
                && services == RemoveAt(old(services), FindOwned(old(services), serviceId, orgId).value)
      ensures forall b :: b != orgId ==> OrgServices(services, b) == OrgServices(old(services), b)
    {
      var found := FindOwned(services, serviceId, orgId);
      if found.None? {
        return Refused(NotFound);
      }
      var count := BookingCount(bookings, serviceId);
      if count > 0 {
        return Refused(LinkedBookingsError(count));
      }
      var i := found.value;
      RemoveKeepsUniqueIds(services, i);
      forall b | b != orgId ensures OrgServices(RemoveAt(services, i), b) == OrgServices(services, b) {
        RemoveIsolated(services, i, b);
      }
      services := RemoveAt(services, i);
      r := Done(Deleted, None);
    }

    method ToggleServiceStatus(orgId: OrgId, serviceId: ServiceId, active: bool) returns (r: ServiceResult)
      requires UniqueIds(services)
      modifies this
      ensures UniqueIds(services)
      ensures FindOwned(old(services), serviceId, orgId).None? ==> r == Refused(NotFound) && services == old(services)
      ensures FindOwned(old(services), serviceId, orgId).Some? ==>
                var i := FindOwned(old(services), serviceId, orgId).value;
                services == old(services)[i := old(services)[i].(active := active)]
                && r == Done(if active then Activated else Deactivated, None)
      ensures forall b :: b != orgId ==> OrgServices(services, b) == OrgServices(old(services), b)
    {
      var found := FindOwned(services, serviceId, orgId);
      if found.None? {
        return Refused(NotFound);
      }
      var i := found.value;
      var s := services[i].(active := active);
      ReplaceKeepsUniqueIds(services, i, s);
      forall b | b != orgId ensures OrgServices(services[i := s], b) == OrgServices(services, b) {
        ReplaceIsolated(services, i, s, b);
      }
      services := services[i := s];
      r := Done(if active then Activated else Deactivated, None);
    }
  }
}
