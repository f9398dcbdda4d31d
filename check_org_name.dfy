/** `POST /api/auth/check-org-name`: whether a name is free for a new
    organization, and if not, why. */
module CheckOrgName {
  import opened Common
  import opened Domain
  import opened Organizations

  datatype NameCheck =
    | MissingName
    | Available
    | Taken(code: string, message: string)

  const MissingNameError := "Organization name is required"
  const ExistsCode := "ORGANIZATION_EXISTS"
  const ExistsMessage := "Já existe uma organização ativa com este nome. Escolha outro nome."
  const PendingCode := "ORGANIZATION_PENDING_REACTIVATION"
  const PendingMessage := "Já existe uma organização com este nome aguardando reativação. Verifique seu email ou solicite um novo link."
  const DeletedCode := "ORGANIZATION_DELETED"
  const DeletedMessage := "Já existe uma organização com este nome que foi desativada. Entre em contato para reativá-la."

  function HttpStatus(r: NameCheck): (code: int)
    ensures r.MissingName? <==> code == 400
    ensures r.Available? <==> code == 200
    ensures r.Taken? <==> code == 409
  {
    match r
    case MissingName => 400
    case Available => 200
    case Taken(_, _) => 409
  }

  /** `findFirst({ where: { name } })`: the first organization with exactly
      that name. */
  function FindByName(orgs: seq<Organization>, name: string): (r: Option<nat>)
    ensures r.Some? ==> r.value < |orgs| && orgs[r.value].name == name
                        && forall k :: 0 <= k < r.value ==> orgs[k].name != name
    ensures r.None? <==> forall k :: 0 <= k < |orgs| ==> orgs[k].name != name
  {
    if orgs == [] then None
    else if orgs[0].name == name then Some(0)
    else match FindByName(orgs[1..], name)
      case None => None
      case Some(k) => Some(k + 1)
  }

  /** The answer for the organization found, if any. */
  function Verdict(o: Option<Organization>): NameCheck
  {
    if o.None? then Available
    else match o.value.status
      case ACTIVE => Taken(ExistsCode, ExistsMessage)
      case PENDING_REACTIVATION => Taken(PendingCode, PendingMessage)
      case DELETED => Taken(DeletedCode, DeletedMessage)
      case OtherStatus(_) => Available
  }

  function Check(body: Form, orgs: seq<Organization>): (r: NameCheck)
    ensures r == MissingName <==> !Filled(body, "orgName")
    ensures r == Available <==>
              (Filled(body, "orgName") &&
               (FindByName(orgs, body["orgName"]).None? || orgs[FindByName(orgs, body["orgName"]).value].status.OtherStatus?))
    ensures r.Taken? ==> r.code in {ExistsCode, PendingCode, DeletedCode}
  {
    if !Filled(body, "orgName") then MissingName
    else
      var i := FindByName(orgs, body["orgName"]);
      Verdict(if i.Some? then Some(orgs[i.value]) else None)
  }

  /** Each of the three named statuses of the first match has its own code. */
  lemma CodeNamesStatus(body: Form, orgs: seq<Organization>)
    requires Filled(body, "orgName") && FindByName(orgs, body["orgName"]).Some?
    ensures var s := orgs[FindByName(orgs, body["orgName"]).value].status;
            (Check(body, orgs) == Taken(ExistsCode, ExistsMessage) <==> s == ACTIVE)
            && (Check(body, orgs) == Taken(PendingCode, PendingMessage) <==> s == PENDING_REACTIVATION)
            && (Check(body, orgs) == Taken(DeletedCode, DeletedMessage) <==> s == DELETED)
  {
  }

  /** Once deactivated, an organization's name is reported as belonging to
      a deactivated organization (when it is the first with that name). */
  lemma DeactivatedNameReported(body: Form, orgs: seq<Organization>, i: nat, now: int, userId: UserId)
    requires Filled(body, "orgName") && i < |orgs| && body["orgName"] == orgs[i].name
    requires FindByName(orgs, orgs[i].name) == Some(i)
    ensures Check(body, orgs[i := Deactivated(orgs[i], now, userId)]) == Taken(DeletedCode, DeletedMessage)
  {
    var after := orgs[i := Deactivated(orgs[i], now, userId)];
    forall k | 0 <= k < |orgs| ensures after[k].name == orgs[k].name {
    }
    NameLookupAgrees(orgs, after, body["orgName"]);
    assert after[i].status == DELETED;
  }

  /** Two tables with the same names in the same order find the same row. */
  lemma {:induction false} NameLookupAgrees(a: seq<Organization>, b: seq<Organization>, name: string)
    requires |a| == |b| && forall k :: 0 <= k < |a| ==> a[k].name == b[k].name
    ensures FindByName(a, name) == FindByName(b, name)
    decreases |a|
  {
    if a != [] {
      NameLookupAgrees(a[1..], b[1..], name);
    }
  }
}
