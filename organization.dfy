/** The organization settings actions: the profile schema and update, and
    the lifecycle ACTIVE -> DELETED -> PENDING_REACTIVATION -> ACTIVE driven
    by deactivation, a reactivation request and the emailed token. */
module Organizations {
  import opened Common
  import opened Domain
  import Validations
  import Slugs

  // ---------------------------------------------------------------------
  // Messages
  // ---------------------------------------------------------------------

  const NameRequired := "Nome é obrigatório"
  const NameTooLong := "Nome muito longo"
  const SlugRequired := "Slug é obrigatório"
  const SlugTooLong := "Slug muito longo"
  const SlugCharset := "Slug deve conter apenas letras minúsculas, números e hífens"
  const SlugEdgeHyphen := "Slug não pode começar ou terminar com hífen"
  const WhatsappInvalid := "Número de WhatsApp inválido"
  const NameAndSlugRequired := "Nome e slug são obrigatórios"
  const SlugTaken := "Este slug já está sendo usado por outra organização"
  const OrganizationUpdated := "Organização atualizada com sucesso!"
  /** The message of the error Next.js `redirect` throws; the action's
      `catch` turns it into an error response. */
  const RedirectError := "NEXT_REDIRECT"
  const ConfirmPhrase := "EXCLUIR PERMANENTEMENTE"
  const WrongConfirmation := "Texto de confirmação incorreto"
  const NotAuthenticated := "Usuário não autenticado"
  const OrgNotFoundOrForbidden := "Organização não encontrada ou você não tem permissão"
  const OrganizationDeactivated := "Organização desativada com sucesso"
  const OwnersOnly := "Apenas proprietários podem reativar a organização"
  const LinkSent := "Link de reativação enviado para seu email"
  const RequestFailed := "Erro ao processar solicitação. Tente novamente."
  const InvalidToken := "Token inválido ou expirado"
  const TokenExpired := "Token expirado. Solicite um novo link de reativação"
  const NotPending := "Esta organização não está pendente de reativação"
  const OrganizationReactivated := "Organização reativada com sucesso!"

  /** A reactivation link lives 24 hours (instants are in minutes). */
  const TokenLifetime := 24 * 60

  // ---------------------------------------------------------------------
  // updateOrganizationSchema
  // ---------------------------------------------------------------------

  function NameIssues(name: string): seq<string>
  {
    (if JsLength(name) < 1 then [NameRequired] else [])
    + (if JsLength(name) > 100 then [NameTooLong] else [])
  }

  predicate HasEdgeHyphen(s: string) { |s| > 0 && (s[0] == '-' || s[|s| - 1] == '-') }

  /** min, max, the pattern `/^[a-z0-9-]+$/`, then the edge refinement;
      zod reports every check that fails. */
  function SlugIssues(slug: string): seq<string>
  {
    (if JsLength(slug) < 1 then [SlugRequired] else [])
    + (if JsLength(slug) > 50 then [SlugTooLong] else [])
    + (if !Validations.SlugChars(slug) then [SlugCharset] else [])
    + (if HasEdgeHyphen(slug) then [SlugEdgeHyphen] else [])
  }

  /** An absent or empty number passes; otherwise its digits must number
      10 to 15. */
  function WhatsappIssues(whatsapp: Option<string>): seq<string>
  {
    if whatsapp.Some? && whatsapp.value != "" && !(10 <= |DigitsOnly(whatsapp.value)| <= 15)
    then [WhatsappInvalid] else []
  }

  /** The profile the schema accepts, stated field by field. */
  predicate ValidProfile(name: string, slug: string, whatsapp: Option<string>)
  {
    1 <= JsLength(name) <= 100
    && 1 <= |slug| <= 50
    && (forall i :: 0 <= i < |slug| ==> Slugs.IsSlugChar(slug[i]))
    && slug[0] != '-' && slug[|slug| - 1] != '-'
    && (whatsapp.None? || whatsapp.value == "" || 10 <= |DigitsOnly(whatsapp.value)| <= 15)
  }

  /** The schema's issues in zod's order: name, slug, WhatsApp number. */
  function ProfileIssues(name: string, slug: string, whatsapp: Option<string>): (issues: seq<string>)
    ensures issues == [] <==> ValidProfile(name, slug, whatsapp)
    ensures JsLength(name) < 1 ==> issues[0] == NameRequired
    ensures JsLength(name) > 100 ==> issues[0] == NameTooLong
    ensures 1 <= JsLength(name) <= 100 && JsLength(slug) > 50 ==> issues[0] == SlugTooLong
  {
    assert Validations.SlugChars(slug) ==> forall i :: 0 <= i < |slug| ==> slug[i] as int <= 0xFFFF;
    NameIssues(name) + SlugIssues(slug) + WhatsappIssues(whatsapp)
  }

  /** A slug `generateSlug` produces passes the slug checks whenever it is
      not empty and at most 50 characters long. */
  lemma GeneratedSlugAccepted(name: string)
    requires 1 <= |Slugs.GenerateSlug(name)| <= 50
    ensures SlugIssues(Slugs.GenerateSlug(name)) == []
  {
    var s := Slugs.GenerateSlug(name);
    assert forall i :: 0 <= i < |s| ==> Slugs.IsSlugChar(s[i]);
    assert forall i :: 0 <= i < |s| ==> s[i] as int <= 0xFFFF;
  }

  // ---------------------------------------------------------------------
  // Records
  // ---------------------------------------------------------------------

  datatype Organization = Organization(
    id: OrgId,
    name: string,
    slug: string,
    whatsappNumber: Option<string>,
    status: OrgStatus,
    deletedAt: Option<int>,
    deletedBy: Option<UserId>,
    reactivationToken: Option<string>,
    reactivationExpires: Option<int>)

  /** `supabaseId` links the row to the signed-in account. */
  datatype User = User(id: UserId, supabaseId: string, email: string, name: string)

  datatype Member = Member(userId: UserId, organizationId: OrgId, role: Role)

  // ---------------------------------------------------------------------
  // Lookups: the first row in table order that matches
  // ---------------------------------------------------------------------

  function FindOrg(orgs: seq<Organization>, id: OrgId): (r: Option<nat>)
    ensures r.Some? ==> r.value < |orgs| && orgs[r.value].id == id
    ensures r.None? <==> forall k :: 0 <= k < |orgs| ==> orgs[k].id != id
  {
    if orgs == [] then None
    else if orgs[0].id == id then Some(0)
    else match FindOrg(orgs[1..], id)
      case None => None
      case Some(k) => Some(k + 1)
  }

  function FindUser(users: seq<User>, supabaseId: string): (r: Option<nat>)
    ensures r.Some? ==> r.value < |users| && users[r.value].supabaseId == supabaseId
    ensures r.None? <==> forall k :: 0 <= k < |users| ==> users[k].supabaseId != supabaseId
  {
    if users == [] then None
    else if users[0].supabaseId == supabaseId then Some(0)
    else match FindUser(users[1..], supabaseId)
      case None => None
      case Some(k) => Some(k + 1)
  }

  /** The membership's organization exists and is ACTIVE. */
  predicate OrgIsActive(orgs: seq<Organization>, id: OrgId)
  {
    match FindOrg(orgs, id)
    case Some(i) => orgs[i].status == ACTIVE
    case None => false
  }

  /** The memberships the session queries keep: the user's, of an ACTIVE
      organization, and with role OWNER when `ownerOnly`. */
  predicate SessionMembership(m: Member, orgs: seq<Organization>, userId: UserId, ownerOnly: bool)
  {
    m.userId == userId && OrgIsActive(orgs, m.organizationId) && (ownerOnly ==> m.role == OWNER)
  }

  function FirstMembership(members: seq<Member>, orgs: seq<Organization>, userId: UserId, ownerOnly: bool): (r: Option<nat>)
    ensures r.Some? ==> r.value < |members| && SessionMembership(members[r.value], orgs, userId, ownerOnly)
    ensures r.None? <==> forall k :: 0 <= k < |members| ==> !SessionMembership(members[k], orgs, userId, ownerOnly)
  {
    if members == [] then None
    else if SessionMembership(members[0], orgs, userId, ownerOnly) then Some(0)
    else match FirstMembership(members[1..], orgs, userId, ownerOnly)
      case None => None
      case Some(k) => Some(k + 1)
  }

  /** The organization of the signed-in account's first membership kept by
      the query; None when there is no account, no user row or no such
      membership. */
  function SessionOrg(orgs: seq<Organization>, users: seq<User>, members: seq<Member>,
                      authUser: Option<string>, ownerOnly: bool): (r: Option<nat>)
    ensures r.Some? ==> r.value < |orgs| && orgs[r.value].status == ACTIVE
    ensures r.Some? ==> authUser.Some? && FindUser(users, authUser.value).Some?
  {
    if authUser.None? then None
    else match FindUser(users, authUser.value)
      case None => None
      case Some(u) =>
        match FirstMembership(members, orgs, users[u].id, ownerOnly)
        case None => None
        case Some(m) => FindOrg(orgs, members[m].organizationId)
  }

  function UserEmail(users: seq<User>, id: UserId): (r: Option<string>)
    ensures r.Some? ==> exists k :: 0 <= k < |users| && users[k].id == id && users[k].email == r.value
    ensures r.None? <==> forall k :: 0 <= k < |users| ==> users[k].id != id
  {
    if users == [] then None
    else if users[0].id == id then Some(users[0].email)
    else
      var r := UserEmail(users[1..], id);
      assert r.Some? ==> exists k :: 0 <= k < |users| && users[k].id == id && users[k].email == r.value by {
        if r.Some? {
          var k :| 0 <= k < |users[1..]| && users[1..][k].id == id && users[1..][k].email == r.value;
          assert users[k + 1] == users[1..][k];
        }
      }
      r
  }

  /** Some member of the organization (an OWNER when `ownerOnly`) is a user
      with that email. */
  predicate HasMemberWithEmail(members: seq<Member>, users: seq<User>, orgId: OrgId, email: string, ownerOnly: bool)
  {
    exists k :: 0 <= k < |members| && members[k].organizationId == orgId
      && (ownerOnly ==> members[k].role == OWNER) && UserEmail(users, members[k].userId) == Some(email)
  }

  /** Deleted, or already waiting for reactivation. */
  predicate Reactivatable(o: Organization, members: seq<Member>, users: seq<User>, email: string)
  {
    (o.status == DELETED || o.status == PENDING_REACTIVATION) && HasMemberWithEmail(members, users, o.id, email, false)
  }

  function FindReactivatable(orgs: seq<Organization>, members: seq<Member>, users: seq<User>, email: string): (r: Option<nat>)
    ensures r.Some? ==> r.value < |orgs| && Reactivatable(orgs[r.value], members, users, email)
    ensures r.None? <==> forall k :: 0 <= k < |orgs| ==> !Reactivatable(orgs[k], members, users, email)
  {
    if orgs == [] then None
    else if Reactivatable(orgs[0], members, users, email) then Some(0)
    else match FindReactivatable(orgs[1..], members, users, email)
      case None => None
      case Some(k) => Some(k + 1)
  }

  function FindByToken(orgs: seq<Organization>, token: string): (r: Option<nat>)
    ensures r.Some? ==> r.value < |orgs| && orgs[r.value].reactivationToken == Some(token)
    ensures r.None? <==> forall k :: 0 <= k < |orgs| ==> orgs[k].reactivationToken != Some(token)
  {
    if orgs == [] then None
    else if orgs[0].reactivationToken == Some(token) then Some(0)
    else match FindByToken(orgs[1..], token)
      case None => None
      case Some(k) => Some(k + 1)
  }

  /** Another organization than the one at `i` already uses the slug. */
  predicate SlugUsedByOther(orgs: seq<Organization>, slug: string, i: nat)
    requires i < |orgs|
  {
    exists k :: 0 <= k < |orgs| && orgs[k].slug == slug && orgs[k].id != orgs[i].id
  }

  /** Another organization than the one at `i` holds the token. */
  predicate TokenHeldByOther(orgs: seq<Organization>, token: string, i: nat)
    requires i < |orgs|
  {
    exists k :: 0 <= k < |orgs| && k != i && orgs[k].reactivationToken == Some(token)
  }

  // ---------------------------------------------------------------------
  // What each action writes
  // ---------------------------------------------------------------------

  function WithProfile(o: Organization, name: string, slug: string, whatsapp: Option<string>): Organization
  {
    o.(name := name, slug := slug, whatsappNumber := whatsapp)
  }

  function Deactivated(o: Organization, now: int, userId: UserId): Organization
  {
    o.(status := DELETED, deletedAt := Some(now), deletedBy := Some(userId))
  }

  function PendingReactivation(o: Organization, token: string, expires: int): Organization
  {
    o.(status := PENDING_REACTIVATION, reactivationToken := Some(token), reactivationExpires := Some(expires))
  }

  function Reactivated(o: Organization): Organization
  {
    o.(status := ACTIVE, deletedAt := None, deletedBy := None, reactivationToken := None, reactivationExpires := None)
  }

  /** An active organization with nothing pending. */
  predicate Settled(o: Organization)
  {
    o.status == ACTIVE && o.deletedAt.None? && o.deletedBy.None?
    && o.reactivationToken.None? && o.reactivationExpires.None?
  }

  /** Deactivating, requesting reactivation and reactivating gives back the
      organization as it was: name, slug and number survive a deactivation. */
  lemma LifecycleRoundTrip(o: Organization, now: int, userId: UserId, token: string, expires: int)
    requires Settled(o)
    ensures Reactivated(PendingReactivation(Deactivated(o, now, userId), token, expires)) == o
  {
  }

  /** Why a looked-up organization cannot be reactivated now, checked in the
      action's order: no such token, a missing or past expiry, a status
      other than PENDING_REACTIVATION. */
  function ReactivationError(o: Option<Organization>, now: int): (r: Option<string>)
    ensures r.None? <==> o.Some? && o.value.reactivationExpires.Some?
                         && now <= o.value.reactivationExpires.value && o.value.status == PENDING_REACTIVATION
    ensures o.None? ==> r == Some(InvalidToken)
    ensures o.Some? && (o.value.reactivationExpires.None? || o.value.reactivationExpires.value < now)
            ==> r == Some(TokenExpired)
  {
    if o.None? then Some(InvalidToken)
    else if o.value.reactivationExpires.None? || o.value.reactivationExpires.value < now then Some(TokenExpired)
    else if o.value.status != PENDING_REACTIVATION then Some(NotPending)
    else None
  }

  /** A token issued at `issued` opens the organization until exactly 24
      hours later and not after. */
  lemma TokenLifetimeBound(o: Organization, token: string, issued: int, now: int)
    ensures ReactivationError(Some(PendingReactivation(o, token, issued + TokenLifetime)), now).None?
            <==> now <= issued + TokenLifetime
  {
  }

  // ---------------------------------------------------------------------
  // Unique columns
  // ---------------------------------------------------------------------

  /** `id`, `slug` and `reactivationToken` are unique columns. */
  predicate UniqueKeys(orgs: seq<Organization>)
  {
    forall a, b :: 0 <= a < |orgs| && 0 <= b < |orgs| && a != b ==>
      orgs[a].id != orgs[b].id && orgs[a].slug != orgs[b].slug
      && (orgs[a].reactivationToken.None? || orgs[a].reactivationToken != orgs[b].reactivationToken)
  }

  /** Rewriting one row keeps the unique columns unique when its id stays,
      its slug is its own or unused, and its token is its own, none, or
      unused. */
  lemma ReplaceKeepsUniqueKeys(orgs: seq<Organization>, i: nat, o: Organization)
    requires UniqueKeys(orgs) && i < |orgs| && o.id == orgs[i].id
    requires o.slug == orgs[i].slug || !SlugUsedByOther(orgs, o.slug, i)
    requires o.reactivationToken == orgs[i].reactivationToken || o.reactivationToken.None?
             || !TokenHeldByOther(orgs, o.reactivationToken.value, i)
    ensures UniqueKeys(orgs[i := o])
  {
    var r := orgs[i := o];
    forall a, b | 0 <= a < |r| && 0 <= b < |r| && a != b
      ensures r[a].id != r[b].id && r[a].slug != r[b].slug
              && (r[a].reactivationToken.None? || r[a].reactivationToken != r[b].reactivationToken)
    {
      if a == i {
        assert r[b] == orgs[b];
      } else if b == i {
        assert r[a] == orgs[a];
      }
    }
  }

  /** Keeping its own slug never counts as a clash. */
  lemma OwnSlugIsFree(orgs: seq<Organization>, i: nat)
    requires UniqueKeys(orgs) && i < |orgs|
    ensures !SlugUsedByOther(orgs, orgs[i].slug, i)
  {
    forall k | 0 <= k < |orgs| && orgs[k].slug == orgs[i].slug ensures orgs[k].id == orgs[i].id {
      if k != i {
        assert false;
      }
    }
  }

  // ---------------------------------------------------------------------
  // The actions
  // ---------------------------------------------------------------------

  /** `formData.get(key)` is present and not empty. */
  predicate Filled(form: Form, key: string) { key in form && form[key] != "" }

  /** `whatsappNumber ? String(whatsappNumber) : undefined`, and then
      `|| null` when stored. */
  function SubmittedWhatsapp(form: Form): (r: Option<string>)
    ensures r.None? <==> !Filled(form, "whatsappNumber")
    ensures r.Some? ==> r.value == form["whatsappNumber"]
  {
    if Filled(form, "whatsappNumber") then Some(form["whatsappNumber"]) else None
  }

  /** The organization, user and membership tables. */
  class OrganizationStore {
    var orgs: seq<Organization>
    var users: seq<User>
    var members: seq<Member>

    constructor (orgs0: seq<Organization>, users0: seq<User>, members0: seq<Member>)
      requires UniqueKeys(orgs0)
      ensures orgs == orgs0 && users == users0 && members == members0
      ensures UniqueKeys(orgs)
    {
      orgs := orgs0;
      users := users0;
      members := members0;
    }

    /** `updateOrganization`: the session's organization gets the submitted
        name, slug and number (an empty number is stored as none). */
    method UpdateOrganization(authUser: Option<string>, form: Form) returns (r: Response)
      requires UniqueKeys(orgs)
      modifies this
      ensures UniqueKeys(orgs) && users == old(users) && members == old(members)
      ensures
        var i := SessionOrg(old(orgs), users, members, authUser, false);
        var whatsapp := SubmittedWhatsapp(form);
        if i.None? then r == Failure(RedirectError) && orgs == old(orgs)
        else if !Filled(form, "name") || !Filled(form, "slug") then
          r == Failure(NameAndSlugRequired) && orgs == old(orgs)
        else if ProfileIssues(form["name"], form["slug"], whatsapp) != [] then
          r == Failure(ProfileIssues(form["name"], form["slug"], whatsapp)[0]) && orgs == old(orgs)
        else if SlugUsedByOther(old(orgs), form["slug"], i.value) then
          r == Failure(SlugTaken) && orgs == old(orgs)
        else
          r == Success(OrganizationUpdated)
          && orgs == old(orgs)[i.value := WithProfile(old(orgs)[i.value], form["name"], form["slug"], whatsapp)]
    {
      var i := SessionOrg(orgs, users, members, authUser, false);
      if i.None? {
        return Failure(RedirectError);
      }
      if !Filled(form, "name") || !Filled(form, "slug") {
        return Failure(NameAndSlugRequired);
      }
      var name, slug := form["name"], form["slug"];
      var whatsapp := SubmittedWhatsapp(form);
      var issues := ProfileIssues(name, slug, whatsapp);
      if issues != [] {
        return Failure(issues[0]);
      }
      if SlugUsedByOther(orgs, slug, i.value) {
        return Failure(SlugTaken);
      }
      var o := WithProfile(orgs[i.value], name, slug, whatsapp);
      ReplaceKeepsUniqueKeys(orgs, i.value, o);
      orgs := orgs[i.value := o];
      r := Success(OrganizationUpdated);
    }

    /** `deactivateOrganization`: the confirmation phrase, then an OWNER
        membership of an ACTIVE organization; the organization becomes
        DELETED, stamped with the time and the user. */
    method DeactivateOrganization(confirmationText: string, authUser: Option<string>, now: int)
      returns (r: Response)
      requires UniqueKeys(orgs)
      modifies this
      ensures UniqueKeys(orgs) && users == old(users) && members == old(members)
      ensures
        var i := SessionOrg(old(orgs), users, members, authUser, true);
        if confirmationText != ConfirmPhrase then r == Failure(WrongConfirmation) && orgs == old(orgs)
        else if authUser.None? then r == Failure(NotAuthenticated) && orgs == old(orgs)
        else if i.None? then r == Failure(OrgNotFoundOrForbidden) && orgs == old(orgs)
        else
          var userId := users[FindUser(users, authUser.value).value].id;
          r == Success(OrganizationDeactivated)
          && orgs == old(orgs)[i.value := Deactivated(old(orgs)[i.value], now, userId)]
    {
      if confirmationText != ConfirmPhrase {
        return Failure(WrongConfirmation);
      }
      if authUser.None? {
        return Failure(NotAuthenticated);
      }
      var i := SessionOrg(orgs, users, members, authUser, true);
      if i.None? {
        return Failure(OrgNotFoundOrForbidden);
      }
      var userId := users[FindUser(users, authUser.value).value].id;
      var o := Deactivated(orgs[i.value], now, userId);
      ReplaceKeepsUniqueKeys(orgs, i.value, o);
      orgs := orgs[i.value := o];
      r := Success(OrganizationDeactivated);
    }

    /** `requestReactivation`: the first DELETED or PENDING_REACTIVATION
        organization with a member of that (lowercased) email; the email
        must be an OWNER's. The fresh token is a parameter; if another
        organization already holds it the unique column refuses the write. */
    method RequestReactivation(email: string, token: string, now: int) returns (r: Response)
      requires UniqueKeys(orgs)
      modifies this
      ensures UniqueKeys(orgs) && users == old(users) && members == old(members)
      ensures
        var e := Lower(email);
        var i := FindReactivatable(old(orgs), members, users, e);
        if i.None? then r == Failure(OrgNotFoundOrForbidden) && orgs == old(orgs)
        else if !HasMemberWithEmail(members, users, old(orgs)[i.value].id, e, true) then
          r == Failure(OwnersOnly) && orgs == old(orgs)
        else if TokenHeldByOther(old(orgs), token, i.value) then
          r == Failure(RequestFailed) && orgs == old(orgs)
        else
          r == Success(LinkSent)
          && orgs == old(orgs)[i.value := PendingReactivation(old(orgs)[i.value], token, now + TokenLifetime)]
    {
      var e := Lower(email);
      var i := FindReactivatable(orgs, members, users, e);
      if i.None? {
        return Failure(OrgNotFoundOrForbidden);
      }
      if !HasMemberWithEmail(members, users, orgs[i.value].id, e, true) {
        return Failure(OwnersOnly);
      }
      if TokenHeldByOther(orgs, token, i.value) {
        return Failure(RequestFailed);
      }
      var o := PendingReactivation(orgs[i.value], token, now + TokenLifetime);
      ReplaceKeepsUniqueKeys(orgs, i.value, o);
      orgs := orgs[i.value := o];
      r := Success(LinkSent);
    }

    /** `reactivateOrganization`: the organization holding the token, if
        its expiry has not passed and it is PENDING_REACTIVATION, becomes
        ACTIVE with the deletion and token fields cleared; its slug is
        returned. */
    method ReactivateOrganization(token: string, now: int) returns (r: Response, slug: Option<string>)
      requires UniqueKeys(orgs)
      modifies this
      ensures UniqueKeys(orgs) && users == old(users) && members == old(members)
      ensures
        var i := FindByToken(old(orgs), token);
        var err := ReactivationError(if i.Some? then Some(old(orgs)[i.value]) else None, now);
        if err.Some? then r == Failure(err.value) && slug.None? && orgs == old(orgs)
        else
          r == Success(OrganizationReactivated) && slug == Some(old(orgs)[i.value].slug)
          && orgs == old(orgs)[i.value := Reactivated(old(orgs)[i.value])]
    {
      var i := FindByToken(orgs, token);
      var err := ReactivationError(if i.Some? then Some(orgs[i.value]) else None, now);
      if err.Some? {
        return Failure(err.value), None;
      }
      var o := Reactivated(orgs[i.value]);
      ReplaceKeepsUniqueKeys(orgs, i.value, o);
      slug := Some(orgs[i.value].slug);
      orgs := orgs[i.value := o];
      r := Success(OrganizationReactivated);
    }
  }
}
