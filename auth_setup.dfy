/** The account setup route: after sign-up it creates the user row, an
    organization with a slug derived from its name, and the OWNER
    membership, all in one transaction. */
module AuthSetup {
  import opened Common
  import opened Domain
  import opened Slugs
  import opened Organizations

  datatype SetupResponse =
    | Created(userId: UserId, organizationId: OrgId, slug: string)
    | BadRequest(error: string)
    | ServerError(error: string)

  const MissingFields := "Missing required fields"
  const InternalError := "Internal server error"

  function HttpStatus(r: SetupResponse): (code: int)
    ensures r.Created? <==> code == 200
    ensures r.BadRequest? <==> code == 400
    ensures r.ServerError? <==> code == 500
  {
    match r
    case Created(_, _, _) => 200
    case BadRequest(_) => 400
    case ServerError(_) => 500
  }

  // ---------------------------------------------------------------------
  // Number.prototype.toString(36)
  // ---------------------------------------------------------------------

  function Base36Digit(d: nat): (c: char)
    requires d < 36
    ensures IsLowerAlnum(c)
  {
    if d < 10 then ('0' as int + d) as char else ('a' as int + d - 10) as char
  }

  function Base36Value(c: char): (d: nat)
    requires IsLowerAlnum(c)
    ensures d < 36
  {
    if IsDigit(c) then c as int - '0' as int else c as int - 'a' as int + 10
  }

  /** `n.toString(36)` for a natural number: lowercase digits, most
      significant first, no leading zeros. */
  function ToBase36(n: nat): (s: string)
    ensures |s| >= 1 && forall i :: 0 <= i < |s| ==> IsLowerAlnum(s[i])
    decreases n
  {
    if n < 36 then [Base36Digit(n)] else ToBase36(n / 36) + [Base36Digit(n % 36)]
  }

  function ParseBase36(s: string): nat
    requires forall i :: 0 <= i < |s| ==> IsLowerAlnum(s[i])
  {
    if s == [] then 0 else ParseBase36(s[..|s| - 1]) * 36 + Base36Value(s[|s| - 1])
  }

  /** The suffix reads back as the timestamp it was made from. */
  lemma {:induction false} Base36RoundTrip(n: nat)
    ensures ParseBase36(ToBase36(n)) == n
    decreases n
  {
    if n >= 36 {
      var s := ToBase36(n);
      assert s[..|s| - 1] == ToBase36(n / 36);
      Base36RoundTrip(n / 36);
    }
  }

  // ---------------------------------------------------------------------
  // The slug
  // ---------------------------------------------------------------------

  predicate SlugInUse(orgs: seq<Organization>, slug: string)
  {
    exists k :: 0 <= k < |orgs| && orgs[k].slug == slug
  }

  /** A taken slug gets `-` and `Date.now().toString(36)` appended. */
  function FinalSlug(slug: string, taken: bool, now: nat): string
  {
    if taken then slug + "-" + ToBase36(now) else slug
  }

  /** The suffixed slug is the derived one, a hyphen, and a suffix that
      reads back as the timestamp. */
  lemma FinalSlugSuffix(slug: string, now: nat)
    ensures FinalSlug(slug, true, now)[..|slug| + 1] == slug + "-"
    ensures var t := FinalSlug(slug, true, now)[|slug| + 1..];
            (forall i :: 0 <= i < |t| ==> IsLowerAlnum(t[i])) && ParseBase36(t) == now
  {
    var f := FinalSlug(slug, true, now);
    assert f[|slug| + 1..] == ToBase36(now);
    Base36RoundTrip(now);
  }

  /** When the derived slug is not empty the final slug, suffixed or not,
      has the shape `generateSlug` produces. */
  lemma FinalSlugClean(orgName: string, taken: bool, now: nat)
    requires GenerateSlug(orgName) != []
    ensures CleanSlug(FinalSlug(GenerateSlug(orgName), taken, now))
  {
    var slug := GenerateSlug(orgName);
    if taken {
      var t := ToBase36(now);
      assert SlugText(t);
      JoinSlugText(slug, "-");
      JoinSlugText(slug + "-", t);
      var f := slug + "-" + t;
      assert f[0] == slug[0] && f[|f| - 1] == t[|t| - 1];
    }
  }

  /** Two slug texts joined without a hyphen meeting a hyphen. */
  lemma JoinSlugText(x: string, y: string)
    requires SlugText(x) && SlugText(y)
    requires x != [] && y != [] ==> !(x[|x| - 1] == '-' && y[0] == '-')
    ensures SlugText(x + y)
  {
    var r := x + y;
    forall i | 0 <= i < |r| - 1 ensures !(r[i] == '-' && r[i + 1] == '-') {
      if i + 1 < |x| {
        assert r[i] == x[i] && r[i + 1] == x[i + 1];
      } else if i + 1 == |x| {
        assert r[i] == x[|x| - 1] && r[i + 1] == y[0];
      } else {
        assert r[i] == y[i - |x|] && r[i + 1] == y[i + 1 - |x|];
      }
    }
  }

  /** The organization the transaction creates; its status is the table's
      default, ACTIVE. */
  function NewOrganization(id: OrgId, name: string, slug: string): Organization
  {
    Organization(id, name, slug, None, ACTIVE, None, None, None, None)
  }

  lemma AppendKeepsUniqueKeys(orgs: seq<Organization>, o: Organization)
    requires UniqueKeys(orgs) && FindOrg(orgs, o.id).None? && !SlugInUse(orgs, o.slug)
    requires o.reactivationToken.None?
    ensures UniqueKeys(orgs + [o])
  {
    var r := orgs + [o];
    forall a, b | 0 <= a < |r| && 0 <= b < |r| && a != b
      ensures r[a].id != r[b].id && r[a].slug != r[b].slug
              && (r[a].reactivationToken.None? || r[a].reactivationToken != r[b].reactivationToken)
    {
      if a == |orgs| {
        assert r[b] == orgs[b];
      } else if b == |orgs| {
        assert r[a] == orgs[a];
      } else {
        assert r[a] == orgs[a] && r[b] == orgs[b];
      }
    }
  }

  /** `POST /api/auth/setup`. The row ids are parameters the database
      generates fresh; a duplicate supabase account or a final slug that is
      still taken makes the transaction throw, and nothing is created. */
  method Setup(store: OrganizationStore, body: Form, now: nat, userId: UserId, orgId: OrgId)
    returns (resp: SetupResponse)
    requires UniqueKeys(store.orgs)
    requires FindOrg(store.orgs, orgId).None?
    modifies store
    ensures UniqueKeys(store.orgs)
    ensures
      if !(Filled(body, "supabaseId") && Filled(body, "email") && Filled(body, "name") && Filled(body, "orgName")) then
        resp == BadRequest(MissingFields)
        && store.orgs == old(store.orgs) && store.users == old(store.users) && store.members == old(store.members)
      else
        var slug := GenerateSlug(body["orgName"]);
        var final := FinalSlug(slug, SlugInUse(old(store.orgs), slug), now);
        if SlugInUse(old(store.orgs), final) || FindUser(old(store.users), body["supabaseId"]).Some? then
          resp == ServerError(InternalError)
          && store.orgs == old(store.orgs) && store.users == old(store.users) && store.members == old(store.members)
        else
          resp == Created(userId, orgId, final)
          && store.users == old(store.users) + [User(userId, body["supabaseId"], body["email"], body["name"])]
          && store.orgs == old(store.orgs) + [NewOrganization(orgId, body["orgName"], final)]
          && store.members == old(store.members) + [Member(userId, orgId, OWNER)]
  {
    if !(Filled(body, "supabaseId") && Filled(body, "email") && Filled(body, "name") && Filled(body, "orgName")) {
      return BadRequest(MissingFields);
    }
    var slug := GenerateSlug(body["orgName"]);
    var final := FinalSlug(slug, SlugInUse(store.orgs, slug), now);
    if SlugInUse(store.orgs, final) || FindUser(store.users, body["supabaseId"]).Some? {
      return ServerError(InternalError);
    }
    var o := NewOrganization(orgId, body["orgName"], final);
    AppendKeepsUniqueKeys(store.orgs, o);
    store.users := store.users + [User(userId, body["supabaseId"], body["email"], body["name"])];
    store.orgs := store.orgs + [o];
    store.members := store.members + [Member(userId, orgId, OWNER)];
    resp := Created(userId, orgId, final);
  }
}
