/** The role decision (web/api/app/authz.py): what a principal may do on a tenant or a workspace of it,
    and how much of a workspace it sees. */
module Authz {
  import opened Common

  const DEFAULT_TENANT := "default"
  const TOKEN_ROLES := {"viewer", "operator"}
  const TOKEN_ACTIONS := {"read", "operate"}
  const UNRESTRICTABLE_ROLES := {"operator", "admin"}
  const ROLES := {"viewer", "reviewer", "operator", "admin"}

  /** The actions a role allows; none for a role there is not. */
  function RoleActions(role: string): set<string> {
    if role == "viewer" then {"read"}
    else if role == "reviewer" then {"read", "review"}
    else if role == "operator" then {"read", "operate"}
    else if role == "admin" then {"read", "review", "operate", "admin"}
    else {}
  }

  datatype Kind = User | Token | Static | Local

  datatype Compat = ReadCompat | WriteCompat

  datatype Principal = Principal(kind: Kind, owner: bool, compat: Option<Compat>, tenant: Option<string>)

  datatype Binding = Binding(
    tenant: string, role: string, workspace: Option<string>, effect: string,
    source: Option<string>, path: Option<string>, objectId: Option<string>)

  datatype Rule =
    | ObjectRule(allow: bool, objectId: string)
    | SourceRule(allow: bool, source: Option<string>, path: Option<string>)

  /** What is shown of a workspace where no rule says otherwise, and the rules. */
  datatype Scope = Scope(shown: bool, rules: seq<Rule>)

  // ---- one binding ----

  predicate Given(text: Option<string>) {
    text.Some? && text.value != ""
  }

  predicate HasRule(b: Binding) {
    Given(b.source) || Given(b.path) || Given(b.objectId)
  }

  predicate Applies(b: Binding, tenant: string, workspace: Option<string>) {
    && b.tenant == tenant && b.role in ROLES
    && (b.workspace == None || b.workspace == workspace)
  }

  function CompatRoles(p: Principal, tenant: string): set<string> {
    if tenant != DEFAULT_TENANT || p.compat == None then {}
    else if p.compat == Some(WriteCompat) then {"viewer", "operator", "reviewer"}
    else {"viewer"}
  }

  /** The bindings that a principal holds, of those `held` in its name and its groups' names. */
  function Bindings(p: Principal, held: seq<Binding>): seq<Binding> {
    if p.kind == User || p.kind == Token then held else []
  }

  // ---- the reference: who holds which role ----

  /** The binding gives its role outright. */
  predicate GivesPlain(b: Binding, tenant: string, workspace: Option<string>) {
    Applies(b, tenant, workspace) && b.effect != "deny" && !HasRule(b)
  }

  /** The binding allows part of the very workspace (or tenant) asked about. */
  predicate GivesPart(b: Binding, tenant: string, workspace: Option<string>) {
    && Applies(b, tenant, workspace) && HasRule(b) && b.effect == "allow"
    && b.workspace == workspace && b.role == "viewer"
  }

  predicate HoldsPlain(p: Principal, held: seq<Binding>, tenant: string, workspace: Option<string>, role: string) {
    && (role in CompatRoles(p, tenant) ||
        exists b :: b in Bindings(p, held) && GivesPlain(b, tenant, workspace) && b.role == role)
    && (p.kind == Token ==> role in TOKEN_ROLES)
  }

  predicate Holds(p: Principal, held: seq<Binding>, tenant: string, workspace: Option<string>, role: string) {
    if p.kind == Token && p.tenant != Some(tenant) then false
    else if p.kind != Token && p.owner then role in ROLES
    else
      || HoldsPlain(p, held, tenant, workspace, role)
      || (role == "viewer" && exists b :: b in Bindings(p, held) && GivesPart(b, tenant, workspace))
  }

  ghost predicate HoldsAny(p: Principal, held: seq<Binding>, tenant: string, workspace: Option<string>) {
    exists role :: Holds(p, held, tenant, workspace, role)
  }

  ghost predicate HoldsAnyPlain(p: Principal, held: seq<Binding>, tenant: string, workspace: Option<string>) {
    exists role :: HoldsPlain(p, held, tenant, workspace, role)
  }

  /** May `p` do `action` there? */
  ghost predicate May(p: Principal, held: seq<Binding>, action: string, tenant: string, workspace: Option<string>) {
    if p.kind == Token && action !in TOKEN_ACTIONS then false
    else if action == "platform" then p.owner
    else exists role :: Holds(p, held, tenant, workspace, role) && action in RoleActions(role)
  }

  // ---- the rules of a scope ----

  function RuleOf(b: Binding): Rule {
    var allow := b.effect != "deny";
    if Given(b.objectId) then ObjectRule(allow, b.objectId.value)
    else SourceRule(allow, if Given(b.source) then b.source else None, if Given(b.path) then b.path else None)
  }

  /** The binding narrows the workspace itself. */
  predicate Narrows(b: Binding, tenant: string, workspace: string) {
    Applies(b, tenant, Some(workspace)) && HasRule(b) && b.workspace == Some(workspace)
  }

  function Denies(bs: seq<Binding>, tenant: string, workspace: string): seq<Rule> {
    if bs == [] then []
    else
      Denies(bs[..|bs| - 1], tenant, workspace) +
      var b := bs[|bs| - 1];
      if Narrows(b, tenant, workspace) && b.effect == "deny" then [RuleOf(b)] else []
  }

  function Allows(bs: seq<Binding>, tenant: string, workspace: string): seq<Rule> {
    if bs == [] then []
    else
      Allows(bs[..|bs| - 1], tenant, workspace) +
      var b := bs[|bs| - 1];
      if Narrows(b, tenant, workspace) && b.effect != "deny" && b.role == "viewer" then [RuleOf(b)] else []
  }

  /** What the principal sees of a workspace; `None` is all of it. */
  ghost function ScopeOf(p: Principal, held: seq<Binding>, tenant: string, workspace: string): Option<Scope> {
    var bs := Bindings(p, held);
    if p.kind != Token && p.owner then None
    else if exists role :: role in UNRESTRICTABLE_ROLES && HoldsPlain(p, held, tenant, Some(workspace), role) then None
    else if HoldsAnyPlain(p, held, tenant, Some(workspace)) then
      if Denies(bs, tenant, workspace) != [] then Some(Scope(true, Denies(bs, tenant, workspace))) else None
    else Some(Scope(false, Allows(bs, tenant, workspace) + Denies(bs, tenant, workspace)))
  }

  // ---- the decision as it is computed ----

  method PlainRoles(p: Principal, held: seq<Binding>, tenant: string, workspace: Option<string>)
    returns (roles: set<string>)
    ensures forall role :: role in roles <==> HoldsPlain(p, held, tenant, workspace, role)
  {
    var bs := Bindings(p, held);
    roles := CompatRoles(p, tenant);
    var i := 0;
    while i < |bs|
      invariant i <= |bs|
      invariant forall role :: role in roles <==>
                  || role in CompatRoles(p, tenant)
                  || exists j :: 0 <= j < i && GivesPlain(bs[j], tenant, workspace) && bs[j].role == role
    {
      var b := bs[i];
      if Applies(b, tenant, workspace) && b.effect != "deny" && !HasRule(b) {
        roles := roles + {b.role};
      }
      i := i + 1;
    }
    if p.kind == Token {
      roles := roles * TOKEN_ROLES;
    }
    forall role ensures role in roles <==> HoldsPlain(p, held, tenant, workspace, role) {
      if b :| b in bs && GivesPlain(b, tenant, workspace) && b.role == role {
        var j :| 0 <= j < |bs| && bs[j] == b;
      }
    }
  }

  method RolesIn(p: Principal, held: seq<Binding>, tenant: string, workspace: Option<string>)
    returns (roles: set<string>)
    ensures forall role :: role in roles <==> Holds(p, held, tenant, workspace, role)
  {
    if p.kind == Token {
      if p.tenant != Some(tenant) {
        return {};
      }
    } else if p.owner {
      return ROLES;
    }
    roles := PlainRoles(p, held, tenant, workspace);
    var bs := Bindings(p, held);
    var i := 0;
    while i < |bs|
      invariant i <= |bs|
      invariant forall role :: role in roles <==>
                  || HoldsPlain(p, held, tenant, workspace, role)
                  || (role == "viewer" && exists j :: 0 <= j < i && GivesPart(bs[j], tenant, workspace))
    {
      var b := bs[i];
      if
        && Applies(b, tenant, workspace) && HasRule(b) && b.effect == "allow"
        && b.workspace == workspace && b.role == "viewer"
      {
        roles := roles + {"viewer"};
      }
      i := i + 1;
    }
    if b :| b in bs && GivesPart(b, tenant, workspace) {
      var j :| 0 <= j < |bs| && bs[j] == b;
    }
  }

  method Authorize(p: Principal, held: seq<Binding>, action: string, tenant: string, workspace: Option<string>)
    returns (ok: bool)
    ensures ok <==> May(p, held, action, tenant, workspace)
  {
    if p.kind == Token && action !in TOKEN_ACTIONS {
      return false;
    }
    if action == "platform" {
      return p.owner;
    }
    var roles := RolesIn(p, held, tenant, workspace);
    return exists role :: role in roles && action in RoleActions(role);
  }

  method ScopeFor(p: Principal, held: seq<Binding>, tenant: string, workspace: string) returns (scope: Option<Scope>)
    ensures scope == ScopeOf(p, held, tenant, workspace)
  {
    if p.kind != Token && p.owner {
      return None;
    }
    var plain := PlainRoles(p, held, tenant, Some(workspace));
    if plain * UNRESTRICTABLE_ROLES != {} {
      var role :| role in plain * UNRESTRICTABLE_ROLES;
      assert role in UNRESTRICTABLE_ROLES && HoldsPlain(p, held, tenant, Some(workspace), role);
      return None;
    }
    assert forall role :: role in UNRESTRICTABLE_ROLES ==> role !in plain * UNRESTRICTABLE_ROLES;
    var bs := Bindings(p, held);
    var denies := Denies(bs, tenant, workspace);
    var allows := Allows(bs, tenant, workspace);
    if plain != {} {
      var role :| role in plain;
      assert HoldsAnyPlain(p, held, tenant, Some(workspace));
      return if denies != [] then Some(Scope(true, denies)) else None;
    }
    return Some(Scope(false, allows + denies));
  }

  /** Is any role held on the tenant, or does any binding name it? */
  method SeesTenant(p: Principal, held: seq<Binding>, tenant: string) returns (sees: bool)
    ensures sees <==> Sees(p, held, tenant)
  {
    var roles := RolesIn(p, held, tenant, None);
    if roles != {} {
      var role :| role in roles;
      assert HoldsAny(p, held, tenant, None);
      return true;
    }
    var bs := Bindings(p, held);
    return (exists b :: b in bs && b.tenant == tenant && b.effect != "deny")
           && (p.kind != Token || p.tenant == Some(tenant));
  }

  ghost predicate Sees(p: Principal, held: seq<Binding>, tenant: string) {
    || HoldsAny(p, held, tenant, None)
    || ((exists b :: b in Bindings(p, held) && b.tenant == tenant && b.effect != "deny")
        && (p.kind != Token || p.tenant == Some(tenant)))
  }

  // ---- what the decision keeps to ----

  lemma HeldRolesAreRoles(p: Principal, held: seq<Binding>, tenant: string, workspace: Option<string>, role: string)
    requires Holds(p, held, tenant, workspace, role)
    ensures role in ROLES
  {
  }

  /** Whoever holds a role may read, and nobody else: what is hidden from a caller is just what it could
      not read. */
  lemma ReadIffAnyRole(p: Principal, held: seq<Binding>, tenant: string, workspace: Option<string>)
    ensures May(p, held, "read", tenant, workspace) <==> HoldsAny(p, held, tenant, workspace)
  {
    if role :| Holds(p, held, tenant, workspace, role) {
      HeldRolesAreRoles(p, held, tenant, workspace, role);
      assert "read" in RoleActions(role);
    }
  }

  /** A token is held to viewing and operating in its own tenant, whatever its bindings say. */
  lemma TokenIsLimited(
      p: Principal, held: seq<Binding>, tenant: string, workspace: Option<string>, role: string, action: string)
    requires p.kind == Token
    ensures Holds(p, held, tenant, workspace, role) ==> role in TOKEN_ROLES && p.tenant == Some(tenant)
    ensures May(p, held, action, tenant, workspace) ==> action in TOKEN_ACTIONS && p.tenant == Some(tenant)
  {
  }

  /** Who may do what: reviewers and admins review, operators and admins operate, admins administer; any role
      reads; owners do what is for the platform, whatever their roles. */
  lemma WhoMay(p: Principal, held: seq<Binding>, tenant: string, workspace: Option<string>)
    requires p.kind != Token
    ensures May(p, held, "review", tenant, workspace) <==>
              Holds(p, held, tenant, workspace, "reviewer") || Holds(p, held, tenant, workspace, "admin")
    ensures May(p, held, "operate", tenant, workspace) <==>
              Holds(p, held, tenant, workspace, "operator") || Holds(p, held, tenant, workspace, "admin")
    ensures May(p, held, "admin", tenant, workspace) <==> Holds(p, held, tenant, workspace, "admin")
    ensures May(p, held, "platform", tenant, workspace) <==> p.owner
    ensures p.owner ==>
              && May(p, held, "read", tenant, workspace) && May(p, held, "review", tenant, workspace)
              && May(p, held, "operate", tenant, workspace) && May(p, held, "admin", tenant, workspace)
  {
    assert "review" in RoleActions("reviewer") && "review" in RoleActions("admin");
    assert "operate" in RoleActions("operator") && "operate" in RoleActions("admin");
    assert "admin" in RoleActions("admin") && "read" in RoleActions("viewer");
    if p.owner {
      assert Holds(p, held, tenant, workspace, "admin") && Holds(p, held, tenant, workspace, "viewer");
    }
  }

  /** A token may read with any role that a token can hold, and operate as an operator. */
  lemma WhatTokensMay(p: Principal, held: seq<Binding>, tenant: string, workspace: Option<string>)
    requires p.kind == Token
    ensures May(p, held, "operate", tenant, workspace) <==> Holds(p, held, tenant, workspace, "operator")
    ensures May(p, held, "read", tenant, workspace) <==>
              Holds(p, held, tenant, workspace, "operator") || Holds(p, held, tenant, workspace, "viewer")
  {
    assert "operate" in RoleActions("operator") && "read" in RoleActions("operator") && "read" in RoleActions("viewer");
  }

  /** With no binding there is only the compatibility mapping, and that only in the default tenant; neither a
      static token nor a local principal holds bindings. */
  lemma WithoutBindings(p: Principal, held: seq<Binding>, tenant: string, workspace: Option<string>, role: string)
    requires p.kind != Token && !p.owner && (p.kind == User ==> held == [])
    ensures Holds(p, held, tenant, workspace, role) <==>
              && tenant == DEFAULT_TENANT && p.compat.Some?
              && (role == "viewer" || (p.compat.value == WriteCompat && (role == "operator" || role == "reviewer")))
  {
  }

  /** A binding gives nothing in another tenant, and one for a workspace nothing in another workspace, nor on
      the tenant as a whole. */
  lemma BindingsStayHome(p: Principal, held: seq<Binding>, tenant: string, workspace: Option<string>, role: string)
    requires p.kind == Token || !p.owner
    requires forall b :: b in held ==> b.tenant != tenant || (b.workspace.Some? && b.workspace != workspace)
    ensures Holds(p, held, tenant, workspace, role) ==> role in CompatRoles(p, tenant)
  {
  }

  /** One binding with no rule gives its role, on its workspace or on all of its tenant's. */
  lemma PlainBindingGives(p: Principal, b: Binding, workspace: Option<string>)
    requires p.kind == User && !HasRule(b) && b.role in ROLES && b.effect != "deny"
    requires b.workspace == None || b.workspace == workspace
    ensures Holds(p, [b], b.tenant, workspace, b.role)
  {
    assert b in Bindings(p, [b]) && GivesPlain(b, b.tenant, workspace);
  }

  /** A rule names what its binding does: an object alone if it gives one, else the source and the path that it
      gives, and nothing that is empty; a binding that gives none of them has no rule. */
  lemma RuleNames(b: Binding)
    ensures HasRule(b) <==> RuleOf(b).ObjectRule? || RuleOf(b).source.Some? || RuleOf(b).path.Some?
    ensures RuleOf(b).allow <==> b.effect != "deny"
    ensures RuleOf(b).ObjectRule? <==> b.objectId.Some? && b.objectId.value != ""
    ensures RuleOf(b).ObjectRule? ==> b.objectId == Some(RuleOf(b).objectId)
    ensures RuleOf(b).SourceRule? ==>
              forall text :: (RuleOf(b).source == Some(text) <==> text != "" && b.source == Some(text))
                             && (RuleOf(b).path == Some(text) <==> text != "" && b.path == Some(text))
  {
  }

  /** Denying gives nothing and takes no role away; it restricts whom it restricts all the more. */
  lemma DenyOnlyRestricts(p: Principal, held: seq<Binding>, d: Binding, tenant: string, workspace: string, role: string)
    requires d.effect == "deny"
    ensures Holds(p, held + [d], tenant, Some(workspace), role) <==> Holds(p, held, tenant, Some(workspace), role)
    ensures var scope, scope' := ScopeOf(p, held, tenant, workspace), ScopeOf(p, held + [d], tenant, workspace);
            scope.Some? ==>
              && scope'.Some? && scope'.value.shown == scope.value.shown
              && scope.value.rules <= scope'.value.rules
  {
    var bs, bs' := Bindings(p, held), Bindings(p, held + [d]);
    assert forall b :: b in bs' && b.effect != "deny" <==> b in bs && b.effect != "deny";
    forall r
      ensures HoldsPlain(p, held + [d], tenant, Some(workspace), r) <==> HoldsPlain(p, held, tenant, Some(workspace), r)
    {
      SamePlain(p, held, held + [d], tenant, Some(workspace), r);
    }
    if bs' != bs {
      assert bs'[..|bs|] == bs;
    }
  }

  lemma SamePlain(
      p: Principal, held: seq<Binding>, held': seq<Binding>, tenant: string, workspace: Option<string>, role: string)
    requires forall b: Binding :: b.effect != "deny" ==> (b in Bindings(p, held) <==> b in Bindings(p, held'))
    ensures HoldsPlain(p, held, tenant, workspace, role) <==> HoldsPlain(p, held', tenant, workspace, role)
    ensures Holds(p, held, tenant, workspace, role) <==> Holds(p, held', tenant, workspace, role)
  {
  }

  /** Allowing takes no role away and restricts nobody who sees all. */
  lemma AllowNeverRestricts(
      p: Principal, held: seq<Binding>, a: Binding, tenant: string, workspace: string, role: string)
    requires a.effect != "deny"
    ensures Holds(p, held, tenant, Some(workspace), role) ==> Holds(p, held + [a], tenant, Some(workspace), role)
    ensures var scope, scope' := ScopeOf(p, held, tenant, workspace), ScopeOf(p, held + [a], tenant, workspace);
            && (scope.None? ==> scope'.None?)
            && (scope'.Some? && !scope'.value.shown ==> !scope.value.shown)
  {
    var bs, bs' := Bindings(p, held), Bindings(p, held + [a]);
    assert forall b :: b in bs ==> b in bs';
    forall r | HoldsPlain(p, held, tenant, Some(workspace), r)
      ensures HoldsPlain(p, held + [a], tenant, Some(workspace), r)
    {
    }
    if bs' != bs {
      assert bs'[..|bs|] == bs;
    }
  }

  /** What is held outright on a tenant is held on each of its workspaces. */
  lemma PlainRolesReachWorkspaces(p: Principal, held: seq<Binding>, tenant: string, workspace: string, role: string)
    requires HoldsPlain(p, held, tenant, None, role)
    ensures HoldsPlain(p, held, tenant, Some(workspace), role)
  {
    if b :| b in Bindings(p, held) && GivesPlain(b, tenant, None) && b.role == role {
      assert GivesPlain(b, tenant, Some(workspace));
    }
  }

  /** All the principal has in the tenant is rules on the tenant as a whole. */
  predicate OnlyTenantWideRules(p: Principal, held: seq<Binding>, tenant: string) {
    && (if p.kind == Token then p.tenant == Some(tenant) else !p.owner)
    && CompatRoles(p, tenant) == {}
    && forall b :: b in Bindings(p, held) && b.tenant == tenant ==> HasRule(b) && b.workspace == None
  }

  /** What rules on a whole tenant allow does not reach its workspaces: their holder views the tenant
      exactly if one of them allows, and no workspace of it in any case. */
  lemma TenantWideRulesShowNoWorkspace(p: Principal, held: seq<Binding>, tenant: string, workspace: string)
    requires OnlyTenantWideRules(p, held, tenant)
    ensures May(p, held, "read", tenant, None) <==> exists b :: b in Bindings(p, held) && GivesPart(b, tenant, None)
    ensures !HoldsAny(p, held, tenant, Some(workspace))
  {
    if b :| b in Bindings(p, held) && GivesPart(b, tenant, None) {
      assert Holds(p, held, tenant, None, "viewer") && "read" in RoleActions("viewer");
    }
  }

  // ---- seeing a tenant ----

  /** A role on the tenant or on a workspace of it. */
  ghost predicate HoldsSomewhere(p: Principal, held: seq<Binding>, tenant: string) {
    HoldsAny(p, held, tenant, None) || exists w :: HoldsAny(p, held, tenant, Some(w))
  }

  /** The binding gives its holder a role in its tenant. */
  predicate Grants(p: Principal, b: Binding) {
    && b.role in ROLES
    && if HasRule(b) then b.effect == "allow" && b.role == "viewer"
       else b.effect != "deny" && (p.kind == Token ==> b.role in TOKEN_ROLES)
  }

  /** All the principal has in the tenant is bindings that give nothing. */
  predicate OnlyInert(p: Principal, held: seq<Binding>, tenant: string) {
    && (if p.kind == Token then p.tenant == Some(tenant) else !p.owner)
    && CompatRoles(p, tenant) == {}
    && (exists b :: b in Bindings(p, held) && b.tenant == tenant && b.effect != "deny")
    && (forall b :: b in Bindings(p, held) && b.tenant == tenant ==> !Grants(p, b))
  }

  lemma GrantingBindingGives(p: Principal, held: seq<Binding>, b: Binding, tenant: string)
    requires p.kind == Token ==> p.tenant == Some(tenant)
    requires b in Bindings(p, held) && b.tenant == tenant && Grants(p, b)
    ensures Holds(p, held, tenant, b.workspace, b.role)
  {
    if HasRule(b) {
      assert GivesPart(b, tenant, b.workspace);
    } else {
      assert GivesPlain(b, tenant, b.workspace);
    }
  }

  lemma InertHoldsNothing(p: Principal, held: seq<Binding>, tenant: string, workspace: Option<string>, role: string)
    requires OnlyInert(p, held, tenant)
    ensures !Holds(p, held, tenant, workspace, role)
  {
    if b :|
      && b in Bindings(p, held) && GivesPlain(b, tenant, workspace) && b.role == role
      && (p.kind == Token ==> role in TOKEN_ROLES)
    {
      assert Grants(p, b);
    }
    if b :| b in Bindings(p, held) && GivesPart(b, tenant, workspace) {
      assert Grants(p, b);
    }
  }

  /** A tenant is seen by whoever has some role in it, and besides exactly by those who have nothing
      there but bindings that give nothing. */
  lemma SeesWhatItHasARoleIn(p: Principal, held: seq<Binding>, tenant: string)
    ensures HoldsSomewhere(p, held, tenant) ==> Sees(p, held, tenant)
    ensures Sees(p, held, tenant) && !HoldsSomewhere(p, held, tenant) <==> OnlyInert(p, held, tenant)
  {
    if OnlyInert(p, held, tenant) {
      forall w: Option<string>, role: string ensures !Holds(p, held, tenant, w, role) {
        InertHoldsNothing(p, held, tenant, w, role);
      }
    } else if Sees(p, held, tenant) {
      if p.kind != Token && p.owner {
        assert Holds(p, held, tenant, None, "viewer");
      } else if CompatRoles(p, tenant) != {} {
        assert HoldsPlain(p, held, tenant, None, "viewer");
        if p.kind != Token || p.tenant == Some(tenant) {
          assert Holds(p, held, tenant, None, "viewer");
        }
      } else if b :| b in Bindings(p, held) && b.tenant == tenant && Grants(p, b) {
        if p.kind != Token || p.tenant == Some(tenant) {
          GrantingBindingGives(p, held, b, tenant);
          HoldsThere(p, held, tenant, b.workspace, b.role);
        }
      }
    }
    if HoldsSomewhere(p, held, tenant) {
      SeenWhereHeld(p, held, tenant);
    }
  }

  lemma HoldsThere(p: Principal, held: seq<Binding>, tenant: string, workspace: Option<string>, role: string)
    requires Holds(p, held, tenant, workspace, role)
    ensures HoldsSomewhere(p, held, tenant)
  {
    assert HoldsAny(p, held, tenant, workspace);
    assert workspace == None || workspace == Some(workspace.value);
  }

  lemma SeenWhereHeld(p: Principal, held: seq<Binding>, tenant: string)
    requires HoldsSomewhere(p, held, tenant)
    ensures Sees(p, held, tenant)
  {
    if w :| HoldsAny(p, held, tenant, Some(w)) {
      var role :| Holds(p, held, tenant, Some(w), role);
      if p.kind != Token && p.owner {
        assert Holds(p, held, tenant, None, role);
      } else if role in CompatRoles(p, tenant) {
        assert Holds(p, held, tenant, None, role);
      }
    }
  }

  /** A token whose only binding is for a role that tokens cannot hold sees its tenant with no role in it. */
  lemma TokenWithAdminBindingSeesTenant(p: Principal, tenant: string)
    requires p.kind == Token && p.tenant == Some(tenant) && p.compat == None
    ensures var b := Binding(tenant, "admin", None, "allow", None, None, None);
            Sees(p, [b], tenant) && !HoldsSomewhere(p, [b], tenant)
  {
    var b := Binding(tenant, "admin", None, "allow", None, None, None);
    assert b in Bindings(p, [b]);
    SeesWhatItHasARoleIn(p, [b], tenant);
  }

  // ---- the answer of a route ----

  datatype Answer = NotFound | Forbidden | Granted

  /** A workspace route: hidden from whoever could not read there, refused to whoever lacks the action or
      sees only a part where the route does not heed it. */
  method AllowWorkspace(
      p: Principal, held: seq<Binding>, action: string, tenant: string, workspace: string, scoped: bool)
    returns (answer: Answer)
    ensures answer == NotFound <==> !May(p, held, "read", tenant, Some(workspace))
    ensures answer == Granted <==>
              && May(p, held, "read", tenant, Some(workspace)) && May(p, held, action, tenant, Some(workspace))
              && (scoped || ScopeOf(p, held, tenant, workspace) == None)
  {
    ReadIffAnyRole(p, held, tenant, Some(workspace));
    var roles := RolesIn(p, held, tenant, Some(workspace));
    if roles == {} {
      return NotFound;
    }
    var role :| role in roles;
    assert HoldsAny(p, held, tenant, Some(workspace));
    var ok := Authorize(p, held, action, tenant, Some(workspace));
    var scope := ScopeFor(p, held, tenant, workspace);
    return if !ok || (!scoped && scope != None) then Forbidden else Granted;
  }

  /** Who reads a workspace and is restricted on it is given at least one rule that allows something,
      unless what no rule names is shown. */
  lemma ReaderIsShownSomething(p: Principal, held: seq<Binding>, tenant: string, workspace: string)
    requires May(p, held, "read", tenant, Some(workspace))
    ensures ScopeOf(p, held, tenant, workspace).Some? && !ScopeOf(p, held, tenant, workspace).value.shown ==>
              exists rule :: rule in ScopeOf(p, held, tenant, workspace).value.rules && rule.allow
  {
    var bs := Bindings(p, held);
    var role :| Holds(p, held, tenant, Some(workspace), role);
    if b :| b in bs && GivesPart(b, tenant, Some(workspace)) {
      AllowRuleIsThere(bs, b, tenant, workspace);
      assert RuleOf(b).allow;
    }
  }

  lemma {:induction false} RulesComeFromBindings(bs: seq<Binding>, tenant: string, workspace: string, rule: Rule)
    ensures rule in Denies(bs, tenant, workspace) <==>
              exists b :: b in bs && Narrows(b, tenant, workspace) && b.effect == "deny" && RuleOf(b) == rule
    ensures rule in Allows(bs, tenant, workspace) <==>
              exists b :: b in bs && Narrows(b, tenant, workspace) && b.effect != "deny" && b.role == "viewer"
                          && RuleOf(b) == rule
  {
    if bs != [] {
      var front, last := bs[..|bs| - 1], bs[|bs| - 1];
      RulesComeFromBindings(front, tenant, workspace, rule);
      assert bs == front + [last];
      assert forall b :: b in bs <==> b in front || b == last;
    }
  }

  /** The rules of a scope are those of the bindings on the workspace itself: every denial, and, where only
      what is allowed is shown, every permission to view. */
  lemma ScopeRulesAreExact(p: Principal, held: seq<Binding>, tenant: string, workspace: string, rule: Rule)
    requires ScopeOf(p, held, tenant, workspace).Some?
    ensures var scope := ScopeOf(p, held, tenant, workspace).value;
            rule in scope.rules <==>
              exists b :: b in Bindings(p, held) && RuleOf(b) == rule
                          && b.tenant == tenant && b.role in ROLES && b.workspace == Some(workspace) && HasRule(b)
                          && (b.effect == "deny" || (b.role == "viewer" && !scope.shown))
  {
    RulesComeFromBindings(Bindings(p, held), tenant, workspace, rule);
  }

  /** What no rule names is shown exactly to those who hold some role outright; where it is not, the rules that
      allow come before those that deny. */
  lemma ShownExactly(p: Principal, held: seq<Binding>, tenant: string, workspace: string)
    requires ScopeOf(p, held, tenant, workspace).Some?
    ensures ScopeOf(p, held, tenant, workspace).value.shown <==> HoldsAnyPlain(p, held, tenant, Some(workspace))
    ensures var rules := ScopeOf(p, held, tenant, workspace).value.rules;
            forall i, j :: 0 <= i < j < |rules| && rules[j].allow ==> rules[i].allow
  {
    var bs := Bindings(p, held);
    forall rule | rule in Denies(bs, tenant, workspace) ensures !rule.allow {
      RulesComeFromBindings(bs, tenant, workspace, rule);
    }
    forall rule | rule in Allows(bs, tenant, workspace) ensures rule.allow {
      RulesComeFromBindings(bs, tenant, workspace, rule);
    }
  }

  /** Who is restricted: all but owners, those with a role that shows everything anyway, and those with some
      role held outright whom no denial narrows. */
  lemma RestrictedExactly(p: Principal, held: seq<Binding>, tenant: string, workspace: string)
    ensures ScopeOf(p, held, tenant, workspace).Some? <==>
              && (p.kind == Token || !p.owner)
              && !HoldsPlain(p, held, tenant, Some(workspace), "operator")
              && !HoldsPlain(p, held, tenant, Some(workspace), "admin")
              && (HoldsAnyPlain(p, held, tenant, Some(workspace)) ==>
                    exists b :: b in Bindings(p, held) && Narrows(b, tenant, workspace) && b.effect == "deny")
  {
    var bs := Bindings(p, held);
    if b :| b in bs && Narrows(b, tenant, workspace) && b.effect == "deny" {
      RulesComeFromBindings(bs, tenant, workspace, RuleOf(b));
    }
    if Denies(bs, tenant, workspace) != [] {
      RulesComeFromBindings(bs, tenant, workspace, Denies(bs, tenant, workspace)[0]);
      assert Denies(bs, tenant, workspace)[0] in Denies(bs, tenant, workspace);
    }
  }

  lemma {:induction false} AllowRuleIsThere(bs: seq<Binding>, b: Binding, tenant: string, workspace: string)
    requires b in bs && GivesPart(b, tenant, Some(workspace))
    ensures RuleOf(b) in Allows(bs, tenant, workspace)
  {
    if bs[|bs| - 1] != b {
      AllowRuleIsThere(bs[..|bs| - 1], b, tenant, workspace);
    }
  }
}
