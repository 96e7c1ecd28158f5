// The roles and permissions of ross_ai/rbac.py.
module Roles {
  import opened Text

  datatype Permission =
    | ConsoleView | InventoryRead | HardeningRead | BillingRead | BillingWrite | MembershipElect
    | UsersRead | UsersWrite | RolesRead | RolesAssign | PackagesRead | PackagesBuild
    | DeployRead | DeployPlan | RuntimeRead | CodeExecute | CodeAuditRead | CodeScriptsWrite
    | LegalRead | GithubLink | SecurityMfaManage | AdminAuditRead

  const ALL: set<Permission> := {
    ConsoleView, InventoryRead, HardeningRead, BillingRead, BillingWrite, MembershipElect,
    UsersRead, UsersWrite, RolesRead, RolesAssign, PackagesRead, PackagesBuild,
    DeployRead, DeployPlan, RuntimeRead, CodeExecute, CodeAuditRead, CodeScriptsWrite,
    LegalRead, GithubLink, SecurityMfaManage, AdminAuditRead}

  datatype Role = Viewer | Operator | Billing | Engineer | Admin | Owner

  const DEFAULT_ROLE: Role := Operator

  // Anything that is not the name of a role is read as the default role.
  function ParseRole(name: string): Role
  {
    var r := Normal(name);
    if r == "viewer" then Viewer
    else if r == "operator" then Operator
    else if r == "billing" then Billing
    else if r == "engineer" then Engineer
    else if r == "admin" then Admin
    else if r == "owner" then Owner
    else DEFAULT_ROLE
  }

  function Permissions(role: Role): set<Permission>
    decreases Rank(role)
  {
    match role
    case Viewer =>
      {ConsoleView, InventoryRead, HardeningRead, PackagesRead, DeployRead, RuntimeRead, LegalRead, CodeAuditRead}
    case Operator =>
      Permissions(Viewer)
      + {BillingRead, MembershipElect, BillingWrite, CodeExecute, CodeScriptsWrite, GithubLink,
         SecurityMfaManage, PackagesBuild, DeployPlan, RolesRead, UsersRead}
    case Billing => Permissions(Operator) + {UsersRead}
    case Engineer => Permissions(Operator) + {UsersRead, RolesRead, AdminAuditRead}
    case Admin => Permissions(Engineer) + {UsersWrite, RolesAssign, RolesRead, AdminAuditRead}
    case Owner => ALL
  }

  function Rank(role: Role): nat
  {
    match role case Viewer => 0 case Operator => 1 case Billing => 2 case Engineer => 3 case Admin => 4 case Owner => 5
  }

  // A role later in the order has every permission of the earlier ones.
  lemma HigherRolesExpand(r: Role, s: Role)
    requires Rank(r) <= Rank(s)
    ensures Permissions(r) <= Permissions(s)
  {
  }

  // Only administrators and owners assign roles.
  lemma WhoAssigns(r: Role)
    ensures RolesAssign in Permissions(r) <==> r == Admin || r == Owner
  {
  }

  // The six names, however they are spaced and capitalised; anything else is an operator.
  lemma RoleNames(name: string)
    ensures ParseRole(name) == Viewer <==> Normal(name) == "viewer"
    ensures ParseRole(name) == Billing <==> Normal(name) == "billing"
    ensures ParseRole(name) == Engineer <==> Normal(name) == "engineer"
    ensures ParseRole(name) == Admin <==> Normal(name) == "admin"
    ensures ParseRole(name) == Owner <==> Normal(name) == "owner"
    ensures ParseRole(name) == Operator <==> Normal(name) !in {"viewer", "billing", "engineer", "admin", "owner"}
  {
  }

  // Where in the order of roles a permission is first given. Billing gives none of its own.
  function FirstGiven(p: Permission): nat
  {
    match p
    case ConsoleView => 0 case InventoryRead => 0 case HardeningRead => 0 case PackagesRead => 0
    case DeployRead => 0 case RuntimeRead => 0 case LegalRead => 0 case CodeAuditRead => 0
    case BillingRead => 1 case BillingWrite => 1 case MembershipElect => 1 case UsersRead => 1
    case RolesRead => 1 case PackagesBuild => 1 case DeployPlan => 1 case CodeExecute => 1
    case CodeScriptsWrite => 1 case GithubLink => 1 case SecurityMfaManage => 1
    case AdminAuditRead => 3
    case UsersWrite => 4 case RolesAssign => 4
  }

  // The whole table at once: a role has the permissions first given at its place or before.
  lemma PermissionsByRank(r: Role, p: Permission)
    ensures p in Permissions(r) <==> FirstGiven(p) <= Rank(r)
  {
  }
}
