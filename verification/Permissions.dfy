/** The permission catalog: which role bundles which permission. */
module Permissions {
  import opened Model

  /** Role name and bundle, in the order of the source's dictionary. */
  type Catalog = seq<(string, set<Permission>)>

  const VIEWER_BUNDLE: set<Permission> := {DroneRead, TelemetryRead, VideoRead, MissionRead}

  const ADMIN_BUNDLE: set<Permission> := {
    DroneRead, TelemetryRead, VideoRead, MissionRead,
    UserInvite, UserRemove, UserAssignRole, OrgSettings, AuditRead}

  const DEVELOPER_BUNDLE: set<Permission> := {
    DroneRead, TelemetryRead, VideoRead, MissionRead,
    DroneConfigure, DroneConfigureAdvanced,
    PlatformAuditRead, PlatformOrgManage, PlatformDroneManage, DevDebug}

  const ROLE_PERMISSIONS: Catalog := [
    ("viewer", VIEWER_BUNDLE),
    ("operator", VIEWER_BUNDLE + {MissionWrite}),
    ("admin", ADMIN_BUNDLE),
    ("planner", {}),
    ("technician", {}),
    ("developer", DEVELOPER_BUNDLE)]

  /** Granted only at the Specter root org. */
  const PLATFORM_ONLY_ROLES: set<string> := {"developer"}

  /** The role names whose bundle holds `p`. */
  function RolesWithPermission(catalog: Catalog, p: Permission): (names: seq<string>)
    ensures forall name :: name in names <==>
              exists i :: 0 <= i < |catalog| && catalog[i].0 == name && p in catalog[i].1
  {
    if catalog == [] then []
    else
      var rest := RolesWithPermission(catalog[1..], p);
      if p in catalog[0].1 then [catalog[0].0] + rest else rest
  }

  /** Permissions no customer role bundles. */
  predicate IsPlatformPermission(p: Permission) {
    p in {DroneConfigure, DroneConfigureAdvanced, PlatformAuditRead, PlatformOrgManage, PlatformDroneManage, DevDebug}
  }

  /** The shipped catalog, read one role at a time. */
  ghost predicate Carries(name: string, p: Permission) {
    || (name == "viewer" && p in VIEWER_BUNDLE)
    || (name == "operator" && (p in VIEWER_BUNDLE || p == MissionWrite))
    || (name == "admin" && p in ADMIN_BUNDLE)
    || (name == "developer" && p in DEVELOPER_BUNDLE)
  }

  lemma CatalogEntry(catalog: Catalog, name: string, p: Permission)
    requires catalog == ROLE_PERMISSIONS
    ensures name in RolesWithPermission(catalog, p) <==> Carries(name, p)
  {
    assert name in RolesWithPermission(catalog, p) <==>
           exists i :: 0 <= i < 6 && catalog[i].0 == name && p in catalog[i].1;
    assert catalog[0].0 == "viewer" && catalog[1].0 == "operator" && catalog[2].0 == "admin";
    assert catalog[5].0 == "developer";
  }

  lemma CarriedByWhom(p: Permission)
    ensures IsPlatformPermission(p) ==>
              Carries("developer", p) && forall name :: Carries(name, p) ==> name == "developer"
    ensures !IsPlatformPermission(p) ==> Carries("admin", p) || Carries("operator", p)
  {
  }

  /** Exactly the platform permissions are carried by platform roles alone; and every
      permission is carried by some role, so the "not in any role" exit of the check is
      never taken with the shipped catalog. */
  lemma PlatformPermissionsNeedPlatformRoles(catalog: Catalog, p: Permission)
    requires catalog == ROLE_PERMISSIONS
    ensures RolesWithPermission(catalog, p) != []
    ensures IsPlatformPermission(p) <==>
              forall name :: name in RolesWithPermission(catalog, p) ==> name in PLATFORM_ONLY_ROLES
  {
    var names := RolesWithPermission(catalog, p);
    forall name
      ensures name in names <==> Carries(name, p)
    {
      CatalogEntry(catalog, name, p);
    }
    CarriedByWhom(p);
    assert "admin" !in PLATFORM_ONLY_ROLES && "operator" !in PLATFORM_ONLY_ROLES;
    assert if IsPlatformPermission(p) then "developer" in names else "admin" in names || "operator" in names;
  }

  lemma AdminsAndDevelopers(catalog: Catalog, p: Permission)
    requires catalog == ROLE_PERMISSIONS
    ensures "admin" in RolesWithPermission(catalog, p) <==> p in ADMIN_BUNDLE
    ensures "developer" in RolesWithPermission(catalog, p) <==> p in DEVELOPER_BUNDLE
  {
    CatalogEntry(catalog, "admin", p);
    CatalogEntry(catalog, "developer", p);
  }

  // ---------- the catalog, read by permission ----------

  /** Who carries it, permission by permission. */
  function Carriers(p: Permission): set<string> {
    match p
    case DroneRead | TelemetryRead | VideoRead | MissionRead => {"viewer", "operator", "admin", "developer"}
    case MissionWrite => {"operator"}
    case UserInvite | UserRemove | UserAssignRole | OrgSettings | AuditRead => {"admin"}
    case DroneConfigure | DroneConfigureAdvanced => {"developer"}
    case PlatformAuditRead | PlatformOrgManage | PlatformDroneManage | DevDebug => {"developer"}
  }

  /** The table of bundles, transposed, is this one. */
  lemma CatalogByPermission(catalog: Catalog, name: string, p: Permission)
    requires catalog == ROLE_PERMISSIONS
    ensures name in RolesWithPermission(catalog, p) <==> name in Carriers(p)
  {
    CatalogEntry(catalog, name, p);
  }
}
