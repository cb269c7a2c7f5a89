/** The capabilities and predefined roles this release ships: internal/gateway/access_capabilities.go. */
module RoleCatalog {

  import opened RbacRules
  import opened RoleSync

  const READ := ["get", "list"]
  const WATCH := ["get", "list", "watch"]
  const MANAGE := ["get", "list", "watch", "create", "update", "patch", "delete"]

  predicate Lower(p: string) {
    p != "" && 'a' <= p[0] <= 'z'
  }

  function Grant(group: string, resources: seq<string>, verbs: seq<string>): (r: Rule)
    ensures (forall p :: p in resources ==> Lower(p)) ==> PlainRule(r)
  {
    Rule(verbs, [group], resources, [], [])
  }

  const VIEW_VMS := [
    Grant("swift.kubeswift.io", ["swiftguests", "swiftguestpools", "swiftguestclasses"], WATCH),
    Grant("migration.kubeswift.io", ["swiftmigrations"], WATCH),
    Grant("", ["events"], WATCH)]

  const MANAGE_VMS := [
    Grant("swift.kubeswift.io", ["swiftguests"], ["update", "patch"]),
    Grant("", ["pods"], ["get", "list", "delete"])]

  const CONSOLE := [
    Grant("swift.kubeswift.io", ["swiftguests/console"], ["create"]),
    Grant("sandbox.kubeswift.io", ["swiftsandboxes/exec"], ["create"]),
    Grant("sandbox.kubeswift.io", ["swiftsandboxes/log"], ["get"])]

  const MIGRATE := [
    Grant("migration.kubeswift.io", ["swiftmigrations"], ["create"]),
    Grant("", ["nodes"], ["list"])]

  const MANAGE_SNAPSHOTS := [
    Grant("snapshot.kubeswift.io", ["swiftsnapshots", "swiftrestores", "swiftsnapshotschedules"], MANAGE)]

  const VIEW_RESOURCES := VIEW_CLUSTER + VIEW_KUBESWIFT

  const VIEW_CLUSTER := [
    Grant("", ["nodes", "namespaces", "pods", "services", "persistentvolumeclaims", "persistentvolumes",
               "configmaps"], READ),
    Grant("storage.k8s.io", ["storageclasses"], READ),
    Grant("networking.k8s.io", ["networkpolicies"], READ),
    Grant("k8s.cni.cncf.io", ["network-attachment-definitions"], READ)]

  const VIEW_KUBESWIFT := [
    Grant("image.kubeswift.io", ["swiftimages"], READ),
    Grant("kernel.kubeswift.io", ["swiftkernels"], READ),
    Grant("seed.kubeswift.io", ["swiftseedprofiles"], READ),
    Grant("snapshot.kubeswift.io", ["swiftsnapshots", "swiftsnapshotschedules", "swiftrestores"], READ),
    Grant("gpu.kubeswift.io", ["swiftgpunodes", "swiftgpuprofiles"], READ),
    Grant("storage.kubeswift.io", ["swiftclusterstoragelocations", "swiftstoragelocations"], READ)]

  const MANAGE_STORAGE_LOCATIONS := [
    Grant("storage.kubeswift.io", ["swiftclusterstoragelocations", "swiftstoragelocations"], MANAGE)]

  const VIEW_SECRETS := [Grant("", ["secrets"], READ)]

  const MANAGE_RBAC := [
    Grant("rbac.authorization.k8s.io", ["roles", "rolebindings", "clusterroles", "clusterrolebindings"], MANAGE)]

  const CAPABILITIES := [
    Capability("view-vms", VIEW_VMS),
    Capability("manage-vms", MANAGE_VMS),
    Capability("console", CONSOLE),
    Capability("migrate", MIGRATE),
    Capability("manage-snapshots", MANAGE_SNAPSHOTS),
    Capability("view-resources", VIEW_RESOURCES),
    Capability("manage-storage-locations", MANAGE_STORAGE_LOCATIONS),
    Capability("view-secrets", VIEW_SECRETS),
    Capability("manage-rbac", MANAGE_RBAC)]

  const PREDEFINED_ROLES := [
    Predefined("kubeswift-viewer", "View-only", ["view-vms", "view-resources"]),
    Predefined("kubeswift-operator", "Operator",
      ["view-vms", "manage-vms", "console", "migrate", "manage-snapshots", "view-resources"]),
    Predefined("kubeswift-admin", "Admin",
      ["view-vms", "manage-vms", "console", "migrate", "manage-snapshots", "view-resources",
       "manage-storage-locations", "view-secrets", "manage-rbac"])]

  const SHIPPED := Catalog(CAPABILITIES, PREDEFINED_ROLES)

  /** Keys of different lengths differ, and the two of length seven begin differently. */
  lemma ShippedKeys()
    ensures NoEmptyKey(CAPABILITIES) && DistinctKeys(CAPABILITIES)
  {
    ShippedKeyLengths();
    forall i, j | 0 <= i < j < 9 ensures CAPABILITIES[i].key != CAPABILITIES[j].key {
      if i == 2 && j == 3 {
        assert CAPABILITIES[2].key[0] == 'c' && CAPABILITIES[3].key[0] == 'm';
      } else {
        assert |CAPABILITIES[i].key| != |CAPABILITIES[j].key|;
      }
    }
  }

  lemma ShippedKeyLengths()
    ensures |CAPABILITIES| == 9
    ensures forall i :: 0 <= i < 9 ==> |CAPABILITIES[i].key| == [8, 10, 7, 7, 16, 14, 24, 12, 11][i]
  {
  }

  /** No shipped resource could be taken for a URL. */
  lemma ShippedRulesPlain()
    ensures PlainCatalog(CAPABILITIES)
  {
    ViewVmsPlain();
    ManageVmsPlain();
    ConsolePlain();
    ManageSnapshotsPlain();
    ViewResourcesPlain();
    AccessPlain();
  }

  lemma ViewVmsPlain()
    ensures AllPlain(VIEW_VMS)
  {
  }

  lemma ManageVmsPlain()
    ensures AllPlain(MANAGE_VMS) && AllPlain(MIGRATE)
  {
  }

  lemma ConsolePlain()
    ensures AllPlain(CONSOLE)
  {
  }

  lemma ManageSnapshotsPlain()
    ensures AllPlain(MANAGE_SNAPSHOTS) && AllPlain(MANAGE_STORAGE_LOCATIONS)
  {
  }

  lemma ViewClusterPlain()
    ensures AllPlain(VIEW_CLUSTER)
  {
  }

  lemma ViewKubeSwiftPlain()
    ensures AllPlain(VIEW_KUBESWIFT)
  {
  }

  lemma ViewResourcesPlain()
    ensures AllPlain(VIEW_RESOURCES)
  {
    ViewClusterPlain();
    ViewKubeSwiftPlain();
  }

  lemma AccessPlain()
    ensures AllPlain(VIEW_SECRETS) && AllPlain(MANAGE_RBAC)
  {
  }

  /** In this release: a role without drift allows exactly what its capabilities allow, if and only if it names
      no URL; and it names none if it keeps to Kubernetes' convention. */
  lemma ShippedRolesGrant(r: Role)
    requires NoEmptyNames(r.rules) && NoDrift(r, DesiredRole(SHIPPED, r))
    ensures (forall q :: RulesAllow(r.rules, q) <==> Granted(CAPABILITIES, KeysOf(SHIPPED, r), q)) <==> NoUrls(r.rules)
    ensures AllConventional(r.rules) ==> NoUrls(r.rules)
  {
    ShippedKeys();
    ShippedRulesPlain();
    NoDriftGrantsCapabilities(SHIPPED, r);
    if AllConventional(r.rules) {
      DesiredRules(SHIPPED, r);
      ConventionalHasNoUrls(r.rules, RulesFor(CAPABILITIES, KeysOf(SHIPPED, r)));
    }
  }
}
