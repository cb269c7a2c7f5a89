/** KubeSwift roles, their drift from the capabilities they list, and bringing them up to date:
    internal/gateway/access_drift.go, access_capabilities.go and access_service.go. */
module RoleSync {

  import opened Common
  import opened Strings
  import opened RbacRules

  datatype Capability = Capability(key: string, rules: seq<Rule>)

  datatype Predefined = Predefined(name: string, displayName: string, caps: seq<string>)

  /** What a release ships. */
  datatype Catalog = Catalog(capabilities: seq<Capability>, predefined: seq<Predefined>)

  type Meta = map<string, string>

  /** version stands for the resource version and everything else the editor leaves alone. */
  datatype Role = Role(name: string, version: nat, labels: Meta, annotations: Meta, rules: seq<Rule>)

  const ROLE_LABEL := "kubeswift.io/role"
  const DISPLAY := "kubeswift.io/role-display-name"
  const CAPS := "kubeswift.io/role-capabilities"
  const PREDEFINED := "kubeswift.io/role-predefined"

  function Lookup(m: Meta, k: string): string {
    if k in m then m[k] else ""
  }

  predicate IsKubeSwiftRole(r: Role) {
    Lookup(r.labels, ROLE_LABEL) == "true"
  }

  /** The known keys among those given, in catalog order. */
  function ValidCaps(caps: seq<Capability>, keys: seq<string>): seq<string> {
    if caps == [] then []
    else (if caps[0].key in keys then [caps[0].key] else []) + ValidCaps(caps[1..], keys)
  }

  function RulesByKey(caps: seq<Capability>, key: string): seq<Rule> {
    if caps == [] then []
    else if caps[0].key == key then caps[0].rules
    else RulesByKey(caps[1..], key)
  }

  function RulesOfKeys(caps: seq<Capability>, keys: seq<string>): seq<Rule> {
    if keys == [] then [] else RulesByKey(caps, keys[0]) + RulesOfKeys(caps, keys[1..])
  }

  function RulesFor(caps: seq<Capability>, keys: seq<string>): seq<Rule> {
    RulesOfKeys(caps, ValidCaps(caps, keys))
  }

  function JoinCsv(parts: seq<string>): string {
    if parts == [] then "" else Join(parts, ',')
  }

  function SplitCsv(s: string): seq<string> {
    if s == "" then [] else Split(s, ',')
  }

  function RoleFor(c: Catalog, name: string, display: string, keys: seq<string>, predefined: bool): Role {
    var caps := ValidCaps(c.capabilities, keys);
    var annotations := map[DISPLAY := display, CAPS := JoinCsv(caps)];
    Role(name, 0, map[ROLE_LABEL := "true"],
         if predefined then annotations[PREDEFINED := "true"] else annotations,
         RulesFor(c.capabilities, caps))
  }

  function FindPredefined(ps: seq<Predefined>, name: string): (p: Option<Predefined>)
    ensures p.Some? ==> p.value in ps && p.value.name == name
    ensures p.None? ==> forall i :: 0 <= i < |ps| ==> ps[i].name != name
  {
    if ps == [] then None
    else if ps[0].name == name then Some(ps[0])
    else FindPredefined(ps[1..], name)
  }

  /** desiredRole: what the role should be in this release. */
  function DesiredRole(c: Catalog, r: Role): Role {
    var p := FindPredefined(c.predefined, r.name);
    if p.Some? then RoleFor(c, p.value.name, p.value.displayName, p.value.caps, true)
    else RoleFor(c, r.name, Lookup(r.annotations, DISPLAY), SplitCsv(Lookup(r.annotations, CAPS)), false)
  }

  /** roleDrift is empty: same permissions, same capability list. */
  ghost predicate NoDrift(actual: Role, desired: Role) {
    && (forall a :: AtomOf(actual.rules, a) <==> AtomOf(desired.rules, a))
    && Lookup(actual.annotations, CAPS) == Lookup(desired.annotations, CAPS)
  }

  /** syncedRole: the desired rules and metadata over what the role has. */
  function SyncedRole(actual: Role, desired: Role): Role {
    actual.(rules := desired.rules, labels := actual.labels + desired.labels,
            annotations := actual.annotations + desired.annotations)
  }

  /** What the editor does not own is as it was: the name, and every label and annotation but its own. */
  ghost predicate KeepsMetadata(was: Role, now: Role) {
    && now.name == was.name
    && (forall k :: k != "kubeswift.io/role" ==>
          (k in now.labels <==> k in was.labels) && (k in was.labels ==> now.labels[k] == was.labels[k]))
    && (forall k :: k != "kubeswift.io/role-display-name" && k != "kubeswift.io/role-capabilities"
                    && k != "kubeswift.io/role-predefined" ==>
          (k in now.annotations <==> k in was.annotations)
          && (k in was.annotations ==> now.annotations[k] == was.annotations[k]))
  }

  /** The role composes these capabilities, in this release's terms. */
  ghost predicate Composes(c: Catalog, keys: seq<string>, now: Role) {
    var caps := ValidCaps(c.capabilities, keys);
    && now.rules == RulesFor(c.capabilities, caps)
    && Lookup(now.annotations, "kubeswift.io/role-capabilities") == JoinCsv(caps)
  }

  /** A predefined role grants what it ships with; a custom role what its own list names. */
  ghost predicate Recomposed(c: Catalog, was: Role, now: Role) {
    && (forall p :: FindPredefined(c.predefined, was.name) == Some(p) ==> Composes(c, p.caps, now))
    && ((forall p :: p in c.predefined ==> p.name != was.name) ==>
          Composes(c, SplitCsv(Lookup(was.annotations, "kubeswift.io/role-capabilities")), now))
  }

  /** A predefined role shows the name it ships with and is marked so; a custom role keeps the name it had. */
  ghost predicate ShowsName(c: Catalog, was: Role, now: Role) {
    var shown := Lookup(now.annotations, "kubeswift.io/role-display-name");
    && (forall p :: FindPredefined(c.predefined, was.name) == Some(p) ==>
          shown == p.displayName && Lookup(now.annotations, "kubeswift.io/role-predefined") == "true")
    && ((forall p :: p in c.predefined ==> p.name != was.name) ==>
          && shown == Lookup(was.annotations, "kubeswift.io/role-display-name")
          && Lookup(now.annotations, "kubeswift.io/role-predefined") ==
             Lookup(was.annotations, "kubeswift.io/role-predefined"))
  }

  /** What the desired role says of itself beside its rules. */
  lemma DesiredMetadata(c: Catalog, r: Role)
    ensures var d := DesiredRole(c, r);
            && d.labels == map["kubeswift.io/role" := "true"]
            && d.annotations.Keys - {PREDEFINED} == {DISPLAY, CAPS}
            && (forall p :: FindPredefined(c.predefined, r.name) == Some(p) ==>
                  d.annotations[DISPLAY] == p.displayName && Lookup(d.annotations, PREDEFINED) == "true")
            && (FindPredefined(c.predefined, r.name).None? ==>
                  d.annotations[DISPLAY] == Lookup(r.annotations, DISPLAY) && PREDEFINED !in d.annotations)
  {
  }

  lemma OverlayKeeps(r: Role, d: Role)
    requires d.labels.Keys == {ROLE_LABEL} && d.annotations.Keys <= {DISPLAY, CAPS, PREDEFINED}
    ensures KeepsMetadata(r, SyncedRole(r, d))
  {
  }

  /** A sync changes what the editor owns and nothing else. */
  lemma SyncKeepsTheRest(c: Catalog, r: Role)
    ensures var s := SyncedRole(r, DesiredRole(c, r));
            && KeepsMetadata(r, s) && ShowsName(c, r, s) && s.version == r.version
            && Recomposed(c, r, s) && Lookup(s.labels, "kubeswift.io/role") == "true"
  {
    DesiredMetadata(c, r);
    OverlayKeeps(r, DesiredRole(c, r));
    var p := FindPredefined(c.predefined, r.name);
    if p.Some? { assert p.value in c.predefined; }
  }

  // ---- the loops ----

  lemma {:induction false} ValidCapsSnoc(caps: seq<Capability>, i: nat, keys: seq<string>)
    requires i < |caps|
    ensures ValidCaps(caps[..i + 1], keys) ==
              ValidCaps(caps[..i], keys) + if caps[i].key in keys then [caps[i].key] else []
    decreases i
  {
    if i == 0 {
      assert caps[..1][1..] == [];
    } else {
      ValidCapsSnoc(caps[1..], i - 1, keys);
      assert caps[..i + 1][1..] == caps[1..][..i] && caps[..i][1..] == caps[1..][..i - 1];
    }
  }

  method ValidCapabilities(caps: seq<Capability>, keys: seq<string>) returns (out: seq<string>)
    ensures out == ValidCaps(caps, keys)
  {
    var want: set<string> := {};
    for i := 0 to |keys|
      invariant forall k :: k in want <==> k in keys[..i]
    {
      want := want + {keys[i]};
    }
    out := [];
    for i := 0 to |caps|
      invariant out == ValidCaps(caps[..i], keys)
    {
      ValidCapsSnoc(caps, i, keys);
      if caps[i].key in want { out := out + [caps[i].key]; }
    }
    assert caps[..|caps|] == caps;
  }

  method CapabilityByKey(caps: seq<Capability>, key: string) returns (rules: seq<Rule>)
    ensures rules == RulesByKey(caps, key)
  {
    for i := 0 to |caps|
      invariant RulesByKey(caps, key) == RulesByKey(caps[i..], key)
    {
      if caps[i].key == key { return caps[i].rules; }
      assert caps[i..][1..] == caps[i + 1..];
    }
    rules := [];
  }

  lemma {:induction false} RulesOfKeysSnoc(caps: seq<Capability>, keys: seq<string>, i: nat)
    requires i < |keys|
    ensures RulesOfKeys(caps, keys[..i + 1]) == RulesOfKeys(caps, keys[..i]) + RulesByKey(caps, keys[i])
    decreases i
  {
    if i == 0 {
      assert keys[..1][1..] == [];
    } else {
      RulesOfKeysSnoc(caps, keys[1..], i - 1);
      assert keys[..i + 1][1..] == keys[1..][..i] && keys[..i][1..] == keys[1..][..i - 1];
    }
  }

  method RulesForCapabilities(caps: seq<Capability>, keys: seq<string>) returns (rules: seq<Rule>)
    ensures rules == RulesFor(caps, keys)
  {
    var valid := ValidCapabilities(caps, keys);
    rules := [];
    for i := 0 to |valid|
      invariant rules == RulesOfKeys(caps, valid[..i])
    {
      RulesOfKeysSnoc(caps, valid, i);
      var more := CapabilityByKey(caps, valid[i]);
      rules := rules + more;
    }
    assert valid[..|valid|] == valid;
  }

  /** The permissions a role has too many, those it lacks, and a stale capability list. */
  datatype Drift = Drift(extra: seq<Atom>, missing: seq<Atom>, staleList: bool)

  predicate Empty(d: Drift) {
    d.extra == [] && d.missing == [] && !d.staleList
  }

  method RoleDrift(actual: Role, desired: Role) returns (d: Drift)
    ensures Empty(d) <==> NoDrift(actual, desired)
    ensures forall a :: a in d.extra <==> AtomOf(actual.rules, a) && !AtomOf(desired.rules, a)
    ensures forall a :: a in d.missing <==> AtomOf(desired.rules, a) && !AtomOf(actual.rules, a)
  {
    var have := RuleAtoms(actual.rules);
    var want := RuleAtoms(desired.rules);
    var extra := Minus(have, want);
    var missing := Minus(want, have);
    var stale := extra == [] && missing == []
              && Lookup(actual.annotations, CAPS) != Lookup(desired.annotations, CAPS);
    d := Drift(extra, missing, stale);
    assert extra == [] ==> forall a :: a !in extra;
    assert missing == [] ==> forall a :: a !in missing;
    if extra != [] { assert extra[0] in extra; }
    if missing != [] { assert missing[0] in missing; }
  }

  method Overlay<K, V>(base: map<K, V>, top: map<K, V>) returns (m: map<K, V>)
    ensures m == base + top
  {
    m := base;
    var left := top.Keys;
    while left != {}
      invariant left <= top.Keys
      invariant forall k :: k in m <==> k in base || (k in top && k !in left)
      invariant forall k :: k in m ==> m[k] == if k in top && k !in left then top[k] else base[k]
      decreases |left|
    {
      var k :| k in left;
      m := m[k := top[k]];
      left := left - {k};
    }
  }

  /** The keys of top with top's values, and every other key just as base has it. */
  ghost predicate Laid(base: Meta, top: Meta, m: Meta) {
    && (forall k :: k in m <==> k in base || k in top)
    && (forall k :: k in m ==> m[k] == if k in top then top[k] else base[k])
  }

  method Synced(actual: Role, desired: Role) returns (r: Role)
    ensures r == SyncedRole(actual, desired)
    ensures r.name == actual.name && r.version == actual.version && r.rules == desired.rules
    ensures Laid(actual.labels, desired.labels, r.labels)
    ensures Laid(actual.annotations, desired.annotations, r.annotations)
  {
    var labels := Overlay(actual.labels, desired.labels);
    var annotations := Overlay(actual.annotations, desired.annotations);
    r := actual.(rules := desired.rules, labels := labels, annotations := annotations);
  }

  // ---- the stored capability list ----

  /** The stored list reads back as it was written exactly when no key has a comma and it is not a single
      empty key. */
  lemma CsvRoundTripIff(keys: seq<string>)
    ensures SplitCsv(JoinCsv(keys)) == keys <==> (forall k :: k in keys ==> ',' !in k) && keys != [""]
  {
    if keys != [] {
      if forall k :: k in keys ==> ',' !in k { SplitOfJoin(keys, ','); }
      if SplitCsv(JoinCsv(keys)) == keys {
        forall k | k in keys ensures ',' !in k {
          var i :| 0 <= i < |keys| && keys[i] == k;
          SplitParts(JoinCsv(keys), ',', i);
        }
      }
    }
  }

  predicate NoEmptyKey(caps: seq<Capability>) {
    forall i :: 0 <= i < |caps| ==> caps[i].key != ""
  }

  predicate DistinctKeys(caps: seq<Capability>) {
    forall i, j :: 0 <= i < j < |caps| ==> caps[i].key != caps[j].key
  }

  lemma {:induction false} ValidCapsMembers(caps: seq<Capability>, keys: seq<string>, k: string)
    ensures k in ValidCaps(caps, keys) <==> k in keys && exists i :: 0 <= i < |caps| && caps[i].key == k
  {
    if caps != [] {
      ValidCapsMembers(caps[1..], keys, k);
      if i :| 0 <= i < |caps[1..]| && caps[1..][i].key == k { assert caps[i + 1].key == k; }
      if i :| 0 <= i < |caps| && caps[i].key == k { assert i > 0 ==> caps[1..][i - 1].key == k; }
    }
  }

  lemma {:induction false} ValidCapsSameKeys(caps: seq<Capability>, left: seq<string>, right: seq<string>)
    requires forall i :: 0 <= i < |caps| ==> (caps[i].key in left <==> caps[i].key in right)
    ensures ValidCaps(caps, left) == ValidCaps(caps, right)
  {
    if caps != [] {
      assert caps[0].key in left <==> caps[0].key in right;
      forall i | 0 <= i < |caps[1..]| ensures caps[1..][i].key in left <==> caps[1..][i].key in right {
        assert caps[1..][i] == caps[i + 1];
      }
      ValidCapsSameKeys(caps[1..], left, right);
    }
  }

  /** The canonical list is canonical: choosing the valid keys again changes nothing. */
  lemma ValidCapsIdempotent(caps: seq<Capability>, keys: seq<string>)
    ensures ValidCaps(caps, ValidCaps(caps, keys)) == ValidCaps(caps, keys)
  {
    forall i | 0 <= i < |caps| ensures caps[i].key in ValidCaps(caps, keys) <==> caps[i].key in keys {
      ValidCapsMembers(caps, keys, caps[i].key);
    }
    ValidCapsSameKeys(caps, ValidCaps(caps, keys), keys);
  }

  /** What is chosen from a stored list is stored and read back unchanged, even if the catalog has a key with
      a comma: a stored list never yields one. */
  lemma StoredListSurvives(caps: seq<Capability>, list: string)
    requires NoEmptyKey(caps)
    ensures var valid := ValidCaps(caps, SplitCsv(list)); SplitCsv(JoinCsv(valid)) == valid
  {
    var keys := SplitCsv(list);
    var valid := ValidCaps(caps, keys);
    forall k | k in valid ensures ',' !in k && k != "" {
      ValidCapsMembers(caps, keys, k);
      var i :| 0 <= i < |keys| && keys[i] == k;
      SplitParts(list, ',', i);
    }
    CsvRoundTripIff(valid);
  }

  // ---- syncing is a fixpoint ----

  lemma DesiredOfSynced(c: Catalog, r: Role)
    requires NoEmptyKey(c.capabilities)
    ensures DesiredRole(c, SyncedRole(r, DesiredRole(c, r))) == DesiredRole(c, r)
  {
    var keys := SplitCsv(Lookup(r.annotations, CAPS));
    StoredListSurvives(c.capabilities, Lookup(r.annotations, CAPS));
    ValidCapsIdempotent(c.capabilities, keys);
    if FindPredefined(c.predefined, r.name).None? {
      var synced := SyncedRole(r, DesiredRole(c, r));
      assert Lookup(synced.annotations, DISPLAY) == Lookup(r.annotations, DISPLAY);
      assert SplitCsv(Lookup(synced.annotations, CAPS)) == ValidCaps(c.capabilities, keys);
    }
  }

  /** For every role: once synced, its desired role is what it was synced to, it has no drift, it is a
      KubeSwift role, and syncing it again changes nothing. */
  lemma SyncIsFixpoint(c: Catalog, r: Role)
    requires NoEmptyKey(c.capabilities)
    ensures var desired := DesiredRole(c, r);
            var synced := SyncedRole(r, desired);
            && DesiredRole(c, synced) == desired
            && NoDrift(synced, DesiredRole(c, synced))
            && IsKubeSwiftRole(synced)
            && SyncedRole(synced, DesiredRole(c, synced)) == synced
  {
    DesiredOfSynced(c, r);
    var desired := DesiredRole(c, r);
    assert r.labels + desired.labels + desired.labels == r.labels + desired.labels;
    assert r.annotations + desired.annotations + desired.annotations == r.annotations + desired.annotations;
  }

  // ---- what a role grants ----

  /** The capabilities a role stands for. */
  function KeysOf(c: Catalog, r: Role): seq<string> {
    var p := FindPredefined(c.predefined, r.name);
    if p.Some? then p.value.caps else SplitCsv(Lookup(r.annotations, CAPS))
  }

  ghost predicate Granted(caps: seq<Capability>, keys: seq<string>, q: Request) {
    exists i :: 0 <= i < |caps| && caps[i].key in keys && RulesAllow(caps[i].rules, q)
  }

  lemma RulesAllowConcat(a: seq<Rule>, b: seq<Rule>, q: Request)
    ensures RulesAllow(a + b, q) <==> RulesAllow(a, q) || RulesAllow(b, q)
  {
    if i :| 0 <= i < |a| && RuleAllows(a[i], q) { assert (a + b)[i] == a[i]; }
    if i :| 0 <= i < |b| && RuleAllows(b[i], q) { assert (a + b)[|a| + i] == b[i]; }
  }

  lemma {:induction false} RulesOfKeysAllow(caps: seq<Capability>, keys: seq<string>, q: Request)
    ensures RulesAllow(RulesOfKeys(caps, keys), q) <==>
              exists j :: 0 <= j < |keys| && RulesAllow(RulesByKey(caps, keys[j]), q)
  {
    if keys != [] {
      RulesOfKeysAllow(caps, keys[1..], q);
      RulesAllowConcat(RulesByKey(caps, keys[0]), RulesOfKeys(caps, keys[1..]), q);
      if j :| 0 <= j < |keys[1..]| && RulesAllow(RulesByKey(caps, keys[1..][j]), q) {
        assert keys[j + 1] == keys[1..][j];
      }
      if j :| 0 <= j < |keys| && RulesAllow(RulesByKey(caps, keys[j]), q) {
        assert j > 0 ==> keys[1..][j - 1] == keys[j];
      }
    }
  }

  lemma {:induction false} RulesByKeyIs(caps: seq<Capability>, i: nat)
    requires DistinctKeys(caps) && i < |caps|
    ensures RulesByKey(caps, caps[i].key) == caps[i].rules
  {
    if i > 0 {
      assert caps[1..][i - 1] == caps[i];
      RulesByKeyIs(caps[1..], i - 1);
    }
  }

  /** A composition allows exactly what one of its listed capabilities allows; unknown keys add nothing. */
  lemma CompositionGrants(caps: seq<Capability>, keys: seq<string>, q: Request)
    requires DistinctKeys(caps)
    ensures RulesAllow(RulesFor(caps, keys), q) <==> Granted(caps, keys, q)
  {
    var valid := ValidCaps(caps, keys);
    RulesOfKeysAllow(caps, valid, q);
    if RulesAllow(RulesFor(caps, keys), q) {
      var j :| 0 <= j < |valid| && RulesAllow(RulesByKey(caps, valid[j]), q);
      ValidCapsMembers(caps, keys, valid[j]);
      var i :| 0 <= i < |caps| && caps[i].key == valid[j];
      RulesByKeyIs(caps, i);
      assert caps[i].key in keys && RulesAllow(caps[i].rules, q);
    }
    if Granted(caps, keys, q) {
      var i :| 0 <= i < |caps| && caps[i].key in keys && RulesAllow(caps[i].rules, q);
      ValidCapsMembers(caps, keys, caps[i].key);
      RulesByKeyIs(caps, i);
      var j :| 0 <= j < |valid| && valid[j] == caps[i].key;
      assert RulesAllow(RulesByKey(caps, valid[j]), q);
    }
  }

  ghost predicate PlainCatalog(caps: seq<Capability>) {
    forall i :: 0 <= i < |caps| ==> AllPlain(caps[i].rules)
  }

  lemma {:induction false} RulesByKeyPlain(caps: seq<Capability>, key: string)
    requires PlainCatalog(caps)
    ensures AllPlain(RulesByKey(caps, key))
  {
    if caps != [] {
      assert AllPlain(caps[0].rules);
      forall i | 0 <= i < |caps[1..]| ensures AllPlain(caps[1..][i].rules) { assert caps[1..][i] == caps[i + 1]; }
      RulesByKeyPlain(caps[1..], key);
    }
  }

  lemma {:induction false} RulesOfKeysPlain(caps: seq<Capability>, keys: seq<string>)
    requires PlainCatalog(caps)
    ensures AllPlain(RulesOfKeys(caps, keys))
  {
    if keys != [] {
      RulesByKeyPlain(caps, keys[0]);
      RulesOfKeysPlain(caps, keys[1..]);
    }
  }

  /** A role without drift allows exactly what its capabilities allow in this release, whatever form its
      rules have, if and only if it names no URL. */
  lemma NoDriftGrantsCapabilities(c: Catalog, r: Role)
    requires DistinctKeys(c.capabilities) && PlainCatalog(c.capabilities)
    requires NoEmptyNames(r.rules) && NoDrift(r, DesiredRole(c, r))
    ensures (forall q :: RulesAllow(r.rules, q) <==> Granted(c.capabilities, KeysOf(c, r), q)) <==> NoUrls(r.rules)
  {
    var keys := KeysOf(c, r);
    var rules := RulesFor(c.capabilities, keys);
    DesiredRules(c, r);
    PlainRulesDecideIff(r.rules, rules);
    forall q ensures RulesAllow(rules, q) <==> Granted(c.capabilities, keys, q) {
      CompositionGrants(c.capabilities, keys, q);
    }
  }

  lemma DesiredRules(c: Catalog, r: Role)
    requires PlainCatalog(c.capabilities)
    ensures DesiredRole(c, r).rules == RulesFor(c.capabilities, KeysOf(c, r))
    ensures AllPlain(RulesFor(c.capabilities, KeysOf(c, r)))
  {
    ValidCapsIdempotent(c.capabilities, KeysOf(c, r));
    RulesOfKeysPlain(c.capabilities, ValidCaps(c.capabilities, KeysOf(c, r)));
  }

  /** Kubernetes' convention for URLs is enough: a role that keeps to it cannot name one without drift. */
  lemma ConventionalRoleGrants(c: Catalog, r: Role, q: Request)
    requires DistinctKeys(c.capabilities) && PlainCatalog(c.capabilities)
    requires AllConventional(r.rules) && NoDrift(r, DesiredRole(c, r))
    ensures RulesAllow(r.rules, q) <==> Granted(c.capabilities, KeysOf(c, r), q)
  {
    DesiredRules(c, r);
    ConventionalHasNoUrls(r.rules, RulesFor(c.capabilities, KeysOf(c, r)));
    NoDriftGrantsCapabilities(c, r);
  }

  /** A URL can hide in a role without drift: spelled like a core resource the role grants, it adds no permission
      to the expansion, and allows a request the capabilities do not. */
  lemma HiddenUrl(r: Role, desired: Role, verb: string, p: string)
    requires NoDrift(r, desired) && AllPlain(desired.rules) && AtomOf(r.rules, Atom(verb, "", p, ""))
    ensures var grown := r.(rules := r.rules + [Rule([verb], [], [], [], [p])]);
            && NoDrift(grown, desired) && RulesAllow(grown.rules, UrlRequest(verb, p))
            && !RulesAllow(desired.rules, UrlRequest(verb, p))
  {
    var url := Rule([verb], [], [], [], [p]);
    var rules := r.rules + [url];
    forall a ensures AtomOf(rules, a) <==> AtomOf(r.rules, a) {
      AtomOfStep(rules, |r.rules|, a);
      assert rules[..|r.rules|] == r.rules && rules[..|r.rules| + 1] == rules;
    }
    assert verb in url.verbs && p in url.urls && UrlMatches(p, p);
    assert RuleAllows(rules[|r.rules|], UrlRequest(verb, p));
  }

  // ---- the cluster's roles ----

  class RoleStore {
    var roles: map<string, Role>
    /** How many writes were asked of the cluster. */
    var writes: nat
    /** The user may write every role, nobody else writes and no request fails. */
    const permitted: bool

    constructor (permitted: bool)
      ensures roles == map[] && writes == 0 && this.permitted == permitted
    {
      roles, writes, this.permitted := map[], 0, permitted;
    }

    /** The role is bindable and grants what its capabilities grant in this release. */
    ghost predicate UpToDate(c: Catalog, name: string)
      reads this
    {
      && name in roles && roles[name].name == name
      && IsKubeSwiftRole(roles[name]) && NoDrift(roles[name], DesiredRole(c, roles[name]))
    }

    /** Replaces a role, or refuses: the user lacks a rule it grants, or it has changed meanwhile. A request may
        also fail after it was applied. */
    method Update(r: Role) returns (ok: bool)
      modifies this
      ensures writes == old(writes) + 1
      ensures roles == old(roles)[r.name := r.(version := r.version + 1)] || (!ok && roles == old(roles))
      ensures permitted ==> ok
    {
      writes := writes + 1;
      ok :| permitted ==> ok;
      var applied: bool :| ok ==> applied;
      if applied { roles := roles[r.name := r.(version := r.version + 1)]; }
    }

    /** Creates a role. Another client may have created it first, in any form, since it was read. */
    method Create(r: Role) returns (ok: bool, taken: bool)
      requires r.name !in roles
      modifies this
      ensures writes == old(writes) + 1
      ensures ok ==> !taken && roles == old(roles)[r.name := r]
      ensures !ok && !taken ==> roles == old(roles) || roles == old(roles)[r.name := r]
      ensures taken ==> r.name in roles && roles - {r.name} == old(roles)
      ensures permitted ==> ok
    {
      writes := writes + 1;
      ok :| permitted ==> ok;
      taken :| ok ==> !taken;
      var applied: bool :| ok ==> applied;
      if applied && !taken {
        roles := roles[r.name := r];
      } else if taken {
        var other: Role :| other.name == r.name;
        roles := roles[r.name := other];
        assert roles - {r.name} == old(roles);
      }
    }

    /** Brings a role that was read up to date. Whatever the answer, it is as it was or up to date. */
    method Refresh(c: Catalog, name: string) returns (ok: bool)
      requires NoEmptyKey(c.capabilities)
      requires name in roles && roles[name].name == name && IsKubeSwiftRole(roles[name])
      modifies this
      ensures ok ==> UpToDate(c, name)
      ensures old(UpToDate(c, name)) ==> ok && roles == old(roles) && writes == old(writes)
      ensures !old(UpToDate(c, name)) ==> writes == old(writes) + 1
      ensures roles != old(roles) ==>
                UpToDate(c, name) && roles[name].(version := 0) ==
                SyncedRole(old(roles)[name], DesiredRole(c, old(roles)[name])).(version := 0)
      ensures roles != old(roles) ==>
                ShowsName(c, old(roles)[name], roles[name]) && Recomposed(c, old(roles)[name], roles[name])
      ensures KeepsMetadata(old(roles)[name], roles[name])
      ensures permitted ==> ok
      ensures roles.Keys == old(roles).Keys && forall n :: n in roles && n != name ==> roles[n] == old(roles)[n]
    {
      var role := roles[name];
      var desired := DesiredRole(c, role);
      var drift := RoleDrift(role, desired);
      if Empty(drift) { return true; }
      var synced := Synced(role, desired);
      ok := Update(synced);
      SyncIsFixpoint(c, role);
      SyncKeepsTheRest(c, role);
      assert roles != old(roles) ==> DesiredRole(c, roles[name]) == DesiredRole(c, synced);
    }

    /** ensureRole. A second call on a role this one made or found up to date writes nothing. */
    method EnsureRole(c: Catalog, name: string) returns (ok: bool, ghost raced: bool)
      requires NoEmptyKey(c.capabilities) && forall n :: n in roles ==> roles[n].name == n
      modifies this
      ensures ok && !raced ==> UpToDate(c, name)
      ensures raced ==> name !in old(roles) && name in roles
      ensures old(UpToDate(c, name)) ==> writes == old(writes) && roles == old(roles)
      ensures name in old(roles) && !IsKubeSwiftRole(old(roles)[name]) ==>
                !ok && roles == old(roles) && writes == old(writes)
      ensures name !in old(roles) && FindPredefined(c.predefined, name).None? ==>
                !ok && roles == old(roles) && writes == old(writes)
      ensures permitted ==> !raced
      ensures permitted && name in old(roles) && IsKubeSwiftRole(old(roles)[name]) ==> ok
      ensures permitted && name !in old(roles) && FindPredefined(c.predefined, name).Some? ==> ok
      ensures name in old(roles) ==> name in roles && KeepsMetadata(old(roles)[name], roles[name])
      ensures forall n :: n != name ==> (n in roles <==> n in old(roles)) && (n in roles ==> roles[n] == old(roles)[n])
    {
      raced := false;
      var reached: bool :| permitted ==> reached;
      if !reached { return false, raced; }
      if name in roles {
        if !IsKubeSwiftRole(roles[name]) { return false, raced; }
        ok := Refresh(c, name);
        return;
      }
      var p := FindPredefined(c.predefined, name);
      if p.None? { return false, raced; }
      var role := RoleFor(c, p.value.name, p.value.displayName, p.value.caps, true);
      var taken;
      ok, taken := Create(role);
      raced := taken;
      ok := ok || taken;
    }

    /** SyncRole. */
    method SyncRole(c: Catalog, name: string) returns (ok: bool)
      requires NoEmptyKey(c.capabilities) && forall n :: n in roles ==> roles[n].name == n
      modifies this
      ensures ok ==> UpToDate(c, name)
      ensures old(UpToDate(c, name)) ==> writes == old(writes) && roles == old(roles)
      ensures name !in old(roles) || !IsKubeSwiftRole(old(roles)[name]) ==>
                !ok && roles == old(roles) && writes == old(writes)
      ensures permitted && name in old(roles) && IsKubeSwiftRole(old(roles)[name]) ==> ok
      ensures name in old(roles) ==> name in roles && KeepsMetadata(old(roles)[name], roles[name])
      ensures roles.Keys == old(roles).Keys && forall n :: n in roles && n != name ==> roles[n] == old(roles)[n]
    {
      var reached: bool :| permitted ==> reached;
      if !reached || name !in roles || !IsKubeSwiftRole(roles[name]) { return false; }
      ok := Refresh(c, name);
    }
  }
}
