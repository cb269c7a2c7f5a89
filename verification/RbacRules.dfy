/** RBAC rules, the requests they allow, and their expansion into single permissions:
    internal/gateway/access_drift.go, with the matching rules of Kubernetes' RBAC authorizer. */
module RbacRules {

  datatype Rule = Rule(verbs: seq<string>, groups: seq<string>, resources: seq<string>,
                       names: seq<string>, urls: seq<string>)

  /** name is empty for requests that name no object, such as list and create. */
  datatype Request =
    | ResourceRequest(verb: string, group: string, resource: string, subresource: string, name: string)
    | UrlRequest(verb: string, path: string)

  predicate Matches(pattern: string, value: string) {
    pattern == "*" || pattern == value
  }

  /** A pattern is "*", a resource with its subresource, or a subresource of any resource. */
  predicate ResourceMatches(pattern: string, resource: string, subresource: string) {
    || pattern == "*"
    || pattern == (if subresource == "" then resource else resource + "/" + subresource)
    || (subresource != "" && pattern == "*/" + subresource)
  }

  function TrimStars(s: string): string {
    if s != "" && s[|s| - 1] == '*' then TrimStars(s[..|s| - 1]) else s
  }

  predicate UrlMatches(pattern: string, path: string) {
    || pattern == "*" || pattern == path
    || (pattern != "" && pattern[|pattern| - 1] == '*' && TrimStars(pattern) <= path)
  }

  predicate RuleAllows(r: Rule, q: Request) {
    && (exists v :: v in r.verbs && Matches(v, q.verb))
    && match q {
         case ResourceRequest(_, group, resource, subresource, name) =>
           && (exists g :: g in r.groups && Matches(g, group))
           && (exists p :: p in r.resources && ResourceMatches(p, resource, subresource))
           && (r.names == [] || name in r.names)
         case UrlRequest(_, path) =>
           exists u :: u in r.urls && UrlMatches(u, path)
       }
  }

  predicate RulesAllow(rules: seq<Rule>, q: Request) {
    exists i :: 0 <= i < |rules| && RuleAllows(rules[i], q)
  }

  /** One permission: a verb on a resource, or on a non-resource URL. */
  datatype Atom = Atom(verb: string, group: string, resource: string, name: string)

  function NamesOf(r: Rule): seq<string> {
    if r.names == [] then [""] else r.names
  }

  predicate ResourceAtomOf(r: Rule, a: Atom) {
    a.verb in r.verbs && a.group in r.groups && a.resource in r.resources && a.name in NamesOf(r)
  }

  predicate UrlAtomOf(r: Rule, a: Atom) {
    a.verb in r.verbs && a.group == "" && a.resource in r.urls && a.name == ""
  }

  predicate AtomOf(rules: seq<Rule>, a: Atom) {
    exists i :: 0 <= i < |rules| && (ResourceAtomOf(rules[i], a) || UrlAtomOf(rules[i], a))
  }

  method NameAtoms(v: string, g: string, p: string, names: seq<string>) returns (out: set<Atom>)
    ensures forall a :: a in out <==> a.verb == v && a.group == g && a.resource == p && a.name in names
  {
    out := {};
    for i := 0 to |names|
      invariant forall a :: a in out <==> a.verb == v && a.group == g && a.resource == p && a.name in names[..i]
    {
      out := out + {Atom(v, g, p, names[i])};
    }
  }

  method ResourceAtoms(v: string, g: string, resources: seq<string>, names: seq<string>) returns (out: set<Atom>)
    ensures forall a :: a in out <==> a.verb == v && a.group == g && a.resource in resources && a.name in names
  {
    out := {};
    for i := 0 to |resources|
      invariant forall a :: a in out <==>
                  a.verb == v && a.group == g && a.resource in resources[..i] && a.name in names
    {
      var more := NameAtoms(v, g, resources[i], names);
      out := out + more;
    }
  }

  method GroupAtoms(v: string, groups: seq<string>, resources: seq<string>, names: seq<string>)
    returns (out: set<Atom>)
    ensures forall a :: a in out <==> a.verb == v && a.group in groups && a.resource in resources && a.name in names
  {
    out := {};
    for i := 0 to |groups|
      invariant forall a :: a in out <==>
                  a.verb == v && a.group in groups[..i] && a.resource in resources && a.name in names
    {
      var more := ResourceAtoms(v, groups[i], resources, names);
      out := out + more;
    }
  }

  method UrlAtoms(v: string, urls: seq<string>) returns (out: set<Atom>)
    ensures forall a :: a in out <==> a.verb == v && a.group == "" && a.resource in urls && a.name == ""
  {
    out := {};
    for i := 0 to |urls|
      invariant forall a :: a in out <==> a.verb == v && a.group == "" && a.resource in urls[..i] && a.name == ""
    {
      out := out + {Atom(v, "", urls[i], "")};
    }
  }

  method OneRuleAtoms(r: Rule) returns (out: set<Atom>)
    ensures forall a :: a in out <==> ResourceAtomOf(r, a) || UrlAtomOf(r, a)
  {
    out := {};
    for i := 0 to |r.verbs|
      invariant forall a :: a in out <==>
                  a.verb in r.verbs[..i] && (ResourceAtomOf(r, a) || UrlAtomOf(r, a))
    {
      var more := GroupAtoms(r.verbs[i], r.groups, r.resources, NamesOf(r));
      var urls := UrlAtoms(r.verbs[i], r.urls);
      out := out + more + urls;
    }
  }

  /** ruleAtoms. */
  method RuleAtoms(rules: seq<Rule>) returns (out: set<Atom>)
    ensures forall a :: a in out <==> AtomOf(rules, a)
  {
    out := {};
    for i := 0 to |rules|
      invariant forall a :: a in out <==> AtomOf(rules[..i], a)
    {
      var more := OneRuleAtoms(rules[i]);
      forall a ensures AtomOf(rules[..i + 1], a) <==> AtomOf(rules[..i], a) || a in more {
        AtomOfStep(rules, i, a);
      }
      out := out + more;
    }
    assert rules[..|rules|] == rules;
  }

  lemma AtomOfStep(rules: seq<Rule>, i: nat, a: Atom)
    requires i < |rules|
    ensures AtomOf(rules[..i + 1], a) <==>
              AtomOf(rules[..i], a) || ResourceAtomOf(rules[i], a) || UrlAtomOf(rules[i], a)
  {
    var short, long := rules[..i], rules[..i + 1];
    assert long[i] == rules[i];
    if AtomOf(short, a) {
      var k :| 0 <= k < i && (ResourceAtomOf(short[k], a) || UrlAtomOf(short[k], a));
      assert long[k] == short[k];
    }
    if AtomOf(long, a) {
      var k :| 0 <= k <= i && (ResourceAtomOf(long[k], a) || UrlAtomOf(long[k], a));
      assert k < i ==> short[k] == long[k];
    }
  }

  /** minus: the permissions of a that b lacks, in any order and each once. */
  method Minus(a: set<Atom>, b: set<Atom>) returns (out: seq<Atom>)
    ensures forall x :: x in out <==> x in a && x !in b
    ensures |out| == |a - b|
  {
    out := [];
    var left := a;
    while left != {}
      invariant left <= a
      invariant forall x :: x in out <==> x in a && x !in left && x !in b
      invariant |out| + |left - b| == |a - b|
      decreases |left|
    {
      var x :| x in left;
      if x !in b {
        out := out + [x];
        assert left - {x} - b == left - b - {x};
      } else {
        assert left - {x} - b == left - b;
      }
      left := left - {x};
    }
    assert left - b == {};
  }

  /** An atom that could stand for a non-resource URL: unnamed, in the core group. */
  predicate UrlShaped(a: Atom, urls: set<string>) {
    a.group == "" && a.name == "" && a.resource in urls
  }

  /** What one permission allows, read with the knowledge of which strings are URLs. */
  predicate AtomAllows(a: Atom, urls: set<string>, q: Request) {
    && Matches(a.verb, q.verb)
    && match q {
         case ResourceRequest(_, group, resource, subresource, name) =>
           && !UrlShaped(a, urls)
           && Matches(a.group, group)
           && ResourceMatches(a.resource, resource, subresource)
           && (a.name == "" || a.name == name)
         case UrlRequest(_, path) =>
           UrlShaped(a, urls) && UrlMatches(a.resource, path)
       }
  }

  /** The rule's URLs are known ones, no resource it grants is spelled like one, and no name is empty; a rule
      without verbs grants nothing. */
  predicate Separate(r: Rule, urls: set<string>) {
    r.verbs == [] ||
    (&& (forall u :: u in r.urls ==> u in urls)
     && ("" in r.groups && r.names == [] ==> forall p :: p in r.resources ==> p !in urls)
     && "" !in r.names)
  }

  predicate AllSeparate(rules: seq<Rule>, urls: set<string>) {
    forall i :: 0 <= i < |rules| ==> Separate(rules[i], urls)
  }

  lemma RuleGrantsAtom(r: Rule, urls: set<string>, q: Request) returns (a: Atom)
    requires Separate(r, urls) && RuleAllows(r, q)
    ensures (ResourceAtomOf(r, a) || UrlAtomOf(r, a)) && AtomAllows(a, urls, q)
  {
    var v :| v in r.verbs && Matches(v, q.verb);
    match q {
      case ResourceRequest(_, group, resource, subresource, name) =>
        var g :| g in r.groups && Matches(g, group);
        var p :| p in r.resources && ResourceMatches(p, resource, subresource);
        a := Atom(v, g, p, if r.names == [] then "" else name);
      case UrlRequest(_, path) =>
        var u :| u in r.urls && UrlMatches(u, path);
        a := Atom(v, "", u, "");
    }
  }

  lemma AtomGrantsRule(r: Rule, urls: set<string>, q: Request, a: Atom)
    requires Separate(r, urls)
    requires (ResourceAtomOf(r, a) || UrlAtomOf(r, a)) && AtomAllows(a, urls, q)
    ensures RuleAllows(r, q)
  {
    if ResourceAtomOf(r, a) {
      assert !UrlShaped(a, urls);
    }
  }

  /** Expanding rules into permissions preserves every decision. */
  lemma AtomsDecide(rules: seq<Rule>, urls: set<string>, q: Request)
    requires AllSeparate(rules, urls)
    ensures RulesAllow(rules, q) <==> exists a :: AtomOf(rules, a) && AtomAllows(a, urls, q)
  {
    if RulesAllow(rules, q) {
      var i :| 0 <= i < |rules| && RuleAllows(rules[i], q);
      var a := RuleGrantsAtom(rules[i], urls, q);
      assert AtomOf(rules, a) && AtomAllows(a, urls, q);
    }
    if a :| AtomOf(rules, a) && AtomAllows(a, urls, q) {
      var i :| 0 <= i < |rules| && (ResourceAtomOf(rules[i], a) || UrlAtomOf(rules[i], a));
      AtomGrantsRule(rules[i], urls, q, a);
    }
  }

  /** Rule lists with the same permissions allow the same requests. */
  lemma SameAtomsSameDecisions(left: seq<Rule>, right: seq<Rule>, urls: set<string>)
    requires AllSeparate(left, urls) && AllSeparate(right, urls)
    requires forall a :: AtomOf(left, a) <==> AtomOf(right, a)
    ensures forall q :: RulesAllow(left, q) <==> RulesAllow(right, q)
  {
    forall q ensures RulesAllow(left, q) <==> RulesAllow(right, q) {
      AtomsDecide(left, urls, q);
      AtomsDecide(right, urls, q);
    }
  }

  /** Kubernetes' convention: URLs are paths or "*", and names are not empty. */
  predicate Conventional(r: Rule) {
    (forall u :: u in r.urls ==> u == "*" || "/" <= u) && "" !in r.names
  }

  /** A rule for all objects of resources that could not be taken for URLs. */
  predicate PlainRule(r: Rule) {
    r.urls == [] && r.names == [] && forall p :: p in r.resources ==> p != "*" && !("/" <= p)
  }

  ghost predicate AllConventional(rules: seq<Rule>) {
    forall i :: 0 <= i < |rules| ==> Conventional(rules[i])
  }

  ghost predicate AllPlain(rules: seq<Rule>) {
    forall i :: 0 <= i < |rules| ==> PlainRule(rules[i])
  }

  predicate NoEmptyNames(rules: seq<Rule>) {
    forall i :: 0 <= i < |rules| ==> "" !in rules[i].names
  }

  /** No rule that grants anything names a URL. */
  predicate NoUrls(rules: seq<Rule>) {
    forall i :: 0 <= i < |rules| ==> rules[i].verbs == [] || rules[i].urls == []
  }

  /** Rules with the permissions of plain ones allow the same requests if and only if they name no URL. */
  lemma PlainRulesDecideIff(rules: seq<Rule>, plain: seq<Rule>)
    requires NoEmptyNames(rules) && AllPlain(plain)
    requires forall a :: AtomOf(rules, a) <==> AtomOf(plain, a)
    ensures (forall q :: RulesAllow(rules, q) <==> RulesAllow(plain, q)) <==> NoUrls(rules)
  {
    if NoUrls(rules) { SameAtomsSameDecisions(rules, plain, {}); }
    forall i | 0 <= i < |rules| && rules[i].verbs != [] && rules[i].urls != []
      ensures exists q :: RulesAllow(rules, q) && !RulesAllow(plain, q)
    {
      var q := UrlRequest(rules[i].verbs[0], rules[i].urls[0]);
      assert q.verb in rules[i].verbs && q.path in rules[i].urls && UrlMatches(q.path, q.path);
      assert RuleAllows(rules[i], q);
      assert RulesAllow(rules, q) && !RulesAllow(plain, q);
    }
  }

  lemma PlainLacksUrl(plain: seq<Rule>, verb: string, u: string)
    requires AllPlain(plain) && (u == "*" || "/" <= u)
    ensures !AtomOf(plain, Atom(verb, "", u, ""))
  {
  }

  /** With a conventional URL a rule would have a permission no plain rule has. */
  lemma ConventionalHasNoUrls(rules: seq<Rule>, plain: seq<Rule>)
    requires AllConventional(rules) && AllPlain(plain)
    requires forall a :: AtomOf(rules, a) <==> AtomOf(plain, a)
    ensures NoUrls(rules)
  {
    forall i, u | 0 <= i < |rules| && rules[i].verbs != [] && u in rules[i].urls
      ensures AtomOf(rules, Atom(rules[i].verbs[0], "", u, "")) && (u == "*" || "/" <= u)
    {
      assert UrlAtomOf(rules[i], Atom(rules[i].verbs[0], "", u, ""));
    }
    forall i | 0 <= i < |rules| && rules[i].verbs != [] ensures rules[i].urls == [] {
      if rules[i].urls != [] {
        assert rules[i].urls[0] in rules[i].urls;
        PlainLacksUrl(plain, rules[i].verbs[0], rules[i].urls[0]);
      }
    }
  }

  /** Conventional rules with the permissions of plain ones allow the same requests. */
  lemma PlainRulesDecide(rules: seq<Rule>, plain: seq<Rule>)
    requires AllConventional(rules) && AllPlain(plain)
    requires forall a :: AtomOf(rules, a) <==> AtomOf(plain, a)
    ensures forall q :: RulesAllow(rules, q) <==> RulesAllow(plain, q)
  {
    ConventionalHasNoUrls(rules, plain);
    PlainRulesDecideIff(rules, plain);
  }

  /** Outside the convention the expansion confuses a URL with a core resource, whatever the string: the two
      rules have the same permissions, and only the second allows anything on the resource. */
  lemma UrlLooksLikeResource(verb: string, x: string)
    ensures var asUrl := [Rule([verb], [], [], [], [x])];
            var asResource := [Rule([verb], [""], [x], [], [])];
            var q := ResourceRequest(verb, "", x, "", "");
            && (forall a :: AtomOf(asUrl, a) <==> AtomOf(asResource, a))
            && RulesAllow(asResource, q) && !RulesAllow(asUrl, q)
  {
    var r := Rule([verb], [""], [x], [], []);
    var u := Rule([verb], [], [], [], [x]);
    assert verb in r.verbs && "" in r.groups && x in r.resources;
    assert RuleAllows([r][0], ResourceRequest(verb, "", x, "", ""));
    forall a ensures AtomOf([u], a) <==> AtomOf([r], a) {
      assert AtomOf([u], a) <==> UrlAtomOf([u][0], a);
      assert AtomOf([r], a) <==> ResourceAtomOf([r][0], a);
    }
  }

  /** A rule for the empty name has the permissions of a rule for every name, and allows less. */
  lemma EmptyNameLooksLikeAny(verb: string, group: string, resource: string, name: string)
    requires name != ""
    ensures var onlyEmpty := [Rule([verb], [group], [resource], [""], [])];
            var anyName := [Rule([verb], [group], [resource], [], [])];
            var q := ResourceRequest(verb, group, resource, "", name);
            && (forall a :: AtomOf(onlyEmpty, a) <==> AtomOf(anyName, a))
            && RulesAllow(anyName, q) && !RulesAllow(onlyEmpty, q)
  {
    var e := Rule([verb], [group], [resource], [""], []);
    var n := Rule([verb], [group], [resource], [], []);
    assert verb in n.verbs && group in n.groups && resource in n.resources;
    assert RuleAllows([n][0], ResourceRequest(verb, group, resource, "", name));
    forall a ensures AtomOf([e], a) <==> AtomOf([n], a) {
      assert AtomOf([e], a) <==> ResourceAtomOf([e][0], a);
      assert AtomOf([n], a) <==> ResourceAtomOf([n][0], a);
    }
  }
}
