/**
 XAccessPolicy and its compilation to Envoy RBAC (pkg/translator/accesspolicy.go), with a
 meaning for the source side and the proof that compilation preserves it for every request.
 */
module AccessPolicies {
  import opened Options
  import opened EnvoyRbac
  import opened Spiffe

  // ---------------------------------------------------------------- The resource

  datatype SourceType = SpiffeSource | ServiceAccountSource | UnknownSource

  datatype ServiceAccount = ServiceAccount(namespace: string, name: string)

  datatype Source = Source(kind: SourceType, spiffe: Option<string>, serviceAccount: Option<ServiceAccount>)

  datatype Protocol = Grpc | Http | UnknownProtocol

  datatype BackendRef = BackendRef(kind: Option<string>, namespace: Option<string>, name: string, port: Option<nat>)

  /** `http` is the HTTP-specific part; `rest` stands for the settings that are only copied. */
  datatype ExternalAuth = ExternalAuth(protocol: Protocol, backend: BackendRef, http: Option<string>, rest: string)

  datatype AuthorizationType = InlineTools | External | UnknownAuthorization

  datatype Authorization = Authorization(kind: AuthorizationType, tools: seq<string>, external: Option<ExternalAuth>)

  datatype Rule = Rule(name: string, source: Source, authorization: Option<Authorization>)

  datatype TargetRef = TargetRef(group: string, kind: string, name: string)

  datatype AccessPolicy = AccessPolicy(namespace: string, name: string, targets: seq<TargetRef>, rules: seq<Rule>)

  /** The unique id of an external-auth configuration; None when it cannot be serialised. */
  type AuthId = ExternalAuth -> Option<string>

  // ---------------------------------------------------------------- Requests

  const METHOD := ":method"
  const SESSION_HEADER := "mcp-session-id"
  const MCP_FILTER := "mcp_proxy"
  const METHOD_SLOT := Slot(MCP_FILTER, ["method"])
  const TOOL_SLOT := Slot(MCP_FILTER, ["params", "name"])

  predicate HttpMethodIs(req: Request, m: string) { METHOD in req.headers && req.headers[METHOD] == m }

  predicate McpMethodIs(req: Request, m: string) {
    METHOD_SLOT in req.metadata && req.metadata[METHOD_SLOT] == m
  }

  predicate CallsTool(req: Request) { McpMethodIs(req, "tools/call") }

  predicate CallsOneOf(req: Request, tools: seq<string>) {
    CallsTool(req) && TOOL_SLOT in req.metadata && req.metadata[TOOL_SLOT] in tools
  }

  // ---------------------------------------------------------------- Meaning of a policy

  /** The identity a source stands for; empty when it names none. */
  function SourceId(trustDomain: string, policyNamespace: string, src: Source): string {
    match src.kind
    case SpiffeSource => src.spiffe.GetOr("")
    case ServiceAccountSource =>
      if src.serviceAccount.None? then ""
      else
        var sa := src.serviceAccount.value;
        PrincipalName(trustDomain, if sa.namespace == "" then policyNamespace else sa.namespace, sa.name)
    case UnknownSource => ""
  }

  /** A source that names no identity admits everybody. */
  predicate Admits(trustDomain: string, policyNamespace: string, src: Source, req: Request) {
    var id := SourceId(trustDomain, policyNamespace, src);
    id == "" || id in req.peer
  }

  predicate IsExternal(rule: Rule) {
    rule.authorization.Some? && rule.authorization.value.kind.External? && rule.authorization.value.external.Some?
  }

  /** What the rule lets its source do: the listed tools, or any tool subject to external auth. */
  predicate Grants(rule: Rule, req: Request) {
    match rule.authorization
    case None => false
    case Some(a) =>
      match a.kind
      case InlineTools => CallsOneOf(req, a.tools)
      case External => a.external.Some? && CallsTool(req)
      case UnknownAuthorization => false
  }

  predicate RuleAllows(trustDomain: string, ns: string, rule: Rule, req: Request) {
    Admits(trustDomain, ns, rule.source, req) && Grants(rule, req)
  }

  /** The session traffic that every policy leaves open. */
  predicate BuiltIn(req: Request) {
    || HttpMethodIs(req, "GET")
    || (HttpMethodIs(req, "DELETE") && SESSION_HEADER in req.headers)
    || McpMethodIs(req, "initialize")
    || McpMethodIs(req, "notifications/initialized")
    || McpMethodIs(req, "tools/list")
  }

  // ---------------------------------------------------------------- Which rules count

  const CLOSE_POLICY := "allow-mcp-session-close"
  const INIT_POLICY := "allow-anyone-to-initialize-and-list-tools"
  const GET_POLICY := "allow-http-get"

  predicate Reserved(name: string) { name == CLOSE_POLICY || name == INIT_POLICY || name == GET_POLICY }

  /** An external-auth rule without an id is dropped. */
  predicate Skipped(id: AuthId, rule: Rule) {
    IsExternal(rule) && id(rule.authorization.value.external.value).None?
  }

  predicate Guarded(id: AuthId, rule: Rule) { IsExternal(rule) && !Skipped(id, rule) }

  /** The enforced rules and the shadow rules: everything that is not skipped, and the guarded ones. */
  datatype Section = Enforced | Shadow

  predicate Written(id: AuthId, section: Section, rule: Rule) {
    match section
    case Enforced => !Skipped(id, rule)
    case Shadow => Guarded(id, rule)
  }

  /** Rule `i` is the last of the first `n` to be written under its name. */
  predicate LastOfName(id: AuthId, section: Section, rules: seq<Rule>, n: nat, i: nat)
    requires n <= |rules|
  {
    && i < n && Written(id, section, rules[i])
    && forall j :: i < j < n && rules[j].name == rules[i].name ==> !Written(id, section, rules[j])
  }

  /** The rule survives: no later rule and no built-in policy takes its name. */
  predicate Effective(id: AuthId, rules: seq<Rule>, i: nat) {
    LastOfName(id, Enforced, rules, |rules|, i) && !Reserved(rules[i].name)
  }

  // ---------------------------------------------------------------- Building blocks

  function ToolsCallPermission(): Permission { MetadataPermission(METHOD_SLOT, Exact("tools/call")) }

  function SessionClosePolicy(): Policy {
    Policy([AndIds([HeaderPrincipal(HeaderIs(METHOD, "DELETE")), HeaderPrincipal(HeaderPresent(SESSION_HEADER))])],
           [AnyPermission])
  }

  function InitializePolicy(): Policy {
    Policy([AnyPrincipal],
           [AndRules([MetadataPermission(METHOD_SLOT,
                        OneOf([Exact("initialize"), Exact("notifications/initialized"), Exact("tools/list")]))])])
  }

  function HttpGetPolicy(): Policy {
    Policy([AnyPrincipal], [HeaderPermission(HeaderIs(METHOD, "GET"))])
  }

  /** Together the three built-in policies open exactly the session traffic. */
  lemma BuiltInPolicies(req: Request)
    ensures PolicyMatches(SessionClosePolicy(), req) <==> HttpMethodIs(req, "DELETE") && SESSION_HEADER in req.headers
    ensures PolicyMatches(InitializePolicy(), req) <==>
              McpMethodIs(req, "initialize") || McpMethodIs(req, "notifications/initialized") || McpMethodIs(req,
                  "tools/list")
    ensures PolicyMatches(HttpGetPolicy(), req) <==> HttpMethodIs(req, "GET")
  {
    var close := SessionClosePolicy();
    var ids := close.principals[0].ids;
    assert Permits(close.permissions[0], req);
    assert Identifies(close.principals[0], req) <==> Identifies(ids[0], req) && Identifies(ids[1], req);
    var init := InitializePolicy();
    var ms := init.permissions[0].rules[0].value.values;
    assert Identifies(init.principals[0], req);
    if METHOD_SLOT in req.metadata {
      var v := req.metadata[METHOD_SLOT];
      assert ValueMatches(ms[0], v) <==> v == "initialize";
      assert ValueMatches(ms[1], v) <==> v == "notifications/initialized";
      assert ValueMatches(ms[2], v) <==> v == "tools/list";
      assert ValueMatches(OneOf(ms), v) <==> ValueMatches(ms[0], v) || ValueMatches(ms[1], v) || ValueMatches(ms[2], v);
    }
    assert Permits(init.permissions[0], req) <==> Permits(init.permissions[0].rules[0], req);
    var get := HttpGetPolicy();
    assert Identifies(get.principals[0], req);
    assert PolicyMatches(get, req) <==> Permits(get.permissions[0], req);
  }

  /** The permission for a list of tools: none for the empty list. */
  method TranslateInlineTools(tools: seq<string>) returns (p: Option<Permission>)
    ensures p.None? <==> tools == []
    ensures p.Some? ==> forall req :: Permits(p.value, req) <==> CallsOneOf(req, tools)
  {
    if tools == [] {
      return None;
    }
    var matchers: seq<ValueMatcher> := [];
    for i := 0 to |tools|
      invariant |matchers| == i
      invariant forall j :: 0 <= j < i ==> matchers[j] == Exact(tools[j])
    {
      matchers := matchers + [Exact(tools[i])];
    }
    var matcher := if |matchers| == 1 then matchers[0] else OneOf(matchers);
    var slots := [ToolsCallPermission(), MetadataPermission(TOOL_SLOT, matcher)];
    p := Some(AndRules(slots));
    forall v
      ensures ValueMatches(matcher, v) <==> v in tools
    {
      if v in tools {
        var j :| 0 <= j < |tools| && tools[j] == v;
        assert ValueMatches(matchers[j], v);
      }
    }
    forall req
      ensures Permits(p.value, req) <==> CallsOneOf(req, tools)
    {
      assert Permits(p.value, req) <==> Permits(slots[0], req) && Permits(slots[1], req);
    }
  }

  /** The compiled policy matches exactly the requests the rule allows. */
  ghost predicate Renders(trustDomain: string, ns: string, rule: Rule, p: Policy) {
    forall req :: PolicyMatches(p, req) <==> RuleAllows(trustDomain, ns, rule, req)
  }

  lemma OnePrincipalOnePermission(principal: Principal, permissions: seq<Permission>, req: Request)
    ensures PolicyMatches(Policy([principal], permissions), req) <==>
              Identifies(principal, req) && exists i :: 0 <= i < |permissions| && Permits(permissions[i], req)
  {
    assert Policy([principal], permissions).principals[0] == principal;
  }

  method TranslateRule(trustDomain: string, ns: string, rule: Rule) returns (p: Policy)
    ensures Renders(trustDomain, ns, rule, p)
  {
    var source := SourceId(trustDomain, ns, rule.source);
    var principal := if source != "" then Authenticated(source) else AnyPrincipal;
    var permissions: seq<Permission> := [];
    if rule.authorization.Some? {
      var a := rule.authorization.value;
      match a.kind {
        case InlineTools =>
          var tools := TranslateInlineTools(a.tools);
          if tools.Some? {
            permissions := [tools.value];
          }
        case External =>
          if a.external.Some? {
            permissions := [ToolsCallPermission()];
          }
        case UnknownAuthorization =>
      }
    }
    p := Policy([principal], permissions);
    forall req
      ensures PolicyMatches(p, req) <==> RuleAllows(trustDomain, ns, rule, req)
    {
      OnePrincipalOnePermission(principal, permissions, req);
      assert permissions != [] ==>
          ((exists i :: 0 <= i < |permissions| && Permits(permissions[i], req)) <==> Permits(permissions[0], req));
    }
  }

  // ---------------------------------------------------------------- Whole policies

  /** `r` holds the first `n` rules of a section, each name bound to the last rule written under it. */
  ghost predicate Holds(trustDomain: string, ns: string, id: AuthId, section: Section, rules: seq<Rule>, n: nat,
                        r: Option<Rules>)
    requires n <= |rules|
  {
    && (r.None? ==> forall i: nat :: !LastOfName(id, section, rules, n, i))
    && (r.Some? ==>
          && (section.Enforced? ==> r.value.action == Allow)
          && RulesBound(trustDomain, ns, id, section, rules, n, r.value.policies)
          && NamesAccounted(id, section, rules, n, r.value.policies))
  }

  const SHADOW_PREFIX := "access_policy_ext_authz"

  function StatPrefix(hash: string): string { SHADOW_PREFIX + "_" + hash + "_" }

  /** The prefix the configuration ends up with: that of the last external-auth rule. */
  function PrefixAfter(id: AuthId, rules: seq<Rule>): string {
    if rules == [] then ""
    else
      var last := rules[|rules| - 1];
      if Guarded(id, last) then StatPrefix(id(last.authorization.value.external.value).value)
      else PrefixAfter(id, rules[..|rules| - 1])
  }

  /** Writing a policy under a name, the rule set created on first use. */
  function Put(r: Option<Rules>, action: Action, name: string, p: Policy): Option<Rules> {
    match r
    case None => Some(Rules(action, map[name := p]))
    case Some(x) => Some(x.(policies := x.policies[name := p]))
  }

  lemma LastOfNameNext(id: AuthId, section: Section, rules: seq<Rule>, n: nat, i: nat)
    requires n < |rules|
    ensures LastOfName(id, section, rules, n + 1, i) <==>
              if !Written(id, section, rules[n]) then LastOfName(id, section, rules, n, i)
              else i == n || (LastOfName(id, section, rules, n, i) && rules[i].name != rules[n].name)
  {
  }

  lemma HoldsUnwritten(trustDomain: string, ns: string, id: AuthId, section: Section, rules: seq<Rule>, n: nat,
                       r: Option<Rules>)
    requires n < |rules| && Holds(trustDomain, ns, id, section, rules, n, r) && !Written(id, section, rules[n])
    ensures Holds(trustDomain, ns, id, section, rules, n + 1, r)
  {
    var m := n + 1;
    forall i: nat
      ensures LastOfName(id, section, rules, m, i) ==> LastOfName(id, section, rules, n, i)
      ensures LastOfName(id, section, rules, n, i) ==> LastOfName(id, section, rules, m, i)
    {
      LastOfNameNext(id, section, rules, n, i);
    }
    if r.Some? {
      forall name | name in r.value.policies
        ensures exists i: nat :: LastOfName(id, section, rules, m, i) && rules[i].name == name
      {
        var i: nat :| LastOfName(id, section, rules, n, i) && rules[i].name == name;
        assert LastOfName(id, section, rules, m, i);
      }
    }
  }

  /** The rule just written and the earlier ones with other names are the last of their names. */
  lemma LastAfterWrite(id: AuthId, section: Section, rules: seq<Rule>, n: nat, m: nat)
    requires n < |rules| && Written(id, section, rules[n]) && m == n + 1
    ensures forall i: nat :: LastOfName(id, section, rules, m, i) <==>
              i == n || (LastOfName(id, section, rules, n, i) && rules[i].name != rules[n].name)
  {
    forall i: nat
      ensures LastOfName(id, section, rules, m, i) <==>
                i == n || (LastOfName(id, section, rules, n, i) && rules[i].name != rules[n].name)
    {
      LastOfNameNext(id, section, rules, n, i);
    }
  }

  /** Every name is bound for some rule that is the last of it. */
  ghost predicate NamesAccounted(id: AuthId, section: Section, rules: seq<Rule>, n: nat, ps: map<string, Policy>)
    requires n <= |rules|
  {
    forall name :: name in ps ==> exists i: nat :: LastOfName(id, section, rules, n, i) && rules[i].name == name
  }

  lemma NamesAfterWrite(id: AuthId, section: Section, rules: seq<Rule>, n: nat, ps: map<string, Policy>, p: Policy)
    requires n < |rules| && Written(id, section, rules[n]) && NamesAccounted(id, section, rules, n, ps)
    ensures NamesAccounted(id, section, rules, n + 1, ps[rules[n].name := p])
  {
    LastAfterWrite(id, section, rules, n, n + 1);
    var m, qs := n + 1, ps[rules[n].name := p];
    forall name | name in qs
      ensures exists i: nat :: LastOfName(id, section, rules, m, i) && rules[i].name == name
    {
      if name == rules[n].name {
        assert LastOfName(id, section, rules, m, n);
      } else {
        var i: nat :| LastOfName(id, section, rules, n, i) && rules[i].name == name;
        assert LastOfName(id, section, rules, m, i);
      }
    }
  }

  /** Every rule that is the last of its name is bound to a policy that renders it. */
  ghost predicate RulesBound(trustDomain: string, ns: string, id: AuthId, section: Section, rules: seq<Rule>, n: nat,
                             ps: map<string, Policy>)
    requires n <= |rules|
  {
    forall i: nat :: LastOfName(id, section, rules, n, i) ==>
      rules[i].name in ps && Renders(trustDomain, ns, rules[i], ps[rules[i].name])
  }

  lemma BoundAfterWrite(trustDomain: string, ns: string, id: AuthId, section: Section, rules: seq<Rule>, n: nat,
                        ps: map<string, Policy>, p: Policy)
    requires n < |rules| && Written(id, section, rules[n]) && RulesBound(trustDomain, ns, id, section, rules, n, ps)
    requires Renders(trustDomain, ns, rules[n], p)
    ensures RulesBound(trustDomain, ns, id, section, rules, n + 1, ps[rules[n].name := p])
  {
    LastAfterWrite(id, section, rules, n, n + 1);
  }

  lemma HoldsWritten(trustDomain: string, ns: string, id: AuthId, section: Section, rules: seq<Rule>, n: nat,
                     r: Option<Rules>,
                     p: Policy)
    requires n < |rules| && Holds(trustDomain, ns, id, section, rules, n, r) && Written(id, section, rules[n])
    requires Renders(trustDomain, ns, rules[n], p)
    ensures var action := if section.Enforced? then Allow else Deny;
            Holds(trustDomain, ns, id, section, rules, n + 1, Put(r, action, rules[n].name, p))
  {
    var ps := if r.Some? then r.value.policies else map[];
    NamesAfterWrite(id, section, rules, n, ps, p);
    BoundAfterWrite(trustDomain, ns, id, section, rules, n, ps, p);
  }

  method TranslateAccessPolicy(trustDomain: string, id: AuthId, policy: AccessPolicy) returns (c: Rbac)
    ensures Holds(trustDomain, policy.namespace, id, Enforced, policy.rules, |policy.rules|, c.rules)
    ensures Holds(trustDomain, policy.namespace, id, Shadow, policy.rules, |policy.rules|, c.shadowRules)
    ensures c.shadowRulesStatPrefix == PrefixAfter(id, policy.rules)
  {
    c := EMPTY;
    var rules, ns := policy.rules, policy.namespace;
    for n := 0 to |rules|
      invariant Holds(trustDomain, ns, id, Enforced, rules, n, c.rules)
      invariant Holds(trustDomain, ns, id, Shadow, rules, n, c.shadowRules)
      invariant c.shadowRulesStatPrefix == PrefixAfter(id, rules[..n])
    {
      assert rules[..n + 1][..n] == rules[..n];
      var p := TranslateRule(trustDomain, ns, rules[n]);
      if IsExternal(rules[n]) {
        var hash := id(rules[n].authorization.value.external.value);
        if hash.None? {
          HoldsUnwritten(trustDomain, ns, id, Enforced, rules, n, c.rules);
          HoldsUnwritten(trustDomain, ns, id, Shadow, rules, n, c.shadowRules);
          continue;
        }
        HoldsWritten(trustDomain, ns, id, Shadow, rules, n, c.shadowRules, p);
        c := c.(shadowRulesStatPrefix := StatPrefix(hash.value),
                shadowRules := Put(c.shadowRules, Deny, rules[n].name, p));
      } else {
        HoldsUnwritten(trustDomain, ns, id, Shadow, rules, n, c.shadowRules);
      }
      HoldsWritten(trustDomain, ns, id, Enforced, rules, n, c.rules, p);
      c := c.(rules := Put(c.rules, Allow, rules[n].name, p));
    }
    assert rules[..|rules|] == rules;
  }

  // ---------------------------------------------------------------- Policy of a backend

  datatype Backend = Backend(namespace: string, name: string)

  /** What `findAccessPolicyForBackend` looks for among the policies of the backend's namespace. */
  predicate Targets(policy: AccessPolicy, b: Backend) {
    && policy.namespace == b.namespace
    && exists i :: 0 <= i < |policy.targets| && policy.targets[i].kind == "XBackend" && policy.targets[i].name == b.name
  }

  /** Of several policies that target a backend the first in the list is taken. */
  ghost predicate IsFirstFor(policies: seq<AccessPolicy>, b: Backend, policy: AccessPolicy) {
    exists i :: 0 <= i < |policies| && policy == policies[i] && Targets(policy, b) && NoneBefore(policies, b, i)
  }

  ghost predicate NoneBefore(policies: seq<AccessPolicy>, b: Backend, n: nat)
    requires n <= |policies|
  {
    forall j :: 0 <= j < n ==> !Targets(policies[j], b)
  }

  method FindAccessPolicyForBackend(policies: seq<AccessPolicy>, b: Backend) returns (found: Option<AccessPolicy>)
    ensures found.None? <==> forall i :: 0 <= i < |policies| ==> !Targets(policies[i], b)
    ensures found.Some? ==> IsFirstFor(policies, b, found.value)
  {
    for i := 0 to |policies|
      invariant forall j :: 0 <= j < i ==> !Targets(policies[j], b)
    {
      var p := policies[i];
      if p.namespace == b.namespace {
        for t := 0 to |p.targets|
          invariant forall j :: 0 <= j < t ==> !(p.targets[j].kind == "XBackend" && p.targets[j].name == b.name)
        {
          if p.targets[t].kind == "XBackend" && p.targets[t].name == b.name {
            assert NoneBefore(policies, b, i);
            return Some(p);
          }
        }
      }
    }
    return None;
  }

  /** What the policy of a backend, if there is one, lets through. */
  ghost predicate Decision(trustDomain: string, id: AuthId, policy: Option<AccessPolicy>, req: Request) {
    || policy.None?
    || BuiltIn(req)
    || exists i: nat :: Effective(id, policy.value.rules, i) &&
         RuleAllows(trustDomain, policy.value.namespace, policy.value.rules[i], req)
  }

  /** `c` is what the translator emits for `policy`. */
  ghost predicate Compiles(trustDomain: string, id: AuthId, policy: Option<AccessPolicy>, c: Rbac) {
    match policy
    case None => c == EMPTY
    case Some(p) =>
      && c.rules.Some?
      && (forall req :: Allowed(c, req) <==> Decision(trustDomain, id, policy, req))
      && Holds(trustDomain, p.namespace, id, Shadow, p.rules, |p.rules|, c.shadowRules)
      && c.shadowRulesStatPrefix == PrefixAfter(id, p.rules)
  }

  function WithBuiltIns(r: Option<Rules>): Option<Rules> {
    var r1 := Put(r, Allow, CLOSE_POLICY, SessionClosePolicy());
    var r2 := Put(r1, Allow, INIT_POLICY, InitializePolicy());
    Put(r2, Allow, GET_POLICY, HttpGetPolicy())
  }

  /** The built-in policies match the session traffic, and hide nothing but their own names. */
  lemma BuiltInsOnTop(r: Option<Rules>, req: Request)
    ensures SomePolicyMatches(WithBuiltIns(r).value, req) <==>
              || BuiltIn(req)
              || (r.Some? && exists n :: n in r.value.policies && !Reserved(n) && PolicyMatches(r.value.policies[n], req))
  {
    var ps := WithBuiltIns(r).value.policies;
    BuiltInPolicies(req);
    assert ps[GET_POLICY] == HttpGetPolicy();
    assert ps[INIT_POLICY] == InitializePolicy();
    assert ps[CLOSE_POLICY] == SessionClosePolicy();
    forall n | !Reserved(n)
      ensures n in ps <==> r.Some? && n in r.value.policies
      ensures n in ps ==> ps[n] == r.value.policies[n]
    {
    }
  }

  lemma RulesBelow(trustDomain: string, id: AuthId, policy: AccessPolicy, r: Option<Rules>, req: Request)
    requires Holds(trustDomain, policy.namespace, id, Enforced, policy.rules, |policy.rules|, r)
    ensures SomePolicyMatches(WithBuiltIns(r).value, req) <==> Decision(trustDomain, id, Some(policy), req)
  {
    var rules := policy.rules;
    BuiltInsOnTop(r, req);
    if n :| r.Some? && n in r.value.policies && !Reserved(n) && PolicyMatches(r.value.policies[n], req) {
      var i: nat :| LastOfName(id, Enforced, rules, |rules|, i) && rules[i].name == n;
      assert Effective(id, rules, i);
    }
    if i: nat :| Effective(id, rules, i) && RuleAllows(trustDomain, policy.namespace, rules[i], req) {
      assert LastOfName(id, Enforced, rules, |rules|, i);
    }
  }

  /**
   Compilation preserves meaning: for every request the emitted configuration allows exactly
   what the backend's policy allows.
   */
  method RbacConfigFromAccessPolicy(trustDomain: string, id: AuthId, policies: seq<AccessPolicy>, b: Backend)
    returns (c: Rbac, policy: Option<AccessPolicy>)
    ensures policy.None? <==> forall i :: 0 <= i < |policies| ==> !Targets(policies[i], b)
    ensures policy.Some? ==> policy.value in policies && Targets(policy.value, b)
    ensures policy.Some? ==> IsFirstFor(policies, b, policy.value)
    ensures Compiles(trustDomain, id, policy, c)
  {
    policy := FindAccessPolicyForBackend(policies, b);
    if policy.None? {
      return EMPTY, policy;
    }
    c := TranslateAccessPolicy(trustDomain, id, policy.value);
    ghost var rules := c.rules;
    c := c.(rules := Put(c.rules, Allow, CLOSE_POLICY, SessionClosePolicy()));
    c := c.(rules := Put(c.rules, Allow, INIT_POLICY, InitializePolicy()));
    c := c.(rules := Put(c.rules, Allow, GET_POLICY, HttpGetPolicy()));
    forall req
      ensures Allowed(c, req) <==> Decision(trustDomain, id, policy, req)
    {
      assert c.rules == WithBuiltIns(rules);
      RulesBelow(trustDomain, id, policy.value, rules, req);
    }
  }

  // ---------------------------------------------------------------- Consequences

  /** What the resource's validation rules guarantee, and one thing they do not: free names. */
  predicate UniqueNames(rules: seq<Rule>) {
    forall i, j :: 0 <= i < j < |rules| ==> rules[i].name != rules[j].name
  }

  predicate NoReservedNames(rules: seq<Rule>) {
    forall i :: 0 <= i < |rules| ==> !Reserved(rules[i].name)
  }

  /** With unique, unreserved names every rule that can be identified counts. */
  lemma EveryRuleCounts(trustDomain: string, id: AuthId, policy: AccessPolicy, req: Request)
    requires UniqueNames(policy.rules) && NoReservedNames(policy.rules)
    ensures Decision(trustDomain, id, Some(policy), req) <==>
              || BuiltIn(req)
              || exists i: nat :: i < |policy.rules| && !Skipped(id, policy.rules[i]) &&
                   RuleAllows(trustDomain, policy.namespace, policy.rules[i], req)
  {
    forall i: nat ensures Effective(id, policy.rules, i) <==> i < |policy.rules| && !Skipped(id, policy.rules[i]) {
    }
  }

  /** A tool call that no rule's source may make is refused, whatever the policy's names. */
  lemma UnmatchedToolCallIsDenied(trustDomain: string, id: AuthId, policy: AccessPolicy, c: Rbac, req: Request)
    requires Compiles(trustDomain, id, Some(policy), c)
    requires HttpMethodIs(req, "POST") && CallsTool(req)
    requires forall i: nat :: i < |policy.rules| ==> !RuleAllows(trustDomain, policy.namespace, policy.rules[i], req)
    ensures !Allowed(c, req)
  {
    assert "tools/call" != "initialize";
    assert |"tools/call"| != |"notifications/initialized"|;
    assert "tools/call"[6] != "tools/list"[6];
    assert "POST"[0] != "GET"[0] && |"POST"| != |"DELETE"|;
    assert forall i: nat :: Effective(id, policy.rules, i) ==> i < |policy.rules|;
  }

  /** A SPIFFE source admits exactly the peers with that name; sources that name nobody admit everybody. */
  lemma SourcesAdmit(trustDomain: string, ns: string, src: Source, req: Request)
    ensures src.kind.SpiffeSource? && src.spiffe.Some? && src.spiffe.value != "" ==>
              (Admits(trustDomain, ns, src, req) <==> src.spiffe.value in req.peer)
    ensures src.kind.SpiffeSource? && (src.spiffe.None? || src.spiffe.value == "") ==> Admits(trustDomain, ns, src, req)
    ensures src.kind.ServiceAccountSource? && src.serviceAccount.None? ==> Admits(trustDomain, ns, src, req)
    ensures src.kind.UnknownSource? ==> Admits(trustDomain, ns, src, req)
  {
  }

  /**
   The emitted configuration and a rule with a SPIFFE source: a call of one of its tools that no
   other rule allows passes if and only if the peer has the name.
   */
  lemma SpiffeRuleDecides(trustDomain: string, id: AuthId, policy: AccessPolicy, c: Rbac, i: nat, req: Request)
    requires Compiles(trustDomain, id, Some(policy), c)
    requires UniqueNames(policy.rules) && NoReservedNames(policy.rules) && i < |policy.rules|
    requires var src := policy.rules[i].source;
             src.kind.SpiffeSource? && src.spiffe.Some? && src.spiffe.value != ""
    requires var a := policy.rules[i].authorization;
             a.Some? && a.value.kind.InlineTools? && CallsOneOf(req, a.value.tools)
    requires HttpMethodIs(req, "POST")
    requires forall j: nat :: j < |policy.rules| && j != i ==>
               !RuleAllows(trustDomain, policy.namespace, policy.rules[j], req)
    ensures Allowed(c, req) <==> policy.rules[i].source.spiffe.value in req.peer
  {
    SourcesAdmit(trustDomain, policy.namespace, policy.rules[i].source, req);
    EveryRuleCounts(trustDomain, id, policy, req);
    assert Allowed(c, req) <==> Decision(trustDomain, id, Some(policy), req);
    if RuleAllows(trustDomain, policy.namespace, policy.rules[i], req) {
      assert !Skipped(id, policy.rules[i]);
    } else {
      UnmatchedToolCallIsDenied(trustDomain, id, policy, c, req);
    }
  }

  // ---------------------------------------------------------------- The decision in words

  ghost predicate HasHeader(req: Request, name: string, value: string) {
    name in req.headers && req.headers[name] == value
  }

  /** What the MCP filter found at a path of the message. */
  ghost predicate HasMcp(req: Request, path: seq<string>, value: string) {
    Slot("mcp_proxy", path) in req.metadata && req.metadata[Slot("mcp_proxy", path)] == value
  }

  /** Whom a source stands for: a SPIFFE name, the SPIFFE name of an account, or everybody. */
  ghost predicate Includes(trustDomain: string, policyNamespace: string, src: Source, req: Request) {
    match src.kind
    case SpiffeSource => src.spiffe in {None, Some("")} || src.spiffe.value in req.peer
    case ServiceAccountSource =>
      src.serviceAccount.None? ||
      var sa := src.serviceAccount.value;
      var ns := if sa.namespace == "" then policyNamespace else sa.namespace;
      "spiffe://" + trustDomain + "/ns/" + ns + "/sa/" + sa.name in req.peer
    case UnknownSource => true
  }

  /** The call of a tool that the rule's authorization covers. */
  ghost predicate Covers(id: AuthId, rule: Rule, req: Request) {
    && rule.authorization.Some?
    && HasMcp(req, ["method"], "tools/call")
    && match rule.authorization.value.kind
       case InlineTools => exists t :: t in rule.authorization.value.tools && HasMcp(req, ["params", "name"], t)
       case External =>
         rule.authorization.value.external.Some? && id(rule.authorization.value.external.value).Some?
       case UnknownAuthorization => false
  }

  ghost predicate IsSessionTraffic(req: Request) {
    || HasHeader(req, ":method", "GET")
    || (HasHeader(req, ":method", "DELETE") && "mcp-session-id" in req.headers)
    || HasMcp(req, ["method"], "initialize")
    || HasMcp(req, ["method"], "notifications/initialized")
    || HasMcp(req, ["method"], "tools/list")
  }

  lemma IncludesIff(trustDomain: string, ns: string, src: Source, req: Request)
    ensures Includes(trustDomain, ns, src, req) <==> Admits(trustDomain, ns, src, req)
  {
  }

  lemma CoversIff(id: AuthId, rule: Rule, req: Request)
    ensures Covers(id, rule, req) <==> !Skipped(id, rule) && Grants(rule, req)
  {
    if rule.authorization.Some? && CallsOneOf(req, rule.authorization.value.tools) {
      assert HasMcp(req, ["params", "name"], req.metadata[TOOL_SLOT]);
    }
  }

  /**
   The emitted configuration in terms of the request's headers, MCP fields and peer: session traffic
   passes, and a call of a tool that some rule covers for a source that includes the peer. Names are
   unique, as the API demands, and none is one of the three that the translator uses itself.
   */
  lemma AllowedInWords(trustDomain: string, id: AuthId, policy: AccessPolicy, c: Rbac, req: Request)
    requires Compiles(trustDomain, id, Some(policy), c)
    requires forall i, j :: 0 <= i < j < |policy.rules| ==> policy.rules[i].name != policy.rules[j].name
    requires forall r :: r in policy.rules ==>
               r.name !in {"allow-mcp-session-close", "allow-anyone-to-initialize-and-list-tools", "allow-http-get"}
    ensures Allowed(c, req) <==>
              || IsSessionTraffic(req)
              || exists i: nat :: i < |policy.rules| && Covers(id, policy.rules[i], req) &&
                   Includes(trustDomain, policy.namespace, policy.rules[i].source, req)
  {
    EveryRuleCounts(trustDomain, id, policy, req);
    assert Allowed(c, req) <==> Decision(trustDomain, id, Some(policy), req);
    forall i: nat | i < |policy.rules|
      ensures !Skipped(id, policy.rules[i]) && RuleAllows(trustDomain, policy.namespace, policy.rules[i], req) <==>
                Covers(id, policy.rules[i], req) && Includes(trustDomain, policy.namespace, policy.rules[i].source, req)
    {
      CoversIff(id, policy.rules[i], req);
      IncludesIff(trustDomain, policy.namespace, policy.rules[i].source, req);
    }
    assert IsSessionTraffic(req) <==> BuiltIn(req);
  }

  function Dropped(policy: AccessPolicy, i: nat): AccessPolicy
    requires i < |policy.rules|
  {
    policy.(rules := policy.rules[..i] + policy.rules[i + 1..])
  }

  /** Where rule `j` of a policy stands once rule `i` is gone. */
  function Moved(i: nat, j: nat): nat
    requires j != i
  {
    if j < i then j else j - 1
  }

  lemma RulesMove(policy: AccessPolicy, i: nat, j: nat)
    requires i < |policy.rules| && j != i && j < |policy.rules|
    ensures Moved(i, j) < |Dropped(policy, i).rules| && Dropped(policy, i).rules[Moved(i, j)] == policy.rules[j]
  {
  }

  lemma StaysEffective(id: AuthId, policy: AccessPolicy, i: nat, j: nat)
    requires i < |policy.rules| && j != i && Effective(id, policy.rules, j)
    ensures Effective(id, Dropped(policy, i).rules, Moved(i, j))
  {
    var rules, rest, j' := policy.rules, Dropped(policy, i).rules, Moved(i, j);
    RulesMove(policy, i, j);
    forall l | j' < l < |rest| && rest[l].name == rest[j'].name
      ensures !Written(id, Enforced, rest[l])
    {
      RulesMove(policy, i, if l < i then l else l + 1);
    }
  }

  lemma WasEffective(id: AuthId, policy: AccessPolicy, i: nat, j: nat)
    requires i < |policy.rules| && Reserved(policy.rules[i].name) && j != i && j < |policy.rules|
    requires Effective(id, Dropped(policy, i).rules, Moved(i, j))
    ensures Effective(id, policy.rules, j)
  {
    var rules := policy.rules;
    RulesMove(policy, i, j);
    forall l | j < l < |rules| && rules[l].name == rules[j].name
      ensures !Written(id, Enforced, rules[l])
    {
      assert l != i;
      RulesMove(policy, i, l);
    }
  }

  lemma AllowedWithout(trustDomain: string, id: AuthId, policy: AccessPolicy, i: nat, j: nat, req: Request)
    requires i < |policy.rules| && Reserved(policy.rules[i].name) && Effective(id, policy.rules, j)
    requires RuleAllows(trustDomain, policy.namespace, policy.rules[j], req)
    ensures Decision(trustDomain, id, Some(Dropped(policy, i)), req)
  {
    StaysEffective(id, policy, i, j);
    RulesMove(policy, i, j);
  }

  lemma AllowedWith(trustDomain: string, id: AuthId, policy: AccessPolicy, i: nat, l: nat, req: Request)
    requires i < |policy.rules| && Reserved(policy.rules[i].name) && Effective(id, Dropped(policy, i).rules, l)
    requires RuleAllows(trustDomain, policy.namespace, Dropped(policy, i).rules[l], req)
    ensures Decision(trustDomain, id, Some(policy), req)
  {
    var j := if l < i then l else l + 1;
    WasEffective(id, policy, i, j);
    RulesMove(policy, i, j);
  }

  lemma DecisionWithoutReserved(trustDomain: string, id: AuthId, policy: AccessPolicy, i: nat, req: Request)
    requires i < |policy.rules| && Reserved(policy.rules[i].name)
    ensures Decision(trustDomain, id, Some(policy), req) <==> Decision(trustDomain, id, Some(Dropped(policy, i)), req)
  {
    var rules, rest := policy.rules, Dropped(policy, i).rules;
    if j: nat :| Effective(id, rules, j) && RuleAllows(trustDomain, policy.namespace, rules[j], req) {
      AllowedWithout(trustDomain, id, policy, i, j, req);
    }
    if l: nat :| Effective(id, rest, l) && RuleAllows(trustDomain, policy.namespace, rest[l], req) {
      AllowedWith(trustDomain, id, policy, i, l, req);
    }
  }

  /** A rule under a reserved name grants nothing: without it the policy allows the same requests. */
  lemma ReservedNamesAreLost(trustDomain: string, id: AuthId, policy: AccessPolicy, i: nat, c: Rbac, d: Rbac,
                             req: Request)
    requires i < |policy.rules| && Reserved(policy.rules[i].name)
    requires Compiles(trustDomain, id, Some(policy), c) && Compiles(trustDomain, id, Some(Dropped(policy, i)), d)
    ensures Allowed(c, req) <==> Allowed(d, req)
  {
    DecisionWithoutReserved(trustDomain, id, policy, i, req);
    assert Allowed(c, req) <==> Decision(trustDomain, id, Some(policy), req);
    assert Allowed(d, req) <==> Decision(trustDomain, id, Some(Dropped(policy, i)), req);
  }
}
