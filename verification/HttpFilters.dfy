/**
 The HTTP filter chain of a listener (pkg/translator/listener.go): what happens to a request that
 passes the MCP, RBAC, ext_authz and router filters in the order the translator gives them, and
 who therefore decides about it.
 */
module HttpFilters {
  import opened Options
  import opened EnvoyRbac
  import opened AccessPolicies
  import opened ExtAuthz

  datatype HttpFilter = McpFilter | RbacFilter | ExtAuthzFilter(filter: Filter) | RouterFilter

  /**
   What the chain meets at run time: how the MCP filter annotates a request, the RBAC settings of
   the route, and the answers of the authorization services.
   */
  datatype Env = Env(annotate: Request -> Request, rbac: Rbac, approves: (Filter, Request) -> bool)

  /** Where a request ends: at the backend, refused, or nowhere because no router follows. */
  datatype Outcome = Forwarded | Refused | Unrouted

  /** The filters in order; `keys` is the dynamic metadata of the RBAC filter so far. */
  function Process(chain: seq<HttpFilter>, env: Env, req: Request, keys: set<string>): Outcome {
    if chain == [] then Unrouted
    else
      match chain[0]
      case McpFilter => Process(chain[1..], env, env.annotate(req), keys)
      case RbacFilter =>
        if Allowed(env.rbac, req) then Process(chain[1..], env, req, keys + Published(env.rbac, req)) else Refused
      case ExtAuthzFilter(f) =>
        if f.enabledKey in keys && !env.approves(f, req) then Refused else Process(chain[1..], env, req, keys)
      case RouterFilter => Forwarded
  }

  function Checks(fs: seq<Filter>): (chain: seq<HttpFilter>)
    ensures |chain| == |fs| && forall i :: 0 <= i < |fs| ==> chain[i] == ExtAuthzFilter(fs[i])
  {
    seq(|fs|, i requires 0 <= i < |fs| => ExtAuthzFilter(fs[i]))
  }

  function Chain(fs: seq<Filter>): seq<HttpFilter> { [McpFilter, RbacFilter] + Checks(fs) + [RouterFilter] }

  method BuildHttpFilters(id: AuthId, policies: seq<AccessPolicy>) returns (chain: seq<HttpFilter>)
    ensures exists fs :: FiltersFor(id, Entries(policies), fs) && chain == Chain(fs)
  {
    var fs := BuildExtAuthzFilters(id, policies);
    chain := [McpFilter, RbacFilter];
    chain := chain + Checks(fs);
    chain := chain + [RouterFilter];
  }

  /** Behind the RBAC filter a request survives exactly when every enabled check approves it. */
  lemma {:induction false} ChecksInTurn(fs: seq<Filter>, env: Env, req: Request, keys: set<string>)
    ensures Process(Checks(fs) + [RouterFilter], env, req, keys) ==
              if forall f :: f in fs && f.enabledKey in keys ==> env.approves(f, req) then Forwarded else Refused
  {
    var chain := Checks(fs) + [RouterFilter];
    if fs != [] {
      assert chain[1..] == Checks(fs[1..]) + [RouterFilter];
      ChecksInTurn(fs[1..], env, req, keys);
      assert fs == [fs[0]] + fs[1..];
    }
  }

  /** The whole chain: annotated, admitted by RBAC, approved by every check its metadata enables. */
  lemma ChainOutcome(fs: seq<Filter>, env: Env, raw: Request)
    ensures var req := env.annotate(raw);
            Process(Chain(fs), env, raw, {}) ==
              if Allowed(env.rbac, req) && forall f :: f in fs && f.enabledKey in Published(env.rbac, req) ==>
                  env.approves(f, req)
              then Forwarded else Refused
  {
    var chain := Chain(fs);
    var req := env.annotate(raw);
    var rest := Checks(fs) + [RouterFilter];
    assert chain[1..][0] == RbacFilter && chain[1..][1..] == rest;
    ChecksInTurn(fs, env, req, Published(env.rbac, req));
    assert {} + Published(env.rbac, req) == Published(env.rbac, req);
  }

  // ---------------------------------------------------------------- The guarded rule of a policy

  /** The resource's validation allows at most one external-auth rule. */
  predicate OneGuard(id: AuthId, rules: seq<Rule>) {
    forall i, j :: 0 <= i < j < |rules| ==> !(Guarded(id, rules[i]) && Guarded(id, rules[j]))
  }

  function ExternalOf(rule: Rule): ExternalAuth
    requires IsExternal(rule)
  {
    rule.authorization.value.external.value
  }

  lemma {:induction false} PrefixOfTheGuard(id: AuthId, rules: seq<Rule>, g: nat)
    requires g < |rules| && Guarded(id, rules[g]) && OneGuard(id, rules)
    ensures PrefixAfter(id, rules) == StatPrefix(id(ExternalOf(rules[g])).value)
  {
    if g < |rules| - 1 {
      PrefixOfTheGuard(id, rules[..|rules| - 1], g);
    }
  }

  /** The shadow rules match exactly the tool calls from the guarded rule's source. */
  lemma ShadowMatchesTheGuard(trustDomain: string, id: AuthId, policy: AccessPolicy, c: Rbac, g: nat, req: Request)
    requires Compiles(trustDomain, id, Some(policy), c)
    requires g < |policy.rules| && Guarded(id, policy.rules[g]) && OneGuard(id, policy.rules)
    ensures Published(c, req) ==
              if RuleAllows(trustDomain, policy.namespace, policy.rules[g], req)
              then {EnabledKey(id(ExternalOf(policy.rules[g])).value)} else {}
  {
    var rules := policy.rules;
    var hash := id(ExternalOf(rules[g])).value;
    PrefixOfTheGuard(id, rules, g);
    KeyIsPublishedKey(hash);
    assert LastOfName(id, Shadow, rules, |rules|, g);
    var ps := c.shadowRules.value.policies;
    forall n | n in ps
      ensures n == rules[g].name
    {
      var i: nat :| LastOfName(id, Shadow, rules, |rules|, i) && rules[i].name == n;
      assert i == g;
    }
  }

  lemma NoGuardNoShadow(trustDomain: string, id: AuthId, policy: AccessPolicy, c: Rbac, req: Request)
    requires Compiles(trustDomain, id, Some(policy), c)
    requires forall i :: 0 <= i < |policy.rules| ==> !Guarded(id, policy.rules[i])
    ensures Published(c, req) == {}
  {
    var rules := policy.rules;
    assert forall i: nat :: !LastOfName(id, Shadow, rules, |rules|, i);
  }

  // ---------------------------------------------------------------- Linkage

  predicate SameId(id: AuthId, e: Entry, d: Entry) { id(e.external).Some? && id(e.external) == id(d.external) }

  /** The ids tell the configurations in use apart. */
  predicate Distinguishes(id: AuthId, es: seq<Entry>) {
    forall i, j :: 0 <= i < |es| && 0 <= j < |es| && SameId(id, es[i], es[j]) ==> es[i].external == es[j].external
  }

  /** The filter for configuration `x`, if the chain has one. */
  ghost predicate IsFilterFor(id: AuthId, x: ExternalAuth, fs: seq<Filter>, f: Filter) {
    f in fs && id(x).Some? && f.enabledKey == EnabledKey(id(x).value)
  }

  lemma {:induction false} FirstExists(id: AuthId, es: seq<Entry>, k: nat) returns (i: nat)
    requires k < |es| && id(es[k].external).Some?
    ensures FirstOfId(id, es, i) && id(es[i].external) == id(es[k].external)
  {
    if FirstOfId(id, es, k) {
      i := k;
    } else {
      var j :| 0 <= j < k && id(es[j].external) == id(es[k].external);
      i := FirstExists(id, es, j);
    }
  }

  lemma FirstIsUnique(id: AuthId, es: seq<Entry>, i: nat, j: nat)
    requires FirstOfId(id, es, i) && FirstOfId(id, es, j) && id(es[i].external) == id(es[j].external)
    ensures i == j
  {
  }

  /**
   Deduplication leaves exactly one filter for a configuration in use, and it is the filter of the
   first policy that uses it; a configuration whose backend is not supported is left without one.
   */
  lemma OneFilterPerConfiguration(id: AuthId, es: seq<Entry>, fs: seq<Filter>, e: Entry) returns (i: nat)
    requires FiltersFor(id, es, fs) && Distinguishes(id, es) && e in es && id(e.external).Some?
    ensures FirstOfId(id, es, i) && es[i].external == e.external
    ensures forall f :: IsFilterFor(id, e.external, fs, f) <==> !Unsupported(e.external) && f == FilterOf(id, es[i])
  {
    var k :| 0 <= k < |es| && es[k] == e;
    i := FirstExists(id, es, k);
    var own := FilterOf(id, es[i]);
    forall f | IsFilterFor(id, e.external, fs, f)
      ensures f == own && !Unsupported(e.external)
    {
      var j: nat :| FirstOfId(id, es, j) && !Unsupported(es[j].external) && f == FilterOf(id, es[j]);
      KeysAreInjective(id(es[j].external).value, id(e.external).value);
      FirstIsUnique(id, es, i, j);
    }
  }

  /** The chain of every policy holds exactly one filter for a guarded rule, none if it is unsupported. */
  lemma GuardHasItsFilter(id: AuthId, policies: seq<AccessPolicy>, policy: AccessPolicy, g: nat, fs: seq<Filter>)
    requires policy in policies && g < |policy.rules| && Guarded(id, policy.rules[g])
    requires FiltersFor(id, Entries(policies), fs) && Distinguishes(id, Entries(policies))
    ensures var x := ExternalOf(policy.rules[g]);
            && (Unsupported(x) <==> !exists f :: IsFilterFor(id, x, fs, f))
            && (forall f, f' :: IsFilterFor(id, x, fs, f) && IsFilterFor(id, x, fs, f') ==> f == f')
  {
    var x := ExternalOf(policy.rules[g]);
    EntriesComplete(policies, policy, g);
    var i := OneFilterPerConfiguration(id, Entries(policies), fs, Entry(policy.namespace, x));
    assert !Unsupported(x) ==> IsFilterFor(id, x, fs, FilterOf(id, Entries(policies)[i]));
  }

  /**
   External authorization end to end: behind a policy whose rule `g` is its external-auth rule, a
   request reaches the backend exactly when the policy allows it and, if it is a tool call from
   the rule's source, the filter built for that rule's own configuration approves it.
   No other filter of the chain has a say, whatever other policies contributed.
   */
  lemma GuardDecides(trustDomain: string, id: AuthId, policy: AccessPolicy, g: nat, fs: seq<Filter>, env: Env,
                     raw: Request)
    requires Compiles(trustDomain, id, Some(policy), env.rbac)
    requires g < |policy.rules| && Guarded(id, policy.rules[g]) && OneGuard(id, policy.rules)
    ensures var req := env.annotate(raw);
            var guarded := RuleAllows(trustDomain, policy.namespace, policy.rules[g], req);
            Process(Chain(fs), env, raw, {}) == Forwarded <==>
              && Decision(trustDomain, id, Some(policy), req)
              && (guarded ==> forall f :: IsFilterFor(id, ExternalOf(policy.rules[g]), fs, f) ==> env.approves(f, req))
  {
    var req := env.annotate(raw);
    ShadowMatchesTheGuard(trustDomain, id, policy, env.rbac, g, req);
    ChainOutcome(fs, env, raw);
    assert Allowed(env.rbac, req) <==> Decision(trustDomain, id, Some(policy), req);
  }

  /**
   Both together, for the chain the translator builds: a guarded tool call passes only with the
   approval of its own filter, except that a rule with an unsupported backend fails open.
   */
  lemma ExternalAuthEndToEnd(trustDomain: string, id: AuthId, policies: seq<AccessPolicy>, policy: AccessPolicy, g: nat,
                             fs: seq<Filter>, env: Env, raw: Request)
    requires policy in policies && Compiles(trustDomain, id, Some(policy), env.rbac)
    requires g < |policy.rules| && Guarded(id, policy.rules[g]) && OneGuard(id, policy.rules)
    requires FiltersFor(id, Entries(policies), fs) && Distinguishes(id, Entries(policies))
    ensures var req, x := env.annotate(raw), ExternalOf(policy.rules[g]);
            var guarded := RuleAllows(trustDomain, policy.namespace, policy.rules[g], req);
            Process(Chain(fs), env, raw, {}) == Forwarded <==>
              && Decision(trustDomain, id, Some(policy), req)
              && (guarded && !Unsupported(x) ==> exists f :: IsFilterFor(id, x, fs, f) && env.approves(f, req))
  {
    GuardHasItsFilter(id, policies, policy, g, fs);
    GuardDecides(trustDomain, id, policy, g, fs, env, raw);
  }

  /**
   A tool call that the policy allows under its external-auth rule, and that every authorization
   service refuses, is forwarded all the same if and only if the rule has an HTTP configuration
   whose backend is of a kind other than Service.
   */
  lemma FailsOpenIffUnsupported(trustDomain: string, id: AuthId, policies: seq<AccessPolicy>, policy: AccessPolicy,
                                g: nat,
                                fs: seq<Filter>, env: Env, raw: Request)
    requires policy in policies && Compiles(trustDomain, id, Some(policy), env.rbac)
    requires g < |policy.rules| && Guarded(id, policy.rules[g]) && OneGuard(id, policy.rules)
    requires FiltersFor(id, Entries(policies), fs) && Distinguishes(id, Entries(policies))
    requires var req := env.annotate(raw);
             && Decision(trustDomain, id, Some(policy), req)
             && RuleAllows(trustDomain, policy.namespace, policy.rules[g], req)
             && forall f :: !env.approves(f, req)
    ensures var x := policy.rules[g].authorization.value.external.value;
            Process(Chain(fs), env, raw, {}) == Forwarded <==>
              x.protocol.Http? && x.http.Some? && x.backend.kind.Some? && x.backend.kind.value != "Service"
  {
    ExternalAuthEndToEnd(trustDomain, id, policies, policy, g, fs, env, raw);
  }

  /**
   A guarded tool call that the chain forwards was approved by the filter for the rule's own
   configuration, when the rule uses gRPC, or has no HTTP configuration, or names a Service.
   */
  lemma ForwardedWasApproved(trustDomain: string, id: AuthId, policies: seq<AccessPolicy>, policy: AccessPolicy, g: nat,
                             fs: seq<Filter>, env: Env, raw: Request)
    requires policy in policies && Compiles(trustDomain, id, Some(policy), env.rbac)
    requires g < |policy.rules| && Guarded(id, policy.rules[g]) && OneGuard(id, policy.rules)
    requires FiltersFor(id, Entries(policies), fs) && Distinguishes(id, Entries(policies))
    requires var x := policy.rules[g].authorization.value.external.value;
             x.protocol != Http || x.http.None? || x.backend.kind.None? || x.backend.kind == Some("Service")
    requires RuleAllows(trustDomain, policy.namespace, policy.rules[g], env.annotate(raw))
    requires Process(Chain(fs), env, raw, {}) == Forwarded
    ensures exists f :: f in fs && env.approves(f, env.annotate(raw)) &&
              f.enabledKey == "access_policy_ext_authz_" + id(ExternalOf(policy.rules[g])).value +
                  "_shadow_effective_policy_id"
  {
    ExternalAuthEndToEnd(trustDomain, id, policies, policy, g, fs, env, raw);
    KeyInWords(id(ExternalOf(policy.rules[g])).value);
  }

  lemma KeyInWords(hash: string)
    ensures EnabledKey(hash) == "access_policy_ext_authz_" + hash + "_shadow_effective_policy_id"
  {
    assert SHADOW_PREFIX + "_" == "access_policy_ext_authz_";
    assert "_" + SHADOW_SUFFIX == "_shadow_effective_policy_id";
    assert EnabledKey(hash) == (SHADOW_PREFIX + "_") + hash + ("_" + SHADOW_SUFFIX);
  }

  /** For instance: an HTTP configuration whose backend is an XBackend. */
  lemma XBackendCannotAuthorize()
    ensures Unsupported(ExternalAuth(Http, BackendRef(Some("XBackend"), None, "authz", None), Some("/check"), ""))
  {
    assert |"XBackend"| != |"Service"|;
  }

  /** Without an external-auth rule, or without a policy, no filter has a say at all. */
  lemma NoGuardNoCheck(trustDomain: string, id: AuthId, policy: Option<AccessPolicy>, fs: seq<Filter>, env: Env,
                       raw: Request)
    requires Compiles(trustDomain, id, policy, env.rbac)
    requires policy.Some? ==> forall i :: 0 <= i < |policy.value.rules| ==> !Guarded(id, policy.value.rules[i])
    ensures Process(Chain(fs), env, raw, {}) == Forwarded <==> Decision(trustDomain, id, policy, env.annotate(raw))
  {
    var req := env.annotate(raw);
    ChainOutcome(fs, env, raw);
    if policy.Some? {
      NoGuardNoShadow(trustDomain, id, policy.value, env.rbac, req);
    }
  }

  // ---------------------------------------------------------------- The namespace of the service

  lemma FqdnTellsNamespaces(e: Entry, d: Entry)
    requires e.external == d.external
    ensures Fqdn(e) == Fqdn(d) <==> e.external.backend.namespace.Some? || e.namespace == d.namespace
  {
    var name, ns, ms := e.external.backend.name, e.external.backend.namespace.GetOr(e.namespace),
        d.external.backend.namespace.GetOr(d.namespace);
    var n := |name| + 1;
    if Fqdn(e) == Fqdn(d) {
      assert |ns| == |ms|;
      assert Fqdn(e)[n..n + |ns|] == ns && Fqdn(d)[n..n + |ms|] == ms;
    }
  }

  lemma ClusterNamesTellNamespaces(e: Entry, d: Entry)
    requires e.external == d.external
    ensures ClusterName(e) == ClusterName(d) <==> e.external.backend.namespace.Some? || e.namespace == d.namespace
  {
    FqdnTellsNamespaces(e, d);
    var tail := ProtocolSuffix(e.external.protocol) + PortSuffix(e.external.backend.port);
    assert ClusterName(e) == Fqdn(e) + tail && ClusterName(d) == Fqdn(d) + tail;
    if ClusterName(e) == ClusterName(d) {
      assert |Fqdn(e)| == |Fqdn(d)|;
      assert ClusterName(e)[..|Fqdn(e)|] == Fqdn(e) && ClusterName(d)[..|Fqdn(d)|] == Fqdn(d);
    }
  }

  /**
   The id of a configuration ignores the namespace of its policy, so the checks of a rule go to
   the service it names exactly when its backend reference spells the namespace out or the first
   policy with that configuration lives in the same namespace.
   */
  lemma OwnServiceIffSameNamespace(id: AuthId, es: seq<Entry>, fs: seq<Filter>, e: Entry, f: Filter)
    requires FiltersFor(id, es, fs) && Distinguishes(id, es) && e in es && IsFilterFor(id, e.external, fs, f)
    requires ServiceOf(e).Some?
    ensures f.cluster == ServiceOf(e) <==>
              || e.external.backend.namespace.Some?
              || forall i: nat :: FirstOfId(id, es, i) && id(es[i].external) == id(e.external) ==>
                  es[i].namespace == e.namespace
  {
    var i := OneFilterPerConfiguration(id, es, fs, e);
    ClusterNamesTellNamespaces(es[i], e);
    forall j: nat | FirstOfId(id, es, j) && id(es[j].external) == id(e.external)
      ensures j == i
    {
      FirstIsUnique(id, es, i, j);
    }
  }

  /** Two policies with one configuration in two namespaces: the second's checks go to the first's service. */
  lemma SharedConfigurationIsMisrouted(id: AuthId, x: ExternalAuth, fs: seq<Filter>, f: Filter)
    requires x == ExternalAuth(Grpc, BackendRef(None, None, "authz", Some(9000)), None, "")
    requires id(x).Some?
    requires FiltersFor(id, [Entry("red", x), Entry("blue", x)], fs) && IsFilterFor(id, x, fs, f)
    ensures f.cluster == ServiceOf(Entry("red", x)) != ServiceOf(Entry("blue", x))
  {
    var es := [Entry("red", x), Entry("blue", x)];
    assert FirstOfId(id, es, 0);
    OwnServiceIffSameNamespace(id, es, fs, es[0], f);
    OwnServiceIffSameNamespace(id, es, fs, es[1], f);
    assert es[0].namespace[0] != es[1].namespace[0];
    assert !FirstOfId(id, es, 1);
  }
}
