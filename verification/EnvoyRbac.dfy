/**
 The part of Envoy's role-based access control that the translator emits, and what it means for
 a request: the RBAC messages of envoy.config.rbac.v3 and envoy.extensions.filters.http.rbac.v3.
 */
module EnvoyRbac {
  import opened Options

  /** Where a filter left dynamic metadata: the filter's name and the path of keys. */
  datatype Slot = Slot(filter: string, path: seq<string>)

  /** A request: headers and pseudo-headers, dynamic metadata, the names in the peer's certificate. */
  datatype Request = Request(headers: map<string, string>, metadata: map<Slot, string>, peer: set<string>)

  datatype HeaderMatcher = HeaderIs(name: string, value: string) | HeaderPresent(name: string)

  datatype ValueMatcher = Exact(value: string) | OneOf(values: seq<ValueMatcher>)

  datatype Permission =
    | AnyPermission
    | HeaderPermission(header: HeaderMatcher)
    | MetadataPermission(slot: Slot, value: ValueMatcher)
    | AndRules(rules: seq<Permission>)

  datatype Principal =
    | AnyPrincipal
    | Authenticated(name: string)
    | HeaderPrincipal(header: HeaderMatcher)
    | AndIds(ids: seq<Principal>)

  datatype Policy = Policy(principals: seq<Principal>, permissions: seq<Permission>)

  datatype Action = Allow | Deny

  datatype Rules = Rules(action: Action, policies: map<string, Policy>)

  datatype Rbac = Rbac(rules: Option<Rules>, shadowRules: Option<Rules>, shadowRulesStatPrefix: string)

  const EMPTY := Rbac(None, None, "")

  predicate HeaderMatches(h: HeaderMatcher, req: Request) {
    match h
    case HeaderIs(n, v) => n in req.headers && req.headers[n] == v
    case HeaderPresent(n) => n in req.headers
  }

  predicate ValueMatches(m: ValueMatcher, v: string) {
    match m
    case Exact(x) => v == x
    case OneOf(ms) => exists i :: 0 <= i < |ms| && ValueMatches(ms[i], v)
  }

  predicate Permits(p: Permission, req: Request) {
    match p
    case AnyPermission => true
    case HeaderPermission(h) => HeaderMatches(h, req)
    case MetadataPermission(slot, m) => slot in req.metadata && ValueMatches(m, req.metadata[slot])
    case AndRules(ps) => forall i :: 0 <= i < |ps| ==> Permits(ps[i], req)
  }

  predicate Identifies(p: Principal, req: Request) {
    match p
    case AnyPrincipal => true
    case Authenticated(n) => n in req.peer
    case HeaderPrincipal(h) => HeaderMatches(h, req)
    case AndIds(ps) => forall i :: 0 <= i < |ps| ==> Identifies(ps[i], req)
  }

  /** Some principal and some permission of the policy match. */
  predicate PolicyMatches(p: Policy, req: Request) {
    && (exists i :: 0 <= i < |p.principals| && Identifies(p.principals[i], req))
    && (exists i :: 0 <= i < |p.permissions| && Permits(p.permissions[i], req))
  }

  predicate SomePolicyMatches(r: Rules, req: Request) {
    exists n :: n in r.policies && PolicyMatches(r.policies[n], req)
  }

  /** Absent rules enforce nothing; otherwise the action says what a match means. */
  predicate Allowed(c: Rbac, req: Request) {
    match c.rules
    case None => true
    case Some(r) => SomePolicyMatches(r, req) <==> r.action == Allow
  }

  const SHADOW_SUFFIX := "shadow_effective_policy_id"

  /** The metadata keys the RBAC filter publishes when its shadow rules match. */
  function Published(c: Rbac, req: Request): set<string> {
    if c.shadowRules.Some? && SomePolicyMatches(c.shadowRules.value, req)
    then {c.shadowRulesStatPrefix + SHADOW_SUFFIX}
    else {}
  }
}
