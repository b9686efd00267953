/**
 Policies at the clusters: the RBAC settings that go with a weighted cluster
 (pkg/translator/httproute.go), what they guarantee for the requests forwarded to it, and by which
 other ways an XBackend can be reached.
 */
module PolicyEnforcement {
  import opened Options
  import opened Names
  import opened EnvoyRbac
  import opened AccessPolicies
  import ExtAuthz
  import opened HttpFilters
  import opened RouteOrder
  import opened Attachment
  import RT = RouteTranslation
  import opened GatewayTranslation
  import opened ClusterOwnership

  // ---------------------------------------------------------------- Settings of a cluster

  /** The settings follow from a policy that targets the XBackend, if there is one; other clusters have none. */
  ghost predicate Enforces(trustDomain: string, id: AuthId, policies: seq<AccessPolicy>, c: WeightedCluster,
                           policy: Option<AccessPolicy>, rbac: Rbac)
  {
    match c.policed
    case None => policy.None? && rbac == EMPTY
    case Some(k) =>
      && (policy.None? <==> forall j :: 0 <= j < |policies| ==> !Targets(policies[j], Backend(k.namespace, k.name)))
      && (policy.Some? ==> policy.value in policies && Targets(policy.value, Backend(k.namespace, k.name)))
      && Compiles(trustDomain, id, policy, rbac)
  }

  method BuildPerClusterConfig(trustDomain: string, id: AuthId, policies: seq<AccessPolicy>, c: WeightedCluster)
    returns (rbac: Rbac, policy: Option<AccessPolicy>)
    ensures Enforces(trustDomain, id, policies, c, policy, rbac)
  {
    if c.policed.None? {
      return EMPTY, None;
    }
    rbac, policy := RbacConfigFromAccessPolicy(trustDomain, id, policies,
        Backend(c.policed.value.namespace, c.policed.value.name));
  }

  /**
   A request that is forwarded to the weighted cluster of an XBackend was allowed by a policy that
   targets this very XBackend, unless none does; whatever checks the chain holds besides.
   */
  lemma ForwardedWasAllowed(i: Inputs, gw: Gateway, ports: map<nat, Port>, clusters: Clusters,
                            p: nat, k: nat, n: nat, r: Route, c: WeightedCluster,
                            trustDomain: string, id: AuthId, policy: Option<AccessPolicy>,
                            fs: seq<ExtAuthz.Filter>, env: Env, raw: Request)
    returns (back: RT.Backend)
    requires Emits(i, gw, ports, clusters) && IsEmitted(ports, p, k, n, r) && r.action.Forward?
    requires c in r.action.clusters
    requires Enforces(trustDomain, id, i.policies, c, policy, env.rbac) && Process(Chain(fs), env, raw, {}) == Forwarded
    ensures c.name == RT.ClusterNameOf(back.key) && c.policed == if back.x.Some? then Some(back.key) else None
    ensures back.x.Some? && policy.None? ==>
              forall j :: 0 <= j < |i.policies| ==> !Targets(i.policies[j], Backend(back.key.namespace, back.key.name))
    ensures back.x.Some? && policy.Some? ==>
              && policy.value in i.policies && Targets(policy.value, Backend(back.key.namespace, back.key.name))
              && Decision(trustDomain, id, policy, env.annotate(raw))
  {
    var route, a, b, q;
    route, a, b, q, back := EmittedIsUse(i, gw, ports, clusters, p, k, n, r, c);
    ChainOutcome(fs, env, raw);
  }

  // ---------------------------------------------------------------- Ways around the settings

  /** Requests end up at one and the same host and port. */
  predicate SameEndpoint(c: ExtAuthz.Cluster, d: ExtAuthz.Cluster) { c.host == d.host && c.port == d.port }

  /** The weighted cluster leads to the XBackend's endpoint but does not carry its settings. */
  predicate Bypasses(clusters: Clusters, c: WeightedCluster, xb: RT.Backend) {
    c.name in clusters && SameEndpoint(clusters[c.name], ConvertToCluster(xb)) && c.policed != Some(xb.key)
  }

  /** The reference is not to the XBackend itself, but what is written last under its name leads there. */
  predicate LeadsAround(bs: seq<RT.Backend>, back: RT.Backend, xb: RT.Backend) {
    && (back.x.None? || back.key != xb.key)
    && exists j :: 0 <= j < |bs| && IsLast(bs, j) && RT.ClusterNameOf(bs[j].key) == RT.ClusterNameOf(back.key)
                   && SameEndpoint(ConvertToCluster(bs[j]), ConvertToCluster(xb))
  }

  lemma BypassesIffLeadsAround(base: Clusters, bs: seq<RT.Backend>, back: RT.Backend, weight: nat, xb: RT.Backend)
    requires back in bs
    ensures Bypasses(Overwritten(base, bs), RT.ClusterFor(back, weight), xb) <==> LeadsAround(bs, back, xb)
  {
    var k :| 0 <= k < |bs| && bs[k] == back;
    var last := LastExists(bs, k);
    LastStays(base, bs, last);
    forall j: nat | IsLast(bs, j) && RT.ClusterNameOf(bs[j].key) == RT.ClusterNameOf(back.key)
      ensures j == last
    {
    }
  }

  /** Some emitted route reaches the XBackend's endpoint without its settings. */
  ghost predicate IsBypassed(ports: map<nat, Port>, clusters: Clusters, xb: RT.Backend) {
    exists p: nat, k: nat, n: nat, r, c ::
      IsEmitted(ports, p, k, n, r) && IsWeighted(r, c) && Bypasses(clusters, c, xb)
  }

  /**
   The exact condition: some emitted route reaches an XBackend's endpoint without the XBackend's
   settings if and only if an attached route has a weighted reference, other than to the XBackend
   itself, under whose cluster name the backend written last has that endpoint.
   */
  lemma BypassIff(i: Inputs, gw: Gateway, base: Clusters, order: seq<nat>, ports: map<nat, Port>, clusters: Clusters,
                  xb: RT.Backend)
    requires EmitsIn(i, gw, base, order, ports, clusters)
    ensures IsBypassed(ports, clusters, xb) <==>
              exists route, a: nat, b: nat, q: nat, back :: IsAttached(i, gw, route)
                && Uses(i.world, route, a, b, q, back) && LeadsAround(BackendsOfPorts(i, gw, order), back, xb)
  {
    OrderCovers(i, gw, base, order, ports, clusters);
    var bs := BackendsOfPorts(i, gw, order);
    if p: nat, k: nat, n: nat, r, c :| IsEmitted(ports, p, k, n, r) && IsWeighted(r, c) && Bypasses(clusters, c, xb) {
      var route, a, b, q, back := EmittedIsUse(i, gw, ports, clusters, p, k, n, r, c);
      UseIsBackend(i.world, route, a, b, q, back);
      AttachedInPorts(i, gw, order, route, back);
      BypassesIffLeadsAround(base, bs, back, RT.WeightOf(route.rules[a].backends[q]), xb);
    }
    if route, a: nat, b: nat, q: nat, back :|
        IsAttached(i, gw, route) && Uses(i.world, route, a, b, q, back) && LeadsAround(bs, back, xb) {
      UseIsBackend(i.world, route, a, b, q, back);
      AttachedInPorts(i, gw, order, route, back);
      var p, k, n, r, weight := UseIsEmitted(i, gw, ports, clusters, route, a, b, q, back);
      BypassesIffLeadsAround(base, bs, back, weight, xb);
      assert IsWeighted(r, RT.ClusterFor(back, weight));
    }
  }

  predicate IsWeighted(r: Route, c: WeightedCluster) { r.action.Forward? && c in r.action.clusters }

  /** For instance: a reference to the Service behind the XBackend, by its name and port. */
  lemma DirectReferenceLeadsAround(ns: string, service: string, x: string, port: nat)
    ensures var back, xb := RT.Backend(Key(ns, service), None, port),
                            RT.Backend(Key(ns, x), Some(RT.XBackend(RT.ServiceTarget(service), port)), 0);
            LeadsAround([xb, back], back, xb)
  {
    var back, xb := RT.Backend(Key(ns, service), None, port),
                    RT.Backend(Key(ns, x), Some(RT.XBackend(RT.ServiceTarget(service), port)), 0);
    var bs := [xb, back];
    assert IsLast(bs, 1) && bs[1] == back;
  }
}
