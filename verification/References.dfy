/**
 What holds a Gateway or an XBackend back, and what wakes it: the references that the finalizer
 protocol calls `targets` are the same for the deletion test and for the event handlers
 (pkg/controller/controller.go, httproute.go, backend.go, accesspolicy.go).
 */
module References {
  import opened Options
  import opened Names
  import opened RouteTranslation
  import opened ServiceEvents
  import opened AccessPolicies
  import FinalizerProtocol

  // ---------------------------------------------------------------- HTTPRoutes and Gateways

  function ParentKey(ns: string, p: ParentRef): Key { Key(p.namespace.GetOr(ns), p.name) }

  /** The Gateways an HTTPRoute refers to. */
  function RouteTargets(route: HTTPRoute): set<Key> {
    set p | p in route.parents && IsGatewayRef(p) :: ParentKey(route.namespace, p)
  }

  /** The targets of a route in the words of its parent references. */
  lemma RouteTargetsIff(route: HTTPRoute, gw: Key)
    ensures gw in RouteTargets(route) <==>
              exists p :: p in route.parents
                && (p.group == None || p.group == Some("gateway.networking.k8s.io"))
                && (p.kind == None || p.kind == Some("Gateway"))
                && gw == Key(if p.namespace.Some? then p.namespace.value else route.namespace, p.name)
  {
    assert forall p :: IsGatewayRef(p) <==>
        && (p.group == None || p.group == Some("gateway.networking.k8s.io"))
        && (p.kind == None || p.kind == Some("Gateway"));
  }

  method HasHTTPRoutesReferencingGateway(routes: seq<HTTPRoute>, gw: Key) returns (found: bool)
    ensures found <==> exists i :: 0 <= i < |routes| && gw in RouteTargets(routes[i])
  {
    for i := 0 to |routes|
      invariant forall a :: 0 <= a < i ==> gw !in RouteTargets(routes[a])
    {
      var route := routes[i];
      for j := 0 to |route.parents|
        invariant forall b :: 0 <= b < j && IsGatewayRef(route.parents[b]) ==>
                    ParentKey(route.namespace, route.parents[b]) != gw
      {
        if IsGatewayRef(route.parents[j]) && ParentKey(route.namespace, route.parents[j]) == gw {
          assert route.parents[j] in route.parents;
          return true;
        }
      }
    }
    return false;
  }

  /** The handlers enqueue exactly the Gateways that the deletion test looks for. */
  lemma RouteWakesItsTargets(route: HTTPRoute, gw: Key)
    requires '/' !in gw.namespace && forall k :: k in RouteTargets(route) ==> '/' !in k.namespace
    ensures Render(gw) in Parents(route) <==> gw in RouteTargets(route)
  {
    if Render(gw) in Parents(route) {
      var p :| p in route.parents && IsGatewayRef(p) && Render(gw) == GatewayKey(route.namespace, p);
      assert ParentKey(route.namespace, p) in RouteTargets(route);
      RenderIsInjective(gw, ParentKey(route.namespace, p));
    }
    if gw in RouteTargets(route) {
      var p :| p in route.parents && IsGatewayRef(p) && gw == ParentKey(route.namespace, p);
      assert GatewayKey(route.namespace, p) in Parents(route);
    }
  }

  /** An HTTPRoute with the metadata its handlers look at. */
  datatype RouteObject = RouteObject(route: HTTPRoute, uid: nat, generation: nat, annotations: nat, deleting: bool)

  /** The same object as the finalizer protocol sees it. */
  function AsReferrer(o: RouteObject): FinalizerProtocol.Referrer {
    FinalizerProtocol.Referrer(o.uid, o.generation, o.annotations, o.deleting, RouteTargets(o.route))
  }

  /** An update that looks like a change wakes the parents the route had and the parents it has. */
  method OnHTTPRouteUpdate(was: RouteObject, now: RouteObject, queue: set<string>) returns (queue': set<string>)
    requires was.route.namespace == now.route.namespace
    ensures queue' == queue +
              if was.generation != now.generation || was.annotations != now.annotations || was.deleting || now.deleting
              then Parents(was.route) + Parents(now.route) else {}
  {
    if now.generation == was.generation && !was.deleting && !now.deleting && now.annotations == was.annotations {
      return queue;
    }
    queue' := EnqueueGatewaysForHTTPRoute(was.route.parents + now.route.parents, now.route.namespace, queue);
    assert GatewayKeys(was.route.parents + now.route.parents, now.route.namespace) == Parents(was.route) + Parents(now.route);
  }

  /** The handler wakes exactly the Gateways that the protocol's event stands for. */
  lemma UpdateWakesEventTargets(c: FinalizerProtocol.Config, was: RouteObject, now: RouteObject, gw: Key)
    requires c.kind.GatewayKind? && '/' !in gw.namespace
    requires forall k :: k in RouteTargets(was.route) + RouteTargets(now.route) ==> '/' !in k.namespace
    ensures var e := FinalizerProtocol.Event(Key(now.route.namespace, now.route.name), Some(AsReferrer(was)),
              Some(AsReferrer(now)));
            gw in FinalizerProtocol.EventTargets(c, e) <==>
              && (was.generation != now.generation || was.annotations != now.annotations || was.deleting || now.deleting)
              && Render(gw) in Parents(was.route) + Parents(now.route)
  {
    RouteWakesItsTargets(was.route, gw);
    RouteWakesItsTargets(now.route, gw);
  }

  // ---------------------------------------------------------------- Policies and XBackends

  predicate IsXBackendTarget(t: TargetRef) { t.group == AGENTIC_GROUP && t.kind == "XBackend" }

  /** The XBackends a policy targets, all in its own namespace. */
  function PolicyTargets(policy: AccessPolicy): set<Key> {
    set t | t in policy.targets && IsXBackendTarget(t) :: Key(policy.namespace, t.name)
  }

  /** The targets of a policy in the words of its target references. */
  lemma PolicyTargetsIff(policy: AccessPolicy, b: Key)
    ensures b in PolicyTargets(policy) <==>
              && b.namespace == policy.namespace
              && TargetRef("agentic.prototype.x-k8s.io", "XBackend", b.name) in policy.targets
  {
    var meant := TargetRef("agentic.prototype.x-k8s.io", "XBackend", b.name);
    if b in PolicyTargets(policy) {
      var t :| t in policy.targets && IsXBackendTarget(t) && b == Key(policy.namespace, t.name);
      assert t == meant;
    }
    if meant in policy.targets {
      assert IsXBackendTarget(meant);
    }
  }

  /**
   The translator goes by kind and name alone. A policy that holds an XBackend back applies to it;
   one that applies to it holds it back if and only if a target spells out the group, which the
   API demands of every target.
   */
  lemma HeldIffGroupIsNamed(policy: AccessPolicy, b: Key)
    ensures Targets(policy, AccessPolicies.Backend(b.namespace, b.name)) <==>
              && policy.namespace == b.namespace
              && exists t :: t in policy.targets && t.kind == "XBackend" && t.name == b.name
    ensures b in PolicyTargets(policy) ==> Targets(policy, AccessPolicies.Backend(b.namespace, b.name))
    ensures Targets(policy, AccessPolicies.Backend(b.namespace, b.name)) ==>
              (b in PolicyTargets(policy) <==>
               TargetRef("agentic.prototype.x-k8s.io", "XBackend", b.name) in policy.targets)
  {
    PolicyTargetsIff(policy, b);
    if t :| t in policy.targets && t.kind == "XBackend" && t.name == b.name {
      var i :| 0 <= i < |policy.targets| && policy.targets[i] == t;
    }
  }

  method HasAccessPoliciesTargetingBackend(policies: seq<AccessPolicy>, b: Key) returns (found: bool)
    ensures found <==> exists i :: 0 <= i < |policies| && b in PolicyTargets(policies[i])
  {
    for i := 0 to |policies|
      invariant forall a :: 0 <= a < i ==> b !in PolicyTargets(policies[a])
    {
      var policy := policies[i];
      if policy.namespace == b.namespace {
        for j := 0 to |policy.targets|
          invariant forall c :: 0 <= c < j && IsXBackendTarget(policy.targets[c]) ==> policy.targets[c].name != b.name
        {
          if IsXBackendTarget(policy.targets[j]) && policy.targets[j].name == b.name {
            assert policy.targets[j] in policy.targets;
            return true;
          }
        }
      }
    }
    return false;
  }

  /** A policy event wakes the targeted XBackends that are in the cache. */
  method EnqueueBackendsForAccessPolicy(policy: AccessPolicy, cached: set<Key>, queue: set<Key>) returns (now: set<Key>)
    ensures now == queue + PolicyTargets(policy) * cached
  {
    now := queue;
    for n := 0 to |policy.targets|
      invariant now == queue + cached *
                  set t | t in policy.targets[..n] && IsXBackendTarget(t) :: Key(policy.namespace, t.name)
    {
      var t := policy.targets[n];
      assert policy.targets[..n + 1] == policy.targets[..n] + [t];
      if IsXBackendTarget(t) && Key(policy.namespace, t.name) in cached {
        now := now + {Key(policy.namespace, t.name)};
      }
    }
    assert policy.targets[..|policy.targets|] == policy.targets;
  }
}
