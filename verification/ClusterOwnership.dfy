/**
 Where forwarded requests end up: the clusters of a snapshot are keyed by names that leave out the
 kind and the port of a backend and run its namespace and name together
 (pkg/constants/envoynames.go, pkg/translator/backend.go, pkg/translator/translator.go).
 */
module ClusterOwnership {
  import opened Options
  import opened Names
  import opened Hostnames
  import opened Listeners
  import opened RouteMatching
  import opened RouteOrder
  import opened RouteTranslation
  import opened Attachment
  import opened VirtualHosts
  import opened GatewayTranslation
  import opened GatewayRouting
  import ExtAuthz

  // ---------------------------------------------------------------- What is written

  /** Some listener that is served accepts the route. */
  predicate IsAttached(i: Inputs, gw: Gateway, route: HTTPRoute) {
    route in i.routes && exists l :: l in gw.listeners && Serves(gw, l) && Accepts(i.selects, gw, l, route)
  }

  lemma {:induction false} RouteIsIn(w: World, routes: seq<HTTPRoute>, k: nat, b: RouteTranslation.Backend)
    requires k < |routes| && b in Translation(w, routes[k]).backends
    ensures b in BackendsOfRoutes(w, routes)
  {
    if k < |routes| - 1 {
      RouteIsIn(w, routes[..|routes| - 1], k, b);
    }
  }

  lemma {:induction false} RouteWithBackend(w: World, routes: seq<HTTPRoute>, b: RouteTranslation.Backend) returns (k: nat)
    requires b in BackendsOfRoutes(w, routes)
    ensures k < |routes| && b in Translation(w, routes[k]).backends
  {
    k := |routes| - 1;
    if b !in Translation(w, routes[k]).backends {
      k := RouteWithBackend(w, routes[..k], b);
    }
  }

  /** What a listener of the list writes. */
  predicate WritesAt(i: Inputs, gw: Gateway, l: Listener, b: RouteTranslation.Backend) {
    Serves(gw, l) && b in BackendsOfRoutes(i.world, AcceptedRoutes(i.selects, gw, l, i.routes))
  }

  lemma {:induction false} InListeners(i: Inputs, gw: Gateway, ls: seq<Listener>, b: RouteTranslation.Backend)
    ensures b in BackendsOfListeners(i, gw, ls) <==> exists k :: 0 <= k < |ls| && WritesAt(i, gw, ls[k], b)
  {
    if ls != [] {
      var init := ls[..|ls| - 1];
      InListeners(i, gw, init, b);
      assert forall k :: 0 <= k < |init| ==> init[k] == ls[k];
    }
  }

  lemma {:induction false} InPorts(i: Inputs, gw: Gateway, order: seq<nat>, b: RouteTranslation.Backend)
    ensures b in BackendsOfPorts(i, gw, order) <==>
              exists k :: 0 <= k < |order| && b in BackendsOfListeners(i, gw, OnPort(gw.listeners, order[k]))
  {
    if order != [] {
      var init := order[..|order| - 1];
      InPorts(i, gw, init, b);
      assert forall k :: 0 <= k < |init| ==> init[k] == order[k];
    }
  }

  lemma WritesAttached(i: Inputs, gw: Gateway, l: Listener, b: RouteTranslation.Backend) returns (route: HTTPRoute)
    requires l in gw.listeners && WritesAt(i, gw, l, b)
    ensures IsAttached(i, gw, route) && b in Translation(i.world, route).backends
  {
    var rs := AcceptedRoutes(i.selects, gw, l, i.routes);
    var k := RouteWithBackend(i.world, rs, b);
    route := rs[k];
    assert route in rs;
    AcceptedRoutesContents(i.selects, gw, l, i.routes);
  }

  lemma AttachedIsWritten(i: Inputs, gw: Gateway, l: Listener, route: HTTPRoute, b: RouteTranslation.Backend)
    requires Serves(gw, l) && route in i.routes && Accepts(i.selects, gw, l, route)
    requires b in Translation(i.world, route).backends
    ensures WritesAt(i, gw, l, b)
  {
    var rs := AcceptedRoutes(i.selects, gw, l, i.routes);
    AcceptedRoutesContents(i.selects, gw, l, i.routes);
    var k :| 0 <= k < |rs| && rs[k] == route;
    RouteIsIn(i.world, rs, k, b);
  }

  /** All the ports of the Gateway. */
  predicate Covers(gw: Gateway, order: seq<nat>) { forall l :: l in gw.listeners ==> l.port in order }

  /** Written are exactly the backends of attached routes. */
  lemma WrittenIffAttached(i: Inputs, gw: Gateway, order: seq<nat>, b: RouteTranslation.Backend)
    requires Covers(gw, order)
    ensures b in BackendsOfPorts(i, gw, order) <==>
              exists route :: IsAttached(i, gw, route) && b in Translation(i.world, route).backends
  {
    InPorts(i, gw, order, b);
    if b in BackendsOfPorts(i, gw, order) {
      var k :| 0 <= k < |order| && b in BackendsOfListeners(i, gw, OnPort(gw.listeners, order[k]));
      var ls := OnPort(gw.listeners, order[k]);
      OnPortContents(gw.listeners, order[k]);
      InListeners(i, gw, ls, b);
      var n :| 0 <= n < |ls| && WritesAt(i, gw, ls[n], b);
      assert ls[n] in ls;
      var route := WritesAttached(i, gw, ls[n], b);
    }
    if route :| IsAttached(i, gw, route) && b in Translation(i.world, route).backends {
      AttachedInPorts(i, gw, order, route, b);
    }
  }

  lemma AttachedInPorts(i: Inputs, gw: Gateway, order: seq<nat>, route: HTTPRoute, b: RouteTranslation.Backend)
    requires Covers(gw, order) && IsAttached(i, gw, route) && b in Translation(i.world, route).backends
    ensures b in BackendsOfPorts(i, gw, order)
  {
    var l :| l in gw.listeners && Serves(gw, l) && Accepts(i.selects, gw, l, route);
    AttachedIsWritten(i, gw, l, route, b);
    var ls := OnPort(gw.listeners, l.port);
    OnPortContents(gw.listeners, l.port);
    var n :| 0 <= n < |ls| && ls[n] == l;
    InListeners(i, gw, ls, b);
    var k :| 0 <= k < |order| && order[k] == l.port;
    InPorts(i, gw, order, b);
  }

  // ---------------------------------------------------------------- What stays

  /** Backend `j` is the last that is written under its name. */
  predicate IsLast(bs: seq<RouteTranslation.Backend>, j: nat) {
    j < |bs| && forall k :: j < k < |bs| ==> ClusterNameOf(bs[k].key) != ClusterNameOf(bs[j].key)
  }

  lemma {:induction false} LastStays(base: Clusters, bs: seq<RouteTranslation.Backend>, j: nat)
    requires IsLast(bs, j)
    ensures var n := ClusterNameOf(bs[j].key);
            n in Overwritten(base, bs) && Overwritten(base, bs)[n] == ConvertToCluster(bs[j])
  {
    if j < |bs| - 1 {
      LastStays(base, bs[..|bs| - 1], j);
      ConvertKeepsName(bs[|bs| - 1]);
    } else {
      ConvertKeepsName(bs[j]);
    }
  }

  lemma {:induction false} UnwrittenStays(base: Clusters, bs: seq<RouteTranslation.Backend>, n: string)
    requires forall k :: 0 <= k < |bs| ==> ClusterNameOf(bs[k].key) != n
    ensures n in Overwritten(base, bs) <==> n in base
    ensures n in base ==> Overwritten(base, bs)[n] == base[n]
  {
    if bs != [] {
      UnwrittenStays(base, bs[..|bs| - 1], n);
      ConvertKeepsName(bs[|bs| - 1]);
    }
  }

  lemma ConvertKeepsName(back: RouteTranslation.Backend)
    ensures ConvertToCluster(back).name == ClusterNameOf(back.key)
  {
  }

  lemma {:induction false} LastExists(bs: seq<RouteTranslation.Backend>, k: nat) returns (j: nat)
    requires k < |bs|
    ensures IsLast(bs, j) && ClusterNameOf(bs[j].key) == ClusterNameOf(bs[k].key)
    decreases |bs| - k
  {
    if IsLast(bs, k) {
      j := k;
    } else {
      var l :| k < l < |bs| && ClusterNameOf(bs[l].key) == ClusterNameOf(bs[k].key);
      j := LastExists(bs, l);
    }
  }

  // ---------------------------------------------------------------- Sources

  /** What the output needs a cluster for: an authorization service, or the backend of an attached route. */
  ghost predicate IsSource(i: Inputs, gw: Gateway, c: ExtAuthz.Cluster) {
    || (exists e :: e in ExtAuthz.Entries(i.policies) && c == ExtAuthz.ClusterOf(e))
    || (exists route :: IsAttached(i, gw, route) && IsBackendOf(i.world, route, c))
  }

  ghost predicate IsBackendOf(w: World, route: HTTPRoute, c: ExtAuthz.Cluster) {
    exists b :: b in Translation(w, route).backends && c == ConvertToCluster(b)
  }

  lemma OrderCovers(i: Inputs, gw: Gateway, base: Clusters, order: seq<nat>, ports: map<nat, Port>, clusters: Clusters)
    requires EmitsIn(i, gw, base, order, ports, clusters)
    ensures Covers(gw, order)
  {
  }

  lemma BackendIsThere(i: Inputs, gw: Gateway, base: Clusters, order: seq<nat>, route: HTTPRoute,
                       b: RouteTranslation.Backend)
    requires Covers(gw, order) && IsAttached(i, gw, route) && b in Translation(i.world, route).backends
    ensures ClusterNameOf(b.key) in Overwritten(base, BackendsOfPorts(i, gw, order))
  {
    var bs := BackendsOfPorts(i, gw, order);
    AttachedInPorts(i, gw, order, route, b);
    var k :| 0 <= k < |bs| && bs[k] == b;
    var j := LastExists(bs, k);
    LastStays(base, bs, j);
  }

  lemma EntryIsThere(i: Inputs, base: Clusters, bs: seq<RouteTranslation.Backend>, e: ExtAuthz.Entry)
    requires ExtAuthz.ClustersFor(ExtAuthz.Entries(i.policies), base) && e in ExtAuthz.Entries(i.policies)
    ensures ExtAuthz.ClusterOf(e).name in Overwritten(base, bs)
  {
    var es := ExtAuthz.Entries(i.policies);
    var k :| 0 <= k < |es| && es[k] == e;
    assert ExtAuthz.ClustersOf(es)[k].name in base;
    KeysStay(base, bs, ExtAuthz.ClusterOf(e).name);
  }

  lemma {:induction false} KeysStay(base: Clusters, bs: seq<RouteTranslation.Backend>, n: string)
    requires n in base
    ensures n in Overwritten(base, bs)
  {
    if bs != [] {
      KeysStay(base, bs[..|bs| - 1], n);
    }
  }

  /** Every source has its name among the clusters. */
  lemma SourceIsThere(i: Inputs, gw: Gateway, ports: map<nat, Port>, clusters: Clusters, c: ExtAuthz.Cluster)
    requires Emits(i, gw, ports, clusters) && IsSource(i, gw, c)
    ensures c.name in clusters
  {
    var base, order :| EmitsIn(i, gw, base, order, ports, clusters);
    OrderCovers(i, gw, base, order, ports, clusters);
    if route :| IsAttached(i, gw, route) && IsBackendOf(i.world, route, c) {
      var b :| b in Translation(i.world, route).backends && c == ConvertToCluster(b);
      BackendIsThere(i, gw, base, order, route, b);
      ConvertKeepsName(b);
    } else {
      var e :| e in ExtAuthz.Entries(i.policies) && c == ExtAuthz.ClusterOf(e);
      EntryIsThere(i, base, BackendsOfPorts(i, gw, order), e);
    }
  }

  lemma BackendIsSource(i: Inputs, gw: Gateway, route: HTTPRoute, back: RouteTranslation.Backend)
    requires IsAttached(i, gw, route) && back in Translation(i.world, route).backends
    ensures IsSource(i, gw, ConvertToCluster(back)) && ConvertToCluster(back).name == ClusterNameOf(back.key)
  {
    assert IsBackendOf(i.world, route, ConvertToCluster(back));
  }

  lemma BaseIsSource(i: Inputs, gw: Gateway, base: Clusters, n: string)
    requires ExtAuthz.ClustersFor(ExtAuthz.Entries(i.policies), base) && n in base
    ensures base[n].name == n && IsSource(i, gw, base[n])
  {
    var es := ExtAuthz.Entries(i.policies);
    var k :| 0 <= k < |es| && ExtAuthz.ClustersOf(es)[k] == base[n];
    assert es[k] in es;
  }

  lemma WrittenIsSource(i: Inputs, gw: Gateway, order: seq<nat>, b: RouteTranslation.Backend)
    requires Covers(gw, order) && b in BackendsOfPorts(i, gw, order)
    ensures IsSource(i, gw, ConvertToCluster(b))
  {
    WrittenIffAttached(i, gw, order, b);
    var route :| IsAttached(i, gw, route) && b in Translation(i.world, route).backends;
    BackendIsSource(i, gw, route, b);
  }

  /** Conversely every cluster stands under its own name and is that of a source. */
  lemma ClusterIsSource(i: Inputs, gw: Gateway, ports: map<nat, Port>, clusters: Clusters, n: string)
    requires Emits(i, gw, ports, clusters) && n in clusters
    ensures clusters[n].name == n && IsSource(i, gw, clusters[n])
  {
    var base, order :| EmitsIn(i, gw, base, order, ports, clusters);
    OrderCovers(i, gw, base, order, ports, clusters);
    var bs := BackendsOfPorts(i, gw, order);
    if k: nat :| k < |bs| && ClusterNameOf(bs[k].key) == n {
      var j := LastExists(bs, k);
      LastStays(base, bs, j);
      ConvertKeepsName(bs[j]);
      WrittenIsSource(i, gw, order, bs[j]);
    } else {
      UnwrittenStays(base, bs, n);
      BaseIsSource(i, gw, base, n);
    }
  }

  /** No two things the output needs clusters for share a name and differ. */
  ghost predicate Unambiguous(i: Inputs, gw: Gateway) {
    forall c, d :: IsSource(i, gw, c) && IsSource(i, gw, d) && c.name == d.name ==> c == d
  }

  /** Every name stands for what it is needed for if and only if no name is needed for two things. */
  lemma AllOwnIffUnambiguous(i: Inputs, gw: Gateway, ports: map<nat, Port>, clusters: Clusters)
    requires Emits(i, gw, ports, clusters)
    ensures (forall c :: IsSource(i, gw, c) ==> c.name in clusters && clusters[c.name] == c) <==> Unambiguous(i, gw)
  {
    forall c | IsSource(i, gw, c)
      ensures c.name in clusters && IsSource(i, gw, clusters[c.name]) && clusters[c.name].name == c.name
    {
      SourceIsThere(i, gw, ports, clusters, c);
      ClusterIsSource(i, gw, ports, clusters, c.name);
    }
  }

  // ---------------------------------------------------------------- Uses

  /** Reference `q` of rule `a` has a weight and resolves to `back`, and the rule's match `b` forwards to it. */
  predicate Uses(w: World, route: HTTPRoute, a: nat, b: nat, q: nat, back: RouteTranslation.Backend) {
    && IsPosition(route, a, b) && !Rejected(MatchesOf(route.rules[a])[b]) && !route.rules[a].redirects
    && RouteAction(w, route.namespace, route.rules[a].backends).Forwarding?
    && q < |route.rules[a].backends| && WeightOf(route.rules[a].backends[q]) != 0
    && FetchBackend(w, route.namespace, route.rules[a].backends[q]) == Found(back)
  }

  lemma UseIsBackend(w: World, route: HTTPRoute, a: nat, b: nat, q: nat, back: RouteTranslation.Backend)
    requires Uses(w, route, a, b, q, back)
    ensures back in Translation(w, route).backends
  {
    var refs := route.rules[a].backends;
    ResolvesUnlessMissing(w, route.namespace, refs);
    assert Resolve(w, route.namespace, refs).backends[q] == back;
    assert back in At(w, route, a, b).backends;
    TranslationContains(w, route);
    var k := IndexOf(w, route, |route.rules|, a, b);
  }

  lemma UseIsForwarded(w: World, route: HTTPRoute, a: nat, b: nat, q: nat, back: RouteTranslation.Backend, r: Route)
    requires Uses(w, route, a, b, q, back) && At(w, route, a, b).routes == [r]
    ensures r.action.Forward? && ClusterFor(back, WeightOf(route.rules[a].backends[q])) in r.action.clusters
  {
    var refs := route.rules[a].backends;
    ClustersAreBacked(w, route.namespace, refs, ClusterFor(back, WeightOf(refs[q])));
  }

  /** Route `n` of virtual host `k` on port `p`. */
  predicate IsEmitted(ports: map<nat, Port>, p: nat, k: nat, n: nat, r: Route) {
    p in ports && k < |ports[p].hosts| && n < |ports[p].hosts[k].routes| && ports[p].hosts[k].routes[n] == r
  }

  /** Every Envoy route of an attached HTTPRoute is emitted on some port. */
  lemma AttachedIsEmitted(i: Inputs, gw: Gateway, ports: map<nat, Port>, clusters: Clusters, route: HTTPRoute, r: Route)
    returns (p: nat, k: nat, n: nat)
    requires Emits(i, gw, ports, clusters) && IsAttached(i, gw, route) && r in Translation(i.world, route).routes
    ensures IsEmitted(ports, p, k, n, r)
  {
    var l :| l in gw.listeners && Serves(gw, l) && Accepts(i.selects, gw, l, route);
    p := l.port;
    PortIsRight(i, gw, ports, clusters, p);
    var d := AcceptedIsAttached(i, gw, l, route, r);
    k, n := FoundInHosts(i, gw, OnPort(gw.listeners, p), ports[p].hosts, d, r);
  }

  lemma PortIsRight(i: Inputs, gw: Gateway, ports: map<nat, Port>, clusters: Clusters, p: nat)
    requires Emits(i, gw, ports, clusters)
    ensures p in ports <==> exists l :: l in gw.listeners && l.port == p
    ensures p in ports ==> PortRight(i, gw, OnPort(gw.listeners, p), ports[p])
  {
    var base, order :| EmitsIn(i, gw, base, order, ports, clusters);
  }

  lemma AcceptedIsAttached(i: Inputs, gw: Gateway, l: Listener, route: HTTPRoute, r: Route) returns (d: string)
    requires l in gw.listeners && Serves(gw, l) && Accepts(i.selects, gw, l, route)
    requires route in i.routes && r in Translation(i.world, route).routes
    ensures r in Attached(i, gw, OnPort(gw.listeners, l.port), d)
  {
    OnPortContents(gw.listeners, l.port);
    d :| d in Intersection(l.hostname, route.hostnames);
    assert MeetAt(i, gw, l, route, d);
    AttachedMembers(i, gw, OnPort(gw.listeners, l.port), d, r);
  }

  /** Conversely every weighted cluster of an emitted route is the use of a backend by an attached HTTPRoute. */
  lemma EmittedIsUse(i: Inputs, gw: Gateway, ports: map<nat, Port>, clusters: Clusters,
                     p: nat, k: nat, n: nat, r: Route, c: WeightedCluster)
    returns (route: HTTPRoute, a: nat, b: nat, q: nat, back: RouteTranslation.Backend)
    requires Emits(i, gw, ports, clusters) && IsEmitted(ports, p, k, n, r) && r.action.Forward?
    requires c in r.action.clusters
    ensures IsAttached(i, gw, route) && Uses(i.world, route, a, b, q, back) && At(i.world, route, a, b).routes == [r]
    ensures c == ClusterFor(back, WeightOf(route.rules[a].backends[q]))
  {
    PortIsRight(i, gw, ports, clusters, p);
    assert r in multiset(ports[p].hosts[k].routes);
    route := OriginOf(i, gw, p, ports[p].hosts[k].domain, r);
    a, b := RouteHasOrigin(i.world, route, r);
    q, back := ClusterIsUse(i.world, route, a, b, r, c);
  }

  lemma OriginOf(i: Inputs, gw: Gateway, p: nat, d: string, r: Route) returns (route: HTTPRoute)
    requires r in Attached(i, gw, OnPort(gw.listeners, p), d)
    ensures IsAttached(i, gw, route) && r in Translation(i.world, route).routes
  {
    OnPortContents(gw.listeners, p);
    AttachedMembers(i, gw, OnPort(gw.listeners, p), d, r);
    var l, origin :| l in OnPort(gw.listeners, p) && MeetAt(i, gw, l, origin, d) && r in Translation(i.world, origin).routes;
    route := origin;
  }

  lemma ClusterIsUse(w: World, route: HTTPRoute, a: nat, b: nat, r: Route, c: WeightedCluster) returns (q: nat,
                     back: RouteTranslation.Backend)
    requires IsPosition(route, a, b) && !Rejected(MatchesOf(route.rules[a])[b]) && At(w, route, a, b).routes == [r]
    requires r.action.Forward? && c in r.action.clusters
    ensures Uses(w, route, a, b, q, back) && c == ClusterFor(back, WeightOf(route.rules[a].backends[q]))
  {
    var refs := route.rules[a].backends;
    ClustersAreBacked(w, route.namespace, refs, c);
    q :| 0 <= q < |refs| && IsClusterOf(w, route.namespace, refs[q], c);
    back := FetchBackend(w, route.namespace, refs[q]).backend;
  }

  /** The snapshot is closed: every weighted cluster of an emitted route exists, and so does every check's. */
  lemma SnapshotIsClosed(i: Inputs, gw: Gateway, ports: map<nat, Port>, clusters: Clusters,
                         p: nat, k: nat, n: nat, r: Route, c: WeightedCluster)
    requires Emits(i, gw, ports, clusters) && IsEmitted(ports, p, k, n, r) && r.action.Forward?
    requires c in r.action.clusters
    ensures c.name in clusters
    ensures forall e :: e in ExtAuthz.Entries(i.policies) ==> ExtAuthz.ClusterOf(e).name in clusters
  {
    var route, a, b, q, back := EmittedIsUse(i, gw, ports, clusters, p, k, n, r, c);
    UseIsBackend(i.world, route, a, b, q, back);
    BackendIsSource(i, gw, route, back);
    SourceIsThere(i, gw, ports, clusters, ConvertToCluster(back));
    forall e | e in ExtAuthz.Entries(i.policies)
      ensures ExtAuthz.ClusterOf(e).name in clusters
    {
      SourceIsThere(i, gw, ports, clusters, ExtAuthz.ClusterOf(e));
    }
  }

  // ---------------------------------------------------------------- Reaching the own backend

  predicate IsOwn(clusters: Clusters, back: RouteTranslation.Backend) {
    ClusterNameOf(back.key) in clusters && clusters[ClusterNameOf(back.key)] == ConvertToCluster(back)
  }

  ghost predicate EveryUseIsOwn(i: Inputs, gw: Gateway, clusters: Clusters) {
    forall route, a: nat, b: nat, q: nat, back ::
      IsAttached(i, gw, route) && Uses(i.world, route, a, b, q, back) ==> IsOwn(clusters, back)
  }

  /** The last backend written under the name of `back`, weight or not, needs the same cluster. */
  ghost predicate LastAgrees(bs: seq<RouteTranslation.Backend>, back: RouteTranslation.Backend) {
    forall j: nat :: IsLast(bs, j) && ClusterNameOf(bs[j].key) == ClusterNameOf(back.key) ==>
      ConvertToCluster(bs[j]) == ConvertToCluster(back)
  }

  /** A backend that is written is what its name stands for if and only if the last under its name agrees. */
  lemma OwnIffLastAgrees(base: Clusters, bs: seq<RouteTranslation.Backend>, back: RouteTranslation.Backend)
    requires back in bs
    ensures IsOwn(Overwritten(base, bs), back) <==> LastAgrees(bs, back)
  {
    var k :| 0 <= k < |bs| && bs[k] == back;
    var last := LastExists(bs, k);
    LastStays(base, bs, last);
    forall j: nat | IsLast(bs, j) && ClusterNameOf(bs[j].key) == ClusterNameOf(back.key)
      ensures j == last
    {
    }
  }

  /**
   The exact condition: every weighted cluster that is emitted reaches its own backend if and only
   if, under every name in use, the last backend written agrees with the use. Backends of weight 0
   are written too, so exactly those that come last under a name in use and differ do harm.
   */
  lemma ReachOwnIffLastAgrees(i: Inputs, gw: Gateway, base: Clusters, order: seq<nat>, ports: map<nat, Port>,
                              clusters: Clusters)
    requires EmitsIn(i, gw, base, order, ports, clusters)
    ensures EveryUseIsOwn(i, gw, clusters) <==>
              forall route, a: nat, b: nat, q: nat, back ::
                IsAttached(i, gw, route) && Uses(i.world, route, a, b, q, back) ==>
                  LastAgrees(BackendsOfPorts(i, gw, order), back)
  {
    OrderCovers(i, gw, base, order, ports, clusters);
    forall route, a: nat, b: nat, q: nat, back | IsAttached(i, gw, route) && Uses(i.world, route, a, b, q, back)
      ensures IsOwn(clusters, back) <==> LastAgrees(BackendsOfPorts(i, gw, order), back)
    {
      UseIsBackend(i.world, route, a, b, q, back);
      AttachedInPorts(i, gw, order, route, back);
      OwnIffLastAgrees(base, BackendsOfPorts(i, gw, order), back);
    }
  }

  /** An authorization service keeps its cluster if and only if no backend, or only an equal one, took its name. */
  lemma CheckIsOwnIff(base: Clusters, bs: seq<RouteTranslation.Backend>, n: string)
    requires n in base
    ensures n in Overwritten(base, bs)
    ensures Overwritten(base, bs)[n] == base[n] <==>
              forall j: nat :: IsLast(bs, j) && ClusterNameOf(bs[j].key) == n ==> ConvertToCluster(bs[j]) == base[n]
  {
    KeysStay(base, bs, n);
    if k: nat :| k < |bs| && ClusterNameOf(bs[k].key) == n {
      var last := LastExists(bs, k);
      LastStays(base, bs, last);
      forall j: nat | IsLast(bs, j) && ClusterNameOf(bs[j].key) == n
        ensures j == last
      {
      }
    } else {
      UnwrittenStays(base, bs, n);
    }
  }

  /** Two used backends with one name and different clusters: an emitted route goes wrong. */
  lemma ClashMisroutes(i: Inputs, gw: Gateway, ports: map<nat, Port>, clusters: Clusters,
                       route: HTTPRoute, a: nat, b: nat, q: nat, back: RouteTranslation.Backend,
                       route': HTTPRoute, a': nat, b': nat, q': nat, back': RouteTranslation.Backend)
    returns (p: nat, k: nat, n: nat, r: Route, victim: RouteTranslation.Backend, weight: nat)
    requires Emits(i, gw, ports, clusters)
    requires IsAttached(i, gw, route) && Uses(i.world, route, a, b, q, back)
    requires IsAttached(i, gw, route') && Uses(i.world, route', a', b', q', back')
    requires Clash(back, back')
    ensures victim == back || victim == back'
    ensures IsEmitted(ports, p, k, n, r) && r.action.Forward? && ClusterFor(victim, weight) in r.action.clusters
    ensures ClusterNameOf(victim.key) in clusters && !IsOwn(clusters, victim)
  {
    UseIsBackend(i.world, route, a, b, q, back);
    BackendIsSource(i, gw, route, back);
    SourceIsThere(i, gw, ports, clusters, ConvertToCluster(back));
    if !IsOwn(clusters, back) {
      p, k, n, r, weight := UseIsEmitted(i, gw, ports, clusters, route, a, b, q, back);
      victim := back;
    } else {
      p, k, n, r, weight := UseIsEmitted(i, gw, ports, clusters, route', a', b', q', back');
      victim := back';
    }
  }

  lemma UseIsEmitted(i: Inputs, gw: Gateway, ports: map<nat, Port>, clusters: Clusters,
                     route: HTTPRoute, a: nat, b: nat, q: nat, back: RouteTranslation.Backend)
    returns (p: nat, k: nat, n: nat, r: Route, weight: nat)
    requires Emits(i, gw, ports, clusters) && IsAttached(i, gw, route) && Uses(i.world, route, a, b, q, back)
    ensures IsEmitted(ports, p, k, n, r) && r.action.Forward? && ClusterFor(back, weight) in r.action.clusters
    ensures weight == WeightOf(route.rules[a].backends[q])
  {
    r := MatchIsEmitted(i.world, route, a, b);
    UseIsForwarded(i.world, route, a, b, q, back, r);
    weight := WeightOf(route.rules[a].backends[q]);
    p, k, n := AttachedIsEmitted(i, gw, ports, clusters, route, r);
  }

  // ---------------------------------------------------------------- When backends clash

  /** Two backends share a cluster name and need different clusters. */
  predicate Clash(b: RouteTranslation.Backend, d: RouteTranslation.Backend) {
    ClusterNameOf(b.key) == ClusterNameOf(d.key) && ConvertToCluster(b) != ConvertToCluster(d)
  }

  ghost predicate Shifted(k: Key, l: Key) { exists piece :: Shifts(k, l, piece) || Shifts(l, k, piece) }

  predicate Dotless(s: string) { '.' !in s }

  lemma DottedIsInjective(a: string, b: string, c: string, d: string)
    requires Dotless(a) && Dotless(c) && a + "." + b == c + "." + d
    ensures a == c && b == d
  {
    var s := a + "." + b;
    assert s[|a|] == '.' && s[|c|] == '.';
    assert forall i :: 0 <= i < |a| ==> s[i] == a[i];
    assert forall i :: 0 <= i < |c| ==> s[i] == c[i];
    assert |a| == |c|;
    assert a == s[..|a|] == c && b == s[|a| + 1..] == d;
  }

  const LOCAL := ".svc.cluster.local"

  lemma HostsAreInjective(name: string, ns: string, name': string, ns': string)
    requires Dotless(name) && Dotless(name')
    ensures name + "." + ns + LOCAL == name' + "." + ns' + LOCAL <==> name == name' && ns == ns'
  {
    var h, h' := name + "." + ns, name' + "." + ns';
    if h + LOCAL == h' + LOCAL {
      assert |h| == |h'|;
      assert h == (h + LOCAL)[..|h|] == h';
      DottedIsInjective(name, ns, name', ns');
    }
  }

  lemma ShiftedDiffer(k: Key, l: Key)
    requires Shifted(k, l)
    ensures k.namespace != l.namespace && ClusterNameOf(k) == ClusterNameOf(l)
  {
    CollisionIffShift(k, l);
    var piece :| Shifts(k, l, piece) || Shifts(l, k, piece);
    assert |k.namespace| != |l.namespace|;
  }

  /** Two Services clash if and only if they are one Service with two ports, or their names shift. */
  lemma ServicesClashIff(b: RouteTranslation.Backend, d: RouteTranslation.Backend)
    requires b.x.None? && d.x.None? && Dotless(b.key.name) && Dotless(d.key.name)
    ensures Clash(b, d) <==> (b.key == d.key && b.servicePort != d.servicePort) || Shifted(b.key, d.key)
  {
    HostsAreInjective(b.key.name, b.key.namespace, d.key.name, d.key.namespace);
    CollisionIffShift(b.key, d.key);
    if Shifted(b.key, d.key) {
      ShiftedDiffer(b.key, d.key);
    }
  }

  /** A Service and an XBackend in front of a Service clash unless both lead to one Service and port. */
  lemma ServiceAndXBackendClashIff(b: RouteTranslation.Backend, d: RouteTranslation.Backend)
    requires b.x.None? && d.x.Some? && d.x.value.target.ServiceTarget?
    requires Dotless(b.key.name) && Dotless(d.x.value.target.service)
    ensures Clash(b, d) <==>
              || (b.key == d.key && (d.x.value.target.service != b.key.name || d.x.value.port != b.servicePort))
              || Shifted(b.key, d.key)
  {
    HostsAreInjective(b.key.name, b.key.namespace, d.x.value.target.service, d.key.namespace);
    CollisionIffShift(b.key, d.key);
    if Shifted(b.key, d.key) {
      ShiftedDiffer(b.key, d.key);
    }
  }

  /** In general: the names collide and host or port differ. */
  lemma ClashIff(b: RouteTranslation.Backend, d: RouteTranslation.Backend)
    ensures Clash(b, d) <==>
              && (b.key == d.key || Shifted(b.key, d.key))
              && (|| ConvertToCluster(b).host != ConvertToCluster(d).host
                  || ConvertToCluster(b).port != ConvertToCluster(d).port)
  {
    CollisionIffShift(b.key, d.key);
  }

  // ---------------------------------------------------------------- Two ports of one Service

  function PortRef(port: nat): BackendRef { BackendRef(None, None, None, "server", Some(port), None) }

  function TwoPortsRoute(): HTTPRoute {
    HTTPRoute("ns", "route", [ParentRef(None, None, None, "gateway", None, None)], [],
        [Rule([], false, [PortRef(80), PortRef(8080)])])
  }

  function TwoPortsGateway(): Gateway { Gateway("ns", "gateway", [Listener("http", 80, HTTP, None, None)]) }

  function TwoPortsInputs(selects: Selects): Inputs {
    Inputs(World(map[Key("ns", "server") := [80, 8080]], map[], Some([])), [TwoPortsRoute()], selects, [])
  }

  function ServiceBackend(port: nat): RouteTranslation.Backend { RouteTranslation.Backend(Key("ns", "server"), None,
                          port) }

  lemma TwoPortsAttached(selects: Selects)
    ensures IsAttached(TwoPortsInputs(selects), TwoPortsGateway(), TwoPortsRoute())
  {
    var i, gw, route := TwoPortsInputs(selects), TwoPortsGateway(), TwoPortsRoute();
    var l := gw.listeners[0];
    assert l in gw.listeners && !Mixed(gw.listeners, 80) && !Clashes(gw.listeners, l);
    assert "*" in Intersection(l.hostname, route.hostnames);
    assert AcceptsFor(selects, gw, l, route, route.parents[0]);
    assert Accepts(selects, gw, l, route);
    assert route in i.routes;
  }

  lemma TwoPortsUsed(selects: Selects, q: nat)
    requires q < 2
    ensures Uses(TwoPortsInputs(selects).world, TwoPortsRoute(), 0, 0, q, ServiceBackend(if q == 0 then 80 else 8080))
  {
    var w, route := TwoPortsInputs(selects).world, TwoPortsRoute();
    var refs := route.rules[0].backends;
    ResolvesUnlessMissing(w, "ns", refs);
    assert FetchBackend(w, "ns", refs[0]) == Found(ServiceBackend(80));
    assert FetchBackend(w, "ns", refs[1]) == Found(ServiceBackend(8080));
    assert WeightOf(refs[0]) == 1;
    assert !Rejected(MATCH_ALL);
  }

  /**
   A rule that splits traffic between two ports of a Service: whatever is emitted for it, one half
   of the traffic goes to the other half's port.
   */
  lemma TwoPortsOneCluster(selects: Selects, ports: map<nat, Port>, clusters: Clusters)
    returns (p: nat, k: nat, n: nat, r: Route, port: nat, weight: nat)
    requires Emits(TwoPortsInputs(selects), TwoPortsGateway(), ports, clusters)
    ensures (port == 80 || port == 8080) && IsEmitted(ports, p, k, n, r) && r.action.Forward?
    ensures ClusterFor(ServiceBackend(port), weight) in r.action.clusters
    ensures !IsOwn(clusters, ServiceBackend(port))
  {
    var i, gw, route := TwoPortsInputs(selects), TwoPortsGateway(), TwoPortsRoute();
    TwoPortsAttached(selects);
    TwoPortsUsed(selects, 0);
    TwoPortsUsed(selects, 1);
    var b, d := ServiceBackend(80), ServiceBackend(8080);
    var victim;
    p, k, n, r, victim, weight := ClashMisroutes(i, gw, ports, clusters, route, 0, 0, 0, b, route, 0, 0, 1, d);
    port := if victim == b then 80 else 8080;
  }
}
