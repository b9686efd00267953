/**
 A whole Gateway: its routes become the virtual hosts of its ports and the clusters they forward
 to (pkg/translator/translator.go).
 */
module GatewayTranslation {
  import opened Options
  import opened Names
  import opened Hostnames
  import opened Listeners
  import opened FilterChains
  import opened RouteMatching
  import opened RouteOrder
  import opened RouteTranslation
  import opened Attachment
  import opened VirtualHosts
  import ExtAuthz
  import AccessPolicies

  /** What the translation reads: the caches and the meaning of label selectors. */
  datatype Inputs = Inputs(world: World, routes: seq<HTTPRoute>, selects: Selects,
      policies: seq<AccessPolicies.AccessPolicy>)

  // ---------------------------------------------------------------- Specification

  /** Listeners whose routes are translated: valid kinds, no conflict, HTTP or HTTPS. */
  predicate Serves(gw: Gateway, l: Listener) {
    KindsValid(l) && ConflictOf(gw.listeners, l).None? && (l.protocol.HTTP? || l.protocol.HTTPS?)
  }

  /** What one route gives to a domain on a listener: all its Envoy routes, as often as the domain is listed. */
  function Share(w: World, l: Listener, route: HTTPRoute, d: string): multiset<Route> {
    Times(Intersection(l.hostname, route.hostnames)[d], multiset(Translation(w, route).routes))
  }

  function Shares(w: World, l: Listener, routes: seq<HTTPRoute>, d: string): multiset<Route> {
    if routes == [] then multiset{} else Shares(w, l, routes[..|routes| - 1], d) + Share(w, l, routes[|routes| - 1], d)
  }

  /** All that the listeners in `ls` give to a domain. */
  function Attached(i: Inputs, gw: Gateway, ls: seq<Listener>, d: string): multiset<Route> {
    if ls == [] then multiset{}
    else
      var init, l := Attached(i, gw, ls[..|ls| - 1], d), ls[|ls| - 1];
      if Serves(gw, l) then init + Shares(i.world, l, AcceptedRoutes(i.selects, gw, l, i.routes), d) else init
  }

  // ---------------------------------------------------------------- Clusters

  type Clusters = map<string, ExtAuthz.Cluster>

  /** The cluster of a backend: a service's DNS name, or the external host. */
  function ConvertToCluster(b: RouteTranslation.Backend): ExtAuthz.Cluster {
    var name := ClusterNameOf(b.key);
    if b.x.None? then ExtAuthz.Cluster(name, b.key.name + "." + b.key.namespace + ".svc.cluster.local", b.servicePort)
    else
      match b.x.value.target
      case ServiceTarget(s) => ExtAuthz.Cluster(name, s + "." + b.key.namespace + ".svc.cluster.local", b.x.value.port)
      case HostTarget(h) => ExtAuthz.Cluster(name, h, b.x.value.port)
  }

  /**
   Where a reference that can be fetched leads: a Service to its own name in the cluster's DNS, on
   the port of the reference, the first port of the Service, or 80; an XBackend to the Service of
   its namespace or the external host it names, on its own port.
   */
  lemma EndpointOfReference(w: World, ns: string, ref: BackendRef)
    requires FetchBackend(w, ns, ref).Found?
    ensures var key := Key(if ref.namespace.Some? then ref.namespace.value else ns, ref.name);
            var c := ConvertToCluster(FetchBackend(w, ns, ref).backend);
            && c.name == key.namespace + "-" + key.name
            && (RefersToService(ref) ==>
                  && key in w.services
                  && c.host == ref.name + "." + key.namespace + ".svc.cluster.local"
                  && c.port == (if ref.port.Some? then ref.port.value
                                else if w.services[key] == [] then 80 else w.services[key][0]))
            && (!RefersToService(ref) ==>
                  && key in w.xbackends
                  && c.port == w.xbackends[key].port
                  && (forall h :: w.xbackends[key].target == HostTarget(h) ==> c.host == h)
                  && (forall s :: w.xbackends[key].target == ServiceTarget(s) ==>
                        c.host == s + "." + key.namespace + ".svc.cluster.local"))
  {
    FetchedIff(w, ns, ref);
  }

  /** The clusters of backends written one after the other: of two under one name the later stays. */
  function Overwritten(base: Clusters, bs: seq<RouteTranslation.Backend>): Clusters {
    if bs == [] then base
    else
      var c := ConvertToCluster(bs[|bs| - 1]);
      Overwritten(base, bs[..|bs| - 1])[c.name := c]
  }

  lemma {:induction false} OverwrittenTwice(base: Clusters, a: seq<RouteTranslation.Backend>,
                                            b: seq<RouteTranslation.Backend>)
    ensures Overwritten(base, a + b) == Overwritten(Overwritten(base, a), b)
  {
    if b == [] {
      assert a + b == a;
    } else {
      assert (a + b)[..|a + b| - 1] == a + b[..|b| - 1];
      OverwrittenTwice(base, a, b[..|b| - 1]);
    }
  }

  method AddClusters(was: Clusters, backends: seq<RouteTranslation.Backend>) returns (now: Clusters)
    ensures now == Overwritten(was, backends)
  {
    now := was;
    for m := 0 to |backends|
      invariant now == Overwritten(was, backends[..m])
    {
      assert backends[..m + 1][..m] == backends[..m];
      var c := ConvertToCluster(backends[m]);
      now := now[c.name := c];
    }
    assert backends[..|backends|] == backends;
  }

  /** The backends of routes, of all that the listeners in `ls` attach, and of ports, in the order they are met. */
  function BackendsOfRoutes(w: World, routes: seq<HTTPRoute>): seq<RouteTranslation.Backend> {
    if routes == [] then []
    else BackendsOfRoutes(w, routes[..|routes| - 1]) + Translation(w, routes[|routes| - 1]).backends
  }

  function BackendsOfListeners(i: Inputs, gw: Gateway, ls: seq<Listener>): seq<RouteTranslation.Backend> {
    if ls == [] then []
    else
      var init, l := BackendsOfListeners(i, gw, ls[..|ls| - 1]), ls[|ls| - 1];
      if Serves(gw, l) then init + BackendsOfRoutes(i.world, AcceptedRoutes(i.selects, gw, l, i.routes)) else init
  }

  function BackendsOfPorts(i: Inputs, gw: Gateway, order: seq<nat>): seq<RouteTranslation.Backend> {
    if order == [] then []
    else
      BackendsOfPorts(i, gw, order[..|order| - 1]) + BackendsOfListeners(i, gw,
          OnPort(gw.listeners, order[|order| - 1]))
  }

  // ---------------------------------------------------------------- One listener

  /** The virtual hosts hold what they held, and the shares of the routes. */
  ghost predicate HoldsShares(w: World, l: Listener, routes: seq<HTTPRoute>, was: map<string, seq<Route>>,
                              now: map<string, seq<Route>>) {
    forall d :: RoutesAt(now, d) == RoutesAt(was, d) + Shares(w, l, routes, d)
  }

  lemma ShareAdded(w: World, l: Listener, routes: seq<HTTPRoute>, route: HTTPRoute, was: map<string, seq<Route>>,
                   mid: map<string, seq<Route>>, domains: seq<string>, now: map<string, seq<Route>>)
    requires HoldsShares(w, l, routes, was, mid) && multiset(domains) == Intersection(l.hostname, route.hostnames)
    requires Grown(mid, domains, multiset(Translation(w, route).routes), now)
    ensures HoldsShares(w, l, routes + [route], was, now)
  {
    assert (routes + [route])[..|routes|] == routes;
    forall d
      ensures RoutesAt(now, d) == RoutesAt(was, d) + Shares(w, l, routes + [route], d)
    {
      assert GrownAt(mid, domains, multiset(Translation(w, route).routes), now, d);
    }
  }

  lemma {:induction false} TimesNothing(n: nat)
    ensures Times(n, multiset{}) == multiset{}
  {
    if n > 0 {
      TimesNothing(n - 1);
    }
  }

  /** A route without Envoy routes creates no virtual host. */
  lemma NothingGrows(hosts: map<string, seq<Route>>, domains: seq<string>)
    ensures Grown(hosts, domains, multiset{}, hosts)
  {
    forall d
      ensures GrownAt(hosts, domains, multiset{}, hosts, d)
    {
      TimesNothing(multiset(domains)[d]);
    }
  }

  /** Routes that contribute no Envoy route do not count as attached. */
  function AttachedCount(w: World, routes: seq<HTTPRoute>): nat {
    if routes == [] then 0
    else AttachedCount(w, routes[..|routes| - 1]) + if Translation(w, routes[|routes| - 1]).routes != [] then 1 else 0
  }

  lemma AttachedCountNext(w: World, done: seq<HTTPRoute>, route: HTTPRoute)
    ensures AttachedCount(w, done + [route]) == AttachedCount(w, done) + if Translation(w, route).routes != [] then 1 else 0
  {
    assert (done + [route])[..|done|] == done;
  }

  lemma RouteOverwrites(w: World, base: Clusters, done: seq<HTTPRoute>, route: HTTPRoute)
    ensures Overwritten(base, BackendsOfRoutes(w, done + [route])) ==
              Overwritten(Overwritten(base, BackendsOfRoutes(w, done)), Translation(w, route).backends)
  {
    assert (done + [route])[..|done|] == done;
    OverwrittenTwice(base, BackendsOfRoutes(w, done), Translation(w, route).backends);
  }

  /** What stands after the routes in `done` were attached to the listener, given what stood before. */
  ghost predicate AttachedSoFar(w: World, l: Listener, done: seq<HTTPRoute>, was: map<string, seq<Route>>,
                                base: Clusters,
                                hosts: map<string, seq<Route>>, clusters: Clusters, count: nat)
  {
    && NoEmptyHost(hosts) && HoldsShares(w, l, done, was, hosts)
    && clusters == Overwritten(base, BackendsOfRoutes(w, done))
    && count == AttachedCount(w, done)
  }

  /** One route on one listener, after those in `done`. */
  method AttachRoute(w: World, l: Listener, route: HTTPRoute,
                     hosts: map<string, seq<Route>>, clusters: Clusters, count: nat,
                     ghost was: map<string, seq<Route>>, ghost base: Clusters, ghost done: seq<HTTPRoute>)
    returns (hosts': map<string, seq<Route>>, clusters': Clusters, count': nat)
    requires AttachedSoFar(w, l, done, was, base, hosts, clusters, count)
    ensures AttachedSoFar(w, l, done + [route], was, base, hosts', clusters', count')
  {
    var out := TranslateHTTPRoute(w, route);
    clusters' := AddClusters(clusters, out.backends);
    RouteOverwrites(w, base, done, route);
    var names := GetIntersectingHostnames(l.hostname, route.hostnames);
    hosts', count' := hosts, count;
    if out.routes != [] {
      count' := count + 1;
      hosts' := AddRoutes(hosts, names, out.routes);
    } else {
      NothingGrows(hosts, names);
    }
    ShareAdded(w, l, done, route, was, hosts, names, hosts');
    AttachedCountNext(w, done, route);
  }

  lemma NothingAttached(w: World, l: Listener, hosts: map<string, seq<Route>>, clusters: Clusters)
    requires NoEmptyHost(hosts)
    ensures AttachedSoFar(w, l, [], hosts, clusters, hosts, clusters, 0)
  {
  }

  lemma PrefixNext(routes: seq<HTTPRoute>, n: nat)
    requires n < |routes|
    ensures routes[..n + 1] == routes[..n] + [routes[n]]
  {
  }

  method AttachRoutes(w: World, l: Listener, routes: seq<HTTPRoute>, hosts: map<string, seq<Route>>, clusters: Clusters)
    returns (hosts': map<string, seq<Route>>, clusters': Clusters, count: nat)
    requires NoEmptyHost(hosts)
    ensures AttachedSoFar(w, l, routes, hosts, clusters, hosts', clusters', count)
  {
    hosts', clusters', count := hosts, clusters, 0;
    NothingAttached(w, l, hosts, clusters);
    ghost var done: seq<HTTPRoute> := [];
    var n := 0;
    while n < |routes|
      invariant n <= |routes| && done == routes[..n]
      invariant AttachedSoFar(w, l, done, hosts, clusters, hosts', clusters', count)
    {
      PrefixNext(routes, n);
      var route := routes[n];
      hosts', clusters', count := AttachRoute(w, l, route, hosts', clusters', count, hosts, clusters, done);
      done, n := done + [route], n + 1;
    }
    assert done == routes;
  }

  // ---------------------------------------------------------------- One port

  datatype ListenerStatus = ListenerStatus(programmed: bool, accepted: bool, attachedRoutes: nat)

  function StatusOf(i: Inputs, gw: Gateway, l: Listener): ListenerStatus {
    ListenerStatus(Survives(gw.listeners, l), Survives(gw.listeners, l),
                   if Serves(gw, l) then AttachedCount(i.world, AcceptedRoutes(i.selects, gw, l, i.routes)) else 0)
  }

  /** The listener supports all the kinds it lists: HTTPRoutes of the Gateway API, the group left out or written. */
  ghost predicate KindsInWords(l: Listener) {
    l.allowed.Some? ==>
      forall k :: k in l.allowed.value.kinds ==>
        k.kind == "HTTPRoute" && (k.group == None || k.group == Some("gateway.networking.k8s.io"))
  }

  /** The route has a match that can be translated. */
  ghost predicate Offers(route: HTTPRoute) {
    exists rule, m :: rule in route.rules && IsMatchOf(rule, m) && !Rejected(m)
  }

  lemma OffersIff(w: World, route: HTTPRoute)
    ensures Offers(route) <==> Translation(w, route).routes != []
  {
    if rule, m :| rule in route.rules && IsMatchOf(rule, m) && !Rejected(m) {
      var r := RuleHasItsRoutes(w, route, rule, m);
    }
    if Translation(w, route).routes != [] {
      var rule, m := RouteIsOfARule(w, route, Translation(w, route).routes[0]);
    }
  }

  /** The positions, among the first `n` routes, of those the listener accepts and that offer something. */
  ghost function Counted(i: Inputs, gw: Gateway, l: Listener, n: nat): set<nat>
    requires n <= |i.routes|
  {
    set k | 0 <= k < n && Accepts(i.selects, gw, l, i.routes[k]) && Offers(i.routes[k])
  }

  lemma CountedNext(i: Inputs, gw: Gateway, l: Listener, n: nat, m: nat)
    requires n < |i.routes| && m == n + 1
    ensures |Counted(i, gw, l, m)| ==
              |Counted(i, gw, l, n)| + if Accepts(i.selects, gw, l, i.routes[n]) && Offers(i.routes[n]) then 1 else 0
  {
    var now := Counted(i, gw, l, n) + if Accepts(i.selects, gw, l, i.routes[n]) && Offers(i.routes[n]) then {n} else {};
    assert Counted(i, gw, l, m) == now;
  }

  lemma {:induction false} AttachedAreCounted(i: Inputs, gw: Gateway, l: Listener, n: nat)
    requires n <= |i.routes|
    ensures AttachedCount(i.world, AcceptedRoutes(i.selects, gw, l, i.routes[..n])) == |Counted(i, gw, l, n)|
  {
    if n > 0 {
      var route, init := i.routes[n - 1], i.routes[..n - 1];
      AttachedAreCounted(i, gw, l, n - 1);
      assert i.routes[..n][..n - 1] == init;
      OffersIff(i.world, route);
      AttachedCountNext(i.world, AcceptedRoutes(i.selects, gw, l, init), route);
      CountedNext(i, gw, l, n - 1, n);
    }
  }

  /**
   A listener's status in words: it is accepted and programmed if it supports its kinds and has no
   conflict, and an HTTP or HTTPS listener then reports the accepted routes that offer something.
   */
  lemma StatusInWords(i: Inputs, gw: Gateway, l: Listener)
    ensures var s := StatusOf(i, gw, l);
            var fit := KindsInWords(l) && ConflictOf(gw.listeners, l) == None;
            && (s.programmed <==> fit) && (s.accepted <==> fit)
            && s.attachedRoutes ==
                 (if fit && (l.protocol == HTTP || l.protocol == HTTPS) then |Counted(i, gw, l, |i.routes|)| else 0)
  {
    AttachedAreCounted(i, gw, l, |i.routes|);
    assert i.routes[..|i.routes|] == i.routes;
    assert KindsInWords(l) <==> KindsValid(l);
  }

  ghost predicate PortHolds(i: Inputs, gw: Gateway, ls: seq<Listener>, hosts: map<string, seq<Route>>) {
    forall d :: RoutesAt(hosts, d) == Attached(i, gw, ls, d)
  }

  lemma PortSkips(i: Inputs, gw: Gateway, ls: seq<Listener>, l: Listener, hosts: map<string, seq<Route>>)
    requires PortHolds(i, gw, ls, hosts) && !Serves(gw, l)
    ensures PortHolds(i, gw, ls + [l], hosts)
  {
    assert (ls + [l])[..|ls|] == ls;
  }

  lemma PortGrows(i: Inputs, gw: Gateway, ls: seq<Listener>, l: Listener, was: map<string, seq<Route>>,
                  now: map<string, seq<Route>>)
    requires PortHolds(i, gw, ls, was) && Serves(gw, l)
    requires HoldsShares(i.world, l, AcceptedRoutes(i.selects, gw, l, i.routes), was, now)
    ensures PortHolds(i, gw, ls + [l], now)
  {
    assert (ls + [l])[..|ls|] == ls;
  }

  /** What stands after the listeners in `ls`, the clusters having been `base`. */
  ghost predicate PortState(i: Inputs, gw: Gateway, ls: seq<Listener>, base: Clusters,
                            hosts: map<string, seq<Route>>, clusters: Clusters)
  {
    && PortHolds(i, gw, ls, hosts) && NoEmptyHost(hosts)
    && clusters == Overwritten(base, BackendsOfListeners(i, gw, ls))
  }

  lemma ListenerOverwrites(i: Inputs, gw: Gateway, base: Clusters, ls: seq<Listener>, l: Listener)
    ensures var was := Overwritten(base, BackendsOfListeners(i, gw, ls));
            Overwritten(base, BackendsOfListeners(i, gw, ls + [l])) ==
              if !Serves(gw, l) then was
              else Overwritten(was, BackendsOfRoutes(i.world, AcceptedRoutes(i.selects, gw, l, i.routes)))
  {
    assert (ls + [l])[..|ls|] == ls;
    OverwrittenTwice(base, BackendsOfListeners(i, gw, ls),
        BackendsOfRoutes(i.world, AcceptedRoutes(i.selects, gw, l, i.routes)));
  }

  method TranslateListener(i: Inputs, gw: Gateway, l: Listener,
                           conflicts: map<string, Conflict>, groups: map<string, seq<HTTPRoute>>,
                           hosts: map<string, seq<Route>>, clusters: Clusters,
                           ghost base: Clusters, ghost ls: seq<Listener>)
    returns (hosts': map<string, seq<Route>>, clusters': Clusters, status: ListenerStatus)
    requires Prepared(i, gw, conflicts, groups, l) && PortState(i, gw, ls, base, hosts, clusters)
    ensures PortState(i, gw, ls + [l], base, hosts', clusters') && status == StatusOf(i, gw, l)
  {
    hosts', clusters', status := hosts, clusters, ListenerStatus(false, false, 0);
    ListenerOverwrites(i, gw, base, ls, l);
    if !KindsValid(l) || l.name in conflicts {
      PortSkips(i, gw, ls, l, hosts);
      return;
    }
    var count := 0;
    if l.protocol.HTTP? || l.protocol.HTTPS? {
      hosts', clusters', count := AttachRoutes(i.world, l, RoutesFor(groups, l.name), hosts, clusters);
      PortGrows(i, gw, ls, l, hosts, hosts');
    } else {
      PortSkips(i, gw, ls, l, hosts);
    }
    status := ListenerStatus(true, true, count);
  }

  /** Conflicts and routes are as the earlier passes found them. */
  predicate Prepared(i: Inputs, gw: Gateway, conflicts: map<string, Conflict>, groups: map<string, seq<HTTPRoute>>,
                     l: Listener) {
    && Recorded(conflicts, l.name, ConflictOf(gw.listeners, l))
    && RoutesFor(groups, l.name) == AcceptedRoutes(i.selects, gw, l, i.routes)
  }

  predicate StatusesRight(i: Inputs, gw: Gateway, ls: seq<Listener>, statuses: seq<ListenerStatus>) {
    |statuses| == |ls| && forall k :: 0 <= k < |ls| ==> statuses[k] == StatusOf(i, gw, ls[k])
  }

  lemma StatusesNext(i: Inputs, gw: Gateway, ls: seq<Listener>, l: Listener, statuses: seq<ListenerStatus>)
    requires StatusesRight(i, gw, ls, statuses)
    ensures StatusesRight(i, gw, ls + [l], statuses + [StatusOf(i, gw, l)])
  {
  }

  /** The listeners of one port in order. */
  method TranslateListeners(i: Inputs, gw: Gateway, ls: seq<Listener>,
                            conflicts: map<string, Conflict>, groups: map<string, seq<HTTPRoute>>, clusters: Clusters)
    returns (hosts: map<string, seq<Route>>, clusters': Clusters, statuses: seq<ListenerStatus>)
    requires forall k :: 0 <= k < |ls| ==> Prepared(i, gw, conflicts, groups, ls[k])
    ensures PortState(i, gw, ls, clusters, hosts, clusters') && StatusesRight(i, gw, ls, statuses)
  {
    hosts, clusters', statuses := map[], clusters, [];
    ghost var done: seq<Listener> := [];
    for n := 0 to |ls|
      invariant done == ls[..n]
      invariant PortState(i, gw, done, clusters, hosts, clusters') && StatusesRight(i, gw, done, statuses)
    {
      StatusesNext(i, gw, done, ls[n], statuses);
      var status;
      hosts, clusters', status := TranslateListener(i, gw, ls[n], conflicts, groups, hosts, clusters', clusters, done);
      statuses := statuses + [status];
      done := done + [ls[n]];
    }
    assert done == ls;
  }

  /** The route configuration and the Envoy listener of a port. */
  datatype Port = Port(hosts: seq<VirtualHost>, chains: seq<FilterChain>)

  /**
   The virtual hosts of a port are exactly right: distinct domains, sorted routes, and for every
   domain the multiset of routes that the listeners attach to it; domains without routes have no
   virtual host.
   */
  ghost predicate ExactlyAttached(i: Inputs, gw: Gateway, ls: seq<Listener>, vhs: seq<VirtualHost>) {
    && DistinctDomains(vhs)
    && (forall k :: 0 <= k < |vhs| ==> Sorted(vhs[k].routes))
    && (forall k :: 0 <= k < |vhs| ==> multiset(vhs[k].routes) == Attached(i, gw, ls, vhs[k].domain))
    && (forall d :: (exists k :: 0 <= k < |vhs| && vhs[k].domain == d) <==> Attached(i, gw, ls, d) != multiset{})
  }

  /** Exact virtual hosts, and the chains of the listeners. */
  ghost predicate PortRight(i: Inputs, gw: Gateway, ls: seq<Listener>, port: Port) {
    ExactlyAttached(i, gw, ls, port.hosts) && port.chains == Emitted(gw.listeners, ls)
  }

  method TranslatePort(i: Inputs, gw: Gateway, ls: seq<Listener>,
                       conflicts: map<string, Conflict>, groups: map<string, seq<HTTPRoute>>, clusters: Clusters)
    returns (port: Port, clusters': Clusters, statuses: seq<ListenerStatus>)
    requires forall k :: 0 <= k < |ls| ==> Prepared(i, gw, conflicts, groups, ls[k])
    ensures PortRight(i, gw, ls, port) && StatusesRight(i, gw, ls, statuses)
    ensures clusters' == Overwritten(clusters, BackendsOfListeners(i, gw, ls))
  {
    var hosts;
    hosts, clusters', statuses := TranslateListeners(i, gw, ls, conflicts, groups, clusters);
    var vhs := SortHosts(hosts);
    HostsAreExact(i, gw, ls, hosts, vhs);
    var chains := BuildFilterChains(gw.listeners, ls, conflicts);
    port := Port(vhs, chains);
  }

  lemma HostsAreExact(i: Inputs, gw: Gateway, ls: seq<Listener>, hosts: map<string, seq<Route>>, vhs: seq<VirtualHost>)
    requires PortHolds(i, gw, ls, hosts) && NoEmptyHost(hosts) && Lists(vhs, hosts, hosts.Keys)
    ensures ExactlyAttached(i, gw, ls, vhs)
  {
    forall d
      ensures (exists k :: 0 <= k < |vhs| && vhs[k].domain == d) <==> Attached(i, gw, ls, d) != multiset{}
    {
      assert RoutesAt(hosts, d) == Attached(i, gw, ls, d);
      assert d in hosts ==> hosts[d][0] in RoutesAt(hosts, d);
    }
    forall k | 0 <= k < |vhs|
      ensures multiset(vhs[k].routes) == Attached(i, gw, ls, vhs[k].domain)
    {
      assert RoutesAt(hosts, vhs[k].domain) == Attached(i, gw, ls, vhs[k].domain);
    }
  }

  // ---------------------------------------------------------------- The whole Gateway

  ghost predicate PortsRight(i: Inputs, gw: Gateway, ports: map<nat, Port>) {
    forall p :: p in ports ==> PortRight(i, gw, OnPort(gw.listeners, p), ports[p])
  }

  predicate StatusRecorded(i: Inputs, gw: Gateway, statuses: map<string, ListenerStatus>, l: Listener) {
    l.name in statuses && statuses[l.name] == StatusOf(i, gw, l)
  }

  method RecordStatuses(i: Inputs, gw: Gateway, ls: seq<Listener>, now: seq<ListenerStatus>,
                        was: map<string, ListenerStatus>)
    returns (statuses: map<string, ListenerStatus>)
    requires UniqueNames(gw.listeners) && forall l :: l in ls ==> l in gw.listeners
    requires StatusesRight(i, gw, ls, now)
    ensures forall l :: l in gw.listeners && (l in ls || StatusRecorded(i, gw, was, l)) ==>
              StatusRecorded(i, gw, statuses, l)
  {
    statuses := was;
    for n := 0 to |ls|
      invariant forall l :: l in gw.listeners && (l in ls[..n] || StatusRecorded(i, gw, was, l)) ==>
                  StatusRecorded(i, gw, statuses, l)
    {
      assert ls[..n + 1] == ls[..n] + [ls[n]];
      forall l | l in gw.listeners && l.name == ls[n].name
        ensures l == ls[n]
      {
        SameName(gw.listeners, l, ls[n]);
      }
      statuses := statuses[ls[n].name := now[n]];
    }
    assert ls[..|ls|] == ls;
  }

  ghost predicate StatusesBut(i: Inputs, gw: Gateway, pending: set<nat>, statuses: map<string, ListenerStatus>) {
    forall l :: l in gw.listeners && l.port !in pending ==> StatusRecorded(i, gw, statuses, l)
  }

  predicate AllPrepared(i: Inputs, gw: Gateway, conflicts: map<string, Conflict>, groups: map<string, seq<HTTPRoute>>) {
    forall l :: l in gw.listeners ==> Prepared(i, gw, conflicts, groups, l)
  }

  /** One of the pending ports. */
  method AddPort(i: Inputs, gw: Gateway, conflicts: map<string, Conflict>, groups: map<string, seq<HTTPRoute>>,
                 port: nat, ls: seq<Listener>, ghost pending: set<nat>,
                 ports: map<nat, Port>, clusters: Clusters, statuses: map<string, ListenerStatus>)
    returns (ports': map<nat, Port>, clusters': Clusters, statuses': map<string, ListenerStatus>)
    requires UniqueNames(gw.listeners) && AllPrepared(i, gw, conflicts, groups)
    requires ls == OnPort(gw.listeners, port) && StatusesBut(i, gw, pending, statuses) && PortsRight(i, gw, ports)
    ensures ports'.Keys == ports.Keys + {port} && PortsRight(i, gw, ports')
    ensures StatusesBut(i, gw, pending - {port}, statuses')
    ensures clusters' == Overwritten(clusters, BackendsOfListeners(i, gw, ls))
  {
    OnPortContents(gw.listeners, port);
    assert forall k :: 0 <= k < |ls| ==> ls[k] in gw.listeners;
    var config, now;
    config, clusters', now := TranslatePort(i, gw, ls, conflicts, groups, clusters);
    statuses' := RecordStatuses(i, gw, ls, now, statuses);
    ports' := ports[port := config];
  }

  lemma DoneNext(all: set<nat>, pending: set<nat>, port: nat)
    requires port in pending && pending <= all
    ensures (all - pending) + {port} == all - (pending - {port})
  {
  }

  /** The ports of the Gateway, each once. */
  ghost predicate IsOrder(ports: set<nat>, order: seq<nat>) {
    (forall p :: p in order <==> p in ports) && forall a, b :: 0 <= a < b < |order| ==> order[a] != order[b]
  }

  lemma OrderNext(done: set<nat>, order: seq<nat>, port: nat)
    requires IsOrder(done, order) && port !in done
    ensures IsOrder(done + {port}, order + [port])
  {
  }

  lemma PortOverwrites(i: Inputs, gw: Gateway, base: Clusters, order: seq<nat>, port: nat)
    ensures Overwritten(base, BackendsOfPorts(i, gw, order + [port])) ==
              Overwritten(Overwritten(base, BackendsOfPorts(i, gw, order)),
                  BackendsOfListeners(i, gw, OnPort(gw.listeners, port)))
  {
    assert (order + [port])[..|order|] == order;
    OverwrittenTwice(base, BackendsOfPorts(i, gw, order), BackendsOfListeners(i, gw, OnPort(gw.listeners, port)));
  }

  lemma NothingDone(i: Inputs, gw: Gateway, pending: set<nat>)
    requires forall l :: l in gw.listeners ==> l.port in pending
    ensures StatusesBut(i, gw, pending, map[]) && PortsRight(i, gw, map[])
  {
  }

  /** All ports, in some order. */
  method TranslatePorts(i: Inputs, gw: Gateway,
                        conflicts: map<string, Conflict>, groups: map<string, seq<HTTPRoute>>, base: Clusters)
    returns (ports: map<nat, Port>, clusters: Clusters, statuses: map<string, ListenerStatus>, ghost order: seq<nat>)
    requires UniqueNames(gw.listeners) && AllPrepared(i, gw, conflicts, groups)
    ensures forall p :: p in ports <==> exists l :: l in gw.listeners && l.port == p
    ensures PortsRight(i, gw, ports) && StatusesBut(i, gw, {}, statuses)
    ensures IsOrder(ports.Keys, order) && clusters == Overwritten(base, BackendsOfPorts(i, gw, order))
  {
    ports, clusters, statuses, order := map[], base, map[], [];
    var byPort := GroupByPort(gw.listeners);
    var pending := byPort.Keys;
    NothingDone(i, gw, pending);
    while pending != {}
      invariant pending <= byPort.Keys && ports.Keys == byPort.Keys - pending
      invariant PortsRight(i, gw, ports) && StatusesBut(i, gw, pending, statuses)
      invariant IsOrder(ports.Keys, order) && clusters == Overwritten(base, BackendsOfPorts(i, gw, order))
      decreases |pending|
    {
      var port :| port in pending;
      DoneNext(byPort.Keys, pending, port);
      OrderNext(ports.Keys, order, port);
      PortOverwrites(i, gw, base, order, port);
      ports, clusters, statuses := AddPort(i, gw, conflicts, groups, port, byPort[port], pending, ports, clusters,
          statuses);
      order, pending := order + [port], pending - {port};
    }
  }

  /**
   What is promised of the resources: every port of the Gateway with exactly the virtual hosts and
   filter chains it needs; and the clusters of the authorization services, overwritten by those of
   the backends of attached routes, port after port in some order.
   */
  ghost predicate EmitsIn(i: Inputs, gw: Gateway, base: Clusters, order: seq<nat>, ports: map<nat, Port>,
                          clusters: Clusters) {
    && (forall p :: p in ports <==> exists l :: l in gw.listeners && l.port == p)
    && PortsRight(i, gw, ports) && IsOrder(ports.Keys, order)
    && ExtAuthz.ClustersFor(ExtAuthz.Entries(i.policies), base)
    && clusters == Overwritten(base, BackendsOfPorts(i, gw, order))
  }

  ghost predicate Emits(i: Inputs, gw: Gateway, ports: map<nat, Port>, clusters: Clusters) {
    exists base, order :: EmitsIn(i, gw, base, order, ports, clusters)
  }

  /** The resources of a Gateway and the statuses of its listeners: each is reported as it was treated. */
  method BuildEnvoyResources(i: Inputs, gw: Gateway)
    returns (ports: map<nat, Port>, clusters: Clusters, statuses: seq<ListenerStatus>)
    requires UniqueNames(gw.listeners)
    ensures Emits(i, gw, ports, clusters)
    ensures StatusesRight(i, gw, gw.listeners, statuses)
  {
    var groups := GroupRoutes(i.selects, gw, i.routes);
    var base := ExtAuthz.BuildExtAuthzClusters(i.policies);
    var conflicts := ValidateListeners(gw.listeners);
    var byName;
    ghost var order;
    ports, clusters, byName, order := TranslatePorts(i, gw, conflicts, groups, base);
    assert EmitsIn(i, gw, base, order, ports, clusters);
    statuses := [];
    for n := 0 to |gw.listeners|
      invariant StatusesRight(i, gw, gw.listeners[..n], statuses)
    {
      var l := gw.listeners[n];
      assert gw.listeners[..n + 1] == gw.listeners[..n] + [l];
      assert StatusRecorded(i, gw, byName, l);
      StatusesNext(i, gw, gw.listeners[..n], l, statuses);
      statuses := statuses + [byName[l.name]];
    }
    assert gw.listeners[..|gw.listeners|] == gw.listeners;
  }
}
