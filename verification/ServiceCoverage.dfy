/**
 A Service that comes or goes wakes every Gateway whose configuration it changes: the handlers of
 pkg/controller/service.go measured against the translation of pkg/translator/backend.go.
 */
module ServiceCoverage {
  import opened Options
  import opened Names
  import opened ReferenceGrants
  import opened RouteMatching
  import opened RouteOrder
  import opened RouteTranslation
  import opened ServiceEvents

  // ---------------------------------------------------------------- Through XBackends

  predicate NamesBackend(ns: string, refs: seq<BackendRef>, b: Key) {
    exists j :: 0 <= j < |refs| && IsXBackendRef(refs[j]) && KeyOf(ns, refs[j]) == b
  }

  predicate Reaches(route: HTTPRoute, b: Key) {
    exists i :: 0 <= i < |route.rules| && NamesBackend(route.namespace, route.rules[i].backends, b)
  }

  function WokenByBackend(items: map<Key, HTTPRoute>, b: Key): set<string> {
    set k, g | k in items && Reaches(items[k], b) && g in Parents(items[k]) :: g
  }

  method ReachesBackend(route: HTTPRoute, b: Key) returns (found: bool)
    ensures found <==> Reaches(route, b)
  {
    for i := 0 to |route.rules|
      invariant forall a :: 0 <= a < i ==> !NamesBackend(route.namespace, route.rules[a].backends, b)
    {
      var refs := route.rules[i].backends;
      for j := 0 to |refs|
        invariant forall c :: 0 <= c < j ==> !(IsXBackendRef(refs[c]) && KeyOf(route.namespace, refs[c]) == b)
      {
        if IsXBackendRef(refs[j]) && KeyOf(route.namespace, refs[j]) == b {
          assert NamesBackend(route.namespace, refs, b);
          return true;
        }
      }
    }
    return false;
  }

  ghost function WokenUpTo(items: map<Key, HTTPRoute>, b: Key, done: set<Key>): set<string> {
    set k, g | k in done && k in items && Reaches(items[k], b) && g in Parents(items[k]) :: g
  }

  lemma WokenUpToNext(items: map<Key, HTTPRoute>, b: Key, done: set<Key>, k: Key)
    requires k in items
    ensures WokenUpTo(items, b, done + {k}) ==
              WokenUpTo(items, b, done) + if Reaches(items[k], b) then Parents(items[k]) else {}
  {
  }

  lemma WokenUpToAll(items: map<Key, HTTPRoute>, b: Key)
    ensures WokenUpTo(items, b, items.Keys) == WokenByBackend(items, b)
  {
  }

  method EnqueueGatewaysForBackend(items: map<Key, HTTPRoute>, b: Key, queue: set<string>) returns (now: set<string>)
    ensures now == queue + WokenByBackend(items, b)
  {
    now := queue;
    var pending := items.Keys;
    ghost var done: set<Key> := {};
    while pending != {}
      invariant pending <= items.Keys && done == items.Keys - pending && now == queue + WokenUpTo(items, b, done)
      decreases |pending|
    {
      var k :| k in pending;
      DoneNext(items.Keys, pending, k);
      WokenUpToNext(items, b, done, k);
      var found := ReachesBackend(items[k], b);
      if found {
        now := EnqueueGatewaysForHTTPRoute(items[k].parents, items[k].namespace, now);
      }
      pending, done := pending - {k}, done + {k};
    }
    WokenUpToAll(items, b);
    assert done == items.Keys;
  }

  /** The XBackend is served by the Service. */
  predicate ServedBy(xbackends: map<Key, XBackend>, b: Key, svc: Key) {
    b in xbackends && b.namespace == svc.namespace && xbackends[b].target == ServiceTarget(svc.name)
  }

  function WokenVia(items: map<Key, HTTPRoute>, xbackends: map<Key, XBackend>, svc: Key): set<string> {
    set b, g | b in xbackends && ServedBy(xbackends, b, svc) && g in WokenByBackend(items, b) :: g
  }

  method EnqueueViaXBackends(items: map<Key, HTTPRoute>, xbackends: map<Key, XBackend>, svc: Key, queue: set<string>)
    returns (now: set<string>)
    ensures now == queue + WokenVia(items, xbackends, svc)
  {
    now := queue;
    var pending := xbackends.Keys;
    ghost var done: set<Key> := {};
    while pending != {}
      invariant pending <= xbackends.Keys && done == xbackends.Keys - pending
      invariant now == queue + set b, g | b in done && ServedBy(xbackends, b, svc) && g in WokenByBackend(items, b) :: g
      decreases |pending|
    {
      var b :| b in pending;
      DoneNext(xbackends.Keys, pending, b);
      if ServedBy(xbackends, b, svc) {
        now := EnqueueGatewaysForBackend(items, b, now);
      }
      pending, done := pending - {b}, done + {b};
    }
    assert done == xbackends.Keys;
  }

  /** The handler of a Service event. */
  method EnqueueGatewaysForService(store: RouteIndexer, xbackends: map<Key, XBackend>, svc: Key, grants: seq<Grant>,
                                   queue: set<string>)
    returns (now: set<string>)
    requires store.Valid() && NoSlash(store.items, svc)
    ensures now == queue + Woken(store.items, svc, grants) + WokenVia(store.items, xbackends, svc)
  {
    now := EnqueueByIndex(store, svc, grants, queue);
    now := EnqueueViaXBackends(store.items, xbackends, svc, now);
  }

  lemma ReachesIff(route: HTTPRoute, b: Key)
    ensures Reaches(route, b) <==> exists i: nat, j: nat :: RefersAt(route, i, j, b, true)
  {
    if i: nat, j: nat :| RefersAt(route, i, j, b, true) {
      assert NamesBackend(route.namespace, route.rules[i].backends, b);
    }
    if i :| 0 <= i < |route.rules| && NamesBackend(route.namespace, route.rules[i].backends, b) {
      var refs := route.rules[i].backends;
      var j :| 0 <= j < |refs| && IsXBackendRef(refs[j]) && KeyOf(route.namespace, refs[j]) == b;
      assert RefersAt(route, i, j, b, true);
    }
  }

  /** The route uses the Service: by a reference of its own that is permitted, or by way of an XBackend. */
  ghost predicate UsesService(route: HTTPRoute, xbackends: map<Key, XBackend>, svc: Key, grants: seq<Grant>) {
    || (&& (exists i: nat, j: nat :: RefersAt(route, i, j, svc, false))
        && (route.namespace == svc.namespace || Granted(route.namespace, svc.namespace, grants)))
    || (exists i: nat, j: nat, b :: RefersAt(route, i, j, b, true) && b in xbackends && b.namespace == svc.namespace &&
          xbackends[b].target == ServiceTarget(svc.name))
  }

  /** A Service wakes exactly the Gateways that a route which uses it names as a parent. */
  lemma WokenIff(items: map<Key, HTTPRoute>, xbackends: map<Key, XBackend>, svc: Key, grants: seq<Grant>, s: string)
    ensures s in Woken(items, svc, grants) + WokenVia(items, xbackends, svc) <==>
              exists k, p :: k in items && UsesService(items[k], xbackends, svc, grants) &&
                p in items[k].parents && NamesGateway(items[k].namespace, p, s)
  {
    forall k | k in items
      ensures s in Parents(items[k]) <==>
                exists p :: p in items[k].parents && NamesGateway(items[k].namespace, p, s)
      ensures UsesService(items[k], xbackends, svc, grants) <==>
                || Direct(items[k], svc, grants)
                || exists b :: ServedBy(xbackends, b, svc) && Reaches(items[k], b)
    {
      GatewayKeysIff(items[k].parents, items[k].namespace, s);
      UsesIff(items[k], xbackends, svc, grants);
    }
    if b, k :| b in xbackends && k in items && ServedBy(xbackends, b, svc) && Reaches(items[k], b) && s in Parents(items[k]) {
      assert s in WokenByBackend(items, b);
    }
  }

  lemma UsesIff(route: HTTPRoute, xbackends: map<Key, XBackend>, svc: Key, grants: seq<Grant>)
    ensures UsesService(route, xbackends, svc, grants) <==>
              Direct(route, svc, grants) || exists b :: ServedBy(xbackends, b, svc) && Reaches(route, b)
  {
    DirectIff(route, svc, grants);
    if b :| ServedBy(xbackends, b, svc) && Reaches(route, b) {
      ReachesIff(route, b);
    }
    if i: nat, j: nat, b :| RefersAt(route, i, j, b, true) && b in xbackends && b.namespace == svc.namespace &&
                            xbackends[b].target == ServiceTarget(svc.name) {
      ReachesIff(route, b);
      assert ServedBy(xbackends, b, svc);
    }
  }

  // ---------------------------------------------------------------- Coverage

  /** The worlds differ in nothing but the presence or the ports of one Service. */
  predicate DifferOnlyIn(w: World, v: World, svc: Key) {
    && w.xbackends == v.xbackends && w.grants == v.grants
    && forall k :: k in w.services.Keys + v.services.Keys && k != svc ==>
         k in w.services && k in v.services && w.services[k] == v.services[k]
  }

  /** References the controller and the translator classify alike. */
  predicate ProperRef(ref: BackendRef) {
    IsServiceRef(ref) || IsXBackendRef(ref) || (ref.kind.Some? && ref.kind.value != "XBackend")
  }

  /** The reference concerns the Service: directly and permitted, or through an XBackend. */
  predicate Concerns(w: World, ns: string, ref: BackendRef, svc: Key) {
    || (&& !IsXBackendRef(ref) && KeyOf(ns, ref) == svc
        && (w.grants.None? || AllowedByReferenceGrant(ns, svc.namespace, w.grants.value)))
    || (IsXBackendRef(ref) && ServedBy(w.xbackends, KeyOf(ns, ref), svc))
  }

  lemma FetchIsUnaffected(w: World, v: World, svc: Key, ns: string, ref: BackendRef)
    requires DifferOnlyIn(w, v, svc) && ProperRef(ref) && !Concerns(w, ns, ref, svc)
    ensures FetchBackend(w, ns, ref) == FetchBackend(v, ns, ref)
  {
    assert "XBackend" != "Service" && |"XBackend"| > 0;
    assert |AGENTIC_GROUP| > |"core"|;
  }

  lemma {:induction false} ResolveIsUnaffected(w: World, v: World, ns: string, refs: seq<BackendRef>)
    requires forall j :: 0 <= j < |refs| ==> FetchBackend(w, ns, refs[j]) == FetchBackend(v, ns, refs[j])
    ensures Resolve(w, ns, refs) == Resolve(v, ns, refs)
  {
    if refs != [] {
      ResolveIsUnaffected(w, v, ns, refs[..|refs| - 1]);
    }
  }

  predicate RuleUnaffected(w: World, v: World, route: HTTPRoute, i: nat)
    requires i < |route.rules|
  {
    Resolve(w, route.namespace, route.rules[i].backends) == Resolve(v, route.namespace, route.rules[i].backends)
  }

  lemma {:induction false} MatchesAreUnaffected(w: World, v: World, route: HTTPRoute, i: nat, n: nat, before: Output)
    requires i < |route.rules| && n <= |MatchesOf(route.rules[i])| && RuleUnaffected(w, v, route, i)
    ensures AfterMatches(w, route, i, n, before) == AfterMatches(v, route, i, n, before)
  {
    if n > 0 {
      MatchesAreUnaffected(w, v, route, i, n - 1, before);
    }
  }

  lemma {:induction false} RulesAreUnaffected(w: World, v: World, route: HTTPRoute, n: nat)
    requires n <= |route.rules| && forall i: nat :: i < n ==> RuleUnaffected(w, v, route, i)
    ensures AfterRules(w, route, n) == AfterRules(v, route, n)
  {
    if n > 0 {
      RulesAreUnaffected(w, v, route, n - 1);
      MatchesAreUnaffected(w, v, route, n - 1, |MatchesOf(route.rules[n - 1])|, AfterRules(w, route, n - 1));
    }
  }

  /** A route whose translation changes with the Service holds a reference that concerns it. */
  lemma ChangeHasACause(w: World, v: World, svc: Key, route: HTTPRoute) returns (i: nat, j: nat)
    requires DifferOnlyIn(w, v, svc) && Translation(w, route) != Translation(v, route)
    requires forall i, j :: 0 <= i < |route.rules| && 0 <= j < |route.rules[i].backends| ==>
               ProperRef(route.rules[i].backends[j])
    ensures i < |route.rules| && j < |route.rules[i].backends|
    ensures Concerns(w, route.namespace, route.rules[i].backends[j], svc)
  {
    if a: nat :| a < |route.rules| && !RuleUnaffected(w, v, route, a) {
      i := a;
      var refs := route.rules[i].backends;
      if b: nat :| b < |refs| && FetchBackend(w, route.namespace, refs[b]) != FetchBackend(v, route.namespace, refs[b]) {
        j := b;
        if !Concerns(w, route.namespace, refs[j], svc) {
          FetchIsUnaffected(w, v, svc, route.namespace, refs[j]);
        }
      } else {
        ResolveIsUnaffected(w, v, route.namespace, refs);
        assert false;
      }
    } else {
      RulesAreUnaffected(w, v, route, |route.rules|);
      assert false;
    }
  }

  /**
   Whenever the presence of a Service changes what a stored route translates to, the handler wakes
   every Gateway that the route names as a parent.
   */
  lemma AffectedGatewaysAreWoken(items: map<Key, HTTPRoute>, k: Key, w: World, v: World, svc: Key, parent: ParentRef)
    requires k in items && DifferOnlyIn(w, v, svc) && w.grants.Some?
    requires Translation(w, items[k]) != Translation(v, items[k])
    requires forall i, j :: 0 <= i < |items[k].rules| && 0 <= j < |items[k].rules[i].backends| ==>
               ProperRef(items[k].rules[i].backends[j])
    requires parent in items[k].parents && IsGatewayRef(parent)
    ensures GatewayKey(items[k].namespace, parent) in Woken(items, svc, w.grants.value) + WokenVia(items, w.xbackends, svc)
  {
    var route := items[k];
    var i, j := ChangeHasACause(w, v, svc, route);
    var ref := route.rules[i].backends[j];
    assert GatewayKey(route.namespace, parent) in Parents(route);
    if IsXBackendRef(ref) {
      var b := KeyOf(route.namespace, ref);
      assert NamesBackend(route.namespace, route.rules[i].backends, b);
      assert Reaches(route, b);
      assert GatewayKey(route.namespace, parent) in WokenByBackend(items, b);
    } else {
      assert NamesService(route.namespace, route.rules[i].backends, svc);
      assert Direct(route, svc, w.grants.value);
    }
  }

  // ---------------------------------------------------------------- Which references are covered

  /** Whatever Service changes what the reference resolves to, the reference concerns it. */
  ghost predicate AlwaysConcerns(ref: BackendRef) {
    forall w, v, svc, ns :: DifferOnlyIn(w, v, svc) && FetchBackend(w, ns, ref) != FetchBackend(v, ns, ref) ==>
        Concerns(w, ns, ref, svc)
  }

  /** A name that differs from the reference's own. */
  function BehindName(ref: BackendRef): string { ref.name + "-server" }

  /** An XBackend at the reference's key whose Service, with another name, is missing or there. */
  function BehindWorld(ns: string, ref: BackendRef, present: bool): World {
    var svc := Key(KeyOf(ns, ref).namespace, BehindName(ref));
    World(if present then map[svc := []] else map[], map[KeyOf(ns, ref) := XBackend(ServiceTarget(svc.name), 80)],
        Some([]))
  }

  /** The translator follows an improper reference to an XBackend, the handlers do not. */
  lemma ImproperRefIsFollowed(ns: string, ref: BackendRef)
    requires !ProperRef(ref)
    ensures var svc := Key(KeyOf(ns, ref).namespace, BehindName(ref));
            var w, v := BehindWorld(ns, ref, false), BehindWorld(ns, ref, true);
            && DifferOnlyIn(w, v, svc) && KeyOf(ns, ref) != svc && !Concerns(w, ns, ref, svc)
            && FetchBackend(w, ns, ref) == Missing(BackendNotFound) && FetchBackend(v, ns, ref).Found?
  {
    assert |BehindName(ref)| > |ref.name|;
  }

  /** So the references that are always covered are exactly the proper ones. */
  lemma CoveredIffProper(ref: BackendRef)
    ensures AlwaysConcerns(ref) <==> ProperRef(ref)
  {
    if ProperRef(ref) {
      forall w, v, svc, ns | DifferOnlyIn(w, v, svc) && FetchBackend(w, ns, ref) != FetchBackend(v, ns, ref)
        ensures Concerns(w, ns, ref, svc)
      {
        if !Concerns(w, ns, ref, svc) {
          FetchIsUnaffected(w, v, svc, ns, ref);
        }
      }
    } else {
      ImproperRefIsFollowed("", ref);
      assert !Concerns(BehindWorld("", ref, false), "", ref, Key(KeyOf("", ref).namespace, BehindName(ref)));
    }
  }

  /** A route with this one reference and one Gateway. */
  function RouteWith(ref: BackendRef): HTTPRoute {
    HTTPRoute("ns", "route", [ParentRef(None, None, None, "gateway", None, None)], [], [Rule([], false, [ref])])
  }

  lemma OneRuleTranslation(w: World, ref: BackendRef)
    ensures Translation(w, RouteWith(ref)) == Add(NOTHING, At(w, RouteWith(ref), 0, 0))
  {
    var route := RouteWith(ref);
    assert AfterRules(w, route, 0) == NOTHING;
    assert AfterMatches(w, route, 0, 0, NOTHING) == NOTHING;
    assert AfterMatches(w, route, 0, 1, NOTHING) == Add(NOTHING, At(w, route, 0, 0));
  }

  lemma OneRefOutcome(w: World, ref: BackendRef)
    ensures var f := FetchBackend(w, "ns", ref);
            At(w, RouteWith(ref), 0, 0).failure ==
              if f.Missing? then Some(f.reason) else if WeightOf(ref) == 0 then Some(UnsupportedValue) else None
  {
    var refs := RouteWith(ref).rules[0].backends;
    assert refs[..0] == [] && Resolve(w, "ns", []) == Forwarding([], []);
  }

  /**
   For every improper reference there is a route and a Service whose coming changes the route's
   translation although no Gateway at all is woken.
   */
  lemma ImproperRefIsMissed(ref: BackendRef) returns (items: map<Key, HTTPRoute>, w: World, v: World, svc: Key)
    requires !ProperRef(ref)
    ensures items == map[Key("ns", "route") := RouteWith(ref)] && DifferOnlyIn(w, v, svc) && w.grants == Some([])
    ensures Translation(w, RouteWith(ref)) != Translation(v, RouteWith(ref))
    ensures Woken(items, svc, []) + WokenVia(items, w.xbackends, svc) == {}
  {
    items := map[Key("ns", "route") := RouteWith(ref)];
    w, v, svc := BehindWorld("ns", ref, false), BehindWorld("ns", ref, true),
        Key(KeyOf("ns", ref).namespace, BehindName(ref));
    ImproperRefIsFollowed("ns", ref);
    OneRuleTranslation(w, ref);
    OneRuleTranslation(v, ref);
    OneRefOutcome(w, ref);
    OneRefOutcome(v, ref);
    assert Translation(w, RouteWith(ref)).failure == Some(BackendNotFound);
    var refs := RouteWith(ref).rules[0].backends;
    assert refs[0] == ref && !NamesService("ns", refs, svc);
    assert !Direct(RouteWith(ref), svc, []);
    assert forall b :: !NamesBackend("ns", refs, b);
    assert forall b :: !Reaches(RouteWith(ref), b);
  }

  // ---------------------------------------------------------------- Events

  /** A Service as its handlers see it. */
  datatype ServiceObject = ServiceObject(key: Key, ports: seq<nat>, clusterIPs: seq<string>, deleting: bool,
      annotations: map<string, string>)

  datatype ServiceEvent = Added(now: ServiceObject) | Updated(was: ServiceObject,
      now: ServiceObject) | Removed(was: ServiceObject)

  function SubjectOf(e: ServiceEvent): Key { if e.Removed? then e.was.key else e.now.key }

  /** Updates count only with new addresses or annotations, or under deletion. */
  predicate Heard(e: ServiceEvent) {
    || !e.Updated? || e.was.clusterIPs != e.now.clusterIPs
    || e.was.deleting || e.now.deleting || e.was.annotations != e.now.annotations
  }

  method OnServiceEvent(store: RouteIndexer, xbackends: map<Key, XBackend>, e: ServiceEvent, grants: seq<Grant>,
                        queue: set<string>)
    returns (now: set<string>)
    requires store.Valid() && NoSlash(store.items, SubjectOf(e))
    ensures var svc := SubjectOf(e);
            now == queue + if Heard(e) then Woken(store.items, svc, grants) + WokenVia(store.items, xbackends, svc) else {}
  {
    if e.Updated? {
      var sameSpec := e.was.clusterIPs == e.now.clusterIPs && e.was.annotations == e.now.annotations;
      if sameSpec && !e.was.deleting && !e.now.deleting {
        return queue;
      }
    }
    now := EnqueueGatewaysForService(store, xbackends, SubjectOf(e), grants, queue);
  }

  /** The event takes the listers from `w` to `v`. */
  predicate Leads(w: World, e: ServiceEvent, v: World) {
    && DifferOnlyIn(w, v, SubjectOf(e))
    && (e.Added? ==> SubjectOf(e) !in w.services && SubjectOf(e) in v.services && v.services[SubjectOf(e)] == e.now.ports)
    && (e.Updated? ==> SubjectOf(e) in w.services && w.services[SubjectOf(e)] == e.was.ports
                       && SubjectOf(e) in v.services && v.services[SubjectOf(e)] == e.now.ports)
    && (e.Removed? ==> SubjectOf(e) in w.services && SubjectOf(e) !in v.services)
  }

  /** What the handler adds to the queue. */
  ghost function WokenByEvent(items: map<Key, HTTPRoute>, w: World, e: ServiceEvent): set<string>
    requires w.grants.Some?
  {
    if Heard(e) then Woken(items, SubjectOf(e), w.grants.value) + WokenVia(items, w.xbackends, SubjectOf(e)) else {}
  }

  /**
   When an event of a Service changes what a stored route translates to, the Gateways the route
   names are woken if and only if the event is an addition or a removal, or an update with new
   addresses or annotations, or of a Service under deletion.
   */
  lemma AffectedGatewaysAreWokenIffHeard(items: map<Key, HTTPRoute>, k: Key, w: World, e: ServiceEvent, v: World,
                                         parent: ParentRef)
    requires k in items && Leads(w, e, v) && w.grants.Some?
    requires Translation(w, items[k]) != Translation(v, items[k])
    requires forall i, j :: 0 <= i < |items[k].rules| && 0 <= j < |items[k].rules[i].backends| ==>
               ProperRef(items[k].rules[i].backends[j])
    requires parent in items[k].parents && IsGatewayRef(parent)
    ensures GatewayKey(items[k].namespace, parent) in WokenByEvent(items, w, e) <==>
              e.Added? || e.Removed? || e.was.clusterIPs != e.now.clusterIPs || e.was.annotations != e.now.annotations ||
              e.was.deleting || e.now.deleting
  {
    AffectedGatewaysAreWoken(items, k, w, v, SubjectOf(e), parent);
  }

  /** A new first port of a Service moves the traffic of a reference without a port, and is not heard. */
  lemma PortChangeIsNotHeard()
    ensures var svc := Key("ns", "server");
            var e := Updated(ServiceObject(svc, [80], [], false, map[]), ServiceObject(svc, [81], [], false, map[]));
            var w, v := World(map[svc := [80]], map[], Some([])), World(map[svc := [81]], map[], Some([]));
            var ref := BackendRef(None, None, None, "server", None, None);
            Leads(w, e, v) && !Heard(e) && ProperRef(ref) && Translation(w, RouteWith(ref)) != Translation(v,
                RouteWith(ref))
  {
    var svc := Key("ns", "server");
    var ref := BackendRef(None, None, None, "server", None, None);
    var w, v := World(map[svc := [80]], map[], Some([])), World(map[svc := [81]], map[], Some([]));
    OneRuleTranslation(w, ref);
    OneRuleTranslation(v, ref);
    OneBackend(w, ref);
    OneBackend(v, ref);
    assert Translation(w, RouteWith(ref)).backends[0].servicePort == 80;
  }

  lemma OneBackend(w: World, ref: BackendRef)
    requires FetchBackend(w, "ns", ref).Found? && WeightOf(ref) != 0
    ensures At(w, RouteWith(ref), 0, 0).backends == [FetchBackend(w, "ns", ref).backend]
  {
    var refs := RouteWith(ref).rules[0].backends;
    assert refs[..0] == [] && Resolve(w, "ns", []) == Forwarding([], []);
  }
}
