/**
 What a translated Gateway does with a request, in terms of the Gateway API objects it was made
 from: which routes a domain has, which of them answers, which hosts are served at all.
 */
module GatewayRouting {
  import opened Options
  import opened Hostnames
  import opened Listeners
  import opened RouteMatching
  import opened RouteOrder
  import opened RouteTranslation
  import opened Attachment
  import opened VirtualHosts
  import opened GatewayTranslation

  // ---------------------------------------------------------------- Membership

  /** Listener and route meet: the listener is translated, accepts the route, and the domain is among theirs. */
  predicate MeetAt(i: Inputs, gw: Gateway, l: Listener, route: HTTPRoute, d: string) {
    Serves(gw, l) && route in i.routes && Accepts(i.selects, gw, l, route) && d in Intersection(l.hostname,
        route.hostnames)
  }

  lemma ShareMembers(w: World, l: Listener, route: HTTPRoute, d: string, r: Route)
    ensures r in Share(w, l, route, d) <==>
              d in Intersection(l.hostname, route.hostnames) && r in Translation(w, route).routes
  {
    TimesMembers(Intersection(l.hostname, route.hostnames)[d], multiset(Translation(w, route).routes), r);
  }

  lemma {:induction false} ShareCounts(w: World, l: Listener, routes: seq<HTTPRoute>, d: string, r: Route, k: nat)
    requires k < |routes| && r in Share(w, l, routes[k], d)
    ensures r in Shares(w, l, routes, d)
  {
    if k < |routes| - 1 {
      ShareCounts(w, l, routes[..|routes| - 1], d, r, k);
    }
  }

  lemma {:induction false} SharedBySome(w: World, l: Listener, routes: seq<HTTPRoute>, d: string,
                                        r: Route) returns (k: nat)
    requires r in Shares(w, l, routes, d)
    ensures k < |routes| && r in Share(w, l, routes[k], d)
  {
    k := |routes| - 1;
    if r !in Share(w, l, routes[k], d) {
      k := SharedBySome(w, l, routes[..k], d, r);
    }
  }

  lemma SharesMeet(i: Inputs, gw: Gateway, l: Listener, d: string, r: Route)
    requires Serves(gw, l)
    ensures r in Shares(i.world, l, AcceptedRoutes(i.selects, gw, l, i.routes), d) <==>
              exists route :: MeetAt(i, gw, l, route, d) && r in Translation(i.world, route).routes
  {
    var accepted := AcceptedRoutes(i.selects, gw, l, i.routes);
    AcceptedRoutesContents(i.selects, gw, l, i.routes);
    if route :| MeetAt(i, gw, l, route, d) && r in Translation(i.world, route).routes {
      ShareMembers(i.world, l, route, d, r);
      var k :| 0 <= k < |accepted| && accepted[k] == route;
      ShareCounts(i.world, l, accepted, d, r, k);
    }
    if r in Shares(i.world, l, accepted, d) {
      var k := SharedBySome(i.world, l, accepted, d, r);
      ShareMembers(i.world, l, accepted[k], d, r);
      assert accepted[k] in accepted;
      assert MeetAt(i, gw, l, accepted[k], d);
    }
  }

  /** The routes of a domain are those of the HTTPRoutes that meet a listener of the port there. */
  lemma {:induction false} AttachedMembers(i: Inputs, gw: Gateway, ls: seq<Listener>, d: string, r: Route)
    ensures r in Attached(i, gw, ls, d) <==>
              exists l, route :: l in ls && MeetAt(i, gw, l, route, d) && r in Translation(i.world, route).routes
  {
    if ls != [] {
      var init, last := ls[..|ls| - 1], ls[|ls| - 1];
      AttachedMembers(i, gw, init, d, r);
      assert ls == init + [last];
      if Serves(gw, last) {
        SharesMeet(i, gw, last, d, r);
      }
    }
  }

  // ---------------------------------------------------------------- Which route answers

  /** Match `b` of rule `a` of the route, unless it was rejected. */
  predicate IsMatch(route: HTTPRoute, a: nat, b: nat, m: RouteMatch) {
    IsPosition(route, a, b) && m == MatchesOf(route.rules[a])[b] && !Rejected(m)
  }

  /** The match belongs to a route that meets a listener of the port at the domain. */
  ghost predicate Attaches(i: Inputs, gw: Gateway, ls: seq<Listener>, d: string, m: RouteMatch) {
    exists l, route, a: nat, b: nat :: l in ls && MeetAt(i, gw, l, route, d) && IsMatch(route, a, b, m)
  }

  lemma RoutesComeFromMatches(i: Inputs, gw: Gateway, ls: seq<Listener>, d: string, r: Route) returns (m: RouteMatch)
    requires r in Attached(i, gw, ls, d)
    ensures Attaches(i, gw, ls, d, m) && !Rejected(m) && r.match_ == Translated(m)
  {
    AttachedMembers(i, gw, ls, d, r);
    var l, route :| l in ls && MeetAt(i, gw, l, route, d) && r in Translation(i.world, route).routes;
    var a, b := RouteHasOrigin(i.world, route, r);
    m := MatchesOf(route.rules[a])[b];
    assert IsMatch(route, a, b, m);
  }

  lemma MatchesBecomeRoutes(i: Inputs, gw: Gateway, ls: seq<Listener>, d: string, m: RouteMatch) returns (r: Route)
    requires Attaches(i, gw, ls, d, m)
    ensures r in Attached(i, gw, ls, d) && !Rejected(m) && r.match_ == Translated(m)
  {
    var l, route, a: nat, b: nat :| l in ls && MeetAt(i, gw, l, route, d) && IsMatch(route, a, b, m);
    r := MatchIsEmitted(i.world, route, a, b);
    AttachedMembers(i, gw, ls, d, r);
  }

  /** Query types, which the translation drops, and repeated names, of which Envoy checks all, do not occur. */
  predicate Plain(m: RouteMatch) { NoQueryTypes(m) && NoRepeats(m) }

  /**
   Routing refines the Gateway API: the route that answers a request on a virtual host stems from
   an attached match that holds for it (as far as the translation does not drop conditions), and no
   attached match that holds precedes that one, except that a method does not count for precedence.
   */
  lemma AnswerIsBestMatch(i: Inputs, gw: Gateway, ls: seq<Listener>, vhs: seq<VirtualHost>, k: nat,
                          re: Regex, req: Request, n: nat) returns (m: RouteMatch)
    requires ExactlyAttached(i, gw, ls, vhs) && k < |vhs|
    requires Rooted(req) && IsFirstMatch(re, vhs[k].routes, req, n)
    ensures Attaches(i, gw, ls, vhs[k].domain, m) && !Rejected(m) && vhs[k].routes[n].match_ == Translated(m)
    ensures NoQueryTypes(m) && m.method_.None? ==> Holds(re, m, req)
    ensures forall other :: Attaches(i, gw, ls, vhs[k].domain, other) && Plain(other) && Holds(re, other, req) ==>
              ProperPath(other.path) && ProperPath(m.path) && (m.method_.Some? || other.method_.None?) ==>
                  !Precedes(other, m)
  {
    var d, rs := vhs[k].domain, vhs[k].routes;
    assert rs[n] in multiset(rs);
    m := RoutesComeFromMatches(i, gw, ls, d, rs[n]);
    if NoQueryTypes(m) && m.method_.None? {
      NeverTooPermissive(re, m, req);
      assert m.(method_ := None) == m;
    }
    forall other | Attaches(i, gw, ls, d, other) && Plain(other) && Holds(re, other, req)
                   && ProperPath(other.path) && ProperPath(m.path) && (m.method_.Some? || other.method_.None?)
      ensures !Precedes(other, m)
    {
      var r := MatchesBecomeRoutes(i, gw, ls, d, other);
      assert r in multiset(rs);
      AgreesButForMethod(re, other, req);
      FirstMatchIsBest(re, rs, req, n, r);
      OrderRespectsPrecedence(m, other);
    }
  }

  lemma {:induction false} FirstMatchExists(re: Regex, rs: seq<Route>, req: Request, j: nat) returns (n: nat)
    requires j < |rs| && EnvoyHolds(re, rs[j].match_, req)
    ensures IsFirstMatch(re, rs, req, n)
  {
    if IsFirstMatch(re, rs, req, j) {
      n := j;
    } else {
      var i :| 0 <= i < j && EnvoyHolds(re, rs[i].match_, req);
      n := FirstMatchExists(re, rs, req, i);
    }
  }

  /** What is attached at a domain is found in its virtual host. */
  lemma FoundInHosts(i: Inputs, gw: Gateway, ls: seq<Listener>, vhs: seq<VirtualHost>, d: string,
                     r: Route) returns (k: nat, n: nat)
    requires ExactlyAttached(i, gw, ls, vhs) && r in Attached(i, gw, ls, d)
    ensures k < |vhs| && vhs[k].domain == d && n < |vhs[k].routes| && vhs[k].routes[n] == r
  {
    assert Attached(i, gw, ls, d) != multiset{};
    k :| 0 <= k < |vhs| && vhs[k].domain == d;
    assert r in multiset(vhs[k].routes);
    n :| 0 <= n < |vhs[k].routes| && vhs[k].routes[n] == r;
  }

  /** A request that some attached match holds for is answered. */
  lemma MatchingRequestIsAnswered(i: Inputs, gw: Gateway, ls: seq<Listener>, vhs: seq<VirtualHost>, re: Regex,
                                  req: Request,
                                  d: string, m: RouteMatch) returns (k: nat, n: nat)
    requires ExactlyAttached(i, gw, ls, vhs) && Rooted(req)
    requires Attaches(i, gw, ls, d, m) && Plain(m) && Holds(re, m, req)
    ensures k < |vhs| && vhs[k].domain == d && IsFirstMatch(re, vhs[k].routes, req, n)
  {
    var r := MatchesBecomeRoutes(i, gw, ls, d, m);
    AgreesButForMethod(re, m, req);
    var j;
    k, j := FoundInHosts(i, gw, ls, vhs, d, r);
    n := FirstMatchExists(re, vhs[k].routes, req, j);
  }

  // ---------------------------------------------------------------- Which hosts are served

  /** A route that contributes something and admits the host on the listener. */
  ghost predicate Offers(i: Inputs, gw: Gateway, l: Listener, route: HTTPRoute, host: string) {
    && Serves(gw, l) && route in i.routes && Accepts(i.selects, gw, l, route) && Translation(i.world, route).routes != []
    && ListenerAdmits(l.hostname, host)
    && (route.hostnames == [] || exists h :: h in route.hostnames && RouteAdmits(h, l.hostname, host) &&
                                             (IsOpen(l.hostname) || !StrictlyWider(h, l.hostname.value)))
  }

  predicate ValidNames(l: Listener, route: HTTPRoute) {
    && (IsOpen(l.hostname) || ValidHostname(l.hostname.value))
    && (forall n :: 0 <= n < |route.hostnames| ==> ValidHostname(route.hostnames[n]))
  }

  lemma OffersMeet(i: Inputs, gw: Gateway, l: Listener, route: HTTPRoute, host: string)
    requires Concrete(host) && ValidNames(l, route)
    ensures Offers(i, gw, l, route, host) <==>
              Translation(i.world, route).routes != [] && exists d :: MeetAt(i, gw, l, route, d) && Admits(d, host)
  {
    IntersectionIsExact(l.hostname, route.hostnames, host);
    if Offers(i, gw, l, route, host) {
      var d :| d in Intersection(l.hostname, route.hostnames) && Admits(d, host);
      assert MeetAt(i, gw, l, route, d);
    }
  }

  /**
   A host finds a virtual host on a port exactly when one of the port's listeners and one of its
   accepted routes both admit it, and the route has something to offer.
   */
  lemma HostIsServedIffOffered(i: Inputs, gw: Gateway, ls: seq<Listener>, vhs: seq<VirtualHost>, host: string)
    requires ExactlyAttached(i, gw, ls, vhs) && Concrete(host)
    requires forall l, route :: l in ls && route in i.routes ==> ValidNames(l, route)
    ensures (exists k :: 0 <= k < |vhs| && Admits(vhs[k].domain, host)) <==>
              exists l, route :: l in ls && Offers(i, gw, l, route, host)
  {
    if k :| 0 <= k < |vhs| && Admits(vhs[k].domain, host) {
      var d := vhs[k].domain;
      assert Attached(i, gw, ls, d) != multiset{};
      var r :| r in Attached(i, gw, ls, d);
      AttachedMembers(i, gw, ls, d, r);
      var l, route :| l in ls && MeetAt(i, gw, l, route, d) && r in Translation(i.world, route).routes;
      OffersMeet(i, gw, l, route, host);
    }
    if l, route :| l in ls && Offers(i, gw, l, route, host) {
      OffersMeet(i, gw, l, route, host);
      var d :| MeetAt(i, gw, l, route, d) && Admits(d, host);
      AttachedMembers(i, gw, ls, d, Translation(i.world, route).routes[0]);
      assert Attached(i, gw, ls, d) != multiset{};
    }
  }

  // ---------------------------------------------------------------- Status

  /** A Gateway reported as programmed has no listener in conflict. */
  lemma ProgrammedMeansNoConflict(i: Inputs, gw: Gateway, statuses: seq<ListenerStatus>)
    requires StatusesRight(i, gw, gw.listeners, statuses)
    ensures (forall k :: 0 <= k < |statuses| ==> statuses[k].programmed) <==>
              forall l :: l in gw.listeners ==> KindsValid(l) && ConflictOf(gw.listeners, l).None?
  {
    if forall k :: 0 <= k < |statuses| ==> statuses[k].programmed {
      forall l | l in gw.listeners
        ensures KindsValid(l) && ConflictOf(gw.listeners, l).None?
      {
        var k :| 0 <= k < |gw.listeners| && gw.listeners[k] == l;
        assert statuses[k].programmed;
      }
    } else {
      var k :| 0 <= k < |statuses| && !statuses[k].programmed;
      assert statuses[k] == StatusOf(i, gw, gw.listeners[k]);
      assert gw.listeners[k] in gw.listeners;
    }
  }
}
