/**
 Which listeners of a Gateway accept which HTTPRoutes: validation of the parent references and
 grouping of the routes by listener (pkg/translator/translator.go).
 */
module Attachment {
  import opened Options
  import opened Hostnames
  import opened Listeners
  import opened RouteTranslation

  datatype Gateway = Gateway(namespace: string, name: string, listeners: seq<Listener>)

  // ---------------------------------------------------------------- Acceptance

  predicate RefersTo(gw: Gateway, route: HTTPRoute, ref: ParentRef) {
    ref.name == gw.name && ref.namespace.GetOr(route.namespace) == gw.namespace
  }

  /** The reference names the Gateway, or the listener's section or port in particular. */
  predicate NamesListener(ref: ParentRef, l: Listener) {
    (ref.section.None? || ref.section.value == l.name) && (ref.port.None? || ref.port.value == l.port)
  }

  /** The listener accepts the route for one of its references. */
  predicate AcceptsFor(selects: Selects, gw: Gateway, l: Listener, route: HTTPRoute, ref: ParentRef) {
    && RefersTo(gw, route, ref) && NamesListener(ref, l)
    && IsAllowedByListener(selects, gw.namespace, l, route.namespace)
    && Intersection(l.hostname, route.hostnames) != multiset{}
  }

  predicate Accepts(selects: Selects, gw: Gateway, l: Listener, route: HTTPRoute) {
    exists k :: 0 <= k < |route.parents| && AcceptsFor(selects, gw, l, route, route.parents[k])
  }

  /** Which namespaces a listener takes routes from, in the words of its `allowedRoutes`. */
  lemma AcceptedNamespaces(selects: Selects, gw: Gateway, l: Listener, route: HTTPRoute)
    requires Accepts(selects, gw, l, route)
    ensures l.allowed.None? ==> route.namespace == gw.namespace
    ensures l.allowed.Some? && l.allowed.value.namespaces.None? ==> route.namespace == gw.namespace
    ensures l.allowed.Some? && l.allowed.value.namespaces.Some? ==>
              var ns := l.allowed.value.namespaces.value;
              && (ns.from == None || ns.from == Some(FromSame) ==> route.namespace == gw.namespace)
              && ns.from != Some(FromNone) && ns.from != Some(FromUnknown)
              && (ns.from == Some(FromSelector) ==> ns.selector.Some? && selects(ns.selector.value, route.namespace))
  {
  }

  /** The reference of `route` that names the Gateway `gw` and, if it says so, the listener `l`. */
  ghost predicate PointsAt(gw: Gateway, l: Listener, route: HTTPRoute, k: nat) {
    && k < |route.parents|
    && var ref := route.parents[k];
       && ref.name == gw.name
       && gw.namespace == (if ref.namespace.Some? then ref.namespace.value else route.namespace)
       && (ref.section.Some? ==> ref.section.value == l.name)
       && (ref.port.Some? ==> ref.port.value == l.port)
  }

  /** Whether the namespace of the route is no obstacle, spelled out. */
  ghost predicate FromAllowed(selects: Selects, gw: Gateway, l: Listener, route: HTTPRoute) {
    || (l.allowed.None? && route.namespace == gw.namespace)
    || (&& l.allowed.Some?
        && var ns := l.allowed.value.namespaces;
           || (ns.Some? && ns.value.from == Some(FromAll))
           || (ns.Some? && ns.value.from == Some(FromSelector) && ns.value.selector.Some? &&
               selects(ns.value.selector.value, route.namespace))
           || ((ns.None? || ns.value.from.None? || ns.value.from == Some(FromSame)) && route.namespace == gw.namespace))
  }

  /**
   Acceptance in terms of the objects' fields: some parent reference points at the listener, the
   route's namespace may attach, the kinds are absent or include HTTPRoutes, and some host suits
   both sides.
   */
  lemma AcceptsIff(selects: Selects, gw: Gateway, l: Listener, route: HTTPRoute)
    ensures Accepts(selects, gw, l, route) <==>
              && (exists k: nat :: PointsAt(gw, l, route, k))
              && FromAllowed(selects, gw, l, route)
              && (l.allowed.None? || l.allowed.value.kinds == [] ||
                  exists k :: k in l.allowed.value.kinds && k.kind == "HTTPRoute" &&
                    (k.group.None? || k.group == Some("") || k.group == Some("gateway.networking.k8s.io")))
              && Intersection(l.hostname, route.hostnames) != multiset{}
  {
    assert forall k: nat :: PointsAt(gw, l, route, k) <==>
        k < |route.parents| && RefersTo(gw, route, route.parents[k]) && NamesListener(route.parents[k], l);
    if k: nat :| PointsAt(gw, l, route, k) {
      assert Accepts(selects, gw, l, route) <== AcceptsFor(selects, gw, l, route, route.parents[k]);
    }
  }

  datatype Rejection = NoMatchingParent | NotAllowedByListeners | NoMatchingListenerHostname

  /** Why a reference found no listener: the last obstacle met, going through the listeners in order. */
  function RejectionOf(selects: Selects, gw: Gateway, route: HTTPRoute, ref: ParentRef, ls: seq<Listener>): Rejection {
    if ls == [] then NoMatchingParent
    else
      var before, l := RejectionOf(selects, gw, route, ref, ls[..|ls| - 1]), ls[|ls| - 1];
      if !NamesListener(ref, l) then before
      else if !IsAllowedByListener(selects, gw.namespace, l, route.namespace) then NotAllowedByListeners
      else if Intersection(l.hostname, route.hostnames) == multiset{} then NoMatchingListenerHostname
      else before
  }

  /** Listener `n` is the last that the reference names. */
  predicate LastNamed(ref: ParentRef, ls: seq<Listener>, n: nat) {
    n < |ls| && NamesListener(ref, ls[n]) && forall m :: n < m < |ls| ==> !NamesListener(ref, ls[m])
  }

  /**
   A reference to the Gateway that no listener accepts names no listener, or is turned down for what
   the last listener it names objects to: its namespace or kind, or else its hostnames.
   */
  lemma {:induction false} RejectionExplained(selects: Selects, gw: Gateway, route: HTTPRoute, ref: ParentRef,
                                              ls: seq<Listener>)
    requires RefersTo(gw, route, ref) && forall n :: 0 <= n < |ls| ==> !AcceptsFor(selects, gw, ls[n], route, ref)
    ensures var r := RejectionOf(selects, gw, route, ref, ls);
            && (r == NoMatchingParent <==> forall n :: 0 <= n < |ls| ==> !NamesListener(ref, ls[n]))
            && forall n: nat :: LastNamed(ref, ls, n) ==>
                 r == if IsAllowedByListener(selects, gw.namespace, ls[n], route.namespace)
                      then NoMatchingListenerHostname else NotAllowedByListeners
  {
    if ls != [] {
      var init, last := ls[..|ls| - 1], ls[|ls| - 1];
      RejectionExplained(selects, gw, route, ref, init);
      assert forall n :: 0 <= n < |init| ==> init[n] == ls[n];
      assert !AcceptsFor(selects, gw, last, route, ref);
      assert forall n: nat :: LastNamed(ref, ls, n) ==>
          if NamesListener(ref, last) then n == |ls| - 1 else LastNamed(ref, init, n);
    }
  }

  /** Status of one reference: None when it was accepted. */
  datatype ParentStatus = ParentStatus(ref: ParentRef, rejection: Option<Rejection>)

  predicate RightStatus(selects: Selects, gw: Gateway, route: HTTPRoute, s: ParentStatus) {
    && (s.rejection.None? <==> exists l :: l in gw.listeners && AcceptsFor(selects, gw, l, route, s.ref))
    && (s.rejection.Some? ==> s.rejection.value == RejectionOf(selects, gw, route, s.ref, gw.listeners))
  }

  /** The references to the Gateway among the first `n`. */
  function RefsToGateway(gw: Gateway, route: HTTPRoute, n: nat): seq<ParentRef>
    requires n <= |route.parents|
  {
    if n == 0 then []
    else
      var init, ref := RefsToGateway(gw, route, n - 1), route.parents[n - 1];
      if RefersTo(gw, route, ref) then init + [ref] else init
  }

  function RefsOf(statuses: seq<ParentStatus>): (refs: seq<ParentRef>)
    ensures |refs| == |statuses| && forall i :: 0 <= i < |refs| ==> refs[i] == statuses[i].ref
  {
    seq(|statuses|, i requires 0 <= i < |statuses| => statuses[i].ref)
  }

  /** The listeners that accept the route for one reference, or why there are none. */
  method ValidateRef(selects: Selects, gw: Gateway, route: HTTPRoute, ref: ParentRef)
    returns (accepting: seq<Listener>, rejection: Rejection)
    requires RefersTo(gw, route, ref)
    ensures forall l :: l in accepting <==> l in gw.listeners && AcceptsFor(selects, gw, l, route, ref)
    ensures rejection == RejectionOf(selects, gw, route, ref, gw.listeners)
  {
    accepting, rejection := [], NoMatchingParent;
    var ls := gw.listeners;
    for n := 0 to |ls|
      invariant forall l :: l in accepting <==> l in ls[..n] && AcceptsFor(selects, gw, l, route, ref)
      invariant rejection == RejectionOf(selects, gw, route, ref, ls[..n])
    {
      var l := ls[n];
      assert ls[..n + 1] == ls[..n] + [l] && ls[..n + 1][..n] == ls[..n];
      if NamesListener(ref, l) {
        if !IsAllowedByListener(selects, gw.namespace, l, route.namespace) {
          rejection := NotAllowedByListeners;
          continue;
        }
        var allowed := IsAllowedByHostname(l.hostname, route.hostnames);
        if !allowed {
          rejection := NoMatchingListenerHostname;
          continue;
        }
        accepting := accepting + [l];
      }
    }
    assert ls[..|ls|] == ls;
  }

  /** The accepted set, keyed by name, after the first `n` references. */
  ghost predicate AcceptedAfter(selects: Selects, gw: Gateway, route: HTTPRoute, n: nat,
                                accepted: map<string, Listener>)
    requires n <= |route.parents|
  {
    && (forall name :: name in accepted ==> accepted[name] in gw.listeners && accepted[name].name == name)
    && (forall l :: l in gw.listeners ==>
          (l.name in accepted <==> exists k :: 0 <= k < n && AcceptsFor(selects, gw, l, route, route.parents[k])))
  }

  method Accept(accepting: seq<Listener>, was: map<string, Listener>) returns (now: map<string, Listener>)
    ensures forall name :: name in now <==> name in was || exists i :: 0 <= i < |accepting| && accepting[i].name == name
    ensures forall name :: name in now ==>
              (name in was && now[name] == was[name]) || (now[name] in accepting && now[name].name == name)
  {
    now := was;
    for n := 0 to |accepting|
      invariant forall name :: name in now <==> name in was || exists i :: 0 <= i < n && accepting[i].name == name
      invariant forall name :: name in now ==>
                  (name in was && now[name] == was[name]) || (now[name] in accepting && now[name].name == name)
    {
      now := now[accepting[n].name := accepting[n]];
    }
  }

  lemma SameName(ls: seq<Listener>, l: Listener, m: Listener)
    requires UniqueNames(ls) && l in ls && m in ls && l.name == m.name
    ensures l == m
  {
    var i, j :| 0 <= i < |ls| && 0 <= j < |ls| && ls[i] == l && ls[j] == m;
    assert i == j;
  }

  lemma AcceptedNext(selects: Selects, gw: Gateway, route: HTTPRoute, n: nat, accepting: seq<Listener>,
                     was: map<string, Listener>, now: map<string, Listener>)
    requires UniqueNames(gw.listeners) && n < |route.parents| && AcceptedAfter(selects, gw, route, n, was)
    requires forall l :: l in accepting <==> l in gw.listeners && AcceptsFor(selects, gw, l, route, route.parents[n])
    requires forall name :: name in now <==>
               name in was || exists i :: 0 <= i < |accepting| && accepting[i].name == name
    requires forall name :: name in now ==>
               (name in was && now[name] == was[name]) || (now[name] in accepting && now[name].name == name)
    ensures AcceptedAfter(selects, gw, route, n + 1, now)
  {
    forall l | l in gw.listeners
      ensures l.name in now <==> exists k :: 0 <= k < n + 1 && AcceptsFor(selects, gw, l, route, route.parents[k])
    {
      if i :| 0 <= i < |accepting| && accepting[i].name == l.name {
        assert accepting[i] in accepting;
        SameName(gw.listeners, accepting[i], l);
      }
      if AcceptsFor(selects, gw, l, route, route.parents[n]) {
        assert l in accepting;
      }
    }
  }

  /** Statuses for the references to the Gateway among the first `n`, in order and each one right. */
  predicate Reported(selects: Selects, gw: Gateway, route: HTTPRoute, n: nat, statuses: seq<ParentStatus>)
    requires n <= |route.parents|
  {
    && RefsOf(statuses) == RefsToGateway(gw, route, n)
    && forall i :: 0 <= i < |statuses| ==> RightStatus(selects, gw, route, statuses[i])
  }

  lemma ReportedNext(selects: Selects, gw: Gateway, route: HTTPRoute, n: nat, statuses: seq<ParentStatus>,
                     s: ParentStatus)
    requires n < |route.parents| && Reported(selects, gw, route, n, statuses)
    requires RefersTo(gw, route, route.parents[n]) && s.ref == route.parents[n] && RightStatus(selects, gw, route, s)
    ensures Reported(selects, gw, route, n + 1, statuses + [s])
  {
    assert RefsOf(statuses + [s]) == RefsOf(statuses) + [s.ref];
  }

  lemma StatusIsRight(selects: Selects, gw: Gateway, route: HTTPRoute, ref: ParentRef, accepting: seq<Listener>)
    requires forall l :: l in accepting <==> l in gw.listeners && AcceptsFor(selects, gw, l, route, ref)
    ensures RightStatus(selects, gw, route,
              ParentStatus(ref, if accepting == [] then Some(RejectionOf(selects, gw, route, ref,
                  gw.listeners)) else None))
  {
    assert accepting != [] ==> accepting[0] in accepting;
  }

  /** Every reference to the Gateway gets its status; the listeners that accept the route are found. */
  method ValidateHTTPRoute(selects: Selects, gw: Gateway, route: HTTPRoute)
    returns (statuses: seq<ParentStatus>, accepted: map<string, Listener>)
    requires UniqueNames(gw.listeners)
    ensures Reported(selects, gw, route, |route.parents|, statuses)
    ensures forall l :: l in gw.listeners ==> (l.name in accepted <==> Accepts(selects, gw, l, route))
    ensures forall name :: name in accepted ==> accepted[name] in gw.listeners && accepted[name].name == name
  {
    statuses, accepted := [], map[];
    for n := 0 to |route.parents|
      invariant Reported(selects, gw, route, n, statuses)
      invariant AcceptedAfter(selects, gw, route, n, accepted)
    {
      var ref := route.parents[n];
      if !RefersTo(gw, route, ref) {
        AcceptedSkips(selects, gw, route, n, accepted);
        continue;
      }
      var accepting, rejection := ValidateRef(selects, gw, route, ref);
      ghost var was := accepted;
      accepted := Accept(accepting, accepted);
      AcceptedNext(selects, gw, route, n, accepting, was, accepted);
      var status := ParentStatus(ref, if accepting == [] then Some(rejection) else None);
      StatusIsRight(selects, gw, route, ref, accepting);
      ReportedNext(selects, gw, route, n, statuses, status);
      statuses := statuses + [status];
    }
  }

  lemma AcceptedSkips(selects: Selects, gw: Gateway, route: HTTPRoute, n: nat, accepted: map<string, Listener>)
    requires n < |route.parents| && AcceptedAfter(selects, gw, route, n, accepted)
    requires !RefersTo(gw, route, route.parents[n])
    ensures AcceptedAfter(selects, gw, route, n + 1, accepted)
  {
  }

  // ---------------------------------------------------------------- Routes of a listener

  /** The routes the listener accepts, in the order of the list. */
  function AcceptedRoutes(selects: Selects, gw: Gateway, l: Listener, routes: seq<HTTPRoute>): seq<HTTPRoute> {
    if routes == [] then []
    else
      var init, last := AcceptedRoutes(selects, gw, l, routes[..|routes| - 1]), routes[|routes| - 1];
      if Accepts(selects, gw, l, last) then init + [last] else init
  }

  lemma {:induction false} AcceptedRoutesContents(selects: Selects, gw: Gateway, l: Listener, routes: seq<HTTPRoute>)
    ensures forall r :: r in AcceptedRoutes(selects, gw, l, routes) <==> r in routes && Accepts(selects, gw, l, r)
  {
    if routes != [] {
      var init, last := routes[..|routes| - 1], routes[|routes| - 1];
      AcceptedRoutesContents(selects, gw, l, init);
      assert routes == init + [last];
    }
  }

  function RoutesFor(groups: map<string, seq<HTTPRoute>>, name: string): seq<HTTPRoute> {
    if name in groups then groups[name] else []
  }

  /** Adds the route to the list of every listener in the set, once each. */
  method AppendRoute(groups: map<string, seq<HTTPRoute>>, accepted: map<string, Listener>, route: HTTPRoute)
    returns (now: map<string, seq<HTTPRoute>>)
    ensures forall name :: RoutesFor(now, name) == RoutesFor(groups, name) + if name in accepted then [route] else []
  {
    now := groups;
    var pending := accepted.Keys;
    while pending != {}
      invariant pending <= accepted.Keys
      invariant forall name :: RoutesFor(now, name) ==
                  RoutesFor(groups, name) + if name in accepted && name !in pending then [route] else []
      decreases |pending|
    {
      var name :| name in pending;
      now := now[name := RoutesFor(now, name) + [route]];
      pending := pending - {name};
    }
  }

  predicate RefersToGateway(gw: Gateway, route: HTTPRoute) {
    exists k :: 0 <= k < |route.parents| && RefersTo(gw, route, route.parents[k])
  }

  /** Groups the routes that refer to the Gateway by the listeners that accept them. */
  method GroupRoutes(selects: Selects, gw: Gateway,
                     routes: seq<HTTPRoute>) returns (groups: map<string, seq<HTTPRoute>>)
    requires UniqueNames(gw.listeners)
    ensures forall l :: l in gw.listeners ==> RoutesFor(groups, l.name) == AcceptedRoutes(selects, gw, l, routes)
  {
    groups := map[];
    for n := 0 to |routes|
      invariant forall l :: l in gw.listeners ==>
                  RoutesFor(groups, l.name) == AcceptedRoutes(selects, gw, l, routes[..n])
    {
      assert routes[..n + 1][..n] == routes[..n];
      if RefersToGateway(gw, routes[n]) {
        var statuses, accepted := ValidateHTTPRoute(selects, gw, routes[n]);
        groups := AppendRoute(groups, accepted, routes[n]);
      }
    }
    assert routes[..|routes|] == routes;
  }
}
