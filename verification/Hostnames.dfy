/**
 Hostname matching between listeners and routes (pkg/translator/routes.go): the domains of a
 virtual host, compared with the hosts that the listener and the route admit.
 */
module Hostnames {
  import opened Options

  predicate HasSuffix(s: string, suffix: string) {
    |suffix| <= |s| && s[|s| - |suffix|..] == suffix
  }

  predicate IsWildcard(hostname: string) { "*." <= hostname }

  // ---------------------------------------------------------------- Meaning

  /** A host a client can ask for, or the domain under a wildcard. */
  predicate Concrete(host: string) { host != "" && host[0] != '.' && '*' !in host }

  /** A hostname the API accepts: a concrete one, or a wildcard in front of one. */
  predicate ValidHostname(hostname: string) {
    if IsWildcard(hostname) then Concrete(hostname[2..]) else Concrete(hostname)
  }

  /** The hosts a hostname stands for; "*" is the universal domain of Envoy. */
  predicate Admits(hostname: string, host: string) {
    || hostname == "*"
    || (if IsWildcard(hostname) then HasSuffix(host, hostname[1..]) else hostname == host)
  }

  /** An absent or empty listener hostname admits everything. */
  predicate IsOpen(listener: Option<string>) { listener.None? || listener.value == "" }

  predicate ListenerAdmits(listener: Option<string>, host: string) {
    IsOpen(listener) || Admits(listener.value, host)
  }

  /** What a route hostname admits on a listener: "*.d" includes d itself when the listener is d. */
  predicate RouteAdmits(route: string, listener: Option<string>, host: string) {
    || Admits(route, host)
    || (!IsOpen(listener) && listener.value == host && route == "*." + host)
  }

  /** Both are wildcards and the route's covers strictly more than the listener's. */
  predicate StrictlyWider(route: string, listener: string) {
    IsWildcard(route) && IsWildcard(listener) && route != listener && HasSuffix(listener[1..], route[1..])
  }

  // ---------------------------------------------------------------- The program's answer

  predicate IsHostnameSubset(route: string, listener: string) {
    || route == listener
    || (if IsWildcard(listener) then HasSuffix(if IsWildcard(route) then route[1..] else route, listener[1..])
        else IsWildcard(route) && (listener == route[2..] || HasSuffix(listener, route[1..])))
  }

  /** The more restrictive of two intersecting hostnames. */
  function Meet(route: string, listener: string): string {
    if "*" <= route && !("*" <= listener) then listener else route
  }

  /** The domains of a route on a listener, as often as the program lists them. */
  function Intersection(listener: Option<string>, routes: seq<string>): multiset<string> {
    if IsOpen(listener) then (if routes == [] then multiset{"*"} else multiset(routes))
    else if routes == [] then multiset{listener.value}
    else multiset(set r | r in routes && IsHostnameSubset(r, listener.value) :: Meet(r, listener.value))
  }

  method GetIntersectingHostnames(listener: Option<string>, routes: seq<string>) returns (names: seq<string>)
    ensures multiset(names) == Intersection(listener, routes)
  {
    names := [];
    if IsOpen(listener) {
      if routes == [] {
        return ["*"];
      }
      for i := 0 to |routes|
        invariant names == routes[..i]
      {
        names := names + [routes[i]];
      }
      assert routes[..|routes|] == routes;
      return names;
    }
    if routes == [] {
      return [listener.value];
    }
    var intersection: set<string> := {};
    for i := 0 to |routes|
      invariant intersection == set r | r in routes[..i] && IsHostnameSubset(r, listener.value) :: Meet(r, listener.value)
    {
      assert routes[..i + 1] == routes[..i] + [routes[i]];
      if IsHostnameSubset(routes[i], listener.value) {
        intersection := intersection + {Meet(routes[i], listener.value)};
      }
    }
    assert routes[..|routes|] == routes;
    names := UnsortedList(intersection);
  }

  /** The elements of a set, each once, in no particular order. */
  method UnsortedList(s: set<string>) returns (list: seq<string>)
    ensures multiset(list) == multiset(s)
  {
    list := [];
    var rest := s;
    while rest != {}
      invariant rest <= s && multiset(list) == multiset(s - rest)
      decreases |rest|
    {
      var x :| x in rest;
      assert s - (rest - {x}) == (s - rest) + {x};
      list, rest := list + [x], rest - {x};
    }
    assert s - rest == s;
  }

  method IsAllowedByHostname(listener: Option<string>, routes: seq<string>) returns (allowed: bool)
    ensures allowed <==> Intersection(listener, routes) != multiset{}
  {
    if IsOpen(listener) {
      assert routes != [] ==> routes[0] in multiset(routes);
      return true;
    }
    if routes == [] {
      return true;
    }
    for i := 0 to |routes|
      invariant forall j :: 0 <= j < i ==> !IsHostnameSubset(routes[j], listener.value)
    {
      if IsHostnameSubset(routes[i], listener.value) {
        assert Meet(routes[i], listener.value) in Intersection(listener, routes);
        return true;
      }
    }
    return false;
  }

  /** An empty listener hostname is the same as none: the route's own hostnames, or every host if it has none. */
  lemma OpenListener(routes: seq<string>)
    ensures Intersection(Some(""), routes) == Intersection(None, routes)
    ensures Intersection(None, routes) == if routes == [] then multiset{"*"} else multiset(routes)
  {
  }

  // ---------------------------------------------------------------- Soundness and completeness

  lemma SuffixesNest(s: string, a: string, b: string)
    requires HasSuffix(s, a) && HasSuffix(s, b) && |a| <= |b|
    ensures HasSuffix(b, a)
  {
    assert b[|b| - |a|..] == s[|s| - |b|..][|b| - |a|..] == s[|s| - |a|..];
  }

  lemma SuffixesCompose(s: string, a: string, b: string)
    requires HasSuffix(s, b) && HasSuffix(b, a)
    ensures HasSuffix(s, a)
  {
    assert b[|b| - |a|..] == s[|s| - |b|..][|b| - |a|..] == s[|s| - |a|..];
  }

  lemma ValidForms(hostname: string)
    requires ValidHostname(hostname)
    ensures hostname != "*" && hostname != ""
    ensures "*" <= hostname <==> IsWildcard(hostname)
    ensures IsWildcard(hostname) ==> hostname == "*." + hostname[2..] && hostname[1..] == "." + hostname[2..]
  {
  }

  /** A pair the program accepts yields exactly the hosts both sides admit. */
  lemma AcceptedPairIsExact(route: string, listener: string, host: string)
    requires ValidHostname(route) && ValidHostname(listener) && Concrete(host) && IsHostnameSubset(route, listener)
    ensures Admits(Meet(route, listener), host) <==>
              Admits(listener, host) && RouteAdmits(route, Some(listener), host)
  {
    ValidForms(route);
    ValidForms(listener);
    if route != listener {
      if IsWildcard(listener) && IsWildcard(route) {
        if HasSuffix(host, route[1..]) {
          SuffixesCompose(host, listener[1..], route[1..]);
        }
      }
    }
  }

  /** A pair the program refuses has no host in common, unless the route is strictly wider. */
  lemma RefusedPairIsDisjoint(route: string, listener: string, host: string)
    requires ValidHostname(route) && ValidHostname(listener) && Concrete(host) && !IsHostnameSubset(route, listener)
    requires Admits(listener, host) && RouteAdmits(route, Some(listener), host)
    ensures StrictlyWider(route, listener)
  {
    ValidForms(route);
    ValidForms(listener);
    if IsWildcard(listener) {
      assert IsWildcard(route) && HasSuffix(host, route[1..]);
      if |listener[1..]| <= |route[1..]| {
        SuffixesNest(host, listener[1..], route[1..]);
      } else {
        SuffixesNest(host, route[1..], listener[1..]);
      }
    }
  }

  /** The program never accepts a strictly wider wildcard. */
  lemma WiderIsRefused(route: string, listener: string)
    requires StrictlyWider(route, listener)
    ensures !IsHostnameSubset(route, listener)
  {
    assert route == "*" + route[1..] && listener == "*" + listener[1..];
  }

  /**
   A virtual host serves a host exactly when the listener admits it and the route, where it names
   hosts, admits it through a hostname that is not strictly wider than the listener's.
   */
  lemma IntersectionIsExact(listener: Option<string>, routes: seq<string>, host: string)
    requires IsOpen(listener) || ValidHostname(listener.value)
    requires forall i :: 0 <= i < |routes| ==> ValidHostname(routes[i])
    requires Concrete(host)
    ensures (exists d :: d in Intersection(listener, routes) && Admits(d, host)) <==>
              && ListenerAdmits(listener, host)
              && (routes == [] || exists r :: r in routes && RouteAdmits(r, listener, host) &&
                                              (IsOpen(listener) || !StrictlyWider(r, listener.value)))
  {
    if routes == [] {
      var d := if IsOpen(listener) then "*" else listener.value;
      assert d in Intersection(listener, routes);
      return;
    }
    if IsOpen(listener) {
      assert forall r :: r in routes <==> r in Intersection(listener, routes);
      assert forall r :: r in routes ==> (RouteAdmits(r, listener, host) <==> Admits(r, host));
      return;
    }
    var l := listener.value;
    if d :| d in Intersection(listener, routes) && Admits(d, host) {
      var r :| r in routes && IsHostnameSubset(r, l) && d == Meet(r, l);
      AcceptedPairIsExact(r, l, host);
      if StrictlyWider(r, l) {
        WiderIsRefused(r, l);
      }
    }
    if r :| ListenerAdmits(listener, host) && r in routes && RouteAdmits(r, listener, host) && !StrictlyWider(r, l) {
      if !IsHostnameSubset(r, l) {
        RefusedPairIsDisjoint(r, l, host);
      }
      AcceptedPairIsExact(r, l, host);
      assert Meet(r, l) in Intersection(listener, routes);
    }
  }

  /** Each single domain stays within the listener and within one hostname of the route. */
  lemma EveryDomainIsSound(listener: Option<string>, routes: seq<string>, d: string)
    requires IsOpen(listener) || ValidHostname(listener.value)
    requires forall i :: 0 <= i < |routes| ==> ValidHostname(routes[i])
    requires d in Intersection(listener, routes)
    ensures forall host :: Concrete(host) && Admits(d, host) ==> ListenerAdmits(listener, host)
    ensures routes == [] || exists r :: r in routes && forall host :: Concrete(host) && Admits(d, host) ==>
              RouteAdmits(r, listener, host)
  {
    if IsOpen(listener) && routes != [] {
      assert d in routes && forall host :: Admits(d, host) ==> RouteAdmits(d, listener, host);
    } else if routes != [] {
      var r :| r in routes && IsHostnameSubset(r, listener.value) && d == Meet(r, listener.value);
      forall host | Concrete(host) && Admits(d, host)
        ensures ListenerAdmits(listener, host) && RouteAdmits(r, listener, host)
      {
        AcceptedPairIsExact(r, listener.value, host);
      }
    }
  }

  // ---------------------------------------------------------------- Exactly when the Gateway API is met

  ghost predicate Served(listener: Option<string>, routes: seq<string>, host: string) {
    exists d :: d in Intersection(listener, routes) && Admits(d, host)
  }

  /** The Gateway API: both sides admit the host, a route without hostnames admitting all. */
  ghost predicate Specified(listener: Option<string>, routes: seq<string>, host: string) {
    ListenerAdmits(listener, host) && (routes == [] || exists r :: r in routes && Admits(r, host))
  }

  /**
   A wildcard listener that meets a strictly wider route hostname needs its own hostname in the
   route too, and a listener d that meets "*.d" needs another hostname that really admits d.
   */
  ghost predicate Backed(listener: string, routes: seq<string>) {
    && ((exists r :: r in routes && StrictlyWider(r, listener)) ==> listener in routes)
    && (!IsWildcard(listener) && "*." + listener in routes ==> exists r :: r in routes && Admits(r, listener))
  }

  function Label(n: nat): (s: string)
    ensures |s| == n && forall i :: 0 <= i < n ==> s[i] == 'x'
  {
    seq(n, _ => 'x')
  }

  lemma {:induction false} LongestBound(routes: seq<string>) returns (n: nat)
    ensures forall i :: 0 <= i < |routes| ==> |routes[i]| < n
  {
    if routes == [] {
      n := 0;
    } else {
      n := LongestBound(routes[1..]);
      n := n + |routes[0]| + 1;
    }
  }

  /** Under a wildcard there are hosts that no hostname of a list admits unless it is as wide. */
  lemma FreshHost(listener: string, routes: seq<string>) returns (host: string)
    requires IsWildcard(listener) && ValidHostname(listener)
    requires forall i :: 0 <= i < |routes| ==> ValidHostname(routes[i])
    ensures Concrete(host) && HasSuffix(host, listener[1..])
    ensures forall r :: r in routes && Admits(r, host) ==> r == listener || StrictlyWider(r, listener)
  {
    var n := LongestBound(routes);
    host := Label(n + 1) + listener[1..];
    ValidForms(listener);
    forall r | r in routes && Admits(r, host)
      ensures r == listener || StrictlyWider(r, listener)
    {
      ValidForms(r);
      assert IsWildcard(r) && HasSuffix(host, r[1..]);
      assert host[|host| - |r[1..]|] == '.';
      assert |r[1..]| <= |listener[1..]|;
      SuffixesNest(host, r[1..], listener[1..]);
    }
  }

  lemma WiderNeedsBacking(listener: string, routes: seq<string>, wide: string)
    requires ValidHostname(listener) && forall i :: 0 <= i < |routes| ==> ValidHostname(routes[i])
    requires wide in routes && StrictlyWider(wide, listener) && listener !in routes
    ensures exists host :: Concrete(host) && Specified(Some(listener), routes, host) && !Served(Some(listener), routes, host)
  {
    ValidForms(listener);
    var host := FreshHost(listener, routes);
    IntersectionIsExact(Some(listener), routes, host);
    SuffixesCompose(host, wide[1..], listener[1..]);
    assert Specified(Some(listener), routes, host);
  }

  lemma BackingSuffices(listener: string, routes: seq<string>, host: string)
    requires ValidHostname(listener) && forall i :: 0 <= i < |routes| ==> ValidHostname(routes[i])
    requires Concrete(host) && Backed(listener, routes)
    ensures Served(Some(listener), routes, host) <==> Specified(Some(listener), routes, host)
  {
    ValidForms(listener);
    IntersectionIsExact(Some(listener), routes, host);
    if r :| ListenerAdmits(Some(listener), host) && r in routes && Admits(r, host) {
      var backed := if StrictlyWider(r, listener) then listener else r;
      assert backed in routes && RouteAdmits(backed, Some(listener), host) && !StrictlyWider(backed, listener);
    }
  }

  /** The virtual host serves exactly the hosts the Gateway API asks for if and only if it is backed. */
  lemma SpecifiedIffBacked(listener: Option<string>, routes: seq<string>)
    requires IsOpen(listener) || ValidHostname(listener.value)
    requires forall i :: 0 <= i < |routes| ==> ValidHostname(routes[i])
    ensures (forall host :: Concrete(host) ==> (Served(listener, routes, host) <==> Specified(listener, routes, host))) <==>
              IsOpen(listener) || Backed(listener.value, routes)
  {
    if IsOpen(listener) {
      forall host | Concrete(host)
        ensures Served(listener, routes, host) <==> Specified(listener, routes, host)
      {
        IntersectionIsExact(listener, routes, host);
      }
      return;
    }
    var l := listener.value;
    ValidForms(l);
    if Backed(l, routes) {
      forall host | Concrete(host)
        ensures Served(listener, routes, host) <==> Specified(listener, routes, host)
      {
        BackingSuffices(l, routes, host);
      }
    } else if wide :| wide in routes && StrictlyWider(wide, l) && l !in routes {
      WiderNeedsBacking(l, routes, wide);
    } else {
      IntersectionIsExact(listener, routes, l);
      assert RouteAdmits("*." + l, listener, l);
      assert Served(listener, routes, l) && !Specified(listener, routes, l);
    }
  }

  /** A route for "*.b" is refused by a listener for "*.a.b", although both admit "x.a.b". */
  lemma WiderWildcardIsLost()
    ensures Admits("*.a.b", "x.a.b") && Admits("*.b", "x.a.b")
    ensures Intersection(Some("*.a.b"), ["*.b"]) == multiset{}
  {
    WiderIsRefused("*.b", "*.a.b");
    assert "x.a.b"[1..] == ".a.b" == "*.a.b"[1..];
    assert "x.a.b"[3..] == ".b" == "*.b"[1..];
  }

  /** A route for "*.b" is accepted by a listener for "b", which the wildcard does not admit. */
  lemma ParentDomainIsAccepted()
    ensures !Admits("*.b", "b") && Intersection(Some("b"), ["*.b"]) == multiset{"b"}
  {
    assert "*.b"[2..] == "b" && "*.b"[1..] == ".b";
    assert "b"[0] != '*';
    assert IsHostnameSubset("*.b", "b");
    assert Meet("*.b", "b") == "b";
    assert (set r | r in ["*.b"] && IsHostnameSubset(r, "b") :: Meet(r, "b")) == {"b"};
  }
}
