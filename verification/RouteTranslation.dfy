/**
 Translation of one HTTPRoute: its rules and matches become Envoy routes, its backend references
 weighted clusters (pkg/translator/httproute.go, pkg/translator/backend.go).
 */
module RouteTranslation {
  import opened Options
  import opened Names
  import opened Text
  import opened ReferenceGrants
  import opened RouteMatching
  import opened RouteOrder

  // ---------------------------------------------------------------- Resources

  datatype BackendRef = BackendRef(group: Option<string>, kind: Option<string>, namespace: Option<string>, name: string,
                                   port: Option<nat>, weight: Option<nat>)

  datatype Rule = Rule(matches: seq<RouteMatch>, redirects: bool, backends: seq<BackendRef>)

  datatype ParentRef = ParentRef(group: Option<string>, kind: Option<string>, namespace: Option<string>, name: string,
                                 section: Option<string>, port: Option<nat>)

  datatype HTTPRoute = HTTPRoute(namespace: string, name: string, parents: seq<ParentRef>, hostnames: seq<string>,
      rules: seq<Rule>)

  /** An XBackend names a service of its namespace or an external host. */
  datatype Target = ServiceTarget(service: string) | HostTarget(hostname: string)

  datatype XBackend = XBackend(target: Target, port: nat)

  /** What the listers hold; grants are None when no lister for them is configured. */
  datatype World = World(services: map<Key, seq<nat>>, xbackends: map<Key, XBackend>, grants: Option<seq<Grant>>)

  // ---------------------------------------------------------------- Backends

  datatype Reason = InvalidKind | BackendNotFound | RefNotPermitted | UnsupportedValue

  /** A resolved reference: an XBackend, or a Service with the port to use. */
  datatype Backend = Backend(key: Key, x: Option<XBackend>, servicePort: nat)

  datatype Fetched = Found(backend: Backend) | Missing(reason: Reason)

  function ClusterNameOf(k: Key): string { k.namespace + "-" + k.name }

  const DEFAULT_SERVICE_PORT := 80

  predicate IsServiceRef(ref: BackendRef) {
    && (ref.kind.GetOr("Service") == "Service" || ref.kind.GetOr("Service") == "")
    && (ref.group.GetOr("") == "" || ref.group.GetOr("") == "core")
  }

  function KeyOf(ns: string, ref: BackendRef): Key { Key(ref.namespace.GetOr(ns), ref.name) }

  function FetchServiceBackend(w: World, ns: string, ref: BackendRef): Fetched {
    var key := KeyOf(ns, ref);
    if w.grants.Some? && key.namespace != ns && !AllowedByReferenceGrant(ns, key.namespace, w.grants.value) then
      Missing(RefNotPermitted)
    else if key !in w.services then Missing(BackendNotFound)
    else
      var ports := w.services[key];
      var port := if ref.port.Some? then ref.port.value else if ports != [] then ports[0] else DEFAULT_SERVICE_PORT;
      Found(Backend(key, None, port))
  }

  function FetchBackend(w: World, ns: string, ref: BackendRef): Fetched {
    var key := KeyOf(ns, ref);
    if IsServiceRef(ref) then FetchServiceBackend(w, ns, ref)
    else if ref.kind.Some? && ref.kind.value != "XBackend" then Missing(InvalidKind)
    else if key !in w.xbackends then Missing(BackendNotFound)
    else
      var x := w.xbackends[key];
      if x.target.ServiceTarget? && Key(key.namespace, x.target.service) !in w.services then Missing(BackendNotFound)
      else Found(Backend(key, Some(x), 0))
  }

  // ---------------------------------------------------------------- Forwarding

  function WeightOf(ref: BackendRef): nat { ref.weight.GetOr(1) }

  /** The external host of an XBackend; empty for everything else. */
  function Hostname(b: Backend): string {
    if b.x.Some? && b.x.value.target.HostTarget? then b.x.value.target.hostname else ""
  }

  function ClusterFor(b: Backend, weight: nat): WeightedCluster {
    WeightedCluster(ClusterNameOf(b.key), weight, if b.x.Some? then Some(b.key) else None,
                    if Hostname(b) != "" then Some(Hostname(b)) else None)
  }

  datatype Forwarding = Failed(reason: Reason) | Forwarding(clusters: seq<WeightedCluster>, backends: seq<Backend>)

  /** The references in order: the first that cannot be fetched decides, weight 0 is fetched but not used. */
  function Resolve(w: World, ns: string, refs: seq<BackendRef>): Forwarding {
    if refs == [] then Forwarding([], [])
    else
      var init, last := Resolve(w, ns, refs[..|refs| - 1]), refs[|refs| - 1];
      if init.Failed? then init
      else
        match FetchBackend(w, ns, last)
        case Missing(reason) => Failed(reason)
        case Found(b) =>
          Forwarding(init.clusters + (if WeightOf(last) == 0 then [] else [ClusterFor(b, WeightOf(last))]),
              init.backends + [b])
  }

  /** A rule that forwards nowhere is unsupported. */
  function RouteAction(w: World, ns: string, refs: seq<BackendRef>): Forwarding {
    var f := Resolve(w, ns, refs);
    if f.Forwarding? && f.clusters == [] then Failed(UnsupportedValue) else f
  }

  method BuildHTTPRouteAction(w: World, ns: string, refs: seq<BackendRef>) returns (r: Forwarding)
    ensures r == RouteAction(w, ns, refs)
  {
    var clusters: seq<WeightedCluster> := [];
    var backends: seq<Backend> := [];
    for i := 0 to |refs|
      invariant Resolve(w, ns, refs[..i]) == Forwarding(clusters, backends)
    {
      assert refs[..i + 1][..i] == refs[..i];
      var fetched := FetchBackend(w, ns, refs[i]);
      if fetched.Missing? {
        FailureStays(w, ns, refs, i + 1);
        return Failed(fetched.reason);
      }
      backends := backends + [fetched.backend];
      var weight := WeightOf(refs[i]);
      if weight == 0 {
        continue;
      }
      clusters := clusters + [ClusterFor(fetched.backend, weight)];
    }
    assert refs[..|refs|] == refs;
    r := if clusters == [] then Failed(UnsupportedValue) else Forwarding(clusters, backends);
  }

  lemma {:induction false} FailureStays(w: World, ns: string, refs: seq<BackendRef>, n: nat)
    requires n <= |refs| && Resolve(w, ns, refs[..n]).Failed?
    ensures Resolve(w, ns, refs) == Resolve(w, ns, refs[..n])
  {
    if n < |refs| {
      assert refs[..|refs| - 1][..n] == refs[..n];
      FailureStays(w, ns, refs[..|refs| - 1], n);
    } else {
      assert refs[..n] == refs;
    }
  }

  /** When a rule's references fail: one cannot be fetched, or all of them have weight 0. */
  lemma {:induction false} ResolvesUnlessMissing(w: World, ns: string, refs: seq<BackendRef>)
    ensures var f := Resolve(w, ns, refs);
            && (f.Failed? <==> exists i :: 0 <= i < |refs| && FetchBackend(w, ns, refs[i]).Missing?)
            && (f.Forwarding? ==> |f.backends| == |refs|)
            && (f.Forwarding? ==> forall i :: 0 <= i < |refs| ==> FetchBackend(w, ns, refs[i]) == Found(f.backends[i]))
            && (f.Forwarding? ==> (f.clusters == [] <==> forall i :: 0 <= i < |refs| ==> WeightOf(refs[i]) == 0))
  {
    if refs != [] {
      var init := refs[..|refs| - 1];
      ResolvesUnlessMissing(w, ns, init);
      assert forall i :: 0 <= i < |init| ==> init[i] == refs[i];
    }
  }

  /** The cluster of a reference that resolves and has a weight. */
  predicate IsClusterOf(w: World, ns: string, ref: BackendRef, c: WeightedCluster) {
    && WeightOf(ref) != 0 && FetchBackend(w, ns, ref).Found?
    && c == ClusterFor(FetchBackend(w, ns, ref).backend, WeightOf(ref))
  }

  /** The clusters are exactly those of the references with a weight, and each is backed. */
  lemma {:induction false} ClustersAreBacked(w: World, ns: string, refs: seq<BackendRef>, c: WeightedCluster)
    requires Resolve(w, ns, refs).Forwarding?
    ensures var f := Resolve(w, ns, refs);
            && (c in f.clusters <==> exists i :: 0 <= i < |refs| && IsClusterOf(w, ns, refs[i], c))
            && (c in f.clusters ==> exists b :: b in f.backends && ClusterNameOf(b.key) == c.name)
  {
    if refs != [] {
      var init := refs[..|refs| - 1];
      ClustersAreBacked(w, ns, init, c);
      assert forall i :: 0 <= i < |init| ==> init[i] == refs[i];
    }
  }

  /** A reference to a core Service, in the words of the reference. */
  ghost predicate RefersToService(ref: BackendRef) {
    && (ref.kind == None || ref.kind == Some("Service") || ref.kind == Some(""))
    && (ref.group == None || ref.group == Some("") || ref.group == Some("core"))
  }

  /** A Service is used if the namespaces agree or a grant permits it; without a lister all is permitted. */
  ghost predicate Permitted(w: World, ns: string, target: string) {
    w.grants.None? || target == ns || Granted(ns, target, w.grants.value)
  }

  /** When a reference can be fetched, and what is wrong with it otherwise. */
  lemma FetchedIff(w: World, ns: string, ref: BackendRef)
    ensures var key := Key(if ref.namespace.Some? then ref.namespace.value else ns, ref.name);
            var service := RefersToService(ref);
            var other := !service && ref.kind.Some? && ref.kind.value != "XBackend";
            match FetchBackend(w, ns, ref)
            case Found(b) =>
              && b.key == key && (service <==> b.x.None?)
              && (service ==> Permitted(w, ns, key.namespace) && key in w.services)
              && (!service ==>
                    && !other && key in w.xbackends && b.x == Some(w.xbackends[key])
                    && forall s :: w.xbackends[key].target == ServiceTarget(s) ==> Key(key.namespace, s) in w.services)
            case Missing(reason) =>
              && (reason == InvalidKind <==> other)
              && (reason == RefNotPermitted <==> service && !Permitted(w, ns, key.namespace))
              && (reason == BackendNotFound <==>
                  || (service && Permitted(w, ns, key.namespace) && key !in w.services)
                  || (!service && !other && key !in w.xbackends)
                  || (!service && !other && key in w.xbackends &&
                      exists s :: w.xbackends[key].target == ServiceTarget(s) && Key(key.namespace, s) !in w.services))
              && reason != UnsupportedValue
  {
    assert IsServiceRef(ref) <==> RefersToService(ref);
    var target := KeyOf(ns, ref).namespace;
    if w.grants.Some? {
      AllowedIffGranted(ns, target, w.grants.value);
    }
  }

  /**
   What the cluster of a reference says: the name of the reference, its own weight (1 if absent),
   the XBackend whose policy applies, and the host to rewrite to if that XBackend is external.
   */
  ghost predicate Reflects(w: World, ns: string, ref: BackendRef, c: WeightedCluster) {
    var key := Key(if ref.namespace.Some? then ref.namespace.value else ns, ref.name);
    && c.name == key.namespace + "-" + key.name
    && c.weight == (if ref.weight.Some? then ref.weight.value else 1)
    && c.policed == (if RefersToService(ref) then None else Some(key))
    && (!RefersToService(ref) ==> key in w.xbackends)
    && forall host :: c.hostRewrite == Some(host) <==>
         !RefersToService(ref) && w.xbackends[key].target == HostTarget(host) && host != ""
  }

  lemma ClusterReflects(w: World, ns: string, ref: BackendRef)
    requires FetchBackend(w, ns, ref).Found?
    ensures Reflects(w, ns, ref, ClusterFor(FetchBackend(w, ns, ref).backend, WeightOf(ref)))
  {
    assert IsServiceRef(ref) <==> RefersToService(ref);
  }

  /** Cluster `n` belongs to reference `at[n]`, in order, and exactly the references with a weight have one. */
  ghost predicate Follows(w: World, ns: string, refs: seq<BackendRef>, clusters: seq<WeightedCluster>, at: seq<nat>) {
    && |at| == |clusters|
    && (forall n :: 0 <= n < |at| ==> at[n] < |refs| && Reflects(w, ns, refs[at[n]], clusters[n]))
    && (forall m, n :: 0 <= m < n < |at| ==> at[m] < at[n])
    && (forall i: nat :: i in at <==> i < |refs| && refs[i].weight != Some(0))
  }

  lemma FollowsSkip(w: World, ns: string, refs: seq<BackendRef>, ref: BackendRef, clusters: seq<WeightedCluster>,
                    at: seq<nat>)
    requires Follows(w, ns, refs, clusters, at) && ref.weight == Some(0)
    ensures Follows(w, ns, refs + [ref], clusters, at)
  {
  }

  lemma FollowsAdd(w: World, ns: string, refs: seq<BackendRef>, ref: BackendRef, clusters: seq<WeightedCluster>,
                   c: WeightedCluster, at: seq<nat>)
    requires Follows(w, ns, refs, clusters, at) && ref.weight != Some(0) && Reflects(w, ns, ref, c)
    ensures Follows(w, ns, refs + [ref], clusters + [c], at + [|refs|])
  {
  }

  lemma FollowsNext(w: World, ns: string, refs: seq<BackendRef>, ref: BackendRef, was: seq<WeightedCluster>,
                    now: seq<WeightedCluster>, at: seq<nat>) returns (at': seq<nat>)
    requires Follows(w, ns, refs, was, at)
    requires if ref.weight == Some(0) then now == was else |now| > 0 && now == was + [now[|now| - 1]]
    requires ref.weight != Some(0) ==> Reflects(w, ns, ref, now[|now| - 1])
    ensures Follows(w, ns, refs + [ref], now, at')
  {
    if ref.weight == Some(0) {
      FollowsSkip(w, ns, refs, ref, was, at);
      at' := at;
    } else {
      FollowsAdd(w, ns, refs, ref, was, now[|now| - 1], at);
      at' := at + [|refs|];
    }
  }

  /** The last reference adds its cluster, unless its weight is 0. */
  lemma ResolveNext(w: World, ns: string, refs: seq<BackendRef>, ref: BackendRef) returns (now: seq<WeightedCluster>)
    requires Resolve(w, ns, refs + [ref]).Forwarding?
    ensures Resolve(w, ns, refs).Forwarding? && now == Resolve(w, ns, refs + [ref]).clusters
    ensures ref.weight == Some(0) ==> now == Resolve(w, ns, refs).clusters
    ensures ref.weight != Some(0) ==>
              |now| > 0 && now == Resolve(w, ns, refs).clusters + [now[|now| - 1]] && Reflects(w, ns, ref, now[|now| - 1])
  {
    var all := refs + [ref];
    assert all[..|all| - 1] == refs && all[|all| - 1] == ref;
    ClusterReflects(w, ns, ref);
    now := Resolve(w, ns, all).clusters;
  }

  /**
   The weighted clusters of an action are those of the references with a non-zero weight, in the
   order of the references, each with the name and the weight of its reference.
   */
  lemma {:induction false} ClustersFollowTheReferences(w: World, ns: string, refs: seq<BackendRef>)
    returns (at: seq<nat>)
    requires Resolve(w, ns, refs).Forwarding?
    ensures Follows(w, ns, refs, Resolve(w, ns, refs).clusters, at)
  {
    at := [];
    if refs != [] {
      var init, last := refs[..|refs| - 1], refs[|refs| - 1];
      assert refs == init + [last];
      var clusters := ResolveNext(w, ns, init, last);
      at := ClustersFollowTheReferences(w, ns, init);
      at := FollowsNext(w, ns, init, last, Resolve(w, ns, init).clusters, clusters, at);
    }
  }

  // ---------------------------------------------------------------- Rules and matches

  function MatchesOf(rule: Rule): (ms: seq<RouteMatch>)
    ensures ms != []
  {
    if rule.matches == [] then [MATCH_ALL] else rule.matches
  }

  function RouteName(route: HTTPRoute, i: nat, j: nat): string {
    route.namespace + "-" + route.name + "-rule" + Decimal(i) + "-match" + Decimal(j)
  }

  /** Within an HTTPRoute the names of the Envoy routes tell the matches apart. */
  lemma RouteNamesAreDistinct(route: HTTPRoute, i: nat, j: nat, k: nat, l: nat)
    requires RouteName(route, i, j) == RouteName(route, k, l)
    ensures i == k && j == l
  {
    var prefix := route.namespace + "-" + route.name + "-rule";
    assert RouteName(route, i, j) == prefix + (Decimal(i) + "-match" + Decimal(j));
    assert RouteName(route, k, l) == prefix + (Decimal(k) + "-match" + Decimal(l));
    assert RouteName(route, i, j)[|prefix|..] == Decimal(i) + "-match" + Decimal(j);
    assert RouteName(route, k, l)[|prefix|..] == Decimal(k) + "-match" + Decimal(l);
    NumbersSplit(i, "-match", j, k, l);
  }

  /** What translation has produced: routes, fetched backends, and the failure to report, if any. */
  datatype Output = Output(routes: seq<Route>, backends: seq<Backend>, failure: Option<Reason>)

  const NOTHING := Output([], [], None)

  /** Match `j` of rule `i` on its own. */
  function At(w: World, route: HTTPRoute, i: nat, j: nat): Output
    requires i < |route.rules| && j < |MatchesOf(route.rules[i])|
  {
    var rule := route.rules[i];
    var m := MatchesOf(rule)[j];
    if Rejected(m) then Output([], [], Some(UnsupportedValue))
    else
      var action := RouteAction(w, route.namespace, rule.backends);
      var name := RouteName(route, i, j);
      if rule.redirects then Output([Route(name, Translated(m), Redirect)], [], None)
      else if action.Failed? then Output([Route(name, Translated(m), ServerError)], [], Some(action.reason))
      else Output([Route(name, Translated(m), Forward(action.clusters))], action.backends, None)
  }

  /** Outputs accumulate; of several failures the last is reported. */
  function Add(a: Output, b: Output): Output {
    Output(a.routes + b.routes, a.backends + b.backends, if b.failure.Some? then b.failure else a.failure)
  }

  function AfterMatches(w: World, route: HTTPRoute, i: nat, n: nat, before: Output): Output
    requires i < |route.rules| && n <= |MatchesOf(route.rules[i])|
  {
    if n == 0 then before else Add(AfterMatches(w, route, i, n - 1, before), At(w, route, i, n - 1))
  }

  function AfterRules(w: World, route: HTTPRoute, n: nat): Output
    requires n <= |route.rules|
  {
    if n == 0 then NOTHING
    else AfterMatches(w, route, n - 1, |MatchesOf(route.rules[n - 1])|, AfterRules(w, route, n - 1))
  }

  /** The whole route: the outputs of all matches of all rules, in order. */
  function Translation(w: World, route: HTTPRoute): Output { AfterRules(w, route, |route.rules|) }

  /** One match, added to what there is. */
  method BuildRoute(w: World, route: HTTPRoute, i: nat, j: nat, sofar: Output) returns (out: Output)
    requires i < |route.rules| && j < |MatchesOf(route.rules[i])|
    ensures out == Add(sofar, At(w, route, i, j))
  {
    var rule := route.rules[i];
    var m := TranslateHTTPRouteMatch(MatchesOf(rule)[j]);
    if m.None? {
      return sofar.(failure := Some(UnsupportedValue));
    }
    var name := RouteName(route, i, j);
    if rule.redirects {
      return sofar.(routes := sofar.routes + [Route(name, m.value, Redirect)]);
    }
    var action := BuildHTTPRouteAction(w, route.namespace, rule.backends);
    if action.Failed? {
      return sofar.(failure := Some(action.reason), routes := sofar.routes + [Route(name, m.value, ServerError)]);
    }
    out := sofar.(backends := sofar.backends + action.backends,
                  routes := sofar.routes + [Route(name, m.value, Forward(action.clusters))]);
  }

  method TranslateHTTPRoute(w: World, route: HTTPRoute) returns (out: Output)
    ensures out == Translation(w, route)
  {
    out := NOTHING;
    for i := 0 to |route.rules|
      invariant out == AfterRules(w, route, i)
    {
      for j := 0 to |MatchesOf(route.rules[i])|
        invariant out == AfterMatches(w, route, i, j, AfterRules(w, route, i))
      {
        out := BuildRoute(w, route, i, j, out);
      }
    }
  }

  // ---------------------------------------------------------------- What the output contains

  predicate IsPosition(route: HTTPRoute, i: nat, j: nat) {
    i < |route.rules| && j < |MatchesOf(route.rules[i])|
  }

  function Collect(os: seq<Output>): Output {
    if os == [] then NOTHING else Add(Collect(os[..|os| - 1]), os[|os| - 1])
  }

  function RuleOutputs(w: World, route: HTTPRoute, i: nat, n: nat): (os: seq<Output>)
    requires i < |route.rules| && n <= |MatchesOf(route.rules[i])|
    ensures |os| == n && forall j: nat :: j < n ==> os[j] == At(w, route, i, j)
  {
    seq(n, j requires 0 <= j < n => At(w, route, i, j))
  }

  function OutputsBefore(w: World, route: HTTPRoute, n: nat): seq<Output>
    requires n <= |route.rules|
  {
    if n == 0 then []
    else OutputsBefore(w, route, n - 1) + RuleOutputs(w, route, n - 1, |MatchesOf(route.rules[n - 1])|)
  }

  lemma {:induction false} MatchesCollect(w: World, route: HTTPRoute, i: nat, n: nat, os: seq<Output>)
    requires i < |route.rules| && n <= |MatchesOf(route.rules[i])|
    ensures AfterMatches(w, route, i, n, Collect(os)) == Collect(os + RuleOutputs(w, route, i, n))
  {
    var all := os + RuleOutputs(w, route, i, n);
    if n == 0 {
      assert all == os;
    } else {
      MatchesCollect(w, route, i, n - 1, os);
      assert all[..|all| - 1] == os + RuleOutputs(w, route, i, n - 1);
      assert all[|all| - 1] == At(w, route, i, n - 1);
    }
  }

  lemma {:induction false} RulesCollect(w: World, route: HTTPRoute, n: nat)
    requires n <= |route.rules|
    ensures AfterRules(w, route, n) == Collect(OutputsBefore(w, route, n))
  {
    if n > 0 {
      var before, count := OutputsBefore(w, route, n - 1), |MatchesOf(route.rules[n - 1])|;
      RulesCollect(w, route, n - 1);
      MatchesCollect(w, route, n - 1, count, before);
      assert OutputsBefore(w, route, n) == before + RuleOutputs(w, route, n - 1, count);
      assert AfterRules(w, route, n) == AfterMatches(w, route, n - 1, count, AfterRules(w, route, n - 1));
    }
  }

  lemma TranslationContains(w: World, route: HTTPRoute)
    ensures var out, os := Translation(w, route), OutputsBefore(w, route, |route.rules|);
            && (forall r :: r in out.routes <==> exists k :: 0 <= k < |os| && r in os[k].routes)
            && (forall b :: b in out.backends <==> exists k :: 0 <= k < |os| && b in os[k].backends)
            && (out.failure.None? <==> forall k :: 0 <= k < |os| ==> os[k].failure.None?)
  {
    RulesCollect(w, route, |route.rules|);
    CollectContains(OutputsBefore(w, route, |route.rules|));
  }

  lemma {:induction false} CollectContains(os: seq<Output>)
    ensures var out := Collect(os);
            && (forall r :: r in out.routes <==> exists k :: 0 <= k < |os| && r in os[k].routes)
            && (forall b :: b in out.backends <==> exists k :: 0 <= k < |os| && b in os[k].backends)
            && (out.failure.None? <==> forall k :: 0 <= k < |os| ==> os[k].failure.None?)
  {
    if os != [] {
      var init := os[..|os| - 1];
      CollectContains(init);
      assert forall k :: 0 <= k < |init| ==> init[k] == os[k];
    }
  }

  lemma {:induction false} PositionOf(w: World, route: HTTPRoute, n: nat, k: nat) returns (i: nat, j: nat)
    requires n <= |route.rules| && k < |OutputsBefore(w, route, n)|
    ensures i < n && IsPosition(route, i, j) && OutputsBefore(w, route, n)[k] == At(w, route, i, j)
  {
    var before := OutputsBefore(w, route, n - 1);
    if k < |before| {
      i, j := PositionOf(w, route, n - 1, k);
    } else {
      i, j := n - 1, k - |before|;
    }
  }

  lemma {:induction false} IndexOf(w: World, route: HTTPRoute, n: nat, i: nat, j: nat) returns (k: nat)
    requires i < n <= |route.rules| && IsPosition(route, i, j)
    ensures k < |OutputsBefore(w, route, n)| && OutputsBefore(w, route, n)[k] == At(w, route, i, j)
  {
    if i < n - 1 {
      k := IndexOf(w, route, n - 1, i, j);
    } else {
      k := |OutputsBefore(w, route, n - 1)| + j;
    }
  }

  lemma OriginAt(w: World, route: HTTPRoute, i: nat, j: nat, r: Route)
    requires IsPosition(route, i, j) && r in At(w, route, i, j).routes
    ensures !Rejected(MatchesOf(route.rules[i])[j])
    ensures At(w, route, i, j).routes == [r] && r.match_ == Translated(MatchesOf(route.rules[i])[j])
  {
  }

  /** A route of the output stems from one match of one rule that was not rejected. */
  lemma RouteHasOrigin(w: World, route: HTTPRoute, r: Route) returns (i: nat, j: nat)
    requires r in Translation(w, route).routes
    ensures IsPosition(route, i, j) && !Rejected(MatchesOf(route.rules[i])[j])
    ensures At(w, route, i, j).routes == [r] && r.match_ == Translated(MatchesOf(route.rules[i])[j])
  {
    var os := OutputsBefore(w, route, |route.rules|);
    TranslationContains(w, route);
    var k :| 0 <= k < |os| && r in os[k].routes;
    i, j := PositionOf(w, route, |route.rules|, k);
    OriginAt(w, route, i, j, r);
  }

  /** Every match that was not rejected contributes its route. */
  lemma MatchIsEmitted(w: World, route: HTTPRoute, i: nat, j: nat) returns (r: Route)
    requires IsPosition(route, i, j) && !Rejected(MatchesOf(route.rules[i])[j])
    ensures At(w, route, i, j).routes == [r] && r in Translation(w, route).routes
    ensures r.match_ == Translated(MatchesOf(route.rules[i])[j])
  {
    r := At(w, route, i, j).routes[0];
    TranslationContains(w, route);
    var k := IndexOf(w, route, |route.rules|, i, j);
  }

  /** What a rule does with the requests of its matches. */
  ghost function ActionOf(w: World, ns: string, rule: Rule): Action {
    if rule.redirects then Redirect
    else if Resolve(w, ns, rule.backends).Failed? || Resolve(w, ns, rule.backends).clusters == [] then ServerError
    else Forward(Resolve(w, ns, rule.backends).clusters)
  }

  /** The match is one of the rule's, or the one that holds of everything if the rule has none. */
  ghost predicate IsMatchOf(rule: Rule, m: RouteMatch) {
    m in rule.matches || (rule.matches == [] && m == RouteMatch(None, [], [], None))
  }

  /** The emitted routes, rule by rule: each is a match that the rule lists, with what the rule does. */
  lemma RouteIsOfARule(w: World, route: HTTPRoute, r: Route) returns (rule: Rule, m: RouteMatch)
    requires r in Translation(w, route).routes
    ensures rule in route.rules && IsMatchOf(rule, m) && !Rejected(m)
    ensures r.match_ == Translated(m) && r.action == ActionOf(w, route.namespace, rule)
  {
    var i, j := RouteHasOrigin(w, route, r);
    rule := route.rules[i];
    m := MatchesOf(rule)[j];
  }

  /** And every match that a rule lists and that is not rejected is there, with what the rule does. */
  lemma RuleHasItsRoutes(w: World, route: HTTPRoute, rule: Rule, m: RouteMatch) returns (r: Route)
    requires rule in route.rules && IsMatchOf(rule, m) && !Rejected(m)
    ensures r in Translation(w, route).routes && r.match_ == Translated(m)
    ensures r.action == ActionOf(w, route.namespace, rule)
  {
    var i: nat :| i < |route.rules| && route.rules[i] == rule;
    var j: nat :| j < |MatchesOf(rule)| && MatchesOf(rule)[j] == m;
    r := MatchIsEmitted(w, route, i, j);
  }

  lemma ForwardIsBacked(w: World, route: HTTPRoute, i: nat, j: nat, r: Route, c: WeightedCluster)
    requires IsPosition(route, i, j) && At(w, route, i, j).routes == [r] && r.action.Forward? && c in r.action.clusters
    ensures exists b :: b in At(w, route, i, j).backends && ClusterNameOf(b.key) == c.name
  {
    ClustersAreBacked(w, route.namespace, route.rules[i].backends, c);
  }

  /** Every cluster a route forwards to belongs to a backend that is reported with it. */
  lemma RoutesAreBacked(w: World, route: HTTPRoute, r: Route, c: WeightedCluster)
    requires r in Translation(w, route).routes && r.action.Forward? && c in r.action.clusters
    ensures exists b :: b in Translation(w, route).backends && ClusterNameOf(b.key) == c.name
  {
    TranslationContains(w, route);
    var i, j := RouteHasOrigin(w, route, r);
    ForwardIsBacked(w, route, i, j, r, c);
    var k := IndexOf(w, route, |route.rules|, i, j);
  }

  predicate FailsAt(w: World, route: HTTPRoute, i: nat, j: nat)
    requires IsPosition(route, i, j)
  {
    At(w, route, i, j).failure.Some?
  }

  lemma FailureAt(w: World, route: HTTPRoute, i: nat, j: nat)
    requires IsPosition(route, i, j)
    ensures FailsAt(w, route, i, j) <==>
              || Rejected(MatchesOf(route.rules[i])[j])
              || exists r :: At(w, route, i, j).routes == [r] && r.action.ServerError?
  {
  }

  lemma FailureIsSomewhere(w: World, route: HTTPRoute)
    ensures Translation(w, route).failure.Some? <==>
              exists i: nat, j: nat :: IsPosition(route, i, j) && FailsAt(w, route, i, j)
  {
    TranslationContains(w, route);
    var os := OutputsBefore(w, route, |route.rules|);
    if k :| 0 <= k < |os| && os[k].failure.Some? {
      var i, j := PositionOf(w, route, |route.rules|, k);
      assert IsPosition(route, i, j) && FailsAt(w, route, i, j);
    }
    if i: nat, j: nat :| IsPosition(route, i, j) && FailsAt(w, route, i, j) {
      var k := IndexOf(w, route, |route.rules|, i, j);
    }
  }

  /** ResolvedRefs is True exactly when no match was rejected and no route answers with an error. */
  lemma ResolvedIffNoErrorRoute(w: World, route: HTTPRoute)
    ensures Translation(w, route).failure.None? <==>
              && (forall i: nat, j: nat :: IsPosition(route, i, j) ==> !Rejected(MatchesOf(route.rules[i])[j]))
              && (forall r :: r in Translation(w, route).routes ==> !r.action.ServerError?)
  {
    FailureIsSomewhere(w, route);
    if i: nat, j: nat :| IsPosition(route, i, j) && FailsAt(w, route, i, j) {
      FailureAt(w, route, i, j);
      if !Rejected(MatchesOf(route.rules[i])[j]) {
        var r := MatchIsEmitted(w, route, i, j);
      }
    } else {
      forall i: nat, j: nat | IsPosition(route, i, j)
        ensures !Rejected(MatchesOf(route.rules[i])[j])
      {
        FailureAt(w, route, i, j);
      }
      forall r | r in Translation(w, route).routes
        ensures !r.action.ServerError?
      {
        var i, j := RouteHasOrigin(w, route, r);
        FailureAt(w, route, i, j);
      }
    }
  }

  /** An error route stands for a rule with a missing backend or with no backend of any weight. */
  lemma ErrorRoutesExplained(w: World, route: HTTPRoute, i: nat, j: nat)
    requires IsPosition(route, i, j) && !Rejected(MatchesOf(route.rules[i])[j])
    ensures var rule := route.rules[i];
            At(w, route, i, j).routes[0].action.ServerError? <==>
              && !rule.redirects
              && (|| (exists k :: 0 <= k < |rule.backends| && FetchBackend(w, route.namespace, rule.backends[k]).Missing?)
                  || (forall k :: 0 <= k < |rule.backends| ==> WeightOf(rule.backends[k]) == 0))
  {
    ResolvesUnlessMissing(w, route.namespace, route.rules[i].backends);
  }

  // ---------------------------------------------------------------- Cluster names

  /** The namespace and the name of `k` share a piece that could go to either side of the dash. */
  predicate Shifts(k: Key, l: Key, piece: string) {
    l.namespace == k.namespace + "-" + piece && k.name == piece + "-" + l.name
  }

  lemma ShiftedNamesCollide(k: Key, l: Key, piece: string)
    requires Shifts(k, l, piece)
    ensures ClusterNameOf(k) == ClusterNameOf(l) && k != l
  {
    assert ClusterNameOf(k) == k.namespace + "-" + piece + "-" + l.name == ClusterNameOf(l);
    assert |l.namespace| > |k.namespace|;
  }

  lemma CollisionShifts(k: Key, l: Key) returns (piece: string)
    requires ClusterNameOf(k) == ClusterNameOf(l) && |k.namespace| < |l.namespace|
    ensures Shifts(k, l, piece)
  {
    var s, n, m := ClusterNameOf(k), |k.namespace|, |l.namespace|;
    piece := l.namespace[n + 1..];
    assert s[..n] == k.namespace && s[n] == '-' && s[n + 1..] == k.name;
    assert s[..m] == l.namespace && s[m] == '-' && s[m + 1..] == l.name;
    assert l.namespace == s[..n] + [s[n]] + s[n + 1..m];
    assert k.name == s[n + 1..m] + [s[m]] + s[m + 1..];
  }

  /** Two backends share a cluster name exactly when a dash-separated piece can change sides. */
  lemma CollisionIffShift(k: Key, l: Key)
    ensures ClusterNameOf(k) == ClusterNameOf(l) <==>
              k == l || exists piece :: Shifts(k, l, piece) || Shifts(l, k, piece)
  {
    if ClusterNameOf(k) == ClusterNameOf(l) {
      if |k.namespace| < |l.namespace| {
        var piece := CollisionShifts(k, l);
      } else if |l.namespace| < |k.namespace| {
        var piece := CollisionShifts(l, k);
      } else {
        var s, n := ClusterNameOf(k), |k.namespace|;
        assert k.namespace == s[..n] == l.namespace && k.name == s[n + 1..] == l.name;
      }
    }
    if piece :| Shifts(k, l, piece) || Shifts(l, k, piece) {
      if Shifts(k, l, piece) {
        ShiftedNamesCollide(k, l, piece);
      } else {
        ShiftedNamesCollide(l, k, piece);
      }
    }
  }

  /** Backends "b-c" of namespace "a" and "c" of namespace "a-b" share the cluster "a-b-c". */
  lemma NamesCollide()
    ensures ClusterNameOf(Key("a", "b-c")) == ClusterNameOf(Key("a-b", "c"))
  {
    assert Shifts(Key("a", "b-c"), Key("a-b", "c"), "b");
    CollisionIffShift(Key("a", "b-c"), Key("a-b", "c"));
  }
}
