/**
 Gateway listeners: which conflict with each other, which routes they allow, and when the Gateway
 counts as programmed (pkg/translator/listener.go, routes.go, translator.go, pkg/controller/gateway.go).
 */
module Listeners {
  import opened Options
  import opened ReferenceGrants

  datatype Protocol = HTTP | HTTPS | TLS | TCP | UDP | OtherProtocol

  datatype NamespacesFrom = FromAll | FromSame | FromSelector | FromNone | FromUnknown

  datatype RouteNamespaces = RouteNamespaces(from: Option<NamespacesFrom>, selector: Option<string>)

  datatype RouteKind = RouteKind(group: Option<string>, kind: string)

  datatype AllowedRoutes = AllowedRoutes(namespaces: Option<RouteNamespaces>, kinds: seq<RouteKind>)

  datatype Listener = Listener(name: string, port: nat, protocol: Protocol, hostname: Option<string>,
      allowed: Option<AllowedRoutes>)

  predicate IsStream(l: Listener) { l.protocol.TCP? || l.protocol.UDP? }

  predicate IsWeb(l: Listener) { l.protocol.HTTP? || l.protocol.HTTPS? || l.protocol.TLS? }

  function HostOf(l: Listener): string { l.hostname.GetOr("") }

  /** The API keys listeners by name. */
  predicate UniqueNames(ls: seq<Listener>) {
    forall i, j :: 0 <= i < j < |ls| ==> ls[i].name != ls[j].name
  }

  // ---------------------------------------------------------------- Conflicts, pairwise

  /** Both families of protocols meet on a port. */
  predicate Mixed(ls: seq<Listener>, port: nat) {
    && (exists a :: a in ls && a.port == port && IsStream(a))
    && (exists b :: b in ls && b.port == port && IsWeb(b))
  }

  /** Another listener of the web family has the same port and hostname. */
  predicate Clashes(ls: seq<Listener>, l: Listener) {
    IsWeb(l) && exists m :: m in ls && m.name != l.name && m.port == l.port && IsWeb(m) && HostOf(m) == HostOf(l)
  }

  datatype Conflict = ProtocolConflict | HostnameConflict

  /** The conflict of a listener as the Gateway API defines it, a mixed port taking precedence. */
  function ConflictOf(ls: seq<Listener>, l: Listener): Option<Conflict> {
    if Mixed(ls, l.port) then Some(ProtocolConflict) else if Clashes(ls, l) then Some(HostnameConflict) else None
  }

  /** The protocols of the two families. */
  const STREAM_PROTOCOLS: set<Protocol> := {TCP, UDP}
  const WEB_PROTOCOLS: set<Protocol> := {HTTP, HTTPS, TLS}

  /** No hostname and the empty one are the same. */
  ghost predicate SameHostname(l: Listener, m: Listener) {
    l.hostname == m.hostname || (l.hostname in {None, Some("")} && m.hostname in {None, Some("")})
  }

  /** Conflicts in terms of the listeners' protocols, ports and hostnames. */
  lemma ConflictIff(ls: seq<Listener>, l: Listener)
    ensures var mixed := exists a, b :: a in ls && b in ls && a.port == l.port && b.port == l.port &&
                           a.protocol in STREAM_PROTOCOLS && b.protocol in WEB_PROTOCOLS;
            var clash := exists m :: m in ls && m.name != l.name && m.port == l.port &&
                           l.protocol in WEB_PROTOCOLS && m.protocol in WEB_PROTOCOLS && SameHostname(l, m);
            && (ConflictOf(ls, l) == Some(ProtocolConflict) <==> mixed)
            && (ConflictOf(ls, l) == Some(HostnameConflict) <==> !mixed && clash)
            && (ConflictOf(ls, l) == None <==> !mixed && !clash)
  {
    assert forall m: Listener :: SameHostname(l, m) <==> HostOf(l) == HostOf(m);
    assert forall m: Listener :: IsStream(m) <==> m.protocol in STREAM_PROTOCOLS;
    assert forall m: Listener :: IsWeb(m) <==> m.protocol in WEB_PROTOCOLS;
  }

  // ---------------------------------------------------------------- Conflicts, in one pass

  predicate Recorded(conflicts: map<string, Conflict>, name: string, c: Option<Conflict>) {
    if c.Some? then name in conflicts && conflicts[name] == c.value else name !in conflicts
  }

  ghost predicate Untouched(group: seq<Listener>, was: map<string, Conflict>, now: map<string, Conflict>) {
    forall n :: (forall i :: 0 <= i < |group| ==> group[i].name != n) ==>
        (n in now <==> n in was) && (n in was ==> now[n] == was[n])
  }

  /** Marks every listener of a mixed port. */
  method MarkAll(group: seq<Listener>, was: map<string, Conflict>) returns (now: map<string, Conflict>)
    ensures forall i :: 0 <= i < |group| ==> Recorded(now, group[i].name, Some(ProtocolConflict))
    ensures Untouched(group, was, now)
  {
    now := was;
    for n := 0 to |group|
      invariant forall i :: 0 <= i < n ==> Recorded(now, group[i].name, Some(ProtocolConflict))
      invariant Untouched(group, was, now)
    {
      now := now[group[n].name := ProtocolConflict];
    }
  }

  /** `seen` maps the hostnames of the web listeners so far to one that has it. */
  predicate SeenHosts(group: seq<Listener>, n: nat, seen: map<string, string>)
    requires n <= |group|
  {
    && (forall i :: 0 <= i < n && IsWeb(group[i]) ==> HostOf(group[i]) in seen)
    && (forall h :: h in seen ==>
          exists i :: 0 <= i < n && IsWeb(group[i]) && HostOf(group[i]) == h && group[i].name == seen[h])
  }

  /** The hostname conflicts among the first `n` listeners of a port are marked, and no others. */
  predicate MarkedUpTo(group: seq<Listener>, n: nat, now: map<string, Conflict>)
    requires n <= |group|
  {
    forall i :: 0 <= i < |group| ==>
      Recorded(now, group[i].name, if i < n && Clashes(group[..n], group[i]) then Some(HostnameConflict) else None)
  }

  /** Two web listeners with one hostname. */
  predicate Pair(l: Listener, m: Listener) { IsWeb(l) && IsWeb(m) && HostOf(l) == HostOf(m) }

  lemma ClashesBefore(group: seq<Listener>, n: nat, l: Listener)
    requires n <= |group| && OnePort(group) && l in group
    ensures Clashes(group[..n], l) <==> exists k :: 0 <= k < n && group[k].name != l.name && Pair(l, group[k])
  {
    var i :| 0 <= i < |group| && group[i] == l;
    assert forall k :: 0 <= k < n ==> group[k].port == l.port;
    if k :| 0 <= k < n && group[k].name != l.name && Pair(l, group[k]) {
      assert group[..n][k] in group[..n];
    }
  }

  /** The listener with the same hostname that was seen first, if the next one repeats a hostname. */
  lemma SeenPair(group: seq<Listener>, n: nat, seen: map<string, string>) returns (k: nat)
    requires n < |group| && SeenHosts(group, n, seen) && IsWeb(group[n]) && HostOf(group[n]) in seen
    ensures k < n && Pair(group[k], group[n]) && group[k].name == seen[HostOf(group[n])]
  {
    k :| 0 <= k < n && IsWeb(group[k]) && HostOf(group[k]) == HostOf(group[n]) && group[k].name == seen[HostOf(group[n])];
  }

  /** The next listener brings its own clash and that of the one whose hostname it repeats. */
  lemma ClashesNext(group: seq<Listener>, n: nat, seen: map<string, string>, i: nat)
    requires n < |group| && i <= n && UniqueNames(group) && SeenHosts(group, n, seen)
    requires OnePort(group)
    ensures var l := group[n];
            var repeated := IsWeb(l) && HostOf(l) in seen;
            Clashes(group[..n + 1], group[i]) <==>
              || (i < n && Clashes(group[..n], group[i]))
              || (repeated && (i == n || group[i].name == seen[HostOf(l)]))
  {
    var l, g := group[n], group[i];
    ClashesBefore(group, n, g);
    ClashesBefore(group, n + 1, g);
    if IsWeb(l) && HostOf(l) in seen {
      var k := SeenPair(group, n, seen);
      assert group[k].name != l.name;
      if i < n && Pair(g, l) && i != k {
        assert group[k].name != g.name && Pair(g, group[k]);
      }
    }
  }

  predicate OnePort(group: seq<Listener>) {
    forall a, b :: 0 <= a < b < |group| ==> group[a].port == group[b].port
  }

  /** A repeated hostname marks the listener and the one that had it first. */
  function Marked(l: Listener, seen: map<string, string>, now: map<string, Conflict>): map<string, Conflict> {
    if IsWeb(l) && HostOf(l) in seen then now[l.name := HostnameConflict][seen[HostOf(l)] := HostnameConflict] else now
  }

  lemma MarkedNext(group: seq<Listener>, n: nat, seen: map<string, string>, now: map<string, Conflict>)
    requires n < |group| && UniqueNames(group) && OnePort(group) && SeenHosts(group, n, seen)
    requires MarkedUpTo(group, n, now)
    ensures MarkedUpTo(group, n + 1, Marked(group[n], seen, now))
  {
    var l, next := group[n], Marked(group[n], seen, now);
    var repeated := IsWeb(l) && HostOf(l) in seen;
    forall i: nat | i < |group|
      ensures Recorded(next, group[i].name, if i <= n && Clashes(group[..n + 1], group[i]) then Some(HostnameConflict) else None)
    {
      assert repeated ==> exists k :: 0 <= k < n && group[k].name == seen[HostOf(l)];
      if i <= n {
        ClashesNext(group, n, seen, i);
      }
    }
  }

  lemma SeenNext(group: seq<Listener>, n: nat, seen: map<string, string>)
    requires n < |group| && SeenHosts(group, n, seen)
    ensures var l := group[n];
            SeenHosts(group, n + 1, if IsWeb(l) && HostOf(l) !in seen then seen[HostOf(l) := l.name] else seen)
  {
    var l := group[n];
    var next := if IsWeb(l) && HostOf(l) !in seen then seen[HostOf(l) := l.name] else seen;
    forall h | h in next
      ensures exists i :: 0 <= i < n + 1 && IsWeb(group[i]) && HostOf(group[i]) == h && group[i].name == next[h]
    {
      if h in seen {
        var i :| 0 <= i < n && IsWeb(group[i]) && HostOf(group[i]) == h && group[i].name == seen[h];
        assert group[i].name == next[h];
      } else {
        assert group[n].name == next[h];
      }
    }
  }

  lemma UntouchedNext(group: seq<Listener>, n: nat, seen: map<string, string>, was: map<string, Conflict>,
                      now: map<string, Conflict>)
    requires n < |group| && SeenHosts(group, n, seen) && Untouched(group, was, now)
    ensures Untouched(group, was, Marked(group[n], seen, now))
  {
  }

  method MarkClashes(group: seq<Listener>, was: map<string, Conflict>) returns (now: map<string, Conflict>)
    requires UniqueNames(group) && OnePort(group)
    requires forall i :: 0 <= i < |group| ==> group[i].name !in was
    ensures MarkedUpTo(group, |group|, now) && Untouched(group, was, now)
  {
    now := was;
    var seen: map<string, string> := map[];
    for n := 0 to |group|
      invariant SeenHosts(group, n, seen) && MarkedUpTo(group, n, now) && Untouched(group, was, now)
    {
      var l := group[n];
      MarkedNext(group, n, seen, now);
      UntouchedNext(group, n, seen, was, now);
      SeenNext(group, n, seen);
      now := Marked(l, seen, now);
      if IsWeb(l) && HostOf(l) !in seen {
        seen := seen[HostOf(l) := l.name];
      }
    }
  }

  method Families(group: seq<Listener>) returns (stream: bool, web: bool)
    ensures stream <==> exists i :: 0 <= i < |group| && IsStream(group[i])
    ensures web <==> exists i :: 0 <= i < |group| && IsWeb(group[i])
  {
    stream, web := false, false;
    for n := 0 to |group|
      invariant stream <==> exists i :: 0 <= i < n && IsStream(group[i])
      invariant web <==> exists i :: 0 <= i < n && IsWeb(group[i])
    {
      stream, web := stream || IsStream(group[n]), web || IsWeb(group[n]);
    }
  }

  /** The listeners of a port, in order. */
  function OnPort(ls: seq<Listener>, port: nat): seq<Listener> {
    if ls == [] then []
    else
      var init, last := OnPort(ls[..|ls| - 1], port), ls[|ls| - 1];
      if last.port == port then init + [last] else init
  }

  lemma {:induction false} OnPortContents(ls: seq<Listener>, port: nat)
    ensures forall l :: l in OnPort(ls, port) <==> l in ls && l.port == port
    ensures UniqueNames(ls) ==> UniqueNames(OnPort(ls, port))
  {
    if ls != [] {
      var init, last := ls[..|ls| - 1], ls[|ls| - 1];
      OnPortContents(init, port);
      assert ls == init + [last];
      if UniqueNames(ls) {
        forall l | l in OnPort(init, port)
          ensures l.name != last.name
        {
          var i :| 0 <= i < |init| && init[i] == l;
          assert ls[i].name != last.name;
        }
      }
    }
  }

  method GroupByPort(ls: seq<Listener>) returns (groups: map<nat, seq<Listener>>)
    ensures forall p :: p in groups <==> exists l :: l in ls && l.port == p
    ensures forall p :: p in groups ==> groups[p] == OnPort(ls, p)
  {
    groups := map[];
    for n := 0 to |ls|
      invariant forall p :: p in groups <==> exists l :: l in ls[..n] && l.port == p
      invariant forall p :: p in groups ==> groups[p] == OnPort(ls[..n], p)
    {
      var l := ls[n];
      assert ls[..n + 1] == ls[..n] + [l] && ls[..n + 1][..n] == ls[..n];
      OnPortContents(ls[..n], l.port);
      if OnPort(ls[..n], l.port) != [] {
        assert OnPort(ls[..n], l.port)[0] in ls[..n];
      }
      groups := groups[l.port := (if l.port in groups then groups[l.port] else []) + [l]];
    }
    assert ls[..|ls|] == ls;
  }

  /** Mixed, seen from the listeners of the port alone. */
  predicate MixedGroup(group: seq<Listener>) {
    && (exists i :: 0 <= i < |group| && IsStream(group[i]))
    && (exists i :: 0 <= i < |group| && IsWeb(group[i]))
  }

  lemma MixedInGroup(ls: seq<Listener>, port: nat, group: seq<Listener>)
    requires forall l :: l in group <==> l in ls && l.port == port
    ensures Mixed(ls, port) ==> MixedGroup(group)
  {
    if Mixed(ls, port) {
      var a :| a in ls && a.port == port && IsStream(a);
      var b :| b in ls && b.port == port && IsWeb(b);
      assert a in group && b in group;
      var i :| 0 <= i < |group| && group[i] == a;
      var j :| 0 <= j < |group| && group[j] == b;
    }
  }

  lemma MixedFromGroup(ls: seq<Listener>, port: nat, group: seq<Listener>)
    requires forall l :: l in group <==> l in ls && l.port == port
    ensures MixedGroup(group) ==> Mixed(ls, port)
  {
    if MixedGroup(group) {
      var i :| 0 <= i < |group| && IsStream(group[i]);
      var j :| 0 <= j < |group| && IsWeb(group[j]);
      var a, b := group[i], group[j];
      assert a in group && b in group;
      assert a in ls && b in ls;
    }
  }

  lemma GroupConflicts(ls: seq<Listener>, port: nat, l: Listener)
    requires l.port == port
    ensures Mixed(ls, port) <==> MixedGroup(OnPort(ls, port))
    ensures Clashes(ls, l) <==> Clashes(OnPort(ls, port), l)
  {
    OnPortContents(ls, port);
    MixedInGroup(ls, port, OnPort(ls, port));
    MixedFromGroup(ls, port, OnPort(ls, port));
  }

  predicate Settled(ls: seq<Listener>, pending: set<nat>, conflicts: map<string, Conflict>) {
    forall l :: l in ls ==> Recorded(conflicts, l.name, if l.port in pending then None else ConflictOf(ls, l))
  }

  /** One port: its listeners' conflicts are recorded, those of other ports stay as they are. */
  method CheckPort(ls: seq<Listener>, port: nat, group: seq<Listener>, pending: set<nat>, was: map<string, Conflict>)
    returns (now: map<string, Conflict>)
    requires UniqueNames(ls) && group == OnPort(ls, port) && port in pending && Settled(ls, pending, was)
    ensures Settled(ls, pending - {port}, now)
  {
    OnPortContents(ls, port);
    forall l | l in ls && l.port == port
      ensures l in group && (Clashes(ls, l) <==> Clashes(group, l))
    {
      GroupConflicts(ls, port, l);
    }
    var stream, web := Families(group);
    if stream && web {
      now := MarkAll(group, was);
    } else {
      now := MarkClashes(group, was);
      assert group[..|group|] == group;
    }
    forall l | l in ls
      ensures Recorded(now, l.name, if l.port in pending - {port} then None else ConflictOf(ls, l))
    {
      if l.port == port {
        GroupConflicts(ls, port, l);
      } else {
        OtherPortsDiffer(ls, l, group, port);
      }
    }
  }

  lemma OtherPortsDiffer(ls: seq<Listener>, l: Listener, group: seq<Listener>, port: nat)
    requires UniqueNames(ls) && l in ls && l.port != port && group == OnPort(ls, port)
    ensures forall i :: 0 <= i < |group| ==> group[i].name != l.name
  {
    OnPortContents(ls, port);
    forall i | 0 <= i < |group|
      ensures group[i].name != l.name
    {
      assert group[i] in group;
      var a, b :| 0 <= a < |ls| && 0 <= b < |ls| && ls[a] == l && ls[b] == group[i];
      assert a != b;
      assert ls[if a < b then a else b].name != ls[if a < b then b else a].name;
    }
  }

  /**
   Detection, port by port in any order, marks exactly the listeners that conflict with another by
   the pairwise definition, each with its reason.
   */
  method ValidateListeners(ls: seq<Listener>) returns (conflicts: map<string, Conflict>)
    requires UniqueNames(ls)
    ensures forall l :: l in ls ==> Recorded(conflicts, l.name, ConflictOf(ls, l))
  {
    conflicts := map[];
    var groups := GroupByPort(ls);
    var pending := groups.Keys;
    while pending != {}
      invariant pending <= groups.Keys && Settled(ls, pending, conflicts)
      decreases |pending|
    {
      var port :| port in pending;
      conflicts := CheckPort(ls, port, groups[port], pending, conflicts);
      pending := pending - {port};
    }
  }

  // ---------------------------------------------------------------- Server names

  /** What the filter chain of a listener matches on: nothing, or the one server name. */
  function ServerNames(l: Listener): seq<string> {
    if (l.protocol.HTTPS? || l.protocol.TLS?) && HostOf(l) != "" then [HostOf(l)] else []
  }

  /** Encrypted listeners that survive on one port can be told apart by their server names. */
  lemma ServerNamesAreDistinct(ls: seq<Listener>, l: Listener, m: Listener)
    requires l in ls && m in ls && l.name != m.name && l.port == m.port
    requires (l.protocol.HTTPS? || l.protocol.TLS?) && (m.protocol.HTTPS? || m.protocol.TLS?)
    requires ConflictOf(ls, l).None?
    ensures ServerNames(l) != ServerNames(m)
  {
    assert HostOf(l) != HostOf(m);
    assert HostOf(l) != "" ==> ServerNames(l)[0] == HostOf(l);
    assert HostOf(m) != "" ==> ServerNames(m)[0] == HostOf(m);
  }

  // ---------------------------------------------------------------- Kinds and namespaces

  predicate KindSupported(k: RouteKind) { k.group.GetOr(GATEWAY_GROUP) == GATEWAY_GROUP && k.kind == "HTTPRoute" }

  predicate KindsValid(l: Listener) {
    l.allowed.Some? ==> forall i :: 0 <= i < |l.allowed.value.kinds| ==> KindSupported(l.allowed.value.kinds[i])
  }

  /** Label selectors are a given function of the selector and the namespace's name. */
  type Selects = (string, string) -> bool

  predicate NamespaceAllowed(selects: Selects, gatewayNamespace: string, l: Listener, routeNamespace: string) {
    if l.allowed.None? || l.allowed.value.namespaces.None? then routeNamespace == gatewayNamespace
    else
      var ns := l.allowed.value.namespaces.value;
      match ns.from.GetOr(FromSame)
      case FromAll => true
      case FromSame => routeNamespace == gatewayNamespace
      case FromSelector => ns.selector.Some? && selects(ns.selector.value, routeNamespace)
      case FromNone => false
      case FromUnknown => false
  }

  predicate KindAllowed(k: RouteKind) {
    k.kind == "HTTPRoute" && (k.group.None? || k.group.value == "" || k.group.value == GATEWAY_GROUP)
  }

  /** Whether the listener lets HTTPRoutes of a namespace attach. */
  predicate IsAllowedByListener(selects: Selects, gatewayNamespace: string, l: Listener, routeNamespace: string) {
    && NamespaceAllowed(selects, gatewayNamespace, l, routeNamespace)
    && (l.allowed.None? || l.allowed.value.kinds == [] ||
        exists i :: 0 <= i < |l.allowed.value.kinds| && KindAllowed(l.allowed.value.kinds[i]))
  }

  /** On a kind-valid listener the kinds never stand in the way of an HTTPRoute. */
  lemma ValidKindsAllowRoutes(selects: Selects, gatewayNamespace: string, l: Listener, routeNamespace: string)
    requires KindsValid(l)
    ensures IsAllowedByListener(selects, gatewayNamespace, l, routeNamespace) <==>
              NamespaceAllowed(selects, gatewayNamespace, l, routeNamespace)
  {
    if l.allowed.Some? && l.allowed.value.kinds != [] {
      assert KindSupported(l.allowed.value.kinds[0]);
      assert KindAllowed(l.allowed.value.kinds[0]);
    }
  }

  // ---------------------------------------------------------------- The Gateway's own condition

  /** Whether the Gateway is reported as programmed, given its listeners and whether Envoy was updated. */
  method GatewayProgrammed(statuses: seq<bool>, updated: bool) returns (programmed: bool)
    ensures programmed <==> updated && forall i :: 0 <= i < |statuses| ==> statuses[i]
  {
    if !updated {
      return false;
    }
    var count := 0;
    for n := 0 to |statuses|
      invariant count <= n && (count == n <==> forall i :: 0 <= i < n ==> statuses[i])
    {
      if statuses[n] {
        count := count + 1;
      }
    }
    programmed := count == |statuses|;
  }
}
