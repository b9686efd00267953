/**
 Which Gateways an event of a Service wakes: through an index of the HTTPRoutes by the Services
 they name, through a scan of all of them, and through XBackends (pkg/controller/service.go,
 pkg/controller/backend.go, pkg/controller/httproute.go).
 */
module ServiceEvents {
  import opened Options
  import opened Names
  import opened Text
  import opened ReferenceGrants
  import opened RouteTranslation

  const AGENTIC_GROUP := "agentic.prototype.x-k8s.io"

  predicate IsXBackendRef(ref: BackendRef) { ref.group == Some(AGENTIC_GROUP) && ref.kind == Some("XBackend") }

  predicate IsGatewayRef(p: ParentRef) {
    p.group.GetOr(GATEWAY_GROUP) == GATEWAY_GROUP && p.kind.GetOr("Gateway") == "Gateway"
  }

  function GatewayKey(ns: string, p: ParentRef): string { Render(Key(p.namespace.GetOr(ns), p.name)) }

  /** The work-queue keys of the Gateways among the parents. */
  function GatewayKeys(parents: seq<ParentRef>, ns: string): set<string> {
    set p | p in parents && IsGatewayRef(p) :: GatewayKey(ns, p)
  }

  method EnqueueGatewaysForHTTPRoute(parents: seq<ParentRef>, ns: string, queue: set<string>) returns (now: set<string>)
    ensures now == queue + GatewayKeys(parents, ns)
  {
    var keys: set<string> := {};
    for n := 0 to |parents|
      invariant keys == GatewayKeys(parents[..n], ns)
    {
      assert parents[..n + 1] == parents[..n] + [parents[n]];
      if IsGatewayRef(parents[n]) {
        keys := keys + {GatewayKey(ns, parents[n])};
      }
    }
    assert parents[..|parents|] == parents;
    now := queue + keys;
  }

  /** A parent reference to a Gateway of the given work-queue key, in the words of the reference. */
  ghost predicate NamesGateway(ns: string, p: ParentRef, s: string) {
    && (p.group == None || p.group == Some("gateway.networking.k8s.io"))
    && (p.kind == None || p.kind == Some("Gateway"))
    && s == (if p.namespace.Some? then p.namespace.value else ns) + "/" + p.name
  }

  lemma GatewayKeysIff(parents: seq<ParentRef>, ns: string, s: string)
    ensures s in GatewayKeys(parents, ns) <==> exists p :: p in parents && NamesGateway(ns, p, s)
  {
    assert forall p: ParentRef :: NamesGateway(ns, p, s) <==> IsGatewayRef(p) && s == GatewayKey(ns, p);
  }

  // ---------------------------------------------------------------- Index keys

  function IndexKeys(route: HTTPRoute): set<string> { KeysOfRules(route.namespace, route.rules) }

  function KeysOfRules(ns: string, rules: seq<Rule>): set<string> {
    set i, ref | 0 <= i < |rules| && ref in rules[i].backends && !IsXBackendRef(ref) :: Render(KeyOf(ns, ref))
  }

  function KeysOfRefs(ns: string, refs: seq<BackendRef>): set<string> {
    set ref | ref in refs && !IsXBackendRef(ref) :: Render(KeyOf(ns, ref))
  }

  lemma KeysOfRulesNext(ns: string, rules: seq<Rule>, n: nat)
    requires n < |rules|
    ensures KeysOfRules(ns, rules[..n + 1]) == KeysOfRules(ns, rules[..n]) + KeysOfRefs(ns, rules[n].backends)
  {
    var next := rules[..n + 1];
    assert next[n] == rules[n];
    assert forall i :: 0 <= i < n ==> next[i] == rules[..n][i];
    forall s | s in KeysOfRules(ns, rules[..n])
      ensures s in KeysOfRules(ns, next)
    {
      var i, ref :| 0 <= i < n && ref in rules[..n][i].backends && !IsXBackendRef(ref) && s == Render(KeyOf(ns, ref));
      assert ref in next[i].backends;
    }
    forall s | s in KeysOfRefs(ns, rules[n].backends)
      ensures s in KeysOfRules(ns, next)
    {
      var ref :| ref in rules[n].backends && !IsXBackendRef(ref) && s == Render(KeyOf(ns, ref));
      assert ref in next[n].backends;
    }
  }

  lemma KeysOfRefsNext(ns: string, refs: seq<BackendRef>, ref: BackendRef)
    ensures KeysOfRefs(ns, refs + [ref]) == KeysOfRefs(ns, refs) + if IsXBackendRef(ref) then {} else {Render(KeyOf(ns, ref))}
  {
  }

  method AddRefKeys(ns: string, refs: seq<BackendRef>, was: seq<string>) returns (keys: seq<string>)
    ensures (set s | s in keys) == (set s | s in was) + KeysOfRefs(ns, refs)
  {
    keys := was;
    for n := 0 to |refs|
      invariant (set s | s in keys) == (set s | s in was) + KeysOfRefs(ns, refs[..n])
    {
      KeysOfRefsNext(ns, refs[..n], refs[n]);
      assert refs[..n + 1] == refs[..n] + [refs[n]];
      if !IsXBackendRef(refs[n]) {
        var key := Render(KeyOf(ns, refs[n]));
        assert (set s | s in keys + [key]) == (set s | s in keys) + {key};
        keys := keys + [key];
      }
    }
    assert refs[..|refs|] == refs;
  }

  method HTTPRouteServiceRefIndexFunc(route: HTTPRoute) returns (keys: seq<string>)
    ensures (set s | s in keys) == IndexKeys(route)
  {
    keys := [];
    for n := 0 to |route.rules|
      invariant (set s | s in keys) == KeysOfRules(route.namespace, route.rules[..n])
    {
      KeysOfRulesNext(route.namespace, route.rules, n);
      keys := AddRefKeys(route.namespace, route.rules[n].backends, keys);
    }
    assert route.rules[..|route.rules|] == route.rules;
  }

  // ---------------------------------------------------------------- The store and its index

  function Bucket(index: map<string, set<Key>>, s: string): set<Key> { if s in index then index[s] else {} }

  method RemoveFrom(index: map<string, set<Key>>, keys: seq<string>, k: Key) returns (now: map<string, set<Key>>)
    ensures forall s :: Bucket(now, s) == Bucket(index, s) - if s in keys then {k} else {}
  {
    now := index;
    for n := 0 to |keys|
      invariant forall s :: Bucket(now, s) == Bucket(index, s) - if s in keys[..n] then {k} else {}
    {
      assert keys[..n + 1] == keys[..n] + [keys[n]];
      now := now[keys[n] := Bucket(now, keys[n]) - {k}];
    }
    assert keys[..|keys|] == keys;
  }

  method AddTo(index: map<string, set<Key>>, keys: seq<string>, k: Key) returns (now: map<string, set<Key>>)
    ensures forall s :: Bucket(now, s) == Bucket(index, s) + if s in keys then {k} else {}
  {
    now := index;
    for n := 0 to |keys|
      invariant forall s :: Bucket(now, s) == Bucket(index, s) + if s in keys[..n] then {k} else {}
    {
      assert keys[..n + 1] == keys[..n] + [keys[n]];
      now := now[keys[n] := Bucket(now, keys[n]) + {k}];
    }
    assert keys[..|keys|] == keys;
  }

  function KeyFor(route: HTTPRoute): Key { Key(route.namespace, route.name) }

  /** The informer's store of HTTPRoutes with the index by Service reference. */
  class RouteIndexer {
    var items: map<Key, HTTPRoute>
    var index: map<string, set<Key>>

    /** Every route stands in the bucket of each of its index keys, and nowhere else. */
    ghost predicate Valid()
      reads this
    {
      && (forall k :: k in items ==> KeyFor(items[k]) == k)
      && (forall s, k :: k in Bucket(index, s) <==> k in items && s in IndexKeys(items[k]))
    }

    constructor ()
      ensures Valid() && items == map[]
    {
      items, index := map[], map[];
    }

    method Delete(k: Key)
      requires Valid()
      modifies this
      ensures Valid() && items == old(items) - {k}
    {
      if k in items {
        var keys := HTTPRouteServiceRefIndexFunc(items[k]);
        assert forall s :: s in keys <==> s in (set s | s in keys);
        index := RemoveFrom(index, keys, k);
      }
      items := items - {k};
    }

    /** Both the add and the update of the store. */
    method Put(route: HTTPRoute)
      requires Valid()
      modifies this
      ensures Valid() && items == old(items)[KeyFor(route) := route]
    {
      var k := KeyFor(route);
      Delete(k);
      var keys := HTTPRouteServiceRefIndexFunc(route);
      assert forall s :: s in keys <==> s in (set s | s in keys);
      index := AddTo(index, keys, k);
      items := items[k := route];
    }
  }

  // ---------------------------------------------------------------- Gateways to wake

  /** A route names the Service directly, and may. */
  predicate Direct(route: HTTPRoute, svc: Key, grants: seq<Grant>) {
    && (exists i :: 0 <= i < |route.rules| && NamesService(route.namespace, route.rules[i].backends, svc))
    && AllowedByReferenceGrant(route.namespace, svc.namespace, grants)
  }

  predicate NamesService(ns: string, refs: seq<BackendRef>, svc: Key) {
    exists j :: 0 <= j < |refs| && !IsXBackendRef(refs[j]) && KeyOf(ns, refs[j]) == svc
  }

  /** Reference `j` of rule `i` has the given target, and is one to an XBackend or not. */
  ghost predicate RefersAt(route: HTTPRoute, i: nat, j: nat, target: Key, xbackend: bool) {
    && i < |route.rules| && j < |route.rules[i].backends|
    && var ref := route.rules[i].backends[j];
       && target == Key(if ref.namespace.Some? then ref.namespace.value else route.namespace, ref.name)
       && (xbackend <==> ref.group == Some("agentic.prototype.x-k8s.io") && ref.kind == Some("XBackend"))
  }

  /** When a route uses a Service directly: a reference to anything but an XBackend names it, and may. */
  lemma DirectIff(route: HTTPRoute, svc: Key, grants: seq<Grant>)
    ensures Direct(route, svc, grants) <==>
              && (exists i: nat, j: nat :: RefersAt(route, i, j, svc, false))
              && (route.namespace == svc.namespace || Granted(route.namespace, svc.namespace, grants))
  {
    AllowedIffGranted(route.namespace, svc.namespace, grants);
    if i: nat, j: nat :| RefersAt(route, i, j, svc, false) {
      assert NamesService(route.namespace, route.rules[i].backends, svc);
    }
    if i :| 0 <= i < |route.rules| && NamesService(route.namespace, route.rules[i].backends, svc) {
      var refs := route.rules[i].backends;
      var j :| 0 <= j < |refs| && !IsXBackendRef(refs[j]) && KeyOf(route.namespace, refs[j]) == svc;
      assert RefersAt(route, i, j, svc, false);
    }
  }

  function Parents(route: HTTPRoute): set<string> { GatewayKeys(route.parents, route.namespace) }

  function Woken(items: map<Key, HTTPRoute>, svc: Key, grants: seq<Grant>): set<string> {
    set k, g | k in items && Direct(items[k], svc, grants) && g in Parents(items[k]) :: g
  }

  /** Kubernetes names hold no slash; here it is the namespaces that matter. */
  predicate NoSlash(items: map<Key, HTTPRoute>, svc: Key) {
    && '/' !in svc.namespace
    && forall k, i, j :: k in items && 0 <= i < |items[k].rules| && 0 <= j < |items[k].rules[i].backends| ==>
         '/' !in KeyOf(items[k].namespace, items[k].rules[i].backends[j]).namespace
  }

  lemma RenderIsInjective(k: Key, l: Key)
    requires '/' !in k.namespace && '/' !in l.namespace && Render(k) == Render(l)
    ensures k == l
  {
    SplitFirst(k.namespace, k.name);
    SplitFirst(l.namespace, l.name);
    assert Split(Render(k))[0] == k.namespace && Split(Render(l))[0] == l.namespace;
    assert k.name == Render(k)[|k.namespace| + 1..] && l.name == Render(l)[|l.namespace| + 1..];
  }

  /** Being found under the Service's index key is naming the Service. */
  lemma IndexedIffNamed(items: map<Key, HTTPRoute>, k: Key, svc: Key)
    requires k in items && NoSlash(items, svc)
    ensures Render(svc) in IndexKeys(items[k]) <==>
              exists i :: 0 <= i < |items[k].rules| && NamesService(items[k].namespace, items[k].rules[i].backends, svc)
  {
    var route := items[k];
    if Render(svc) in IndexKeys(route) {
      var i, ref :| 0 <= i < |route.rules| && ref in route.rules[i].backends && !IsXBackendRef(ref)
                    && Render(svc) == Render(KeyOf(route.namespace, ref));
      var j :| 0 <= j < |route.rules[i].backends| && route.rules[i].backends[j] == ref;
      RenderIsInjective(svc, KeyOf(route.namespace, ref));
      assert NamesService(route.namespace, route.rules[i].backends, svc);
    }
    if i :| 0 <= i < |route.rules| && NamesService(route.namespace, route.rules[i].backends, svc) {
      var j :| 0 <= j < |route.rules[i].backends| && !IsXBackendRef(route.rules[i].backends[j])
               && KeyOf(route.namespace, route.rules[i].backends[j]) == svc;
      assert route.rules[i].backends[j] in route.rules[i].backends;
    }
  }

  /** What the routes in `done` wake. */
  ghost predicate WokenBy(items: map<Key, HTTPRoute>, svc: Key, grants: seq<Grant>, done: set<Key>,
                          queue: set<string>, now: set<string>) {
    now == queue + set k, g | k in done && k in items && Direct(items[k], svc, grants) && g in Parents(items[k]) :: g
  }

  lemma WokenNext(items: map<Key, HTTPRoute>, svc: Key, grants: seq<Grant>, done: set<Key>, queue: set<string>,
                  was: set<string>, k: Key)
    requires k in items && WokenBy(items, svc, grants, done, queue, was)
    ensures WokenBy(items, svc, grants, done + {k}, queue, was + if Direct(items[k], svc, grants) then Parents(items[k]) else {})
  {
    var wasWoken := set l, g | l in done && l in items && Direct(items[l], svc, grants) && g in Parents(items[l]) :: g;
    var nowWoken := set l, g | l in done + {k} && l in items && Direct(items[l], svc,
        grants) && g in Parents(items[l]) :: g;
    assert nowWoken == wasWoken + if Direct(items[k], svc, grants) then Parents(items[k]) else {};
  }

  lemma DoneNext(all: set<Key>, pending: set<Key>, k: Key)
    requires k in pending && pending <= all
    ensures (all - pending) + {k} == all - (pending - {k})
  {
  }

  lemma AllWoken(items: map<Key, HTTPRoute>, svc: Key, grants: seq<Grant>, done: set<Key>, queue: set<string>,
                 now: set<string>)
    requires WokenBy(items, svc, grants, done, queue, now)
    requires forall k :: k in items && k !in done ==> !Direct(items[k], svc, grants)
    ensures now == queue + Woken(items, svc, grants)
  {
  }

  /** The path through the index. */
  method EnqueueByIndex(store: RouteIndexer, svc: Key, grants: seq<Grant>,
                        queue: set<string>) returns (now: set<string>)
    requires store.Valid() && NoSlash(store.items, svc)
    ensures now == queue + Woken(store.items, svc, grants)
  {
    now := queue;
    var items := store.items;
    var found := Bucket(store.index, Render(svc));
    var pending := found;
    ghost var done: set<Key> := {};
    while pending != {}
      invariant pending <= found && done == found - pending && WokenBy(items, svc, grants, done, queue, now)
      decreases |pending|
    {
      var k :| k in pending;
      assert k in found;
      DoneNext(found, pending, k);
      IndexedIffNamed(items, k, svc);
      WokenNext(items, svc, grants, done, queue, now, k);
      if AllowedByReferenceGrant(items[k].namespace, svc.namespace, grants) {
        now := EnqueueGatewaysForHTTPRoute(items[k].parents, items[k].namespace, now);
      }
      pending, done := pending - {k}, done + {k};
    }
    forall k | k in items && k !in done
      ensures !Direct(items[k], svc, grants)
    {
      IndexedIffNamed(items, k, svc);
      assert k in found <==> Render(svc) in IndexKeys(items[k]);
    }
    AllWoken(items, svc, grants, done, queue, now);
  }

  /** Whether a route names the Service, rule by rule and reference by reference. */
  method MatchesService(route: HTTPRoute, svc: Key, grants: seq<Grant>) returns (matched: bool)
    ensures matched <==> Direct(route, svc, grants)
  {
    for i := 0 to |route.rules|
      invariant forall a :: 0 <= a < i && AllowedByReferenceGrant(route.namespace, svc.namespace, grants) ==>
                  !NamesService(route.namespace, route.rules[a].backends, svc)
    {
      var refs := route.rules[i].backends;
      for j := 0 to |refs|
        invariant forall b :: 0 <= b < j && AllowedByReferenceGrant(route.namespace, svc.namespace, grants) ==>
                    !(!IsXBackendRef(refs[b]) && KeyOf(route.namespace, refs[b]) == svc)
      {
        var key := KeyOf(route.namespace, refs[j]);
        if !IsXBackendRef(refs[j]) && key == svc && AllowedByReferenceGrant(route.namespace, key.namespace, grants) {
          assert NamesService(route.namespace, refs, svc);
          return true;
        }
      }
    }
    return false;
  }

  /** The path that scans all routes. */
  method EnqueueByList(items: map<Key, HTTPRoute>, svc: Key, grants: seq<Grant>,
                       queue: set<string>) returns (now: set<string>)
    ensures now == queue + Woken(items, svc, grants)
  {
    now := queue;
    var pending := items.Keys;
    ghost var done: set<Key> := {};
    while pending != {}
      invariant pending <= items.Keys && done == items.Keys - pending && WokenBy(items, svc, grants, done, queue, now)
      decreases |pending|
    {
      var k :| k in pending;
      DoneNext(items.Keys, pending, k);
      WokenNext(items, svc, grants, done, queue, now, k);
      var matched := MatchesService(items[k], svc, grants);
      if matched {
        now := EnqueueGatewaysForHTTPRoute(items[k].parents, items[k].namespace, now);
      }
      pending, done := pending - {k}, done + {k};
    }
    AllWoken(items, svc, grants, done, queue, now);
  }
}
