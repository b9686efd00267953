/**
 External authorization (pkg/translator/listener.go and pkg/translator/translator.go): one
 ext_authz filter and one cluster per distinct configuration, and the link through which the
 shadow rules of a backend's policy switch exactly the right filter on.
 */
module ExtAuthz {
  import opened Options
  import opened Text
  import opened EnvoyRbac
  import opened AccessPolicies

  // ---------------------------------------------------------------- Configurations in use

  /** An external-auth configuration together with the namespace of its policy. */
  datatype Entry = Entry(namespace: string, external: ExternalAuth)

  predicate Mentions(rule: Rule) { rule.authorization.Some? && rule.authorization.value.external.Some? }

  function RuleEntries(ns: string, rules: seq<Rule>): seq<Entry> {
    if rules == [] then []
    else
      var init, last := RuleEntries(ns, rules[..|rules| - 1]), rules[|rules| - 1];
      if Mentions(last) then init + [Entry(ns, last.authorization.value.external.value)] else init
  }

  /** All configurations of all policies, in the order the translator meets them. */
  function Entries(policies: seq<AccessPolicy>): seq<Entry> {
    if policies == [] then []
    else
      var last := policies[|policies| - 1];
      Entries(policies[..|policies| - 1]) + RuleEntries(last.namespace, last.rules)
  }

  lemma {:induction false} RuleEntriesComplete(ns: string, rules: seq<Rule>, i: nat)
    requires i < |rules| && Mentions(rules[i])
    ensures Entry(ns, rules[i].authorization.value.external.value) in RuleEntries(ns, rules)
  {
    if i < |rules| - 1 {
      RuleEntriesComplete(ns, rules[..|rules| - 1], i);
    }
  }

  lemma {:induction false} EntriesComplete(policies: seq<AccessPolicy>, p: AccessPolicy, i: nat)
    requires p in policies && i < |p.rules| && Mentions(p.rules[i])
    ensures Entry(p.namespace, p.rules[i].authorization.value.external.value) in Entries(policies)
  {
    var init, last := policies[..|policies| - 1], policies[|policies| - 1];
    assert policies == init + [last];
    if last == p {
      RuleEntriesComplete(p.namespace, p.rules, i);
    } else {
      EntriesComplete(init, p, i);
    }
  }

  // ---------------------------------------------------------------- Names

  function Fqdn(e: Entry): string {
    e.external.backend.name + "." + e.external.backend.namespace.GetOr(e.namespace) + ".svc.cluster.local"
  }

  function ProtocolSuffix(p: Protocol): string {
    match p
    case Grpc => "-grpc"
    case Http => "-http"
    case UnknownProtocol => "-"
  }

  function PortSuffix(port: Option<nat>): string {
    if port.Some? then ":" + Decimal(port.value) else ""
  }

  function ClusterName(e: Entry): string {
    Fqdn(e) + ProtocolSuffix(e.external.protocol) + PortSuffix(e.external.backend.port)
  }

  /** The metadata key that switches the filter of configuration `hash` on. */
  function EnabledKey(hash: string): string { SHADOW_PREFIX + "_" + hash + "_" + SHADOW_SUFFIX }

  lemma KeyIsPublishedKey(hash: string)
    ensures StatPrefix(hash) + SHADOW_SUFFIX == EnabledKey(hash)
  {
  }

  lemma KeysAreInjective(h: string, g: string)
    requires EnabledKey(h) == EnabledKey(g)
    ensures h == g
  {
    var n := |SHADOW_PREFIX| + 1;
    assert EnabledKey(h)[n..n + |h|] == h && EnabledKey(g)[n..n + |g|] == g;
    assert |h| == |g|;
  }

  // ---------------------------------------------------------------- Filters

  /** `cluster` is where the check goes; None when the configuration names no service. */
  datatype Filter = Filter(enabledKey: string, cluster: Option<string>)

  /** An HTTP configuration whose backend is no Service gets no filter. */
  predicate Unsupported(x: ExternalAuth) {
    x.protocol.Http? && x.http.Some? && x.backend.kind.Some? && x.backend.kind.value != "Service"
  }

  function ServiceOf(e: Entry): Option<string> {
    match e.external.protocol
    case Grpc => Some(ClusterName(e))
    case Http => if e.external.http.Some? then Some(ClusterName(e)) else None
    case UnknownProtocol => None
  }

  /** Entry `i` is the first with its id. */
  predicate FirstOfId(id: AuthId, es: seq<Entry>, i: nat) {
    && i < |es| && id(es[i].external).Some?
    && forall j :: 0 <= j < i ==> id(es[j].external) != id(es[i].external)
  }

  function FilterOf(id: AuthId, e: Entry): Filter
    requires id(e.external).Some?
  {
    Filter(EnabledKey(id(e.external).value), ServiceOf(e))
  }

  /** Exactly one filter for the first entry of every id, unless that entry is unsupported. */
  ghost predicate FiltersFor(id: AuthId, es: seq<Entry>, fs: seq<Filter>) {
    && (forall i: nat :: FirstOfId(id, es, i) && !Unsupported(es[i].external) ==> FilterOf(id, es[i]) in fs)
    && (forall f :: f in fs ==>
          exists i: nat :: FirstOfId(id, es, i) && !Unsupported(es[i].external) && f == FilterOf(id, es[i]))
    && (forall a, b :: 0 <= a < b < |fs| ==> fs[a].enabledKey != fs[b].enabledKey)
  }

  predicate SeenIds(id: AuthId, es: seq<Entry>, hashes: set<string>) {
    && (forall i :: 0 <= i < |es| && id(es[i].external).Some? ==> id(es[i].external).value in hashes)
    && (forall h :: h in hashes ==> exists i :: 0 <= i < |es| && id(es[i].external) == Some(h))
  }

  lemma FirstOfIdStable(id: AuthId, es: seq<Entry>, e: Entry, i: nat)
    ensures i < |es| ==> (FirstOfId(id, es + [e], i) <==> FirstOfId(id, es, i))
  {
    assert forall j :: 0 <= j < |es| ==> (es + [e])[j] == es[j];
  }

  lemma FiltersSkip(id: AuthId, es: seq<Entry>, e: Entry, fs: seq<Filter>)
    requires FiltersFor(id, es, fs)
    requires !FirstOfId(id, es + [e], |es|) || Unsupported(e.external)
    ensures FiltersFor(id, es + [e], fs)
  {
    var ds := es + [e];
    forall i: nat
      ensures i < |es| ==> (FirstOfId(id, ds, i) <==> FirstOfId(id, es, i))
    {
      FirstOfIdStable(id, es, e, i);
    }
    forall f | f in fs
      ensures exists i: nat :: FirstOfId(id, ds, i) && !Unsupported(ds[i].external) && f == FilterOf(id, ds[i])
    {
      var i: nat :| FirstOfId(id, es, i) && !Unsupported(es[i].external) && f == FilterOf(id, es[i]);
      assert FirstOfId(id, ds, i);
    }
  }

  lemma FiltersAdd(id: AuthId, es: seq<Entry>, e: Entry, fs: seq<Filter>)
    requires FiltersFor(id, es, fs)
    requires FirstOfId(id, es + [e], |es|) && !Unsupported(e.external)
    ensures FiltersFor(id, es + [e], fs + [FilterOf(id, e)])
  {
    var ds, gs := es + [e], fs + [FilterOf(id, e)];
    forall i: nat
      ensures i < |es| ==> (FirstOfId(id, ds, i) <==> FirstOfId(id, es, i))
    {
      FirstOfIdStable(id, es, e, i);
    }
    forall f | f in gs
      ensures exists i: nat :: FirstOfId(id, ds, i) && !Unsupported(ds[i].external) && f == FilterOf(id, ds[i])
    {
      if f in fs {
        var i: nat :| FirstOfId(id, es, i) && !Unsupported(es[i].external) && f == FilterOf(id, es[i]);
        assert FirstOfId(id, ds, i);
      } else {
        assert FirstOfId(id, ds, |es|) && ds[|es|] == e;
      }
    }
    forall a | 0 <= a < |fs|
      ensures fs[a].enabledKey != FilterOf(id, e).enabledKey
    {
      assert fs[a] in fs;
      var i: nat :| FirstOfId(id, es, i) && !Unsupported(es[i].external) && fs[a] == FilterOf(id, es[i]);
      assert ds[i] == es[i] && id(es[i].external) != id(e.external);
      if fs[a].enabledKey == FilterOf(id, e).enabledKey {
        KeysAreInjective(id(es[i].external).value, id(e.external).value);
      }
    }
  }

  /** One rule's configuration `e`, after those in `es`. */
  method AddFilter(id: AuthId, ghost es: seq<Entry>, e: Entry, fs: seq<Filter>, hashes: set<string>)
    returns (fs': seq<Filter>, hashes': set<string>)
    requires FiltersFor(id, es, fs) && SeenIds(id, es, hashes)
    ensures FiltersFor(id, es + [e], fs') && SeenIds(id, es + [e], hashes')
  {
    fs', hashes' := fs, hashes;
    ghost var ds := es + [e];
    assert ds[|es|] == e && forall j :: 0 <= j < |es| ==> ds[j] == es[j];
    var hash := id(e.external);
    if hash.None? || hash.value in hashes {
      FiltersSkip(id, es, e, fs);
      return;
    }
    hashes' := hashes + {hash.value};
    if Unsupported(e.external) {
      FiltersSkip(id, es, e, fs);
      return;
    }
    FiltersAdd(id, es, e, fs);
    fs' := fs + [FilterOf(id, e)];
  }

  method BuildExtAuthzFilters(id: AuthId, policies: seq<AccessPolicy>) returns (fs: seq<Filter>)
    ensures FiltersFor(id, Entries(policies), fs)
  {
    fs := [];
    var hashes: set<string> := {};
    ghost var es: seq<Entry> := [];
    for p := 0 to |policies|
      invariant es == Entries(policies[..p]) && FiltersFor(id, es, fs) && SeenIds(id, es, hashes)
    {
      var ns, rules := policies[p].namespace, policies[p].rules;
      ghost var before := es;
      for r := 0 to |rules|
        invariant es == before + RuleEntries(ns, rules[..r]) && FiltersFor(id, es, fs) && SeenIds(id, es, hashes)
      {
        RuleEntriesNext(ns, rules, r);
        if Mentions(rules[r]) {
          var e := Entry(ns, rules[r].authorization.value.external.value);
          fs, hashes := AddFilter(id, es, e, fs, hashes);
          es := es + [e];
        }
      }
      EntriesNext(policies, p);
    }
    assert policies[..|policies|] == policies;
  }

  lemma RuleEntriesNext(ns: string, rules: seq<Rule>, r: nat)
    requires r < |rules|
    ensures RuleEntries(ns, rules[..r + 1]) == RuleEntries(ns, rules[..r]) +
              if Mentions(rules[r]) then [Entry(ns, rules[r].authorization.value.external.value)] else []
  {
    assert rules[..r + 1][..r] == rules[..r];
  }

  lemma EntriesNext(policies: seq<AccessPolicy>, p: nat)
    requires p < |policies|
    ensures Entries(policies[..p + 1]) ==
              Entries(policies[..p]) + RuleEntries(policies[p].namespace, policies[p].rules[..|policies[p].rules|])
  {
    assert policies[..p + 1][..p] == policies[..p];
    assert policies[p].rules[..|policies[p].rules|] == policies[p].rules;
  }

  // ---------------------------------------------------------------- Clusters

  datatype Cluster = Cluster(name: string, host: string, port: nat)

  const DEFAULT_AUTH_PORT := 5000

  function ClusterOf(e: Entry): Cluster {
    Cluster(ClusterName(e), Fqdn(e), e.external.backend.port.GetOr(DEFAULT_AUTH_PORT))
  }

  /** `m` holds clusters of the list under their names, one for every name. */
  ghost predicate Collected(cs: seq<Cluster>, m: map<string, Cluster>) {
    && (forall i :: 0 <= i < |cs| ==> cs[i].name in m)
    && (forall n :: n in m ==> m[n] in cs && m[n].name == n)
  }

  function ClustersOf(es: seq<Entry>): (cs: seq<Cluster>)
    ensures |cs| == |es| && forall i :: 0 <= i < |es| ==> cs[i] == ClusterOf(es[i])
  {
    seq(|es|, i requires 0 <= i < |es| => ClusterOf(es[i]))
  }

  ghost predicate ClustersFor(es: seq<Entry>, m: map<string, Cluster>) { Collected(ClustersOf(es), m) }

  lemma ClustersOfNext(es: seq<Entry>, e: Entry)
    ensures ClustersOf(es + [e]) == ClustersOf(es) + [ClusterOf(e)]
  {
  }

  method AddCluster(ghost cs: seq<Cluster>, c: Cluster, m: map<string, Cluster>) returns (m': map<string, Cluster>)
    requires Collected(cs, m)
    ensures Collected(cs + [c], m')
  {
    m' := if c.name in m then m else m[c.name := c];
  }

  method BuildExtAuthzClusters(policies: seq<AccessPolicy>) returns (m: map<string, Cluster>)
    ensures ClustersFor(Entries(policies), m)
  {
    m := map[];
    ghost var es: seq<Entry> := [];
    for p := 0 to |policies|
      invariant es == Entries(policies[..p]) && ClustersFor(es, m)
    {
      var ns, rules := policies[p].namespace, policies[p].rules;
      ghost var before := es;
      for r := 0 to |rules|
        invariant es == before + RuleEntries(ns, rules[..r]) && ClustersFor(es, m)
      {
        RuleEntriesNext(ns, rules, r);
        if Mentions(rules[r]) {
          var e := Entry(ns, rules[r].authorization.value.external.value);
          ClustersOfNext(es, e);
          m := AddCluster(ClustersOf(es), ClusterOf(e), m);
          es := es + [e];
        }
      }
      EntriesNext(policies, p);
    }
    assert policies[..|policies|] == policies;
  }

  /** A text that does not end in a digit, followed by an optional port, can be taken apart again. */
  lemma PortIsReadable(s: string, p: Option<nat>, t: string, q: Option<nat>)
    requires s != [] && !Digit(s[|s| - 1]) && t != [] && !Digit(t[|t| - 1])
    requires s + PortSuffix(p) == t + PortSuffix(q)
    ensures s == t && p == q
  {
    LastOfPort(s, p);
    LastOfPort(t, q);
    if p.None? {
      assert s == s + PortSuffix(p) && t == t + PortSuffix(q);
    } else {
      DecimalDigits(p.value);
      DecimalDigits(q.value);
      ColonSplits(s, Decimal(p.value), t, Decimal(q.value));
      DecimalIsInjective(p.value, q.value);
    }
  }

  lemma LastOfPort(s: string, p: Option<nat>)
    requires s != [] && !Digit(s[|s| - 1])
    ensures var all := s + PortSuffix(p); Digit(all[|all| - 1]) <==> p.Some?
  {
    if p.Some? {
      DecimalDigits(p.value);
      var d := Decimal(p.value);
      assert Digit(d[|d| - 1]);
    }
  }

  /** The name of an authorization cluster tells host, protocol and port. */
  lemma ClusterNameTellsEndpoint(e: Entry, d: Entry)
    requires ClusterName(e) == ClusterName(d)
    ensures Fqdn(e) == Fqdn(d) && e.external.protocol == d.external.protocol
    ensures e.external.backend.port == d.external.backend.port
  {
    var s := Fqdn(e) + ProtocolSuffix(e.external.protocol);
    var t := Fqdn(d) + ProtocolSuffix(d.external.protocol);
    PortIsReadable(s, e.external.backend.port, t, d.external.backend.port);
    var last := s[|s| - 1];
    assert e.external.protocol.Grpc? <==> last == 'c';
    assert e.external.protocol.Http? <==> last == 'p';
    assert d.external.protocol.Grpc? <==> last == 'c';
    assert d.external.protocol.Http? <==> last == 'p';
    assert |Fqdn(e)| == |Fqdn(d)|;
    assert s[..|Fqdn(e)|] == Fqdn(e) && t[..|Fqdn(d)|] == Fqdn(d);
  }

  /**
   Every check goes to the service named by a configuration with the filter's id: to its DNS name
   in the namespace of the reference, or of the policy if it has none, on its port or on 5000.
   */
  lemma CheckReachesItsService(id: AuthId, es: seq<Entry>, fs: seq<Filter>, m: map<string, Cluster>, f: Filter)
    returns (e: Entry)
    requires FiltersFor(id, es, fs) && ClustersFor(es, m) && f in fs && f.cluster.Some?
    ensures e in es && id(e.external).Some? && f == FilterOf(id, e) && f.cluster.value in m
    ensures var ref, c := e.external.backend, m[f.cluster.value];
            && c.host == ref.name + "." + (if ref.namespace.Some? then ref.namespace.value else e.namespace) +
                 ".svc.cluster.local"
            && c.port == (if ref.port.Some? then ref.port.value else 5000)
            && f.cluster.value == c.host + (if e.external.protocol == Grpc then "-grpc" else "-http") +
                 (if ref.port.Some? then ":" + Decimal(ref.port.value) else "")
  {
    var i: nat :| FirstOfId(id, es, i) && !Unsupported(es[i].external) && f == FilterOf(id, es[i]);
    e := es[i];
    var name := f.cluster.value;
    assert ClustersOf(es)[i].name == name;
    var j :| 0 <= j < |es| && ClustersOf(es)[j] == m[name];
    ClusterNameTellsEndpoint(e, es[j]);
  }

  /** A gRPC configuration has a service to ask, and so has an HTTP one that carries its HTTP part. */
  lemma ConfiguredFilterHasService(id: AuthId, e: Entry)
    requires id(e.external).Some?
    ensures FilterOf(id, e).cluster.Some? <==>
              e.external.protocol == Grpc || (e.external.protocol == Http && e.external.http.Some?)
  {
  }

  /** Every cluster a filter sends its checks to is among the clusters, if those of all entries are. */
  lemma FilterClustersExist(id: AuthId, es: seq<Entry>, fs: seq<Filter>, names: set<string>)
    requires FiltersFor(id, es, fs) && forall e :: e in es ==> ClusterOf(e).name in names
    ensures forall f :: f in fs && f.cluster.Some? ==> f.cluster.value in names
  {
    forall f | f in fs && f.cluster.Some?
      ensures f.cluster.value in names
    {
      var i: nat :| FirstOfId(id, es, i) && !Unsupported(es[i].external) && f == FilterOf(id, es[i]);
      assert ClusterOf(es[i]).name == f.cluster.value;
    }
  }
}
