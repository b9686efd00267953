/**
 Envoy's choice of a virtual host, and with it the whole way of a request: the most specific domain
 that admits the host, then the first of its routes that matches.
 */
module HostSelection {
  import opened Options
  import opened Hostnames
  import opened Listeners
  import opened RouteMatching
  import opened RouteOrder
  import opened RouteTranslation
  import opened Attachment
  import opened VirtualHosts
  import opened GatewayTranslation
  import opened GatewayRouting

  // ---------------------------------------------------------------- The most specific domain

  /** Exact domains come before wildcards, and these before the universal domain. */
  function Class(d: string): nat { if d == "*" then 0 else if IsWildcard(d) then 1 else 2 }

  predicate MoreSpecific(a: string, b: string) {
    Class(a) > Class(b) || (Class(a) == Class(b) == 1 && |a| > |b|)
  }

  /** Envoy's virtual host for a host: the exact domain, or the longest wildcard, or the universal one. */
  predicate IsSelected(vhs: seq<VirtualHost>, host: string, k: nat) {
    && k < |vhs| && Admits(vhs[k].domain, host)
    && forall j :: 0 <= j < |vhs| && j != k && Admits(vhs[j].domain, host) ==>
        MoreSpecific(vhs[k].domain, vhs[j].domain)
  }

  /** Among the domains that admit a host, specificity is a strict total order. */
  lemma SpecificityIsTotal(a: string, b: string, host: string)
    requires Admits(a, host) && Admits(b, host)
    ensures a == b || MoreSpecific(a, b) || MoreSpecific(b, a)
    ensures MoreSpecific(a, b) ==> !MoreSpecific(b, a)
  {
    if Class(a) == Class(b) == 1 && |a| == |b| {
      assert a[1..] == host[|host| - |a[1..]|..] == b[1..];
      assert a == "*" + a[1..] && b == "*" + b[1..];
    }
  }

  lemma SpecificityIsTransitive(a: string, b: string, c: string)
    requires MoreSpecific(a, b) && MoreSpecific(b, c)
    ensures MoreSpecific(a, c)
  {
  }

  /** With distinct domains there is one virtual host for every host that some domain admits, and only one. */
  lemma {:induction false} SelectionExists(vhs: seq<VirtualHost>, host: string, some: nat) returns (k: nat)
    requires DistinctDomains(vhs) && some < |vhs| && Admits(vhs[some].domain, host)
    ensures IsSelected(vhs, host, k)
  {
    var n := |vhs| - 1;
    var init := vhs[..n];
    if exists j :: 0 <= j < n && Admits(vhs[j].domain, host) {
      var j :| 0 <= j < n && Admits(vhs[j].domain, host);
      var best := SelectionExists(init, host, j);
      k := best;
      if Admits(vhs[n].domain, host) {
        SpecificityIsTotal(vhs[best].domain, vhs[n].domain, host);
        if MoreSpecific(vhs[n].domain, vhs[best].domain) {
          k := n;
          forall i | 0 <= i < n && i != best && Admits(vhs[i].domain, host)
            ensures MoreSpecific(vhs[n].domain, vhs[i].domain)
          {
            assert init[i] == vhs[i];
            SpecificityIsTransitive(vhs[n].domain, vhs[best].domain, vhs[i].domain);
          }
        }
      }
      forall i | 0 <= i < n && i != best && Admits(vhs[i].domain, host)
        ensures MoreSpecific(vhs[best].domain, vhs[i].domain)
      {
        assert init[i] == vhs[i];
      }
    } else {
      k := some;
    }
  }

  lemma SelectionIsUnique(vhs: seq<VirtualHost>, host: string, j: nat, k: nat)
    requires IsSelected(vhs, host, j) && IsSelected(vhs, host, k)
    ensures j == k
  {
    if j != k {
      SpecificityIsTotal(vhs[j].domain, vhs[k].domain, host);
    }
  }

  // ---------------------------------------------------------------- The whole way of a request

  /** Route `n` of virtual host `k` answers a request for a host. */
  predicate Answers(vhs: seq<VirtualHost>, re: Regex, host: string, req: Request, k: nat, n: nat) {
    IsSelected(vhs, host, k) && IsFirstMatch(re, vhs[k].routes, req, n)
  }

  /** Some HTTPRoute is attached at the domain, which admits the host. */
  ghost predicate Competes(i: Inputs, gw: Gateway, ls: seq<Listener>, host: string, d: string) {
    Admits(d, host) && Attached(i, gw, ls, d) != multiset{}
  }

  /** The selected domain is the most specific one at which anything is attached. */
  lemma SelectedBeatsCompetitors(i: Inputs, gw: Gateway, ls: seq<Listener>, vhs: seq<VirtualHost>, host: string,
                                 k: nat, d: string)
    requires ExactlyAttached(i, gw, ls, vhs) && IsSelected(vhs, host, k) && Competes(i, gw, ls, host, d)
    ensures d == vhs[k].domain || MoreSpecific(vhs[k].domain, d)
  {
    var j :| 0 <= j < |vhs| && vhs[j].domain == d;
  }

  /**
   Hostname first, then precedence: the route that answers is attached at a domain that no other
   competing domain is more specific than, and among the matches attached there it stems from one
   that holds and that no other that holds precedes, a method not counting for precedence.
   */
  lemma AnswerIsBest(i: Inputs, gw: Gateway, ls: seq<Listener>, vhs: seq<VirtualHost>, re: Regex, host: string,
                     req: Request, k: nat, n: nat)
    returns (m: RouteMatch)
    requires ExactlyAttached(i, gw, ls, vhs) && Rooted(req) && Answers(vhs, re, host, req, k, n)
    ensures Attaches(i, gw, ls, vhs[k].domain, m) && !Rejected(m) && vhs[k].routes[n].match_ == Translated(m)
    ensures NoQueryTypes(m) && m.method_.None? ==> Holds(re, m, req)
    ensures forall d :: Competes(i, gw, ls, host, d) ==> d == vhs[k].domain || MoreSpecific(vhs[k].domain, d)
    ensures forall other :: Attaches(i, gw, ls, vhs[k].domain, other) && Plain(other) && Holds(re, other, req) ==>
              ProperPath(other.path) && ProperPath(m.path) && (m.method_.Some? || other.method_.None?) ==>
                  !Precedes(other, m)
  {
    m := AnswerIsBestMatch(i, gw, ls, vhs, k, re, req, n);
    forall d | Competes(i, gw, ls, host, d)
      ensures d == vhs[k].domain || MoreSpecific(vhs[k].domain, d)
    {
      SelectedBeatsCompetitors(i, gw, ls, vhs, host, k, d);
    }
  }

  /** The most specific domain at which anything is attached for a host. */
  ghost predicate IsTop(i: Inputs, gw: Gateway, ls: seq<Listener>, host: string, d: string) {
    Competes(i, gw, ls, host, d) && forall e :: Competes(i, gw, ls, host, e) && e != d ==> MoreSpecific(d, e)
  }

  predicate LetsThrough(re: Regex, m: RouteMatch, req: Request) { !Rejected(m) && EnvoyHolds(re, Translated(m), req) }

  /**
   A request is answered if and only if some match attached at the most specific competing domain
   lets it through: Envoy does not fall back to less specific domains.
   */
  lemma AnsweredIffTopMatches(i: Inputs, gw: Gateway, ls: seq<Listener>, vhs: seq<VirtualHost>, re: Regex,
                              host: string, req: Request)
    requires ExactlyAttached(i, gw, ls, vhs)
    ensures (exists k: nat, n: nat :: Answers(vhs, re, host, req, k, n)) <==>
              exists d, m :: IsTop(i, gw, ls, host, d) && Attaches(i, gw, ls, d, m) && LetsThrough(re, m, req)
  {
    if k: nat, n: nat :| Answers(vhs, re, host, req, k, n) {
      SelectedIsTop(i, gw, ls, vhs, host, k);
      assert vhs[k].routes[n] in multiset(vhs[k].routes);
      var m := RoutesComeFromMatches(i, gw, ls, vhs[k].domain, vhs[k].routes[n]);
    }
    if d, m :| IsTop(i, gw, ls, host, d) && Attaches(i, gw, ls, d, m) && LetsThrough(re, m, req) {
      var k := TopIsSelected(i, gw, ls, vhs, host, d);
      var r := MatchesBecomeRoutes(i, gw, ls, d, m);
      assert r in multiset(vhs[k].routes);
      var j :| 0 <= j < |vhs[k].routes| && vhs[k].routes[j] == r;
      var n := FirstMatchExists(re, vhs[k].routes, req, j);
      assert Answers(vhs, re, host, req, k, n);
    }
  }

  lemma SelectedIsTop(i: Inputs, gw: Gateway, ls: seq<Listener>, vhs: seq<VirtualHost>, host: string, k: nat)
    requires ExactlyAttached(i, gw, ls, vhs) && IsSelected(vhs, host, k)
    ensures IsTop(i, gw, ls, host, vhs[k].domain)
  {
    var d := vhs[k].domain;
    assert Attached(i, gw, ls, d) != multiset{};
    forall e | Competes(i, gw, ls, host, e) && e != d
      ensures MoreSpecific(d, e)
    {
      SelectedBeatsCompetitors(i, gw, ls, vhs, host, k, e);
    }
  }

  lemma TopIsSelected(i: Inputs, gw: Gateway, ls: seq<Listener>, vhs: seq<VirtualHost>, host: string,
                      d: string) returns (k: nat)
    requires ExactlyAttached(i, gw, ls, vhs) && IsTop(i, gw, ls, host, d)
    ensures IsSelected(vhs, host, k) && vhs[k].domain == d
  {
    k :| 0 <= k < |vhs| && vhs[k].domain == d;
    forall j | 0 <= j < |vhs| && j != k && Admits(vhs[j].domain, host)
      ensures MoreSpecific(d, vhs[j].domain)
    {
      assert Attached(i, gw, ls, vhs[j].domain) != multiset{};
      assert vhs[if j < k then j else k].domain != vhs[if j < k then k else j].domain;
      assert Competes(i, gw, ls, host, vhs[j].domain);
    }
  }
}
