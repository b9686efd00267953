/** The virtual hosts of a port, collected by domain and then sorted (pkg/translator/translator.go). */
module VirtualHosts {
  import opened RouteMatching
  import opened RouteOrder

  datatype VirtualHost = VirtualHost(domain: string, routes: seq<Route>)

  /** The routes of a domain while the listeners of the port are gone through. */
  function RoutesAt(hosts: map<string, seq<Route>>, d: string): multiset<Route> {
    if d in hosts then multiset(hosts[d]) else multiset{}
  }

  predicate NoEmptyHost(hosts: map<string, seq<Route>>) {
    forall d :: d in hosts ==> hosts[d] != []
  }

  function Times(n: nat, m: multiset<Route>): multiset<Route> {
    if n == 0 then multiset{} else Times(n - 1, m) + m
  }

  lemma {:induction false} TimesMembers(n: nat, m: multiset<Route>, r: Route)
    ensures r in Times(n, m) <==> n > 0 && r in m
  {
    if n > 1 {
      TimesMembers(n - 1, m, r);
    }
  }

  function Appended(hosts: map<string, seq<Route>>, domain: string, routes: seq<Route>): map<string, seq<Route>> {
    hosts[domain := (if domain in hosts then hosts[domain] else []) + routes]
  }

  lemma AppendedAt(hosts: map<string, seq<Route>>, domain: string, routes: seq<Route>, d: string)
    ensures RoutesAt(Appended(hosts, domain, routes), d) ==
              RoutesAt(hosts, d) + if d == domain then multiset(routes) else multiset{}
  {
  }

  predicate GrownAt(was: map<string, seq<Route>>, domains: seq<string>, routes: multiset<Route>,
                    now: map<string, seq<Route>>, d: string) {
    RoutesAt(now, d) == RoutesAt(was, d) + Times(multiset(domains)[d], routes)
  }

  /** `now` is `was` with the routes added to each domain as often as it is listed. */
  ghost predicate Grown(was: map<string, seq<Route>>, domains: seq<string>, routes: multiset<Route>,
                        now: map<string, seq<Route>>) {
    forall d :: GrownAt(was, domains, routes, now, d)
  }

  lemma GrownAtNext(was: map<string, seq<Route>>, domains: seq<string>, domain: string, routes: seq<Route>,
                    now: map<string, seq<Route>>, d: string)
    requires GrownAt(was, domains, multiset(routes), now, d)
    ensures GrownAt(was, domains + [domain], multiset(routes), Appended(now, domain, routes), d)
  {
    AppendedAt(now, domain, routes, d);
    var n := multiset(domains)[d];
    assert multiset(domains + [domain])[d] == if d == domain then n + 1 else n;
    assert Times(n + 1, multiset(routes)) == Times(n, multiset(routes)) + multiset(routes);
  }

  lemma GrownNext(was: map<string, seq<Route>>, domains: seq<string>, domain: string, routes: seq<Route>,
                  now: map<string, seq<Route>>)
    requires Grown(was, domains, multiset(routes), now)
    ensures Grown(was, domains + [domain], multiset(routes), Appended(now, domain, routes))
  {
    forall d
      ensures GrownAt(was, domains + [domain], multiset(routes), Appended(now, domain, routes), d)
    {
      GrownAtNext(was, domains, domain, routes, now, d);
    }
  }

  /** Appends the routes to the virtual host of every listed domain, as often as it is listed. */
  method AddRoutes(hosts: map<string, seq<Route>>, domains: seq<string>, routes: seq<Route>)
    returns (now: map<string, seq<Route>>)
    requires NoEmptyHost(hosts) && routes != []
    ensures NoEmptyHost(now) && Grown(hosts, domains, multiset(routes), now)
  {
    now := hosts;
    for n := 0 to |domains|
      invariant NoEmptyHost(now) && Grown(hosts, domains[..n], multiset(routes), now)
    {
      assert domains[..n + 1] == domains[..n] + [domains[n]];
      GrownNext(hosts, domains[..n], domains[n], routes, now);
      now := Appended(now, domains[n], routes);
    }
    assert domains[..|domains|] == domains;
  }

  predicate DistinctDomains(vhs: seq<VirtualHost>) {
    forall i, j :: 0 <= i < j < |vhs| ==> vhs[i].domain != vhs[j].domain
  }

  /** The virtual hosts of `vhs` are those of `hosts` in `done`, their routes sorted. */
  ghost predicate Lists(vhs: seq<VirtualHost>, hosts: map<string, seq<Route>>, done: set<string>) {
    && DistinctDomains(vhs)
    && (forall i :: 0 <= i < |vhs| ==>
          && vhs[i].domain in done && vhs[i].domain in hosts && Sorted(vhs[i].routes)
          && multiset(vhs[i].routes) == multiset(hosts[vhs[i].domain]))
    && (forall d :: d in done ==> exists i :: 0 <= i < |vhs| && vhs[i].domain == d)
  }

  lemma ListsNext(vhs: seq<VirtualHost>, hosts: map<string, seq<Route>>, done: set<string>, v: VirtualHost)
    requires Lists(vhs, hosts, done) && v.domain in hosts && v.domain !in done
    requires Sorted(v.routes) && multiset(v.routes) == multiset(hosts[v.domain])
    ensures Lists(vhs + [v], hosts, done + {v.domain})
  {
    var now := vhs + [v];
    forall d | d in done + {v.domain}
      ensures exists i :: 0 <= i < |now| && now[i].domain == d
    {
      if d in done {
        var i :| 0 <= i < |vhs| && vhs[i].domain == d;
        assert now[i].domain == d;
      } else {
        assert now[|vhs|].domain == d;
      }
    }
  }

  method SortHosts(hosts: map<string, seq<Route>>) returns (vhs: seq<VirtualHost>)
    ensures Lists(vhs, hosts, hosts.Keys)
  {
    vhs := [];
    var pending := hosts.Keys;
    while pending != {}
      invariant pending <= hosts.Keys && Lists(vhs, hosts, hosts.Keys - pending)
      decreases |pending|
    {
      var d :| d in pending;
      var rs := hosts[d];
      var a := new Route[|rs|](i requires 0 <= i < |rs| => rs[i]);
      assert a[..] == rs;
      SortRoutes(a);
      ListsNext(vhs, hosts, hosts.Keys - pending, VirtualHost(d, a[..]));
      assert hosts.Keys - (pending - {d}) == (hosts.Keys - pending) + {d};
      vhs := vhs + [VirtualHost(d, a[..])];
      pending := pending - {d};
    }
    assert hosts.Keys - pending == hosts.Keys;
  }
}
