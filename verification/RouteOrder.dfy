/**
 The routes of a virtual host and the order Envoy tries them in: sorting, and what the first
 match then means (pkg/translator/httproute.go).
 */
module RouteOrder {
  import opened Options
  import opened Names
  import opened RouteMatching

  /** `policed` is the XBackend whose access policy is attached to the cluster, if it is one. */
  datatype WeightedCluster = WeightedCluster(name: string, weight: nat, policed: Option<Key>,
      hostRewrite: Option<string>)

  datatype Action = Redirect | Forward(clusters: seq<WeightedCluster>) | ServerError

  datatype Route = Route(name: string, match_: EnvoyMatch, action: Action)

  /** No route stands behind one that it should come before. */
  predicate Sorted(rs: seq<Route>) {
    forall i, j :: 0 <= i < j < |rs| ==> !Before(rs[j].match_, rs[i].match_)
  }

  // ---------------------------------------------------------------- Sorting in place

  /** Sorted but for the route at `k`, which nothing behind it should come before. */
  predicate SortedBut(rs: seq<Route>, k: nat) {
    && (forall i, j :: 0 <= i < j < |rs| && i != k && j != k ==> !Before(rs[j].match_, rs[i].match_))
    && (forall j :: k < j < |rs| && k < |rs| ==> !Before(rs[j].match_, rs[k].match_))
  }

  function Swapped(rs: seq<Route>, k: nat): seq<Route>
    requires 0 < k < |rs|
  {
    rs[k := rs[k - 1]][k - 1 := rs[k]]
  }

  lemma SwapKeepsOrder(rs: seq<Route>, k: nat)
    requires 0 < k < |rs| && SortedBut(rs, k) && Before(rs[k].match_, rs[k - 1].match_)
    ensures SortedBut(Swapped(rs, k), k - 1)
  {
    var ss := Swapped(rs, k);
    BeforeIsStrictWeakOrder(rs[k].match_, rs[k - 1].match_, rs[k].match_);
    forall j | k < j < |rs|
      ensures !Before(ss[j].match_, ss[k].match_)
    {
      assert ss[j] == rs[j] && ss[k] == rs[k - 1];
    }
  }

  lemma InPlaceIsSorted(rs: seq<Route>, k: nat)
    requires k < |rs| && SortedBut(rs, k) && (k > 0 ==> !Before(rs[k].match_, rs[k - 1].match_))
    ensures Sorted(rs)
  {
    forall i | 0 <= i < k
      ensures !Before(rs[k].match_, rs[i].match_)
    {
      BeforeIsStrictWeakOrder(rs[k].match_, rs[k - 1].match_, rs[i].match_);
    }
  }

  /** Moves the route at `n` to its place among the sorted ones before it. */
  method Insert(a: array<Route>, n: nat)
    requires n < a.Length && Sorted(a[..n])
    modifies a
    ensures Sorted(a[..n + 1])
    ensures multiset(a[..]) == multiset(old(a[..]))
  {
    var k := n;
    assert a[..n + 1][..n] == a[..n];
    while k > 0 && Before(a[k].match_, a[k - 1].match_)
      invariant 0 <= k <= n && SortedBut(a[..n + 1], k)
      invariant multiset(a[..]) == multiset(old(a[..]))
    {
      SwapKeepsOrder(a[..n + 1], k);
      ghost var next := Swapped(a[..n + 1], k);
      a[k], a[k - 1] := a[k - 1], a[k];
      assert a[..n + 1] == next;
      k := k - 1;
    }
    InPlaceIsSorted(a[..n + 1], k);
  }

  /**
   Sorts the routes of a virtual host. The order among routes that neither comes before is not
   promised: the original sort is not stable.
   */
  method SortRoutes(a: array<Route>)
    modifies a
    ensures Sorted(a[..]) && multiset(a[..]) == multiset(old(a[..]))
  {
    for n := 0 to a.Length
      invariant Sorted(a[..n])
      invariant multiset(a[..]) == multiset(old(a[..]))
    {
      Insert(a, n);
    }
    assert a[..a.Length] == a[..];
  }

  // ---------------------------------------------------------------- First match

  /** Envoy takes the first route whose match holds. */
  predicate IsFirstMatch(re: Regex, rs: seq<Route>, req: Request, k: nat) {
    && k < |rs| && EnvoyHolds(re, rs[k].match_, req)
    && forall j :: 0 <= j < k ==> !EnvoyHolds(re, rs[j].match_, req)
  }

  /** Among sorted routes the first match is one that no other matching route comes before. */
  lemma FirstMatchIsBest(re: Regex, rs: seq<Route>, req: Request, k: nat, other: Route)
    requires Sorted(rs) && IsFirstMatch(re, rs, req, k)
    requires other in rs && EnvoyHolds(re, other.match_, req)
    ensures !Before(other.match_, rs[k].match_)
  {
    var j :| 0 <= j < |rs| && rs[j] == other;
    BeforeIsStrictWeakOrder(other.match_, rs[k].match_, other.match_);
    assert j >= k;
  }
}
