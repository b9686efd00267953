/**
 Where wake-ups do get lost: every update that drops an owner silently can leave it waiting for its
 finalizer for ever, shown by a run for each; and what becomes of proxies whose names collide.
 */
module FinalizerLimits {
  import opened Options
  import opened Names
  import opened FinalizerProtocol
  import opened FinalizerSafety
  import opened FinalizerWakeups

  // ---------------------------------------------------------------- Silent updates

  /** For HTTPRoutes an update is silent exactly if it drops the Gateway and does not look like a change. */
  lemma SilentRouteUpdates(c: Config, x: Key, o: Referrer, n: Referrer, k: Key)
    requires c.kind.GatewayKind?
    ensures Silent(c, x, o, n, k) <==> k in o.targets && k !in n.targets && !ReferrerChanged(o, n)
  {
  }

  /** For XAccessPolicies every update that drops the XBackend is. */
  lemma SilentPolicyUpdates(c: Config, x: Key, o: Referrer, n: Referrer, k: Key)
    requires c.kind.BackendKind?
    ensures Silent(c, x, o, n, k) <==> k in o.targets && k !in n.targets
  {
  }

  /** Doomed, unreferenced, all caches up to date, and nothing anywhere that would bring the owner up. */
  ghost predicate Forgotten(c: Config, s: State, k: Key) {
    && OwnerLog(s, k).Current() && Doomed(c, OwnerLog(s, k).Last()) && !ReferencedAtServer(s, k)
    && (forall x :: ReferrerLog(s, x).Current())
    && s.ownerEvents == {} && s.referrerEvents == {}
    && k !in s.dirty && k !in s.delayed && k !in s.workers
  }

  /** Which is the opposite of what attendance promises. */
  lemma ForgottenIsUnattended(c: Config, s: State, k: Key)
    requires Forgotten(c, s, k)
    ensures !Attended(c, s, k)
  {
    forall x | x in s.referrers
      ensures s.referrers[x].Cached() == s.referrers[x].Last()
    {
      assert ReferrerLog(s, x).Current();
    }
  }

  // ---------------------------------------------------------------- Runs that forget

  function Fresh<T>(): Log<T> { History([None], 0) }

  function Gateway(c: Config): Owner { Owner(1, 1, 0, false, [c.finalizer], true) }

  /** Created with the finalizer, then deleted: the second version is what stays. */
  function Gone(c: Config): Log<Owner> {
    Write(Write(Fresh(), Some(Gateway(c))), Deleted(Gateway(c)))
  }

  /** The run ends in the state and shows no update that silently drops `k`. */
  ghost predicate Reaches(c: Config, r: Run, s: State, k: Key) { EndsIn(c, r, s) && FaithfulRun(c, r, k) }

  lemma Continue(c: Config, r: Run, s: State, a: Action, t: State, k: Key)
    requires Reaches(c, r, s, k) && Enabled(c, s, a) && Step(c, s, a) == t && Faithful(c, s, a, k)
    ensures Reaches(c, Extend(c, r, a), t, k)
  {
    ExtendRun(c, r, s, a, t);
    FaithfulGrows(c, r, s, a, k);
  }

  lemma FaithfulGrows(c: Config, r: Run, s: State, a: Action, k: Key)
    requires Reaches(c, r, s, k) && Enabled(c, s, a) && Faithful(c, s, a, k) && IsRun(c, Extend(c, r, a))
    ensures FaithfulRun(c, Extend(c, r, a), k)
  {
    var r' := Extend(c, r, a);
    forall i | 0 <= i < |r'.actions|
      ensures Faithful(c, r'.states[i], r'.actions[i], k)
    {
      assert r'.states[i] == r.states[i];
      if i < |r.actions| {
        assert r'.actions[i] == r.actions[i];
      }
    }
  }

  function Past(vs: seq<Option<Referrer>>, n: nat, seen: nat): Log<Referrer>
    requires seen < n <= |vs|
  {
    History(vs[..n], seen)
  }

  /** One owner `k` and one referrer `x`, and nothing under way but the keys in `dirty`. */
  function Pair(k: Key, x: Key, oh: Log<Owner>, rh: Log<Referrer>, dirty: set<Key>): State {
    State(map[k := oh], map[x := rh], {}, {}, dirty, {}, map[], map[])
  }

  function ChangeTo(x: Key, was: Option<Referrer>, now: Option<Referrer>): Change {
    match now
    case None => DeleteReferrer(x)
    case Some(n) => if was.None? then CreateReferrer(x, n) else UpdateReferrer(x, n)
  }

  function Recorded(s: State, x: Key, h: Log<Referrer>): State { s.(referrers := s.referrers[x := h]) }

  lemma ChangeIsAllowed(c: Config, s: State, x: Key, next: Option<Referrer>)
    requires LegalNext(ReferrerLog(s, x).versions, next)
    ensures var e := ChangeTo(x, ReferrerLog(s, x).Last(), next);
            ChangeAllowed(c, s, e) && Apply(c, s, e) == WriteReferrer(s, x, next)
  {
  }

  lemma WriteIsRecorded(s: State, x: Key, vs: seq<Option<Referrer>>, seen: nat, n: nat)
    requires seen < n < |vs| && ReferrerLog(s, x) == Past(vs, n, seen)
    ensures WriteReferrer(s, x, vs[n]) == Recorded(s, x, Past(vs, n + 1, seen))
  {
    assert vs[..n + 1] == vs[..n] + [vs[n]];
  }

  lemma WrittenOnce(c: Config, r: Run, s: State, k: Key, x: Key, vs: seq<Option<Referrer>>, seen: nat,
                    n: nat) returns (r': Run)
    requires Reaches(c, r, s, k) && Legal(vs) && seen < n < |vs| && ReferrerLog(s, x) == Past(vs, n, seen)
    ensures Reaches(c, r', Recorded(s, x, Past(vs, n + 1, seen)), k)
  {
    var e := ChangeTo(x, vs[n - 1], vs[n]);
    assert LegalNext(vs[..n], vs[n]);
    ChangeIsAllowed(c, s, x, vs[n]);
    WriteIsRecorded(s, x, vs, seen, n);
    Continue(c, r, s, User(e), Recorded(s, x, Past(vs, n + 1, seen)), k);
    r' := Extend(c, r, User(e));
  }

  /** Users write the referrer's history, version by version, from `m` versions to `n`. */
  lemma {:induction false} Written(c: Config, r: Run, s: State, k: Key, x: Key, vs: seq<Option<Referrer>>, seen: nat,
                                   m: nat, n: nat)
    returns (r': Run)
    requires Reaches(c, r, s, k) && Legal(vs) && seen < m < n <= |vs|
    requires ReferrerLog(s, x) == Past(vs, m, seen)
    ensures Reaches(c, r', Recorded(s, x, Past(vs, n, seen)), k)
    decreases n
  {
    if m == n - 1 {
      r' := WrittenOnce(c, r, s, k, x, vs, seen, m);
    } else {
      var r1 := Written(c, r, s, k, x, vs, seen, m, n - 1);
      var t := Recorded(s, x, Past(vs, n - 1, seen));
      r' := WrittenOnce(c, r1, t, k, x, vs, seen, n - 1);
      assert Recorded(t, x, Past(vs, n, seen)) == Recorded(s, x, Past(vs, n, seen));
    }
  }

  /** The referrer with `k` among its targets, and `k` under deletion. */
  lemma HeldBackObjects(c: Config, k: Key, x: Key, vs: seq<Option<Referrer>>, a: nat) returns (r: Run)
    requires Legal(vs) && 1 <= a < |vs|
    ensures Reaches(c, r, Pair(k, x, Gone(c), Past(vs, a + 1, 0), {}), k)
  {
    var g, rh := Gateway(c), Past(vs, a + 1, 0);
    r := Run([INITIAL], []);
    assert vs[..1] == [None];
    r := Written(c, r, INITIAL, k, x, vs, 0, 1, a + 1);
    var s1 := INITIAL.(referrers := map[x := rh]);
    var s2 := Pair(k, x, Write(Fresh(), Some(g)), rh, {});
    Continue(c, r, s1, User(CreateOwner(k, g)), s2, k);
    r := Extend(c, r, User(CreateOwner(k, g)));
    Continue(c, r, s2, User(DeleteOwner(k)), Pair(k, x, Gone(c), rh, {}), k);
    r := Extend(c, r, User(DeleteOwner(k)));
  }

  function OwnerShown(c: Config, k: Key): Event<Owner> { Event(k, None, Deleted(Gateway(c))) }

  lemma HeldBackShown(c: Config, k: Key, x: Key, vs: seq<Option<Referrer>>, a: nat) returns (r: Run)
    requires Legal(vs) && 1 <= a < |vs|
    ensures Reaches(c, r, Pair(k, x, Show(Gone(c), 2), Past(vs, a + 1, a), {})
                           .(ownerEvents := {OwnerShown(c, k)}, referrerEvents := {Event(x, None, vs[a])}), k)
  {
    r := HeldBackObjects(c, k, x, vs, a);
    var s0 := Pair(k, x, Gone(c), Past(vs, a + 1, 0), {});
    var s1 := Pair(k, x, Show(Gone(c), 2), Past(vs, a + 1, 0), {}).(ownerEvents := {OwnerShown(c, k)});
    Continue(c, r, s0, Informer(ObserveOwner(k, 2)), s1, k);
    r := Extend(c, r, Informer(ObserveOwner(k, 2)));
    var s2 := Pair(k, x, Show(Gone(c), 2), Past(vs, a + 1, a), {})
                .(ownerEvents := {OwnerShown(c, k)}, referrerEvents := {Event(x, None, vs[a])});
    Continue(c, r, s1, Informer(ObserveReferrer(x, a)), s2, k);
    r := Extend(c, r, Informer(ObserveReferrer(x, a)));
  }

  lemma HeldBackSeen(c: Config, k: Key, x: Key, vs: seq<Option<Referrer>>, a: nat) returns (r: Run, dirty: set<Key>)
    requires Legal(vs) && 1 <= a < |vs| && vs[a].Some? && k in vs[a].value.targets
    ensures k in dirty && Reaches(c, r, Pair(k, x, Show(Gone(c), 2), Past(vs, a + 1, a), dirty), k)
  {
    var p := Pair(k, x, Show(Gone(c), 2), Past(vs, a + 1, a), {});
    var e, f := OwnerShown(c, k), Event(x, None, vs[a]);
    r := HeldBackShown(c, k, x, vs, a);
    var s2 := p.(ownerEvents := {e}, referrerEvents := {f});
    var s3 := p.(referrerEvents := {f}, dirty := {k});
    Continue(c, r, s2, Informer(DeliverOwner(e)), s3, k);
    r := Extend(c, r, Informer(DeliverOwner(e)));
    dirty := {k} + WokenBy(c, s3, f);
    Continue(c, r, s3, Informer(DeliverReferrer(f)), p.(dirty := dirty), k);
    r := Extend(c, r, Informer(DeliverReferrer(f)));
  }

  /** An owner under deletion that its worker has left alone because of the one referrer. */
  lemma HeldBack(c: Config, k: Key, x: Key, vs: seq<Option<Referrer>>, a: nat) returns (r: Run, dirty: set<Key>)
    requires Legal(vs) && 1 <= a < |vs| && vs[a].Some? && k in vs[a].value.targets
    ensures k !in dirty && Reaches(c, r, Pair(k, x, Show(Gone(c), 2), Past(vs, a + 1, a), dirty), k)
  {
    var before;
    r, before := HeldBackSeen(c, k, x, vs, a);
    dirty := before - {k};
    var p := Pair(k, x, Show(Gone(c), 2), Past(vs, a + 1, a), dirty);
    var s1 := p.(workers := map[k := FinalizerProtocol.Start]);
    Continue(c, r, p.(dirty := before), Take(k), s1, k);
    r := Extend(c, r, Take(k));
    var s2 := p.(workers := map[k := Listing(2)]);
    Continue(c, r, s1, Work(k, ReadOwner), s2, k);
    r := Extend(c, r, Work(k, ReadOwner));
    var s3 := p.(workers := map[k := Finished(2, false)]);
    assert s2.referrers[x].Cached() == vs[a];
    Continue(c, r, s2, Work(k, ListReferrers), s3, k);
    r := Extend(c, r, Work(k, ListReferrers));
    Continue(c, r, s3, Work(k, Done), p, k);
    r := Extend(c, r, Work(k, Done));
  }

  /** Step `j` of the run shows the update of `x` from `was` to `now`, its version `v`. */
  ghost predicate ShowsAt(r: Run, j: nat, x: Key, v: nat, was: Option<Referrer>, now: Option<Referrer>) {
    && j < |r.actions| && j < |r.states| && r.actions[j] == Informer(ObserveReferrer(x, v))
    && ReferrerLog(r.states[j], x).Cached() == was
    && v < |ReferrerLog(r.states[j], x).versions| && ReferrerLog(r.states[j], x).versions[v] == now
  }

  /** The run forgets `k`, and step `j` apart it shows no update that silently drops `k`. */
  ghost predicate ForgetsBut(c: Config, r: Run, j: nat, k: Key) {
    && IsRun(c, r) && Forgotten(c, r.states[|r.states| - 1], k)
    && forall i :: 0 <= i < |r.actions| && i != j ==> Faithful(c, r.states[i], r.actions[i], k)
  }

  /** A run that forgets `k` because of nothing but the update of `x` from `was` to `now`. */
  ghost predicate Forgets(c: Config, r: Run, x: Key, v: nat, was: Option<Referrer>, now: Option<Referrer>, k: Key) {
    exists j: nat :: ShowsAt(r, j, x, v, was, now) && ForgetsBut(c, r, j, k)
  }

  lemma Unnoticed(c: Config, k: Key, x: Key, vs: seq<Option<Referrer>>, a: nat, v: nat, dirty: set<Key>,
                  r: Run) returns (r': Run)
    requires 1 <= a < v < |vs| && vs[a].Some? && vs[v].Some? && Silent(c, x, vs[a].value, vs[v].value, k) && k !in dirty
    requires Reaches(c, r, Pair(k, x, Show(Gone(c), 2), Past(vs, v + 1, a), dirty), k)
    ensures Forgets(c, r', x, v, vs[a], vs[v], k)
  {
    var j, s0 := |r.actions|, Pair(k, x, Show(Gone(c), 2), Past(vs, v + 1, a), dirty);
    var e := Event(x, vs[a], vs[v]);
    var p := Pair(k, x, Show(Gone(c), 2), Past(vs, v + 1, v), dirty);
    var s1 := p.(referrerEvents := {e});
    var r1 := Extend(c, r, Informer(ObserveReferrer(x, v)));
    ExtendRun(c, r, s0, Informer(ObserveReferrer(x, v)), s1);
    var s2 := p.(dirty := dirty + WokenBy(c, s1, e));
    ExtendRun(c, r1, s1, Informer(DeliverReferrer(e)), s2);
    r' := Extend(c, r1, Informer(DeliverReferrer(e)));
    assert Forgotten(c, s2, k);
    FaithfulButOne(c, r, s0, Informer(ObserveReferrer(x, v)), s1, Informer(DeliverReferrer(e)), k);
    assert r'.states[j] == s0;
    assert ShowsAt(r', j, x, v, vs[a], vs[v]);
  }

  /** Two more steps, the second of them faithful. */
  lemma FaithfulButOne(c: Config, r: Run, s: State, a: Action, t: State, b: Action, k: Key)
    requires Reaches(c, r, s, k) && Enabled(c, s, a) && EndsIn(c, Extend(c, r, a), t) && Enabled(c, t, b)
    requires Faithful(c, t, b, k)
    requires IsRun(c, Extend(c, Extend(c, r, a), b))
    ensures var r' := Extend(c, Extend(c, r, a), b);
            forall i :: 0 <= i < |r'.actions| && i != |r.actions| ==> Faithful(c, r'.states[i], r'.actions[i], k)
  {
    var r' := Extend(c, Extend(c, r, a), b);
    var n := |r.actions|;
    forall i | 0 <= i < |r'.actions| && i != n
      ensures Faithful(c, r'.states[i], r'.actions[i], k)
    {
      if i < n {
        assert r'.states[i] == r.states[i] && r'.actions[i] == r.actions[i];
      } else {
        assert r'.states[i] == t && r'.actions[i] == b;
      }
    }
  }

  /**
   Every silent update loses the wake-up in some run: whatever history a referrer can have, if the
   informer shows its version `v` after version `a` and that update silently drops `k`, then `k` can
   be forgotten because of it.
   */
  lemma SilentUpdateForgets(c: Config, k: Key, x: Key, vs: seq<Option<Referrer>>, a: nat, v: nat) returns (r: Run)
    requires Legal(vs) && 1 <= a < v < |vs| && vs[a].Some? && vs[v].Some? && Silent(c, x, vs[a].value, vs[v].value, k)
    ensures Forgets(c, r, x, v, vs[a], vs[v], k)
  {
    var dirty;
    r, dirty := HeldBack(c, k, x, vs, a);
    var p := Pair(k, x, Show(Gone(c), 2), Past(vs, a + 1, a), dirty);
    r := Written(c, r, p, k, x, vs, a, a + 1, v + 1);
    assert Recorded(p, x, Past(vs, v + 1, a)) == Pair(k, x, Show(Gone(c), 2), Past(vs, v + 1, a), dirty);
    r := Unnoticed(c, k, x, vs, a, v, dirty, r);
  }

  /**
   The exact condition: an update in the history of a referrer can by itself make `k` forgotten if
   and only if it silently drops `k`.
   */
  lemma ForgetsIffSilent(c: Config, k: Key, x: Key, vs: seq<Option<Referrer>>, a: nat, v: nat)
    requires Legal(vs) && 1 <= a < v < |vs| && vs[a].Some? && vs[v].Some?
    ensures (exists r :: Forgets(c, r, x, v, vs[a], vs[v], k)) <==> Silent(c, x, vs[a].value, vs[v].value, k)
  {
    if Silent(c, x, vs[a].value, vs[v].value, k) {
      var r := SilentUpdateForgets(c, k, x, vs, a, v);
    }
    if r :| Forgets(c, r, x, v, vs[a], vs[v], k) {
      ForgettingIsSilent(c, r, x, v, vs[a].value, vs[v].value, k);
    }
  }

  lemma ForgettingIsSilent(c: Config, r: Run, x: Key, v: nat, o: Referrer, n: Referrer, k: Key)
    requires Forgets(c, r, x, v, Some(o), Some(n), k)
    ensures Silent(c, x, o, n, k)
  {
    var j: nat :| ShowsAt(r, j, x, v, Some(o), Some(n)) && ForgetsBut(c, r, j, k);
    ForgottenIsUnattended(c, r.states[|r.states| - 1], k);
    if !Silent(c, x, o, n, k) {
      assert FaithfulRun(c, r, k);
      NoLostWakeup(c, r, k);
    }
  }

  /**
   So faithfulness is not only enough for attendance but needed: the update that makes a step of any
   run unfaithful to `k` can by itself make `k` forgotten.
   */
  lemma UnfaithfulStepsForget(c: Config, r: Run, i: nat, k: Key) returns (r': Run)
    requires IsRun(c, r) && i < |r.actions| && !Faithful(c, r.states[i], r.actions[i], k)
    ensures r.actions[i].Informer? && r.actions[i].notice.ObserveReferrer?
    ensures var x, v := r.actions[i].notice.key, r.actions[i].notice.version;
            var h := ReferrerLog(r.states[i], x);
            v < |h.versions| && Forgets(c, r', x, v, h.Cached(), h.versions[v], k)
  {
    var x, v := r.actions[i].notice.key, r.actions[i].notice.version;
    var h := ReferrerLog(r.states[i], x);
    LegalRun(c, r, i, x);
    r' := SilentUpdateForgets(c, k, x, h.versions, h.seen, v);
  }

  /**
   For instance: an HTTPRoute with the Gateway as its parent is deleted and re-created without it,
   and the informer shows the two as one update.
   */
  lemma FoldedRecreationLosesWakeup(c: Config, k: Key, x: Key) returns (r: Run)
    requires c.kind.GatewayKind?
    ensures Forgets(c, r, x, 3, Some(Referrer(1, 1, 0, false, {k})), Some(Referrer(3, 1, 0, false, {})), k)
  {
    var vs := [None, Some(Referrer(1, 1, 0, false, {k})), None, Some(Referrer(3, 1, 0, false, {}))];
    assert vs[..1] == [None] && |vs[..2]| == 2 && |vs[..3]| == 3;
    r := SilentUpdateForgets(c, k, x, vs, 1, 3);
  }

  /** And an XAccessPolicy that drops the XBackend from its targets in place. */
  lemma NarrowedPolicyLosesWakeup(c: Config, k: Key, x: Key) returns (r: Run)
    requires c.kind.BackendKind?
    ensures Forgets(c, r, x, 2, Some(Referrer(1, 1, 0, false, {k})), Some(Referrer(1, 2, 0, false, {})), k)
  {
    var vs := [None, Some(Referrer(1, 1, 0, false, {k})), Some(Referrer(1, 2, 0, false, {}))];
    assert vs[..1] == [None] && |vs[..2]| == 2;
    r := SilentUpdateForgets(c, k, x, vs, 1, 2);
  }

  // ---------------------------------------------------------------- Shared proxy names

  lemma Announced(c: Config, j: Key) returns (r: Run)
    ensures EndsIn(c, r, Alone(c, j).(dirty := {j}))
  {
    var g, a := Gateway(c), Alone(c, j);
    r := Run([INITIAL], []);
    var s1 := INITIAL.(owners := map[j := Write(Fresh(), Some(g))]);
    ExtendRun(c, r, INITIAL, User(CreateOwner(j, g)), s1);
    r := Extend(c, r, User(CreateOwner(j, g)));
    ExtendRun(c, r, s1, Informer(ObserveOwner(j, 1)), a);
    r := Extend(c, r, Informer(ObserveOwner(j, 1)));
    ExtendRun(c, r, a, Poke(j), a.(dirty := {j}));
    r := Extend(c, r, Poke(j));
  }

  /** A pinned Gateway, alone in the world, about to be worked on. */
  lemma Arrived(c: Config, j: Key) returns (r: Run)
    requires c.kind.GatewayKind?
    ensures EndsIn(c, r, Alone(c, j).(workers := map[j := Building(1, CREATE_ORDER)]))
  {
    var a := Alone(c, j);
    r := Announced(c, j);
    ExtendRun(c, r, a.(dirty := {j}), Take(j), a.(workers := map[j := Start]));
    r := Extend(c, r, Take(j));
    ExtendRun(c, r, a.(workers := map[j := Start]), Work(j, ReadOwner),
        a.(workers := map[j := Building(1, CREATE_ORDER)]));
    r := Extend(c, r, Work(j, ReadOwner));
  }

  function Alone(c: Config, j: Key): State {
    INITIAL.(owners := map[j := Show(Write(Fresh(), Some(Gateway(c))), 1)],
        ownerEvents := {Event(j, None, Some(Gateway(c)))})
  }

  /** Two names with one hash: the proxy of the one exists for the other, which does not. */
  lemma SharedNameSharesProxy(c: Config, j: Key, k: Key) returns (r: Run, s: State)
    requires c.kind.GatewayKind? && j != k && c.node(j) == c.node(k)
    ensures IsRun(c, r) && s in r.states && Parts(c, s, k) != {} && OwnerLog(s, k).Last().None?
  {
    r := Arrived(c, j);
    var a := Alone(c, j).(workers := map[j := Building(1, CREATE_ORDER)]);
    s := Step(c, a, Work(j, CreatePart(Applied)));
    ExtendRun(c, r, a, Work(j, CreatePart(Applied)), s);
    r := Extend(c, r, Work(j, CreatePart(Applied)));
    assert ServiceAccount in Parts(c, s, k);
  }

  /** In every run a proxy belongs to a pinned Gateway of its own. */
  ghost predicate EveryProxyIsOwn(c: Config) {
    forall r, s, k :: IsRun(c, r) && s in r.states && Parts(c, s, k) != {} ==> Pinned(c, OwnerLog(s, k).Last())
  }

  /** That, unlike the theorem about names, holds if and only if no two Gateways share a name. */
  lemma OwnProxiesIffDistinctNames(c: Config)
    requires c.kind.GatewayKind?
    ensures EveryProxyIsOwn(c) <==> forall j, k :: c.node(j) == c.node(k) ==> j == k
  {
    if forall j, k :: c.node(j) == c.node(k) ==> j == k {
      forall r, s, k | IsRun(c, r) && s in r.states && Parts(c, s, k) != {}
        ensures Pinned(c, OwnerLog(s, k).Last())
      {
        OwnProxyIsPinned(c, r, s, k);
      }
    } else {
      var j, k :| c.node(j) == c.node(k) && j != k;
      var r, s := SharedNameSharesProxy(c, j, k);
    }
  }
}
