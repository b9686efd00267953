/**
 No lost wake-up: an owner that is being deleted and still carries the finalizer is never
 forgotten. Either a cached referrer holds it back, or its key is queued, being worked on, or
 about to be queued by a notification that is on its way.
 */
module FinalizerWakeups {
  import opened Options
  import opened Names
  import opened FinalizerProtocol
  import opened FinalizerSafety

  /** Being deleted, this controller's business, and waiting for its finalizer to go. */
  predicate Doomed(c: Config, o: Option<Owner>) {
    o.Some? && o.value.deleting && Owned(c, o.value) && Pinned(c, o)
  }

  ghost predicate OwnerEventPending(c: Config, s: State, k: Key) {
    exists e :: e in s.ownerEvents && e.key == k && OwnerEventWakes(c, e)
  }

  ghost predicate ReferrerEventPending(c: Config, s: State, k: Key) {
    exists e :: e in s.referrerEvents && k in EventTargets(c, e)
  }

  ghost predicate Signalled(c: Config, s: State, k: Key) {
    || k in s.dirty
    || k in s.delayed
    || OwnerEventPending(c, s, k)
    || ReferrerEventPending(c, s, k)
    || ReferencedInCache(s, k)
  }

  /** The worker has yet to look, is tearing down version `n` itself, or will come back. */
  predicate Heeding(pc: Pc, n: nat) {
    match pc
    case Start => true
    case Listing(v) => v == n
    case Tearing(v, _) => v == n
    case Unpinning(v) => v == n
    case Finished(_, retry) => retry
    case _ => false
  }

  /** Once the cache has caught up with a doomed owner, somebody is in charge of it. */
  ghost predicate Attended(c: Config, s: State, k: Key) {
    var h := OwnerLog(s, k);
    h.Current() && Doomed(c, h.Last()) ==>
      Signalled(c, s, k) || (k in s.workers && Heeding(s.workers[k], h.seen))
  }

  // ---------------------------------------------------------------- Referrers over time

  ghost predicate SameIncarnation(vs: seq<Option<Referrer>>, a: nat, b: nat)
    requires a <= b < |vs|
  {
    vs[a].Some? && vs[b].Some? && vs[a].value.uid == vs[b].value.uid
  }

  /** Within one incarnation the generation never falls, and moves when the targets do. */
  ghost predicate GenerationsCount(vs: seq<Option<Referrer>>) {
    && (forall a :: 0 <= a < |vs| && vs[a].Some? ==> vs[a].value.uid <= a)
    && (forall a, b :: 0 <= a <= b < |vs| && SameIncarnation(vs, a, b) ==>
          && vs[a].value.generation <= vs[b].value.generation
          && (vs[a].value.generation == vs[b].value.generation ==> vs[a].value.targets == vs[b].value.targets))
  }

  /** What may follow the last version of a referrer. */
  predicate LegalNext(vs: seq<Option<Referrer>>, x: Option<Referrer>)
    requires |vs| > 0
  {
    match (vs[|vs| - 1], x)
    case (None, None) => false
    case (None, Some(n)) => n.uid == |vs|
    case (Some(_), None) => true
    case (Some(o), Some(n)) => MayReplaceReferrer(o, n)
  }

  /** The histories a referrer can have. */
  predicate Legal(vs: seq<Option<Referrer>>) {
    |vs| > 0 && vs[0].None? && forall i :: 1 <= i < |vs| ==> LegalNext(vs[..i], vs[i])
  }

  lemma LegalGrows(vs: seq<Option<Referrer>>, x: Option<Referrer>)
    requires Legal(vs) && LegalNext(vs, x)
    ensures Legal(vs + [x])
  {
    var ws := vs + [x];
    forall i | 1 <= i < |ws|
      ensures LegalNext(ws[..i], ws[i])
    {
      assert ws[..i] == vs[..i];
      assert i == |vs| ==> vs[..i] == vs;
    }
  }

  lemma GenerationsKeepCounting(vs: seq<Option<Referrer>>, x: Option<Referrer>)
    requires |vs| > 0 && GenerationsCount(vs) && LegalNext(vs, x)
    ensures GenerationsCount(vs + [x])
  {
    var ws, n := vs + [x], |vs|;
    forall a, b | 0 <= a <= b <= n && SameIncarnation(ws, a, b)
      ensures ws[a].value.generation <= ws[b].value.generation
      ensures ws[a].value.generation == ws[b].value.generation ==> ws[a].value.targets == ws[b].value.targets
    {
      if b < n {
        assert SameIncarnation(vs, a, b);
      } else if a < n {
        assert SameIncarnation(vs, a, n - 1);
      }
    }
  }

  lemma {:induction false} LegalCounts(vs: seq<Option<Referrer>>)
    requires Legal(vs)
    ensures GenerationsCount(vs)
  {
    if |vs| > 1 {
      var n := |vs| - 1;
      assert forall i :: 1 <= i < n ==> vs[..n][..i] == vs[..i];
      LegalCounts(vs[..n]);
      GenerationsKeepCounting(vs[..n], vs[n]);
      assert vs == vs[..n] + [vs[n]];
    }
  }

  lemma UpdatesTouchOneObject(s: State, k: Key, v: nat, x: Option<Owner>, outcome: Outcome)
    ensures var t := TryWrite(s, k, v, x, outcome);
            t == s.(owners := t.owners, workers := t.workers)
  {
  }

  lemma WorkersLeaveReferrersAlone(c: Config, s: State, k: Key, m: Move)
    requires k in s.workers && MoveNext(s.workers[k], m)
    ensures Advance(c, s, k, m).referrers == s.referrers
    ensures Advance(c, s, k, m).ownerEvents == s.ownerEvents
    ensures Advance(c, s, k, m).referrerEvents == s.referrerEvents
    ensures s.dirty <= Advance(c, s, k, m).dirty
    ensures s.delayed <= Advance(c, s, k, m).delayed
  {
    var h, v := OwnerLog(s, k), if m.ReadOwner? then 0 else s.workers[k].v;
    match m
    case Unpin(outcome) => UpdatesTouchOneObject(s, k, v, Unpinned(c, h, v), outcome);
    case Pin(outcome) => UpdatesTouchOneObject(s, k, v, Repinned(c, h, v), outcome);
    case Publish(_, fails) => UpdatesTouchOneObject(s, k, v, h.Last(), if fails then FailedAfter else Applied);
    case _ =>
  }

  lemma LegalChange(c: Config, s: State, e: Change, x: Key)
    requires ChangeAllowed(c, s, e) && Legal(ReferrerLog(s, x).versions)
    ensures Legal(ReferrerLog(Apply(c, s, e), x).versions)
  {
    var vs := ReferrerLog(s, x).versions;
    match e
    case CreateReferrer(j, y) => if j == x { LegalGrows(vs, Some(y)); }
    case UpdateReferrer(j, y) => if j == x { LegalGrows(vs, Some(y)); }
    case DeleteReferrer(j) => if j == x { LegalGrows(vs, None); }
    case _ =>
  }

  lemma LegalStep(c: Config, s: State, a: Action, x: Key)
    requires Enabled(c, s, a) && Legal(ReferrerLog(s, x).versions)
    ensures Legal(ReferrerLog(Step(c, s, a), x).versions)
  {
    match a
    case User(e) => LegalChange(c, s, e, x);
    case Work(k, m) => WorkersLeaveReferrersAlone(c, s, k, m);
    case _ => assert ReferrerLog(Step(c, s, a), x).versions == ReferrerLog(s, x).versions;
  }

  // ---------------------------------------------------------------- The invariant

  /** The update drops `k` from the targets of a referrer, and its handler does not look at `k`. */
  predicate Silent(c: Config, x: Key, o: Referrer, n: Referrer, k: Key) {
    k in o.targets && k !in n.targets && k !in EventTargets(c, Event(x, Some(o), Some(n)))
  }

  /** The step is not the observation of an update that silently drops `k`. */
  ghost predicate Faithful(c: Config, s: State, a: Action, k: Key)
    requires Enabled(c, s, a)
  {
    match a
    case Informer(ObserveReferrer(x, v)) =>
      var h := ReferrerLog(s, x);
      h.Cached().Some? && h.versions[v].Some? ==> !Silent(c, x, h.Cached().value, h.versions[v].value, k)
    case _ => true
  }

  lemma AttendedChange(c: Config, s: State, e: Change, k: Key)
    requires ChangeAllowed(c, s, e) && Attended(c, s, k)
    ensures Attended(c, Apply(c, s, e), k)
  {
    var t := Apply(c, s, e);
    if OwnerLog(t, k) == OwnerLog(s, k) && ReferencedInCache(s, k) {
      var r :| r in s.referrers && s.referrers[r].Cached().Some? && k in s.referrers[r].Cached().value.targets;
      assert t.referrers[r].Cached() == s.referrers[r].Cached();
    }
  }

  lemma AttendedObserveOwner(c: Config, s: State, e: Notice, k: Key)
    requires e.ObserveOwner? && NoticeDue(s, e) && Attended(c, s, k)
    ensures Attended(c, Notify(c, s, e), k)
  {
    var t := Notify(c, s, e);
    if e.key == k {
      var n := Event(k, OwnerLog(s, k).Cached(), OwnerLog(s, k).versions[e.version]);
      assert n in t.ownerEvents;
      assert Doomed(c, n.now) ==> OwnerEventWakes(c, n);
    }
  }

  /** A reference that disappears from the cache leaves a notification behind. */
  lemma AttendedObserveReferrer(c: Config, s: State, e: Notice, k: Key)
    requires e.ObserveReferrer? && NoticeDue(s, e) && Attended(c, s, k) && Faithful(c, s, Informer(e), k)
    ensures Attended(c, Notify(c, s, e), k)
  {
    var t := Notify(c, s, e);
    var h := ReferrerLog(s, e.key);
    var n := Event(e.key, h.Cached(), h.versions[e.version]);
    assert n in t.referrerEvents;
    if ReferencedInCache(s, k) {
      var r :| r in s.referrers && s.referrers[r].Cached().Some? && k in s.referrers[r].Cached().value.targets;
      if r != e.key {
        assert t.referrers[r] == s.referrers[r];
      } else if n.now.Some? && k in n.now.value.targets {
        assert t.referrers[r].Cached() == n.now;
      } else {
        assert k in EventTargets(c, n);
      }
    }
  }

  lemma AttendedDeliver(c: Config, s: State, e: Notice, k: Key)
    requires (e.DeliverOwner? || e.DeliverReferrer?) && NoticeDue(s, e) && Attended(c, s, k)
    ensures Attended(c, Notify(c, s, e), k)
  {
    var t := Notify(c, s, e);
    if OwnerEventPending(c, s, k) {
      var n :| n in s.ownerEvents && n.key == k && OwnerEventWakes(c, n);
      assert n in t.ownerEvents || k in t.dirty;
    }
    if ReferrerEventPending(c, s, k) && OwnerLog(s, k).Cached().Some? {
      var n :| n in s.referrerEvents && k in EventTargets(c, n);
      assert n in t.referrerEvents || k in t.dirty;
    }
  }

  lemma StillSignalled(c: Config, s: State, k: Key, m: Move)
    requires k in s.workers && MoveNext(s.workers[k], m) && Signalled(c, s, k)
    ensures Signalled(c, Advance(c, s, k, m), k)
  {
    WorkersLeaveReferrersAlone(c, s, k, m);
  }

  /** A status write or one for the finalizer: the object moves on, or the worker comes back. */
  lemma AttendedWrite(c: Config, s: State, m: Move, k: Key)
    requires k in s.workers && MoveNext(s.workers[k], m) && (m.Unpin? || m.Pin? || m.Publish?)
    requires SafeKey(c, s, k) && Attended(c, s, k) && !Signalled(c, s, k)
    ensures Attended(c, Advance(c, s, k, m), k)
  {
  }

  lemma AttendedMove(c: Config, s: State, m: Move, k: Key)
    requires k in s.workers && MoveNext(s.workers[k], m)
    requires SafeKey(c, s, k) && Attended(c, s, k)
    ensures Attended(c, Advance(c, s, k, m), k)
  {
    if Signalled(c, s, k) {
      StillSignalled(c, s, k, m);
    } else if m.Unpin? || m.Pin? || m.Publish? {
      AttendedWrite(c, s, m, k);
    } else {
      assert OwnerLog(Advance(c, s, k, m), k) == OwnerLog(s, k);
      assert m.ListReferrers? ==> !ReferencedInCache(s, k);
    }
  }

  lemma AttendedRestart(c: Config, s: State, k: Key)
    ensures Attended(c, Restarted(s), k)
  {
    var h := OwnerLog(s, k);
    if Doomed(c, h.Last()) {
      assert Event(k, None, h.Last()) in Restarted(s).ownerEvents;
    }
  }

  lemma AttendedStep(c: Config, s: State, a: Action, k: Key)
    requires Enabled(c, s, a) && Faithful(c, s, a, k)
    requires SafeKey(c, s, k) && Attended(c, s, k)
    ensures Attended(c, Step(c, s, a), k)
  {
    match a
    case User(e) => AttendedChange(c, s, e, k);
    case Informer(ObserveOwner(_, _)) => AttendedObserveOwner(c, s, a.notice, k);
    case Informer(ObserveReferrer(_, _)) => AttendedObserveReferrer(c, s, a.notice, k);
    case Informer(_) => AttendedDeliver(c, s, a.notice, k);
    case Work(j, m) =>
      if j == k {
        AttendedMove(c, s, m, k);
      } else {
        MoveOfAnotherKey(c, s, j, m, k);
      }
    case Restart => AttendedRestart(c, s, k);
    case Poke(_) => assert Signalled(c, s, k) ==> Signalled(c, Step(c, s, a), k);
    case Mature(_) => assert Signalled(c, s, k) ==> Signalled(c, Step(c, s, a), k);
    case Take(j) => assert Signalled(c, s, k) && j != k ==> Signalled(c, Step(c, s, a), k);
  }

  // ---------------------------------------------------------------- Whole runs

  ghost predicate FaithfulRun(c: Config, r: Run, k: Key)
    requires IsRun(c, r)
  {
    forall i :: 0 <= i < |r.actions| ==> Faithful(c, r.states[i], r.actions[i], k)
  }

  lemma {:induction false} AttendedRun(c: Config, r: Run, i: nat, k: Key)
    requires IsRun(c, r) && FaithfulRun(c, r, k) && i < |r.states|
    ensures Attended(c, r.states[i], k)
  {
    if i > 0 {
      AttendedRun(c, r, i - 1, k);
      SafeRun(c, r, i - 1, k);
      AttendedStep(c, r.states[i - 1], r.actions[i - 1], k);
    }
  }

  /** Nothing is under way and every cache shows what the API server holds. */
  ghost predicate Quiescent(s: State) {
    && s.dirty == {} && s.delayed == {} && s.workers == map[]
    && s.ownerEvents == {} && s.referrerEvents == {}
    && (forall k :: OwnerLog(s, k).Current())
    && (forall r :: ReferrerLog(s, r).Current())
  }

  ghost predicate ReferencedAtServer(s: State, k: Key) {
    exists r :: r in s.referrers && s.referrers[r].Last().Some? && k in s.referrers[r].Last().value.targets
  }

  /**
   In every state of every run in which no reference to it vanishes silently, a doomed owner is
   not yet in the cache, or signalled, or in the hands of a worker that deals with it.
   */
  lemma NoLostWakeup(c: Config, r: Run, k: Key)
    requires IsRun(c, r) && FaithfulRun(c, r, k)
    ensures forall s :: s in r.states ==> Attended(c, s, k)
  {
    forall s | s in r.states
      ensures Attended(c, s, k)
    {
      var i :| 0 <= i < |r.states| && r.states[i] == s;
      AttendedRun(c, r, i, k);
    }
  }

  /** While the cache still lags behind a doomed owner, the news to come puts it on the queue. */
  lemma LateNewsWakes(c: Config, s: State, k: Key)
    requires !OwnerLog(s, k).Current() && Doomed(c, OwnerLog(s, k).Last())
    ensures var news := Informer(ObserveOwner(k, |OwnerLog(s, k).versions| - 1));
            Enabled(c, s, news) && OwnerEventPending(c, Step(c, s, news), k)
  {
    var h, v := OwnerLog(s, k), |OwnerLog(s, k).versions| - 1;
    var e := Event(k, h.Cached(), h.versions[v]);
    assert e in Step(c, s, Informer(ObserveOwner(k, v))).ownerEvents && OwnerEventWakes(c, e);
  }

  /** So when all is quiet, an owner stuck in deletion really has a referrer at the API server. */
  lemma QuietMeansReferenced(c: Config, r: Run, s: State, k: Key)
    requires IsRun(c, r) && FaithfulRun(c, r, k)
    requires s in r.states && Quiescent(s) && Doomed(c, OwnerLog(s, k).Last())
    ensures ReferencedAtServer(s, k)
  {
    NoLostWakeup(c, r, k);
    assert Attended(c, s, k) && OwnerLog(s, k).Current();
    assert ReferencedInCache(s, k);
    var x :| x in s.referrers && s.referrers[x].Cached().Some? && k in s.referrers[x].Cached().value.targets;
    assert ReferrerLog(s, x).Current();
    assert s.referrers[x].Last() == s.referrers[x].Cached();
  }

  // ---------------------------------------------------------------- Which updates are silent

  lemma {:induction false} LegalRun(c: Config, r: Run, i: nat, x: Key)
    requires IsRun(c, r) && i < |r.states|
    ensures Legal(ReferrerLog(r.states[i], x).versions)
  {
    if i > 0 {
      LegalRun(c, r, i - 1, x);
      LegalStep(c, r.states[i - 1], r.actions[i - 1], x);
    }
  }

  /** The informer never shows an HTTPRoute's re-creation under the same name as an update. */
  ghost predicate NoFoldedRecreation(s: State, a: Action) {
    match a
    case Informer(ObserveReferrer(x, v)) =>
      var h := ReferrerLog(s, x);
      v < |h.versions| && h.Cached().Some? && h.versions[v].Some? ==> h.Cached().value.uid == h.versions[v].value.uid
    case _ => true
  }

  /**
   Updates of one and the same HTTPRoute are never silent, because its generation moves with its
   parents: without folded re-creations every run is faithful to every Gateway.
   */
  lemma RoutesInPlaceAreFaithful(c: Config, r: Run, k: Key)
    requires c.kind.GatewayKind? && IsRun(c, r)
    requires forall i :: 0 <= i < |r.actions| ==> NoFoldedRecreation(r.states[i], r.actions[i])
    ensures FaithfulRun(c, r, k)
  {
    forall i | 0 <= i < |r.actions|
      ensures Faithful(c, r.states[i], r.actions[i], k)
    {
      var s, a := r.states[i], r.actions[i];
      if a.Informer? && a.notice.ObserveReferrer? {
        var h, v := ReferrerLog(s, a.notice.key), a.notice.version;
        LegalRun(c, r, i, a.notice.key);
        LegalCounts(h.versions);
        if h.Cached().Some? && h.versions[v].Some? {
          assert SameIncarnation(h.versions, h.seen, v);
        }
      }
    }
  }
}
