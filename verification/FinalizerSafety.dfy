/**
 No orphan proxy: whatever the interleaving, while any proxy resource exists, the API server holds
 a Gateway that the resource is named after, with this controller's finalizer on it.
 */
module FinalizerSafety {
  import opened Options
  import opened Names
  import opened FinalizerProtocol
  import Finalizers

  ghost predicate PinnedForGood(c: Config, h: Log<Owner>, a: nat)
    requires h.seen <= a < |h.versions|
  {
    Pinned(c, h.versions[a]) && (a > h.seen || !h.versions[a].value.deleting)
  }

  /**
   The finalizer is only ever taken off a version that is being deleted and that the cache has
   shown, so beyond the cached version it never goes away, and not from the cached version
   either unless that one is being deleted.
   */
  ghost predicate NoStripAhead(c: Config, h: Log<Owner>) {
    forall a, b :: h.seen <= a <= b < |h.versions| && PinnedForGood(c, h, a) ==> Pinned(c, h.versions[b])
  }

  /** What a worker at `pc` knows about its object. */
  ghost predicate SafePc(c: Config, s: State, k: Key, pc: Pc) {
    var h := OwnerLog(s, k);
    && (!pc.Start? ==> pc.v <= h.seen)
    && match pc
       case Start => true
       case Listing(v) => h.versions[v].Some? && h.versions[v].value.deleting
       case Tearing(v, left) => c.kind.GatewayKind? && (h.versions[v].Some? ==> h.versions[v].value.deleting)
       case Unpinning(v) => Pinned(c, h.versions[v]) && h.versions[v].value.deleting
       case Pinning(v) => h.versions[v].Some? && !h.versions[v].value.deleting
       case Building(v, _) => c.kind.GatewayKind? && forall j :: v <= j < |h.versions| ==> Pinned(c, h.versions[j])
       case Finished(_, _) => true
  }

  ghost predicate SafeKey(c: Config, s: State, k: Key) {
    && NoStripAhead(c, OwnerLog(s, k))
    && (k in s.workers ==> SafePc(c, s, k, s.workers[k]))
  }

  /** Same versions, same worker: the key is as safe as before. */
  lemma SafeFrame(c: Config, s: State, t: State, k: Key)
    requires SafeKey(c, s, k)
    requires OwnerLog(t, k) == OwnerLog(s, k)
    requires k in t.workers ==> k in s.workers && t.workers[k] == s.workers[k]
    ensures SafeKey(c, t, k)
  {
  }

  /** A worker that moves without touching the API server or the proxy. */
  lemma SafeGoto(c: Config, s: State, k: Key, pc: Pc)
    requires NoStripAhead(c, OwnerLog(s, k)) && SafePc(c, s, k, pc)
    ensures SafeKey(c, Goto(s, k, pc), k)
  {
    assert OwnerLog(Goto(s, k, pc), k) == OwnerLog(s, k);
  }

  /** Any write that leaves the finalizer where it is. */
  lemma SafeWrite(c: Config, s: State, k: Key, x: Option<Owner>)
    requires SafeKey(c, s, k)
    requires Pinned(c, OwnerLog(s, k).Last()) ==> Pinned(c, x)
    ensures SafeKey(c, WriteOwner(s, k, x), k)
  {
    var h, t := OwnerLog(s, k), WriteOwner(s, k, x);
    var h' := OwnerLog(t, k);
    assert h' == Write(h, x) && forall j :: 0 <= j < |h.versions| ==> h'.versions[j] == h.versions[j];
    var n := |h.versions|;
    forall a, b | h'.seen <= a <= b < n + 1 && PinnedForGood(c, h', a)
      ensures Pinned(c, h'.versions[b])
    {
      if a < n {
        assert PinnedForGood(c, h, a) && Pinned(c, h.versions[n - 1]);
      }
    }
  }

  lemma SafeShow(c: Config, h: Log<Owner>, v: nat)
    requires NoStripAhead(c, h) && h.seen <= v < |h.versions|
    ensures NoStripAhead(c, Show(h, v))
  {
    forall a, b | v <= a <= b < |h.versions| && PinnedForGood(c, Show(h, v), a)
      ensures Pinned(c, h.versions[b])
    {
      assert PinnedForGood(c, h, a);
    }
  }

  lemma SafeChange(c: Config, s: State, e: Change, k: Key)
    requires ChangeAllowed(c, s, e) && SafeKey(c, s, k)
    ensures SafeKey(c, Apply(c, s, e), k)
  {
    if e.key != k {
      SafeFrame(c, s, Apply(c, s, e), k);
    } else {
      match e
      case CreateOwner(_, o) => SafeWrite(c, s, k, Some(o));
      case UpdateOwner(_, o) => SafeWrite(c, s, k, Stored(o));
      case DeleteOwner(_) => SafeWrite(c, s, k, Deleted(OwnerLog(s, k).Last().value));
      case _ =>
    }
  }

  lemma SafeNotice(c: Config, s: State, e: Notice, k: Key)
    requires NoticeDue(s, e) && SafeKey(c, s, k)
    ensures SafeKey(c, Notify(c, s, e), k)
  {
    if e.ObserveOwner? && e.key == k {
      SafeShow(c, OwnerLog(s, k), e.version);
    } else {
      SafeFrame(c, s, Notify(c, s, e), k);
    }
  }

  lemma SafeRestart(c: Config, s: State, k: Key)
    requires SafeKey(c, s, k)
    ensures SafeKey(c, Restarted(s), k)
  {
    var h := OwnerLog(s, k);
    SafeShow(c, h, |h.versions| - 1);
  }

  lemma SafeRead(c: Config, s: State, m: Move, k: Key)
    requires k in s.workers && MoveNext(s.workers[k], m) && SafeKey(c, s, k)
    requires m.ReadOwner? || m.ListReferrers?
    ensures SafeKey(c, Advance(c, s, k, m), k)
  {
    var h := OwnerLog(s, k);
    if m.ReadOwner? && Pinned(c, h.Cached()) && !h.Cached().value.deleting {
      assert PinnedForGood(c, h, h.seen);
    }
    SafeGoto(c, s, k, Advance(c, s, k, m).workers[k]);
  }

  lemma SafeProxyCall(c: Config, s: State, m: Move, k: Key)
    requires k in s.workers && MoveNext(s.workers[k], m) && SafeKey(c, s, k)
    requires m.DeletePart? || m.CreatePart?
    ensures SafeKey(c, Advance(c, s, k, m), k)
  {
    assert OwnerLog(Advance(c, s, k, m), k) == OwnerLog(s, k);
  }

  /** Taking the finalizer off: the version written over is the cached one. */
  lemma SafeStrip(c: Config, s: State, k: Key, x: Option<Owner>)
    requires SafeKey(c, s, k) && k in s.workers && s.workers[k].Unpinning?
    requires s.workers[k].v + 1 == |OwnerLog(s, k).versions|
    ensures NoStripAhead(c, OwnerLog(WriteOwner(s, k, x), k))
  {
    var h := OwnerLog(s, k);
    var h' := OwnerLog(WriteOwner(s, k, x), k);
    assert h' == Write(h, x) && !PinnedForGood(c, h', h'.seen);
  }

  lemma SafeUpdate(c: Config, s: State, k: Key, x: Option<Owner>, outcome: Outcome)
    requires k in s.workers && !s.workers[k].Start? && SafeKey(c, s, k)
    requires s.workers[k].Unpinning? || (Pinned(c, OwnerLog(s, k).Last()) ==> Pinned(c, x))
    ensures SafeKey(c, TryWrite(s, k, s.workers[k].v, x, outcome), k)
  {
    var t := TryWrite(s, k, s.workers[k].v, x, outcome);
    if OwnerLog(t, k) == OwnerLog(s, k) {
      SafeGoto(c, s, k, t.workers[k]);
    } else {
      if s.workers[k].Unpinning? {
        SafeStrip(c, s, k, x);
      } else {
        SafeWrite(c, s, k, x);
      }
      SafeGoto(c, WriteOwner(s, k, x), k, t.workers[k]);
    }
  }

  lemma SafeMove(c: Config, s: State, m: Move, k: Key)
    requires k in s.workers && MoveNext(s.workers[k], m) && SafeKey(c, s, k)
    ensures SafeKey(c, Advance(c, s, k, m), k)
  {
    var h := OwnerLog(s, k);
    match m
    case ReadOwner => SafeRead(c, s, m, k);
    case ListReferrers => SafeRead(c, s, m, k);
    case DeletePart(_) => SafeProxyCall(c, s, m, k);
    case CreatePart(_) => SafeProxyCall(c, s, m, k);
    case Unpin(outcome) => SafeUpdate(c, s, k, Unpinned(c, h, s.workers[k].v), outcome);
    case Pin(outcome) => SafeUpdate(c, s, k, Repinned(c, h, s.workers[k].v), outcome);
    case Publish(_, fails) => SafeUpdate(c, s, k, h.Last(), if fails then FailedAfter else Applied);
    case Done => SafeFrame(c, s, Advance(c, s, k, m), k);
  }

  /** Nothing about key `k` differs between the two states. */
  ghost predicate Untouched(c: Config, s: State, t: State, k: Key) {
    && OwnerLog(t, k) == OwnerLog(s, k)
    && (k in t.workers <==> k in s.workers)
    && (k in s.workers ==> t.workers[k] == s.workers[k])
    && (k in t.dirty <==> k in s.dirty)
    && (k in t.delayed <==> k in s.delayed)
    && t.referrers == s.referrers
    && t.ownerEvents == s.ownerEvents
    && t.referrerEvents == s.referrerEvents
  }

  lemma WriteOfAnotherKey(c: Config, s: State, j: Key, v: nat, x: Option<Owner>, outcome: Outcome, k: Key)
    requires j != k
    ensures Untouched(c, s, TryWrite(s, j, v, x, outcome), k)
  {
  }

  lemma WriteMoveOfAnotherKey(c: Config, s: State, j: Key, m: Move, k: Key)
    requires j != k && (m.Unpin? || m.Pin? || m.Publish?)
    requires j in s.workers && MoveNext(s.workers[j], m)
    ensures Untouched(c, s, Advance(c, s, j, m), k)
  {
    var h := OwnerLog(s, j);
    match m
    case Unpin(outcome) => WriteOfAnotherKey(c, s, j, s.workers[j].v, Unpinned(c, h, s.workers[j].v), outcome, k);
    case Pin(outcome) => WriteOfAnotherKey(c, s, j, s.workers[j].v, Repinned(c, h, s.workers[j].v), outcome, k);
    case Publish(_, fails) =>
      WriteOfAnotherKey(c, s, j, s.workers[j].v, h.Last(), if fails then FailedAfter else Applied, k);
  }

  /** A worker touches its own object only. */
  lemma MoveOfAnotherKey(c: Config, s: State, j: Key, m: Move, k: Key)
    requires j != k
    requires j in s.workers && MoveNext(s.workers[j], m)
    ensures Untouched(c, s, Advance(c, s, j, m), k)
  {
    match m
    case Unpin(_) => WriteMoveOfAnotherKey(c, s, j, m, k);
    case Pin(_) => WriteMoveOfAnotherKey(c, s, j, m, k);
    case Publish(_, _) => WriteMoveOfAnotherKey(c, s, j, m, k);
    case _ =>
  }

  lemma SafeStep(c: Config, s: State, a: Action, k: Key)
    requires Enabled(c, s, a) && SafeKey(c, s, k)
    ensures SafeKey(c, Step(c, s, a), k)
  {
    var t := Step(c, s, a);
    match a
    case User(e) => SafeChange(c, s, e, k);
    case Informer(e) => SafeNotice(c, s, e, k);
    case Poke(_) => SafeFrame(c, s, t, k);
    case Mature(_) => SafeFrame(c, s, t, k);
    case Take(j) =>
      SafeFrame(c, s, s.(dirty := s.dirty - {j}), k);
      if j == k {
        SafeGoto(c, s.(dirty := s.dirty - {j}), k, Start);
      }
    case Work(j, m) =>
      if j == k {
        SafeMove(c, s, m, k);
      } else {
        MoveOfAnotherKey(c, s, j, m, k);
        SafeFrame(c, s, t, k);
      }
    case Restart => SafeRestart(c, s, k);
  }

  lemma {:induction false} SafeRun(c: Config, r: Run, i: nat, k: Key)
    requires IsRun(c, r) && i < |r.states|
    ensures SafeKey(c, r.states[i], k)
  {
    if i > 0 {
      SafeRun(c, r, i - 1, k);
      SafeStep(c, r.states[i - 1], r.actions[i - 1], k);
    }
  }

  // ---------------------------------------------------------------- Proxies

  /** The Gateway carries the finalizer, and its worker is not past deleting part `p`. */
  ghost predicate Guards(c: Config, s: State, k: Key, p: Part) {
    && Pinned(c, OwnerLog(s, k).Last())
    && (k in s.workers ==> !s.workers[k].Unpinning? && (s.workers[k].Tearing? ==> p in s.workers[k].left))
  }

  /** Names may be shared: a part needs one guard among the Gateways its name stands for. */
  ghost predicate Guarded(c: Config, s: State, n: string, p: Part) {
    exists k :: c.node(k) == n && Guards(c, s, k, p)
  }

  ghost predicate ProxiesGuarded(c: Config, s: State) {
    && (forall n, p :: p in PartsAt(s, n) ==> Guarded(c, s, n, p))
    && (c.kind.BackendKind? ==> forall n :: PartsAt(s, n) == {})
  }

  lemma AllPartsDeleted()
    ensures forall p: Part :: p in DELETE_ORDER
  {
    forall p: Part
      ensures p in DELETE_ORDER
    {
      match p
      case Deployment => assert DELETE_ORDER[0] == p;
      case Service => assert DELETE_ORDER[1] == p;
      case ConfigMap => assert DELETE_ORDER[2] == p;
      case ServiceAccount => assert DELETE_ORDER[3] == p;
    }
  }

  /** Users leave the finalizer alone. */
  lemma GuardsChange(c: Config, s: State, e: Change, k: Key, p: Part)
    requires ChangeAllowed(c, s, e) && Guards(c, s, k, p)
    ensures Guards(c, Apply(c, s, e), k, p)
  {
  }

  lemma GuardsWrite(c: Config, s: State, m: Move, k: Key, p: Part)
    requires k in s.workers && MoveNext(s.workers[k], m) && (m.Pin? || m.Publish?) && Guards(c, s, k, p)
    requires SafeKey(c, s, k)
    ensures Guards(c, Advance(c, s, k, m), k, p)
  {
    var h, v := OwnerLog(s, k), s.workers[k].v;
    if m.Pin? {
      assert Pinned(c, Repinned(c, h, v));
    }
  }

  lemma GuardsDelete(c: Config, s: State, m: Move, k: Key, p: Part)
    requires k in s.workers && MoveNext(s.workers[k], m) && m.DeletePart? && Guards(c, s, k, p)
    requires p in PartsAt(Advance(c, s, k, m), c.node(k))
    ensures Guards(c, Advance(c, s, k, m), k, p)
  {
    var left := s.workers[k].left;
    assert left == [left[0]] + left[1..];
    assert OwnerLog(Advance(c, s, k, m), k) == OwnerLog(s, k);
  }

  /** A guard's own worker takes the finalizer off only after deleting the part. */
  lemma GuardsMove(c: Config, s: State, m: Move, k: Key, p: Part)
    requires k in s.workers && MoveNext(s.workers[k], m) && SafeKey(c, s, k)
    requires Guards(c, s, k, p) && c.kind.GatewayKind? && p in PartsAt(Advance(c, s, k, m), c.node(k))
    ensures Guards(c, Advance(c, s, k, m), k, p)
  {
    AllPartsDeleted();
    match m
    case DeletePart(_) => GuardsDelete(c, s, m, k, p);
    case Pin(_) => GuardsWrite(c, s, m, k, p);
    case Publish(_, _) => GuardsWrite(c, s, m, k, p);
    case _ =>
  }

  /** A part that a worker creates is guarded by its own Gateway. */
  lemma CreatedIsGuarded(c: Config, s: State, k: Key, m: Move)
    requires k in s.workers && MoveNext(s.workers[k], m) && m.CreatePart? && SafeKey(c, s, k)
    ensures forall p :: Guards(c, Advance(c, s, k, m), k, p)
  {
    assert OwnerLog(Advance(c, s, k, m), k) == OwnerLog(s, k);
  }

  lemma GuardedMove(c: Config, s: State, j: Key, m: Move, n: string, p: Part)
    requires j in s.workers && MoveNext(s.workers[j], m) && SafeKey(c, s, j) && ProxiesGuarded(c, s)
    requires p in PartsAt(Advance(c, s, j, m), n)
    ensures Guarded(c, Advance(c, s, j, m), n, p)
  {
    if p in PartsAt(s, n) {
      assert Guarded(c, s, n, p);
      var k :| c.node(k) == n && Guards(c, s, k, p);
      if j == k {
        GuardsMove(c, s, m, k, p);
      } else {
        MoveOfAnotherKey(c, s, j, m, k);
      }
      assert Guards(c, Advance(c, s, j, m), k, p);
    } else {
      CreatedIsGuarded(c, s, j, m);
    }
  }

  /** Everything but a worker's step leaves the parts, and the guards, as they are. */
  lemma GuardsElse(c: Config, s: State, a: Action, k: Key, p: Part)
    requires Enabled(c, s, a) && !a.Work? && Guards(c, s, k, p)
    ensures Guards(c, Step(c, s, a), k, p)
  {
    match a
    case User(e) => GuardsChange(c, s, e, k, p);
    case Informer(e) => assert OwnerLog(Notify(c, s, e), k).versions == OwnerLog(s, k).versions;
    case _ =>
  }

  lemma XBackendsHaveNoParts(c: Config, s: State, k: Key, m: Move)
    requires k in s.workers && MoveNext(s.workers[k], m) && c.kind.BackendKind? && SafeKey(c, s, k)
    ensures Advance(c, s, k, m).parts == s.parts
  {
  }

  lemma PartsStay(c: Config, s: State, a: Action)
    requires Enabled(c, s, a) && (a.Work? ==> c.kind.BackendKind? && SafeKey(c, s, a.key))
    ensures Step(c, s, a).parts == s.parts
  {
    match a
    case Work(k, m) => XBackendsHaveNoParts(c, s, k, m);
    case _ =>
  }

  lemma GuardedStep(c: Config, s: State, a: Action, n: string, p: Part)
    requires Enabled(c, s, a) && ProxiesGuarded(c, s) && (a.Work? ==> SafeKey(c, s, a.key))
    requires p in PartsAt(Step(c, s, a), n)
    ensures Guarded(c, Step(c, s, a), n, p)
  {
    if a.Work? {
      GuardedMove(c, s, a.key, a.move, n, p);
    } else {
      PartsStay(c, s, a);
      assert Guarded(c, s, n, p);
      var k :| c.node(k) == n && Guards(c, s, k, p);
      GuardsElse(c, s, a, k, p);
    }
  }

  lemma ProxiesStep(c: Config, s: State, a: Action)
    requires Enabled(c, s, a) && ProxiesGuarded(c, s) && (a.Work? ==> SafeKey(c, s, a.key))
    ensures ProxiesGuarded(c, Step(c, s, a))
  {
    var t := Step(c, s, a);
    if c.kind.BackendKind? {
      PartsStay(c, s, a);
      assert forall n :: PartsAt(t, n) == PartsAt(s, n);
    }
    forall n, p | p in PartsAt(t, n)
      ensures Guarded(c, t, n, p)
    {
      GuardedStep(c, s, a, n, p);
    }
  }

  lemma {:induction false} ProxiesRun(c: Config, r: Run, i: nat)
    requires IsRun(c, r) && i < |r.states|
    ensures ProxiesGuarded(c, r.states[i])
  {
    if i > 0 {
      ProxiesRun(c, r, i - 1);
      if r.actions[i - 1].Work? {
        SafeRun(c, r, i - 1, r.actions[i - 1].key);
      }
      ProxiesStep(c, r.states[i - 1], r.actions[i - 1]);
    }
  }

  /**
   In every state of every run, whatever function names the proxies: if some proxy resource of a
   name exists, the API server holds a Gateway of that name with this controller's finalizer.
   */
  lemma NoOrphanProxy(c: Config, r: Run)
    requires IsRun(c, r)
    ensures forall s, n :: s in r.states && PartsAt(s, n) != {} ==>
              exists k :: c.node(k) == n && Pinned(c, OwnerLog(s, k).Last())
  {
    forall s, n | s in r.states && PartsAt(s, n) != {}
      ensures exists k :: c.node(k) == n && Pinned(c, OwnerLog(s, k).Last())
    {
      var i :| 0 <= i < |r.states| && r.states[i] == s;
      ProxiesRun(c, r, i);
      var p :| p in PartsAt(s, n);
      assert Guarded(c, s, n, p);
    }
  }

  /** So a Gateway that shares its proxy's name with no other that ever existed owns its proxy. */
  lemma OwnProxyIsPinned(c: Config, r: Run, s: State, k: Key)
    requires IsRun(c, r) && s in r.states && Parts(c, s, k) != {}
    requires forall j :: j in s.owners && c.node(j) == c.node(k) ==> j == k
    ensures Pinned(c, OwnerLog(s, k).Last())
  {
    NoOrphanProxy(c, r);
    var j :| c.node(j) == c.node(k) && Pinned(c, OwnerLog(s, j).Last());
    assert j in s.owners;
  }
}
