/**
 What the worker reaches from any reachable state when its calls succeed and nobody interferes:
 a new Gateway gets its finalizer and then its complete proxy; a Gateway under deletion that no
 cached HTTPRoute names loses its proxy and then its finalizer; a new XBackend gets its finalizer
 and an XBackend under deletion that no cached XAccessPolicy targets loses it.
 */
module FinalizerProgress {
  import opened Options
  import opened Names
  import opened FinalizerProtocol
  import opened FinalizerSafety
  import opened FinalizerWakeups
  import Finalizers

  /** `after` continues `before` by steps of the worker on key `k` only. */
  ghost predicate WorkedOn(before: Run, after: Run, k: Key) {
    && before.actions <= after.actions
    && forall i :: |before.actions| <= i < |after.actions| ==>
         after.actions[i] == Take(k) || (after.actions[i].Work? && after.actions[i].key == k)
  }

  ghost function End(r: Run): State
    requires |r.states| > 0
  {
    r.states[|r.states| - 1]
  }

  lemma WorkOn(c: Config, r: Run, a: Action, k: Key, origin: Run)
    requires IsRun(c, r) && Enabled(c, End(r), a) && WorkedOn(origin, r, k)
    requires a == Take(k) || (a.Work? && a.key == k)
    ensures IsRun(c, Extend(c, r, a)) && End(Extend(c, r, a)) == Step(c, End(r), a)
    ensures WorkedOn(origin, Extend(c, r, a), k)
  {
    ExtendRun(c, r, End(r), a, Step(c, End(r), a));
  }

  /** The worker at `pc` with the cache at the last version `h`. */
  ghost predicate At(c: Config, r: Run, k: Key, h: Log<Owner>, pc: Pc) {
    IsRun(c, r) && OwnerLog(End(r), k) == h && h.Current() && k in End(r).workers && End(r).workers[k] == pc
  }

  /** The state `s` with key `k` taken and its worker at `pc`. */
  function Busy(s: State, k: Key, pc: Pc): State { s.(dirty := s.dirty - {k}, workers := s.workers[k := pc]) }

  lemma Began(c: Config, r: Run, k: Key) returns (r': Run)
    requires IsRun(c, r) && k in End(r).dirty && k !in End(r).workers && OwnerLog(End(r), k).Current()
    ensures var h := OwnerLog(End(r), k); At(c, r', k, h, AfterRead(c, h.Cached(), h.seen))
    ensures WorkedOn(r, r', k)
    ensures var h := OwnerLog(End(r), k); End(r') == Busy(End(r), k, AfterRead(c, h.Cached(), h.seen))
  {
    WorkOn(c, r, Take(k), k, r);
    r' := Extend(c, r, Take(k));
    WorkOn(c, r', Work(k, ReadOwner), k, r);
    r' := Extend(c, r', Work(k, ReadOwner));
    var h := OwnerLog(End(r), k);
    assert End(r').workers == End(r).workers[k := AfterRead(c, h.Cached(), h.seen)];
  }

  lemma Listed(c: Config, r: Run, k: Key, h: Log<Owner>, origin: Run) returns (r': Run)
    requires c.kind.GatewayKind? && At(c, r, k, h, Listing(h.seen)) && WorkedOn(origin, r, k)
    requires !ReferencedInCache(End(r), k)
    ensures At(c, r', k, h, Tearing(h.seen, DELETE_ORDER)) && WorkedOn(origin, r', k)
    ensures End(r').dirty == End(r).dirty && End(r').delayed == End(r).delayed
  {
    WorkOn(c, r, Work(k, ListReferrers), k, origin);
    r' := Extend(c, r, Work(k, ListReferrers));
  }

  lemma {:induction false} TornDown(c: Config, r: Run, k: Key, h: Log<Owner>, left: seq<Part>,
                                    origin: Run) returns (r': Run)
    requires At(c, r, k, h, Tearing(h.seen, left)) && left != [] && WorkedOn(origin, r, k)
    ensures At(c, r', k, h, AfterTeardown(c, h.Last(), h.seen)) && WorkedOn(origin, r', k)
    ensures End(r').dirty == End(r).dirty && End(r').delayed == End(r).delayed
    ensures forall p :: p in Parts(c, End(r'), k) ==> p in Parts(c, End(r), k) && p !in left
    decreases |left|
  {
    var a := Work(k, DeletePart(Applied));
    WorkOn(c, r, a, k, origin);
    r' := Extend(c, r, a);
    assert left == [left[0]] + left[1..];
    if |left| > 1 {
      r' := TornDown(c, r', k, h, left[1..], origin);
    }
  }

  lemma {:induction false} Built(c: Config, r: Run, k: Key, h: Log<Owner>, left: seq<Part>,
                                 origin: Run) returns (r': Run)
    requires At(c, r, k, h, Building(h.seen, left)) && WorkedOn(origin, r, k)
    ensures At(c, r', k, h, Building(h.seen, [])) && WorkedOn(origin, r', k)
    ensures forall p :: p in left || p in Parts(c, End(r), k) ==> p in Parts(c, End(r'), k)
    decreases |left|
  {
    r' := r;
    if left != [] {
      var a := Work(k, CreatePart(Applied));
      WorkOn(c, r, a, k, origin);
      r' := Extend(c, r, a);
      assert left == [left[0]] + left[1..];
      assert left[0] in Parts(c, End(r'), k);
      r' := Built(c, r', k, h, left[1..], origin);
    }
  }

  lemma Wrote(c: Config, r: Run, k: Key, m: Move, h: Log<Owner>, pc: Pc, origin: Run) returns (r': Run)
    requires At(c, r, k, h, pc) && MoveNext(pc, m) && !pc.Start? && pc.v == h.seen && WorkedOn(origin, r, k)
    requires m == Unpin(Applied) || m == Pin(Applied)
    ensures IsRun(c, r') && WorkedOn(origin, r', k) && k !in End(r').workers
    ensures OwnerLog(End(r'), k) == Write(h, if m.Unpin? then Unpinned(c, h, h.seen) else Repinned(c, h, h.seen))
    ensures End(r').dirty == End(r).dirty + if c.kind.GatewayKind? && m.Pin? then {k} else {}
    ensures End(r').parts == End(r).parts && End(r').delayed == End(r).delayed
  {
    WorkOn(c, r, Work(k, m), k, origin);
    r' := Extend(c, r, Work(k, m));
    WorkOn(c, r', Work(k, Done), k, origin);
    r' := Extend(c, r', Work(k, Done));
  }

  /** Nothing else holds the object back. */
  predicate OnlyFinalizer(c: Config, o: Owner) { forall f :: f in o.finalizers ==> f == c.finalizer }

  lemma Released(c: Config, o: Owner)
    requires o.deleting
    ensures var n := Stored(o.(finalizers := Finalizers.Without(o.finalizers, c.finalizer)));
            !Pinned(c, n) && (n.None? <==> OnlyFinalizer(c, o))
  {
    var left := Finalizers.Without(o.finalizers, c.finalizer);
    Finalizers.WithoutMembers(o.finalizers, c.finalizer);
    if left != [] {
      assert left[0] in left;
    }
  }

  /** Unreferenced and under deletion: proxy gone, finalizer gone. */
  lemma TeardownCompletes(c: Config, r: Run, k: Key) returns (r': Run)
    requires c.kind.GatewayKind? && IsRun(c, r)
    requires k in End(r).dirty && k !in End(r).workers && OwnerLog(End(r), k).Current()
    requires Doomed(c, OwnerLog(End(r), k).Last()) && !ReferencedInCache(End(r), k)
    ensures IsRun(c, r') && WorkedOn(r, r', k) && k !in End(r').workers
    ensures Parts(c, End(r'), k) == {}
    ensures !Pinned(c, OwnerLog(End(r'), k).Last())
    ensures OwnerLog(End(r'), k).Last().None? <==> OnlyFinalizer(c, OwnerLog(End(r), k).Last().value)
  {
    var h := OwnerLog(End(r), k);
    var r1 := Began(c, r, k);
    var r2 := Listed(c, r1, k, h, r);
    var r3 := TornDown(c, r2, k, h, DELETE_ORDER, r);
    AllPartsDeleted();
    assert forall p :: p !in Parts(c, End(r3), k);
    assert Parts(c, End(r3), k) == {};
    r' := Wrote(c, r3, k, Unpin(Applied), h, Unpinning(h.seen), r);
    Released(c, h.Last().value);
  }

  /** An XBackend under deletion that nobody targets: finalizer gone, and no retry is due. */
  lemma BackendIsReleased(c: Config, r: Run, k: Key) returns (r': Run)
    requires c.kind.BackendKind? && IsRun(c, r)
    requires k in End(r).dirty && k !in End(r).workers && OwnerLog(End(r), k).Current()
    requires Doomed(c, OwnerLog(End(r), k).Last()) && !ReferencedInCache(End(r), k)
    ensures IsRun(c, r') && WorkedOn(r, r', k) && k !in End(r').workers
    ensures !Pinned(c, OwnerLog(End(r'), k).Last())
    ensures OwnerLog(End(r'), k).Last().None? <==> OnlyFinalizer(c, OwnerLog(End(r), k).Last().value)
    ensures k !in End(r').dirty && End(r').delayed == End(r).delayed
  {
    var h := OwnerLog(End(r), k);
    var r1 := Began(c, r, k);
    WorkOn(c, r1, Work(k, ListReferrers), k, r);
    var r2 := Extend(c, r1, Work(k, ListReferrers));
    r' := Wrote(c, r2, k, Unpin(Applied), h, Unpinning(h.seen), r);
    Released(c, h.Last().value);
  }

  /** The cases in which a synchronisation has nothing to do. */
  ghost predicate AtRest(c: Config, s: State, k: Key) {
    match OwnerLog(s, k).Last()
    case None => c.kind == BackendKind
    case Some(o) =>
      || (c.kind == GatewayKind && !o.owned)
      || (o.deleting && ReferencedInCache(s, k))
      || (c.kind == BackendKind && !o.deleting && c.finalizer in o.finalizers)
  }

  lemma StillReferenced(c: Config, r: Run, k: Key, v: nat, origin: Run) returns (r': Run)
    requires IsRun(c, r) && IsRun(c, origin) && WorkedOn(origin, r, k) && ReferencedInCache(End(origin), k)
    requires End(r) == Busy(End(origin), k, Listing(v))
    ensures IsRun(c, r') && WorkedOn(origin, r', k) && End(r') == Busy(End(origin), k, Finished(v, false))
  {
    WorkOn(c, r, Work(k, ListReferrers), k, origin);
    r' := Extend(c, r, Work(k, ListReferrers));
    assert End(r').workers == End(origin).workers[k := Finished(v, false)];
  }

  lemma Dismissed(c: Config, r: Run, k: Key, v: nat, origin: Run) returns (r': Run)
    requires IsRun(c, r) && IsRun(c, origin) && WorkedOn(origin, r, k) && k !in End(origin).workers
    requires End(r) == Busy(End(origin), k, Finished(v, false))
    ensures IsRun(c, r') && WorkedOn(origin, r', k)
    ensures End(r') == End(origin).(dirty := End(origin).dirty - {k})
  {
    WorkOn(c, r, Work(k, Done), k, origin);
    r' := Extend(c, r, Work(k, Done));
    assert End(r').workers == End(origin).workers;
  }

  /**
   A Gateway of another controller, an owner that is still referenced, an XBackend that has its
   finalizer or is gone: the worker leaves everything as it is and does not come back.
   */
  lemma NothingToDo(c: Config, r: Run, k: Key) returns (r': Run)
    requires IsRun(c, r) && k in End(r).dirty && k !in End(r).workers && OwnerLog(End(r), k).Current()
    requires AtRest(c, End(r), k)
    ensures IsRun(c, r') && WorkedOn(r, r', k) && End(r') == End(r).(dirty := End(r).dirty - {k})
  {
    var h := OwnerLog(End(r), k);
    r' := Began(c, r, k);
    if AfterRead(c, h.Cached(), h.seen).Listing? {
      r' := StillReferenced(c, r', k, h.seen, r);
    }
    r' := Dismissed(c, r', k, h.seen, r);
  }

  /** A Gateway that is gone, or goes without the finalizer on it, loses its proxy; nothing is written. */
  lemma GoneIsTornDown(c: Config, r: Run, k: Key) returns (r': Run)
    requires c.kind == GatewayKind && IsRun(c, r)
    requires k in End(r).dirty && k !in End(r).workers && OwnerLog(End(r), k).Current()
    requires var o := OwnerLog(End(r), k).Last();
             o.None? || (o.value.owned && o.value.deleting && !Pinned(c, o) && !ReferencedInCache(End(r), k))
    ensures IsRun(c, r') && WorkedOn(r, r', k) && k !in End(r').workers
    ensures Parts(c, End(r'), k) == {} && OwnerLog(End(r'), k) == OwnerLog(End(r), k)
    ensures k !in End(r').dirty && End(r').delayed == End(r).delayed
  {
    var h := OwnerLog(End(r), k);
    r' := Began(c, r, k);
    if h.Last().Some? {
      r' := Listed(c, r', k, h, r);
    }
    r' := TornDown(c, r', k, h, DELETE_ORDER, r);
    AllPartsDeleted();
    assert forall p :: p !in Parts(c, End(r'), k);
    assert Parts(c, End(r'), k) == {};
    WorkOn(c, r', Work(k, Done), k, r);
    r' := Extend(c, r', Work(k, Done));
  }

  /** A new XBackend is pinned, and nothing else about it changes. */
  lemma BackendIsPinned(c: Config, r: Run, k: Key) returns (r': Run)
    requires c.kind.BackendKind? && IsRun(c, r)
    requires k in End(r).dirty && k !in End(r).workers && OwnerLog(End(r), k).Current()
    requires var o := OwnerLog(End(r), k).Last(); o.Some? && !o.value.deleting && !Pinned(c, o)
    ensures IsRun(c, r') && WorkedOn(r, r', k) && k !in End(r').workers
    ensures Pinned(c, OwnerLog(End(r'), k).Last())
    ensures var o, n := OwnerLog(End(r), k).Last().value, OwnerLog(End(r'), k).Last().value;
            n == o.(finalizers := o.finalizers + [c.finalizer])
    ensures k !in End(r').dirty && End(r').delayed == End(r).delayed
  {
    var h := OwnerLog(End(r), k);
    r' := Began(c, r, k);
    r' := Wrote(c, r', k, Pin(Applied), h, Pinning(h.seen), r);
  }

  /** New and without the finalizer: it is pinned first, and its key is queued again. */
  lemma PinComesFirst(c: Config, r: Run, k: Key) returns (r': Run)
    requires c.kind.GatewayKind? && IsRun(c, r)
    requires k in End(r).dirty && k !in End(r).workers && OwnerLog(End(r), k).Current()
    requires var o := OwnerLog(End(r), k).Last();
             o.Some? && !o.value.deleting && Owned(c, o.value) && !Pinned(c, o)
    ensures IsRun(c, r') && WorkedOn(r, r', k) && k !in End(r').workers
    ensures Pinned(c, OwnerLog(End(r'), k).Last()) && k in End(r').dirty
  {
    var h := OwnerLog(End(r), k);
    r' := Began(c, r, k);
    r' := Wrote(c, r', k, Pin(Applied), h, Pinning(h.seen), r);
  }

  /** Pinned and not under deletion: all four proxy resources come to exist. */
  lemma ProxyIsBuilt(c: Config, r: Run, k: Key) returns (r': Run)
    requires c.kind.GatewayKind? && IsRun(c, r)
    requires k in End(r).dirty && k !in End(r).workers && OwnerLog(End(r), k).Current()
    requires var o := OwnerLog(End(r), k).Last();
             o.Some? && !o.value.deleting && Owned(c, o.value) && Pinned(c, o)
    ensures IsRun(c, r') && WorkedOn(r, r', k)
    ensures forall p: Part :: p in Parts(c, End(r'), k)
  {
    var h := OwnerLog(End(r), k);
    r' := Began(c, r, k);
    r' := Built(c, r', k, h, CREATE_ORDER, r);
    forall p: Part
      ensures p in CREATE_ORDER
    {
      match p
      case ServiceAccount => assert CREATE_ORDER[0] == p;
      case ConfigMap => assert CREATE_ORDER[1] == p;
      case Deployment => assert CREATE_ORDER[2] == p;
      case Service => assert CREATE_ORDER[3] == p;
    }
  }
}
