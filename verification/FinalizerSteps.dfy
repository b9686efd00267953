/**
 The event handlers and API calls of the finalizer protocol in terms of the objects' fields: which
 keys a notification queues, and which calls are tried again.
 */
module FinalizerSteps {
  import opened Options
  import opened Names
  import opened FinalizerProtocol

  /** What the update handlers take for a change; both deletion timestamps count by being set. */
  ghost predicate Differs(generations: (nat, nat), annotations: (nat, nat), deleting: (bool, bool)) {
    generations.0 != generations.1 || annotations.0 != annotations.1 || deleting.0 || deleting.1
  }

  /**
   A notification about an owner queues its key if the object, the later version deciding, belongs
   to this controller; an update only if it differs in generation or annotations, or is under deletion.
   */
  lemma OwnerNoticeQueues(c: Config, s: State, e: Event<Owner>, k: Key)
    requires e in s.ownerEvents
    ensures var subject := if e.now.Some? then e.now else e.was;
            k in Step(c, s, Informer(DeliverOwner(e))).dirty <==>
              || k in s.dirty
              || (&& k == e.key && subject.Some? && (c.kind == GatewayKind ==> subject.value.owned)
                  && (e.was.Some? && e.now.Some? ==>
                        var o, n := e.was.value, e.now.value;
                        Differs((o.generation, n.generation), (o.annotations, n.annotations), (o.deleting, n.deleting))))
  {
  }

  /**
   A notification about a referrer queues the owners it refers to: of an updated HTTPRoute those it
   had and those it has, of an updated XAccessPolicy those it has, and of XBackends only cached ones.
   */
  lemma ReferrerNoticeQueues(c: Config, s: State, e: Event<Referrer>, k: Key)
    requires e in s.referrerEvents
    ensures k in Step(c, s, Informer(DeliverReferrer(e))).dirty <==>
              || k in s.dirty
              || (&& (c.kind == BackendKind ==> OwnerLog(s, k).Cached().Some?)
                  && match (e.was, e.now)
                     case (None, None) => false
                     case (None, Some(n)) => k in n.targets
                     case (Some(o), None) => k in o.targets
                     case (Some(o), Some(n)) =>
                       && Differs((o.generation, n.generation), (o.annotations, n.annotations), (o.deleting, n.deleting))
                       && (k in n.targets || (c.kind == GatewayKind && k in o.targets)))
  {
  }

  // ---------------------------------------------------------------- Calls

  predicate IsCall(m: Move) { m.DeletePart? || m.CreatePart? || m.Unpin? || m.Pin? || m.Publish? }

  /** The move writes the object itself, so that the server compares resource versions. */
  predicate WritesObject(m: Move) { m.Unpin? || m.Pin? || (m.Publish? && m.writesStatus) }

  /** The caller gets an error: the call failed, or the object has changed since it was read. */
  ghost predicate Errs(s: State, k: Key, m: Move)
    requires k in s.workers && IsCall(m) && MoveNext(s.workers[k], m)
  {
    || (if m.Publish? then m.fails else m.outcome != Applied)
    || (WritesObject(m) && s.workers[k].v + 1 != |OwnerLog(s, k).versions|)
  }

  /** A synchronisation ends with a retry exactly if a call of it returned an error. */
  lemma ErrorsAreRetried(c: Config, s: State, k: Key, m: Move)
    requires k in s.workers && IsCall(m) && MoveNext(s.workers[k], m)
    ensures var t := Step(c, s, Work(k, m));
            k in t.workers && (t.workers[k] == Finished(s.workers[k].v, true) <==> Errs(s, k, m))
  {
    if m.DeletePart? || m.CreatePart? {
      PartCallErrs(c, s, k, m);
    } else {
      ObjectCallErrs(c, s, k, m);
    }
  }

  lemma PartCallErrs(c: Config, s: State, k: Key, m: Move)
    requires k in s.workers && (m.DeletePart? || m.CreatePart?) && MoveNext(s.workers[k], m)
    ensures var t := Advance(c, s, k, m);
            k in t.workers && (t.workers[k] == Finished(s.workers[k].v, true) <==> m.outcome != Applied)
  {
  }

  lemma ObjectCallErrs(c: Config, s: State, k: Key, m: Move)
    requires k in s.workers && (m.Unpin? || m.Pin? || m.Publish?) && MoveNext(s.workers[k], m)
    ensures var t := Advance(c, s, k, m);
            k in t.workers && (t.workers[k] == Finished(s.workers[k].v, true) <==> Errs(s, k, m))
  {
    var pc, h := s.workers[k], OwnerLog(s, k);
    match m
    case Unpin(outcome) => WriteErrs(s, k, pc.v, Unpinned(c, h, pc.v), outcome);
    case Pin(outcome) => WriteErrs(s, k, pc.v, Repinned(c, h, pc.v), outcome);
    case Publish(_, fails) => WriteErrs(s, k, pc.v, h.Last(), if fails then FailedAfter else Applied);
  }

  lemma WriteErrs(s: State, k: Key, v: nat, o: Option<Owner>, outcome: Outcome)
    ensures var t := TryWrite(s, k, v, o, outcome);
            k in t.workers && t.workers[k] == Finished(v, outcome != Applied || v + 1 != |OwnerLog(s, k).versions|)
  {
  }

  /** A call queues nothing, but that a Gateway which just got its finalizer comes round again. */
  lemma OnlyPinQueuesAgain(c: Config, s: State, k: Key, m: Move)
    requires k in s.workers && IsCall(m) && MoveNext(s.workers[k], m)
    ensures Step(c, s, Work(k, m)).dirty ==
              s.dirty + if c.kind == GatewayKind && m.Pin? && !Errs(s, k, m) then {k} else {}
  {
    if m.Pin? {
      WriteErrs(s, k, s.workers[k].v, Repinned(c, OwnerLog(s, k), s.workers[k].v), m.outcome);
    }
  }

  /** A finished synchronisation leaves the key backing off exactly if it is to be retried. */
  lemma DoneRetries(c: Config, s: State, k: Key)
    requires k in s.workers && s.workers[k].Finished?
    ensures var t := Step(c, s, Work(k, Done));
            k !in t.workers && t.dirty == s.dirty && t.delayed == s.delayed + if s.workers[k].retry then {k} else {}
  {
  }

  /** A call that failed before it reached the server, or met a conflict, changed nothing there. */
  lemma FailedCallHasNoEffect(c: Config, s: State, k: Key, m: Move)
    requires k in s.workers && IsCall(m) && MoveNext(s.workers[k], m) && !m.Publish?
    requires m.outcome == FailedBefore || (WritesObject(m) && s.workers[k].v + 1 != |OwnerLog(s, k).versions|)
    ensures var t := Step(c, s, Work(k, m));
            OwnerLog(t, k) == OwnerLog(s, k) && forall n :: PartsAt(t, n) == PartsAt(s, n)
  {
  }

  /** Publishing changes no field of the object that the protocol knows; a status write is a new version. */
  lemma PublishKeepsTheObject(c: Config, s: State, k: Key, writesStatus: bool, fails: bool)
    requires k in s.workers && MoveNext(s.workers[k], Publish(writesStatus, fails))
    ensures var t, h := Step(c, s, Work(k, Publish(writesStatus, fails))), OwnerLog(s, k);
            && OwnerLog(t, k).Last() == h.Last() && t.parts == s.parts
            && |OwnerLog(t, k).versions| ==
                 |h.versions| + (if writesStatus && s.workers[k].v + 1 == |h.versions| then 1 else 0)
  {
  }
}
