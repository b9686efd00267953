/**
 No lost request: a replica never drops a request it ought to look at again; and in the steady
 state, when the replicas agree about who is live, exactly one of them signs it.
 */
module SigningLiveness {
  import opened Options
  import opened Names
  import opened SigningProtocol
  import opened SigningSafety
  import Rendezvous

  /** The request with this uid has been answered, or is gone, at the API server. */
  predicate Settled(vs: Versions, uid: nat) {
    Last(vs).None? || Last(vs).value.uid != uid || !Last(vs).value.status.Pending?
  }

  /** The worker has yet to look, is busy with the cached version `n` itself, or will come back. */
  predicate Heeding(pc: Pc, n: nat) {
    match pc
    case Start => true
    case Deciding(v) => v == n
    case Signing(v, _) => v == n
    case Finished(_, retry) => retry
  }

  /** An open request in the replica's cache is on its way to be handled, or already settled. */
  ghost predicate Tracked(c: Config, vs: Versions, p: Replica, k: Key) {
    var x := Version(vs, Seen(p, k));
    Open(c, x) ==>
      || k in p.notices || k in p.dirty || k in p.delayed
      || (k in p.workers && Heeding(p.workers[k], Seen(p, k)))
      || Settled(vs, x.value.uid)
  }

  /** What is settled stays settled, and what is tracked stays tracked, when versions are added. */
  lemma TrackedWhileOthersWrite(c: Config, vs: Versions, x: Option<Request>, p: Replica, k: Key)
    requires AnswersLast(vs) && Successor(vs, x) && SafeWorker(c, vs, p, k) && Tracked(c, vs, p, k)
    ensures Tracked(c, vs + [x], p, k)
  {
  }

  lemma ChangesSucceed(s: State, e: Change, k: Key)
    requires ChangeAllowed(s, e)
    ensures var vs, ws := VersionsOf(s.requests, k), VersionsOf(Apply(s, e).requests, k);
            ws == vs || (ws == vs + [Last(ws)] && Successor(vs, Last(ws)))
  {
  }

  /** The only request a replica ever writes is the unanswered one it has read. */
  lemma SubmissionsSucceed(c: Config, s: State, self: string, p: Replica, m: Move, k: Key)
    requires SafeWorker(c, VersionsOf(s.requests, k), p, k)
    ensures var vs, ws := VersionsOf(s.requests, k), VersionsOf(Served(s, self, p, m).requests, k);
            || ws == vs
            || (ws == vs + [Last(ws)] && Successor(vs, Last(ws)) && Accepted(s, p, m) && m.key == k &&
                Last(ws).value.status.Issued?)
  {
  }

  lemma TrackedMove(c: Config, s: State, self: string, p: Replica, m: Move, k: Key)
    requires MoveAllowed(c, s, self, p, m) && !m.Boot? && !m.Submit?
    requires SafeWorker(c, VersionsOf(s.requests, k), p, k) && Tracked(c, VersionsOf(s.requests, k), p, k)
    ensures Tracked(c, VersionsOf(s.requests, k), Advance(c, s, p, m), k)
  {
  }

  lemma TrackedSubmit(c: Config, s: State, self: string, p: Replica, m: Move, k: Key)
    requires m.Submit? && MoveAllowed(c, s, self, p, m)
    requires AnswersLast(VersionsOf(s.requests, k))
    requires SafeWorker(c, VersionsOf(s.requests, k), p, k) && Tracked(c, VersionsOf(s.requests, k), p, k)
    ensures Tracked(c, VersionsOf(Served(s, self, p, m).requests, k), Advance(c, s, p, m), k)
  {
    var vs, ws := VersionsOf(s.requests, k), VersionsOf(Served(s, self, p, m).requests, k);
    SubmissionsSucceed(c, s, self, p, m, k);
    if m.key != k {
      assert ws == vs;
    }
  }

  lemma TrackedBoot(c: Config, s: State, k: Key)
    ensures Tracked(c, VersionsOf(s.requests, k), Booted(s), k)
  {
  }

  lemma TrackedStep(c: Config, s: State, a: Action, n: string, k: Key)
    requires Safe(c, s) && Enabled(c, s, a) && n in Step(c, s, a).replicas
    requires n in s.replicas ==> Tracked(c, VersionsOf(s.requests, k), s.replicas[n], k)
    ensures Tracked(c, VersionsOf(Step(c, s, a).requests, k), Step(c, s, a).replicas[n], k)
  {
    var t := Step(c, s, a);
    var vs, ws := VersionsOf(s.requests, k), VersionsOf(t.requests, k);
    assert AnswersLast(vs);
    match a
    case World(e) =>
      ChangesSucceed(s, e, k);
      if ws != vs {
        TrackedWhileOthersWrite(c, vs, Last(ws), s.replicas[n], k);
      }
    case Act(self, m) =>
      var p := if self in s.replicas then s.replicas[self] else Booted(s);
      BootIsSafe(c, s, k);
      SubmissionsSucceed(c, s, self, p, m, k);
      if n != self {
        if ws != vs {
          TrackedWhileOthersWrite(c, vs, Last(ws), s.replicas[n], k);
        }
      } else if m.Boot? {
        TrackedBoot(c, s, k);
      } else if m.Submit? {
        TrackedSubmit(c, s, self, p, m, k);
      } else {
        TrackedMove(c, s, self, p, m, k);
      }
  }

  lemma {:induction false} TrackedRun(c: Config, r: Run, i: nat, n: string, k: Key)
    requires IsRun(c, r) && i < |r.states| && n in r.states[i].replicas
    ensures Tracked(c, VersionsOf(r.states[i].requests, k), r.states[i].replicas[n], k)
  {
    if i > 0 {
      SafeRun(c, r, i - 1);
      if n in r.states[i - 1].replicas {
        TrackedRun(c, r, i - 1, n, k);
      }
      TrackedStep(c, r.states[i - 1], r.actions[i - 1], n, k);
    }
  }

  /** In every state of every run, every replica tracks every open request in its cache. */
  lemma NoLostRequest(c: Config, r: Run)
    requires IsRun(c, r)
    ensures forall s, n, k :: s in r.states && n in s.replicas ==>
              Tracked(c, VersionsOf(s.requests, k), s.replicas[n], k)
  {
    forall s, n, k | s in r.states && n in s.replicas
      ensures Tracked(c, VersionsOf(s.requests, k), s.replicas[n], k)
    {
      var i :| 0 <= i < |r.states| && r.states[i] == s;
      TrackedRun(c, r, i, n, k);
    }
  }

  /** The replica has nothing to do and its cache shows what the API server holds. */
  ghost predicate Quiet(s: State, p: Replica) {
    && p.notices == {} && p.dirty == {} && p.delayed == {} && p.workers == map[]
    && forall k :: Seen(p, k) + 1 == |VersionsOf(s.requests, k)|
  }

  /** As soon as one replica has come to rest, every request of this signer has been answered. */
  lemma RestMeansAnswered(c: Config, r: Run, s: State, n: string, k: Key)
    requires IsRun(c, r) && s in r.states && n in s.replicas && Quiet(s, s.replicas[n])
    ensures var x := Last(VersionsOf(s.requests, k)); x.Some? && x.value.signer == c.signer ==> x.value.status != Pending
  {
    NoLostRequest(c, r);
    assert Tracked(c, VersionsOf(s.requests, k), s.replicas[n], k);
    assert Seen(s.replicas[n], k) + 1 == |VersionsOf(s.requests, k)|;
  }

  // ---------------------------------------------------------------- The steady state

  /** Every replica sees exactly the running replicas live. */
  ghost predicate Steady(s: State) {
    && "" !in s.replicas && s.replicas != map[]
    && forall n :: n in s.replicas ==> LiveNames(s.replicas[n], s.now) == s.replicas.Keys
  }

  /** Then exactly one replica gets the answer that a request is its own; the others get no. */
  lemma SteadyStateAgreement(c: Config, s: State, k: Key) returns (owner: string)
    requires Steady(s)
    ensures owner in s.replicas
    ensures forall n, mine :: n in s.replicas ==>
              (MayAnswer(c, s.replicas[n], s.now, n, k, mine) <==> (mine <==> n == owner))
  {
    owner := Rendezvous.OwnerExists(c.hash, Render(k), s.replicas.Keys);
    forall n, mine | n in s.replicas
      ensures MayAnswer(c, s.replicas[n], s.now, n, k, mine) <==> (mine <==> n == owner)
    {
      if Rendezvous.IsOwner(c.hash, Render(k), s.replicas.Keys, n) {
        Rendezvous.OwnerIsUnique(c.hash, Render(k), s.replicas.Keys, owner, n);
      }
    }
  }

  ghost function Extend(c: Config, r: Run, a: Action): Run
    requires |r.states| > 0
  {
    Run(r.states + [Step(c, r.states[|r.states| - 1], a)], r.actions + [a])
  }

  lemma ExtendRun(c: Config, r: Run, a: Action)
    requires IsRun(c, r) && Enabled(c, r.states[|r.states| - 1], a)
    ensures IsRun(c, Extend(c, r, a))
  {
  }

  ghost function End(r: Run): State
    requires |r.states| > 0
  {
    r.states[|r.states| - 1]
  }

  /** The replica's worker is at `pc` on a request whose cached version is the last. */
  ghost predicate At(c: Config, r: Run, n: string, k: Key, vs: Versions, pc: Pc) {
    && IsRun(c, r) && n in End(r).replicas && VersionsOf(End(r).requests, k) == vs
    && k in End(r).replicas[n].workers && End(r).replicas[n].workers[k] == pc
  }

  lemma Began(c: Config, r: Run, n: string, k: Key) returns (r': Run)
    requires IsRun(c, r) && n in End(r).replicas
    requires k in End(r).replicas[n].dirty && k !in End(r).replicas[n].workers
    requires Open(c, Cached(End(r), End(r).replicas[n], k))
    ensures At(c, r', n, k, VersionsOf(End(r).requests, k), Deciding(Seen(End(r).replicas[n], k)))
    ensures r.states <= r'.states && |r'.states| > 0
    ensures End(r').now == End(r).now && End(r').replicas[n].leases == End(r).replicas[n].leases
    ensures End(r').replicas[n].dirty == End(r).replicas[n].dirty - {k}
    ensures End(r').replicas[n].delayed == End(r).replicas[n].delayed
  {
    ExtendRun(c, r, Act(n, Take(k)));
    r' := Extend(c, r, Act(n, Take(k)));
    ExtendRun(c, r', Act(n, ReadRequest(k)));
    r' := Extend(c, r', Act(n, ReadRequest(k)));
  }

  /**
   A replica that may consider an open request its own, has it queued and is up to date can
   issue the certificate, whatever it is.
   */
  lemma OwnerIssues(c: Config, r: Run, n: string, k: Key, chain: string) returns (r': Run)
    requires IsRun(c, r) && n in End(r).replicas
    requires k in End(r).replicas[n].dirty && k !in End(r).replicas[n].workers
    requires Open(c, Last(VersionsOf(End(r).requests, k)))
    requires Seen(End(r).replicas[n], k) + 1 == |VersionsOf(End(r).requests, k)|
    requires MayAnswer(c, End(r).replicas[n], End(r).now, n, k, true)
    ensures IsRun(c, r') && r.states <= r'.states && n in End(r').replicas
    ensures Last(VersionsOf(End(r').requests, k)) ==
              Some(Last(VersionsOf(End(r).requests, k)).value.(status := Issued(chain)))
    ensures var p, q := End(r).replicas[n], End(r').replicas[n];
            k !in q.workers && q.dirty == p.dirty - {k} && q.delayed == p.delayed
  {
    r' := Began(c, r, n, k);
    var v := Seen(End(r).replicas[n], k);
    r' := Decided(c, r', n, k, v, chain);
    r' := Submitted(c, r', n, k, v, chain);
    r' := Ended(c, r', n, k);
  }

  lemma Decided(c: Config, r: Run, n: string, k: Key, v: nat, chain: string) returns (r': Run)
    requires IsRun(c, r) && At(c, r, n, k, VersionsOf(End(r).requests, k), Deciding(v))
    requires MayAnswer(c, End(r).replicas[n], End(r).now, n, k, true)
    ensures At(c, r', n, k, VersionsOf(End(r).requests, k), Signing(v, chain)) && r.states <= r'.states
    ensures var p, q := End(r).replicas[n], End(r').replicas[n]; q.dirty == p.dirty && q.delayed == p.delayed
  {
    var decide := Act(n, Decide(k, true, Some(chain)));
    ExtendRun(c, r, decide);
    r' := Extend(c, r, decide);
  }

  lemma Submitted(c: Config, r: Run, n: string, k: Key, v: nat, chain: string) returns (r': Run)
    requires IsRun(c, r) && At(c, r, n, k, VersionsOf(End(r).requests, k), Signing(v, chain))
    requires var vs := VersionsOf(End(r).requests, k); |vs| == v + 1 && Last(vs).Some?
    ensures var vs := VersionsOf(End(r).requests, k);
            At(c, r', n, k, vs + [Some(Last(vs).value.(status := Issued(chain)))], Finished(v, false))
    ensures r.states <= r'.states
    ensures var p, q := End(r).replicas[n], End(r').replicas[n]; q.dirty == p.dirty && q.delayed == p.delayed
  {
    ExtendRun(c, r, Act(n, Submit(k, Applied)));
    r' := Extend(c, r, Act(n, Submit(k, Applied)));
  }

  lemma Ended(c: Config, r: Run, n: string, k: Key) returns (r': Run)
    requires IsRun(c, r) && n in End(r).replicas && k in End(r).replicas[n].workers
    requires End(r).replicas[n].workers[k].Finished?
    ensures IsRun(c, r') && r.states <= r'.states && n in End(r').replicas && End(r').requests == End(r).requests
    ensures var p, q := End(r).replicas[n], End(r').replicas[n];
            && q.workers == p.workers - {k} && q.dirty == p.dirty
            && q.delayed == p.delayed + if p.workers[k].retry then {k} else {}
  {
    ExtendRun(c, r, Act(n, Done(k)));
    r' := Extend(c, r, Act(n, Done(k)));
  }

  /** A request of another signer, one that is answered or gone: nothing is written, and there is no retry. */
  lemma OthersAreForgotten(c: Config, r: Run, n: string, k: Key) returns (r': Run)
    requires IsRun(c, r) && n in End(r).replicas
    requires k in End(r).replicas[n].dirty && k !in End(r).replicas[n].workers
    requires var x := Cached(End(r), End(r).replicas[n], k); x.Some? ==> x.value.signer != c.signer || x.value.status != Pending
    ensures IsRun(c, r') && r.states <= r'.states && n in End(r').replicas && End(r').requests == End(r).requests
    ensures var p, q := End(r).replicas[n], End(r').replicas[n];
            k !in q.workers && q.dirty == p.dirty - {k} && q.delayed == p.delayed
  {
    ExtendRun(c, r, Act(n, Take(k)));
    r' := Extend(c, r, Act(n, Take(k)));
    ExtendRun(c, r', Act(n, ReadRequest(k)));
    r' := Extend(c, r', Act(n, ReadRequest(k)));
    r' := Ended(c, r', n, k);
  }

  /** A replica that observes a version has it in its cache, and hears of it unless nothing was or is there. */
  lemma ObservedIsCached(c: Config, s: State, n: string, k: Key, v: nat)
    requires n in s.replicas && MoveAllowed(c, s, n, s.replicas[n], Observe(k, v))
    ensures var t, was := Step(c, s, Act(n, Observe(k, v))), s.replicas[n];
            && Cached(t, t.replicas[n], k) == VersionsOf(s.requests, k)[v]
            && t.replicas[n].notices ==
                 was.notices + if Cached(s, was, k).Some? || VersionsOf(s.requests, k)[v].Some? then {k} else {}
  {
  }

  /** A status write is stored unless it fails on the way or is out of date, and is retried after any error. */
  lemma SubmitOutcome(c: Config, s: State, n: string, k: Key, outcome: Outcome)
    requires n in s.replicas && MoveAllowed(c, s, n, s.replicas[n], Submit(k, outcome))
    requires Last(VersionsOf(s.requests, k)).Some?
    ensures var t, vs, pc := Step(c, s, Act(n, Submit(k, outcome))), VersionsOf(s.requests, k), s.replicas[n].workers[k];
            var current := pc.v + 1 == |vs|;
            && VersionsOf(t.requests, k) ==
                 (if current && outcome != FailedBefore then vs + [Some(Last(vs).value.(status := Issued(pc.chain)))] else vs)
            && t.replicas[n].workers[k] == Finished(pc.v, !current || outcome != Applied)
  {
  }

  lemma Heard(c: Config, r: Run, n: string, k: Key) returns (r': Run)
    requires IsRun(c, r) && n in End(r).replicas && k !in End(r).replicas[n].workers
    requires Last(VersionsOf(End(r).requests, k)).Some?
    requires Seen(End(r).replicas[n], k) + 1 < |VersionsOf(End(r).requests, k)|
    ensures IsRun(c, r') && r.states <= r'.states && n in End(r').replicas && End(r').requests == End(r).requests
    ensures var p, q := End(r).replicas[n], End(r').replicas[n];
            && k in q.dirty && k !in q.workers && q.leases == p.leases && End(r').now == End(r).now
            && Seen(q, k) + 1 == |VersionsOf(End(r).requests, k)|
  {
    var observe := Act(n, Observe(k, |VersionsOf(End(r).requests, k)| - 1));
    ObservedIsCached(c, End(r), n, k, observe.move.version);
    ExtendRun(c, r, observe);
    r' := Extend(c, r, observe);
    ExtendRun(c, r', Act(n, Deliver(k)));
    r' := Extend(c, r', Act(n, Deliver(k)));
  }

  /** So can a replica that has not heard of the open request yet, once its informer catches up. */
  lemma OwnerHearsAndIssues(c: Config, r: Run, n: string, k: Key, chain: string) returns (r': Run)
    requires IsRun(c, r) && n in End(r).replicas && k !in End(r).replicas[n].workers
    requires Open(c, Last(VersionsOf(End(r).requests, k)))
    requires Seen(End(r).replicas[n], k) + 1 < |VersionsOf(End(r).requests, k)|
    requires MayAnswer(c, End(r).replicas[n], End(r).now, n, k, true)
    ensures IsRun(c, r') && r.states <= r'.states
    ensures Last(VersionsOf(End(r').requests, k)) ==
              Some(Last(VersionsOf(End(r).requests, k)).value.(status := Issued(chain)))
  {
    r' := Heard(c, r, n, k);
    r' := OwnerIssues(c, r', n, k, chain);
  }
}
