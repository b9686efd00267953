/**
 Who signs what: certificates go only to requests of this signer, and only from a replica that
 found the request assigned to itself, by leases in its cache that had not run out.
 */
module SigningAuthority {
  import opened Options
  import opened Names
  import opened SigningProtocol
  import opened SigningSafety
  import opened Rendezvous

  // ---------------------------------------------------------------- Other signers' requests

  ghost predicate OwnIssues(c: Config, vs: Versions) {
    forall b :: 0 <= b < |vs| && vs[b].Some? && vs[b].value.status.Issued? ==> vs[b].value.signer == c.signer
  }

  lemma AcceptedIsOwn(c: Config, s: State, p: Replica, m: Move)
    requires Accepted(s, p, m) && SafeWorker(c, VersionsOf(s.requests, m.key), p, m.key)
    ensures Last(VersionsOf(s.requests, m.key)).value.signer == c.signer
  {
    assert Open(c, VersionsOf(s.requests, m.key)[p.workers[m.key].v]);
  }

  lemma OwnIssuesChange(c: Config, s: State, e: SigningProtocol.Change, k: Key)
    requires ChangeAllowed(s, e) && OwnIssues(c, VersionsOf(s.requests, k))
    ensures OwnIssues(c, VersionsOf(Apply(s, e).requests, k))
  {
  }

  lemma OwnIssuesMove(c: Config, s: State, self: string, p: Replica, m: Move, k: Key)
    requires OwnIssues(c, VersionsOf(s.requests, k))
    requires Accepted(s, p, m) ==> SafeWorker(c, VersionsOf(s.requests, m.key), p, m.key)
    ensures OwnIssues(c, VersionsOf(Served(s, self, p, m).requests, k))
  {
    if Accepted(s, p, m) {
      AcceptedIsOwn(c, s, p, m);
    }
  }

  lemma {:induction false} OwnIssuesRun(c: Config, r: Run, i: nat, k: Key)
    requires IsRun(c, r) && i < |r.states|
    ensures OwnIssues(c, VersionsOf(r.states[i].requests, k))
  {
    if i > 0 {
      OwnIssuesRun(c, r, i - 1, k);
      SafeRun(c, r, i - 1);
      var s := r.states[i - 1];
      match r.actions[i - 1]
      case World(e) => OwnIssuesChange(c, s, e, k);
      case Act(self, m) =>
        OwnIssuesMove(c, s, self, if self in s.replicas then s.replicas[self] else Booted(s), m, k);
    }
  }

  /** In every state of every run, a request with a certificate is one for this signer. */
  lemma OnlyOwnRequestsAreIssued(c: Config, r: Run, s: State, k: Key)
    requires IsRun(c, r) && s in r.states
    requires var x := Last(VersionsOf(s.requests, k)); x.Some? && x.value.status.Issued?
    ensures Last(VersionsOf(s.requests, k)).value.signer == c.signer
  {
    var i :| 0 <= i < |r.states| && r.states[i] == s;
    OwnIssuesRun(c, r, i, k);
  }

  // ---------------------------------------------------------------- Other replicas' requests

  /** What the hasher computes from the cached leases, in whatever order, is an answer the protocol allows. */
  lemma HasherMayAnswer(c: Config, p: Replica, now: int, self: string, k: Key, leases: seq<Lease>)
    requires forall l :: l in leases <==> l in p.leases.Values
    ensures MayAnswer(c, p, now, self, k, Elect(c.hash, Render(k), Holders(leases, now)) == self)
  {
    var live := LiveNames(p, now);
    assert LiveSet(leases, now) == live by {
      forall x ensures x in LiveSet(leases, now) <==> x in live {
        if x in live {
          var n :| n in p.leases && Live(p.leases[n], now) && x == p.leases[n].holder.value;
          assert p.leases[n] in leases;
        }
        if x in LiveSet(leases, now) {
          var l :| l in leases && Live(l, now) && x == l.holder.value;
          assert l in p.leases.Values;
        }
      }
    }
    HoldersAreTheLiveSet(leases, now);
    assert forall n :: n in Holders(leases, now) <==> n in live;
    if "" !in live && self != "" {
      ElectsFromTheList(c.hash, Render(k), Holders(leases, now));
      if live != {} {
        var owner := OwnerExists(c.hash, Render(k), live);
        ElectsNamedOwner(c.hash, Render(k), Holders(leases, now), live, owner);
        if IsOwner(c.hash, Render(k), live, self) {
          OwnerIsUnique(c.hash, Render(k), live, owner, self);
        }
      }
    }
  }

  /** At step `i` replica `n` found request `k` assigned to itself and made the certificate. */
  ghost predicate DecidedAt(r: Run, i: nat, n: string, k: Key, pc: Pc)
    requires |r.states| == |r.actions| + 1
  {
    && i < |r.actions| && pc.Signing? && r.actions[i] == Act(n, Decide(k, true, Some(pc.chain)))
    && n in r.states[i].replicas && k in r.states[i].replicas[n].workers
    && r.states[i].replicas[n].workers[k] == Deciding(pc.v)
  }

  lemma SigningBegins(c: Config, s: State, a: Action, n: string, k: Key)
    requires Enabled(c, s, a) && n in Step(c, s, a).replicas
    requires var p := Step(c, s, a).replicas[n]; k in p.workers && p.workers[k].Signing?
    ensures n in s.replicas && k in s.replicas[n].workers
    ensures var pc := Step(c, s, a).replicas[n].workers[k];
            || s.replicas[n].workers[k] == pc
            || (a == Act(n, Decide(k, true, Some(pc.chain))) && s.replicas[n].workers[k] == Deciding(pc.v))
  {
    match a
    case World(e) =>
    case Act(self, m) =>
      if n == self && m.Take? {
        assert m.key != k;
      }
  }

  lemma {:induction false} SigningWasDecided(c: Config, r: Run, j: nat, n: string, k: Key) returns (i: nat)
    requires IsRun(c, r) && j < |r.states| && n in r.states[j].replicas
    requires k in r.states[j].replicas[n].workers && r.states[j].replicas[n].workers[k].Signing?
    ensures i < j && DecidedAt(r, i, n, k, r.states[j].replicas[n].workers[k])
  {
    SigningBegins(c, r.states[j - 1], r.actions[j - 1], n, k);
    if r.states[j - 1].replicas[n].workers[k] == r.states[j].replicas[n].workers[k] {
      i := SigningWasDecided(c, r, j - 1, n, k);
    } else {
      i := j - 1;
    }
  }

  /**
   Every certificate that is stored was decided on before by the replica that stores it: as the
   owner among the replicas it then saw live, itself by a lease in its cache that had not run out.
   Replicas have names, and so has the holder of every lease it saw.
   */
  lemma IssuerWasAssigned(c: Config, r: Run, j: nat, n: string, m: Move) returns (i: nat)
    requires IsRun(c, r) && j < |r.actions| && r.actions[j] == Act(n, m) && m.Submit? && n != ""
    ensures i < j && r.actions[i].Act? && r.actions[i].replica == n && n in r.states[i].replicas
    ensures r.actions[i].move.Decide? && r.actions[i].move.key == m.key && r.actions[i].move.mine
    ensures var p, now := r.states[i].replicas[n], r.states[i].now;
            "" !in LiveNames(p, now) ==>
              && IsOwner(c.hash, Render(m.key), LiveNames(p, now), n)
              && exists l :: l in p.leases && p.leases[l].holder == Some(n) &&
                   now <= p.leases[l].renewTime +
                     if p.leases[l].duration.Some? then p.leases[l].duration.value else 0
  {
    i := SigningWasDecided(c, r, j, n, m.key);
    var p, now := r.states[i].replicas[n], r.states[i].now;
    assert MayAnswer(c, p, now, n, m.key, true);
    if "" !in LiveNames(p, now) {
      assert n in LiveNames(p, now);
      var l :| l in p.leases && Live(p.leases[l], now) && n == p.leases[l].holder.value;
    }
  }

  /** A replica that renews its lease is live for 15 seconds to whoever sees it, and not longer by that lease. */
  lemma RenewalKeepsLive(c: Config, s: State, n: string, q: string, seconds: nat)
    requires n in s.replicas && q in s.replicas
    ensures var t := Step(c, Step(c, s, Act(n, RenewLease)), Act(q, SeeLease(n)));
            && q in t.replicas && n in t.replicas[q].leases
            && t.replicas[q].leases[n].holder == Some(n)
            && (seconds <= 15 ==> n in LiveNames(t.replicas[q], s.now + seconds))
            && (seconds > 15 ==> !Live(t.replicas[q].leases[n], s.now + seconds))
  {
    var t := Step(c, Step(c, s, Act(n, RenewLease)), Act(q, SeeLease(n)));
    assert Step(c, s, Act(n, RenewLease)).leases[n] == Lease(Some(n), s.now, Some(15));
    assert t.replicas[q].leases[n] == Lease(Some(n), s.now, Some(15));
  }
}
