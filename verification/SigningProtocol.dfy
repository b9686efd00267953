/**
 The PodCertificateRequest signers: any number of replicas, each with its own lagging caches
 of requests and leases, its own work queue and its own opinion about who owns a request, all
 writing to one API server that rejects stale resourceVersions
 (pkg/infra/agentidentity/signercontroller/signercontroller.go).

 As for the finalizers, a request is the sequence of its versions, the index of a version is
 its resourceVersion, and a replica's cache shows one of them and never goes back.
 */
module SigningProtocol {
  import opened Options
  import opened Names
  import Rendezvous

  // ---------------------------------------------------------------- State

  /** The terminal condition of a request, if it has one. */
  datatype Status = Pending | Issued(chain: string) | Denied | Failed

  datatype Request = Request(uid: nat, signer: string, status: Status)

  type Versions = vs: seq<Option<Request>> | |vs| > 0 witness [None]

  datatype Config = Config(signer: string, hash: Rendezvous.Hash)

  /** The worker on a key; `v` is the version it read from the cache. */
  datatype Pc =
    | Start                            // key taken, cache not read yet
    | Deciding(v: nat)                 // unanswered request of this signer: whose is it?
    | Signing(v: nat, chain: string)   // certificate made, about to UpdateStatus
    | Finished(v: nat, retry: bool)    // Forget, or AddRateLimited

  datatype Replica = Replica(
    seen: map<Key, nat>,
    notices: set<Key>,                 // cache changes whose handler has not run yet
    dirty: set<Key>,
    delayed: set<Key>,
    workers: map<Key, Pc>,
    leases: map<string, Rendezvous.Lease>)

  /** An accepted status write that issued a certificate. */
  datatype Issuance = Issuance(key: Key, uid: nat, chain: string)

  datatype State = State(
    requests: map<Key, Versions>,
    leases: map<string, Rendezvous.Lease>,
    now: int,
    replicas: map<string, Replica>,
    issuances: seq<Issuance>)

  function VersionsOf(requests: map<Key, Versions>, k: Key): Versions {
    if k in requests then requests[k] else [None]
  }

  function Last(vs: Versions): Option<Request> { vs[|vs| - 1] }

  function Version(vs: Versions, v: nat): Option<Request> {
    if v < |vs| then vs[v] else None
  }

  function Seen(p: Replica, k: Key): nat {
    if k in p.seen then p.seen[k] else 0
  }

  function Cached(s: State, p: Replica, k: Key): Option<Request> {
    Version(VersionsOf(s.requests, k), Seen(p, k))
  }

  // ---------------------------------------------------------------- Code under study

  /** A request the signer still has to answer. */
  predicate Open(c: Config, x: Option<Request>) {
    x.Some? && x.value.signer == c.signer && x.value.status.Pending?
  }

  /** The replicas this one believes to be live. */
  function LiveNames(p: Replica, now: int): set<string> {
    set n | n in p.leases && Rendezvous.Live(p.leases[n], now) :: p.leases[n].holder.value
  }

  /** What the hasher may answer; with an empty name around, that depends on the list order. */
  ghost predicate MayAnswer(c: Config, p: Replica, now: int, self: string, k: Key, mine: bool) {
    var live := LiveNames(p, now);
    "" !in live && self != "" ==> (mine <==> Rendezvous.IsOwner(c.hash, Render(k), live, self))
  }

  // ---------------------------------------------------------------- Steps

  datatype Outcome = Applied | FailedBefore | FailedAfter

  /** Everybody but the signers. */
  datatype Change =
    | CreateRequest(key: Key, signer: string)
    | TouchRequest(key: Key)                        // metadata changes, status and spec do not
    | RefuseRequest(key: Key, verdict: Status)      // somebody else denies or fails it
    | DeleteRequest(key: Key)
    | Tick(seconds: nat)
    | DropLease(name: string)

  /** One replica. */
  datatype Move =
    | Boot                                          // start, or crash and start again
    | RenewLease
    | SeeLease(name: string)
    | Observe(key: Key, version: nat)
    | Deliver(key: Key)
    | Resync(key: Key)
    | Mature(key: Key)
    | Take(key: Key)
    | ReadRequest(key: Key)
    | Decide(key: Key, mine: bool, cert: Option<string>)
    | Submit(key: Key, outcome: Outcome)
    | Done(key: Key)

  datatype Action = World(change: Change) | Act(replica: string, move: Move)

  predicate ChangeAllowed(s: State, e: Change) {
    match e
    case CreateRequest(k, _) => Last(VersionsOf(s.requests, k)).None?
    case TouchRequest(k) => Last(VersionsOf(s.requests, k)).Some?
    case RefuseRequest(k, verdict) =>
      && Last(VersionsOf(s.requests, k)).Some? && Last(VersionsOf(s.requests, k)).value.status.Pending?
      && (verdict.Denied? || verdict.Failed?)
    case DeleteRequest(k) => Last(VersionsOf(s.requests, k)).Some?
    case Tick(_) => true
    case DropLease(_) => true
  }

  function WriteRequest(s: State, k: Key, x: Option<Request>): State {
    s.(requests := s.requests[k := VersionsOf(s.requests, k) + [x]])
  }

  function Apply(s: State, e: Change): State
    requires ChangeAllowed(s, e)
  {
    match e
    case CreateRequest(k, signer) => WriteRequest(s, k, Some(Request(|VersionsOf(s.requests, k)|, signer, Pending)))
    case TouchRequest(k) => WriteRequest(s, k, Last(VersionsOf(s.requests, k)))
    case RefuseRequest(k, verdict) =>
      WriteRequest(s, k, Some(Last(VersionsOf(s.requests, k)).value.(status := verdict)))
    case DeleteRequest(k) => WriteRequest(s, k, None)
    case Tick(d) => s.(now := s.now + d)
    case DropLease(n) => s.(leases := s.leases - {n})
  }

  ghost predicate MoveAllowed(c: Config, s: State, self: string, p: Replica, m: Move) {
    match m
    case Boot => true
    case RenewLease => true
    case SeeLease(_) => true
    case Observe(k, v) => Seen(p, k) < v < |VersionsOf(s.requests, k)|
    case Deliver(k) => k in p.notices
    case Resync(_) => true
    case Mature(k) => k in p.delayed
    case Take(k) => k in p.dirty && k !in p.workers
    case ReadRequest(k) => k in p.workers && p.workers[k].Start?
    case Decide(k, mine, _) => k in p.workers && p.workers[k].Deciding? && MayAnswer(c, p, s.now, self, k, mine)
    case Submit(k, _) => k in p.workers && p.workers[k].Signing?
    case Done(k) => k in p.workers && p.workers[k].Finished?
  }

  function Goto(p: Replica, k: Key, pc: Pc): Replica { p.(workers := p.workers[k := pc]) }

  /** A fresh process: it lists every request and hears of each. */
  function Booted(s: State): Replica {
    Replica(map k | k in s.requests :: |s.requests[k]| - 1, s.requests.Keys, {}, {}, map[], map[])
  }

  /** The replica's own state after a move. */
  function Advance(c: Config, s: State, p: Replica, m: Move): Replica {
    match m
    case Boot => Booted(s)
    case RenewLease => p
    case SeeLease(n) => p.(leases := if n in s.leases then p.leases[n := s.leases[n]] else p.leases - {n})
    case Observe(k, v) =>
      p.(seen := p.seen[k := v],
         notices := if Cached(s, p, k).None? && Version(VersionsOf(s.requests, k),
             v).None? then p.notices else p.notices + {k})
    case Deliver(k) => p.(notices := p.notices - {k}, dirty := p.dirty + {k})
    case Resync(k) => p.(dirty := p.dirty + {k})
    case Mature(k) => p.(delayed := p.delayed - {k}, dirty := p.dirty + {k})
    case Take(k) => Goto(p.(dirty := p.dirty - {k}), k, Start)
    case ReadRequest(k) =>
      Goto(p, k, if Open(c, Cached(s, p, k)) then Deciding(Seen(p, k)) else Finished(Seen(p, k), false))
    case Decide(k, mine, cert) =>
      if k !in p.workers || !p.workers[k].Deciding? then p
      else
        var v := p.workers[k].v;
        Goto(p, k, if mine && cert.Some? then Signing(v, cert.value) else Finished(v, true))
    case Submit(k, outcome) =>
      if k !in p.workers || !p.workers[k].Signing? then p
      else
        var v := p.workers[k].v;
        Goto(p, k, Finished(v, !(outcome.Applied? && v + 1 == |VersionsOf(s.requests, k)|)))
    case Done(k) =>
      if k !in p.workers || !p.workers[k].Finished? then p
      else
        p.(workers := p.workers - {k},
           delayed := if p.workers[k].retry then p.delayed + {k} else p.delayed)
  }

  /** UpdateStatus: accepted only on the last version, and then the whole status is replaced. */
  predicate Accepted(s: State, p: Replica, m: Move) {
    && m.Submit? && m.key in p.workers && p.workers[m.key].Signing?
    && !m.outcome.FailedBefore?
    && p.workers[m.key].v + 1 == |VersionsOf(s.requests, m.key)|
    && Last(VersionsOf(s.requests, m.key)).Some?
  }

  /** What the move does to the API server. */
  function Served(s: State, self: string, p: Replica, m: Move): State {
    if m.RenewLease? then
      s.(leases := s.leases[self := Rendezvous.Lease(Some(self), s.now, Some(Rendezvous.LEASE_DURATION))])
    else if Accepted(s, p, m) then
      var x := Last(VersionsOf(s.requests, m.key)).value;
      var chain := p.workers[m.key].chain;
      WriteRequest(s, m.key, Some(x.(status := Issued(chain))))
        .(issuances := s.issuances + [Issuance(m.key, x.uid, chain)])
    else s
  }

  ghost predicate Enabled(c: Config, s: State, a: Action) {
    match a
    case World(e) => ChangeAllowed(s, e)
    case Act(self, m) => m.Boot? || (self in s.replicas && MoveAllowed(c, s, self, s.replicas[self], m))
  }

  function Step(c: Config, s: State, a: Action): State {
    match a
    case World(e) => if ChangeAllowed(s, e) then Apply(s, e) else s
    case Act(self, m) =>
      var p := if self in s.replicas then s.replicas[self] else Booted(s);
      var t := Served(s, self, p, m);
      t.(replicas := s.replicas[self := Advance(c, s, p, m)])
  }

  // ---------------------------------------------------------------- Runs

  datatype Run = Run(states: seq<State>, actions: seq<Action>)

  predicate Initial(s: State) {
    s.requests == map[] && s.replicas == map[] && s.issuances == []
  }

  ghost predicate IsRun(c: Config, r: Run) {
    && |r.states| == |r.actions| + 1
    && Initial(r.states[0])
    && forall i :: 0 <= i < |r.actions| ==>
         Enabled(c, r.states[i], r.actions[i]) && r.states[i + 1] == Step(c, r.states[i], r.actions[i])
  }
}
