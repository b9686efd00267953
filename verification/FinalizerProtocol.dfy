/**
 The life of Gateways and XBackends under their finalizers, as a machine whose steps are the
 single API calls, cache reads and queue operations of the controller, interleaved in any
 order with users, the informers and controller restarts.

 One machine serves both resources. A Gateway is held back by the HTTPRoutes that name it as
 a parent and owns an Envoy proxy made of four cluster resources; an XBackend is held back by
 the XAccessPolicies that target it and owns nothing. `Config.kind` selects the code that
 differs: `syncGateway` or `syncBackendFinalizer`, and the event handlers.

 Every object has the sequence of its versions so far. The index of a version is its
 resourceVersion; the last one is what the API server holds, and `seen` is the one in the
 informer's cache, which lags behind but never goes back.
 */
module FinalizerProtocol {
  import opened Options
  import opened Names
  import Finalizers

  // ---------------------------------------------------------------- Objects

  datatype Kind = GatewayKind | BackendKind

  /** The four cluster resources of one Envoy proxy. */
  datatype Part = ServiceAccount | ConfigMap | Deployment | Service

  const CREATE_ORDER := [ServiceAccount, ConfigMap, Deployment, Service]
  const DELETE_ORDER := [Deployment, Service, ConfigMap, ServiceAccount]

  /**
   `node` names the proxy resources of a Gateway, its namespace included; being a truncated hash
   it may give two Gateways one name. `finalizer` is this controller's.
   */
  datatype Config = Config(kind: Kind, finalizer: string, node: Key -> string)

  /** A Gateway or XBackend. `owned`: its class belongs to this controller (Gateways only). */
  datatype Owner = Owner(uid: nat, generation: nat, annotations: nat, deleting: bool,
                         finalizers: seq<string>, owned: bool)

  /** An HTTPRoute or XAccessPolicy; `targets` are the owners it refers to. */
  datatype Referrer = Referrer(uid: nat, generation: nat, annotations: nat, deleting: bool,
                               targets: set<Key>)

  datatype History<T> = History(versions: seq<Option<T>>, seen: nat) {
    function Last(): Option<T>
      requires |versions| > 0
    {
      versions[|versions| - 1]
    }

    function Cached(): Option<T>
      requires seen < |versions|
    {
      versions[seen]
    }

    predicate Current() { seen + 1 == |versions| }
  }

  type Log<T> = h: History<T> | h.seen < |h.versions| witness History([None], 0)

  function Write<T>(h: Log<T>, x: Option<T>): Log<T> { h.(versions := h.versions + [x]) }

  function Version<T>(h: Log<T>, v: nat): Option<T> {
    if v < |h.versions| then h.versions[v] else None
  }

  function Show<T>(h: Log<T>, v: nat): Log<T>
    requires v < |h.versions|
  {
    h.(seen := v)
  }

  function CatchUp<T>(h: Log<T>): Log<T> { Show(h, |h.versions| - 1) }

  // ---------------------------------------------------------------- State

  /** A notification the informer has queued for a handler that has not run yet. */
  datatype Event<T> = Event(key: Key, was: Option<T>, now: Option<T>)

  /**
   Where the worker that holds a key stands. `v` is the version of the owner it read from the
   cache at the beginning of this synchronisation.
   */
  datatype Pc =
    | Start                                  // key taken, cache not read yet
    | Listing(v: nat)                        // being deleted: about to list the referrers
    | Tearing(v: nat, left: seq<Part>)       // DeleteProxy, these deletions to go
    | Unpinning(v: nat)                      // about to write the object without the finalizer
    | Pinning(v: nat)                        // about to write the object with the finalizer
    | Building(v: nat, left: seq<Part>)      // EnsureProxyExist, these creations to go
    | Finished(v: nat, retry: bool)          // returned nil (Forget) or an error (AddRateLimited)

  /**
   `dirty` and the keys of `workers` are the two sets of a client-go work queue: a key is
   handed out when it is dirty and not being processed. `delayed` are the rate-limited ones.
   */
  datatype State = State(
    owners: map<Key, Log<Owner>>,
    referrers: map<Key, Log<Referrer>>,
    ownerEvents: set<Event<Owner>>,
    referrerEvents: set<Event<Referrer>>,
    dirty: set<Key>,
    delayed: set<Key>,
    workers: map<Key, Pc>,
    parts: map<string, set<Part>>)

  const INITIAL := State(map[], map[], {}, {}, {}, {}, map[], map[])

  function OwnerLog(s: State, k: Key): Log<Owner> {
    if k in s.owners then s.owners[k] else History([None], 0)
  }

  function ReferrerLog(s: State, r: Key): Log<Referrer> {
    if r in s.referrers then s.referrers[r] else History([None], 0)
  }

  function PartsAt(s: State, n: string): set<Part> {
    if n in s.parts then s.parts[n] else {}
  }

  function Parts(c: Config, s: State, k: Key): set<Part> { PartsAt(s, c.node(k)) }

  // ---------------------------------------------------------------- Code under study

  predicate Owned(c: Config, o: Owner) { c.kind.BackendKind? || o.owned }

  predicate Pinned(c: Config, o: Option<Owner>) { o.Some? && c.finalizer in o.value.finalizers }

  /**
   The test of the update handlers. The deletion timestamps are compared by address, so they
   differ as soon as one of the two is set.
   */
  predicate Changed(oldGeneration: nat, newGeneration: nat, oldDeleting: bool, newDeleting: bool,
                    oldAnnotations: nat, newAnnotations: nat)
  {
    oldGeneration != newGeneration || oldDeleting || newDeleting || oldAnnotations != newAnnotations
  }

  /** Whether the owner's own event handler puts its key on the queue. */
  predicate OwnerEventWakes(c: Config, e: Event<Owner>) {
    match (e.was, e.now)
    case (None, None) => false
    case (None, Some(n)) => Owned(c, n)
    case (Some(o), None) => Owned(c, o)
    case (Some(o), Some(n)) =>
      && Owned(c, n)
      && Changed(o.generation, n.generation, o.deleting, n.deleting, o.annotations, n.annotations)
  }

  predicate ReferrerChanged(o: Referrer, n: Referrer) {
    Changed(o.generation, n.generation, o.deleting, n.deleting, o.annotations, n.annotations)
  }

  /**
   The owners a referrer's event handler looks at. An updated HTTPRoute concerns the parents it
   had and the parents it has; an updated XAccessPolicy only the targets it has.
   */
  function EventTargets(c: Config, e: Event<Referrer>): set<Key> {
    match (e.was, e.now)
    case (None, None) => {}
    case (None, Some(n)) => n.targets
    case (Some(o), None) => o.targets
    case (Some(o), Some(n)) =>
      if !ReferrerChanged(o, n) then {}
      else if c.kind.GatewayKind? then o.targets + n.targets
      else n.targets
  }

  /** The keys that handler adds: an XBackend must be in the cache, a Gateway need not be. */
  function WokenBy(c: Config, s: State, e: Event<Referrer>): set<Key> {
    if c.kind.GatewayKind? then EventTargets(c, e)
    else set k | k in EventTargets(c, e) && OwnerLog(s, k).Cached().Some?
  }

  /** `hasHTTPRoutesReferencingGateway` and `hasAccessPoliciesTargetingBackend`. */
  ghost predicate ReferencedInCache(s: State, k: Key) {
    exists r :: r in s.referrers && s.referrers[r].Cached().Some? && k in s.referrers[r].Cached().value.targets
  }

  /** The first branches of `syncGateway` and `syncBackendFinalizer`, on the cached version `v`. */
  function AfterRead(c: Config, o: Option<Owner>, v: nat): Pc {
    match o
    case None => if c.kind.GatewayKind? then Tearing(v, DELETE_ORDER) else Finished(v, false)
    case Some(o) =>
      if !Owned(c, o) then Finished(v, false)
      else if o.deleting then Listing(v)
      else if c.finalizer !in o.finalizers then Pinning(v)
      else if c.kind.GatewayKind? then Building(v, CREATE_ORDER)
      else Finished(v, false)
  }

  /** What follows once the proxy is gone: write the object back only if the finalizer is on it. */
  function AfterTeardown(c: Config, o: Option<Owner>, v: nat): Pc {
    if Pinned(c, o) then Unpinning(v) else Finished(v, false)
  }

  // ---------------------------------------------------------------- Steps

  /** An API call may fail without effect, or fail although the server applied it. */
  datatype Outcome = Applied | FailedBefore | FailedAfter

  /** Writes by users and other controllers. */
  datatype Change =
    | CreateOwner(key: Key, owner: Owner)
    | UpdateOwner(key: Key, owner: Owner)
    | DeleteOwner(key: Key)
    | CreateReferrer(key: Key, referrer: Referrer)
    | UpdateReferrer(key: Key, referrer: Referrer)
    | DeleteReferrer(key: Key)

  /** The informers: a later version reaches the cache, then the handler hears of it. */
  datatype Notice =
    | ObserveOwner(key: Key, version: nat)
    | ObserveReferrer(key: Key, version: nat)
    | DeliverOwner(ownerEvent: Event<Owner>)
    | DeliverReferrer(referrerEvent: Event<Referrer>)

  /** The steps of the worker that holds a key. */
  datatype Move =
    | ReadOwner
    | ListReferrers
    | DeletePart(outcome: Outcome)
    | CreatePart(outcome: Outcome)
    | Unpin(outcome: Outcome)
    | Pin(outcome: Outcome)
    | Publish(writesStatus: bool, fails: bool)
    | Done

  datatype Action =
    | User(change: Change)
    | Informer(notice: Notice)
    | Poke(key: Key)                // a handler of some other resource adds the key
    | Mature(key: Key)              // a rate-limited key becomes due
    | Take(key: Key)                // an idle worker gets the key
    | Work(key: Key, move: Move)
    | Restart                       // the process dies at any point and starts again

  /** What the API server lets a client write over `o`, this controller's finalizer left alone. */
  predicate MayReplace(c: Config, o: Owner, n: Owner) {
    && n.uid == o.uid
    && n.deleting == o.deleting
    && o.generation <= n.generation
    && (n.owned != o.owned ==> o.generation < n.generation)
    && (c.finalizer in o.finalizers ==> c.finalizer in n.finalizers)
  }

  predicate MayReplaceReferrer(o: Referrer, n: Referrer) {
    && n.uid == o.uid
    && (o.deleting ==> n.deleting)
    && o.generation <= n.generation
    && (n.targets != o.targets ==> o.generation < n.generation)
  }

  /** An object under deletion disappears with its last finalizer. */
  function Stored(o: Owner): Option<Owner> {
    if o.deleting && o.finalizers == [] then None else Some(o)
  }

  predicate ChangeAllowed(c: Config, s: State, e: Change) {
    match e
    case CreateOwner(k, o) =>
      OwnerLog(s, k).Last().None? && !o.deleting && o.uid == |OwnerLog(s, k).versions|
    case UpdateOwner(k, o) =>
      OwnerLog(s, k).Last().Some? && MayReplace(c, OwnerLog(s, k).Last().value, o)
    case DeleteOwner(k) => OwnerLog(s, k).Last().Some?
    case CreateReferrer(r, x) =>
      ReferrerLog(s, r).Last().None? && x.uid == |ReferrerLog(s, r).versions|
    case UpdateReferrer(r, x) =>
      ReferrerLog(s, r).Last().Some? && MayReplaceReferrer(ReferrerLog(s, r).Last().value, x)
    case DeleteReferrer(r) => ReferrerLog(s, r).Last().Some?
  }

  predicate NoticeDue(s: State, e: Notice) {
    match e
    case ObserveOwner(k, v) => OwnerLog(s, k).seen < v < |OwnerLog(s, k).versions|
    case ObserveReferrer(r, v) => ReferrerLog(s, r).seen < v < |ReferrerLog(s, r).versions|
    case DeliverOwner(e) => e in s.ownerEvents
    case DeliverReferrer(e) => e in s.referrerEvents
  }

  predicate MoveNext(pc: Pc, m: Move) {
    match m
    case ReadOwner => pc.Start?
    case ListReferrers => pc.Listing?
    case DeletePart(_) => pc.Tearing? && pc.left != []
    case CreatePart(_) => pc.Building? && pc.left != []
    case Unpin(_) => pc.Unpinning?
    case Pin(_) => pc.Pinning?
    case Publish(_, _) => pc.Building? && pc.left == []
    case Done => pc.Finished?
  }

  predicate Enabled(c: Config, s: State, a: Action) {
    match a
    case User(e) => ChangeAllowed(c, s, e)
    case Informer(e) => NoticeDue(s, e)
    case Poke(_) => true
    case Mature(k) => k in s.delayed
    case Take(k) => k in s.dirty && k !in s.workers
    case Work(k, m) => k in s.workers && MoveNext(s.workers[k], m)
    case Restart => true
  }

  function WriteOwner(s: State, k: Key, o: Option<Owner>): State {
    s.(owners := s.owners[k := Write(OwnerLog(s, k), o)])
  }

  function WriteReferrer(s: State, r: Key, x: Option<Referrer>): State {
    s.(referrers := s.referrers[r := Write(ReferrerLog(s, r), x)])
  }

  function Goto(s: State, k: Key, pc: Pc): State { s.(workers := s.workers[k := pc]) }

  /**
   A worker's Update of version `v` with new content: rejected unless `v` is still the last
   version, and then subject to `outcome`.
   */
  function TryWrite(s: State, k: Key, v: nat, o: Option<Owner>, outcome: Outcome): State {
    var h := OwnerLog(s, k);
    var accepted := v + 1 == |h.versions| && !outcome.FailedBefore?;
    var s1 := if accepted then WriteOwner(s, k, o) else s;
    Goto(s1, k, Finished(v, !(accepted && outcome.Applied?)))
  }

  function Deleted(o: Owner): Option<Owner> {
    if o.finalizers == [] then None else Some(o.(deleting := true, generation := o.generation + 1))
  }

  function WithParts(c: Config, s: State, k: Key, ps: set<Part>): State {
    s.(parts := s.parts[c.node(k) := ps])
  }

  /** The object a worker writes when it takes its finalizer off, or puts it on, version `v`. */
  function Unpinned(c: Config, h: Log<Owner>, v: nat): Option<Owner> {
    if Version(h, v).Some? then
      var o := Version(h, v).value;
      Stored(o.(finalizers := Finalizers.Without(o.finalizers, c.finalizer)))
    else None
  }

  function Repinned(c: Config, h: Log<Owner>, v: nat): Option<Owner> {
    if Version(h, v).Some? then
      var o := Version(h, v).value;
      Some(o.(finalizers := Finalizers.With(o.finalizers, c.finalizer)))
    else None
  }

  function Apply(c: Config, s: State, e: Change): State
    requires ChangeAllowed(c, s, e)
  {
    match e
    case CreateOwner(k, o) => WriteOwner(s, k, Some(o))
    case UpdateOwner(k, o) => WriteOwner(s, k, Stored(o))
    case DeleteOwner(k) => WriteOwner(s, k, Deleted(OwnerLog(s, k).Last().value))
    case CreateReferrer(r, x) => WriteReferrer(s, r, Some(x))
    case UpdateReferrer(r, x) => WriteReferrer(s, r, Some(x))
    case DeleteReferrer(r) => WriteReferrer(s, r, None)
  }

  function Notify(c: Config, s: State, e: Notice): State
    requires NoticeDue(s, e)
  {
    match e
    case ObserveOwner(k, v) =>
      var h := OwnerLog(s, k);
      s.(owners := s.owners[k := Show(h, v)],
         ownerEvents := s.ownerEvents + {Event(k, h.Cached(), h.versions[v])})
    case ObserveReferrer(r, v) =>
      var h := ReferrerLog(s, r);
      s.(referrers := s.referrers[r := Show(h, v)],
         referrerEvents := s.referrerEvents + {Event(r, h.Cached(), h.versions[v])})
    case DeliverOwner(e) =>
      s.(ownerEvents := s.ownerEvents - {e},
         dirty := if OwnerEventWakes(c, e) then s.dirty + {e.key} else s.dirty)
    case DeliverReferrer(e) =>
      s.(referrerEvents := s.referrerEvents - {e}, dirty := s.dirty + WokenBy(c, s, e))
  }

  ghost function Advance(c: Config, s: State, k: Key, m: Move): State
    requires k in s.workers && MoveNext(s.workers[k], m)
  {
    var pc := s.workers[k];
    var h := OwnerLog(s, k);
    match m
    case ReadOwner => Goto(s, k, AfterRead(c, h.Cached(), h.seen))
    case ListReferrers =>
      Goto(s, k,
           if ReferencedInCache(s, k) then Finished(pc.v, false)
           else if c.kind.GatewayKind? then Tearing(pc.v, DELETE_ORDER)
           else AfterTeardown(c, Version(h, pc.v), pc.v))
    case DeletePart(outcome) =>
      Goto(if outcome.FailedBefore? then s else WithParts(c, s, k, Parts(c, s, k) - {pc.left[0]}), k,
           if !outcome.Applied? then Finished(pc.v, true)
           else if |pc.left| > 1 then Tearing(pc.v, pc.left[1..])
           else AfterTeardown(c, Version(h, pc.v), pc.v))
    case CreatePart(outcome) =>
      Goto(if outcome.FailedBefore? then s else WithParts(c, s, k, Parts(c, s, k) + {pc.left[0]}), k,
           if outcome.Applied? then Building(pc.v, pc.left[1..]) else Finished(pc.v, true))
    case Unpin(outcome) => TryWrite(s, k, pc.v, Unpinned(c, h, pc.v), outcome)
    case Pin(outcome) =>
      var t := TryWrite(s, k, pc.v, Repinned(c, h, pc.v), outcome);
      if c.kind.GatewayKind? && !t.workers[k].retry then t.(dirty := t.dirty + {k}) else t
    case Publish(writesStatus, fails) =>
      if writesStatus then TryWrite(s, k, pc.v, h.Last(), if fails then FailedAfter else Applied)
      else Goto(s, k, Finished(pc.v, fails))
    case Done =>
      s.(workers := s.workers - {k}, delayed := if pc.retry then s.delayed + {k} else s.delayed)
  }

  /** A new process lists everything afresh; only the cluster survives. */
  function Restarted(s: State): State {
    State(map k | k in s.owners :: CatchUp(s.owners[k]),
          map r | r in s.referrers :: CatchUp(s.referrers[r]),
          set k | k in s.owners && s.owners[k].Last().Some? :: Event(k, None, s.owners[k].Last()),
          set r | r in s.referrers && s.referrers[r].Last().Some? :: Event(r, None, s.referrers[r].Last()),
          {}, {}, map[], s.parts)
  }

  ghost function Step(c: Config, s: State, a: Action): State
    requires Enabled(c, s, a)
  {
    match a
    case User(e) => Apply(c, s, e)
    case Informer(e) => Notify(c, s, e)
    case Poke(k) => s.(dirty := s.dirty + {k})
    case Mature(k) => s.(delayed := s.delayed - {k}, dirty := s.dirty + {k})
    case Take(k) => Goto(s.(dirty := s.dirty - {k}), k, Start)
    case Work(k, m) => Advance(c, s, k, m)
    case Restart => Restarted(s)
  }

  // ---------------------------------------------------------------- Runs

  datatype Run = Run(states: seq<State>, actions: seq<Action>)

  ghost predicate IsRun(c: Config, r: Run) {
    && |r.states| == |r.actions| + 1
    && r.states[0] == INITIAL
    && forall i :: 0 <= i < |r.actions| ==>
         Enabled(c, r.states[i], r.actions[i]) && r.states[i + 1] == Step(c, r.states[i], r.actions[i])
  }

  ghost function Extend(c: Config, r: Run, a: Action): Run
    requires |r.states| > 0 && Enabled(c, r.states[|r.states| - 1], a)
  {
    Run(r.states + [Step(c, r.states[|r.states| - 1], a)], r.actions + [a])
  }

  ghost predicate EndsIn(c: Config, r: Run, s: State) {
    IsRun(c, r) && r.states[|r.states| - 1] == s
  }

  lemma ExtendRun(c: Config, r: Run, s: State, a: Action, t: State)
    requires EndsIn(c, r, s) && Enabled(c, s, a) && Step(c, s, a) == t
    ensures EndsIn(c, Extend(c, r, a), t)
  {
  }
}
