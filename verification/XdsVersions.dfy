/**
 Snapshot versions of the xDS server (pkg/infra/xds/server.go): a shared counter is incremented,
 read and used in three separate steps by workers that run concurrently.
 */
module XdsVersions {
  import opened Names

  /** Gives a Gateway the name of its proxy, which is the node id its snapshots are kept under. */
  type Naming = Key -> string

  /** Where an update of a Gateway stands: the counter was incremented, or its value was read. */
  datatype Pc = Added | Loaded(version: nat)

  /** `installed` is the history of the versions a node was given, the last one being current. */
  datatype State = State(counter: nat, updates: map<Key, Pc>, installed: map<string, seq<nat>>)

  const INITIAL := State(0, map[], map[])

  /** `Fail` ends an update before its snapshot is installed. */
  datatype Action = Add(key: Key) | Load(key: Key) | SetSnapshot(key: Key) | Fail(key: Key)

  function Versions(s: State, node: string): seq<nat> { if node in s.installed then s.installed[node] else [] }

  /** The updates of one Gateway are serialised by its work-queue key. */
  predicate Enabled(s: State, a: Action) {
    match a
    case Add(k) => k !in s.updates
    case Load(k) => k in s.updates && s.updates[k].Added?
    case SetSnapshot(k) => k in s.updates && s.updates[k].Loaded?
    case Fail(k) => k in s.updates && s.updates[k].Loaded?
  }

  function Step(node: Naming, s: State, a: Action): State
    requires Enabled(s, a)
  {
    match a
    case Add(k) => s.(counter := s.counter + 1, updates := s.updates[k := Added])
    case Load(k) => s.(updates := s.updates[k := Loaded(s.counter)])
    case SetSnapshot(k) =>
      s.(updates := s.updates - {k}, installed := s.installed[node(k) := Versions(s, node(k)) + [s.updates[k].version]])
    case Fail(k) => s.(updates := s.updates - {k})
  }

  predicate IsRun(node: Naming, s: State, run: seq<Action>)
    decreases |run|
  {
    run == [] || (Enabled(s, run[0]) && IsRun(node, Step(node, s, run[0]), run[1..]))
  }

  function Run(node: Naming, s: State, run: seq<Action>): State
    requires IsRun(node, s, run)
    decreases |run|
  {
    if run == [] then s else Run(node, Step(node, s, run[0]), run[1..])
  }

  predicate Increasing(vs: seq<nat>) { forall i, j :: 0 <= i < j < |vs| ==> vs[i] < vs[j] }

  /** No other Gateway shares the node. */
  ghost predicate Alone(node: Naming, k: Key) { forall j :: node(j) == node(k) ==> j == k }

  /** Everything installed so far lies below what an update in progress will install. */
  predicate NodeInvariant(node: Naming, s: State, k: Key) {
    var vs := Versions(s, node(k));
    && Increasing(vs)
    && (forall i :: 0 <= i < |vs| ==> vs[i] <= s.counter)
    && (k in s.updates ==>
          var bound := if s.updates[k].Loaded? then s.updates[k].version else s.counter;
          bound <= s.counter && forall i :: 0 <= i < |vs| ==> vs[i] < bound)
  }

  lemma NodeStep(node: Naming, s: State, a: Action, k: Key)
    requires Alone(node, k) && NodeInvariant(node, s, k) && Enabled(s, a)
    ensures NodeInvariant(node, Step(node, s, a), k)
  {
    assert a.key != k ==> node(a.key) != node(k);
  }

  lemma {:induction false} NodeRun(node: Naming, s: State, run: seq<Action>, k: Key)
    requires Alone(node, k) && NodeInvariant(node, s, k) && IsRun(node, s, run)
    ensures NodeInvariant(node, Run(node, s, run), k)
    decreases |run|
  {
    if run != [] {
      NodeStep(node, s, run[0], k);
      NodeRun(node, Step(node, s, run[0]), run[1..], k);
    }
  }

  /** In every interleaving the versions installed for a node that one Gateway has alone strictly increase. */
  lemma VersionsIncrease(node: Naming, run: seq<Action>, k: Key)
    requires IsRun(node, INITIAL, run) && Alone(node, k)
    ensures Increasing(Versions(Run(node, INITIAL, run), node(k)))
  {
    NodeRun(node, INITIAL, run, k);
  }

  lemma RunUnfolds(node: Naming, s: State, a: Action, rest: seq<Action>)
    requires Enabled(s, a) && IsRun(node, Step(node, s, a), rest)
    ensures IsRun(node, s, [a] + rest) && Run(node, s, [a] + rest) == Run(node, Step(node, s, a), rest)
  {
    assert ([a] + rest)[1..] == rest;
  }

  /** Six steps one after the other. */
  lemma SixSteps(node: Naming, a: Action, b: Action, c: Action, d: Action, e: Action, f: Action)
    requires Enabled(INITIAL, a) && Enabled(Step(node, INITIAL, a), b)
    requires var s := Step(node, Step(node, INITIAL, a), b);
             && Enabled(s, c) && Enabled(Step(node, s, c), d)
             && Enabled(Step(node, Step(node, s, c), d), e) && Enabled(Step(node, Step(node, Step(node, s, c), d), e), f)
    ensures IsRun(node, INITIAL, [a, b, c, d, e, f])
    ensures var s := Step(node, Step(node, INITIAL, a), b);
            Run(node, INITIAL, [a, b, c, d, e, f]) == Step(node, Step(node, Step(node, Step(node, s, c), d), e), f)
  {
    var s1 := Step(node, INITIAL, a);
    var s2 := Step(node, s1, b);
    var s3 := Step(node, s2, c);
    var s4 := Step(node, s3, d);
    var s5 := Step(node, s4, e);
    RunUnfolds(node, s5, f, []);
    RunUnfolds(node, s4, e, [f]);
    RunUnfolds(node, s3, d, [e, f]);
    RunUnfolds(node, s2, c, [d, e, f]);
    RunUnfolds(node, s1, b, [c, d, e, f]);
    RunUnfolds(node, INITIAL, a, [b, c, d, e, f]);
    assert [f] + [] == [f] && [e] + [f] == [e, f] && [d] + [e, f] == [d, e, f] && [c] + [d, e, f] == [c, d, e, f];
    assert [b] + [c, d, e, f] == [b, c, d, e, f] && [a] + [b, c, d, e, f] == [a, b, c, d, e, f];
  }

  // ---------------------------------------------------------------- Shared nodes

  /** Two Gateways of one node: the one that read first installs last, and the version falls. */
  lemma SharedNodeFallsBack(node: Naming, a: Key, b: Key)
    requires a != b && node(a) == node(b)
    ensures var run := [Add(a), Load(a), Add(b), Load(b), SetSnapshot(b), SetSnapshot(a)];
            IsRun(node, INITIAL, run) && Versions(Run(node, INITIAL, run), node(a)) == [2, 1]
  {
    SixSteps(node, Add(a), Load(a), Add(b), Load(b), SetSnapshot(b), SetSnapshot(a));
  }

  /** The versions of every node increase in every run if and only if no two Gateways share a node. */
  lemma IncreaseIffDistinctNodes(node: Naming)
    ensures (forall run, k :: IsRun(node, INITIAL, run) ==> Increasing(Versions(Run(node, INITIAL, run), node(k)))) <==>
              forall k :: Alone(node, k)
  {
    if forall k :: Alone(node, k) {
      forall run, k | IsRun(node, INITIAL, run)
        ensures Increasing(Versions(Run(node, INITIAL, run), node(k)))
      {
        VersionsIncrease(node, run, k);
      }
    } else {
      var k :| !Alone(node, k);
      var j :| node(j) == node(k) && j != k;
      SharedNodeFallsBack(node, k, j);
      var run := [Add(k), Load(k), Add(j), Load(j), SetSnapshot(j), SetSnapshot(k)];
      var vs := Versions(Run(node, INITIAL, run), node(k));
      assert vs == [2, 1] && vs[0] > vs[1];
    }
  }

  // ---------------------------------------------------------------- Versions of different nodes

  /** Both updates have been announced before either reads the counter: they read the same value. */
  lemma OverlappingUpdatesShareAVersion(node: Naming, a: Key, b: Key)
    requires a != b && node(a) != node(b)
    ensures var run := [Add(a), Add(b), Load(a), Load(b), SetSnapshot(a), SetSnapshot(b)];
            && IsRun(node, INITIAL, run)
            && Versions(Run(node, INITIAL, run), node(a)) == Versions(Run(node, INITIAL, run), node(b)) == [2]
  {
    SixSteps(node, Add(a), Add(b), Load(a), Load(b), SetSnapshot(a), SetSnapshot(b));
  }

  /** What an update that is yet to read the counter will see is above all that was read before it began. */
  predicate AboveAll(s: State, k: Key, seen: nat) {
    k in s.updates ==>
      match s.updates[k]
      case Added => seen < s.counter
      case Loaded(v) => seen < v
  }

  lemma {:induction false} AboveAllRun(node: Naming, s: State, run: seq<Action>, k: Key, seen: nat)
    requires IsRun(node, s, run) && AboveAll(s, k, seen) && seen <= s.counter
    requires forall i :: 0 <= i < |run| ==> run[i] != Add(k)
    ensures AboveAll(Run(node, s, run), k, seen)
    decreases |run|
  {
    if run != [] {
      AboveAllRun(node, Step(node, s, run[0]), run[1..], k, seen);
    }
  }

  /** What an update installs is above every version that had been read or installed when it began. */
  lemma LaterUpdatesGetLaterVersions(node: Naming, s: State, run: seq<Action>, k: Key, seen: nat)
    requires Enabled(s, Add(k)) && seen <= s.counter && IsRun(node, Step(node, s, Add(k)), run)
    requires forall i :: 0 <= i < |run| ==> run[i] != Add(k)
    ensures AboveAll(Run(node, Step(node, s, Add(k)), run), k, seen)
  {
    AboveAllRun(node, Step(node, s, Add(k)), run, k, seen);
  }

  // ---------------------------------------------------------------- Exactly which reads agree

  function Adds(run: seq<Action>): nat {
    if run == [] then 0 else (if run[0].Add? then 1 else 0) + Adds(run[1..])
  }

  lemma {:induction false} NoAdds(run: seq<Action>)
    ensures Adds(run) == 0 <==> forall i :: 0 <= i < |run| ==> !run[i].Add?
  {
    if run != [] {
      NoAdds(run[1..]);
      assert run == [run[0]] + run[1..];
      assert forall i :: 0 <= i < |run[1..]| ==> run[1..][i] == run[i + 1];
    }
  }

  lemma {:induction false} CounterCountsAdds(node: Naming, s: State, run: seq<Action>)
    requires IsRun(node, s, run)
    ensures Run(node, s, run).counter == s.counter + Adds(run)
    decreases |run|
  {
    if run != [] {
      CounterCountsAdds(node, Step(node, s, run[0]), run[1..]);
    }
  }

  lemma {:induction false} RunsSplit(node: Naming, s: State, run: seq<Action>, i: nat)
    requires IsRun(node, s, run) && i <= |run|
    ensures IsRun(node, s, run[..i]) && IsRun(node, Run(node, s, run[..i]), run[i..])
    ensures Run(node, Run(node, s, run[..i]), run[i..]) == Run(node, s, run)
    decreases |run|
  {
    if i == 0 {
      assert run[..0] == [] && run[0..] == run;
    } else {
      RunsSplit(node, Step(node, s, run[0]), run[1..], i - 1);
      assert run[..i][1..] == run[1..][..i - 1] && run[i..] == run[1..][i - 1..];
    }
  }

  /** The version that the Load at position `i` of a run reads. */
  function ReadAt(node: Naming, s: State, run: seq<Action>, i: nat): nat
    requires i < |run| && IsRun(node, s, run[..i])
  {
    Run(node, s, run[..i]).counter
  }

  /** Two Loads of a run read the same version if and only if no Add lies between them. */
  lemma SameVersionIffNoAddBetween(node: Naming, s: State, run: seq<Action>, i: nat, j: nat)
    requires IsRun(node, s, run) && i < j < |run| && run[i].Load? && run[j].Load?
    ensures IsRun(node, s, run[..i]) && IsRun(node, s, run[..j])
    ensures ReadAt(node, s, run, i) == ReadAt(node, s, run, j) <==> forall k :: i < k < j ==> !run[k].Add?
  {
    RunsSplit(node, s, run, i);
    RunsSplit(node, s, run, j);
    RunsSplit(node, s, run[..j], i);
    assert run[..j][..i] == run[..i] && run[..j][i..] == run[i..j];
    CounterCountsAdds(node, Run(node, s, run[..i]), run[i..j]);
    NoAdds(run[i..j]);
    assert forall k :: i <= k < j ==> run[i..j][k - i] == run[k];
    assert run[i..j][0] == run[i];
  }

  /** And what a Load reads is what its update installs. */
  lemma LoadedIsRead(node: Naming, s: State, run: seq<Action>, i: nat)
    requires IsRun(node, s, run) && i < |run| && run[i].Load?
    ensures IsRun(node, s, run[..i]) && Enabled(Run(node, s, run[..i]), run[i])
    ensures run[i].key in Step(node, Run(node, s, run[..i]), run[i]).updates
    ensures Step(node, Run(node, s, run[..i]), run[i]).updates[run[i].key] == Loaded(ReadAt(node, s, run, i))
  {
    RunsSplit(node, s, run, i);
    assert run[i..][0] == run[i];
  }
}
