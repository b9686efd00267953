/**
 At most one issuance: however many replicas believe a request to be theirs, its first terminal
 condition stays, its certificate chain never changes and only one is ever stored.
 */
module SigningSafety {
  import opened Options
  import opened Names
  import opened SigningProtocol

  ghost predicate SameRequest(vs: Versions, a: nat, b: nat)
    requires a <= b < |vs|
  {
    vs[a].Some? && vs[b].Some? && vs[a].value.uid == vs[b].value.uid
  }

  /** A version that answers the request fixes the answer of every later version. */
  ghost predicate AnswersLast(vs: Versions) {
    && (forall a :: 0 <= a < |vs| && vs[a].Some? ==> vs[a].value.uid <= a)
    && (forall a, b :: 0 <= a <= b < |vs| && SameRequest(vs, a, b) && !vs[a].value.status.Pending? ==>
          vs[b].value.status == vs[a].value.status)
  }

  ghost predicate SafeWorker(c: Config, vs: Versions, p: Replica, k: Key) {
    && Seen(p, k) < |vs|
    && (k in p.workers ==>
          var pc := p.workers[k];
          && (!pc.Start? ==> pc.v <= Seen(p, k))
          && (pc.Deciding? || pc.Signing? ==> Open(c, vs[pc.v])))
  }

  /** The issuance is there to be read in the request's history. */
  ghost predicate Recorded(requests: map<Key, Versions>, i: Issuance) {
    exists b :: 0 <= b < |VersionsOf(requests, i.key)| && Shows(VersionsOf(requests, i.key)[b], i)
  }

  predicate Shows(x: Option<Request>, i: Issuance) {
    x.Some? && x.value.uid == i.uid && x.value.status == Issued(i.chain)
  }

  predicate Accounted(issuances: seq<Issuance>, k: Key, x: Option<Request>) {
    x.Some? && x.value.status.Issued? ==> Issuance(k, x.value.uid, x.value.status.chain) in issuances
  }

  /** Each request has been issued at most one certificate, and the books balance. */
  ghost predicate Books(s: State) {
    && (forall i :: 0 <= i < |s.issuances| ==> Recorded(s.requests, s.issuances[i]))
    && (forall i, j :: 0 <= i < j < |s.issuances| ==>
          s.issuances[i].key != s.issuances[j].key || s.issuances[i].uid != s.issuances[j].uid)
    && (forall k, b | 0 <= b < |VersionsOf(s.requests, k)| :: Accounted(s.issuances, k, VersionsOf(s.requests, k)[b]))
  }

  ghost predicate Safe(c: Config, s: State) {
    && (forall k :: AnswersLast(VersionsOf(s.requests, k)))
    && (forall n, k :: n in s.replicas ==> SafeWorker(c, VersionsOf(s.requests, k), s.replicas[n], k))
    && Books(s)
  }

  // ---------------------------------------------------------------- Steps

  /** What may follow the last version of a request. */
  predicate Successor(vs: Versions, x: Option<Request>) {
    match x
    case None => true
    case Some(n) =>
      if Last(vs).None? then n.uid == |vs|
      else n.uid == Last(vs).value.uid && (Last(vs).value.status.Pending? || n.status == Last(vs).value.status)
  }

  lemma AnswersStayLast(vs: Versions, x: Option<Request>)
    requires AnswersLast(vs) && Successor(vs, x)
    ensures AnswersLast(vs + [x])
  {
    var ws: Versions, n := vs + [x], |vs|;
    forall a, b | 0 <= a <= b <= n && SameRequest(ws, a, b) && !ws[a].value.status.Pending?
      ensures ws[b].value.status == ws[a].value.status
    {
      if b < n {
        assert SameRequest(vs, a, b);
      } else if a < n {
        assert SameRequest(vs, a, n - 1);
      }
    }
  }

  /** Writes that do not issue leave the books as they are. */
  lemma BooksKept(s: State, k: Key, x: Option<Request>)
    requires Books(s)
    requires x.Some? && x.value.status.Issued? ==> x == Last(VersionsOf(s.requests, k))
    ensures Books(WriteRequest(s, k, x))
  {
    var t := WriteRequest(s, k, x);
    forall i | 0 <= i < |s.issuances|
      ensures Recorded(t.requests, s.issuances[i])
    {
      assert Recorded(s.requests, s.issuances[i]);
      var j := s.issuances[i].key;
      var b :| 0 <= b < |VersionsOf(s.requests, j)| && Shows(VersionsOf(s.requests, j)[b], s.issuances[i]);
      assert VersionsOf(t.requests, j)[b] == VersionsOf(s.requests, j)[b];
    }
    forall j, b | 0 <= b < |VersionsOf(t.requests, j)|
      ensures Accounted(t.issuances, j, VersionsOf(t.requests, j)[b])
    {
      if b < |VersionsOf(s.requests, j)| {
        assert Accounted(s.issuances, j, VersionsOf(s.requests, j)[b]);
      } else {
        assert Accounted(s.issuances, k, VersionsOf(s.requests, k)[|VersionsOf(s.requests, k)| - 1]);
      }
    }
  }

  lemma SafeWrite(c: Config, s: State, k: Key, x: Option<Request>)
    requires Safe(c, s) && Successor(VersionsOf(s.requests, k), x)
    requires x.Some? && x.value.status.Issued? ==> x == Last(VersionsOf(s.requests, k))
    ensures Safe(c, WriteRequest(s, k, x))
  {
    BooksKept(s, k, x);
    SafeHistories(c, s, k, x);
  }

  lemma SafeHistories(c: Config, s: State, k: Key, x: Option<Request>)
    requires Safe(c, s) && Successor(VersionsOf(s.requests, k), x)
    ensures var q := WriteRequest(s, k, x).requests;
            && (forall j :: AnswersLast(VersionsOf(q, j)))
            && (forall n, j :: n in s.replicas ==> SafeWorker(c, VersionsOf(q, j), s.replicas[n], j))
  {
    var q := WriteRequest(s, k, x).requests;
    AnswersStayLast(VersionsOf(s.requests, k), x);
    forall j ensures AnswersLast(VersionsOf(q, j)) {
      assert j != k ==> VersionsOf(q, j) == VersionsOf(s.requests, j);
    }
    forall n, j | n in s.replicas ensures SafeWorker(c, VersionsOf(q, j), s.replicas[n], j) {
      assert SafeWorker(c, VersionsOf(s.requests, j), s.replicas[n], j);
    }
  }

  lemma SafeChange(c: Config, s: State, e: Change)
    requires Safe(c, s) && ChangeAllowed(s, e)
    ensures Safe(c, Apply(s, e))
  {
    match e
    case CreateRequest(k, signer) => SafeWrite(c, s, k, Some(Request(|VersionsOf(s.requests, k)|, signer, Pending)));
    case TouchRequest(k) => SafeWrite(c, s, k, Last(VersionsOf(s.requests, k)));
    case RefuseRequest(k, verdict) =>
      SafeWrite(c, s, k, Some(Last(VersionsOf(s.requests, k)).value.(status := verdict)));
    case DeleteRequest(k) => SafeWrite(c, s, k, None);
    case Tick(_) =>
    case DropLease(_) =>
  }

  /** A request that is still unanswered has never been issued a certificate. */
  lemma UnansweredIsUnissued(c: Config, s: State, k: Key, i: Issuance)
    requires Safe(c, s) && i in s.issuances && i.key == k
    requires Last(VersionsOf(s.requests, k)).Some? && Last(VersionsOf(s.requests, k)).value.status.Pending?
    ensures i.uid != Last(VersionsOf(s.requests, k)).value.uid
  {
    var vs := VersionsOf(s.requests, k);
    assert Recorded(s.requests, i);
    var b :| 0 <= b < |vs| && Shows(vs[b], i);
    assert SameRequest(vs, b, |vs| - 1) <==> i.uid == Last(vs).value.uid;
  }

  /** The status write that goes through finds the request unanswered. */
  lemma BooksBalance(c: Config, s: State, k: Key, x: Request, chain: string)
    requires Safe(c, s) && Last(VersionsOf(s.requests, k)) == Some(x) && x.status.Pending?
    ensures Books(WriteRequest(s, k, Some(x.(status := Issued(chain))))
                    .(issuances := s.issuances + [Issuance(k, x.uid, chain)]))
  {
    var i := Issuance(k, x.uid, chain);
    var y := Some(x.(status := Issued(chain)));
    var t := WriteRequest(s, k, y).(issuances := s.issuances + [i]);
    var n := |s.issuances|;
    forall j | 0 <= j < n
      ensures Recorded(t.requests, t.issuances[j])
      ensures t.issuances[j].key != k || t.issuances[j].uid != x.uid
    {
      var o := s.issuances[j];
      assert Recorded(s.requests, o);
      var b :| 0 <= b < |VersionsOf(s.requests, o.key)| && Shows(VersionsOf(s.requests, o.key)[b], o);
      assert VersionsOf(t.requests, o.key)[b] == VersionsOf(s.requests, o.key)[b];
      if o.key == k {
        UnansweredIsUnissued(c, s, k, o);
      }
    }
    assert Shows(VersionsOf(t.requests, k)[|VersionsOf(s.requests, k)|], i);
    assert t.issuances[n] == i;
    forall j, b | 0 <= b < |VersionsOf(t.requests, j)|
      ensures Accounted(t.issuances, j, VersionsOf(t.requests, j)[b])
    {
      if b < |VersionsOf(s.requests, j)| {
        assert Accounted(s.issuances, j, VersionsOf(s.requests, j)[b]);
      }
    }
  }

  lemma SafeIssue(c: Config, s: State, self: string, p: Replica, m: Move)
    requires Safe(c, s) && Accepted(s, p, m) && SafeWorker(c, VersionsOf(s.requests, m.key), p, m.key)
    ensures var t := Served(s, self, p, m);
            Books(t) && forall k :: AnswersLast(VersionsOf(t.requests, k))
  {
    var k := m.key;
    var x, chain := Last(VersionsOf(s.requests, k)).value, p.workers[k].chain;
    BooksBalance(c, s, k, x, chain);
    SafeHistories(c, s, k, Some(x.(status := Issued(chain))));
  }

  lemma WorkersStaySafe(c: Config, s: State, self: string, p: Replica, m: Move, k: Key)
    requires MoveAllowed(c, s, self, p, m) && SafeWorker(c, VersionsOf(s.requests, k), p, k)
    ensures SafeWorker(c, VersionsOf(s.requests, k), Advance(c, s, p, m), k)
  {
  }

  lemma LaterVersionsAreSafe(c: Config, vs: Versions, x: Option<Request>, p: Replica, k: Key)
    requires SafeWorker(c, vs, p, k)
    ensures SafeWorker(c, vs + [x], p, k)
  {
  }

  lemma BootIsSafe(c: Config, s: State, k: Key)
    ensures SafeWorker(c, VersionsOf(s.requests, k), Booted(s), k)
  {
  }

  lemma SafeMove(c: Config, s: State, self: string, m: Move)
    requires Safe(c, s) && Enabled(c, s, Act(self, m))
    ensures Safe(c, Step(c, s, Act(self, m)))
  {
    var p := if self in s.replicas then s.replicas[self] else Booted(s);
    var t := Step(c, s, Act(self, m));
    if Accepted(s, p, m) {
      SafeIssue(c, s, self, p, m);
    }
    forall n, k | n in t.replicas
      ensures SafeWorker(c, VersionsOf(t.requests, k), t.replicas[n], k)
    {
      if n == self {
        BootIsSafe(c, s, k);
        if !m.Boot? {
          WorkersStaySafe(c, s, self, p, m, k);
        }
      }
      if VersionsOf(t.requests, k) != VersionsOf(s.requests, k) {
        LaterVersionsAreSafe(c, VersionsOf(s.requests, k), Last(VersionsOf(t.requests, k)), t.replicas[n], k);
      }
    }
  }

  lemma {:induction false} SafeRun(c: Config, r: Run, i: nat)
    requires IsRun(c, r) && i < |r.states|
    ensures Safe(c, r.states[i])
  {
    if i > 0 {
      SafeRun(c, r, i - 1);
      match r.actions[i - 1]
      case World(e) => SafeChange(c, r.states[i - 1], e);
      case Act(self, m) => SafeMove(c, r.states[i - 1], self, m);
    }
  }

  // ---------------------------------------------------------------- Whole runs

  /** In every state of every run, no request has been issued two certificates. */
  lemma AtMostOneIssuance(c: Config, r: Run)
    requires IsRun(c, r)
    ensures forall s, i, j :: s in r.states && 0 <= i < j < |s.issuances| ==>
              s.issuances[i].key != s.issuances[j].key || s.issuances[i].uid != s.issuances[j].uid
  {
    forall s | s in r.states
      ensures Books(s)
    {
      var i :| 0 <= i < |r.states| && r.states[i] == s;
      SafeRun(c, r, i);
    }
  }

  lemma StepsOnlyAppend(c: Config, s: State, a: Action, k: Key)
    ensures VersionsOf(s.requests, k) <= VersionsOf(Step(c, s, a).requests, k)
  {
    match a
    case World(e) =>
    case Act(self, m) =>
  }

  ghost predicate Growing(states: seq<State>, k: Key) {
    forall i, j :: 0 <= i && j == i + 1 && j < |states| ==>
        VersionsOf(states[i].requests, k) <= VersionsOf(states[j].requests, k)
  }

  lemma RunsGrow(c: Config, r: Run, k: Key)
    requires IsRun(c, r)
    ensures Growing(r.states, k)
  {
    forall i, j | 0 <= i && j == i + 1 && j < |r.states|
      ensures VersionsOf(r.states[i].requests, k) <= VersionsOf(r.states[j].requests, k)
    {
      StepsOnlyAppend(c, r.states[i], r.actions[i], k);
    }
  }

  lemma {:induction false} HistoriesGrow(states: seq<State>, i: nat, j: nat, k: Key)
    requires Growing(states, k) && i <= j < |states|
    ensures VersionsOf(states[i].requests, k) <= VersionsOf(states[j].requests, k)
    decreases j
  {
    if i < j {
      HistoriesGrow(states, i, j - 1, k);
    }
  }

  /** An answered request keeps its answer, chain included, for the rest of the run. */
  lemma AnswersAreFinal(c: Config, r: Run, i: nat, j: nat, k: Key)
    requires IsRun(c, r) && i <= j < |r.states|
    requires var x, y := Last(VersionsOf(r.states[i].requests, k)), Last(VersionsOf(r.states[j].requests, k));
             x.Some? && y.Some? && x.value.uid == y.value.uid && !x.value.status.Pending?
    ensures Last(VersionsOf(r.states[j].requests, k)).value.status == Last(VersionsOf(r.states[i].requests, k)).value.status
  {
    SafeRun(c, r, j);
    RunsGrow(c, r, k);
    HistoriesGrow(r.states, i, j, k);
    var vs, n := VersionsOf(r.states[j].requests, k), |VersionsOf(r.states[i].requests, k)|;
    assert SameRequest(vs, n - 1, |vs| - 1);
  }
}
