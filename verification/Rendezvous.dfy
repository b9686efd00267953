/**
 Rendezvous hashing (pkg/infra/rendezvous/hasher.go): every replica keeps a lease; an item
 belongs to the live replica whose name hashes highest together with it. The hash is any
 function.
 */
module Rendezvous {
  import opened Options
  import opened Text

  type Uint64 = x: nat | x < 0x1_0000_0000_0000_0000

  type Hash = string -> Uint64

  /** A lease as the informer shows it; times and durations are whole seconds. */
  datatype Lease = Lease(holder: Option<string>, renewTime: int, duration: Option<int>)

  const LEASE_DURATION := 15

  predicate Live(l: Lease, now: int) {
    l.holder.Some? && now <= l.renewTime + l.duration.GetOr(0)
  }

  function Holders(leases: seq<Lease>, now: int): seq<string> {
    if leases == [] then []
    else
      var rest := Holders(leases[..|leases| - 1], now);
      var l := leases[|leases| - 1];
      if Live(l, now) then rest + [l.holder.value] else rest
  }

  /** Who is live, as a set: order and repetitions do not count. */
  ghost function LiveSet(leases: seq<Lease>, now: int): set<string> {
    set l | l in leases && Live(l, now) :: l.holder.value
  }

  /** Higher weight first, and the smaller name on a tie. */
  predicate Beats(h: Hash, item: string, a: string, b: string) {
    h(item + a) > h(item + b) || (h(item + a) == h(item + b) && Less(a, b))
  }

  ghost predicate IsOwner(h: Hash, item: string, live: set<string>, x: string) {
    x in live && forall y :: y in live && y != x ==> Beats(h, item, x, y)
  }

  // ---------------------------------------------------------------- The election as coded

  function Preferred(h: Hash, item: string, best: string, next: string): string {
    if best == "" || Beats(h, item, next, best) then next else best
  }

  /** The fold of the source: the empty name stands for "nobody yet". */
  function Elect(h: Hash, item: string, names: seq<string>): string {
    if names == [] then ""
    else Preferred(h, item, Elect(h, item, names[..|names| - 1]), names[|names| - 1])
  }

  method AssignedToThisReplica(h: Hash, leases: seq<Lease>, now: int, item: string, self: string)
    returns (mine: bool)
    ensures mine <==> Elect(h, item, Holders(leases, now)) == self
    ensures self != "" && !IsOwner(h, item, LiveSet(leases, now), "") ==>
              (mine <==> IsOwner(h, item, LiveSet(leases, now), self))
    ensures mine && self != "" ==>
              exists l :: l in leases && l.holder == Some(self) &&
                now <= l.renewTime + if l.duration.Some? then l.duration.value else 0
  {
    var live: seq<string> := [];
    for i := 0 to |leases|
      invariant live == Holders(leases[..i], now)
    {
      assert leases[..i + 1][..i] == leases[..i];
      var duration := 0;
      if leases[i].duration.Some? {
        duration := leases[i].duration.value;
      }
      var deadline := leases[i].renewTime + duration;
      if deadline < now {
        continue;
      }
      if leases[i].holder.None? {
        continue;
      }
      live := live + [leases[i].holder.value];
    }
    assert leases[..|leases|] == leases;

    var maxWeight: Uint64 := 0;
    var maxReplica := "";
    for i := 0 to |live|
      invariant maxReplica == Elect(h, item, live[..i])
      invariant maxReplica != "" ==> maxWeight == h(item + maxReplica)
    {
      assert live[..i + 1][..i] == live[..i];
      var replica := live[i];
      var weight := h(item + replica);
      if maxReplica == "" {
        maxWeight, maxReplica := weight, replica;
      } else if weight > maxWeight || (weight == maxWeight && Less(replica, maxReplica)) {
        maxWeight, maxReplica := weight, replica;
      }
    }
    assert live[..|live|] == live;
    HoldersAreTheLiveSet(leases, now);
    if live != [] && !IsOwner(h, item, LiveSet(leases, now), "") {
      assert live[0] in LiveSet(leases, now);
      var owner := OwnerExists(h, item, LiveSet(leases, now));
      ElectsNamedOwner(h, item, live, LiveSet(leases, now), owner);
      if IsOwner(h, item, LiveSet(leases, now), self) {
        OwnerIsUnique(h, item, LiveSet(leases, now), owner, self);
      }
    }
    ElectsFromTheList(h, item, live);
    CandidatesRenewedInTime(leases, now, maxReplica);
    return maxReplica == self;
  }

  lemma {:induction false} ElectsFromTheList(h: Hash, item: string, names: seq<string>)
    ensures Elect(h, item, names) == "" || Elect(h, item, names) in names
  {
    if names != [] {
      ElectsFromTheList(h, item, names[..|names| - 1]);
    }
  }

  lemma {:induction false} HoldersAreTheLiveSet(leases: seq<Lease>, now: int)
    ensures (set n | n in Holders(leases, now)) == LiveSet(leases, now)
  {
    if leases != [] {
      var init, l := leases[..|leases| - 1], leases[|leases| - 1];
      assert leases == init + [l];
      HoldersAreTheLiveSet(init, now);
      assert forall n :: n in LiveSet(leases, now) <==>
          n in LiveSet(init, now) || (Live(l, now) && n == l.holder.value);
      assert forall n :: n in LiveSet(init, now) <==> n in Holders(init, now);
    }
  }

  // ---------------------------------------------------------------- Leases

  /** The candidates, lease by lease: whoever renewed in time, an absent duration counting as 0. */
  lemma {:induction false} CandidatesRenewedInTime(leases: seq<Lease>, now: int, x: string)
    ensures x in Holders(leases, now) <==>
              exists l :: l in leases && l.holder == Some(x) &&
                now <= l.renewTime + if l.duration.Some? then l.duration.value else 0
  {
    if leases != [] {
      var init, l := leases[..|leases| - 1], leases[|leases| - 1];
      assert leases == init + [l];
      CandidatesRenewedInTime(init, now, x);
    }
  }

  /** Whoever owns an item holds a lease that has not run out. */
  lemma OwnerRenewedInTime(h: Hash, item: string, leases: seq<Lease>, now: int, x: string)
    requires IsOwner(h, item, LiveSet(leases, now), x)
    ensures exists l :: l in leases && l.holder == Some(x) &&
              now <= l.renewTime + if l.duration.Some? then l.duration.value else 0
  {
    HoldersAreTheLiveSet(leases, now);
    CandidatesRenewedInTime(leases, now, x);
  }

  lemma {:induction false} HoldersAppend(leases: seq<Lease>, more: seq<Lease>, now: int)
    ensures Holders(leases + more, now) == Holders(leases, now) + Holders(more, now)
  {
    var all := leases + more;
    if more == [] {
      assert all == leases;
    } else {
      assert all[..|all| - 1] == leases + more[..|more| - 1];
      HoldersAppend(leases, more[..|more| - 1], now);
    }
  }

  /** A lease that has run out, wherever it stands in the cache, changes nobody's answer. */
  lemma ExpiredLeaseIsIdle(h: Hash, item: string, before: seq<Lease>, l: Lease, after: seq<Lease>, now: int)
    requires now > l.renewTime + if l.duration.Some? then l.duration.value else 0
    ensures Elect(h, item, Holders(before + [l] + after, now)) == Elect(h, item, Holders(before + after, now))
  {
    HoldersAppend(before + [l], after, now);
    HoldersAppend(before, [l], now);
    HoldersAppend(before, after, now);
    assert [l][..0] == [];
    assert Holders([l], now) == [];
  }

  /** For instance: of a replica that died at 0 and one that renewed at 100, the second gets every item. */
  lemma DeadReplicaOwnsNothing(h: Hash, item: string)
    ensures var leases := [Lease(Some("a"), 0, Some(15)), Lease(Some("b"), 100, Some(15))];
            IsOwner(h, item, LiveSet(leases, 100), "b") && Elect(h, item, Holders(leases, 100)) == "b"
  {
    var a, b := Lease(Some("a"), 0, Some(15)), Lease(Some("b"), 100, Some(15));
    var leases := [a, b];
    assert [a] + [b] == leases && [] + [a] + [b] == leases && [] + [b] == [b] && [b][..0] == [];
    assert b in leases;
    assert Live(b, 100) && !Live(a, 100);
    assert forall x :: x in LiveSet(leases, 100) <==> x == "b";
    ExpiredLeaseIsIdle(h, item, [], a, [b], 100);
    assert Holders([b], 100) == ["b"] && ["b"][..0] == [];
  }

  // ---------------------------------------------------------------- Ownership

  lemma BeatsIsTransitive(h: Hash, item: string, a: string, b: string, c: string)
    requires Beats(h, item, a, b) && Beats(h, item, b, c)
    ensures Beats(h, item, a, c)
  {
    if h(item + a) == h(item + b) == h(item + c) {
      LessIsTransitive(a, b, c);
    }
  }

  lemma BeatsIsTotal(h: Hash, item: string, a: string, b: string)
    ensures a == b || Beats(h, item, a, b) || Beats(h, item, b, a)
    ensures Beats(h, item, a, b) ==> a != b && !Beats(h, item, b, a)
  {
    LessIsTotal(a, b);
    if Less(a, b) { LessIsAsymmetric(a, b); }
  }

  lemma OwnerIsUnique(h: Hash, item: string, live: set<string>, x: string, y: string)
    requires IsOwner(h, item, live, x) && IsOwner(h, item, live, y)
    ensures x == y
  {
    BeatsIsTotal(h, item, x, y);
  }

  lemma {:induction false} OwnerExists(h: Hash, item: string, live: set<string>) returns (x: string)
    requires live != {}
    ensures IsOwner(h, item, live, x)
    decreases |live|
  {
    var next :| next in live;
    if live == {next} {
      return next;
    }
    var best := OwnerExists(h, item, live - {next});
    BeatsIsTotal(h, item, best, next);
    if Beats(h, item, next, best) {
      forall y | y in live && y != next && y != best
        ensures Beats(h, item, next, y)
      {
        BeatsIsTransitive(h, item, next, best, y);
      }
      return next;
    }
    return best;
  }

  /** The names of `live`, in some order and possibly repeated. */
  ghost predicate Lists(names: seq<string>, live: set<string>) { (set n | n in names) == live }

  /** The fold finds an owner that has a name, whatever else is in the list. */
  lemma {:induction false} ElectsNamedOwner(h: Hash, item: string, names: seq<string>, live: set<string>, owner: string)
    requires (forall n :: n in names ==> n in live) && IsOwner(h, item, live, owner) && owner != ""
    ensures owner in names ==> Elect(h, item, names) == owner
    ensures owner !in names ==> Elect(h, item, names) == "" || Elect(h, item, names) in names
  {
    if names != [] {
      var init, next := names[..|names| - 1], names[|names| - 1];
      assert names == init + [next];
      ElectsNamedOwner(h, item, init, live, owner);
      BeatsIsTotal(h, item, owner, next);
      BeatsIsTotal(h, item, owner, Elect(h, item, init));
    }
  }

  lemma {:induction false} ListingExists(live: set<string>) returns (names: seq<string>)
    ensures Lists(names, live)
    decreases |live|
  {
    if live == {} {
      return [];
    }
    var n :| n in live;
    names := ListingExists(live - {n});
    names := names + [n];
    assert forall m :: m in names <==> m in live - {n} || m == n;
  }

  /** An owner without a name loses to a name at the end of the list. */
  lemma NamelessOwnerLoses(h: Hash, item: string, live: set<string>, named: string) returns (names: seq<string>)
    requires named in live && named != ""
    ensures Lists(names, live) && Elect(h, item, names) != ""
  {
    var all := ListingExists(live);
    names := all + [named];
    assert names[..|names| - 1] == all;
    assert forall m :: m in names <==> m in all || m == named;
  }

  /**
   Every listing of a live set elects its owner if and only if the owner has a name or nobody
   else is there.
   */
  lemma AgreementIffOwnerIsNamed(h: Hash, item: string, live: set<string>, owner: string)
    requires IsOwner(h, item, live, owner)
    ensures (forall names :: Lists(names, live) ==> Elect(h, item, names) == owner) <==> owner != "" || live == {""}
  {
    if owner != "" {
      forall names | Lists(names, live)
        ensures Elect(h, item, names) == owner
      {
        assert forall n :: n in names <==> n in live;
        ElectsNamedOwner(h, item, names, live, owner);
      }
    } else if live == {""} {
      forall names | Lists(names, live)
        ensures Elect(h, item, names) == ""
      {
        forall i | 0 <= i < |names| ensures names[i] == "" {
          assert names[i] in (set n | n in names);
          assert names[i] in live;
          assert names[i] in {""};
        }
        ElectsNothing(h, item, names);
      }
    } else {
      var named :| named in live && named != "";
      var names := NamelessOwnerLoses(h, item, live, named);
    }
  }

  lemma {:induction false} ElectsNothing(h: Hash, item: string, names: seq<string>)
    requires forall i :: 0 <= i < |names| ==> names[i] == ""
    ensures Elect(h, item, names) == ""
  {
    if names != [] {
      ElectsNothing(h, item, names[..|names| - 1]);
    }
  }

  /**
   Replicas that see the same replicas live agree, whatever the order and the repetitions in
   their caches: exactly one of the live replicas finds the item assigned to itself.
   */
  lemma ExactlyOneIsAssigned(h: Hash, item: string, live: set<string>)
    requires live != {} && !IsOwner(h, item, live, "")
    ensures exists owner ::
              && owner in live
              && forall leases, now, self ::
                   LiveSet(leases, now) == live && self in live ==>
                     (Elect(h, item, Holders(leases, now)) == self <==> self == owner)
  {
    var owner := OwnerExists(h, item, live);
    AgreementIffOwnerIsNamed(h, item, live, owner);
    forall leases, now, self | LiveSet(leases, now) == live && self in live
      ensures Elect(h, item, Holders(leases, now)) == self <==> self == owner
    {
      HoldersAreTheLiveSet(leases, now);
      assert Lists(Holders(leases, now), live);
    }
  }

  /** For instance: with "" the owner of an item, the order of two names decides. */
  lemma EmptyNamesDisagree(h: Hash)
    requires h("item") > h("item" + "a")
    ensures (set n | n in ["", "a"]) == (set n | n in ["a", ""])
    ensures Elect(h, "item", ["", "a"]) == "a"
    ensures Elect(h, "item", ["a", ""]) == ""
  {
    assert "item" + "" == "item";
    assert ["", "a"][..1] == [""] && ["a", ""][..1] == ["a"];
    assert [""][..0] == [] && ["a"][..0] == [];
    assert Elect(h, "item", []) == "";
    assert Elect(h, "item", [""]) == "";
    assert Elect(h, "item", ["a"]) == "a";
  }

  // ---------------------------------------------------------------- Membership changes

  lemma LeavingMovesOnlyOwnItems(h: Hash, item: string, live: set<string>, gone: string, owner: string)
    requires IsOwner(h, item, live, owner) && owner != gone
    ensures IsOwner(h, item, live - {gone}, owner)
  {
  }

  lemma JoiningTakesItemsOnlyForItself(h: Hash, item: string, live: set<string>, joined: string, owner: string,
                                       after: string)
    requires IsOwner(h, item, live, owner) && IsOwner(h, item, live + {joined}, after)
    ensures after == owner || after == joined
  {
    if after != joined {
      OwnerIsUnique(h, item, live, owner, after);
    }
  }

  datatype Change = Join(name: string) | Leave(name: string)

  function After(live: set<string>, changes: seq<Change>): set<string> {
    if changes == [] then live
    else
      var before := After(live, changes[..|changes| - 1]);
      match changes[|changes| - 1]
      case Join(n) => before + {n}
      case Leave(n) => before - {n}
  }

  lemma {:induction false} StaysUnlessItLeaves(live: set<string>, changes: seq<Change>, n: string)
    ensures n in live && Leave(n) !in changes ==> n in After(live, changes)
    ensures n in After(live, changes) && Join(n) !in changes ==> n in live
  {
    if changes != [] {
      var init := changes[..|changes| - 1];
      assert changes == init + [changes[|changes| - 1]];
      StaysUnlessItLeaves(live, init, n);
    }
  }

  /**
   Over any sequence of membership changes an item changes hands only if its owner left on the
   way or its new owner joined on the way.
   */
  lemma MinimalDisruption(h: Hash, item: string, live: set<string>, changes: seq<Change>, x: string, y: string)
    requires IsOwner(h, item, live, x) && IsOwner(h, item, After(live, changes), y)
    ensures x == y || Leave(x) in changes || Join(y) in changes
  {
    if Leave(x) !in changes && Join(y) !in changes {
      StaysUnlessItLeaves(live, changes, x);
      StaysUnlessItLeaves(live, changes, y);
      BeatsIsTotal(h, item, x, y);
    }
  }
}
