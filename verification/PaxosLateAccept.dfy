/** A run in which Status goes wrong, for every cluster of three or more peers. */
module PaxosLateAccept {
  import opened Basics
  import opened PaxosPeer
  import opened PaxosRun
  import opened PaxosStatus
  import opened PaxosStart

  /** Some run without new rounds, in which proposers wait for their own peers, leads from
      `s` to `s'`. */
  ghost predicate Leads<V(!new)>(s: Slot<V>, s': Slot<V>) {
    exists run :: QuietRun(s, run, s')
  }

  ghost predicate QuietRun<V(!new)>(s: Slot<V>, run: seq<Step<V>>, s': Slot<V>)
    decreases |run|
  {
    if run == [] then s' == s
    else
      var k := |run| - 1;
      exists p :: QuietRun(s, run[..k], p) && Next(p, run[k], s') && !run[k].Begin? && OwnPeerFirst(p, run[k])
  }

  lemma LeadsFurther<V(!new)>(s: Slot<V>, p: Slot<V>, step: Step<V>)
    requires Leads(s, p) && Enabled(p, step) && !step.Begin? && OwnPeerFirst(p, step)
    ensures Leads(s, Do(p, step))
  {
    var run :| QuietRun(s, run, p);
    var run' := run + [step];
    assert run'[..|run|] == run && Next(p, run'[|run|], Do(p, step));
    assert QuietRun(s, run', Do(p, step));
  }

  lemma {:induction false} QuietReachable<V(!new)>(s: Slot<V>, run: seq<Step<V>>, s': Slot<V>)
    requires Reachable(s) && QuietRun(s, run, s')
    ensures Reachable(s')
    decreases |run|
  {
    if run != [] {
      var k := |run| - 1;
      var p :| QuietRun(s, run[..k], p) && Next(p, run[k], s') && !run[k].Begin? && OwnPeerFirst(p, run[k]);
      QuietReachable(s, run[..k], p);
      Extend(p, run[k]);
    }
  }

  /** A slot of `n` peers with two rounds begun and nothing else done. */
  ghost function TwoRounds<V>(n: nat, nilValue: V, m0: int, v0: V, m1: int, v1: V): Slot<V> {
    Slot(seq(n, _ => FreshSlot(nilValue)), [Round(m0, v0, None, false), Round(m1, v1, None, false)], {}, {})
  }

  lemma TwoRoundsReachable<V(!new)>(n: nat, nilValue: V, m0: int, v0: V, m1: int, v1: V)
    ensures Reachable(TwoRounds(n, nilValue, m0, v0, m1, v1))
  {
    var s := Init(n, nilValue);
    assert RunsTo(s, [], s);
    Extend(s, Begin(m0, v0));
    var s1 := Do(s, Begin(m0, v0));
    Extend(s1, Begin(m1, v1));
    assert Do(s1, Begin(m1, v1)) == TwoRounds(n, nilValue, m0, v0, m1, v1);
  }

  lemma TakePromise<V(!new)>(s0: Slot<V>, s: Slot<V>, z: V, r: nat, a: nat) returns (s': Slot<V>)
    requires Leads(s0, s) && a < |s.acceptors| && r < |s.rounds|
    requires s.acceptors[a].seqNumHighest < s.rounds[r].seqNum
    requires s.acceptors[a] == TimeSlot(z, false, 0, s.acceptors[a].seqNumHighest)
    ensures Leads(s0, s')
    ensures s' == s.(acceptors := s.acceptors[a := TimeSlot(z, false, 0, s.rounds[r].seqNum)],
                     prepareReps := s.prepareReps + {PrepareRep(r, a, Promise(0, z))})
  {
    LeadsFurther(s0, s, HandlePrepare(a, r));
    s' := Do(s, HandlePrepare(a, r));
  }

  /** The first `k` peers promise round `r`'s number; they have accepted nothing before. */
  lemma {:induction false} TakePromises<V(!new)>(s0: Slot<V>, s: Slot<V>, z: V, r: nat, k: nat) returns (s': Slot<V>)
    requires Leads(s0, s) && k <= |s.acceptors| && r < |s.rounds|
    requires forall a :: 0 <= a < k ==>
      var t := s.acceptors[a]; t == TimeSlot(z, false, 0, t.seqNumHighest) && t.seqNumHighest < s.rounds[r].seqNum
    ensures Leads(s0, s') && |s'.acceptors| == |s.acceptors|
    ensures s'.rounds == s.rounds && s'.acceptReps == s.acceptReps && s.prepareReps <= s'.prepareReps
    ensures forall a :: 0 <= a < k ==> s'.acceptors[a] == TimeSlot(z, false, 0, s.rounds[r].seqNum)
    ensures forall a :: k <= a < |s.acceptors| ==> s'.acceptors[a] == s.acceptors[a]
    ensures forall a :: 0 <= a < k ==> PrepareRep(r, a, Promise(0, z)) in s'.prepareReps
  {
    if k == 0 { s' := s; } else {
      var p := TakePromises(s0, s, z, r, k - 1);
      s' := TakePromise(s0, p, z, r, k - 1);
    }
  }

  /** The first `k` peers accept round `r`. */
  lemma {:induction false} TakeAccepts<V(!new)>(s0: Slot<V>, s: Slot<V>, r: nat, k: nat) returns (s': Slot<V>)
    requires Leads(s0, s) && k <= |s.acceptors| && r < |s.rounds| && s.rounds[r].proposed.Some?
    requires forall a :: 0 <= a < k ==> s.acceptors[a].seqNumHighest <= s.rounds[r].seqNum
    ensures Leads(s0, s') && |s'.acceptors| == |s.acceptors|
    ensures s'.rounds == s.rounds && s'.prepareReps == s.prepareReps
    ensures forall a :: k <= a < |s.acceptors| ==> s'.acceptors[a] == s.acceptors[a]
    ensures forall a: nat :: a < k ==> AcceptRep(r, a, AcceptOk) in s'.acceptReps
  {
    if k == 0 { s' := s; } else {
      var p := TakeAccepts(s0, s, r, k - 1);
      LeadsFurther(s0, p, HandleAccept(k - 1, r));
      s' := Do(p, HandleAccept(k - 1, r));
    }
  }

  ghost function Promises<V>(k: nat, z: V): seq<Delivery<PrepareReply<V>>> {
    seq(k, a requires 0 <= a < k => Got(a, Promise(0, z)))
  }

  ghost function Oks(k: nat): seq<Delivery<AcceptReply>> { seq(k, a requires 0 <= a < k => Got(a, AcceptOk)) }

  lemma {:induction false} PromisesTally<V>(t: Tally<V>, n: nat, ds: seq<Delivery<PrepareReply<V>>>, z: V)
    requires t.maxAccepted == 0 && t.numOk + |ds| == n / 2 + 1
    requires forall i :: 0 <= i < |ds| ==> ds[i].Got? && ds[i].reply == Promise(0, z)
    ensures TallyPrepares(t, n, ds) == t.(numOk := n / 2 + 1)
    decreases |ds|
  {
    if ds != [] { PromisesTally(AbsorbPrepare(t, ds[0]), n, ds[1..], z); }
  }

  lemma {:induction false} OksTally<V>(t: Tally<V>, n: nat, ds: seq<Delivery<AcceptReply>>)
    requires t.numOk + |ds| == n / 2 + 1
    requires forall i :: 0 <= i < |ds| ==> ds[i].Got? && ds[i].reply == AcceptOk
    ensures TallyAccepts(t, n, ds).numOk == n / 2 + 1
    decreases |ds|
  {
    if ds != [] { OksTally(AbsorbAccept(t, ds[0]), n, ds[1..]); }
  }

  /** A round with fresh promises of a majority proposes its caller's value. */
  lemma TakePropose<V(!new)>(s0: Slot<V>, s: Slot<V>, z: V, r: nat) returns (s': Slot<V>)
    requires Leads(s0, s) && r < |s.rounds| && s.rounds[r].proposed.None?
    requires forall a :: 0 <= a < |s.acceptors| / 2 + 1 ==> PrepareRep(r, a, Promise(0, z)) in s.prepareReps
    requires s.acceptors != [] && OwnerOf(s, r) < |s.acceptors| / 2 + 1
    ensures Leads(s0, s')
    ensures s' == s.(rounds := s.rounds[r := s.rounds[r].(proposed := Some(s.rounds[r].own))])
  {
    var ds := Promises(|s.acceptors| / 2 + 1, z);
    PromisesTally(StartTally(s.rounds[r].own), |s.acceptors|, ds, z);
    assert PrepareRep(r, OwnerOf(s, r), Promise(0, z)) in s.prepareReps;
    LeadsFurther(s0, s, FinishPrepare(r, ds));
    s' := Do(s, FinishPrepare(r, ds));
  }

  /** A round accepted by a majority is decided. */
  lemma TakeDecision<V(!new)>(s0: Slot<V>, s: Slot<V>, r: nat) returns (s': Slot<V>)
    requires Leads(s0, s) && r < |s.rounds| && s.rounds[r].proposed.Some?
    requires forall i: nat :: i < |s.acceptors| / 2 + 1 ==> AcceptRep(r, i, AcceptOk) in s.acceptReps
    requires s.acceptors != [] && OwnerOf(s, r) < |s.acceptors| / 2 + 1
    ensures Leads(s0, s') && s' == s.(rounds := s.rounds[r := s.rounds[r].(decided := true)])
  {
    var ds := Oks(|s.acceptors| / 2 + 1);
    OksTally(StartTally(s.rounds[r].own), |s.acceptors|, ds);
    assert AcceptRep(r, OwnerOf(s, r), AcceptOk) in s.acceptReps;
    LeadsFurther(s0, s, FinishAccept(r, ds));
    s' := Do(s, FinishAccept(r, ds));
  }

  lemma MajorityVoted<V>(s: Slot<V>, r: nat)
    requires s.acceptors != []
    requires forall i: nat :: i < |s.acceptors| / 2 + 1 ==> AcceptRep(r, i, AcceptOk) in s.acceptReps
    ensures Majority(s, Voters(s, r))
  {
    var q := Below(|s.acceptors| / 2 + 1);
    assert forall i :: i in q ==> Voted(s, i, r);
    SubsetSize(q, Voters(s, r));
  }

  ghost function Below(k: nat): (q: set<nat>)
    ensures |q| == k && forall i: nat :: i in q <==> i < k
  {
    if k == 0 then {} else Below(k - 1) + {k - 1}
  }

  /** Both rounds get the promises of a majority, the lower number first, and propose; then
      the majority accepts round 1. The last peer takes no part. */
  lemma BothPropose<V(!new)>(n: nat, z: V, m0: int, v0: V, m1: int, v1: V) returns (s: Slot<V>)
    requires n >= 3 && 0 < m0 < m1 && m0 % n == 0 && m1 % n == 1
    ensures Leads(TwoRounds(n, z, m0, v0, m1, v1), s) && |s.acceptors| == n
    ensures s.rounds == [Round(m0, v0, Some(v0), false), Round(m1, v1, Some(v1), false)]
    ensures s.acceptors[n - 1] == FreshSlot(z)
    ensures forall i: nat :: i < n / 2 + 1 ==> AcceptRep(1, i, AcceptOk) in s.acceptReps
  {
    var s0 := TwoRounds(n, z, m0, v0, m1, v1);
    s := s0;
    assert QuietRun(s0, [], s0);
    s := TakePromises(s0, s, z, 0, n / 2 + 1);
    s := TakePromises(s0, s, z, 1, n / 2 + 1);
    s := TakePropose(s0, s, z, 0);
    s := TakePropose(s0, s, z, 1);
    s := TakeAccepts(s0, s, 1, n / 2 + 1);
  }

  /** Round 1 is decided. */
  lemma RoundOneDecided<V(!new)>(n: nat, z: V, m0: int, v0: V, m1: int, v1: V) returns (s: Slot<V>)
    requires n >= 3 && 0 < m0 < m1 && m0 % n == 0 && m1 % n == 1
    ensures Leads(TwoRounds(n, z, m0, v0, m1, v1), s) && |s.acceptors| == n && Chosen(s, m1, v1)
    ensures s.acceptors[n - 1] == FreshSlot(z)
    ensures s.rounds == [Round(m0, v0, Some(v0), false), Round(m1, v1, Some(v1), true)]
  {
    var p := BothPropose(n, z, m0, v0, m1, v1);
    s := TakeDecision(TwoRounds(n, z, m0, v0, m1, v1), p, 1);
    RoundOneChosen(s);
  }

  /** Peer `a` learns the decision of round 1. */
  lemma TakeDecide<V(!new)>(s0: Slot<V>, s: Slot<V>, a: nat, m: int, v: V) returns (s': Slot<V>)
    requires Leads(s0, s) && Enabled(s, HandleDecide(a, 1)) && Chosen(s, m, v)
    ensures Leads(s0, s') && Chosen(s', m, v)
    ensures s' == s.(acceptors := s.acceptors[a := OnDecide(s.acceptors[a], s.rounds[1].proposed.value)])
  {
    LeadsFurther(s0, s, HandleDecide(a, 1));
    s' := Do(s, HandleDecide(a, 1));
    StepGrows(s, HandleDecide(a, 1));
    ChosenStays(s, s', m, v);
  }

  /** The last peer and peer 0 learn it. */
  lemma DecisionLearned<V(!new)>(n: nat, z: V, m0: int, v0: V, m1: int, v1: V) returns (s: Slot<V>)
    requires n >= 3 && 0 < m0 < m1 && m0 % n == 0 && m1 % n == 1
    ensures Leads(TwoRounds(n, z, m0, v0, m1, v1), s) && |s.acceptors| == n && Chosen(s, m1, v1)
    ensures s.acceptors[n - 1] == TimeSlot(v1, true, 0, 0) && Reports(s, 0, v1)
    ensures s.rounds == [Round(m0, v0, Some(v0), false), Round(m1, v1, Some(v1), true)]
  {
    var p := RoundOneDecided(n, z, m0, v0, m1, v1);
    s := BothLearn(TwoRounds(n, z, m0, v0, m1, v1), p, m1, v1);
  }

  lemma BothLearn<V(!new)>(s0: Slot<V>, p: Slot<V>, m: int, v: V) returns (s: Slot<V>)
    requires Leads(s0, p) && Chosen(p, m, v) && |p.acceptors| >= 3
    requires |p.rounds| == 2 && p.rounds[1] == Round(m, v, Some(v), true)
    ensures Leads(s0, s) && |s.acceptors| == |p.acceptors| && Chosen(s, m, v) && s.rounds == p.rounds
    ensures s.acceptors[|s.acceptors| - 1] == OnDecide(p.acceptors[|p.acceptors| - 1], v) && Reports(s, 0, v)
  {
    var q := TakeDecide(s0, p, |p.acceptors| - 1, m, v);
    s := TakeDecide(s0, q, 0, m, v);
  }

  lemma RoundOneChosen<V>(s: Slot<V>)
    requires s.acceptors != [] && |s.rounds| == 2 && s.rounds[1].proposed.Some?
    requires forall i: nat :: i < |s.acceptors| / 2 + 1 ==> AcceptRep(1, i, AcceptOk) in s.acceptReps
    ensures Chosen(s, s.rounds[1].seqNum, s.rounds[1].proposed.value)
  {
    MajorityVoted(s, 1);
    ChosenRoundIsChosen(s, 1);
  }

  /** In every cluster of three or more peers, a late Accept numbered below the chosen
      number turns a right report into a wrong one, and two peers then report different
      decisions for the slot. Peers 0 and 1 are the proposers. */
  lemma LateAcceptOverwrites<V(!new)>(n: nat, z: V, m0: int, v0: V, m1: int, v1: V) returns (s: Slot<V>, s': Slot<V>)
    requires n >= 3 && 0 < m0 < m1 && m0 % n == 0 && m1 % n == 1
    ensures Leads(TwoRounds(n, z, m0, v0, m1, v1), s) && Leads(TwoRounds(n, z, m0, v0, m1, v1), s')
    ensures |s.acceptors| == n && Chosen(s, m1, v1) && Reports(s, 0, v1) && Reports(s, n - 1, v1)
    ensures Next(s, HandleAccept(n - 1, 0), s')
    ensures |s'.acceptors| == n && Chosen(s', m1, v1) && Reports(s', 0, v1) && Reports(s', n - 1, v0)
    ensures s'.rounds == [Round(m0, v0, Some(v0), false), Round(m1, v1, Some(v1), true)]
  {
    s := DecisionLearned(n, z, m0, v0, m1, v1);
    s' := LateAccept(TwoRounds(n, z, m0, v0, m1, v1), s, m1, v1);
  }

  /** The last peer, which has promised nothing, accepts round 0. */
  lemma LateAccept<V(!new)>(s0: Slot<V>, s: Slot<V>, m: int, v: V) returns (s': Slot<V>)
    requires Leads(s0, s) && Chosen(s, m, v) && |s.acceptors| >= 3 && Enabled(s, HandleAccept(|s.acceptors| - 1, 0))
    requires s.acceptors[|s.acceptors| - 1] == TimeSlot(v, true, 0, 0) && s.rounds[0].seqNum > 0
    ensures Leads(s0, s') && Chosen(s', m, v) && Next(s, HandleAccept(|s.acceptors| - 1, 0), s')
    ensures s'.rounds == s.rounds && |s'.acceptors| == |s.acceptors| && s'.acceptors[0] == s.acceptors[0]
    ensures Reports(s', |s.acceptors| - 1, s.rounds[0].proposed.value)
  {
    var step: Step<V> := HandleAccept(|s.acceptors| - 1, 0);
    LeadsFurther(s0, s, step);
    s' := Do(s, step);
    StepGrows(s, step);
    ChosenStays(s, s', m, v);
  }

  /** Status reports the chosen value in every run of `n` peers if and only if the cluster
      has at most two peers. */
  lemma StatusExactly(n: nat)
    ensures (forall s: Slot<int> :: Reachable(s) && |s.acceptors| == n ==> Truthful(s)) <==> n <= 2
  {
    if n <= 2 {
      forall s: Slot<int> | Reachable(s) && |s.acceptors| == n ensures Truthful(s) { SmallClusterIsTruthful(s); }
    } else {
      Residues(n);
      var s0 := TwoRounds(n, 0, n, 10, n + 1, 20);
      var _, s := LateAcceptOverwrites(n, 0, n, 10, n + 1, 20);
      TwoRoundsReachable(n, 0, n, 10, n + 1, 20);
      var run :| QuietRun(s0, run, s);
      QuietReachable(s0, run, s);
      assert Reports(s, n - 1, 10) && Chosen(s, n + 1, 20);
      assert !Truthful(s);
    }
  }

  lemma Residues(n: nat)
    requires n >= 3
    ensures n % n == 0 && (n + 1) % n == 1
  {
    ResidueOf(1, n, 0);
    ResidueOf(1, n, 1);
  }
}
