/** Paxos is never stuck: whatever has happened in a slot, a proposer that is left alone for
    one attempt, with every peer answering it, gets a decision. */
module PaxosProgress {
  import opened Basics
  import opened PaxosPeer
  import opened PaxosRun
  import opened PaxosStatus
  import opened PaxosStart
  import opened PaxosLateAccept

  /** The greatest number that the first `k` peers have promised. */
  ghost function HighestOf<V>(s: Slot<V>, k: nat): (h: int)
    requires k <= |s.acceptors|
    ensures h >= 0 && forall a :: 0 <= a < k ==> s.acceptors[a].seqNumHighest <= h
  {
    if k == 0 then 0
    else
      var h := HighestOf(s, k - 1);
      if s.acceptors[k - 1].seqNumHighest > h then s.acceptors[k - 1].seqNumHighest else h
  }

  /** The first `k` peers have promised round `r`. */
  ghost predicate Promised<V>(s: Slot<V>, r: nat, k: nat, reps: seq<PrepareReply<V>>)
    requires r < |s.rounds| && k <= |s.acceptors|
  {
    && |reps| == k
    && (forall a :: 0 <= a < k ==> reps[a].Promise? && PrepareRep(r, a, reps[a]) in s.prepareReps)
    && (forall a :: 0 <= a < k ==> s.acceptors[a].seqNumHighest == s.rounds[r].seqNum)
  }

  lemma {:induction false} AllPromise<V(!new)>(s0: Slot<V>, s: Slot<V>, r: nat, k: nat)
    returns (s': Slot<V>, reps: seq<PrepareReply<V>>)
    requires Leads(s0, s) && r < |s.rounds| && k <= |s.acceptors|
    requires forall a :: 0 <= a < k ==> s.acceptors[a].seqNumHighest < s.rounds[r].seqNum
    ensures Leads(s0, s') && s'.rounds == s.rounds && |s'.acceptors| == |s.acceptors| && Promised(s', r, k, reps)
    ensures forall a :: k <= a < |s.acceptors| ==> s'.acceptors[a] == s.acceptors[a]
  {
    if k == 0 {
      s', reps := s, [];
    } else {
      var p, some := AllPromise(s0, s, r, k - 1);
      s', reps := PromiseNext(s0, p, r, k - 1, some);
    }
  }

  lemma PromiseNext<V(!new)>(s0: Slot<V>, s: Slot<V>, r: nat, k: nat, some: seq<PrepareReply<V>>)
    returns (s': Slot<V>, reps: seq<PrepareReply<V>>)
    requires Leads(s0, s) && r < |s.rounds| && k < |s.acceptors| && Promised(s, r, k, some)
    requires s.acceptors[k].seqNumHighest < s.rounds[r].seqNum
    ensures Leads(s0, s') && s'.rounds == s.rounds && |s'.acceptors| == |s.acceptors| && Promised(s', r, k + 1, reps)
    ensures forall a :: k < a < |s.acceptors| ==> s'.acceptors[a] == s.acceptors[a]
  {
    LeadsFurther(s0, s, HandlePrepare(k, r));
    s' := Do(s, HandlePrepare(k, r));
    reps := some + [OnPrepare(s.acceptors[k], s.rounds[r].seqNum).1];
  }

  /** Replies that are all promises make a majority. */
  lemma {:induction false} PromisesWin<V>(t: Tally<V>, n: nat, ds: seq<Delivery<PrepareReply<V>>>)
    requires t.numOk + |ds| > n / 2 && forall i :: 0 <= i < |ds| ==> ds[i].Got? && ds[i].reply.Promise?
    ensures TallyPrepares(t, n, ds).numOk > n / 2
    decreases |ds|
  {
    if ds != [] && t.numOk <= n / 2 { PromisesWin(AbsorbPrepare(t, ds[0]), n, ds[1..]); }
  }

  lemma {:induction false} OksWin<V>(t: Tally<V>, n: nat, ds: seq<Delivery<AcceptReply>>)
    requires t.numOk + |ds| > n / 2 && forall i :: 0 <= i < |ds| ==> ds[i].Got? && ds[i].reply == AcceptOk
    ensures TallyAccepts(t, n, ds).numOk > n / 2
    decreases |ds|
  {
    if ds != [] && t.numOk <= n / 2 { OksWin(AbsorbAccept(t, ds[0]), n, ds[1..]); }
  }

  ghost function Replies<V>(reps: seq<PrepareReply<V>>): seq<Delivery<PrepareReply<V>>> {
    seq(|reps|, a requires 0 <= a < |reps| => Got(a, reps[a]))
  }

  lemma PhaseOne<V(!new)>(s0: Slot<V>, s: Slot<V>, r: nat, reps: seq<PrepareReply<V>>) returns (s': Slot<V>)
    requires Leads(s0, s) && s.acceptors != [] && r < |s.rounds| && s.rounds[r].proposed.None?
    requires Promised(s, r, |s.acceptors|, reps)
    ensures Leads(s0, s') && s'.acceptors == s.acceptors && |s'.rounds| == |s.rounds|
    ensures s'.rounds[r].seqNum == s.rounds[r].seqNum && s'.rounds[r].proposed.Some?
  {
    var ds := Replies(reps);
    PromisesWin(StartTally(s.rounds[r].own), |s.acceptors|, ds);
    var o := OwnerOf(s, r);
    assert PrepareRep(r, o, reps[o]) in s.prepareReps;
    LeadsFurther(s0, s, FinishPrepare(r, ds));
    s' := Do(s, FinishPrepare(r, ds));
  }

  lemma PhaseTwo<V(!new)>(s0: Slot<V>, s: Slot<V>, r: nat) returns (s': Slot<V>)
    requires Leads(s0, s) && s.acceptors != [] && r < |s.rounds| && s.rounds[r].proposed.Some?
    requires forall a: nat :: a < |s.acceptors| ==> AcceptRep(r, a, AcceptOk) in s.acceptReps
    ensures Leads(s0, s') && s' == s.(rounds := s.rounds[r := s.rounds[r].(decided := true)])
  {
    var ds := Oks(|s.acceptors|);
    OksWin(StartTally(s.rounds[r].own), |s.acceptors|, ds);
    assert AcceptRep(r, OwnerOf(s, r), AcceptOk) in s.acceptReps;
    LeadsFurther(s0, s, FinishAccept(r, ds));
    s' := Do(s, FinishAccept(r, ds));
  }

  /** Proposers' own peers stay ahead of their proposals in runs without new rounds. */
  lemma {:induction false} QuietKeepsOwn<V(!new)>(s: Slot<V>, run: seq<Step<V>>, s': Slot<V>)
    requires QuietRun(s, run, s') && Heard(s) && OwnPromised(s)
    ensures Heard(s') && OwnPromised(s')
    decreases |run|
  {
    if run != [] {
      var k := |run| - 1;
      var p :| QuietRun(s, run[..k], p) && Next(p, run[k], s') && !run[k].Begin? && OwnPeerFirst(p, run[k]);
      QuietKeepsOwn(s, run[..k], p);
      HeardKeeps(p, run[k]);
      OwnPromisedKeeps(p, run[k]);
    }
  }

  /** A new round whose number is above all promises can be carried to its decision. */
  lemma RoundSucceeds<V(!new)>(s: Slot<V>, r: nat) returns (s': Slot<V>)
    requires s.acceptors != [] && r < |s.rounds| && s.rounds[r].proposed.None?
    requires forall a :: 0 <= a < |s.acceptors| ==> s.acceptors[a].seqNumHighest < s.rounds[r].seqNum
    ensures Leads(s, s') && |s'.acceptors| == |s.acceptors| && |s'.rounds| == |s.rounds|
    ensures s'.rounds[r].seqNum == s.rounds[r].seqNum && s'.rounds[r].proposed.Some? && s'.rounds[r].decided
  {
    assert QuietRun(s, [], s);
    var s1, reps := AllPromise(s, s, r, |s.acceptors|);
    var s2 := PhaseOne(s, s1, r, reps);
    var s3 := TakeAccepts(s, s2, r, |s2.acceptors|);
    s' := PhaseTwo(s, s3, r);
  }

  /** From every state that runs of proposers who wait for their own peers can reach, and for
      every peer and value, Start can succeed: some number of the peer leads, without any new
      round of others, to a state in which a value is chosen under it and the peer reports that
      value for good. */
  lemma StartCanSucceed<V(!new)>(s: Slot<V>, me: nat, v: V) returns (m: int, s': Slot<V>)
    requires Reachable(s) && Heard(s) && OwnPromised(s) && me < |s.acceptors|
    ensures m > 0 && m % |s.acceptors| == me && Leads(Do(s, Begin(m, v)), s')
    ensures SettledAt(s', me) && exists w :: Chosen(s', m, w) && Reports(s', me, w)
  {
    var n := |s.acceptors|;
    m := NextSeqNum(0, n, me, HighestOf(s, n));
    var s0, r := Do(s, Begin(m, v)), |s.rounds|;
    Extend(s, Begin(m, v));
    HeardKeeps(s, Begin(m, v));
    OwnPromisedKeeps(s, Begin(m, v));
    var s1 := RoundSucceeds(s0, r);
    s' := OwnerLearns(s0, s1, r);
  }

  lemma OwnerLearns<V(!new)>(s0: Slot<V>, s: Slot<V>, r: nat) returns (s': Slot<V>)
    requires Reachable(s0) && Heard(s0) && OwnPromised(s0) && Leads(s0, s) && s.acceptors != []
    requires r < |s.rounds| && s.rounds[r].decided && s.rounds[r].proposed.Some?
    ensures Leads(s0, s') && SettledAt(s', OwnerOf(s, r))
    ensures exists w :: Chosen(s', s.rounds[r].seqNum, w) && Reports(s', OwnerOf(s, r), w)
  {
    var a := OwnerOf(s, r);
    var run :| QuietRun(s0, run, s);
    QuietReachable(s0, run, s);
    QuietKeepsOwn(s0, run, s);
    LeadsFurther(s0, s, HandleDecide(a, r));
    s' := Do(s, HandleDecide(a, r));
    StartSettles(s, r);
    ReachableInv(s);
    assert RoundOk(s, r);
    ChosenRoundIsChosen(s, r);
    StepGrows(s, HandleDecide(a, r));
    ChosenStays(s, s', s.rounds[r].seqNum, s.rounds[r].proposed.value);
    assert Reports(s', a, s.rounds[r].proposed.value);
  }
}
