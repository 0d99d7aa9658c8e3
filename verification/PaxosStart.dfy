/** A proposer and its own peer. Start calls the handlers of its own peer directly and waits
    for each, so a proposer collects replies only after its own peer has answered, and
    returns only after its own peer has been told the decision. */
module PaxosStart {
  import opened Basics
  import opened PaxosPeer
  import opened PaxosRun
  import opened PaxosStatus

  /** The peer that began round `r`; only it generates numbers of its residue. */
  ghost function OwnerOf<V>(s: Slot<V>, r: nat): nat
    requires r < |s.rounds| && s.acceptors != []
  {
    s.rounds[r].seqNum % |s.acceptors|
  }

  /** A phase ends only after the proposer's own peer has answered in it. */
  ghost predicate OwnPeerFirst<V(!new)>(s: Slot<V>, step: Step<V>) {
    match step
    case FinishPrepare(r, _) =>
      r < |s.rounds| && s.acceptors != [] && exists rep :: PrepareRep(r, OwnerOf(s, r), rep) in s.prepareReps
    case FinishAccept(r, _) =>
      r < |s.rounds| && s.acceptors != [] && exists rep :: AcceptRep(r, OwnerOf(s, r), rep) in s.acceptReps
    case _ => true
  }

  /** Whoever answered a Prepare has promised that number or a higher one. */
  ghost predicate Heard<V>(s: Slot<V>) {
    forall p :: p in s.prepareReps ==>
      && p.round < |s.rounds| && p.from < |s.acceptors|
      && s.rounds[p.round].seqNum <= s.acceptors[p.from].seqNumHighest
  }

  /** The owner of a proposal has promised its number or a higher one. */
  ghost predicate OwnPromised<V>(s: Slot<V>) {
    s.acceptors != [] ==> forall r: nat :: r < |s.rounds| && s.rounds[r].proposed.Some? ==>
      s.rounds[r].seqNum <= s.acceptors[OwnerOf(s, r)].seqNumHighest
  }

  lemma HeardKeeps<V>(s: Slot<V>, step: Step<V>)
    requires Heard(s) && Enabled(s, step)
    ensures Heard(Do(s, step))
  {
    StepGrows(s, step);
  }

  lemma OwnPromisedKeeps<V(!new)>(s: Slot<V>, step: Step<V>)
    requires Heard(s) && OwnPromised(s) && Enabled(s, step) && OwnPeerFirst(s, step)
    ensures OwnPromised(Do(s, step))
  {
    var s' := Do(s, step);
    StepGrows(s, step);
    forall r: nat | s'.acceptors != [] && r < |s'.rounds| && s'.rounds[r].proposed.Some?
      ensures s'.rounds[r].seqNum <= s'.acceptors[OwnerOf(s', r)].seqNumHighest
    {
      if step.FinishPrepare? && step.r == r {
        var rep :| PrepareRep(r, OwnerOf(s, r), rep) in s.prepareReps;
      }
    }
  }

  /** Peer `a` reports the chosen value and no step can change that any more. */
  ghost predicate SettledAt<V(!new)>(s: Slot<V>, a: nat) {
    exists m, v :: Chosen(s, m, v) && Reports(s, a, v) && m <= s.acceptors[a].seqNumHighest
  }

  lemma SettledAtKeeps<V(!new)>(s: Slot<V>, a: nat, step: Step<V>)
    requires Reachable(s) && SettledAt(s, a) && Enabled(s, step)
    ensures SettledAt(Do(s, step), a)
  {
    ReachableInv(s);
    var m, v :| Chosen(s, m, v) && Reports(s, a, v) && m <= s.acceptors[a].seqNumHighest;
    SettledStep(s, a, m, v, step);
  }

  /** When Start returns, its own peer is settled: the next Status is right, and so is every
      later one. */
  lemma StartSettles<V(!new)>(s: Slot<V>, r: nat)
    requires Reachable(s) && OwnPromised(s) && s.acceptors != []
    requires r < |s.rounds| && s.rounds[r].decided && s.rounds[r].proposed.Some?
    ensures SettledAt(Do(s, HandleDecide(OwnerOf(s, r), r)), OwnerOf(s, r))
  {
    var a := OwnerOf(s, r);
    var s', m, v := Do(s, HandleDecide(a, r)), s.rounds[r].seqNum, s.rounds[r].proposed.value;
    ReachableInv(s);
    assert RoundOk(s, r);
    ChosenRoundIsChosen(s, r);
    StepGrows(s, HandleDecide(a, r));
    ChosenStays(s, s', m, v);
    assert Reports(s', a, v);
  }

  // ---------- an attempt of the retry loop as steps of a slot ----------

  /** An attempt whose prepare replies are on hand in `s`, as round `r`, and whose accept
      replies are on hand in a later state `s2`, succeeds if and only if the slot can take the
      steps that end the two phases; and then the decision it reaches, under its number, is
      what the slot has chosen. */
  lemma AttemptIsRound<V(!new)>(a: Attempt<V>, v: V, s: Slot<V>, r: nat, s2: Slot<V>)
    requires |s.acceptors| == |s2.acceptors| && r < |s.rounds| && r < |s2.rounds| && Reachable(s2)
    requires s.rounds[r] == Round(s.rounds[r].seqNum, v, None, false)
    requires DistinctSenders(a.prepares) && DistinctSenders(a.accepts)
    requires forall d :: d in a.prepares && d.Got? ==> PrepareRep(r, d.from, d.reply) in s.prepareReps
    requires forall d :: d in a.accepts && d.Got? ==> AcceptRep(r, d.from, d.reply) in s2.acceptReps
    requires Enabled(s, FinishPrepare(r, a.prepares)) ==>
      s2.rounds[r] == Do(s, FinishPrepare(r, a.prepares)).rounds[r]
    ensures Succeeds(a, |s.acceptors|, v) <==>
      Enabled(s, FinishPrepare(r, a.prepares)) && Enabled(s2, FinishAccept(r, a.accepts))
    ensures Succeeds(a, |s.acceptors|, v) ==>
      var decision := TallyPrepares(StartTally(v), |s.acceptors|, a.prepares).value;
      Chosen(Do(s2, FinishAccept(r, a.accepts)), s.rounds[r].seqNum, decision)
  {
    if Succeeds(a, |s.acceptors|, v) {
      var s3 := Do(s2, FinishAccept(r, a.accepts));
      Extend(s2, FinishAccept(r, a.accepts));
      ReachableInv(s3);
      assert RoundOk(s3, r);
      ChosenRoundIsChosen(s3, r);
    }
  }
}
