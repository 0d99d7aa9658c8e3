/** What a peer's Status reports. A majority decides once and for all, but Accept does
    not test isDecided, so a peer that learned the decision can be talked out of it by a
    late proposal numbered below the chosen one, and by nothing else. */
module PaxosStatus {
  import opened Basics
  import opened PaxosPeer
  import opened PaxosRun

  /** Status of peer `a` reports the slot as decided with value `v`. */
  ghost predicate Reports<V>(s: Slot<V>, a: nat, v: V) {
    a < |s.acceptors| && s.acceptors[a].isDecided && s.acceptors[a].value == v
  }

  /** A proposal numbered at or above a chosen one carries the chosen value. */
  lemma ProposalAboveChosen<V>(s: Slot<V>, c: nat, r: nat)
    requires Inv(s) && ChosenRound(s, c) && r < |s.rounds| && s.rounds[r].proposed.Some?
    requires s.rounds[c].seqNum <= s.rounds[r].seqNum
    ensures s.rounds[r].proposed == s.rounds[c].proposed
  {
    ChosenIsChoosable(s, c);
    assert Compatible(s, c, r);
    if s.rounds[c].seqNum == s.rounds[r].seqNum { NumberOwnsRound(s, c, r); }
  }

  /** In every run, a peer that reports a decision either reports the chosen value or has
      last accepted a proposal numbered below every chosen one. */
  lemma WrongStatusIsStale<V(!new)>(s: Slot<V>, a: nat, w: V, m: int, v: V)
    requires Reachable(s) && Reports(s, a, w) && Chosen(s, m, v)
    ensures w == v || s.acceptors[a].seqNumAccepted < m
  {
    ReachableInv(s);
    var c := ChosenHasRound(s, m, v);
    assert AcceptorOk(s, a);
    if s.acceptors[a].seqNumAccepted >= m {
      var t := s.acceptors[a];
      assert RoundOk(s, c);
      var r: nat :| BackedBy(s, a, t.seqNumAccepted, t.value, r);
      ProposalAboveChosen(s, c, r);
      if DecideSent(s, w) { DecideIsSound(s, w); }
    }
  }

  /** Delivering round `r`'s Accept to a peer that reports the chosen value keeps the
      report exactly when the peer rejects the number or the proposal has that value; every
      proposal numbered at or above the chosen number does have it. */
  lemma AcceptKeepsReport<V(!new)>(s: Slot<V>, a: nat, r: nat, m: int, v: V)
    requires Reachable(s) && Chosen(s, m, v) && Reports(s, a, v) && Enabled(s, HandleAccept(a, r))
    ensures Reports(Do(s, HandleAccept(a, r)), a, v)
       <==> s.rounds[r].seqNum < s.acceptors[a].seqNumHighest || s.rounds[r].proposed.value == v
    ensures s.rounds[r].seqNum >= m ==> s.rounds[r].proposed.value == v
  {
    ReachableInv(s);
    var c := ChosenHasRound(s, m, v);
    if s.rounds[r].seqNum >= m { ProposalAboveChosen(s, c, r); }
  }

  lemma ChosenStays<V>(s: Slot<V>, s': Slot<V>, m: int, v: V)
    requires Grows(s, s') && Chosen(s, m, v)
    ensures Chosen(s', m, v)
  {
    forall a | a in AcceptedAs(s, m, v) ensures a in AcceptedAs(s', m, v) {
      var r: nat :| r < |s.rounds| && Voted(s, a, r) && s.rounds[r].seqNum == m && s.rounds[r].proposed == Some(v);
      assert Voted(s', a, r);
    }
    SubsetSize(AcceptedAs(s, m, v), AcceptedAs(s', m, v));
  }

  lemma SettledStep<V>(s: Slot<V>, a: nat, m: int, v: V, step: Step<V>)
    requires Inv(s) && Chosen(s, m, v) && Reports(s, a, v) && s.acceptors[a].seqNumHighest >= m && Enabled(s, step)
    ensures var s' := Do(s, step); Chosen(s', m, v) && Reports(s', a, v) && s'.acceptors[a].seqNumHighest >= m
  {
    StepGrows(s, step);
    ChosenStays(s, Do(s, step), m, v);
    var c := ChosenHasRound(s, m, v);
    match step {
      case HandleAccept(b, r) =>
        if s.rounds[r].seqNum >= m { ProposalAboveChosen(s, c, r); }
      case HandleDecide(b, r) =>
        assert RoundOk(s, r);
        ChosenRoundsAgree(s, c, r);
      case _ =>
    }
  }

  /** A peer that reports the chosen value and has promised the chosen number or a higher
      one reports it for ever after, whatever else happens. */
  lemma {:induction false} SettledForever<V(!new)>(s: Slot<V>, a: nat, m: int, v: V, run: seq<Step<V>>, s': Slot<V>)
    requires Reachable(s) && Chosen(s, m, v) && Reports(s, a, v) && s.acceptors[a].seqNumHighest >= m
    requires RunsTo(s, run, s')
    ensures Chosen(s', m, v) && Reports(s', a, v) && s'.acceptors[a].seqNumHighest >= m
    decreases |run|
  {
    ReachableInv(s);
    if run != [] {
      var k := |run| - 1;
      var p :| RunsTo(s, run[..k], p) && Next(p, run[k], s');
      RunKeeps(s, run[..k], p);
      SettledForever(s, a, m, v, run[..k], p);
      SettledStep(p, a, m, v, run[k]);
    }
  }

  /** A report means that the slot is decided, in the sense of a majority. */
  lemma ReportMeansChosen<V(!new)>(s: Slot<V>, a: nat, w: V)
    requires Reachable(s) && Reports(s, a, w)
    ensures exists m, v :: Chosen(s, m, v)
  {
    ReachableInv(s);
    assert AcceptorOk(s, a);
    var r: nat :| r < |s.rounds| && s.rounds[r].decided;
    assert RoundOk(s, r);
    ChosenRoundIsChosen(s, r);
  }

  /** A reported value was submitted by some caller. */
  lemma ReportIsSubmitted<V(!new)>(s: Slot<V>, a: nat, w: V)
    requires Reachable(s) && Reports(s, a, w)
    ensures SubmittedBy(s, w)
  {
    ReachableInv(s);
    var t := s.acceptors[a];
    assert AcceptorOk(s, a);
    if t.seqNumAccepted > 0 && !DecideSent(s, w) {
      var r: nat :| BackedBy(s, a, t.seqNumAccepted, w, r);
      assert RoundOk(s, r);
    } else {
      DecideIsSound(s, w);
    }
  }

  // ---------- when Status is always right ----------

  /** Every report is the chosen value. */
  ghost predicate Truthful<V(!new)>(s: Slot<V>) {
    forall a: nat, w, m, v :: Reports(s, a, w) && Chosen(s, m, v) ==> w == v
  }

  /** With one or two peers a majority is everyone, so nobody's last Accept is stale. */
  lemma SmallClusterIsTruthful<V(!new)>(s: Slot<V>)
    requires Reachable(s) && |s.acceptors| <= 2
    ensures Truthful(s)
  {
    ReachableInv(s);
    forall a: nat, w, m, v | Reports(s, a, w) && Chosen(s, m, v) ensures w == v {
      var c := ChosenHasRound(s, m, v);
      AllVoted(s, c, a);
      assert VoteOk(s, a, c);
      WrongStatusIsStale(s, a, w, m, v);
    }
  }

  lemma AllVoted<V>(s: Slot<V>, c: nat, a: nat)
    requires ChosenRound(s, c) && |s.acceptors| <= 2 && a < |s.acceptors|
    ensures Voted(s, a, c)
  {
    var others: set<nat> := if |s.acceptors| == 1 then {} else {1 - a};
    if a !in Voters(s, c) { SubsetSize(Voters(s, c), others); }
  }

  lemma Extend<V(!new)>(s: Slot<V>, step: Step<V>)
    requires Reachable(s) && Enabled(s, step)
    ensures Reachable(Do(s, step))
  {
    var n: nat, nilValue: V, run :| RunsTo(Init(n, nilValue), run, s);
    var run' := run + [step];
    assert run'[..|run|] == run && Next(s, run'[|run|], Do(s, step));
    assert RunsTo(Init(n, nilValue), run', Do(s, step));
  }

  // ---------- the guard that Accept lacks ----------

  /** What a peer could check before it accepts: a decided slot takes a new proposal only if
      that has the stored value. */
  ghost predicate Guarded<V>(s: Slot<V>, step: Step<V>) {
    step.HandleAccept? && Enabled(s, step) && s.acceptors[step.a].isDecided ==>
      || s.rounds[step.r].seqNum < s.acceptors[step.a].seqNumHighest
      || s.rounds[step.r].proposed.value == s.acceptors[step.a].value
  }

  /** Every decided peer stores the value of a Decide. */
  ghost predicate Sourced<V>(s: Slot<V>) {
    forall a: nat :: a < |s.acceptors| && s.acceptors[a].isDecided ==> DecideSent(s, s.acceptors[a].value)
  }

  lemma GuardedKeepsSourced<V>(s: Slot<V>, step: Step<V>)
    requires Sourced(s) && Enabled(s, step) && Guarded(s, step)
    ensures Sourced(Do(s, step))
  {
    var s' := Do(s, step);
    StepGrows(s, step);
    forall a: nat | a < |s'.acceptors| && s'.acceptors[a].isDecided ensures DecideSent(s', s'.acceptors[a].value) {
      if step.HandleDecide? && step.a == a {
        assert s'.rounds[step.r].decided;
      } else {
        assert s'.acceptors[a].value == s.acceptors[a].value;
        DecideGrows(s, s', s.acceptors[a].value);
      }
    }
  }

  lemma SourcedIsTruthful<V(!new)>(s: Slot<V>)
    requires Reachable(s) && Sourced(s)
    ensures Truthful(s)
  {
    forall a: nat, w, m, v | Reports(s, a, w) && Chosen(s, m, v) ensures w == v { DecideIsSound(s, w); }
  }

  /** A step that fails the guard makes a right report wrong at once. */
  lemma UnguardedLies<V(!new)>(s: Slot<V>, step: Step<V>)
    requires Reachable(s) && Truthful(s) && Enabled(s, step) && !Guarded(s, step)
    ensures !Truthful(Do(s, step))
  {
    var s', a, w := Do(s, step), step.a, s.acceptors[step.a].value;
    assert Reports(s, a, w);
    ReportMeansChosen(s, a, w);
    var m, v :| Chosen(s, m, v);
    StepGrows(s, step);
    ChosenStays(s, s', m, v);
    assert Reports(s', a, s.rounds[step.r].proposed.value) && Chosen(s', m, v);
  }

  /** A run all of whose steps pass the guard. */
  ghost predicate GuardedRun<V(!new)>(s: Slot<V>, run: seq<Step<V>>, s': Slot<V>)
    decreases |run|
  {
    if run == [] then s' == s
    else
      var k := |run| - 1;
      exists p :: GuardedRun(s, run[..k], p) && Next(p, run[k], s') && Guarded(p, run[k])
  }

  /** A run in all of whose states every report is right. */
  ghost predicate TruthfulRun<V(!new)>(s: Slot<V>, run: seq<Step<V>>, s': Slot<V>)
    decreases |run|
  {
    if run == [] then s' == s && Truthful(s)
    else
      var k := |run| - 1;
      exists p :: TruthfulRun(s, run[..k], p) && Next(p, run[k], s') && Truthful(s')
  }

  lemma {:induction false} GuardedIsTruthful<V(!new)>(n: nat, nilValue: V, run: seq<Step<V>>, s: Slot<V>)
    requires GuardedRun(Init(n, nilValue), run, s)
    ensures TruthfulRun(Init(n, nilValue), run, s) && Reachable(s) && Sourced(s)
    decreases |run|
  {
    if run == [] {
      assert RunsTo(Init(n, nilValue), run, s);
    } else {
      var k := |run| - 1;
      var p :| GuardedRun(Init(n, nilValue), run[..k], p) && Next(p, run[k], s) && Guarded(p, run[k]);
      GuardedIsTruthful(n, nilValue, run[..k], p);
      GuardedKeepsSourced(p, run[k]);
      Extend(p, run[k]);
    }
    SourcedIsTruthful(s);
  }

  lemma {:induction false} TruthfulIsGuarded<V(!new)>(n: nat, nilValue: V, run: seq<Step<V>>, s: Slot<V>)
    requires TruthfulRun(Init(n, nilValue), run, s)
    ensures GuardedRun(Init(n, nilValue), run, s) && Reachable(s) && Truthful(s)
    decreases |run|
  {
    if run == [] {
      assert RunsTo(Init(n, nilValue), run, s);
    } else {
      var k := |run| - 1;
      var p :| TruthfulRun(Init(n, nilValue), run[..k], p) && Next(p, run[k], s) && Truthful(s);
      TruthfulIsGuarded(n, nilValue, run[..k], p);
      if !Guarded(p, run[k]) { UnguardedLies(p, run[k]); }
      Extend(p, run[k]);
    }
  }

  /** In a run of any number of peers, every report is right in every state if and only if no
      decided peer accepts a different value. */
  lemma TruthfulExactly<V(!new)>(n: nat, nilValue: V, run: seq<Step<V>>, s: Slot<V>)
    ensures TruthfulRun(Init(n, nilValue), run, s) <==> GuardedRun(Init(n, nilValue), run, s)
  {
    if GuardedRun(Init(n, nilValue), run, s) { GuardedIsTruthful(n, nilValue, run, s); }
    if TruthfulRun(Init(n, nilValue), run, s) { TruthfulIsGuarded(n, nilValue, run, s); }
  }
}
