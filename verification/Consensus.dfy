/** A slot of the log as its clients may think of it: proposals pile up, and one of them
    becomes the decision, once. */
module Consensus {
  import opened Basics
  import opened PaxosPeer
  import opened PaxosRun
  import opened PaxosStatus

  datatype Consensus<V(==)> = Consensus(proposals: set<V>, decision: Option<V>)

  ghost predicate Stutter<V>(c: Consensus<V>, c': Consensus<V>) {
    c' == c
  }

  ghost predicate Proposed<V>(c: Consensus<V>, c': Consensus<V>, v: V) {
    c' == c.(proposals := c.proposals + {v})
  }

  ghost predicate Decided<V>(c: Consensus<V>, c': Consensus<V>, v: V) {
    c.decision.None? && v in c.proposals && c' == c.(decision := Some(v))
  }

  ghost predicate Advances<V(!new)>(c: Consensus<V>, c': Consensus<V>) {
    Stutter(c, c') || (exists v :: Proposed(c, c', v)) || (exists v :: Decided(c, c', v))
  }

  ghost predicate HasChosen<V>(s: Slot<V>, v: V) {
    exists m :: Chosen(s, m, v)
  }

  /** The callers' values and the value a majority has accepted, if any. */
  ghost function Abs<V(!new)>(s: Slot<V>): Consensus<V> {
    Consensus(
      set r | 0 <= r < |s.rounds| :: s.rounds[r].own,
      if exists v :: HasChosen(s, v) then var v :| HasChosen(s, v); Some(v) else None)
  }

  lemma AbsDecision<V(!new)>(s: Slot<V>, v: V)
    requires Reachable(s) && HasChosen(s, v)
    ensures Abs(s).decision == Some(v)
    ensures v in Abs(s).proposals
  {
    forall w | HasChosen(s, w) ensures w == v {
      var m, m' :| Chosen(s, m, v) && Chosen(s, m', w);
      Agreement(s, m, v, m', w);
    }
    var m :| Chosen(s, m, v);
    ReachableInv(s);
    var r := ChosenHasRound(s, m, v);
    assert RoundOk(s, r);
  }

  lemma BeginChoosesNothing<V>(s: Slot<V>, k: int, v: V, m: int, w: V)
    requires RepliesInRange(s) && Chosen(Do(s, Begin(k, v)), m, w)
    ensures Chosen(s, m, w)
  {
    var s' := Do(s, Begin(k, v));
    assert AcceptedAs(s', m, w) == AcceptedAs(s, m, w) by {
      forall a: nat ensures HasAccepted(s', a, m, w) == HasAccepted(s, a, m, w) {
        if HasAccepted(s', a, m, w) {
          var r: nat :| r < |s'.rounds| && Voted(s', a, r) && s'.rounds[r].seqNum == m
            && s'.rounds[r].proposed == Some(w);
          assert Voted(s, a, r);
        }
        if HasAccepted(s, a, m, w) {
          var r: nat :| r < |s.rounds| && Voted(s, a, r) && s.rounds[r].seqNum == m && s.rounds[r].proposed == Some(w);
          assert Voted(s', a, r);
        }
      }
    }
  }

  lemma DecisionStays<V(!new)>(s: Slot<V>, step: Step<V>, v: V)
    requires Reachable(s) && Enabled(s, step) && HasChosen(s, v)
    ensures HasChosen(Do(s, step), v)
    ensures Abs(s).decision == Abs(Do(s, step)).decision == Some(v)
  {
    var m :| Chosen(s, m, v);
    StepGrows(s, step);
    ChosenStays(s, Do(s, step), m, v);
    Extend(s, step);
    AbsDecision(s, v);
    AbsDecision(Do(s, step), v);
  }

  lemma DecisionIsNew<V(!new)>(s: Slot<V>, step: Step<V>, v: V)
    requires Reachable(s) && Enabled(s, step) && Abs(s).decision.None? && HasChosen(Do(s, step), v)
    ensures !step.Begin?
    ensures Decided(Abs(s), Abs(Do(s, step)), v)
  {
    if step.Begin? {
      var m :| Chosen(Do(s, step), m, v);
      ReachableInv(s);
      BeginChoosesNothing(s, step.seqNum, step.own, m, v);
      assert HasChosen(s, v);
    }
    Extend(s, step);
    AbsDecision(Do(s, step), v);
    ProposalsAdvance(s, step);
  }

  /** Paxos refines the abstract slot: every step of the protocol is an abstract proposal,
      the one abstract decision, or invisible. */
  lemma PaxosRefinesConsensus<V(!new)>(s: Slot<V>, step: Step<V>)
    requires Reachable(s) && Enabled(s, step)
    ensures Advances(Abs(s), Abs(Do(s, step)))
    ensures Abs(s).decision.Some? ==> Abs(Do(s, step)).decision == Abs(s).decision
  {
    var s' := Do(s, step);
    ProposalsAdvance(s, step);
    if v :| HasChosen(s, v) {
      DecisionStays(s, step, v);
    } else if v :| HasChosen(s', v) {
      DecisionIsNew(s, step, v);
    }
    if step.Begin? { assert Abs(s').decision == Abs(s).decision ==> Proposed(Abs(s), Abs(s'), step.own); }
  }

  lemma ProposalsAdvance<V(!new)>(s: Slot<V>, step: Step<V>)
    requires Enabled(s, step)
    ensures Abs(Do(s, step)).proposals == Abs(s).proposals + if step.Begin? then {step.own} else {}
  {
    var s' := Do(s, step);
    if step.Begin? {
      assert forall r :: 0 <= r < |s'.rounds| ==>
        s'.rounds[r].own == if r < |s.rounds| then s.rounds[r].own else step.own;
      assert s'.rounds[|s.rounds|].own == step.own;
    } else {
      assert forall r :: 0 <= r < |s'.rounds| ==> s'.rounds[r].own == s.rounds[r].own;
    }
  }
}
