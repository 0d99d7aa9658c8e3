/** Three or more airline servers can drift apart; two cannot. */
module Divergence {
  import opened Basics
  import opened PaxosPeer
  import P = PaxosRun
  import opened PaxosStatus
  import PaxosStart
  import opened PaxosLateAccept
  import opened Airline
  import L = ReplicatedLog
  import opened EndToEnd

  /** Protocol steps of one slot can be taken one after the other. */
  lemma {:induction false} FollowProtocol(n: nat, f: Cluster, k: nat, run: seq<P.Step<Op>>, s: P.Slot<Op>)
    requires Reachable(n, All, f) && k in f.slots && QuietRun(f.slots[k], run, s)
    ensures Reachable(n, All, f.(slots := f.slots[k := s]))
    decreases |run|
  {
    if run == [] {
      assert f.slots[k := s] == f.slots;
    } else {
      var t := |run| - 1;
      var p :| QuietRun(f.slots[k], run[..t], p) && P.Next(p, run[t], s) && !run[t].Begin? &&
        PaxosStart.OwnPeerFirst(p, run[t]);
      FollowProtocol(n, f, k, run[..t], p);
      FollowOne(n, f, k, p, run[t]);
    }
  }

  lemma FollowOne(n: nat, f: Cluster, k: nat, p: P.Slot<Op>, step: P.Step<Op>)
    requires Reachable(n, All, f.(slots := f.slots[k := p]))
    requires P.Enabled(p, step) && !step.Begin? && PaxosStart.OwnPeerFirst(p, step)
    ensures Reachable(n, All, f.(slots := f.slots[k := P.Do(p, step)]))
  {
    var f1 := f.(slots := f.slots[k := p]);
    EndToEnd.Extend(n, f1, Protocol(k, step));
    assert f1.slots[k := P.Do(p, step)] == f.slots[k := P.Do(p, step)];
  }

  function NewFlight(id: string): Op { Op(AddFlight, 0, "", id, 0, 0, 1) }

  lemma Submitted(n: nat, f: Cluster, i: nat, op: Op) returns (f': Cluster)
    requires Reachable(n, All, f) && i < |f.replicas| == |f.phases|
    requires f.replicas[i].call.None? && op !in f.before.Keys && !op.kind.NoOp?
    ensures Reachable(n, All, f') && f'.slots == f.slots && f'.before.Keys == f.before.Keys + {op}
    ensures f'.replicas == f.replicas[i := f.replicas[i].(call := Some(op))] && f'.phases == f.phases[i := Looking]
  {
    EndToEnd.Extend(n, f, Submit(i, op));
    f' := Do(f, n, Submit(i, op));
  }

  /** Servers 0, 1 and the last one have a call each and look at slot 0. */
  lemma ThreeCalls(n: nat) returns (f: Cluster)
    requires n >= 3
    ensures Reachable(n, All, f) && |f.replicas| == |f.phases| == n && f.slots == map[]
    ensures f.replicas[0] == L.Replica(0, EMPTY, Some(NewFlight("A")))
    ensures f.replicas[1] == L.Replica(0, EMPTY, Some(NewFlight("B")))
    ensures f.replicas[n - 1] == L.Replica(0, EMPTY, Some(NewFlight("C"))) && f.phases[n - 1] == Looking
  {
    f := Start(n);
    assert RunsTo(n, All, [], f);
    FlightsDiffer();
    f := Submitted(n, f, 0, NewFlight("A"));
    f := Submitted(n, f, 1, NewFlight("B"));
    f := Submitted(n, f, n - 1, NewFlight("C"));
  }

  lemma FlightsDiffer()
    ensures NewFlight("A") != NewFlight("B") && NewFlight("A") != NewFlight("C") && NewFlight("B") != NewFlight("C")
  {
    assert "A"[0] != "B"[0] && "A"[0] != "C"[0] && "B"[0] != "C"[0];
    assert NewFlight("A").flightId != NewFlight("B").flightId && NewFlight("B").flightId != NewFlight("C").flightId;
    assert NewFlight("A").flightId != NewFlight("C").flightId;
  }

  /** Servers 0 and 1 start a round each for slot 0. */
  lemma TwoStarts(n: nat) returns (f: Cluster)
    requires n >= 3
    ensures Reachable(n, All, f) && |f.replicas| == |f.phases| == n && 0 in f.slots
    ensures f.slots[0] == TwoRounds(n, NIL, n, NewFlight("A"), n + 1, NewFlight("B"))
    ensures f.replicas[1] == L.Replica(0, EMPTY, Some(NewFlight("B"))) && f.phases[1] == Proposing(1)
    ensures f.replicas[n - 1] == L.Replica(0, EMPTY, Some(NewFlight("C"))) && f.phases[n - 1] == Looking
  {
    var f0 := ThreeCalls(n);
    Residues(n);
    EndToEnd.Extend(n, f0, StartRound(0, n));
    var f1 := Do(f0, n, StartRound(0, n));
    assert f1.slots[0].rounds == [P.Round(n, NewFlight("A"), None, false)];
    EndToEnd.Extend(n, f1, StartRound(1, n + 1));
    f := Do(f1, n, StartRound(1, n + 1));
    assert f.slots[0].rounds
        == [P.Round(n, NewFlight("A"), None, false), P.Round(n + 1, NewFlight("B"), None, false)];
  }

  /** Slot 0 has chosen B; Start of server 1 has returned, and the last peer has been talked
      into A. */
  lemma LastPeerIsWrong(n: nat) returns (f: Cluster)
    requires n >= 3
    ensures Reachable(n, All, f) && |f.replicas| == |f.phases| == n && 0 in f.slots
    ensures f.replicas[1] == L.Replica(0, EMPTY, Some(NewFlight("B"))) && f.phases[1] == Settled
    ensures f.replicas[n - 1] == L.Replica(0, EMPTY, Some(NewFlight("C"))) && f.phases[n - 1] == Looking
    ensures Reports(f.slots[0], 1, NewFlight("B")) && Reports(f.slots[0], n - 1, NewFlight("A"))
  {
    var f0 := TwoStarts(n);
    Residues(n);
    var _, s := LateAcceptOverwrites(n, NIL, n, NewFlight("A"), n + 1, NewFlight("B"));
    var run :| QuietRun(f0.slots[0], run, s);
    FollowProtocol(n, f0, 0, run, s);
    f := StartReturns(n, f0.(slots := f0.slots[0 := s]));
  }

  /** Server 1's Start ends with the Decide of its own peer. */
  lemma StartReturns(n: nat, f: Cluster) returns (f': Cluster)
    requires n >= 3 && Reachable(n, All, f) && |f.replicas| == |f.phases| == n && 0 in f.slots
    requires f.replicas[1] == L.Replica(0, EMPTY, Some(NewFlight("B"))) && f.phases[1] == Proposing(1)
    requires |f.slots[0].acceptors| == n && |f.slots[0].rounds| == 2
    requires f.slots[0].rounds[1] == P.Round(n + 1, NewFlight("B"), Some(NewFlight("B")), true)
    ensures Reachable(n, All, f') && f'.replicas == f.replicas && f'.phases == f.phases[1 := Settled] && 0 in f'.slots
    ensures Reports(f'.slots[0], 1, NewFlight("B"))
    ensures f'.slots[0].acceptors == f.slots[0].acceptors[1 := f'.slots[0].acceptors[1]]
  {
    EndToEnd.Extend(n, f, EndStart(1));
    f' := Do(f, n, EndStart(1));
  }

  /** Three servers or more can end up with different states after the same number of slots. */
  lemma ServersDiverge(n: nat) returns (f: Cluster)
    requires n >= 3
    ensures Reachable(n, All, f) && |f.replicas| == n
    ensures f.replicas[1].slot == f.replicas[n - 1].slot == 1
    ensures f.replicas[1].state == Apply(EMPTY, NewFlight("B")).0
    ensures f.replicas[n - 1].state == Apply(EMPTY, NewFlight("A")).0
  {
    var f0 := LastPeerIsWrong(n);
    EndToEnd.Extend(n, f0, Report(1, NewFlight("B")));
    var f1 := Do(f0, n, Report(1, NewFlight("B")));
    EndToEnd.Extend(n, f1, Report(n - 1, NewFlight("A")));
    f := Do(f1, n, Report(n - 1, NewFlight("A")));
  }

  lemma StatesDiffer()
    ensures Apply(EMPTY, NewFlight("A")).0 != Apply(EMPTY, NewFlight("B")).0
  {
    assert "A"[0] != "B"[0];
    assert NewFlight("A").Flight().flightId != NewFlight("B").Flight().flightId;
    assert NewFlight("A").Flight() in Apply(EMPTY, NewFlight("A")).0.status;
  }

  /** Servers that have replayed equally many slots hold equal states in every run of `n`
      servers if and only if there are at most two of them. */
  lemma ServersAgreeExactly(n: nat)
    ensures (forall f :: Reachable(n, All, f) ==> InStep(f)) <==> n <= 2
  {
    if n <= 2 {
      forall f | Reachable(n, All, f) ensures InStep(f) {
        var run :| RunsTo(n, All, run, f);
        SmallRunsAreTrusted(n, run, f);
        TrustedRunsStayInStep(n, f);
      }
    } else {
      var f := ServersDiverge(n);
      StatesDiffer();
      assert !InStep(f);
    }
  }
}
