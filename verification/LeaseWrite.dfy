/** A write of the storage server as steps of the lease protocol. */
module LeaseWrite {
  import opened Basics
  import opened LeaseCore
  import opened LeaseNodes
  import opened LeaseRun

  /** What the revocation loop saw has happened: its clock readings are past, and an
      acknowledgement means that the holder has processed the revocation. */
  ghost predicate Happened(s: System, visits: map<nat, Visit>)
    requires s.write.Some?
  {
    forall h :: h in s.write.value.pending ==>
      && h in s.leases && h in visits && visits[h].now <= s.now
      && (visits[h].how.SleptUntil? ==> visits[h].how.wokeAt <= s.now)
      && (visits[h].how.Acked? && visits[h].now < Until(s.leases[h]) ==> h in s.write.value.acked)
  }

  /** A settled lease stops holding the write up, by the step that its visit stands for. */
  lemma LeaseGoes(p: Params, s: System, visits: map<nat, Visit>, h: nat) returns (s': System)
    requires Reachable(p, s) && s.write.Some? && Happened(s, visits)
    requires h in s.write.value.pending && Settled(s.leases[h], visits[h])
    ensures Reachable(p, s')
    ensures s' == s.(write := Some(s.write.value.(pending := s.write.value.pending - {h})))
  {
    var step := if s.now >= Until(s.leases[h]) then Expire(h) else AckArrives(h);
    Extend(p, s, step);
    s' := Do(p, s, step);
  }

  /** When the revocation loop has settled every lease, the steps it stands for bring the
      write to its commit: the new value is stored and no lease is left on record. */
  lemma {:induction false} SettledWriteCommits(p: Params, s: System, visits: map<nat, Visit>) returns (s': System)
    requires Reachable(p, s) && s.write.Some? && Happened(s, visits) && AllSettled(s.leases, visits)
    ensures Reachable(p, s') && s' == Store(s, s.write.value.value)
    decreases |s.write.value.pending|
  {
    if s.write.value.pending == {} {
      Extend(p, s, Commit);
      s' := Do(p, s, Commit);
    } else {
      var h := Pick(s.write.value.pending);
      var q := LeaseGoes(p, s, visits, h);
      s' := SettledWriteCommits(p, q, visits);
    }
  }

  /** A running lease whose holder has not answered holds the write up: no step but an abort
      takes the write past it. */
  lemma UnsettledWriteWaits(p: Params, s: System, h: nat)
    requires s.write.Some? && h in s.write.value.pending && h in s.leases
    requires s.now < Until(s.leases[h]) && h !in s.write.value.acked
    ensures forall step :: Enabled(p, s, step) && s.write != Do(p, s, step).write ==>
      step.AbortWrite? || (Do(p, s, step).write.Some? && h in Do(p, s, step).write.value.pending)
  {
  }
}
