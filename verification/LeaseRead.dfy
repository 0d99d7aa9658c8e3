/** The lease protocol as configured: ten seconds of lease and two of guard. What the storage
    server and the libstore do in a Get, as steps of the protocol, and what follows. */
module LeaseRead {
  import opened Basics
  import opened LeaseCore
  import opened LeaseRun

  const CONFIG: Params := Params(LEASE_SECONDS, LEASE_GUARD_SECONDS)

  // ---------- a Get as steps ----------

  /** No lease of the host is on record that has not run out. */
  predicate RunOut(leases: map<nat, Lease>, h: nat, now: int) {
    h in leases ==> now > leases[h].startFrom + leases[h].validSeconds * 1_000_000_000
  }

  /** The storage server's part is the step Serve: the same reply and the same record. A lease
      is granted if and only if one is asked for and none of the host is on record that has
      not run out; it is recorded for twelve seconds. */
  lemma ServeIsGet(s: System, h: nat)
    requires Enabled(CONFIG, s, Serve(h)) && s.value != Missing
    ensures var s', f := Do(CONFIG, s, Serve(h)), s.hosts[h].fetch.value;
      var (e, granted, validSeconds) := OnGet(Entry(s.value, s.leases), h, s.now, f.wantLease);
      && s'.value == e.value == s.value && s'.leases == e.leaseGranted
      && s'.hosts == s.hosts[h := s.hosts[h].(fetch := Some(f.(reply := Reply(s.value, granted))))]
      && granted == (f.wantLease && RunOut(s.leases, h, s.now))
      && s'.leases == (if granted then s.leases[h := Lease(s.now, 12)] else s.leases)
      && validSeconds == if granted then 10 else 0
  {
  }

  /** The RPC reply, as the libstore reads it. */
  function Brought(reply: RpcReply): Fetched<Value>
    requires reply.Reply?
  {
    if reply.value == Missing then NotFound
    else Found(reply.value, reply.granted, if reply.granted then LEASE_SECONDS else 0)
  }

  /** The libstore's part is the step Finish: the same answer and the same copy, believed for
      ten seconds from the moment at which the Get began. */
  lemma FinishIsGet(s: System, h: nat)
    requires Reachable(CONFIG, s) && Enabled(CONFIG, s, Finish(h))
    ensures var s', f := Do(CONFIG, s, Finish(h)), s.hosts[h].fetch.value;
      && s'.hosts[h].cache == Kept(Brought(f.reply), f.call.since)
      && s'.answers == s.answers + [Answer(f.reply.value, f.call.held)]
      && (f.reply.granted ==> s'.hosts[h].cache == Some(Cached(f.reply.value, Lease(f.call.since, 10))))
  {
    ConfiguredInv(s);
    assert HostOk(CONFIG, s, h);
    if s.hosts[h].fetch.value.reply.granted {
      assert Relies(CONFIG, s.hosts[h], Copy(CONFIG, s.hosts[h].fetch.value));
    }
  }

  /** A Get looks at the cache with the clock reading it took when it began, and uses a copy if
      and only if that reading is not past the copy's lease. */
  lemma HitExactly(s: System, h: nat, id: nat)
    requires h < |s.hosts| && id in s.hosts[h].waiting && s.hosts[h].fetch.None?
    ensures var x := s.hosts[h];
      Enabled(CONFIG, s, Hit(h, id)) <==> (x.cache.Some? &&
        x.waiting[id].since <= x.cache.value.lease.startFrom + x.cache.value.lease.validSeconds * 1_000_000_000)
    ensures forall want :: Enabled(CONFIG, s, Miss(h, id, want)) <==> !Enabled(CONFIG, s, Hit(h, id))
  {
  }

  // ---------- what leases last ----------

  ghost predicate LeasesOk(p: Params, s: System) {
    && (forall h :: h in s.leases ==> s.leases[h].validSeconds == p.lease + p.guard && s.leases[h].startFrom <= s.now)
    && (forall h: nat :: h < |s.hosts| && s.hosts[h].cache.Some? ==>
          s.hosts[h].cache.value.lease.validSeconds == p.lease)
  }

  lemma StepKeepsLeases(p: Params, s: System, step: Step)
    requires LeasesOk(p, s) && Enabled(p, s, step)
    ensures LeasesOk(p, Do(p, s, step))
  {
  }

  lemma {:induction false} RunKeepsLeases(p: Params, n: nat, run: seq<Step>, s: System)
    requires RunsTo(p, n, run, s)
    ensures LeasesOk(p, s)
    decreases |run|
  {
    if run != [] {
      var k := |run| - 1;
      var q :| RunsTo(p, n, run[..k], q) && Next(p, q, run[k], s);
      RunKeepsLeases(p, n, run[..k], q);
      StepKeepsLeases(p, q, run[k]);
    }
  }

  lemma ConfiguredInv(s: System)
    requires Reachable(CONFIG, s)
    ensures Inv(CONFIG, s) && LeasesOk(CONFIG, s)
  {
    ReachableInv(CONFIG, s);
    var n: nat, run :| RunsTo(CONFIG, n, run, s);
    RunKeepsLeases(CONFIG, n, run, s);
  }

  // ---------- the guarantees as configured ----------

  /** In every run of the program's lease times, a copy fetched at `startFrom` is the store's
      value for the next ten seconds, and the server has it on record for two more. */
  lemma CoherentAsConfigured(s: System, h: nat)
    requires Reachable(CONFIG, s) && h < |s.hosts| && s.hosts[h].cache.Some?
    requires s.now <= s.hosts[h].cache.value.lease.startFrom + 10_000_000_000
    ensures s.hosts[h].cache.value.value == s.value != Missing
    ensures h in s.leases && s.hosts[h].cache.value.lease.startFrom <= s.leases[h].startFrom <= s.now
    ensures s.leases[h].validSeconds == 12 && s.hosts[h].cache.value.lease.validSeconds == 10
  {
    ConfiguredInv(s);
    CachesAreCoherent(CONFIG, s, h);
  }

  /** In every run of the program's lease times, every Get answers a value that the store held
      during the call. */
  lemma AnswersHeldAsConfigured(s: System, i: nat)
    requires Reachable(CONFIG, s) && i < |s.answers|
    ensures s.answers[i].value in s.answers[i].held
  {
    AnswersWereHeld(CONFIG, s, i);
  }

  /** Caching works: for ten seconds after the Get that fetched a copy began, a Get at the same
      libstore is answered from the cache, with the store's value, if nothing was revoked or
      evicted in between; later it has to ask the storage server. */
  lemma CopyServesExactly(s: System, h: nat, id: nat)
    requires Reachable(CONFIG, s) && h < |s.hosts| && s.hosts[h].cache.Some?
    requires s.hosts[h].fetch.None? && id !in s.hosts[h].waiting
    ensures Enabled(CONFIG, s, Begin(h, id))
    ensures var s1 := Do(CONFIG, s, Begin(h, id));
      && (Enabled(CONFIG, s1, Hit(h, id)) <==> s.now <= s.hosts[h].cache.value.lease.startFrom + 10_000_000_000)
      && (Enabled(CONFIG, s1, Hit(h, id)) ==>
            Do(CONFIG, s1, Hit(h, id)).answers == s.answers + [Answer(s.value, {s.value})])
  {
    ConfiguredInv(s);
    if s.now <= s.hosts[h].cache.value.lease.startFrom + 10_000_000_000 { CoherentAsConfigured(s, h); }
  }
}
