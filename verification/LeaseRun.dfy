/** The lease protocol for one key: a storage server, any number of libstores (hosts) with
    any number of concurrent Gets each, and writers that revoke or wait out every lease.
    All clocks agree; a lease is granted for `lease` seconds and recorded for `guard` more. */
module LeaseRun {
  import opened Basics
  import opened LeaseCore

  /** What the store holds under the key: a value, a list, or nothing. */
  datatype Value = Missing | Text(text: string) | Items(items: seq<string>)

  datatype Params = Params(lease: int, guard: int)

  /** A Get: the clock reading it took before waiting for the key's lock, and every value
      the store has held since. */
  datatype Call = Call(since: int, held: set<Value>)

  datatype RpcReply = NoReply | Reply(value: Value, granted: bool)

  /** The Get that holds the key's lock at its libstore and asks the storage server. */
  datatype Fetch = Fetch(call: Call, wantLease: bool, reply: RpcReply)

  datatype Host = Host(cache: Option<Cached<Value>>, fetch: Option<Fetch>, waiting: map<nat, Call>)

  /** A write in progress: the hosts whose lease is not yet out of the way, and those that
      have processed this write's revocation. It holds the key's lock at the server. */
  datatype Writing = Writing(value: Value, pending: set<nat>, acked: set<nat>)

  datatype Answer = Answer(value: Value, held: set<Value>)

  datatype System = System(now: int, value: Value, leases: map<nat, Lease>, write: Option<Writing>,
                           hosts: seq<Host>, answers: seq<Answer>)

  datatype Step =
    | Tick(d: nat)
    | Begin(h: nat, id: nat)
    | Hit(h: nat, id: nat)
    | Miss(h: nat, id: nat, wantLease: bool)
    | Serve(h: nat)
    | Finish(h: nat)
    | FailGet(h: nat)
    | OrphanGrant(h: nat)
    | Evict(h: nat)
    | Create(v: Value)
    | BeginWrite(v: Value)
    | Expire(h: nat)
    | Revoke(h: nat)
    | AckArrives(h: nat)
    | Commit
    | AbortWrite

  ghost function Init(n: nat): System {
    System(0, Missing, map[], None, seq(n, _ => Host(None, None, map[])), [])
  }

  ghost predicate Enabled(p: Params, s: System, step: Step) {
    match step
    case Tick(_) => true
    case Begin(h, id) => h < |s.hosts| && id !in s.hosts[h].waiting
    case Hit(h, id) =>
      && h < |s.hosts| && id in s.hosts[h].waiting && s.hosts[h].fetch.None?
      && Lookup(s.hosts[h].cache, s.hosts[h].waiting[id].since).Some?
    case Miss(h, id, _) =>
      && h < |s.hosts| && id in s.hosts[h].waiting && s.hosts[h].fetch.None?
      && Lookup(s.hosts[h].cache, s.hosts[h].waiting[id].since).None?
    case Serve(h) => h < |s.hosts| && s.hosts[h].fetch.Some? && s.hosts[h].fetch.value.reply.NoReply? && s.write.None?
    case Finish(h) => h < |s.hosts| && s.hosts[h].fetch.Some? && s.hosts[h].fetch.value.reply.Reply?
    case FailGet(h) => h < |s.hosts| && s.hosts[h].fetch.Some?
    case OrphanGrant(h) => h < |s.hosts| && s.write.None? && s.value != Missing
    case Evict(h) => h < |s.hosts|
    case Create(v) => s.write.None? && s.value == Missing && v != Missing
    case BeginWrite(v) => s.write.None? && s.value != Missing && v != Missing
    case Expire(h) => s.write.Some? && h in s.write.value.pending && h in s.leases && s.now >= Until(s.leases[h])
    case Revoke(h) => s.write.Some? && h in s.write.value.pending && h < |s.hosts| && s.hosts[h].fetch.None?
    case AckArrives(h) => s.write.Some? && h in s.write.value.acked
    case Commit => s.write.Some? && s.write.value.pending == {}
    case AbortWrite => s.write.Some?
  }

  function SeesCall(c: Call, v: Value): Call { c.(held := c.held + {v}) }

  /** Every Get in progress notes that the store now holds `v`. */
  function SeesHost(x: Host, v: Value): Host {
    Host(x.cache,
         if x.fetch.Some? then Some(x.fetch.value.(call := SeesCall(x.fetch.value.call, v))) else None,
         map id | id in x.waiting :: SeesCall(x.waiting[id], v))
  }

  function Store(s: System, v: Value): System {
    s.(value := v, leases := map[], write := None,
       hosts := seq(|s.hosts|, i requires 0 <= i < |s.hosts| => SeesHost(s.hosts[i], v)))
  }

  ghost function Do(p: Params, s: System, step: Step): System
    requires Enabled(p, s, step)
  {
    match step
    case Tick(d) => s.(now := s.now + d)
    case Begin(h, id) =>
      var x := s.hosts[h];
      s.(hosts := s.hosts[h := x.(waiting := x.waiting[id := Call(s.now, {s.value})])])
    case Hit(h, id) =>
      var x := s.hosts[h];
      s.(hosts := s.hosts[h := x.(waiting := x.waiting - {id})],
         answers := s.answers + [Answer(x.cache.value.value, x.waiting[id].held)])
    case Miss(h, id, want) =>
      var x := s.hosts[h];
      s.(hosts := s.hosts[h := Host(None, Some(Fetch(x.waiting[id], want, NoReply)), x.waiting - {id})])
    case Serve(h) =>
      var x := s.hosts[h];
      var granted := s.value != Missing && x.fetch.value.wantLease && Grants(s.leases, h, s.now);
      s.(hosts := s.hosts[h := x.(fetch := Some(x.fetch.value.(reply := Reply(s.value, granted))))],
         leases := if granted then AfterGrant(s.leases, h, s.now, p.lease + p.guard) else s.leases)
    case Finish(h) =>
      var x := s.hosts[h];
      var f := x.fetch.value;
      s.(hosts := s.hosts[h := x.(fetch := None, cache := if f.reply.granted then Some(Copy(p, f)) else x.cache)],
         answers := s.answers + [Answer(f.reply.value, f.call.held)])
    case FailGet(h) => s.(hosts := s.hosts[h := s.hosts[h].(fetch := None)])
    case OrphanGrant(h) => s.(leases := AfterGrant(s.leases, h, s.now, p.lease + p.guard))
    case Evict(h) => s.(hosts := s.hosts[h := s.hosts[h].(cache := None)])
    case Create(v) => Store(s, v)
    case BeginWrite(v) => s.(write := Some(Writing(v, s.leases.Keys, {})))
    case Expire(h) => s.(write := Some(s.write.value.(pending := s.write.value.pending - {h})))
    case Revoke(h) =>
      s.(hosts := s.hosts[h := s.hosts[h].(cache := None)],
         write := Some(s.write.value.(acked := s.write.value.acked + {h})))
    case AckArrives(h) => s.(write := Some(s.write.value.(pending := s.write.value.pending - {h})))
    case Commit => Store(s, s.write.value.value)
    case AbortWrite => s.(write := None)
  }

  /** The copy that a granted reply becomes: its lease starts when the Get read the clock. */
  function Copy(p: Params, f: Fetch): Cached<Value>
    requires f.reply.Reply?
  {
    Cached(f.reply.value, Lease(f.call.since, p.lease))
  }

  ghost predicate Next(p: Params, s: System, step: Step, s': System) {
    Enabled(p, s, step) && s' == Do(p, s, step)
  }

  ghost predicate RunsTo(p: Params, n: nat, run: seq<Step>, s: System)
    decreases |run|
  {
    if run == [] then s == Init(n)
    else
      var k := |run| - 1;
      exists q :: RunsTo(p, n, run[..k], q) && Next(p, q, run[k], s)
  }

  ghost predicate Reachable(p: Params, s: System) {
    exists n: nat, run :: RunsTo(p, n, run, s)
  }

  // ---------- the invariant ----------

  /** Host `h` may come to rely on the copy `c`: it is in its cache, or in a granted reply
      on its way there. */
  ghost predicate Relies(p: Params, x: Host, c: Cached<Value>) {
    || x.cache == Some(c)
    || (x.fetch.Some? && x.fetch.value.reply.Reply? && x.fetch.value.reply.granted && Copy(p, x.fetch.value) == c)
  }

  /** A copy whose lease has not run out is current, and the server's record of the lease
      outlasts it by the guard time. */
  ghost predicate Covered(p: Params, s: System, h: nat, c: Cached<Value>) {
    s.now <= Until(c.lease) ==>
      c.value == s.value && h in s.leases && Until(s.leases[h]) >= Until(c.lease) + p.guard * SECOND
  }

  ghost predicate CallOk(p: Params, s: System, x: Host, c: Call) {
    && c.since <= s.now
    && s.value in c.held
    && (forall d :: Relies(p, x, d) && c.since <= Until(d.lease) ==> d.value in c.held)
  }

  ghost predicate FetchOk(p: Params, s: System, x: Host) {
    x.fetch.Some? ==>
      && CallOk(p, s, x, x.fetch.value.call)
      && x.cache.None?
      && (x.fetch.value.reply.Reply? ==> x.fetch.value.reply.value in x.fetch.value.call.held)
  }

  ghost predicate HostOk(p: Params, s: System, h: nat)
    requires h < |s.hosts|
  {
    var x := s.hosts[h];
    && (forall c :: Relies(p, x, c) ==> Covered(p, s, h, c) && c.value != Missing)
    && (forall id :: id in x.waiting ==> CallOk(p, s, x, x.waiting[id]))
    && FetchOk(p, s, x)
  }

  /** Host `h` relies on nothing. */
  ghost predicate LetGo(x: Host) {
    x.cache.None? && (x.fetch.Some? && x.fetch.value.reply.Reply? ==> !x.fetch.value.reply.granted)
  }

  /** A lease that no longer holds the write up has run out, or its holder has let go. */
  ghost predicate WriteOk(s: System) {
    s.write.Some? ==>
      && (forall h :: h in s.leases && h !in s.write.value.pending ==>
            s.now >= Until(s.leases[h]) || (h < |s.hosts| && LetGo(s.hosts[h])))
      && (forall h :: h in s.write.value.acked ==> h < |s.hosts| && LetGo(s.hosts[h]))
  }

  ghost predicate AnswersOk(s: System) {
    forall i :: 0 <= i < |s.answers| ==> s.answers[i].value in s.answers[i].held
  }

  ghost predicate Inv(p: Params, s: System) {
    && (forall h: nat :: h < |s.hosts| ==> HostOk(p, s, h))
    && WriteOk(s)
    && AnswersOk(s)
  }

  // ---------- steps of one host ----------

  /** Only host `h` changes, and the clock, the value and the leases do not. */
  ghost predicate OnlyHost(s: System, s': System, h: nat) {
    && h < |s.hosts| && |s'.hosts| == |s.hosts|
    && (forall i: nat :: i < |s.hosts| && i != h ==> s'.hosts[i] == s.hosts[i])
    && s'.now == s.now && s'.value == s.value && s'.leases == s.leases && s'.write == s.write
  }

  lemma HostStepKeeps(p: Params, s: System, s': System, h: nat)
    requires Inv(p, s) && OnlyHost(s, s', h) && HostOk(p, s', h) && AnswersOk(s')
    requires LetGo(s.hosts[h]) ==> LetGo(s'.hosts[h])
    ensures Inv(p, s')
  {
    forall i: nat | i < |s'.hosts| ensures HostOk(p, s', i) {
      if i != h { assert HostOk(p, s, i); }
    }
  }

  lemma BeginKeeps(p: Params, s: System, h: nat, id: nat)
    requires Inv(p, s) && Enabled(p, s, Begin(h, id))
    ensures Inv(p, Do(p, s, Begin(h, id)))
  {
    var s' := Do(p, s, Begin(h, id));
    assert HostOk(p, s, h);
    var x, x' := s.hosts[h], s'.hosts[h];
    assert forall c :: Relies(p, x', c) <==> Relies(p, x, c);
    assert CallOk(p, s', x', x'.waiting[id]);
    forall i | i in x'.waiting ensures CallOk(p, s', x', x'.waiting[i]) {
      if i != id { assert CallOk(p, s, x, x.waiting[i]); }
    }
    HostStepKeeps(p, s, s', h);
  }

  lemma HitKeeps(p: Params, s: System, h: nat, id: nat)
    requires Inv(p, s) && Enabled(p, s, Hit(h, id))
    ensures Inv(p, Do(p, s, Hit(h, id)))
  {
    var s' := Do(p, s, Hit(h, id));
    assert HostOk(p, s, h);
    var x, x' := s.hosts[h], s'.hosts[h];
    assert CallOk(p, s, x, x.waiting[id]) && Relies(p, x, x.cache.value);
    assert forall c :: Relies(p, x', c) <==> Relies(p, x, c);
    forall i | i in x'.waiting ensures CallOk(p, s', x', x'.waiting[i]) { assert CallOk(p, s, x, x.waiting[i]); }
    HostStepKeeps(p, s, s', h);
  }

  lemma MissKeeps(p: Params, s: System, h: nat, id: nat, want: bool)
    requires Inv(p, s) && Enabled(p, s, Miss(h, id, want))
    ensures Inv(p, Do(p, s, Miss(h, id, want)))
  {
    var s' := Do(p, s, Miss(h, id, want));
    assert HostOk(p, s, h);
    var x, x' := s.hosts[h], s'.hosts[h];
    assert CallOk(p, s, x, x.waiting[id]);
    assert forall c :: !Relies(p, x', c);
    forall i | i in x'.waiting ensures CallOk(p, s', x', x'.waiting[i]) { assert CallOk(p, s, x, x.waiting[i]); }
    HostStepKeeps(p, s, s', h);
  }

  lemma FinishKeeps(p: Params, s: System, h: nat)
    requires Inv(p, s) && Enabled(p, s, Finish(h))
    ensures Inv(p, Do(p, s, Finish(h)))
  {
    var s' := Do(p, s, Finish(h));
    assert HostOk(p, s, h);
    var x, x' := s.hosts[h], s'.hosts[h];
    assert forall c :: Relies(p, x', c) ==> Relies(p, x, c);
    forall i | i in x'.waiting ensures CallOk(p, s', x', x'.waiting[i]) { assert CallOk(p, s, x, x.waiting[i]); }
    HostStepKeeps(p, s, s', h);
  }

  lemma ForgetKeeps(p: Params, s: System, s': System, h: nat)
    requires Inv(p, s) && OnlyHost(s, s', h) && s'.answers == s.answers
    requires s'.hosts[h].waiting == s.hosts[h].waiting
    requires s'.hosts[h].cache.None? || s'.hosts[h].cache == s.hosts[h].cache
    requires s'.hosts[h].fetch.None? || s'.hosts[h].fetch == s.hosts[h].fetch
    ensures Inv(p, s')
  {
    assert HostOk(p, s, h);
    var x, x' := s.hosts[h], s'.hosts[h];
    assert forall c :: Relies(p, x', c) ==> Relies(p, x, c);
    forall i | i in x'.waiting ensures CallOk(p, s', x', x'.waiting[i]) { assert CallOk(p, s, x, x.waiting[i]); }
    if x'.fetch.Some? { assert CallOk(p, s, x, x.fetch.value.call); }
    HostStepKeeps(p, s, s', h);
  }

  // ---------- grants, time and writes ----------

  /** A grant never replaces the record of a lease that is still relied on. */
  lemma GrantKeepsCover(p: Params, s: System, h: nat, i: nat, c: Cached<Value>)
    requires p.guard > 0 && Covered(p, s, i, c)
    ensures Covered(p, s.(leases := AfterGrant(s.leases, h, s.now, p.lease + p.guard)), i, c)
  {
  }

  lemma OrphanGrantKeeps(p: Params, s: System, h: nat)
    requires Inv(p, s) && p.guard > 0 && Enabled(p, s, OrphanGrant(h))
    ensures Inv(p, Do(p, s, OrphanGrant(h)))
  {
    var s' := Do(p, s, OrphanGrant(h));
    forall i: nat | i < |s'.hosts| ensures HostOk(p, s', i) {
      assert HostOk(p, s, i);
      var x := s.hosts[i];
      forall c | Relies(p, x, c) ensures Covered(p, s', i, c) { GrantKeepsCover(p, s, h, i, c); }
      forall id | id in x.waiting ensures CallOk(p, s', x, x.waiting[id]) { assert CallOk(p, s, x, x.waiting[id]); }
    }
  }

  lemma ServedHost(p: Params, s: System, h: nat)
    requires Inv(p, s) && p.guard > 0 && Enabled(p, s, Serve(h))
    ensures HostOk(p, Do(p, s, Serve(h)), h)
  {
    var s' := Do(p, s, Serve(h));
    assert HostOk(p, s, h);
    var x, x' := s.hosts[h], s'.hosts[h];
    var f' := x'.fetch.value;
    assert CallOk(p, s, x, x.fetch.value.call);
    forall c | Relies(p, x', c) ensures c == Copy(p, f') && c.value == s.value != Missing { }
    if f'.reply.granted { assert Until(s'.leases[h]) == s.now + (p.lease + p.guard) * SECOND; }
    forall id | id in x'.waiting ensures CallOk(p, s', x', x'.waiting[id]) { assert CallOk(p, s, x, x.waiting[id]); }
  }

  lemma ServeKeeps(p: Params, s: System, h: nat)
    requires Inv(p, s) && p.guard > 0 && Enabled(p, s, Serve(h))
    ensures Inv(p, Do(p, s, Serve(h)))
  {
    var s' := Do(p, s, Serve(h));
    ServedHost(p, s, h);
    forall i: nat | i < |s'.hosts| && i != h ensures HostOk(p, s', i) {
      assert HostOk(p, s, i);
      var x := s.hosts[i];
      forall c | Relies(p, x, c) ensures Covered(p, s', i, c) { GrantKeepsCover(p, s, h, i, c); }
      forall id | id in x.waiting ensures CallOk(p, s', x, x.waiting[id]) { assert CallOk(p, s, x, x.waiting[id]); }
    }
  }

  lemma TickKeeps(p: Params, s: System, d: nat)
    requires Inv(p, s)
    ensures Inv(p, Do(p, s, Tick(d)))
  {
    var s' := Do(p, s, Tick(d));
    forall i: nat | i < |s'.hosts| ensures HostOk(p, s', i) {
      assert HostOk(p, s, i);
      var x := s.hosts[i];
      forall c | Relies(p, x, c) ensures Covered(p, s', i, c) { assert Covered(p, s, i, c); }
      forall id | id in x.waiting ensures CallOk(p, s', x, x.waiting[id]) { assert CallOk(p, s, x, x.waiting[id]); }
      if x.fetch.Some? { assert CallOk(p, s, x, x.fetch.value.call); }
    }
  }

  /** Only the bookkeeping of a write changes. */
  lemma WriteStepKeeps(p: Params, s: System, s': System)
    requires Inv(p, s) && s' == s.(write := s'.write) && WriteOk(s')
    ensures Inv(p, s')
  {
    forall i: nat | i < |s'.hosts| ensures HostOk(p, s', i) {
      assert HostOk(p, s, i);
      var x := s.hosts[i];
      forall c | Relies(p, x, c) ensures Covered(p, s', i, c) { assert Covered(p, s, i, c); }
      forall id | id in x.waiting ensures CallOk(p, s', x, x.waiting[id]) { assert CallOk(p, s, x, x.waiting[id]); }
      if x.fetch.Some? { assert CallOk(p, s, x, x.fetch.value.call); }
    }
  }

  lemma RevokeKeeps(p: Params, s: System, h: nat)
    requires Inv(p, s) && Enabled(p, s, Revoke(h))
    ensures Inv(p, Do(p, s, Revoke(h)))
  {
    var s1 := Do(p, s, Evict(h));
    ForgetKeeps(p, s, s1, h);
    WriteStepKeeps(p, s1, Do(p, s, Revoke(h)));
  }

  /** When the value is replaced, no host relies on a copy whose lease still runs. */
  ghost predicate Quiet(p: Params, s: System) {
    forall h: nat, c :: h < |s.hosts| && Relies(p, s.hosts[h], c) ==> s.now > Until(c.lease)
  }

  lemma StoreKeeps(p: Params, s: System, v: Value)
    requires Inv(p, s) && Quiet(p, s)
    ensures Inv(p, Store(s, v))
  {
    var s' := Store(s, v);
    forall i: nat | i < |s'.hosts| ensures HostOk(p, s', i) {
      assert HostOk(p, s, i);
      var x, x' := s.hosts[i], s'.hosts[i];
      assert forall c :: Relies(p, x', c) <==> Relies(p, x, c);
      forall id | id in x'.waiting ensures CallOk(p, s', x', x'.waiting[id]) { assert CallOk(p, s, x, x.waiting[id]); }
      if x.fetch.Some? { assert CallOk(p, s, x, x.fetch.value.call); }
    }
  }

  lemma CommitIsQuiet(p: Params, s: System)
    requires Inv(p, s) && p.guard > 0 && Enabled(p, s, Commit)
    ensures Quiet(p, s)
  {
    forall h: nat, c | h < |s.hosts| && Relies(p, s.hosts[h], c) ensures s.now > Until(c.lease) {
      assert HostOk(p, s, h);
      assert Covered(p, s, h, c) && !LetGo(s.hosts[h]);
    }
  }

  lemma CreateIsQuiet(p: Params, s: System, v: Value)
    requires Inv(p, s) && Enabled(p, s, Create(v))
    ensures Quiet(p, s)
  {
    forall h: nat, c | h < |s.hosts| && Relies(p, s.hosts[h], c) ensures s.now > Until(c.lease) {
      assert HostOk(p, s, h);
    }
  }

  lemma StepKeeps(p: Params, s: System, step: Step)
    requires Inv(p, s) && p.guard > 0 && Enabled(p, s, step)
    ensures Inv(p, Do(p, s, step))
  {
    match step
    case Tick(d) => TickKeeps(p, s, d);
    case Begin(h, id) => BeginKeeps(p, s, h, id);
    case Hit(h, id) => HitKeeps(p, s, h, id);
    case Miss(h, id, want) => MissKeeps(p, s, h, id, want);
    case Serve(h) => ServeKeeps(p, s, h);
    case Finish(h) => FinishKeeps(p, s, h);
    case FailGet(h) => ForgetKeeps(p, s, Do(p, s, step), h);
    case OrphanGrant(h) => OrphanGrantKeeps(p, s, h);
    case Evict(h) => ForgetKeeps(p, s, Do(p, s, step), h);
    case Create(v) => CreateIsQuiet(p, s, v); StoreKeeps(p, s, v);
    case BeginWrite(v) => WriteStepKeeps(p, s, Do(p, s, step));
    case Expire(h) => WriteStepKeeps(p, s, Do(p, s, step));
    case Revoke(h) => RevokeKeeps(p, s, h);
    case AckArrives(h) => WriteStepKeeps(p, s, Do(p, s, step));
    case Commit => CommitIsQuiet(p, s); StoreKeeps(p, s, s.write.value.value);
    case AbortWrite => WriteStepKeeps(p, s, Do(p, s, step));
  }

  lemma {:induction false} RunKeeps(p: Params, n: nat, run: seq<Step>, s: System)
    requires p.guard > 0 && RunsTo(p, n, run, s)
    ensures Inv(p, s)
    decreases |run|
  {
    if run != [] {
      var k := |run| - 1;
      var q :| RunsTo(p, n, run[..k], q) && Next(p, q, run[k], s);
      RunKeeps(p, n, run[..k], q);
      StepKeeps(p, q, run[k]);
    }
  }

  lemma ReachableInv(p: Params, s: System)
    requires p.guard > 0 && Reachable(p, s)
    ensures Inv(p, s)
  {
    var n: nat, run :| RunsTo(p, n, run, s);
    RunKeeps(p, n, run, s);
  }

  // ---------- the theorems ----------

  /** Every cached copy whose lease has not run out is the store's current value. */
  ghost predicate Coherent(s: System) {
    forall h: nat :: h < |s.hosts| && s.hosts[h].cache.Some? && s.now <= Until(s.hosts[h].cache.value.lease) ==>
      s.hosts[h].cache.value.value == s.value
  }

  /** In every run, a cached copy whose lease has not run out equals the store's value and
      is covered by a server record that outlasts it by the guard time. */
  lemma CachesAreCoherent(p: Params, s: System, h: nat)
    requires p.guard > 0 && Reachable(p, s) && h < |s.hosts| && s.hosts[h].cache.Some?
    requires s.now <= Until(s.hosts[h].cache.value.lease)
    ensures s.hosts[h].cache.value.value == s.value != Missing
    ensures h in s.leases && Until(s.leases[h]) >= Until(s.hosts[h].cache.value.lease) + p.guard * SECOND
  {
    ReachableInv(p, s);
    assert HostOk(p, s, h) && Relies(p, s.hosts[h], s.hosts[h].cache.value);
  }

  /** In every run, every Get answers with a value that the store held at some moment
      between its start and its end, even when it was served from a cache after waiting
      for the lock past the end of the lease. */
  lemma AnswersWereHeld(p: Params, s: System, i: nat)
    requires p.guard > 0 && Reachable(p, s) && i < |s.answers|
    ensures s.answers[i].value in s.answers[i].held
  {
    ReachableInv(p, s);
  }

  lemma Extend(p: Params, s: System, step: Step)
    requires Reachable(p, s) && Enabled(p, s, step)
    ensures Reachable(p, Do(p, s, step))
  {
    var n: nat, run :| RunsTo(p, n, run, s);
    var run' := run + [step];
    assert run'[..|run|] == run && Next(p, s, run'[|run|], Do(p, s, step));
    assert RunsTo(p, n, run', Do(p, s, step));
  }

  /** One host, which waits for the answer to its first Get. */
  lemma GetUnderWay(p: Params, v: Value) returns (s: System)
    requires v != Missing
    ensures Reachable(p, s)
    ensures s == System(0, v, map[], None, [Host(None, Some(Fetch(Call(0, {v}), true, NoReply)), map[])], [])
  {
    var s0 := Init(1);
    assert RunsTo(p, 1, [], s0);
    Extend(p, s0, Create(v));
    var s1 := Do(p, s0, Create(v));
    assert s1 == System(0, v, map[], None, [Host(None, None, map[])], []);
    Extend(p, s1, Begin(0, 0));
    var s2 := Do(p, s1, Begin(0, 0));
    assert s2.hosts == [Host(None, None, map[0 := Call(0, {v})])];
    Extend(p, s2, Miss(0, 0, true));
    s := Do(p, s2, Miss(0, 0, true));
    assert map[0 := Call(0, {v})] - {0} == map[];
  }

  /** It has got the value under a lease, at time zero. */
  lemma LeaseTaken(p: Params, v: Value) returns (s: System)
    requires v != Missing
    ensures Reachable(p, s) && s.now == 0 && s.value == v && s.write == None
    ensures s.leases == map[0 := Lease(0, p.lease + p.guard)]
    ensures |s.hosts| == 1 && s.hosts[0].cache == Some(Cached(v, Lease(0, p.lease)))
  {
    var s0 := GetUnderWay(p, v);
    Extend(p, s0, Serve(0));
    var s1 := Do(p, s0, Serve(0));
    Extend(p, s1, Finish(0));
    s := Do(p, s1, Finish(0));
  }

  /** Without a guard time the copy and the record run out together, and a write at that
      very moment is ahead of a copy that is still believed. */
  lemma StaleWithoutGuard(p: Params) returns (s: System)
    requires p.lease >= 0 && p.guard <= 0
    ensures Reachable(p, s) && !Coherent(s)
  {
    var s0 := LeaseTaken(p, Text("old"));
    var d := p.lease * SECOND;
    Extend(p, s0, Tick(d));
    var s1 := Do(p, s0, Tick(d));
    Extend(p, s1, BeginWrite(Text("new")));
    var s2 := Do(p, s1, BeginWrite(Text("new")));
    assert s2.write.value.pending == {0};
    Extend(p, s2, Expire(0));
    var s3 := Do(p, s2, Expire(0));
    assert s3.write.value.pending == {};
    Extend(p, s3, Commit);
    s := Do(p, s3, Commit);
    assert s.hosts[0].cache.value.value == Text("old") && s.value == Text("new");
    assert "old"[0] != "new"[0];
  }

  /** The caches are coherent in every run if and only if the guard time is positive. */
  lemma GuardExactly(p: Params)
    requires p.lease >= 0
    ensures (forall s :: Reachable(p, s) ==> Coherent(s)) <==> p.guard > 0
  {
    if p.guard > 0 {
      forall s | Reachable(p, s) ensures Coherent(s) {
        forall h: nat | h < |s.hosts| && s.hosts[h].cache.Some? && s.now <= Until(s.hosts[h].cache.value.lease)
          ensures s.hosts[h].cache.value.value == s.value
        {
          CachesAreCoherent(p, s, h);
        }
      }
    } else {
      var s := StaleWithoutGuard(p);
    }
  }
}
