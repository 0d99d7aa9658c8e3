/** The airline servers over real Paxos slots: server `i` owns peer `i` of every slot and
    replays whatever that peer's Status reports. */
module EndToEnd {
  import opened Basics
  import opened PaxosPeer
  import P = PaxosRun
  import opened PaxosStatus
  import opened PaxosStart
  import opened Airline
  import opened Consensus
  import L = ReplicatedLog

  /** Where a call stands with the current slot: it has not proposed there yet, its Start is
      running round `r`, or its Start has returned. */
  datatype Phase = Looking | Proposing(r: nat) | Settled

  datatype Cluster = Cluster(slots: map<nat, P.Slot<Op>>, replicas: seq<L.Replica>, phases: seq<Phase>,
                             before: map<Op, set<Op>>, returned: map<Op, Result>)

  /** `StartRound` is one pass of the proposer's loop for the caller's operation, under a
      number that only server `i` generates, and `EndStart` its end, with the Decide of the
      own peer; `Protocol` is any other step of Paxos; `Report` acts on an answer of Status. */
  datatype Action =
    | Submit(i: nat, op: Op)
    | GiveUp(i: nat)
    | StartRound(i: nat, seqNum: int)
    | EndStart(i: nat)
    | StartNoOp(i: nat, seqNum: int, k: nat, op: Op)
    | Protocol(k: nat, step: P.Step<Op>)
    | Report(i: nat, v: Op)

  const NIL: Op := Op(NoOp, 0, "", "", 0, 0, 0)

  ghost function SlotOf(f: Cluster, n: nat, k: nat): P.Slot<Op> {
    if k in f.slots then f.slots[k] else P.Init(n, NIL)
  }

  predicate OwnNumber(n: nat, i: nat, seqNum: int) {
    i < n && seqNum > 0 && seqNum % n == i
  }

  ghost predicate Calling(f: Cluster, i: nat) {
    i < |f.replicas| && i < |f.phases| && f.replicas[i].call.Some?
  }

  ghost predicate Enabled(f: Cluster, n: nat, a: Action) {
    match a
    case Submit(i, op) =>
      i < |f.replicas| && i < |f.phases| && f.replicas[i].call.None? && op !in f.before && !op.kind.NoOp?
    case GiveUp(i) => i < |f.replicas| && i < |f.phases|
    case StartRound(i, m) => Calling(f, i) && OwnNumber(n, i, m)
    case EndStart(i) =>
      && Calling(f, i) && f.phases[i].Proposing? && f.replicas[i].slot in f.slots
      && P.Enabled(f.slots[f.replicas[i].slot], P.HandleDecide(i, f.phases[i].r))
    case StartNoOp(i, m, _, op) => op.kind.NoOp? && OwnNumber(n, i, m)
    case Protocol(k, step) =>
      k in f.slots && !step.Begin? && P.Enabled(f.slots[k], step) && OwnPeerFirst(f.slots[k], step)
    case Report(i, v) =>
      Calling(f, i) && !f.phases[i].Proposing? && Reports(SlotOf(f, n, f.replicas[i].slot), i, v)
  }

  /** One step of Paxos in slot `k`. */
  ghost function Stepped(f: Cluster, n: nat, k: nat, step: P.Step<Op>): Cluster
    requires P.Enabled(SlotOf(f, n, k), step)
  {
    f.(slots := f.slots[k := P.Do(SlotOf(f, n, k), step)])
  }

  ghost function Do(f: Cluster, n: nat, a: Action): Cluster
    requires Enabled(f, n, a)
  {
    match a
    case Submit(i, op) =>
      f.(replicas := f.replicas[i := f.replicas[i].(call := Some(op))], phases := f.phases[i := Looking],
         before := f.before[op := f.returned.Keys])
    case GiveUp(i) => f.(replicas := f.replicas[i := f.replicas[i].(call := None)], phases := f.phases[i := Looking])
    case StartRound(i, m) =>
      var k := f.replicas[i].slot;
      Stepped(f, n, k, P.Begin(m, f.replicas[i].call.value)).(
        phases := f.phases[i := Proposing(|SlotOf(f, n, k).rounds|)])
    case EndStart(i) =>
      Stepped(f, n, f.replicas[i].slot, P.HandleDecide(i, f.phases[i].r)).(phases := f.phases[i := Settled])
    case StartNoOp(_, m, k, op) => Stepped(f, n, k, P.Begin(m, op))
    case Protocol(k, step) => Stepped(f, n, k, step)
    case Report(i, v) =>
      var r := f.replicas[i];
      var (state, result) := Apply(r.state, v);
      var done := v == r.call.value;
      f.(replicas := f.replicas[i := L.Replica(r.slot + 1, state, if done then None else r.call)],
         phases := f.phases[i := Looking],
         returned := if done then f.returned[v := result] else f.returned)
  }

  ghost predicate Next(f: Cluster, n: nat, a: Action, f': Cluster) {
    Enabled(f, n, a) && f' == Do(f, n, a)
  }

  ghost function Start(n: nat): Cluster {
    Cluster(map[], seq(n, _ => L.Replica(0, EMPTY, None)), seq(n, _ => Looking), map[], map[])
  }

  // ---------- kinds of runs ----------

  /** All runs; those that act on right reports only; those in which every report would be
      right at any time; those in which no decided peer accepts a different value. */
  datatype Kind = All | Trusted | Truthful | Guarded

  /** What an action reads from Status is what a majority has chosen. */
  ghost predicate Right(f: Cluster, n: nat, a: Action) {
    a.Report? && a.i < |f.replicas| ==> Abs(SlotOf(f, n, f.replicas[a.i].slot)).decision == Some(a.v)
  }

  ghost predicate AllTruthful(f: Cluster) {
    forall k :: k in f.slots ==> PaxosStatus.Truthful(f.slots[k])
  }

  ghost predicate PassesGuard(f: Cluster, a: Action) {
    a.Protocol? && a.k in f.slots ==> PaxosStatus.Guarded(f.slots[a.k], a.step)
  }

  ghost predicate Allowed(kind: Kind, f: Cluster, n: nat, a: Action)
    requires Enabled(f, n, a)
  {
    match kind
    case All => true
    case Trusted => Right(f, n, a)
    case Truthful => AllTruthful(Do(f, n, a))
    case Guarded => PassesGuard(f, a)
  }

  ghost predicate StepsTo(kind: Kind, n: nat, p: Cluster, a: Action, f: Cluster) {
    Next(p, n, a, f) && Allowed(kind, p, n, a)
  }

  ghost predicate RunsTo(n: nat, kind: Kind, run: seq<Action>, f: Cluster)
    decreases |run|
  {
    if run == [] then f == Start(n)
    else
      var k := |run| - 1;
      exists p :: RunsTo(n, kind, run[..k], p) && StepsTo(kind, n, p, run[k], f)
  }

  ghost predicate Reachable(n: nat, kind: Kind, f: Cluster) {
    exists run :: RunsTo(n, kind, run, f)
  }

  lemma Extend(n: nat, f: Cluster, a: Action)
    requires Reachable(n, All, f) && Enabled(f, n, a)
    ensures Reachable(n, All, Do(f, n, a))
  {
    var run :| RunsTo(n, All, run, f);
    var run' := run + [a];
    assert run'[..|run|] == run && StepsTo(All, n, f, run'[|run|], Do(f, n, a));
    assert RunsTo(n, All, run', Do(f, n, a));
  }

  // ---------- every slot is a real Paxos slot ----------

  ghost predicate SlotReal(s: P.Slot<Op>, n: nat) {
    P.Reachable(s) && |s.acceptors| == n && Heard(s) && OwnPromised(s)
  }

  ghost predicate Real(f: Cluster, n: nat) {
    |f.replicas| == n && |f.phases| == n && forall k :: k in f.slots ==> SlotReal(f.slots[k], n)
  }

  lemma SlotIsReal(f: Cluster, n: nat, k: nat)
    requires Real(f, n)
    ensures SlotReal(SlotOf(f, n, k), n)
  {
    assert P.RunsTo(P.Init(n, NIL), [], P.Init(n, NIL));
  }

  lemma SlotRealKeeps(s: P.Slot<Op>, n: nat, step: P.Step<Op>)
    requires SlotReal(s, n) && P.Enabled(s, step) && OwnPeerFirst(s, step)
    ensures SlotReal(P.Do(s, step), n)
  {
    PaxosStatus.Extend(s, step);
    P.StepGrows(s, step);
    HeardKeeps(s, step);
    OwnPromisedKeeps(s, step);
  }

  lemma SteppedIsReal(f: Cluster, n: nat, k: nat, step: P.Step<Op>)
    requires Real(f, n) && P.Enabled(SlotOf(f, n, k), step) && OwnPeerFirst(SlotOf(f, n, k), step)
    ensures Real(Stepped(f, n, k, step), n)
  {
    SlotIsReal(f, n, k);
    SlotRealKeeps(SlotOf(f, n, k), n, step);
  }

  lemma StepKeepsReal(f: Cluster, n: nat, a: Action)
    requires Real(f, n) && Enabled(f, n, a)
    ensures Real(Do(f, n, a), n)
  {
    match a {
      case StartRound(i, m) => SteppedIsReal(f, n, f.replicas[i].slot, P.Begin(m, f.replicas[i].call.value));
      case EndStart(i) => SteppedIsReal(f, n, f.replicas[i].slot, P.HandleDecide(i, f.phases[i].r));
      case StartNoOp(_, m, k, op) => SteppedIsReal(f, n, k, P.Begin(m, op));
      case Protocol(k, step) => SteppedIsReal(f, n, k, step);
      case _ =>
    }
  }

  // ---------- abstraction to the replicated log ----------

  ghost function AbsCluster(f: Cluster): L.World {
    L.World(map k | k in f.slots :: Abs(f.slots[k]), f.replicas, f.before, f.returned)
  }

  lemma FreshAbs(n: nat)
    ensures Abs(P.Init(n, NIL)) == Consensus({}, None)
  {
    var s := P.Init(n, NIL);
    forall v ensures !HasChosen(s, v) {
      forall m ensures !P.Chosen(s, m, v) { assert P.AcceptedAs(s, m, v) == {}; }
    }
  }

  lemma SlotAbs(f: Cluster, n: nat, k: nat)
    ensures L.SlotOf(AbsCluster(f), k) == Abs(SlotOf(f, n, k))
  {
    FreshAbs(n);
  }

  lemma SteppedAbs(f: Cluster, n: nat, k: nat, step: P.Step<Op>)
    requires P.Enabled(SlotOf(f, n, k), step)
    ensures AbsCluster(Stepped(f, n, k, step))
         == AbsCluster(f).(slots := AbsCluster(f).slots[k := Abs(P.Do(SlotOf(f, n, k), step))])
  {
  }

  /** A majority of the peers has chosen `op` in slot `k`. */
  ghost predicate ChosenIn(f: Cluster, n: nat, k: nat, op: Op) {
    HasChosen(SlotOf(f, n, k), op)
  }

  lemma DecidedIsChosen(f: Cluster, n: nat, k: nat, op: Op)
    requires Real(f, n)
    ensures L.DecidedAt(AbsCluster(f), k, op) <==> ChosenIn(f, n, k, op)
  {
    SlotAbs(f, n, k);
    SlotIsReal(f, n, k);
    if ChosenIn(f, n, k, op) { AbsDecision(SlotOf(f, n, k), op); }
  }

  // ---------- the phases of the calls ----------

  /** A call that looks at a slot has not proposed there; one whose Start runs owns the round;
      one whose Start has returned has a peer that is settled. */
  ghost predicate PhaseOk(f: Cluster, n: nat, i: nat)
    requires i < |f.replicas| && i < |f.phases|
  {
    f.replicas[i].call.Some? ==>
      var k := f.replicas[i].slot;
      match f.phases[i]
      case Looking => f.replicas[i].call.value !in Abs(SlotOf(f, n, k)).proposals
      case Proposing(r) => k in f.slots && r < |f.slots[k].rounds| && OwnNumber(n, i, f.slots[k].rounds[r].seqNum)
      case Settled => k in f.slots && SettledAt(f.slots[k], i)
  }

  ghost predicate PhasesOk(f: Cluster, n: nat) {
    |f.replicas| == n && |f.phases| == n && forall i: nat :: i < n ==> PhaseOk(f, n, i)
  }

  /** A step of Paxos keeps the phase of a call, unless it proposes the call's operation. */
  lemma SteppedKeepsPhase(f: Cluster, f': Cluster, n: nat, j: nat, k: nat, step: P.Step<Op>)
    requires Real(f, n) && j < n && PhaseOk(f, n, j)
    requires P.Enabled(SlotOf(f, n, k), step) && f'.slots == Stepped(f, n, k, step).slots
    requires j < |f'.replicas| && j < |f'.phases| && f'.replicas[j] == f.replicas[j] && f'.phases[j] == f.phases[j]
    requires step.Begin? ==> f.replicas[j].call != Some(step.own)
    ensures PhaseOk(f', n, j)
  {
    if f.replicas[j].call.Some? && f.replicas[j].slot == k {
      var s := SlotOf(f, n, k);
      SlotIsReal(f, n, k);
      P.StepGrows(s, step);
      match f.phases[j] {
        case Looking => ProposalsAdvance(s, step);
        case Proposing(r) =>
        case Settled => SettledAtKeeps(s, j, step);
      }
    }
  }

  lemma OthersKeepPhase(f: Cluster, f': Cluster, n: nat, i: nat, k: nat, step: P.Step<Op>)
    requires Real(f, n) && PhasesOk(f, n) && i < n
    requires P.Enabled(SlotOf(f, n, k), step) && f'.slots == Stepped(f, n, k, step).slots
    requires f'.replicas == f.replicas && |f'.phases| == n && f'.phases == f.phases[i := f'.phases[i]]
    requires PhaseOk(f', n, i)
    requires step.Begin? ==> forall j :: 0 <= j < n && j != i ==> f.replicas[j].call != Some(step.own)
    ensures PhasesOk(f', n)
  {
    forall j: nat | j < n ensures PhaseOk(f', n, j) {
      if j != i { SteppedKeepsPhase(f, f', n, j, k, step); }
    }
  }

  lemma StartRoundKeepsPhases(f: Cluster, n: nat, i: nat, m: int)
    requires Real(f, n) && PhasesOk(f, n) && L.Inv(AbsCluster(f)) && Enabled(f, n, StartRound(i, m))
    ensures PhasesOk(Do(f, n, StartRound(i, m)), n)
  {
    var f', step := Do(f, n, StartRound(i, m)), P.Begin(m, f.replicas[i].call.value);
    assert L.OneCaller(AbsCluster(f));
    OthersKeepPhase(f, f', n, i, f.replicas[i].slot, step);
  }

  lemma EndStartKeepsPhases(f: Cluster, n: nat, i: nat)
    requires Real(f, n) && PhasesOk(f, n) && Enabled(f, n, EndStart(i))
    ensures PhasesOk(Do(f, n, EndStart(i)), n)
  {
    var f', k, r := Do(f, n, EndStart(i)), f.replicas[i].slot, f.phases[i].r;
    assert PhaseOk(f, n, i) && SlotReal(f.slots[k], n);
    StartSettles(f.slots[k], r);
    OthersKeepPhase(f, f', n, i, k, P.HandleDecide(i, r));
  }

  lemma StepsKeepPhases(f: Cluster, f': Cluster, n: nat, k: nat, step: P.Step<Op>)
    requires Real(f, n) && PhasesOk(f, n) && P.Enabled(SlotOf(f, n, k), step) && f' == Stepped(f, n, k, step)
    requires step.Begin? ==> forall j :: 0 <= j < n ==> f.replicas[j].call != Some(step.own)
    ensures PhasesOk(f', n)
  {
    forall j: nat | j < n ensures PhaseOk(f', n, j) { SteppedKeepsPhase(f, f', n, j, k, step); }
  }

  lemma StartNoOpKeepsPhases(f: Cluster, n: nat, k: nat, m: int, op: Op)
    requires Real(f, n) && PhasesOk(f, n) && L.Inv(AbsCluster(f)) && op.kind.NoOp?
    ensures PhasesOk(Stepped(f, n, k, P.Begin(m, op)), n)
  {
    forall j | 0 <= j < n ensures f.replicas[j].call != Some(op) { assert L.ReplicaOk(AbsCluster(f), f.replicas[j]); }
    StepsKeepPhases(f, Stepped(f, n, k, P.Begin(m, op)), n, k, P.Begin(m, op));
  }

  lemma SubmitKeepsPhases(f: Cluster, n: nat, i: nat, op: Op)
    requires Real(f, n) && PhasesOk(f, n) && L.Inv(AbsCluster(f)) && Enabled(f, n, Submit(i, op))
    ensures PhasesOk(Do(f, n, Submit(i, op)), n)
  {
    var f' := Do(f, n, Submit(i, op));
    SlotAbs(f, n, f.replicas[i].slot);
    L.FreshOpIsNowhere(AbsCluster(f), op, f.replicas[i].slot);
    forall j: nat | j < n ensures PhaseOk(f', n, j) { assert PhaseOk(f, n, j); }
  }

  lemma ReportKeepsPhases(f: Cluster, n: nat, i: nat, v: Op)
    requires Real(f, n) && PhasesOk(f, n) && L.Inv(AbsCluster(f)) && Enabled(f, n, Report(i, v))
    ensures PhasesOk(Do(f, n, Report(i, v)), n)
  {
    var f' := Do(f, n, Report(i, v));
    SlotAbs(f, n, f.replicas[i].slot + 1);
    assert L.ReplicaOk(AbsCluster(f), f.replicas[i]);
    forall j: nat | j < n ensures PhaseOk(f', n, j) { assert PhaseOk(f, n, j); }
  }

  lemma StepKeepsPhases(f: Cluster, n: nat, a: Action)
    requires Real(f, n) && PhasesOk(f, n) && L.Inv(AbsCluster(f)) && Enabled(f, n, a)
    ensures PhasesOk(Do(f, n, a), n)
  {
    match a {
      case Submit(i, op) => SubmitKeepsPhases(f, n, i, op);
      case GiveUp(i) => forall j: nat | j < n ensures PhaseOk(Do(f, n, a), n, j) { assert PhaseOk(f, n, j); }
      case StartRound(i, m) => StartRoundKeepsPhases(f, n, i, m);
      case EndStart(i) => EndStartKeepsPhases(f, n, i);
      case StartNoOp(_, m, k, op) => StartNoOpKeepsPhases(f, n, k, m, op);
      case Protocol(k, step) => StepsKeepPhases(f, Do(f, n, a), n, k, step);
      case Report(i, v) => ReportKeepsPhases(f, n, i, v);
    }
  }

  // ---------- simulation ----------

  /** The log does the same in one event, or sees nothing; if `exact`, without misreading. */
  ghost predicate Simulated(exact: bool, w: L.World, w': L.World) {
    w' == w || exists e :: L.Next(w, e, w') && (exact ==> !e.Misread?)
  }

  lemma BeginIsProposal(f: Cluster, n: nat, k: nat, m: int, v: Op)
    requires Real(f, n)
    ensures AbsCluster(Stepped(f, n, k, P.Begin(m, v))) == L.AddProposal(AbsCluster(f), k, v)
  {
    var s := SlotOf(f, n, k);
    SlotIsReal(f, n, k);
    SlotAbs(f, n, k);
    SteppedAbs(f, n, k, P.Begin(m, v));
    ProposalsAdvance(s, P.Begin(m, v));
    BeginKeepsDecision(s, m, v);
  }

  lemma BeginKeepsDecision(s: P.Slot<Op>, m: int, v: Op)
    requires P.Reachable(s)
    ensures Abs(P.Do(s, P.Begin(m, v))).decision == Abs(s).decision
  {
    if w :| HasChosen(s, w) { DecisionStays(s, P.Begin(m, v), w); }
    else if w :| HasChosen(P.Do(s, P.Begin(m, v)), w) { DecisionIsNew(s, P.Begin(m, v), w); }
  }

  lemma ProtocolOnSlot(s: P.Slot<Op>, step: P.Step<Op>)
    requires P.Reachable(s) && P.Enabled(s, step) && !step.Begin?
    ensures Abs(P.Do(s, step)) == Abs(s) || exists v :: Decided(Abs(s), Abs(P.Do(s, step)), v)
  {
    ProposalsAdvance(s, step);
    if v :| HasChosen(s, v) { DecisionStays(s, step, v); }
    else if v :| HasChosen(P.Do(s, step), v) { DecisionIsNew(s, step, v); }
  }

  lemma ProtocolSimulates(f: Cluster, n: nat, k: nat, step: P.Step<Op>)
    requires Real(f, n) && k in f.slots && !step.Begin? && P.Enabled(f.slots[k], step)
    ensures Simulated(true, AbsCluster(f), AbsCluster(Stepped(f, n, k, step)))
  {
    SteppedAbs(f, n, k, step);
    ProtocolOnSlot(f.slots[k], step);
    SlotChanges(AbsCluster(f), AbsCluster(Stepped(f, n, k, step)), k, Abs(P.Do(f.slots[k], step)));
  }

  lemma SlotChanges(w: L.World, w': L.World, k: nat, c: Consensus<Op>)
    requires k in w.slots && w' == w.(slots := w.slots[k := c])
    requires c == w.slots[k] || exists v :: Decided(w.slots[k], c, v)
    ensures Simulated(true, w, w')
  {
    if c == w.slots[k] {
      assert w'.slots == w.slots;
    } else {
      var v :| Decided(w.slots[k], c, v);
      assert L.Next(w, L.DecideSlot(k, v), w');
    }
  }

  lemma RightReportSimulates(f: Cluster, n: nat, i: nat, v: Op)
    requires Enabled(f, n, Report(i, v)) && Right(f, n, Report(i, v))
    ensures L.Next(AbsCluster(f), L.Observe(i), AbsCluster(Do(f, n, Report(i, v))))
  {
    SlotAbs(f, n, f.replicas[i].slot);
  }

  lemma ReportedSlot(s: P.Slot<Op>, i: nat, v: Op)
    requires P.Reachable(s) && Reports(s, i, v)
    ensures Abs(s).decision.Some? && v in Abs(s).proposals
    ensures SettledAt(s, i) ==> Abs(s).decision == Some(v)
  {
    ReportMeansChosen(s, i, v);
    var m, w :| P.Chosen(s, m, w);
    assert HasChosen(s, w);
    AbsDecision(s, w);
    if SettledAt(s, i) {
      var m', v' :| P.Chosen(s, m', v') && Reports(s, i, v') && m' <= s.acceptors[i].seqNumHighest;
      P.Agreement(s, m, w, m', v');
    }
    ReportIsSubmitted(s, i, v);
    var r: nat :| r < |s.rounds| && s.rounds[r].own == v;
  }

  /** A wrong report can come only to a call that has not proposed in the slot; its operation
      is neither reported nor chosen there. */
  lemma WrongReportIsMisread(f: Cluster, n: nat, i: nat, v: Op)
    requires Real(f, n) && PhasesOk(f, n) && Enabled(f, n, Report(i, v)) && !Right(f, n, Report(i, v))
    ensures f.phases[i].Looking?
    ensures L.Next(AbsCluster(f), L.Misread(i, v), AbsCluster(Do(f, n, Report(i, v))))
  {
    var k := f.replicas[i].slot;
    SlotIsReal(f, n, k);
    ReportedSlot(SlotOf(f, n, k), i, v);
    assert PhaseOk(f, n, i);
    MisreadSimulates(f, n, i, v);
  }

  lemma MisreadSimulates(f: Cluster, n: nat, i: nat, v: Op)
    requires Enabled(f, n, Report(i, v)) && v != f.replicas[i].call.value
    requires var c := Abs(SlotOf(f, n, f.replicas[i].slot));
      c.decision.Some? && f.replicas[i].call.value !in c.proposals
    ensures L.Next(AbsCluster(f), L.Misread(i, v), AbsCluster(Do(f, n, Report(i, v))))
  {
    SlotAbs(f, n, f.replicas[i].slot);
  }

  lemma StartRoundSimulates(f: Cluster, n: nat, i: nat, m: int)
    requires Real(f, n) && Enabled(f, n, StartRound(i, m))
    ensures L.Next(AbsCluster(f), L.Propose(i), AbsCluster(Do(f, n, StartRound(i, m))))
  {
    BeginIsProposal(f, n, f.replicas[i].slot, m, f.replicas[i].call.value);
  }

  lemma StartNoOpSimulates(f: Cluster, n: nat, i: nat, m: int, k: nat, op: Op)
    requires Real(f, n) && Enabled(f, n, StartNoOp(i, m, k, op))
    ensures L.Next(AbsCluster(f), L.ProposeNoOp(k, op), AbsCluster(Do(f, n, StartNoOp(i, m, k, op))))
  {
    BeginIsProposal(f, n, k, m, op);
  }

  lemma ActionSimulates(f: Cluster, n: nat, a: Action)
    requires Real(f, n) && PhasesOk(f, n) && Enabled(f, n, a)
    ensures Simulated(Right(f, n, a), AbsCluster(f), AbsCluster(Do(f, n, a)))
  {
    var w, w' := AbsCluster(f), AbsCluster(Do(f, n, a));
    match a {
      case Submit(i, op) => assert L.Next(w, L.Submit(i, op), w');
      case GiveUp(i) => assert L.Next(w, L.GiveUp(i), w');
      case StartRound(i, m) => StartRoundSimulates(f, n, i, m);
      case EndStart(i) => ProtocolSimulates(f, n, f.replicas[i].slot, P.HandleDecide(i, f.phases[i].r));
      case StartNoOp(j, m, k, op) => StartNoOpSimulates(f, n, j, m, k, op);
      case Protocol(k, step) => ProtocolSimulates(f, n, k, step);
      case Report(i, v) =>
        if Right(f, n, a) { RightReportSimulates(f, n, i, v); } else { WrongReportIsMisread(f, n, i, v); }
    }
  }

  lemma LogExtends(exact: bool, w: L.World, w': L.World)
    requires L.Reachable(exact, w) && Simulated(exact, w, w')
    ensures L.Reachable(exact, w')
  {
    if w' != w {
      var e :| L.Next(w, e, w') && (exact ==> !e.Misread?);
      var n: nat, run :| L.RunsTo(n, exact, run, w);
      var run' := run + [e];
      assert run'[..|run|] == run && L.Next(w, run'[|run|], w');
      assert L.RunsTo(n, exact, run', w');
    }
  }

  lemma {:induction false} RunRefines(n: nat, kind: Kind, run: seq<Action>, f: Cluster)
    requires RunsTo(n, kind, run, f)
    ensures Real(f, n) && PhasesOk(f, n) && L.Reachable(kind.Trusted?, AbsCluster(f))
    decreases |run|
  {
    if run == [] {
      assert AbsCluster(f) == L.Start(n);
      assert L.RunsTo(n, kind.Trusted?, [], L.Start(n));
    } else {
      var k := |run| - 1;
      var p :| RunsTo(n, kind, run[..k], p) && StepsTo(kind, n, p, run[k], f);
      RunRefines(n, kind, run[..k], p);
      L.ReachableInv(kind.Trusted?, AbsCluster(p));
      StepKeepsReal(p, n, run[k]);
      StepKeepsPhases(p, n, run[k]);
      ActionSimulates(p, n, run[k]);
      LogExtends(kind.Trusted?, AbsCluster(p), AbsCluster(f));
    }
  }

  /** Every run of any number of servers is a run of the replicated log, in which a server
      misreads a slot at most where it has nothing at stake; a run that acts on right reports
      only is an exact run. */
  lemma RefinesReplicatedLog(n: nat, kind: Kind, f: Cluster)
    requires Reachable(n, kind, f)
    ensures Real(f, n) && L.Reachable(kind.Trusted?, AbsCluster(f))
  {
    var run :| RunsTo(n, kind, run, f);
    RunRefines(n, kind, run, f);
  }

  // ---------- what holds of every run ----------

  /** In every run of any number of servers, wrong reports included, an operation is chosen
      in at most one slot, and a call that returned has its operation chosen. */
  lemma CallsTakeEffectOnce(n: nat, f: Cluster, op: Op)
    requires Reachable(n, All, f) && !op.kind.NoOp?
    ensures forall k: nat, k': nat :: ChosenIn(f, n, k, op) && ChosenIn(f, n, k', op) ==> k == k'
    ensures op in f.returned ==> exists k: nat :: ChosenIn(f, n, k, op)
  {
    var w := AbsCluster(f);
    RefinesReplicatedLog(n, All, f);
    forall k: nat, k': nat | ChosenIn(f, n, k, op) && ChosenIn(f, n, k', op) ensures k == k' {
      DecidedIsChosen(f, n, k, op);
      DecidedIsChosen(f, n, k', op);
      L.PlacedAtMostOnce(false, w, op, k, k');
    }
    if op in f.returned {
      var h := L.ReturnedIsPlaced(false, w, op);
      assert L.DecidedAt(w, h, op);
      DecidedIsChosen(f, n, h, op);
    }
  }

  /** In every run of any number of servers, a call that had returned before another was
      submitted has its operation chosen in an earlier slot. */
  lemma EffectsFollowRealTime(n: nat, f: Cluster, earlier: Op, h: nat, op: Op, k: nat)
    requires Reachable(n, All, f) && op in f.before && earlier in f.before[op]
    requires ChosenIn(f, n, h, earlier) && ChosenIn(f, n, k, op)
    ensures h < k
  {
    RefinesReplicatedLog(n, All, f);
    DecidedIsChosen(f, n, h, earlier);
    DecidedIsChosen(f, n, k, op);
    L.RealTimeOrder(false, AbsCluster(f), earlier, h, op, k);
  }

  // ---------- runs whose reports are right ----------

  lemma TruthfulIsRight(f: Cluster, n: nat, i: nat, v: Op)
    requires Real(f, n) && Enabled(f, n, Report(i, v))
    requires PaxosStatus.Truthful(SlotOf(f, n, f.replicas[i].slot))
    ensures Right(f, n, Report(i, v))
  {
    var s := SlotOf(f, n, f.replicas[i].slot);
    SlotIsReal(f, n, f.replicas[i].slot);
    ReportMeansChosen(s, i, v);
    var m, w :| P.Chosen(s, m, w);
    assert HasChosen(s, w);
    AbsDecision(s, w);
  }

  lemma {:induction false} TruthfulIsTrusted(n: nat, run: seq<Action>, f: Cluster)
    requires RunsTo(n, Truthful, run, f)
    ensures RunsTo(n, Trusted, run, f) && AllTruthful(f)
    decreases |run|
  {
    if run != [] {
      var k := |run| - 1;
      var p :| RunsTo(n, Truthful, run[..k], p) && StepsTo(Truthful, n, p, run[k], f);
      TruthfulIsTrusted(n, run[..k], p);
      RunRefines(n, Truthful, run[..k], p);
      if run[k].Report? && p.replicas[run[k].i].slot in p.slots { TruthfulIsRight(p, n, run[k].i, run[k].v); }
      assert StepsTo(Trusted, n, p, run[k], f);
    }
  }

  ghost predicate AllSourced(f: Cluster) {
    forall k :: k in f.slots ==> Sourced(f.slots[k])
  }

  lemma GuardedKeepsAll(f: Cluster, n: nat, a: Action)
    requires Enabled(f, n, a) && PassesGuard(f, a) && AllSourced(f)
    ensures AllSourced(Do(f, n, a))
  {
    match a {
      case StartRound(i, m) =>
        GuardedKeepsSourced(SlotOf(f, n, f.replicas[i].slot), P.Begin(m, f.replicas[i].call.value));
      case EndStart(i) => GuardedKeepsSourced(f.slots[f.replicas[i].slot], P.HandleDecide(i, f.phases[i].r));
      case StartNoOp(_, m, k, op) => GuardedKeepsSourced(SlotOf(f, n, k), P.Begin(m, op));
      case Protocol(k, step) => GuardedKeepsSourced(f.slots[k], step);
      case _ =>
    }
  }

  lemma {:induction false} GuardedIsTruthful(n: nat, run: seq<Action>, f: Cluster)
    requires RunsTo(n, Guarded, run, f)
    ensures RunsTo(n, Truthful, run, f) && AllSourced(f)
    decreases |run|
  {
    if run != [] {
      var k := |run| - 1;
      var p :| RunsTo(n, Guarded, run[..k], p) && StepsTo(Guarded, n, p, run[k], f);
      GuardedIsTruthful(n, run[..k], p);
      GuardedKeepsAll(p, n, run[k]);
      RunRefines(n, Guarded, run, f);
      forall j | j in f.slots ensures PaxosStatus.Truthful(f.slots[j]) { SourcedIsTruthful(f.slots[j]); }
      assert StepsTo(Truthful, n, p, run[k], f);
    }
  }

  lemma LiesAtOnce(f: Cluster, n: nat, a: Action)
    requires Real(f, n) && AllTruthful(f) && Enabled(f, n, a) && !PassesGuard(f, a)
    ensures !AllTruthful(Do(f, n, a))
  {
    var s, s' := f.slots[a.k], P.Do(f.slots[a.k], a.step);
    assert !PaxosStatus.Truthful(s') by { UnguardedLies(s, a.step); }
    assert Do(f, n, a).slots[a.k] == s';
  }

  lemma {:induction false} TruthfulIsGuarded(n: nat, run: seq<Action>, f: Cluster)
    requires RunsTo(n, Truthful, run, f)
    ensures RunsTo(n, Guarded, run, f) && AllTruthful(f)
    decreases |run|
  {
    if run != [] {
      var k := |run| - 1;
      var p :| RunsTo(n, Truthful, run[..k], p) && StepsTo(Truthful, n, p, run[k], f);
      TruthfulIsGuarded(n, run[..k], p);
      RunRefines(n, Truthful, run[..k], p);
      if !PassesGuard(p, run[k]) { LiesAtOnce(p, n, run[k]); }
      assert StepsTo(Guarded, n, p, run[k], f);
    }
  }

  /** Every report that any server could get at any time of a run is right if and only if no
      decided peer accepts a different value in it. */
  lemma TrustExactly(n: nat, run: seq<Action>, f: Cluster)
    ensures RunsTo(n, Truthful, run, f) <==> RunsTo(n, Guarded, run, f)
  {
    if RunsTo(n, Guarded, run, f) { GuardedIsTruthful(n, run, f); }
    if RunsTo(n, Truthful, run, f) { TruthfulIsGuarded(n, run, f); }
  }

  lemma GuardedIsTrusted(n: nat, f: Cluster)
    requires Reachable(n, Guarded, f)
    ensures Reachable(n, Trusted, f)
  {
    var run :| RunsTo(n, Guarded, run, f);
    GuardedIsTruthful(n, run, f);
    TruthfulIsTrusted(n, run, f);
  }

  /** Linearizability, for any number of servers, of every run in which no decided peer
      accepts a different value: a call that returned has its operation chosen in exactly one
      slot `k`, answered what the operations chosen in the earlier slots imply, and comes
      after every call that had returned before it began. */
  lemma Linearizable(n: nat, f: Cluster, op: Op) returns (k: nat)
    requires Reachable(n, Guarded, f) && op in f.returned
    ensures forall j: nat :: L.DecidedAt(AbsCluster(f), j, op) <==> j == k
    ensures L.AllDecided(AbsCluster(f), k) && f.returned[op] == Apply(Replay(EMPTY, L.Log(AbsCluster(f), k)), op).1
    ensures op in f.before
    ensures forall earlier, h: nat :: earlier in f.before[op] && L.DecidedAt(AbsCluster(f), h, earlier) ==> h < k
  {
    var w := AbsCluster(f);
    GuardedIsTrusted(n, f);
    RefinesReplicatedLog(n, Trusted, f);
    k := L.ReturnedIsPlaced(true, w, op);
    L.ReachableInv(true, w);
    forall earlier, h: nat | earlier in f.before[op] && L.DecidedAt(w, h, earlier) ensures h < k {
      L.RealTimeOrder(true, w, earlier, h, op, k);
    }
  }

  // ---------- when the servers agree ----------

  /** Servers that have replayed equally many slots hold equal states. */
  ghost predicate InStep(f: Cluster) {
    forall i, j :: 0 <= i < |f.replicas| && 0 <= j < |f.replicas| && f.replicas[i].slot == f.replicas[j].slot ==>
      f.replicas[i].state == f.replicas[j].state
  }

  lemma TrustedRunsStayInStep(n: nat, f: Cluster)
    requires Reachable(n, Trusted, f)
    ensures InStep(f)
  {
    RefinesReplicatedLog(n, Trusted, f);
    forall i, j | 0 <= i < |f.replicas| && 0 <= j < |f.replicas| && f.replicas[i].slot == f.replicas[j].slot
      ensures f.replicas[i].state == f.replicas[j].state
    {
      L.ReplicasAgree(AbsCluster(f), i, j);
    }
  }

  /** For any number of servers, those at the same slot number hold equal states in every run
      in which no decided peer accepts a different value. */
  lemma GuardedRunsStayInStep(n: nat, f: Cluster)
    requires Reachable(n, Guarded, f)
    ensures InStep(f)
  {
    GuardedIsTrusted(n, f);
    TrustedRunsStayInStep(n, f);
  }

  lemma {:induction false} SmallRunsAreTrusted(n: nat, run: seq<Action>, f: Cluster)
    requires n <= 2 && RunsTo(n, All, run, f)
    ensures RunsTo(n, Trusted, run, f)
    decreases |run|
  {
    if run != [] {
      var k := |run| - 1;
      var p :| RunsTo(n, All, run[..k], p) && StepsTo(All, n, p, run[k], f);
      SmallRunsAreTrusted(n, run[..k], p);
      RunRefines(n, All, run[..k], p);
      if run[k].Report? {
        SlotIsReal(p, n, p.replicas[run[k].i].slot);
        SmallClusterIsTruthful(SlotOf(p, n, p.replicas[run[k].i].slot));
        TruthfulIsRight(p, n, run[k].i, run[k].v);
      }
      assert StepsTo(Trusted, n, p, run[k], f);
    }
  }
}
