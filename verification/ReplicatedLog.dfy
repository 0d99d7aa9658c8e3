/** All airline servers together, over a log whose slots are abstract consensus objects
    (module Consensus shows that Paxos provides them). A server that has nothing at stake in
    a decided slot may misread it; in an exact run no server does. Module EndToEnd puts Paxos
    and the reports of Status in their place. */
module ReplicatedLog {
  import opened Basics
  import opened PaxosPeer
  import opened Airline
  import opened Consensus

  /** One server: the next slot to replay, its state, and the operation of the call it serves. */
  datatype Replica = Replica(slot: nat, state: State, call: Option<Op>)

  /** `before[op]` is the set of operations that had returned when `op` was submitted. */
  datatype World = World(slots: map<nat, Consensus<Op>>, replicas: seq<Replica>,
                         before: map<Op, set<Op>>, returned: map<Op, Result>)

  datatype Event =
    | Submit(i: nat, op: Op)
    | Propose(i: nat)
    | ProposeNoOp(k: nat, op: Op)
    | DecideSlot(k: nat, op: Op)
    | Observe(i: nat)
    | Misread(i: nat, v: Op)
    | GiveUp(i: nat)

  ghost function SlotOf(w: World, k: nat): Consensus<Op> {
    if k in w.slots then w.slots[k] else Consensus({}, None)
  }

  ghost predicate DecidedAt(w: World, k: nat, op: Op) {
    SlotOf(w, k).decision == Some(op)
  }

  ghost function Start(n: nat): World {
    World(map[], seq(n, _ => Replica(0, EMPTY, None)), map[], map[])
  }

  ghost predicate Enabled(w: World, e: Event) {
    match e
    case Submit(i, op) => i < |w.replicas| && w.replicas[i].call.None? && op !in w.before && !op.kind.NoOp?
    case Propose(i) => i < |w.replicas| && w.replicas[i].call.Some?
    case ProposeNoOp(_, op) => op.kind.NoOp?
    case DecideSlot(k, op) => SlotOf(w, k).decision.None? && op in SlotOf(w, k).proposals
    case Observe(i) => i < |w.replicas| && w.replicas[i].call.Some? && SlotOf(w, w.replicas[i].slot).decision.Some?
    case Misread(i, v) =>
      && i < |w.replicas| && w.replicas[i].call.Some? && v != w.replicas[i].call.value
      && SlotOf(w, w.replicas[i].slot).decision.Some?
      && w.replicas[i].call.value !in SlotOf(w, w.replicas[i].slot).proposals
    case GiveUp(i) => i < |w.replicas|
  }

  ghost function AddProposal(w: World, k: nat, op: Op): World {
    w.(slots := w.slots[k := SlotOf(w, k).(proposals := SlotOf(w, k).proposals + {op})])
  }

  ghost function Do(w: World, e: Event): World
    requires Enabled(w, e)
  {
    match e
    case Submit(i, op) =>
      w.(replicas := w.replicas[i := w.replicas[i].(call := Some(op))], before := w.before[op := w.returned.Keys])
    case Propose(i) => AddProposal(w, w.replicas[i].slot, w.replicas[i].call.value)
    case ProposeNoOp(k, op) => AddProposal(w, k, op)
    case DecideSlot(k, op) => w.(slots := w.slots[k := SlotOf(w, k).(decision := Some(op))])
    case Observe(i) =>
      var r := w.replicas[i];
      var op := SlotOf(w, r.slot).decision.value;
      var (state, result) := Apply(r.state, op);
      var done := op == r.call.value;
      w.(replicas := w.replicas[i := Replica(r.slot + 1, state, if done then None else r.call)],
         returned := if done then w.returned[op := result] else w.returned)
    case Misread(i, v) =>
      var r := w.replicas[i];
      w.(replicas := w.replicas[i := Replica(r.slot + 1, Apply(r.state, v).0, r.call)])
    case GiveUp(i) => w.(replicas := w.replicas[i := w.replicas[i].(call := None)])
  }

  ghost predicate Next(w: World, e: Event, w': World) {
    Enabled(w, e) && w' == Do(w, e)
  }

  /** Some run of `n` servers leads to `w`; if `exact`, nobody misread a slot on the way. */
  ghost predicate RunsTo(n: nat, exact: bool, run: seq<Event>, w: World)
    decreases |run|
  {
    if run == [] then w == Start(n)
    else
      var k := |run| - 1;
      exists p :: RunsTo(n, exact, run[..k], p) && Next(p, run[k], w) && (exact ==> !run[k].Misread?)
  }

  ghost predicate Reachable(exact: bool, w: World) {
    exists n: nat, run :: RunsTo(n, exact, run, w)
  }

  // ---------- the invariant of every run ----------

  ghost predicate AllDecided(w: World, n: nat) {
    forall k: nat :: k < n ==> SlotOf(w, k).decision.Some?
  }

  ghost predicate SlotOk(w: World, k: nat) {
    && (SlotOf(w, k).decision.Some? ==> SlotOf(w, k).decision.value in SlotOf(w, k).proposals)
    && (forall op :: op in SlotOf(w, k).proposals && !op.kind.NoOp? ==> op in w.before)
  }

  /** A call in progress has been decided nowhere behind its server and proposed nowhere ahead. */
  ghost predicate CallOk(w: World, slot: nat, op: Op) {
    && op in w.before && !op.kind.NoOp? && op !in w.returned
    && (forall k: nat :: k < slot ==> !DecidedAt(w, k, op))
    && (forall k: nat :: op in SlotOf(w, k).proposals ==> k <= slot)
  }

  ghost predicate ReplicaOk(w: World, r: Replica) {
    AllDecided(w, r.slot) && (r.call.Some? ==> CallOk(w, r.slot, r.call.value))
  }

  ghost predicate OneCaller(w: World) {
    forall i, j :: 0 <= i < j < |w.replicas| && w.replicas[i].call.Some? ==> w.replicas[i].call != w.replicas[j].call
  }

  /** Everywhere but in slot `h`, a proposal of `op` has already lost. */
  ghost predicate HomeAt(w: World, op: Op, h: nat) {
    forall k: nat :: k != h && op in SlotOf(w, k).proposals ==> SlotOf(w, k).decision.Some? && !DecidedAt(w, k, op)
  }

  ghost predicate HasHome(w: World, op: Op) {
    exists h: nat :: HomeAt(w, op, h)
  }

  /** `op` is decided in a slot up to which everything is decided. */
  ghost predicate PlacedAt(w: World, op: Op, h: nat) {
    DecidedAt(w, h, op) && AllDecided(w, h)
  }

  ghost predicate Placed(w: World, op: Op) {
    exists h: nat :: PlacedAt(w, op, h)
  }

  /** `op` can no longer be decided in or before the slot of an operation that had returned
      before `op` was submitted. */
  ghost predicate Later(w: World, op: Op, k: nat, earlier: Op, h: nat) {
    op in w.before && earlier in w.before[op] && DecidedAt(w, h, earlier) && k <= h ==>
      SlotOf(w, k).decision.Some? && !DecidedAt(w, k, op)
  }

  ghost predicate SlotsOk(w: World) { forall k: nat :: SlotOk(w, k) }

  ghost predicate ReplicasOk(w: World) {
    OneCaller(w) && forall i :: 0 <= i < |w.replicas| ==> ReplicaOk(w, w.replicas[i])
  }

  ghost predicate SubmittedOk(w: World) {
    forall op :: op in w.before ==> HasHome(w, op) && w.before[op] <= w.returned.Keys && !op.kind.NoOp?
  }

  ghost predicate ReturnedOk(w: World) {
    forall op :: op in w.returned ==> Placed(w, op) && op in w.before
  }

  ghost predicate InOrder(w: World) {
    forall op, k: nat, earlier, h: nat :: Later(w, op, k, earlier, h)
  }

  ghost predicate Inv(w: World) {
    SlotsOk(w) && ReplicasOk(w) && SubmittedOk(w) && ReturnedOk(w) && InOrder(w)
  }

  // ---------- decisions are final ----------

  ghost predicate Keeps(w: World, w': World) {
    forall k: nat :: SlotOf(w, k).decision.Some? ==> SlotOf(w', k).decision == SlotOf(w, k).decision
  }

  lemma PlacedStays(w: World, w': World, op: Op)
    requires Keeps(w, w') && Placed(w, op)
    ensures Placed(w', op)
  {
    var h: nat :| PlacedAt(w, op, h);
    assert PlacedAt(w', op, h);
  }

  lemma ReplicaStays(w: World, w': World, r: Replica)
    requires Keeps(w, w') && ReplicaOk(w, r)
    requires r.call.Some? ==>
      && r.call.value in w'.before && r.call.value !in w'.returned
      && (forall k: nat :: r.call.value in SlotOf(w', k).proposals ==> k <= r.slot)
    ensures ReplicaOk(w', r)
  {
    if r.call.Some? {
      forall k: nat | k < r.slot ensures !DecidedAt(w', k, r.call.value) {
        assert !DecidedAt(w, k, r.call.value);
      }
    }
  }

  lemma HomeStays(w: World, w': World, op: Op, h: nat)
    requires Keeps(w, w') && HomeAt(w, op, h)
    requires forall k: nat :: k != h && op in SlotOf(w', k).proposals ==> op in SlotOf(w, k).proposals
    ensures HomeAt(w', op, h)
  {
    forall k: nat | k != h && op in SlotOf(w', k).proposals
      ensures SlotOf(w', k).decision.Some? && !DecidedAt(w', k, op)
    {
      assert op in SlotOf(w, k).proposals && !DecidedAt(w, k, op);
    }
  }

  /** No operation is decided in two slots. */
  lemma Unique(w: World, op: Op, k: nat, k': nat)
    requires SlotsOk(w) && HasHome(w, op) && DecidedAt(w, k, op) && DecidedAt(w, k', op)
    ensures k == k'
  {
    var h: nat :| HomeAt(w, op, h);
    assert SlotOk(w, k) && SlotOk(w, k');
  }

  // ---------- events that leave the slots alone ----------

  lemma SameSlots(w: World, w': World)
    requires w'.slots == w.slots && w.before.Keys <= w'.before.Keys
    ensures Keeps(w, w') && (SlotsOk(w) ==> SlotsOk(w'))
    ensures forall op :: HasHome(w, op) ==> HasHome(w', op)
    ensures forall op :: Placed(w, op) ==> Placed(w', op)
  {
    assert forall k: nat :: SlotOf(w', k) == SlotOf(w, k);
    if SlotsOk(w) {
      forall k: nat ensures SlotOk(w', k) { assert SlotOk(w, k); }
    }
    forall op | HasHome(w, op) ensures HasHome(w', op) {
      var h: nat :| HomeAt(w, op, h);
      assert HomeAt(w', op, h);
    }
    forall op | Placed(w, op) ensures Placed(w', op) { PlacedStays(w, w', op); }
  }

  lemma OrderStays(w: World, w': World)
    requires InOrder(w) && w'.slots == w.slots && w'.before == w.before
    ensures InOrder(w')
  {
    forall op, k: nat, earlier, h: nat ensures Later(w', op, k, earlier, h) { assert Later(w, op, k, earlier, h); }
  }

  /** Server `i` becomes `r`, keeping or ending its call, and at most its operation returns. */
  lemma HostStepKeeps(w: World, w': World, i: nat, r: Replica)
    requires Inv(w) && i < |w.replicas| && w'.slots == w.slots && w'.before == w.before
    requires w'.replicas == w.replicas[i := r] && ReplicaOk(w', r) && (r.call.None? || r.call == w.replicas[i].call)
    requires w.returned.Keys <= w'.returned.Keys
    requires forall op :: op in w'.returned && op !in w.returned ==> w.replicas[i].call == Some(op) && Placed(w, op)
    ensures Inv(w')
  {
    SameSlots(w, w');
    OrderStays(w, w');
    forall j: nat | j < |w.replicas| && j != i ensures ReplicaOk(w', w.replicas[j]) { OtherStays(w, w', i, j); }
  }

  lemma OtherStays(w: World, w': World, i: nat, j: nat)
    requires ReplicasOk(w) && i < |w.replicas| && j < |w.replicas| && i != j
    requires w'.slots == w.slots && w'.before == w.before
    requires forall op :: op in w'.returned && op !in w.returned ==> w.replicas[i].call == Some(op)
    ensures ReplicaOk(w', w.replicas[j])
  {
    assert ReplicaOk(w, w.replicas[j]);
    assert w.replicas[i].call.Some? ==> w.replicas[i].call != w.replicas[j].call;
    ReplicaStays(w, w', w.replicas[j]);
  }

  lemma GiveUpKeeps(w: World, i: nat)
    requires Inv(w) && Enabled(w, GiveUp(i))
    ensures Inv(Do(w, GiveUp(i)))
  {
    var w', r := Do(w, GiveUp(i)), w.replicas[i].(call := None);
    assert ReplicaOk(w, w.replicas[i]);
    SameSlots(w, w');
    ReplicaStays(w, w', r);
    HostStepKeeps(w, w', i, r);
  }

  /** Passing a decided slot that does not hold the call's operation. */
  lemma Passes(w: World, w': World, r: Replica, r': Replica)
    requires ReplicaOk(w, r) && w'.slots == w.slots && w'.before == w.before
    requires SlotOf(w, r.slot).decision.Some? && r'.slot == r.slot + 1
    requires r'.call.None? || (r'.call == r.call && w'.returned == w.returned && !DecidedAt(w, r.slot, r.call.value))
    ensures ReplicaOk(w', r')
  {
    assert forall k: nat :: SlotOf(w', k) == SlotOf(w, k);
    if r'.call.Some? {
      forall k: nat | k < r'.slot ensures !DecidedAt(w', k, r.call.value) {
        assert k < r.slot ==> !DecidedAt(w, k, r.call.value);
      }
    }
  }

  lemma ObserveKeeps(w: World, i: nat)
    requires Inv(w) && Enabled(w, Observe(i))
    ensures Inv(Do(w, Observe(i)))
  {
    var w', r := Do(w, Observe(i)), w.replicas[i];
    assert ReplicaOk(w, r);
    Passes(w, w', r, w'.replicas[i]);
    var op := SlotOf(w, r.slot).decision.value;
    assert PlacedAt(w, op, r.slot);
    HostStepKeeps(w, w', i, w'.replicas[i]);
  }

  lemma MisreadKeeps(w: World, i: nat, v: Op)
    requires Inv(w) && Enabled(w, Misread(i, v))
    ensures Inv(Do(w, Misread(i, v)))
  {
    var w', r := Do(w, Misread(i, v)), w.replicas[i];
    assert ReplicaOk(w, r) && SlotOk(w, r.slot);
    Passes(w, w', r, w'.replicas[i]);
    HostStepKeeps(w, w', i, w'.replicas[i]);
  }

  // ---------- submitting ----------

  lemma FreshOpIsNowhere(w: World, op: Op, k: nat)
    requires SlotsOk(w) && op !in w.before && !op.kind.NoOp?
    ensures op !in SlotOf(w, k).proposals && !DecidedAt(w, k, op)
  {
    assert SlotOk(w, k);
  }

  /** Everything up to the slot of a returned operation is decided. */
  lemma ReturnedIsBehind(w: World, earlier: Op, h: nat)
    requires SlotsOk(w) && SubmittedOk(w) && ReturnedOk(w) && earlier in w.returned && DecidedAt(w, h, earlier)
    ensures AllDecided(w, h + 1)
  {
    assert Placed(w, earlier);
    var h': nat :| PlacedAt(w, earlier, h');
    Unique(w, earlier, h, h');
  }

  lemma SubmitKeepsOrder(w: World, i: nat, op: Op)
    requires Inv(w) && Enabled(w, Submit(i, op))
    ensures InOrder(Do(w, Submit(i, op)))
  {
    var w' := Do(w, Submit(i, op));
    forall o, k: nat, earlier, h: nat ensures Later(w', o, k, earlier, h) {
      if o != op {
        assert Later(w, o, k, earlier, h);
      } else if earlier in w.returned && DecidedAt(w, h, earlier) {
        ReturnedIsBehind(w, earlier, h);
        FreshOpIsNowhere(w, op, k);
      }
    }
  }

  lemma SubmitKeepsReplicas(w: World, i: nat, op: Op)
    requires Inv(w) && Enabled(w, Submit(i, op))
    ensures ReplicasOk(Do(w, Submit(i, op)))
  {
    var w' := Do(w, Submit(i, op));
    SameSlots(w, w');
    forall k: nat ensures op !in SlotOf(w', k).proposals && !DecidedAt(w', k, op) { FreshOpIsNowhere(w, op, k); }
    forall j | 0 <= j < |w'.replicas| ensures ReplicaOk(w', w'.replicas[j]) {
      assert ReplicaOk(w, w.replicas[j]);
      if j != i { ReplicaStays(w, w', w.replicas[j]); }
    }
  }

  lemma SubmitKeeps(w: World, i: nat, op: Op)
    requires Inv(w) && Enabled(w, Submit(i, op))
    ensures Inv(Do(w, Submit(i, op)))
  {
    var w' := Do(w, Submit(i, op));
    SameSlots(w, w');
    SubmitKeepsReplicas(w, i, op);
    SubmitKeepsOrder(w, i, op);
    forall k: nat ensures op !in SlotOf(w', k).proposals { FreshOpIsNowhere(w, op, k); }
    assert HomeAt(w', op, 0);
  }

  // ---------- proposing and deciding ----------

  ghost predicate MayPropose(w: World, k0: nat, op: Op) {
    op.kind.NoOp? || exists i :: 0 <= i < |w.replicas| && w.replicas[i].call == Some(op) && w.replicas[i].slot == k0
  }

  lemma CallerIsHome(w: World, k0: nat, op: Op)
    requires ReplicasOk(w) && SlotsOk(w) && MayPropose(w, k0, op) && !op.kind.NoOp?
    ensures HasHome(AddProposal(w, k0, op), op)
  {
    var i :| 0 <= i < |w.replicas| && w.replicas[i].call == Some(op) && w.replicas[i].slot == k0;
    assert ReplicaOk(w, w.replicas[i]);
    var w' := AddProposal(w, k0, op);
    forall k: nat | k != k0 && op in SlotOf(w', k).proposals
      ensures SlotOf(w', k).decision.Some? && !DecidedAt(w', k, op)
    {
      assert op in SlotOf(w, k).proposals && !DecidedAt(w, k, op);
    }
    assert HomeAt(w', op, k0);
  }

  lemma OnlyCallerProposes(w: World, k0: nat, op: Op, j: nat)
    requires ReplicasOk(w) && j < |w.replicas| && MayPropose(w, k0, op)
    ensures ReplicaOk(AddProposal(w, k0, op), w.replicas[j])
  {
    var w', r := AddProposal(w, k0, op), w.replicas[j];
    assert ReplicaOk(w, r);
    if r.call == Some(op) {
      var i :| 0 <= i < |w.replicas| && w.replicas[i].call == Some(op) && w.replicas[i].slot == k0;
      assert OneCaller(w) && i == j;
    }
    forall k: nat | r.call.Some? && r.call.value in SlotOf(w', k).proposals ensures k <= r.slot {
      assert r.call.value in SlotOf(w, k).proposals || (k == k0 && r.call.value == op);
    }
    ReplicaStays(w, w', r);
  }

  lemma ProposalKeepsSlots(w: World, k0: nat, op: Op)
    requires ReplicasOk(w) && SlotsOk(w) && MayPropose(w, k0, op)
    ensures SlotsOk(AddProposal(w, k0, op))
  {
    var w' := AddProposal(w, k0, op);
    if !op.kind.NoOp? {
      var i :| 0 <= i < |w.replicas| && w.replicas[i].call == Some(op) && w.replicas[i].slot == k0;
      assert ReplicaOk(w, w.replicas[i]);
    }
    forall k: nat ensures SlotOk(w', k) { assert SlotOk(w, k); }
  }

  lemma ProposalKeepsHome(w: World, k0: nat, op: Op, o: Op)
    requires ReplicasOk(w) && SlotsOk(w) && MayPropose(w, k0, op) && HasHome(w, o) && !o.kind.NoOp?
    ensures HasHome(AddProposal(w, k0, op), o)
  {
    if o == op { CallerIsHome(w, k0, op); } else {
      var h: nat :| HomeAt(w, o, h);
      HomeStays(w, AddProposal(w, k0, op), o, h);
    }
  }

  /** Adding a proposal keeps the invariant when the proposal is a NoOp, or the operation of
      a call whose server has reached the slot. */
  lemma ProposalKeeps(w: World, k0: nat, op: Op)
    requires Inv(w) && MayPropose(w, k0, op)
    ensures Inv(AddProposal(w, k0, op))
  {
    var w' := AddProposal(w, k0, op);
    assert Keeps(w, w');
    ProposalKeepsSlots(w, k0, op);
    forall j | 0 <= j < |w'.replicas| ensures ReplicaOk(w', w'.replicas[j]) { OnlyCallerProposes(w, k0, op, j); }
    forall o | o in w'.before ensures HasHome(w', o) { ProposalKeepsHome(w, k0, op, o); }
    forall o | o in w'.returned ensures Placed(w', o) { PlacedStays(w, w', o); }
    ProposalKeepsOrder(w, k0, op);
  }

  lemma ProposalKeepsOrder(w: World, k0: nat, op: Op)
    requires InOrder(w)
    ensures InOrder(AddProposal(w, k0, op))
  {
    forall o, k: nat, earlier, h: nat ensures Later(AddProposal(w, k0, op), o, k, earlier, h) {
      assert Later(w, o, k, earlier, h);
    }
  }

  /** An open slot is the home of every submitted operation proposed in it. */
  lemma OpenSlotIsHome(w: World, op: Op, k0: nat)
    requires Inv(w) && op in w.before && op in SlotOf(w, k0).proposals && SlotOf(w, k0).decision.None?
    ensures HomeAt(w, op, k0) && op !in w.returned
  {
    assert HasHome(w, op);
    var h: nat :| HomeAt(w, op, h);
    forall h': nat ensures !DecidedAt(w, h', op) { assert SlotOk(w, h'); }
    assert !Placed(w, op);
  }

  lemma DecideKeepsHome(w: World, k0: nat, op: Op, o: Op)
    requires Inv(w) && Enabled(w, DecideSlot(k0, op)) && o in w.before
    ensures HasHome(Do(w, DecideSlot(k0, op)), o)
  {
    var w' := Do(w, DecideSlot(k0, op));
    if o == op {
      OpenSlotIsHome(w, op, k0);
      HomeStays(w, w', op, k0);
    } else {
      var h: nat :| HomeAt(w, o, h);
      HomeStays(w, w', o, h);
    }
  }

  lemma DecideKeepsOrder(w: World, k0: nat, op: Op)
    requires Inv(w) && Enabled(w, DecideSlot(k0, op))
    ensures InOrder(Do(w, DecideSlot(k0, op)))
  {
    var w' := Do(w, DecideSlot(k0, op));
    if op in w.before { OpenSlotIsHome(w, op, k0); }
    forall o, k: nat, earlier, h: nat ensures Later(w', o, k, earlier, h) { assert Later(w, o, k, earlier, h); }
  }

  lemma DecideKeeps(w: World, k0: nat, op: Op)
    requires Inv(w) && Enabled(w, DecideSlot(k0, op))
    ensures Inv(Do(w, DecideSlot(k0, op)))
  {
    var w' := Do(w, DecideSlot(k0, op));
    assert Keeps(w, w');
    forall k: nat ensures SlotOk(w', k) { assert SlotOk(w, k); }
    forall j | 0 <= j < |w'.replicas| ensures ReplicaOk(w', w'.replicas[j]) {
      assert ReplicaOk(w, w.replicas[j]);
      ReplicaStays(w, w', w.replicas[j]);
    }
    forall o | o in w'.before ensures HasHome(w', o) { DecideKeepsHome(w, k0, op, o); }
    forall o | o in w'.returned ensures Placed(w', o) { PlacedStays(w, w', o); }
    DecideKeepsOrder(w, k0, op);
  }

  lemma StepKeeps(w: World, e: Event)
    requires Inv(w) && Enabled(w, e)
    ensures Inv(Do(w, e))
  {
    match e
    case Submit(i, op) => SubmitKeeps(w, i, op);
    case Propose(i) => ProposalKeeps(w, w.replicas[i].slot, w.replicas[i].call.value);
    case ProposeNoOp(k, op) => ProposalKeeps(w, k, op);
    case DecideSlot(k, op) => DecideKeeps(w, k, op);
    case Observe(i) => ObserveKeeps(w, i);
    case Misread(i, v) => MisreadKeeps(w, i, v);
    case GiveUp(i) => GiveUpKeeps(w, i);
  }

  // ---------- the states and answers of an exact run ----------

  /** The operations of the first `n` slots. */
  ghost function Log(w: World, n: nat): seq<Op>
    requires AllDecided(w, n)
  {
    seq(n, k requires 0 <= k < n => SlotOf(w, k).decision.value)
  }

  ghost predicate ReplayedTo(w: World, slot: nat, state: State) {
    AllDecided(w, slot) && state == Replay(EMPTY, Log(w, slot))
  }

  /** The answer `op` returned is its result on the state that the earlier slots produce. */
  ghost predicate AnsweredAt(w: World, op: Op, h: nat) {
    op in w.returned && PlacedAt(w, op, h) && w.returned[op] == Apply(Replay(EMPTY, Log(w, h)), op).1
  }

  ghost predicate Answered(w: World, op: Op) {
    exists h: nat :: AnsweredAt(w, op, h)
  }

  ghost predicate Exact(w: World) {
    && (forall i :: 0 <= i < |w.replicas| ==> ReplayedTo(w, w.replicas[i].slot, w.replicas[i].state))
    && (forall op :: op in w.returned ==> Answered(w, op))
  }

  lemma LogStays(w: World, w': World, n: nat)
    requires Keeps(w, w') && AllDecided(w, n)
    ensures AllDecided(w', n) && Log(w', n) == Log(w, n)
  {
  }

  lemma AnswerStays(w: World, w': World, op: Op)
    requires Keeps(w, w') && Answered(w, op) && op in w'.returned && w'.returned[op] == w.returned[op]
    ensures Answered(w', op)
  {
    var h: nat :| AnsweredAt(w, op, h);
    LogStays(w, w', h);
    assert AnsweredAt(w', op, h);
  }

  lemma ReplayAdvances(w: World, w': World, slot: nat, state: State)
    requires Keeps(w, w') && ReplayedTo(w, slot, state) && SlotOf(w, slot).decision.Some?
    ensures ReplayedTo(w', slot + 1, Apply(state, SlotOf(w, slot).decision.value).0)
  {
    LogStays(w, w', slot);
    assert Log(w', slot + 1)[..slot] == Log(w, slot);
  }

  lemma ObserveKeepsExact(w: World, i: nat)
    requires Exact(w) && Enabled(w, Observe(i))
    ensures Exact(Do(w, Observe(i)))
  {
    var w', r := Do(w, Observe(i)), w.replicas[i];
    var op := SlotOf(w, r.slot).decision.value;
    assert Keeps(w, w');
    forall j | 0 <= j < |w'.replicas| ensures ReplayedTo(w', w'.replicas[j].slot, w'.replicas[j].state) {
      if j == i { ReplayAdvances(w, w', r.slot, r.state); } else { LogStays(w, w', w.replicas[j].slot); }
    }
    forall o | o in w'.returned ensures Answered(w', o) {
      if o == op && r.call == Some(op) {
        LogStays(w, w', r.slot);
        assert AnsweredAt(w', op, r.slot);
      } else { AnswerStays(w, w', o); }
    }
  }

  lemma StepKeepsExact(w: World, e: Event)
    requires Exact(w) && Enabled(w, e) && !e.Misread?
    ensures Exact(Do(w, e))
  {
    if e.Observe? { ObserveKeepsExact(w, e.i); } else {
      var w' := Do(w, e);
      assert Keeps(w, w');
      forall j | 0 <= j < |w'.replicas| ensures ReplayedTo(w', w'.replicas[j].slot, w'.replicas[j].state) {
        LogStays(w, w', w.replicas[j].slot);
      }
      forall o | o in w'.returned ensures Answered(w', o) { AnswerStays(w, w', o); }
    }
  }

  lemma {:induction false} RunKeeps(n: nat, exact: bool, run: seq<Event>, w: World)
    requires RunsTo(n, exact, run, w)
    ensures Inv(w) && (exact ==> Exact(w))
    decreases |run|
  {
    if run != [] {
      var k := |run| - 1;
      var p :| RunsTo(n, exact, run[..k], p) && Next(p, run[k], w) && (exact ==> !run[k].Misread?);
      RunKeeps(n, exact, run[..k], p);
      StepKeeps(p, run[k]);
      if exact { StepKeepsExact(p, run[k]); }
    }
  }

  lemma ReachableInv(exact: bool, w: World)
    requires Reachable(exact, w)
    ensures Inv(w) && (exact ==> Exact(w))
  {
    var n: nat, run :| RunsTo(n, exact, run, w);
    RunKeeps(n, exact, run, w);
  }

  // ---------- the theorems ----------

  /** In every exact run, a server's state is the replay of the slots it has passed, so of two
      servers the one behind has replayed a prefix, and equal slot numbers mean equal states. */
  lemma ReplicasAgree(w: World, i: nat, j: nat)
    requires Reachable(true, w) && i < |w.replicas| && j < |w.replicas| && w.replicas[i].slot <= w.replicas[j].slot
    ensures AllDecided(w, w.replicas[i].slot) && AllDecided(w, w.replicas[j].slot)
    ensures Log(w, w.replicas[i].slot) <= Log(w, w.replicas[j].slot)
    ensures w.replicas[i].state == Replay(EMPTY, Log(w, w.replicas[i].slot))
    ensures w.replicas[i].slot == w.replicas[j].slot ==> w.replicas[i].state == w.replicas[j].state
  {
    ReachableInv(true, w);
    assert ReplayedTo(w, w.replicas[i].slot, w.replicas[i].state);
    assert ReplayedTo(w, w.replicas[j].slot, w.replicas[j].state);
  }

  /** In every run, an operation submitted by one call is decided in at most one slot,
      whether the call returns, gives up, or still waits. */
  lemma PlacedAtMostOnce(exact: bool, w: World, op: Op, k: nat, k': nat)
    requires Reachable(exact, w) && !op.kind.NoOp? && DecidedAt(w, k, op) && DecidedAt(w, k', op)
    ensures k == k'
  {
    ReachableInv(exact, w);
    assert SlotOk(w, k);
    Unique(w, op, k, k');
  }

  /** In every run, a call that returned has its operation in exactly one slot; in an exact
      run its answer is the operation's result on the state that all earlier slots produce. */
  lemma ReturnedIsPlaced(exact: bool, w: World, op: Op) returns (h: nat)
    requires Reachable(exact, w) && op in w.returned
    ensures AllDecided(w, h)
    ensures forall k: nat :: DecidedAt(w, k, op) <==> k == h
    ensures exact ==> w.returned[op] == Apply(Replay(EMPTY, Log(w, h)), op).1
  {
    ReachableInv(exact, w);
    assert Placed(w, op) && HasHome(w, op);
    if exact {
      assert Answered(w, op);
      h :| AnsweredAt(w, op, h);
    } else {
      h :| PlacedAt(w, op, h);
    }
    forall k: nat | DecidedAt(w, k, op) ensures k == h { Unique(w, op, k, h); }
  }

  /** In every run, the log order respects real time: if one operation had returned before
      another was submitted, it precedes it in the log. */
  lemma RealTimeOrder(exact: bool, w: World, earlier: Op, h: nat, op: Op, k: nat)
    requires Reachable(exact, w) && op in w.before && earlier in w.before[op]
    requires DecidedAt(w, h, earlier) && DecidedAt(w, k, op)
    ensures h < k
  {
    ReachableInv(exact, w);
    assert Later(w, op, k, earlier, h);
  }

  /** Seen from one slot, every event of the world is a step of its consensus object. */
  lemma SlotsAdvance(w: World, e: Event, k: nat)
    requires Enabled(w, e)
    ensures Advances(SlotOf(w, k), SlotOf(Do(w, e), k))
  {
    var c, c' := SlotOf(w, k), SlotOf(Do(w, e), k);
    match e {
      case Propose(i) => if w.replicas[i].slot == k { assert Proposed(c, c', w.replicas[i].call.value); }
      case ProposeNoOp(j, op) => if j == k { assert Proposed(c, c', op); }
      case DecideSlot(j, op) => if j == k { assert Decided(c, c', op); }
      case _ =>
    }
  }
}
