/** One slot of the Paxos log as a step system over a fixed set of peers. An RPC may be
    lost, late, repeated or reordered: a request stays open for ever once its round has
    sent it, and a reply stays available for ever once a peer has given it. */
module PaxosRun {
  import opened Basics
  import opened PaxosPeer

  /** One pass of the proposer's loop: `own` is the caller's value, `proposed` the value
      of its Accept requests once they go out, `decided` whether its Decide requests went out. */
  datatype Round<V> = Round(seqNum: int, own: V, proposed: Option<V>, decided: bool)

  datatype PrepareRep<V> = PrepareRep(round: nat, from: nat, reply: PrepareReply<V>)
  datatype AcceptRep = AcceptRep(round: nat, from: nat, reply: AcceptReply)

  datatype Slot<V(==)> = Slot(acceptors: seq<TimeSlot<V>>, rounds: seq<Round<V>>,
                          prepareReps: set<PrepareRep<V>>, acceptReps: set<AcceptRep>)

  datatype Step<V> =
    | Begin(seqNum: int, own: V)
    | HandlePrepare(a: nat, r: nat)
    | HandleAccept(a: nat, r: nat)
    | HandleDecide(a: nat, r: nat)
    | FinishPrepare(r: nat, prepares: seq<Delivery<PrepareReply<V>>>)
    | FinishAccept(r: nat, accepts: seq<Delivery<AcceptReply>>)

  ghost function Init<V>(n: nat, nilValue: V): Slot<V> {
    Slot(seq(n, _ => FreshSlot(nilValue)), [], {}, {})
  }

  predicate DistinctSenders<R>(ds: seq<Delivery<R>>) {
    forall i, j :: 0 <= i < j < |ds| && ds[i].Got? && ds[j].Got? ==> ds[i].from != ds[j].from
  }

  ghost function PrepareTally<V>(s: Slot<V>, r: nat, ds: seq<Delivery<PrepareReply<V>>>): Tally<V>
    requires r < |s.rounds|
  {
    TallyPrepares(StartTally(s.rounds[r].own), |s.acceptors|, ds)
  }

  ghost function AcceptTally<V>(s: Slot<V>, r: nat, ds: seq<Delivery<AcceptReply>>): Tally<V>
    requires r < |s.rounds|
  {
    TallyAccepts(StartTally(s.rounds[r].own), |s.acceptors|, ds)
  }

  ghost predicate Enabled<V>(s: Slot<V>, step: Step<V>) {
    match step
    case Begin(_, _) => true
    case HandlePrepare(a, r) => a < |s.acceptors| && r < |s.rounds|
    case HandleAccept(a, r) => a < |s.acceptors| && r < |s.rounds| && s.rounds[r].proposed.Some?
    case HandleDecide(a, r) =>
      a < |s.acceptors| && r < |s.rounds| && s.rounds[r].proposed.Some? && s.rounds[r].decided
    case FinishPrepare(r, ds) =>
      && r < |s.rounds| && s.rounds[r].proposed.None?
      && DistinctSenders(ds)
      && (forall d :: d in ds && d.Got? ==> PrepareRep(r, d.from, d.reply) in s.prepareReps)
      && PrepareTally(s, r, ds).numOk > |s.acceptors| / 2
    case FinishAccept(r, ds) =>
      && r < |s.rounds| && s.rounds[r].proposed.Some?
      && DistinctSenders(ds)
      && (forall d :: d in ds && d.Got? ==> AcceptRep(r, d.from, d.reply) in s.acceptReps)
      && AcceptTally(s, r, ds).numOk > |s.acceptors| / 2
  }

  ghost function Do<V>(s: Slot<V>, step: Step<V>): Slot<V>
    requires Enabled(s, step)
  {
    match step
    case Begin(m, v) => s.(rounds := s.rounds + [Round(m, v, None, false)])
    case HandlePrepare(a, r) =>
      var (t, rep) := OnPrepare(s.acceptors[a], s.rounds[r].seqNum);
      s.(acceptors := s.acceptors[a := t], prepareReps := s.prepareReps + {PrepareRep(r, a, rep)})
    case HandleAccept(a, r) =>
      var (t, rep) := OnAccept(s.acceptors[a], s.rounds[r].seqNum, s.rounds[r].proposed.value);
      s.(acceptors := s.acceptors[a := t], acceptReps := s.acceptReps + {AcceptRep(r, a, rep)})
    case HandleDecide(a, r) =>
      s.(acceptors := s.acceptors[a := OnDecide(s.acceptors[a], s.rounds[r].proposed.value)])
    case FinishPrepare(r, ds) =>
      s.(rounds := s.rounds[r := s.rounds[r].(proposed := Some(PrepareTally(s, r, ds).value))])
    case FinishAccept(r, _) =>
      s.(rounds := s.rounds[r := s.rounds[r].(decided := true)])
  }

  ghost predicate Next<V>(s: Slot<V>, step: Step<V>, s': Slot<V>) {
    Enabled(s, step) && s' == Do(s, step)
  }

  /** The steps `run`, taken one after the other, lead from `s` to `s'`. */
  ghost predicate RunsTo<V(!new)>(s: Slot<V>, run: seq<Step<V>>, s': Slot<V>)
    decreases |run|
  {
    if run == [] then s' == s
    else
      var k := |run| - 1;
      exists p :: RunsTo(s, run[..k], p) && Next(p, run[k], s')
  }

  ghost predicate Reachable<V(!new)>(s: Slot<V>) {
    exists n: nat, nilValue: V, run :: RunsTo(Init(n, nilValue), run, s)
  }

  // ---------- what a state says about votes and promises ----------

  ghost predicate Voted<V>(s: Slot<V>, a: nat, r: nat) {
    AcceptRep(r, a, AcceptOk) in s.acceptReps
  }

  ghost function Voters<V>(s: Slot<V>, r: nat): set<nat> {
    set a | 0 <= a < |s.acceptors| && Voted(s, a, r)
  }

  ghost function Promisers<V>(s: Slot<V>, r: nat): set<nat> {
    set p | p in s.prepareReps && p.round == r && p.reply.Promise? :: p.from
  }

  /** The peers that accepted round `r` or still could. */
  ghost function Potential<V>(s: Slot<V>, r: nat): set<nat>
    requires r < |s.rounds|
  {
    set a | 0 <= a < |s.acceptors| && (Voted(s, a, r) || s.acceptors[a].seqNumHighest <= s.rounds[r].seqNum)
  }

  ghost predicate Majority<V>(s: Slot<V>, q: set<nat>) {
    |q| > |s.acceptors| / 2
  }

  /** A majority has accepted the proposal of round `r`. */
  ghost predicate ChosenRound<V>(s: Slot<V>, r: nat) {
    r < |s.rounds| && s.rounds[r].proposed.Some? && Majority(s, Voters(s, r))
  }

  /** A majority has accepted `v` under number `m`, through whatever rounds. */
  ghost function AcceptedAs<V>(s: Slot<V>, m: int, v: V): set<nat> {
    set a | 0 <= a < |s.acceptors| && HasAccepted(s, a, m, v)
  }

  ghost predicate HasAccepted<V>(s: Slot<V>, a: nat, m: int, v: V) {
    exists r: nat :: r < |s.rounds| && Voted(s, a, r) && s.rounds[r].seqNum == m && s.rounds[r].proposed == Some(v)
  }

  ghost predicate Chosen<V>(s: Slot<V>, m: int, v: V) {
    Majority(s, AcceptedAs(s, m, v))
  }

  ghost predicate DecideSent<V>(s: Slot<V>, v: V) {
    exists r: nat :: r < |s.rounds| && s.rounds[r].decided && s.rounds[r].proposed == Some(v)
  }

  /** Peer `a` accepted some round numbered `k`, and `w` is its value or a decided one. */
  ghost predicate Backed<V>(s: Slot<V>, a: nat, k: int, w: V) {
    exists r: nat :: BackedBy(s, a, k, w, r)
  }

  ghost predicate BackedBy<V>(s: Slot<V>, a: nat, k: int, w: V, r: nat) {
    r < |s.rounds| && Voted(s, a, r) && s.rounds[r].seqNum == k &&
    (s.rounds[r].proposed == Some(w) || DecideSent(s, w))
  }

  // ---------- the invariant ----------

  ghost predicate RepliesInRange<V>(s: Slot<V>) {
    && (forall p :: p in s.prepareReps ==> p.round < |s.rounds| && p.from < |s.acceptors|)
    && (forall m :: m in s.acceptReps ==>
          m.round < |s.rounds| && m.from < |s.acceptors| && (m.reply.AcceptOk? ==> s.rounds[m.round].proposed.Some?))
  }

  /** A peer's accepted number is the greatest it ever accepted. */
  ghost predicate VoteOk<V>(s: Slot<V>, a: nat, r: nat)
    requires a < |s.acceptors| && r < |s.rounds|
  {
    Voted(s, a, r) ==> s.rounds[r].seqNum <= s.acceptors[a].seqNumAccepted
  }

  ghost predicate AcceptorOk<V>(s: Slot<V>, a: nat)
    requires a < |s.acceptors|
  {
    var t := s.acceptors[a];
    && 0 <= t.seqNumAccepted <= t.seqNumHighest
    && (t.seqNumAccepted > 0 ==> Backed(s, a, t.seqNumAccepted, t.value))
    && (t.isDecided && t.seqNumAccepted == 0 ==> DecideSent(s, t.value))
    && (t.isDecided ==> SomeDecide(s))
  }

  ghost predicate SomeDecide<V>(s: Slot<V>) {
    exists r: nat :: r < |s.rounds| && s.rounds[r].decided
  }

  ghost predicate PromiseOk<V>(s: Slot<V>, p: PrepareRep<V>)
    requires p.reply.Promise? && p.round < |s.rounds| && p.from < |s.acceptors|
  {
    var m, k := s.rounds[p.round].seqNum, p.reply.seqNumAccepted;
    && 0 <= k && 0 < m <= s.acceptors[p.from].seqNumHighest
    && (forall r: nat :: r < |s.rounds| && Voted(s, p.from, r) && s.rounds[r].seqNum < m ==> s.rounds[r].seqNum <= k)
    && (k > 0 ==> Backed(s, p.from, k, p.reply.valueAccepted))
  }

  /** A peer promises each number to at most one round. */
  ghost predicate PromisedOnce<V>(s: Slot<V>)
    requires RepliesInRange(s)
  {
    forall p, q | p in s.prepareReps && q in s.prepareReps && p.reply.Promise? && q.reply.Promise? && p.from == q.from
      :: s.rounds[p.round].seqNum == s.rounds[q.round].seqNum ==> p.round == q.round
  }

  ghost predicate RoundOk<V>(s: Slot<V>, r: nat)
    requires r < |s.rounds|
  {
    && (s.rounds[r].decided ==> ChosenRound(s, r))
    && (s.rounds[r].proposed.Some? ==>
          && s.rounds[r].seqNum > 0
          && Majority(s, Promisers(s, r))
          && SubmittedBy(s, s.rounds[r].proposed.value))
  }

  /** `v` is the caller's value of some round. */
  ghost predicate SubmittedBy<V>(s: Slot<V>, v: V) {
    exists r: nat :: r < |s.rounds| && s.rounds[r].own == v
  }

  /** A proposal that could still win fixes the value of every higher-numbered proposal. */
  ghost predicate Compatible<V>(s: Slot<V>, r: nat, r': nat)
    requires r < |s.rounds| && r' < |s.rounds|
  {
    && s.rounds[r].proposed.Some? && s.rounds[r'].proposed.Some?
    && s.rounds[r].seqNum < s.rounds[r'].seqNum
    && Majority(s, Potential(s, r))
    ==> s.rounds[r].proposed == s.rounds[r'].proposed
  }

  ghost predicate LocalInv<V>(s: Slot<V>) {
    && RepliesInRange(s)
    && (forall a: nat, r: nat :: a < |s.acceptors| && r < |s.rounds| ==> VoteOk(s, a, r))
    && (forall a: nat :: a < |s.acceptors| ==> AcceptorOk(s, a))
    && (forall p :: p in s.prepareReps && p.reply.Promise? ==> PromiseOk(s, p))
    && PromisedOnce(s)
    && (forall r: nat :: r < |s.rounds| ==> RoundOk(s, r))
  }

  ghost predicate Inv<V>(s: Slot<V>) {
    && LocalInv(s)
    && (forall r: nat, r': nat :: r < |s.rounds| && r' < |s.rounds| ==> Compatible(s, r, r'))
  }

  // ---------- quorums ----------

  lemma {:induction false} PeersBelow(n: nat, q: set<nat>)
    requires forall a :: a in q ==> a < n
    ensures |q| <= n
  {
    if n > 0 { PeersBelow(n - 1, q - {n - 1}); }
    else { assert q == {}; }
  }

  /** Two majorities of the peers share a peer. */
  lemma Overlap<V>(s: Slot<V>, q: set<nat>, q': set<nat>) returns (a: nat)
    requires forall x :: x in q || x in q' ==> x < |s.acceptors|
    requires Majority(s, q) && Majority(s, q')
    ensures a in q && a in q'
  {
    PeersBelow(|s.acceptors|, q + q');
    assert |q + q'| + |q * q'| == |q| + |q'|;
    a :| a in q * q';
  }

  lemma Disjoint<V>(s: Slot<V>, q: set<nat>, q': set<nat>)
    requires forall x :: x in q || x in q' ==> x < |s.acceptors|
    requires Majority(s, q) && q !! q'
    ensures !Majority(s, q')
  {
    PeersBelow(|s.acceptors|, q + q');
  }

  // ---------- tallies ----------

  lemma FirstSenderIsNew<R>(ds: seq<Delivery<R>>)
    requires DistinctSenders(ds) && ds != [] && ds[0].Got?
    ensures forall d :: d in ds[1..] && d.Got? ==> d.from != ds[0].from
  {
    forall i | 0 <= i < |ds[1..]| && ds[1..][i].Got? ensures ds[1..][i].from != ds[0].from {
      assert ds[1..][i] == ds[i + 1];
    }
  }

  lemma {:induction false} PrepareTallyFacts<V>(t: Tally<V>, n: nat, ds: seq<Delivery<PrepareReply<V>>>)
    returns (q: set<nat>)
    requires DistinctSenders(ds)
    ensures var f := TallyPrepares(t, n, ds);
      && f.numOk == t.numOk + |q|
      && f.maxAccepted >= t.maxAccepted
      && (forall a :: a in q ==> exists k, w :: Got(a, Promise(k, w)) in ds && k <= f.maxAccepted)
      && (|| (f.maxAccepted == t.maxAccepted && f.value == t.value)
          || (f.maxAccepted > t.maxAccepted && exists a :: a in q && Got(a, Promise(f.maxAccepted, f.value)) in ds))
    decreases |ds|
  {
    if ds == [] || t.numOk > n / 2 {
      q := {};
    } else {
      var t', d, f := AbsorbPrepare(t, ds[0]), ds[0], TallyPrepares(t, n, ds);
      q := PrepareTallyFacts(t', n, ds[1..]);
      if d.Got? && d.reply.Promise? {
        FirstSenderIsNew(ds);
        q := q + {d.from};
        assert Got(d.from, Promise(d.reply.seqNumAccepted, d.reply.valueAccepted)) in ds;
      }
    }
  }

  lemma {:induction false} AcceptTallyFacts<V>(t: Tally<V>, n: nat, ds: seq<Delivery<AcceptReply>>)
    returns (q: set<nat>)
    requires DistinctSenders(ds)
    ensures TallyAccepts(t, n, ds).numOk == t.numOk + |q|
    ensures forall a :: a in q ==> Got(a, AcceptOk) in ds
    decreases |ds|
  {
    if ds == [] || t.numOk > n / 2 {
      q := {};
    } else {
      var d := ds[0];
      q := AcceptTallyFacts(AbsorbAccept(t, d), n, ds[1..]);
      if d.Got? && d.reply.AcceptOk? {
        FirstSenderIsNew(ds);
        q := q + {d.from};
      }
    }
  }

  // ---------- steps only add knowledge ----------

  ghost predicate Grows<V>(s: Slot<V>, s': Slot<V>) {
    && |s'.acceptors| == |s.acceptors| && |s.rounds| <= |s'.rounds|
    && s.prepareReps <= s'.prepareReps && s.acceptReps <= s'.acceptReps
    && (forall a: nat :: a < |s.acceptors| ==> s.acceptors[a].seqNumHighest <= s'.acceptors[a].seqNumHighest)
    && (forall r: nat :: r < |s.rounds| ==>
          && s'.rounds[r].seqNum == s.rounds[r].seqNum && s'.rounds[r].own == s.rounds[r].own
          && (s.rounds[r].proposed.Some? ==> s'.rounds[r].proposed == s.rounds[r].proposed)
          && (s.rounds[r].decided ==> s'.rounds[r].decided))
  }

  lemma StepGrows<V>(s: Slot<V>, step: Step<V>)
    requires Enabled(s, step)
    ensures Grows(s, Do(s, step))
  {
  }

  lemma BackedGrows<V>(s: Slot<V>, s': Slot<V>, a: nat, k: int, w: V)
    requires Grows(s, s') && RepliesInRange(s) && Backed(s, a, k, w)
    ensures Backed(s', a, k, w)
  {
    var r: nat :| BackedBy(s, a, k, w, r);
    assert BackedBy(s', a, k, w, r) by { DecideGrows(s, s', w); }
  }

  lemma DecideGrows<V>(s: Slot<V>, s': Slot<V>, w: V)
    requires Grows(s, s')
    ensures DecideSent(s, w) ==> DecideSent(s', w)
    ensures SomeDecide(s) ==> SomeDecide(s')
  {
    if r: nat :| r < |s.rounds| && s.rounds[r].decided { assert s'.rounds[r].decided; }
    if DecideSent(s, w) {
      var r: nat :| r < |s.rounds| && s.rounds[r].decided && s.rounds[r].proposed == Some(w);
      assert s'.rounds[r].decided;
    }
  }

  lemma RoundGrows<V>(s: Slot<V>, s': Slot<V>, r: nat)
    requires Grows(s, s') && r < |s.rounds| && RoundOk(s, r)
    requires s'.rounds[r] == s.rounds[r]
    ensures RoundOk(s', r)
  {
    SubsetSize(Voters(s, r), Voters(s', r));
    SubsetSize(Promisers(s, r), Promisers(s', r));
    if s.rounds[r].proposed.Some? { SubmittedGrows(s, s', s.rounds[r].proposed.value); }
  }

  lemma SubmittedGrows<V>(s: Slot<V>, s': Slot<V>, v: V)
    requires Grows(s, s') && SubmittedBy(s, v)
    ensures SubmittedBy(s', v)
  {
    var r: nat :| r < |s.rounds| && s.rounds[r].own == v;
    assert s'.rounds[r].own == v;
  }

  // ---------- the invariant is kept, one kind of step at a time ----------

  lemma BeginKeeps<V>(s: Slot<V>, m: int, v: V)
    requires Inv(s)
    ensures Inv(Do(s, Begin(m, v)))
  {
    var s' := Do(s, Begin(m, v));
    StepGrows(s, Begin(m, v));
    Carry(s, s');
    forall a: nat, r: nat | a < |s'.acceptors| && r < |s'.rounds| ensures VoteOk(s', a, r) {
      if r < |s.rounds| { assert VoteOk(s, a, r); }
    }
    forall r: nat | r < |s'.rounds| ensures RoundOk(s', r) {
      if r < |s.rounds| { RoundGrows(s, s', r); }
    }
    forall r: nat, r': nat | r < |s'.rounds| && r' < |s'.rounds| ensures Compatible(s', r, r') {
      if r < |s.rounds| && r' < |s.rounds| {
        assert Compatible(s, r, r') && Potential(s', r) == Potential(s, r);
      }
    }
  }

  /** Facts about old replies carry over when acceptances do not grow. */
  lemma Carry<V>(s: Slot<V>, s': Slot<V>)
    requires LocalInv(s) && Grows(s, s') && s'.acceptReps == s.acceptReps
    ensures forall p :: p in s.prepareReps && p.reply.Promise? ==> p in s'.prepareReps && PromiseOk(s', p)
    ensures forall a: nat :: a < |s.acceptors| && s'.acceptors[a] == s.acceptors[a] ==> AcceptorOk(s', a)
  {
    forall p | p in s.prepareReps && p.reply.Promise? ensures PromiseOk(s', p) {
      assert PromiseOk(s, p);
      if p.reply.seqNumAccepted > 0 {
        BackedGrows(s, s', p.from, p.reply.seqNumAccepted, p.reply.valueAccepted);
      }
    }
    forall a: nat | a < |s.acceptors| && s'.acceptors[a] == s.acceptors[a] ensures AcceptorOk(s', a) {
      assert AcceptorOk(s, a);
      if s.acceptors[a].seqNumAccepted > 0 {
        BackedGrows(s, s', a, s.acceptors[a].seqNumAccepted, s.acceptors[a].value);
      }
      DecideGrows(s, s', s.acceptors[a].value);
    }
  }

  /** The peer that answers a Prepare, and its answer. */
  lemma AnswersPrepare<V>(s: Slot<V>, a: nat, r: nat)
    requires LocalInv(s) && Enabled(s, HandlePrepare(a, r))
    ensures var s' := Do(s, HandlePrepare(a, r));
      var rep := PrepareRep(r, a, OnPrepare(s.acceptors[a], s.rounds[r].seqNum).1);
      AcceptorOk(s', a) && (rep.reply.Promise? ==> PromiseOk(s', rep))
  {
    var s', t := Do(s, HandlePrepare(a, r)), s.acceptors[a];
    StepGrows(s, HandlePrepare(a, r));
    assert AcceptorOk(s, a);
    if t.seqNumAccepted > 0 { BackedGrows(s, s', a, t.seqNumAccepted, t.value); }
    DecideGrows(s, s', t.value);
    forall i: nat | i < |s'.rounds| && Voted(s', a, i) ensures s'.rounds[i].seqNum <= t.seqNumAccepted {
      assert VoteOk(s, a, i);
    }
  }

  lemma PromisedOnceStays<V>(s: Slot<V>, a: nat, r: nat)
    requires LocalInv(s) && Enabled(s, HandlePrepare(a, r))
    ensures RepliesInRange(Do(s, HandlePrepare(a, r))) && PromisedOnce(Do(s, HandlePrepare(a, r)))
  {
    var s' := Do(s, HandlePrepare(a, r));
    forall p | p in s.prepareReps && p.from == a && p.reply.Promise?
      ensures s.rounds[p.round].seqNum <= s.acceptors[a].seqNumHighest
    {
      assert PromiseOk(s, p);
    }
  }

  lemma HandlePrepareKeeps<V>(s: Slot<V>, a: nat, r: nat)
    requires Inv(s) && Enabled(s, HandlePrepare(a, r))
    ensures Inv(Do(s, HandlePrepare(a, r)))
  {
    var s' := Do(s, HandlePrepare(a, r));
    StepGrows(s, HandlePrepare(a, r));
    Carry(s, s');
    AnswersPrepare(s, a, r);
    PromisedOnceStays(s, a, r);
    forall b: nat, i: nat | b < |s'.acceptors| && i < |s'.rounds| ensures VoteOk(s', b, i) { assert VoteOk(s, b, i); }
    forall i: nat | i < |s'.rounds| ensures RoundOk(s', i) { RoundGrows(s, s', i); }
    PotentialShrinks(s, s');
  }

  lemma PotentialShrinks<V>(s: Slot<V>, s': Slot<V>)
    requires Inv(s) && Grows(s, s')
    requires |s'.rounds| == |s.rounds|
    requires forall r: nat :: r < |s.rounds| ==> s'.rounds[r].proposed == s.rounds[r].proposed
    requires forall r: nat :: r < |s.rounds| ==> Potential(s', r) <= Potential(s, r)
    ensures forall r: nat, r': nat :: r < |s'.rounds| && r' < |s'.rounds| ==> Compatible(s', r, r')
  {
    forall r: nat, r': nat | r < |s'.rounds| && r' < |s'.rounds| ensures Compatible(s', r, r') {
      SubsetSize(Potential(s', r), Potential(s, r));
      assert Compatible(s, r, r');
    }
  }

  lemma HandleDecideKeeps<V>(s: Slot<V>, a: nat, r: nat)
    requires Inv(s) && Enabled(s, HandleDecide(a, r))
    ensures Inv(Do(s, HandleDecide(a, r)))
  {
    var s' := Do(s, HandleDecide(a, r));
    StepGrows(s, HandleDecide(a, r));
    Carry(s, s');
    var t, v := s.acceptors[a], s.rounds[r].proposed.value;
    assert s'.rounds[r].decided && DecideSent(s', v);
    assert AcceptorOk(s, a);
    if t.seqNumAccepted > 0 {
      var i: nat :| BackedBy(s, a, t.seqNumAccepted, t.value, i);
      assert BackedBy(s', a, t.seqNumAccepted, v, i);
    }
    forall b: nat, i: nat | b < |s'.acceptors| && i < |s'.rounds| ensures VoteOk(s', b, i) { assert VoteOk(s, b, i); }
    forall i: nat | i < |s'.rounds| ensures RoundOk(s', i) { RoundGrows(s, s', i); }
    PotentialShrinks(s, s');
  }

  lemma AcceptorAfterAccept<V>(s: Slot<V>, a: nat, r: nat, b: nat)
    requires LocalInv(s) && Enabled(s, HandleAccept(a, r)) && b < |s.acceptors|
    ensures AcceptorOk(Do(s, HandleAccept(a, r)), b)
  {
    var s', t := Do(s, HandleAccept(a, r)), s.acceptors[b];
    StepGrows(s, HandleAccept(a, r));
    assert AcceptorOk(s, b) && RoundOk(s, r);
    DecideGrows(s, s', t.value);
    if s'.acceptors[b] == t {
      if t.seqNumAccepted > 0 { BackedGrows(s, s', b, t.seqNumAccepted, t.value); }
    } else {
      assert BackedBy(s', a, s.rounds[r].seqNum, s.rounds[r].proposed.value, r);
    }
  }

  lemma HandleAcceptKeeps<V>(s: Slot<V>, a: nat, r: nat)
    requires Inv(s) && Enabled(s, HandleAccept(a, r))
    ensures Inv(Do(s, HandleAccept(a, r)))
  {
    var s' := Do(s, HandleAccept(a, r));
    var t, m := s.acceptors[a], s.rounds[r].seqNum;
    StepGrows(s, HandleAccept(a, r));
    assert RoundOk(s, r) && AcceptorOk(s, a);
    forall i: nat | i < |s'.rounds| ensures RoundOk(s', i) { RoundGrows(s, s', i); }
    forall b: nat, i: nat | b < |s'.acceptors| && i < |s'.rounds| ensures VoteOk(s', b, i) { assert VoteOk(s, b, i); }
    forall b: nat | b < |s'.acceptors| ensures AcceptorOk(s', b) { AcceptorAfterAccept(s, a, r, b); }
    forall p | p in s'.prepareReps && p.reply.Promise? ensures PromiseOk(s', p) { PromiseAfterAccept(s, a, r, p); }
    PotentialShrinks(s, s');
  }

  lemma PromiseAfterAccept<V>(s: Slot<V>, a: nat, r: nat, p: PrepareRep<V>)
    requires LocalInv(s) && Enabled(s, HandleAccept(a, r)) && p in s.prepareReps && p.reply.Promise?
    ensures PromiseOk(Do(s, HandleAccept(a, r)), p)
  {
    StepGrows(s, HandleAccept(a, r));
    assert PromiseOk(s, p);
    if p.reply.seqNumAccepted > 0 {
      BackedGrows(s, Do(s, HandleAccept(a, r)), p.from, p.reply.seqNumAccepted, p.reply.valueAccepted);
    }
  }

  lemma FinishAcceptKeeps<V>(s: Slot<V>, r: nat, ds: seq<Delivery<AcceptReply>>)
    requires Inv(s) && Enabled(s, FinishAccept(r, ds))
    ensures Inv(Do(s, FinishAccept(r, ds)))
  {
    var s' := Do(s, FinishAccept(r, ds));
    StepGrows(s, FinishAccept(r, ds));
    Carry(s, s');
    var q := AcceptTallyFacts(StartTally(s.rounds[r].own), |s.acceptors|, ds);
    forall x | x in q ensures x in Voters(s', r) {
      assert Got(x, AcceptOk) in ds && AcceptRep(r, x, AcceptOk) in s.acceptReps;
    }
    SubsetSize(q, Voters(s', r));
    forall i: nat | i < |s'.rounds| ensures RoundOk(s', i) {
      if i != r { RoundGrows(s, s', i); }
      else {
        assert RoundOk(s, r);
        assert Promisers(s', r) == Promisers(s, r);
        SubmittedGrows(s, s', s.rounds[r].proposed.value);
      }
    }
    forall b: nat, i: nat | b < |s'.acceptors| && i < |s'.rounds| ensures VoteOk(s', b, i) { assert VoteOk(s, b, i); }
    PotentialShrinks(s, s');
  }

  // ---------- the Propose step ----------

  /** A round that a peer of the prepare majority could still help to win was accepted by
      that peer before it promised, so it carries the value of the highest accepted
      proposal the majority reported. */
  lemma ChoosableBelow<V>(s: Slot<V>, r: nat, q: set<nat>, k: int, low: nat, top: nat)
    requires Inv(s) && r < |s.rounds| && low < |s.rounds| && top < |s.rounds|
    requires s.rounds[low].proposed.Some? && s.rounds[low].seqNum < s.rounds[r].seqNum
    requires s.rounds[top].proposed.Some? && s.rounds[top].seqNum == k
    requires Majority(s, q) && Majority(s, Potential(s, low))
    requires forall a :: a in q ==> exists i, w :: PrepareRep(r, a, Promise(i, w)) in s.prepareReps && i <= k
    ensures s.rounds[low].proposed == s.rounds[top].proposed
  {
    AcceptedBelow(s, r, q, k, low);
    assert Compatible(s, low, top);
    if s.rounds[low].seqNum == k { NumberOwnsRound(s, low, top); }
  }

  /** If some lower round is still choosable, a promise of the majority reports an
      acceptance at least as high. */
  lemma AcceptedBelow<V>(s: Slot<V>, r: nat, q: set<nat>, k: int, low: nat)
    requires Inv(s) && r < |s.rounds| && low < |s.rounds|
    requires s.rounds[low].proposed.Some? && s.rounds[low].seqNum < s.rounds[r].seqNum
    requires Majority(s, q) && Majority(s, Potential(s, low))
    requires forall a :: a in q ==> exists i, w :: PrepareRep(r, a, Promise(i, w)) in s.prepareReps && i <= k
    ensures 0 < s.rounds[low].seqNum <= k
  {
    var a := Overlap(s, q, Potential(s, low));
    var i, w :| PrepareRep(r, a, Promise(i, w)) in s.prepareReps && i <= k;
    assert PromiseOk(s, PrepareRep(r, a, Promise(i, w)));
    assert Voted(s, a, low) && RoundOk(s, low);
  }

  /** Two rounds that both collected a prepare majority under one number are one round. */
  lemma SameNumberSameRound<V>(s: Slot<V>, r: nat, r': nat)
    requires LocalInv(s) && r < |s.rounds| && r' < |s.rounds|
    requires Majority(s, Promisers(s, r)) && Majority(s, Promisers(s, r'))
    requires s.rounds[r].seqNum == s.rounds[r'].seqNum
    ensures r == r'
  {
    var a := Overlap(s, Promisers(s, r), Promisers(s, r'));
    var p :| p in s.prepareReps && p.round == r && p.reply.Promise? && p.from == a;
    var p' :| p' in s.prepareReps && p'.round == r' && p'.reply.Promise? && p'.from == a;
    assert PromisedOnce(s);
  }

  lemma NumberOwnsRound<V>(s: Slot<V>, r: nat, r': nat)
    requires LocalInv(s) && r < |s.rounds| && r' < |s.rounds|
    requires s.rounds[r].proposed.Some? && s.rounds[r'].proposed.Some?
    requires s.rounds[r].seqNum == s.rounds[r'].seqNum
    ensures r == r'
  {
    assert RoundOk(s, r) && RoundOk(s, r');
    SameNumberSameRound(s, r, r');
  }

  /** A chosen round could, of course, still win. */
  lemma ChosenIsChoosable<V>(s: Slot<V>, r: nat)
    requires ChosenRound(s, r)
    ensures Majority(s, Potential(s, r))
  {
    SubsetSize(Voters(s, r), Potential(s, r));
  }

  /** The value a round proposes agrees with every lower round that could still win, even
      when the reported value was put there by a Decide and not by the reported Accept. */
  lemma ProposalIsSafe<V>(s: Slot<V>, r: nat, q: set<nat>, k: int, v: V, low: nat)
    requires Inv(s) && r < |s.rounds| && low < |s.rounds| && s.rounds[r].proposed.None?
    requires s.rounds[low].proposed.Some? && s.rounds[low].seqNum < s.rounds[r].seqNum
    requires Majority(s, q) && Majority(s, Potential(s, low))
    requires forall a :: a in q ==> exists i, w :: PrepareRep(r, a, Promise(i, w)) in s.prepareReps && i <= k
    requires k > 0 ==> exists a :: a in q && PrepareRep(r, a, Promise(k, v)) in s.prepareReps
    ensures s.rounds[low].proposed == Some(v)
  {
    AcceptedBelow(s, r, q, k, low);
    var a :| a in q && PrepareRep(r, a, Promise(k, v)) in s.prepareReps;
    assert PromiseOk(s, PrepareRep(r, a, Promise(k, v)));
    var top: nat :| BackedBy(s, a, k, v, top);
    ChoosableBelow(s, r, q, k, low, top);
    if s.rounds[top].proposed != Some(v) {
      var d: nat :| d < |s.rounds| && s.rounds[d].decided && s.rounds[d].proposed == Some(v);
      assert RoundOk(s, d) && Compatible(s, low, d);
      ChosenIsChoosable(s, d);
      if s.rounds[d].seqNum < s.rounds[r].seqNum { ChoosableBelow(s, r, q, k, d, top); }
    }
  }

  lemma QuorumPromised<V>(s: Slot<V>, r: nat, q: set<nat>)
    requires RepliesInRange(s) && Majority(s, q)
    requires forall a :: a in q ==> exists i, w :: PrepareRep(r, a, Promise(i, w)) in s.prepareReps
    ensures Majority(s, Promisers(s, r))
  {
    forall a | a in q ensures a in Promisers(s, r) {
      var i, w :| PrepareRep(r, a, Promise(i, w)) in s.prepareReps;
      assert PrepareRep(r, a, Promise(i, w)).from == a;
    }
    SubsetSize(q, Promisers(s, r));
  }

  /** A round that proposes late cannot win below a round that already has its promises. */
  lemma LateProposalIsDead<V>(s: Slot<V>, r: nat, high: nat)
    requires Inv(s) && r < |s.rounds| && high < |s.rounds|
    requires s.rounds[r].proposed.None? && s.rounds[high].proposed.Some?
    requires s.rounds[r].seqNum < s.rounds[high].seqNum
    ensures !Majority(s, Potential(s, r))
  {
    assert RoundOk(s, high);
    forall a | a in Promisers(s, high) ensures a !in Potential(s, r) {
      var p :| p in s.prepareReps && p.round == high && p.reply.Promise? && p.from == a;
      assert PromiseOk(s, p);
    }
    Disjoint(s, Promisers(s, high), Potential(s, r));
  }

  /** What a successful prepare phase knows: who promised, and where its value comes from. */
  lemma PreparePhase<V>(s: Slot<V>, r: nat, ds: seq<Delivery<PrepareReply<V>>>) returns (q: set<nat>)
    requires LocalInv(s) && Enabled(s, FinishPrepare(r, ds))
    ensures Majority(s, q)
    ensures var t := PrepareTally(s, r, ds);
      && (forall a :: a in q ==> exists i, w :: PrepareRep(r, a, Promise(i, w)) in s.prepareReps && i <= t.maxAccepted)
      && (t.maxAccepted > 0 ==>
            exists a :: a in q && PrepareRep(r, a, Promise(t.maxAccepted, t.value)) in s.prepareReps)
      && (t.maxAccepted <= 0 ==> t.value == s.rounds[r].own)
  {
    q := PrepareTallyFacts(StartTally(s.rounds[r].own), |s.acceptors|, ds);
    var t := PrepareTally(s, r, ds);
    forall a | a in q ensures exists i, w :: PrepareRep(r, a, Promise(i, w)) in s.prepareReps && i <= t.maxAccepted {
      var i, w :| Got(a, Promise(i, w)) in ds && i <= t.maxAccepted;
      assert PrepareRep(r, a, Promise(i, w)) in s.prepareReps;
    }
    if t.maxAccepted > 0 {
      var a :| a in q && Got(a, Promise(t.maxAccepted, t.value)) in ds;
      assert PrepareRep(r, a, Promise(t.maxAccepted, t.value)) in s.prepareReps;
    }
  }

  /** Every value a prepare phase picks was submitted by some caller. */
  lemma PickedIsSubmitted<V>(s: Slot<V>, r: nat, ds: seq<Delivery<PrepareReply<V>>>)
    requires LocalInv(s) && Enabled(s, FinishPrepare(r, ds))
    ensures SubmittedBy(s, PrepareTally(s, r, ds).value)
  {
    var q := PreparePhase(s, r, ds);
    var t := PrepareTally(s, r, ds);
    if t.maxAccepted > 0 {
      var a :| a in q && PrepareRep(r, a, Promise(t.maxAccepted, t.value)) in s.prepareReps;
      assert PromiseOk(s, PrepareRep(r, a, Promise(t.maxAccepted, t.value)));
      var top: nat :| BackedBy(s, a, t.maxAccepted, t.value, top);
      assert RoundOk(s, top);
      if s.rounds[top].proposed != Some(t.value) {
        var d: nat :| d < |s.rounds| && s.rounds[d].decided && s.rounds[d].proposed == Some(t.value);
        assert RoundOk(s, d);
      }
    } else {
      assert s.rounds[r].own == t.value;
    }
  }

  lemma FinishPrepareKeepsLocal<V>(s: Slot<V>, r: nat, ds: seq<Delivery<PrepareReply<V>>>)
    requires Inv(s) && Enabled(s, FinishPrepare(r, ds))
    ensures LocalInv(Do(s, FinishPrepare(r, ds)))
  {
    var s' := Do(s, FinishPrepare(r, ds));
    StepGrows(s, FinishPrepare(r, ds));
    Carry(s, s');
    forall b: nat, i: nat | b < |s'.acceptors| && i < |s'.rounds| ensures VoteOk(s', b, i) { assert VoteOk(s, b, i); }
    forall i: nat | i < |s'.rounds| ensures RoundOk(s', i) {
      if i != r { RoundGrows(s, s', i); } else { ProposedRoundOk(s, r, ds); }
    }
  }

  lemma ProposedRoundOk<V>(s: Slot<V>, r: nat, ds: seq<Delivery<PrepareReply<V>>>)
    requires Inv(s) && Enabled(s, FinishPrepare(r, ds))
    ensures RoundOk(Do(s, FinishPrepare(r, ds)), r)
  {
    var s' := Do(s, FinishPrepare(r, ds));
    StepGrows(s, FinishPrepare(r, ds));
    var q := PreparePhase(s, r, ds);
    QuorumPromised(s, r, q);
    PickedIsSubmitted(s, r, ds);
    SubmittedGrows(s, s', PrepareTally(s, r, ds).value);
    assert RoundOk(s, r);
    assert Promisers(s', r) == Promisers(s, r);
    var a :| a in q;
    var j, w :| PrepareRep(r, a, Promise(j, w)) in s.prepareReps;
    assert PromiseOk(s, PrepareRep(r, a, Promise(j, w)));
  }

  lemma FinishPrepareKeeps<V>(s: Slot<V>, r: nat, ds: seq<Delivery<PrepareReply<V>>>)
    requires Inv(s) && Enabled(s, FinishPrepare(r, ds))
    ensures Inv(Do(s, FinishPrepare(r, ds)))
  {
    var s', t := Do(s, FinishPrepare(r, ds)), PrepareTally(s, r, ds);
    FinishPrepareKeepsLocal(s, r, ds);
    var q := PreparePhase(s, r, ds);
    forall i: nat, j: nat | i < |s'.rounds| && j < |s'.rounds| ensures Compatible(s', i, j) {
      assert Potential(s', i) == Potential(s, i);
      assert Compatible(s, i, j);
      if s'.rounds[i].proposed.Some? && s'.rounds[j].proposed.Some? && s'.rounds[i].seqNum < s'.rounds[j].seqNum {
        if j == r && Majority(s, Potential(s, i)) { ProposalIsSafe(s, r, q, t.maxAccepted, t.value, i); }
        if i == r { LateProposalIsDead(s, r, j); }
      }
    }
  }

  lemma StepKeeps<V>(s: Slot<V>, step: Step<V>)
    requires Inv(s) && Enabled(s, step)
    ensures Inv(Do(s, step))
  {
    match step
    case Begin(m, v) => BeginKeeps(s, m, v);
    case HandlePrepare(a, r) => HandlePrepareKeeps(s, a, r);
    case HandleAccept(a, r) => HandleAcceptKeeps(s, a, r);
    case HandleDecide(a, r) => HandleDecideKeeps(s, a, r);
    case FinishPrepare(r, ds) => FinishPrepareKeeps(s, r, ds);
    case FinishAccept(r, ds) => FinishAcceptKeeps(s, r, ds);
  }

  lemma {:induction false} RunKeeps<V(!new)>(s: Slot<V>, run: seq<Step<V>>, s': Slot<V>)
    requires Inv(s) && RunsTo(s, run, s')
    ensures Inv(s')
    decreases |run|
  {
    if run != [] {
      var k := |run| - 1;
      var p :| RunsTo(s, run[..k], p) && Next(p, run[k], s');
      RunKeeps(s, run[..k], p);
      StepKeeps(p, run[k]);
    }
  }

  lemma ReachableInv<V(!new)>(s: Slot<V>)
    requires Reachable(s)
    ensures Inv(s)
  {
    var n: nat, nilValue: V, run :| RunsTo(Init(n, nilValue), run, s);
    RunKeeps(Init(n, nilValue), run, s);
  }

  // ---------- the theorems ----------

  lemma ChosenRoundsAgree<V>(s: Slot<V>, r: nat, r': nat)
    requires Inv(s) && ChosenRound(s, r) && ChosenRound(s, r')
    ensures s.rounds[r].proposed == s.rounds[r'].proposed
  {
    ChosenIsChoosable(s, r);
    ChosenIsChoosable(s, r');
    assert Compatible(s, r, r') && Compatible(s, r', r);
    if s.rounds[r].seqNum == s.rounds[r'].seqNum { NumberOwnsRound(s, r, r'); }
  }

  /** A majority for a number is a majority for the one round that owns the number. */
  lemma ChosenHasRound<V>(s: Slot<V>, m: int, v: V) returns (r: nat)
    requires Inv(s) && Chosen(s, m, v)
    ensures ChosenRound(s, r) && s.rounds[r].seqNum == m && s.rounds[r].proposed == Some(v)
  {
    var b :| b in AcceptedAs(s, m, v);
    r :| r < |s.rounds| && Voted(s, b, r) && s.rounds[r].seqNum == m && s.rounds[r].proposed == Some(v);
    forall a | a in AcceptedAs(s, m, v) ensures a in Voters(s, r) {
      var i: nat :| i < |s.rounds| && Voted(s, a, i) && s.rounds[i].seqNum == m && s.rounds[i].proposed == Some(v);
      NumberOwnsRound(s, r, i);
    }
    SubsetSize(AcceptedAs(s, m, v), Voters(s, r));
  }

  /** Agreement: in every run, all majority-accepted values of a slot are the same. */
  lemma Agreement<V(!new)>(s: Slot<V>, m: int, v: V, m': int, v': V)
    requires Reachable(s) && Chosen(s, m, v) && Chosen(s, m', v')
    ensures v == v'
  {
    ReachableInv(s);
    var r := ChosenHasRound(s, m, v);
    var r' := ChosenHasRound(s, m', v');
    ChosenRoundsAgree(s, r, r');
  }

  /** In every run, at most one round per number gets past its prepare phase. */
  lemma OneProposalPerNumber<V(!new)>(s: Slot<V>, r: nat, r': nat)
    requires Reachable(s) && r < |s.rounds| && r' < |s.rounds|
    requires Majority(s, Promisers(s, r)) && Majority(s, Promisers(s, r'))
    requires s.rounds[r].seqNum == s.rounds[r'].seqNum
    ensures r == r'
  {
    ReachableInv(s);
    SameNumberSameRound(s, r, r');
  }

  lemma ChosenRoundIsChosen<V>(s: Slot<V>, r: nat)
    requires ChosenRound(s, r)
    ensures Chosen(s, s.rounds[r].seqNum, s.rounds[r].proposed.value)
  {
    forall a | a in Voters(s, r) ensures a in AcceptedAs(s, s.rounds[r].seqNum, s.rounds[r].proposed.value) {
      assert Voted(s, a, r);
    }
    SubsetSize(Voters(s, r), AcceptedAs(s, s.rounds[r].seqNum, s.rounds[r].proposed.value));
  }

  /** Every Decide carries a majority-accepted value that some caller submitted; hence all
      Decides of the slot agree with each other and with every chosen value. */
  lemma DecideIsSound<V(!new)>(s: Slot<V>, v: V)
    requires Reachable(s) && DecideSent(s, v)
    ensures exists m :: Chosen(s, m, v)
    ensures SubmittedBy(s, v)
    ensures forall w :: DecideSent(s, w) ==> w == v
    ensures forall m, w :: Chosen(s, m, w) ==> w == v
  {
    ReachableInv(s);
    var r: nat :| r < |s.rounds| && s.rounds[r].decided && s.rounds[r].proposed == Some(v);
    assert RoundOk(s, r);
    ChosenRoundIsChosen(s, r);
    forall w | DecideSent(s, w) ensures w == v {
      var r': nat :| r' < |s.rounds| && s.rounds[r'].decided && s.rounds[r'].proposed == Some(w);
      assert RoundOk(s, r');
      ChosenRoundsAgree(s, r, r');
    }
    forall m, w | Chosen(s, m, w) ensures w == v {
      Agreement(s, s.rounds[r].seqNum, v, m, w);
    }
  }
}
