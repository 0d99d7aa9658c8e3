/** What a live LSP connection does with what reaches it: when a read succeeds, what is
    acknowledged, and that everything written can still be delivered. */
module LspProgress {
  import opened Basics
  import opened LspBuffer
  import opened LspEndpoint
  import opened LspRun
  import opened LspGuarantees

  /** What has reached the receiver has been read or waits for the reader, and the
      acknowledgements on repeat are within one window of the last. */
  ghost predicate ArrivalsOk(l: Link, wr: int) {
    && (forall n :: n in l.arrived <==> Received(l.rcv, n))
    && (forall n :: HasNum(l.rcv.acks, n) ==> n > Last(l.rcv.acks) - wr)
  }

  lemma DataKeepsArrivals(l: Link, ws: int, wr: int, m: Message)
    requires Inv(l, ws, wr) && wr >= 1 && ArrivalsOk(l, wr) && Enabled(l, DeliverData(m))
    ensures ArrivalsOk(Do(l, ws, wr, DeliverData(m)), wr)
  {
    if m.seqNum >= l.rcv.expected {
      OnDataOk(l.rcv, wr, Top(l.snd), l.dataNet, m);
      AcksAfter(l.rcv.acks, m.seqNum, wr);
    }
  }

  lemma ReadKeepsArrivals(l: Link, ws: int, wr: int)
    requires Inv(l, ws, wr) && ArrivalsOk(l, wr) && Enabled(l, Read)
    ensures ArrivalsOk(Do(l, ws, wr, Read), wr)
  {
    SplitHead(l.rcv.read);
    assert forall n :: Received(Do(l, ws, wr, Read).rcv, n) <==> Received(l.rcv, n);
  }

  lemma StepKeepsArrivals(l: Link, ws: int, wr: int, step: Step)
    requires Inv(l, ws, wr) && wr >= 1 && ArrivalsOk(l, wr) && Enabled(l, step)
    ensures ArrivalsOk(Do(l, ws, wr, step), wr)
  {
    match step {
      case DeliverData(m) => DataKeepsArrivals(l, ws, wr, m);
      case Read => ReadKeepsArrivals(l, ws, wr);
      case _ =>
    }
  }

  lemma {:induction false} RunKeepsArrivals(ws: int, wr: int, run: seq<Step>, l: Link)
    requires ws >= 1 && wr >= 1 && RunsTo(ws, wr, Init(), run, l)
    ensures Inv(l, ws, wr) && ArrivalsOk(l, wr)
    decreases |run|
  {
    RunKeeps(ws, wr, Init(), run, l);
    if run != [] {
      var k := |run| - 1;
      var p :| RunsTo(ws, wr, Init(), run[..k], p) && Next(p, ws, wr, run[k], l);
      RunKeepsArrivals(ws, wr, run[..k], p);
      StepKeepsArrivals(p, ws, wr, run[k]);
    }
  }

  lemma ReachableArrivals(ws: int, wr: int, l: Link)
    requires ws >= 1 && wr >= 1 && Reachable(ws, wr, l)
    ensures Inv(l, ws, wr) && ArrivalsOk(l, wr)
  {
    var run :| RunsTo(ws, wr, Init(), run, l);
    RunKeepsArrivals(ws, wr, run, l);
  }

  // ---------- reads and acknowledgements, exactly ----------

  /** In every run, a read succeeds if and only if the next payload in order has arrived,
      whatever else has, and it returns that payload. */
  lemma ReadExactly(ws: int, wr: int, l: Link)
    requires ws >= 1 && wr >= 1 && Reachable(ws, wr, l)
    ensures Enabled(l, Read) <==> |l.delivered| + 1 in l.arrived
    ensures Enabled(l, Read) ==>
      |l.delivered| < |l.written| && Do(l, ws, wr, Read).delivered == l.delivered + [l.written[|l.delivered|]]
  {
    ReachableArrivals(ws, wr, l);
    var r := l.rcv;
    FrontIsLeast(r.read, r.expected);
    if r.read != [] { assert r.read[0] in r.read; }
    if CanRead(r) { assert HasNum(r.read, r.expected); }
  }

  lemma FrontIsLeast(s: seq<Message>, n: int)
    requires Sorted(s)
    ensures HasNum(s, n) ==> s != [] && s[0].seqNum <= n
  {
    if HasNum(s, n) {
      var i :| 0 <= i < |s| && s[i].seqNum == n;
      assert 0 < i ==> s[0].seqNum < s[i].seqNum;
    }
  }

  /** In every run, data that has not been read yet is acknowledged on every arrival, and data
      that has been read is not. */
  lemma ArrivalAcksExactly(ws: int, wr: int, l: Link, m: Message)
    requires ws >= 1 && wr >= 1 && Reachable(ws, wr, l) && Enabled(l, DeliverData(m))
    ensures AcksSent(l, wr, DeliverData(m)) == if m.seqNum > |l.delivered| then {m.seqNum} else {}
  {
    ReachableArrivals(ws, wr, l);
    var out := OnData(l.rcv, wr, m).1;
    if m.seqNum >= l.rcv.expected { assert out == [Ack(m.seqNum)] && Ack(m.seqNum) in out; }
  }

  /** In every run, an epoch acknowledges exactly what has arrived within one window of the
      highest arrival, or 0 if nothing has. */
  lemma EpochAcksExactly(ws: int, wr: int, l: Link, n: int)
    requires ws >= 1 && wr >= 1 && Reachable(ws, wr, l)
    ensures n in AcksSent(l, wr, ReceiverEpoch) <==>
      if l.arrived == {} then n == 0 else n in l.arrived && forall k :: k in l.arrived ==> k - wr < n
  {
    ReachableArrivals(ws, wr, l);
    var acks := l.rcv.acks;
    NumsOf(EpochAcks(l.rcv), n);
    if acks == [] {
      assert l.arrived != {} ==> Received(l.rcv, Pick(l.arrived));
      assert EpochAcks(l.rcv)[0].seqNum == 0;
    } else {
      LastIsMax(acks);
      assert Received(l.rcv, Last(acks));
      assert Last(acks) in l.arrived;
      forall k | k in l.arrived ensures k <= Last(acks) { assert Received(l.rcv, k); }
    }
  }

  lemma NumsOf(s: seq<Message>, n: int)
    ensures n in AckNums(s) <==> HasNum(s, n)
  {
    if HasNum(s, n) {
      var i :| 0 <= i < |s| && s[i].seqNum == n;
      assert s[i] in s;
    }
    if n in AckNums(s) {
      var m :| m in s && m.seqNum == n;
      HasIt(s, m);
    }
  }

  // ---------- everything can still be delivered ----------

  /** Some run without new writes leads from `l` to `l'`. */
  ghost predicate Leads(ws: int, wr: int, l: Link, l': Link) {
    exists run :: RunsTo(ws, wr, l, run, l') && NoWrite(run)
  }

  ghost predicate NoWrite(run: seq<Step>) {
    forall i :: 0 <= i < |run| ==> !run[i].Write?
  }

  lemma LastStep(ws: int, wr: int, l: Link, run: seq<Step>, l': Link) returns (p: Link)
    requires run != [] && RunsTo(ws, wr, l, run, l')
    ensures RunsTo(ws, wr, l, run[..|run| - 1], p) && Next(p, ws, wr, run[|run| - 1], l')
  {
    p :| RunsTo(ws, wr, l, run[..|run| - 1], p) && Next(p, ws, wr, run[|run| - 1], l');
  }

  lemma LeadsFurther(ws: int, wr: int, l: Link, p: Link, step: Step)
    requires Leads(ws, wr, l, p) && Enabled(p, step) && !step.Write?
    ensures Leads(ws, wr, l, Do(p, ws, wr, step))
  {
    var run :| RunsTo(ws, wr, l, run, p) && NoWrite(run);
    var run' := run + [step];
    assert run'[..|run|] == run && Next(p, ws, wr, run'[|run|], Do(p, ws, wr, step));
    assert RunsTo(ws, wr, l, run', Do(p, ws, wr, step)) && NoWrite(run');
  }

  lemma {:induction false} LeadsAlong(ws: int, wr: int, l: Link, p: Link, run: seq<Step>, l': Link)
    requires Leads(ws, wr, l, p) && RunsTo(ws, wr, p, run, l') && NoWrite(run)
    ensures Leads(ws, wr, l, l')
    decreases |run|
  {
    if run != [] {
      var q := LastStep(ws, wr, p, run, l');
      LeadsAlong(ws, wr, l, p, run[..|run| - 1], q);
      LeadsFurther(ws, wr, l, q, run[|run| - 1]);
    }
  }

  lemma LeadsOn(ws: int, wr: int, l: Link, p: Link, l': Link)
    requires Leads(ws, wr, l, p) && Leads(ws, wr, p, l')
    ensures Leads(ws, wr, l, l')
  {
    var run :| RunsTo(ws, wr, p, run, l') && NoWrite(run);
    LeadsAlong(ws, wr, l, p, run, l');
  }

  lemma {:induction false} ReachableAlong(ws: int, wr: int, l: Link, run: seq<Step>, l': Link)
    requires Reachable(ws, wr, l) && RunsTo(ws, wr, l, run, l')
    ensures Reachable(ws, wr, l')
    decreases |run|
  {
    if run != [] {
      var q := LastStep(ws, wr, l, run, l');
      ReachableAlong(ws, wr, l, run[..|run| - 1], q);
      Extend(ws, wr, q, run[|run| - 1]);
    }
  }

  lemma LeadsReachable(ws: int, wr: int, l: Link, l': Link)
    requires Reachable(ws, wr, l) && Leads(ws, wr, l, l')
    ensures Reachable(ws, wr, l')
  {
    var run :| RunsTo(ws, wr, l, run, l') && NoWrite(run);
    ReachableAlong(ws, wr, l, run, l');
  }

  lemma LeadsNowhere(ws: int, wr: int, l: Link)
    ensures Leads(ws, wr, l, l)
  {
    assert RunsTo(ws, wr, l, [], l) && NoWrite([]);
  }

  /** The numbers written and not yet acknowledged. */
  ghost function Open(l: Link): set<int> {
    set n | 1 <= n <= |l.written| && n !in l.acked
  }

  lemma Fewer(a: set<int>, b: set<int>, x: int)
    requires a <= b && x in b && x !in a
    ensures |a| < |b|
  {
    SubsetSize(a, b - {x});
  }

  lemma OneAcked(ws: int, wr: int, l: Link, m: Message) returns (l': Link)
    requires 1 <= ws <= wr && Reachable(ws, wr, l) && m in l.snd.unacked
    ensures Leads(ws, wr, l, l') && l'.written == l.written && |Open(l')| < |Open(l)|
  {
    ReachableInv(ws, wr, l);
    l' := NothingIsStranded(ws, wr, l, m);
    assert NoWrite([SenderEpoch, DeliverData(m), ReceiverEpoch, DeliverAck(m.seqNum)]);
    assert Genuine(l.written, m);
    Fewer(Open(l'), Open(l), m.seqNum);
  }

  /** Every number can be acknowledged. */
  lemma {:induction false} AllAcked(ws: int, wr: int, l: Link) returns (l': Link)
    requires 1 <= ws <= wr && Reachable(ws, wr, l)
    ensures Leads(ws, wr, l, l') && l'.written == l.written && l'.snd.unacked == [] && l'.snd.write == []
    decreases |Open(l)|
  {
    ReachableArrivals(ws, wr, l);
    if l.snd.unacked == [] {
      l' := l;
      LeadsNowhere(ws, wr, l);
    } else {
      var m := l.snd.unacked[0];
      var p := OneAcked(ws, wr, l, m);
      LeadsReachable(ws, wr, l, p);
      l' := AllAcked(ws, wr, p);
      LeadsOn(ws, wr, l, p, l');
    }
  }

  /** What has arrived can be read. */
  lemma {:induction false} AllRead(ws: int, wr: int, l: Link) returns (l': Link)
    requires ws >= 1 && wr >= 1 && Reachable(ws, wr, l) && l.snd.unacked == [] && l.snd.write == []
    ensures Leads(ws, wr, l, l') && l'.written == l'.delivered == l.written && l'.snd == l.snd
    decreases |l.written| - |l.delivered|
  {
    ReachableArrivals(ws, wr, l);
    var n := |l.delivered| + 1;
    if n > |l.written| {
      l' := l;
      LeadsNowhere(ws, wr, l);
    } else {
      assert !HasNum(l.snd.unacked, n) && n in l.acked && n in l.arrived;
      ReadExactly(ws, wr, l);
      var p := Do(l, ws, wr, Read);
      LeadsNowhere(ws, wr, l);
      LeadsFurther(ws, wr, l, l, Read);
      LeadsReachable(ws, wr, l, p);
      l' := AllRead(ws, wr, p);
      LeadsOn(ws, wr, l, p, l');
    }
  }

  /** Nothing is ever lost for good: with windows that fit, from every reachable state, however
      much the network has dropped, some run delivers exactly what was written and leaves
      nothing unacknowledged. */
  lemma EverythingDeliverable(ws: int, wr: int, l: Link) returns (l': Link)
    requires 1 <= ws <= wr && Reachable(ws, wr, l)
    ensures Leads(ws, wr, l, l') && l'.written == l'.delivered == l.written
    ensures l'.snd.unacked == [] && l'.snd.write == []
  {
    var p := AllAcked(ws, wr, l);
    LeadsReachable(ws, wr, l, p);
    l' := AllRead(ws, wr, p);
    LeadsOn(ws, wr, l, p, l');
  }
}
