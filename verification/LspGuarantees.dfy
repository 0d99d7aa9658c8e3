/** What every run of a live LSP connection guarantees. */
module LspGuarantees {
  import opened LspBuffer
  import opened LspEndpoint
  import opened LspRun

  /** In-order, exactly-once delivery: over a network that drops, repeats and reorders, the
      payloads read on one side are always a prefix of those written on the other. */
  lemma DeliversInOrder(ws: int, wr: int, l: Link)
    requires ws >= 1 && wr >= 1 && Reachable(ws, wr, l)
    ensures l.delivered <= l.written
  {
    ReachableInv(ws, wr, l);
  }

  /** Every number written is in exactly one place: waiting, unacked or acked; and whatever
      is acked was received, that is, read or waiting for the reader. */
  lemma SendSideConserved(ws: int, wr: int, l: Link, n: int)
    requires ws >= 1 && wr >= 1 && Reachable(ws, wr, l) && 1 <= n <= |l.written|
    ensures HasNum(l.snd.write, n) <==> !HasNum(l.snd.unacked, n) && n !in l.acked
    ensures !(HasNum(l.snd.unacked, n) && n in l.acked)
    ensures n in l.acked ==> n <= |l.delivered| || HasNum(l.rcv.read, n)
  {
    ReachableInv(ws, wr, l);
    NumInRange(l.snd.unacked, n, 1, Top(l.snd));
    if n > Top(l.snd) { assert l.snd.write[n - Top(l.snd) - 1].seqNum == n; }
  }

  /** The window: unacked numbers are sorted and span less than the window, the waiting ones
      are the run from the first unsent number on, and nothing that fits is held back. */
  lemma WindowIsKept(ws: int, wr: int, l: Link)
    requires ws >= 1 && wr >= 1 && Reachable(ws, wr, l)
    ensures Sorted(l.snd.unacked)
    ensures l.snd.unacked != [] ==> Last(l.snd.unacked) - l.snd.unacked[0].seqNum < ws
    ensures forall i :: 0 <= i < |l.snd.write| ==> l.snd.write[i].seqNum == |l.written| - |l.snd.write| + 1 + i
    ensures l.snd.write != [] ==> l.snd.unacked != [] && l.snd.write[0].seqNum - l.snd.unacked[0].seqNum >= ws
  {
    ReachableInv(ws, wr, l);
    if l.snd.unacked != [] {
      var u := l.snd.unacked;
      assert u[0] in u && u[|u| - 1] in u;
    }
  }

  // ---------- acknowledgements are kept long enough ----------

  /** The receiver still repeats the acknowledgement of every received number that the
      sender is waiting for. */
  ghost predicate Retained(l: Link) {
    forall n :: HasNum(l.snd.unacked, n) && Received(l.rcv, n) ==> HasNum(l.rcv.acks, n)
  }

  lemma RetainedWhenWindowsFit(ws: int, wr: int, l: Link)
    requires 1 <= ws <= wr && Reachable(ws, wr, l)
    ensures Retained(l)
  {
    ReachableInv(ws, wr, l);
    forall n | HasNum(l.snd.unacked, n) && Received(l.rcv, n) ensures HasNum(l.rcv.acks, n) {
      NumInRange(l.snd.unacked, n, Top(l.snd) - ws + 1, Top(l.snd));
      LastIsMax(l.rcv.acks);
      assert Received(l.rcv, Last(l.rcv.acks));
      NumInRange(l.rcv.read, Last(l.rcv.acks), 1, Top(l.snd));
    }
  }

  /** No message is stranded: from every reachable state, one resend, one delivery, one
      repeat of the acknowledgements and one delivery of the right one settle any unacked
      number, although data below the expected number is ignored. */
  lemma NothingIsStranded(ws: int, wr: int, l: Link, m: Message) returns (l': Link)
    requires 1 <= ws <= wr && Reachable(ws, wr, l) && m in l.snd.unacked
    ensures RunsTo(ws, wr, l, [SenderEpoch, DeliverData(m), ReceiverEpoch, DeliverAck(m.seqNum)], l')
    ensures m.seqNum in l'.acked && !HasNum(l'.snd.unacked, m.seqNum)
    ensures l'.written == l.written && l.acked <= l'.acked && m.seqNum !in l.acked
  {
    ReachableInv(ws, wr, l);
    RetainedWhenWindowsFit(ws, wr, l);
    HasIt(l.snd.unacked, m);
    var l1 := Do(l, ws, wr, SenderEpoch);
    assert m in ToSet(l.snd.unacked);
    EpochsKeep(l, ws, wr);
    var l2 := Do(l1, ws, wr, DeliverData(m));
    DeliverDataKeeps(l1, ws, wr, m);
    var l3 := Do(l2, ws, wr, ReceiverEpoch);
    EpochsKeep(l2, ws, wr);
    assert m.seqNum in l3.ackNet by { AckComesBack(l1, wr, m); }
    OnAckOk(l3.snd, ws, l3.written, l3.dataNet, m.seqNum);
    NumInRange(l.snd.unacked, m.seqNum, 1, Top(l.snd));
    l' := Do(l3, ws, wr, DeliverAck(m.seqNum));
    FourSteps(ws, wr, l, m, l1, l2, l3, l');
  }

  lemma FourSteps(ws: int, wr: int, l: Link, m: Message, l1: Link, l2: Link, l3: Link, l4: Link)
    requires Next(l, ws, wr, SenderEpoch, l1) && Next(l1, ws, wr, DeliverData(m), l2)
    requires Next(l2, ws, wr, ReceiverEpoch, l3) && Next(l3, ws, wr, DeliverAck(m.seqNum), l4)
    ensures RunsTo(ws, wr, l, [SenderEpoch, DeliverData(m), ReceiverEpoch, DeliverAck(m.seqNum)], l4)
  {
    var run := [SenderEpoch, DeliverData(m), ReceiverEpoch, DeliverAck(m.seqNum)];
    assert run[..0] == [] && RunsTo(ws, wr, l, run[..0], l);
    assert run[..1][..0] == run[..0] && RunsTo(ws, wr, l, run[..1], l1);
    assert run[..2][..1] == run[..1] && RunsTo(ws, wr, l, run[..2], l2);
    assert run[..3][..2] == run[..2] && RunsTo(ws, wr, l, run[..3], l3);
  }

  lemma HasIt(s: seq<Message>, m: Message)
    requires m in s
    ensures HasNum(s, m.seqNum)
  {
    var i :| 0 <= i < |s| && s[i] == m;
  }

  /** Delivering an unacked message, and then an epoch, puts its acknowledgement on the network. */
  lemma AckComesBack(l: Link, wr: int, m: Message)
    requires m.seqNum >= 1 && m.Data?
    requires m.seqNum < l.rcv.expected ==> HasNum(l.rcv.acks, m.seqNum)
    ensures var r := OnData(l.rcv, wr, m).0;
      m.seqNum in AckNums(OnData(l.rcv, wr, m).1) + AckNums(EpochAcks(r))
  {
    if m.seqNum < l.rcv.expected {
      var i :| 0 <= i < |l.rcv.acks| && l.rcv.acks[i].seqNum == m.seqNum;
      assert l.rcv.acks[i] in EpochAcks(l.rcv);
    } else {
      assert Ack(m.seqNum) in OnData(l.rcv, wr, m).1;
    }
  }

  // ---------- and not when the sender's window is the larger one ----------

  lemma Extend(ws: int, wr: int, l: Link, step: Step)
    requires Reachable(ws, wr, l) && Enabled(l, step)
    ensures Reachable(ws, wr, Do(l, ws, wr, step))
  {
    var run :| RunsTo(ws, wr, Init(), run, l);
    var run' := run + [step];
    assert run'[..|run|] == run && Next(l, ws, wr, run'[|run|], Do(l, ws, wr, step));
    assert RunsTo(ws, wr, Init(), run', Do(l, ws, wr, step));
  }

  /** Write, deliver and read one message, with every acknowledgement lost. */
  lemma {:induction false} AllReadNoneAcked(ws: int, wr: int, k: nat) returns (l: Link)
    requires 1 <= wr && k <= ws
    ensures Reachable(ws, wr, l)
    ensures l.snd.seqNum == k && l.snd.write == [] && l.rcv.expected == k + 1 && l.rcv.read == []
    ensures k > 0 ==> l.snd.unacked != [] && l.snd.unacked[0].seqNum == 1
    ensures k > 0 ==> l.rcv.acks != [] && Last(l.rcv.acks) == k
    ensures forall n :: HasNum(l.rcv.acks, n) ==> k - wr < n <= k
  {
    if k == 0 {
      l := Init();
      assert RunsTo(ws, wr, Init(), [], l);
    } else {
      var p := AllReadNoneAcked(ws, wr, k - 1);
      ReachableInv(ws, wr, p);
      l := OneMore(ws, wr, p);
    }
  }

  lemma OneMore(ws: int, wr: int, p: Link) returns (l: Link)
    requires 1 <= ws && 1 <= wr && Reachable(ws, wr, p) && Inv(p, ws, wr)
    requires p.snd.write == [] && p.snd.seqNum < ws && p.rcv.expected == p.snd.seqNum + 1 && p.rcv.read == []
    requires p.snd.seqNum > 0 ==> p.snd.unacked != [] && p.snd.unacked[0].seqNum == 1
    requires forall n :: HasNum(p.rcv.acks, n) ==> n <= p.snd.seqNum
    ensures Reachable(ws, wr, l)
    ensures l.snd.seqNum == p.snd.seqNum + 1 && l.snd.write == []
    ensures l.rcv.expected == l.snd.seqNum + 1 && l.rcv.read == []
    ensures l.snd.unacked != [] && l.snd.unacked[0].seqNum == 1
    ensures l.rcv.acks != [] && Last(l.rcv.acks) == l.snd.seqNum
    ensures forall n :: HasNum(l.rcv.acks, n) ==> l.snd.seqNum - wr < n <= l.snd.seqNum
  {
    var k := p.snd.seqNum + 1;
    var m := Data(k, []);
    Extend(ws, wr, p, Write([]));
    var l1 := Do(p, ws, wr, Write([]));
    SendNext(p.snd.unacked, m);
    assert m in ToSet([m]);
    Extend(ws, wr, l1, DeliverData(m));
    var l2 := Do(l1, ws, wr, DeliverData(m));
    if p.rcv.acks != [] { LastIsMax(p.rcv.acks); }
    AcksAfter(p.rcv.acks, k, wr);
    Extend(ws, wr, l2, Read);
    l := Do(l2, ws, wr, Read);
  }

  /** With a sender window larger than the receiver's, some run reads a message whose
      acknowledgement is no longer repeated while the sender still waits for it. */
  lemma NotRetained(ws: int, wr: int) returns (l: Link)
    requires 1 <= wr < ws
    ensures Reachable(ws, wr, l) && HasNum(l.snd.unacked, 1) && 1 < l.rcv.expected && !HasNum(l.rcv.acks, 1)
  {
    l := AllReadNoneAcked(ws, wr, wr + 1);
    assert l.snd.unacked[0].seqNum == 1;
  }

  /** The claim in the source comment, exactly: acknowledgements are retained in every
      reachable state if and only if the sender's window does not exceed the receiver's. */
  lemma RetentionExactly(ws: int, wr: int)
    requires ws >= 1 && wr >= 1
    ensures (forall l :: Reachable(ws, wr, l) ==> Retained(l)) <==> ws <= wr
  {
    if ws <= wr {
      forall l | Reachable(ws, wr, l) ensures Retained(l) { RetainedWhenWindowsFit(ws, wr, l); }
    } else {
      var l := NotRetained(ws, wr);
      assert Received(l.rcv, 1);
      assert !Retained(l);
    }
  }

  /** Once an acknowledgement below the expected number has left the buffer, no step of any
      later run sends it again: whatever copies are under way are the last ones. */
  lemma {:induction false} NeverAckedAgain(ws: int, wr: int, l: Link, n: int, run: seq<Step>, l': Link, step: Step)
    requires ws >= 1 && wr >= 1 && Inv(l, ws, wr)
    requires 1 <= n < l.rcv.expected && !HasNum(l.rcv.acks, n)
    requires RunsTo(ws, wr, l, run, l') && Enabled(l', step)
    ensures n < l'.rcv.expected && !HasNum(l'.rcv.acks, n)
    ensures n !in AcksSent(l', wr, step)
    decreases |run|
  {
    if run != [] {
      var k := |run| - 1;
      var p :| RunsTo(ws, wr, l, run[..k], p) && Next(p, ws, wr, run[k], l');
      NeverAckedAgain(ws, wr, l, n, run[..k], p, run[k]);
      RunKeeps(ws, wr, l, run[..k], p);
      match run[k] {
        case DeliverData(m) => if m.seqNum >= p.rcv.expected { AcksAfter(p.rcv.acks, m.seqNum, wr); }
        case _ =>
      }
    }
    NotSent(l', wr, n, step);
  }

  lemma NotSent(l: Link, wr: int, n: int, step: Step)
    requires 1 <= n < l.rcv.expected && !HasNum(l.rcv.acks, n)
    ensures n !in AcksSent(l, wr, step)
  {
    forall m | m in EpochAcks(l.rcv) ensures m.seqNum != n {
      if l.rcv.acks != [] { HasIt(l.rcv.acks, m); }
    }
    match step {
      case DeliverData(m) => assert forall a :: a in OnData(l.rcv, wr, m).1 ==> a.seqNum >= l.rcv.expected;
      case _ =>
    }
  }
}
