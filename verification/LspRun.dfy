/** One direction of a live LSP connection: a sending half with window `ws`, a receiving
    half with window `wr`, and a network that may drop, repeat, delay and reorder. Whatever
    was ever sent stays available for delivery; a message that is never delivered is lost. */
module LspRun {
  import opened LspBuffer
  import opened LspEndpoint

  /** `written` and `delivered` are the payloads accepted by writes and returned by reads,
      `acked` the numbers whose acknowledgement the sender has processed, and `arrived` those
      that have reached the receiver. */
  datatype Link = Link(written: seq<Payload>, snd: Sender, acked: set<int>,
                       rcv: Receiver, delivered: seq<Payload>, arrived: set<int>,
                       dataNet: set<Message>, ackNet: set<int>)

  datatype Step =
    | Write(payload: Payload)
    | Read
    | DeliverData(m: Message)
    | DeliverAck(n: int)
    | SenderEpoch
    | ReceiverEpoch

  ghost function Init(): Link {
    Link([], Sender(0, [], []), {}, Receiver(1, [], []), [], {}, {}, {})
  }

  ghost function ToSet(out: seq<Message>): set<Message> {
    set m | m in out
  }

  ghost function AckNums(out: seq<Message>): set<int> {
    set m | m in out :: m.seqNum
  }

  ghost predicate Enabled(l: Link, step: Step) {
    match step
    case Read => CanRead(l.rcv)
    case DeliverData(m) => m in l.dataNet
    case DeliverAck(n) => n in l.ackNet
    case _ => true
  }

  /** The numbers a step acknowledges on the network. */
  ghost function AcksSent(l: Link, wr: int, step: Step): set<int> {
    match step
    case DeliverData(m) => AckNums(OnData(l.rcv, wr, m).1)
    case ReceiverEpoch => AckNums(EpochAcks(l.rcv))
    case _ => {}
  }

  ghost function Do(l: Link, ws: int, wr: int, step: Step): Link
    requires Enabled(l, step)
  {
    var sent := AcksSent(l, wr, step);
    match step
    case Write(p) =>
      var (s, out) := OnWrite(l.snd, ws, p);
      l.(written := l.written + [p], snd := s, dataNet := l.dataNet + ToSet(out))
    case Read =>
      var (r, p) := OnRead(l.rcv);
      l.(rcv := r, delivered := l.delivered + [p])
    case DeliverData(m) =>
      l.(rcv := OnData(l.rcv, wr, m).0, arrived := l.arrived + {m.seqNum}, ackNet := l.ackNet + sent)
    case DeliverAck(n) =>
      var (s, out) := OnAck(l.snd, ws, n);
      l.(snd := s, dataNet := l.dataNet + ToSet(out), acked := l.acked + if HasNum(l.snd.unacked, n) then {n} else {})
    case SenderEpoch => l.(dataNet := l.dataNet + ToSet(l.snd.unacked))
    case ReceiverEpoch => l.(ackNet := l.ackNet + sent)
  }

  ghost predicate Next(l: Link, ws: int, wr: int, step: Step, l': Link) {
    Enabled(l, step) && l' == Do(l, ws, wr, step)
  }

  ghost predicate RunsTo(ws: int, wr: int, l: Link, run: seq<Step>, l': Link)
    decreases |run|
  {
    if run == [] then l' == l
    else
      var k := |run| - 1;
      exists p :: RunsTo(ws, wr, l, run[..k], p) && Next(p, ws, wr, run[k], l')
  }

  ghost predicate Reachable(ws: int, wr: int, l: Link) {
    exists run :: RunsTo(ws, wr, Init(), run, l)
  }

  // ---------- the invariant ----------

  /** The highest number sent so far. */
  ghost function Top(s: Sender): int { s.seqNum - |s.write| }

  ghost predicate Genuine(written: seq<Payload>, m: Message) {
    m.Data? && 1 <= m.seqNum <= |written| && m.payload == written[m.seqNum - 1]
  }

  ghost predicate SenderOk(s: Sender, ws: int, written: seq<Payload>, net: set<Message>) {
    && s.seqNum == |written| && 0 <= Top(s)
    && Sorted(s.unacked)
    && (forall i :: 0 <= i < |s.write| ==> s.write[i].seqNum == Top(s) + 1 + i && Genuine(written, s.write[i]))
    && (forall m :: m in s.unacked ==> Top(s) - ws < m.seqNum <= Top(s) && m in net)
    && (forall m :: m in net ==> m.seqNum <= Top(s) && Genuine(written, m))
  }

  /** Nothing that fits the window is held back. */
  ghost predicate WindowFull(s: Sender, ws: int) {
    s.write != [] ==> s.unacked != [] && s.write[0].seqNum - ws >= s.unacked[0].seqNum
  }

  ghost predicate Received(r: Receiver, n: int) {
    1 <= n < r.expected || HasNum(r.read, n)
  }

  ghost predicate ReceiverOk(r: Receiver, top: int, net: set<Message>) {
    && 1 <= r.expected <= top + 1
    && Sorted(r.read) && (forall m :: m in r.read ==> r.expected <= m.seqNum && m in net)
    && Sorted(r.acks)
  }

  /** The acknowledgements on repeat are those of the last `wr` numbers up to the highest received. */
  ghost predicate AcksOk(r: Receiver, wr: int) {
    && (forall n :: HasNum(r.acks, n) ==> Received(r, n))
    && (forall n :: Received(r, n) ==>
          r.acks != [] && n <= Last(r.acks) && (n > Last(r.acks) - wr ==> HasNum(r.acks, n)))
  }

  ghost function Last(s: seq<Message>): int
    requires s != []
  {
    s[|s| - 1].seqNum
  }

  ghost predicate Accounted(l: Link) {
    && (forall n :: n in l.ackNet ==> n == 0 || Received(l.rcv, n))
    && (forall n :: n in l.acked ==> 1 <= n <= Top(l.snd) && Received(l.rcv, n) && !HasNum(l.snd.unacked, n))
    && (forall n :: 1 <= n <= Top(l.snd) ==> n in l.acked || HasNum(l.snd.unacked, n))
  }

  ghost predicate Inv(l: Link, ws: int, wr: int) {
    && SenderOk(l.snd, ws, l.written, l.dataNet)
    && WindowFull(l.snd, ws)
    && ReceiverOk(l.rcv, Top(l.snd), l.dataNet)
    && AcksOk(l.rcv, wr)
    && l.delivered == l.written[..l.rcv.expected - 1]
    && Accounted(l)
  }

  // ---------- the sending half ----------

  lemma NumInRange(s: seq<Message>, n: int, lo: int, hi: int)
    requires forall m :: m in s ==> lo <= m.seqNum <= hi
    ensures HasNum(s, n) ==> lo <= n <= hi
  {
    if HasNum(s, n) {
      var i :| 0 <= i < |s| && s[i].seqNum == n;
      assert s[i] in s;
    }
  }

  /** Sending the next unsent number: it goes to the end of the unacked buffer. */
  lemma SendNext(unacked: seq<Message>, m: Message)
    requires Sorted(unacked) && (forall x :: x in unacked ==> x.seqNum < m.seqNum)
    ensures Inserted(unacked, m) == unacked + [m] && Sorted(unacked + [m])
    ensures forall n :: HasNum(unacked + [m], n) <==> HasNum(unacked, n) || n == m.seqNum
  {
    forall k | 0 <= k < |unacked| ensures unacked[k].seqNum < m.seqNum { assert unacked[k] in unacked; }
    InsertedAt(unacked, m, |unacked|);
    InsertedFacts(unacked, m);
  }

  lemma MoveOneKeeps(s: Sender, ws: int, written: seq<Payload>, net: set<Message>)
    requires SenderOk(s, ws, written, net) && s.write != []
    requires forall m :: m in s.unacked ==> Top(s) + 1 - ws < m.seqNum
    requires ws >= 1
    ensures SenderOk(MoveOne(s), ws, written, net + {s.write[0]})
    ensures Top(MoveOne(s)) == Top(s) + 1 == s.write[0].seqNum
    ensures MoveOne(s).unacked == s.unacked + [s.write[0]]
    ensures forall n :: HasNum(MoveOne(s).unacked, n) <==> HasNum(s.unacked, n) || n == Top(s) + 1
  {
    SendNext(s.unacked, s.write[0]);
  }

  lemma {:induction false} SlideKeeps(s: Sender, ws: int, left: int, written: seq<Payload>, net: set<Message>)
    requires SenderOk(s, ws, written, net) && ws >= 1 && s.unacked != [] && s.unacked[0].seqNum == left
    ensures var (s', out) := Slide(s, ws, left);
      && SenderOk(s', ws, written, net + ToSet(out))
      && WindowFull(s', ws)
      && Top(s) <= Top(s')
      && (forall n :: HasNum(s'.unacked, n) <==> HasNum(s.unacked, n) || Top(s) < n <= Top(s'))
    decreases |s.write|
  {
    if s.write == [] || s.write[0].seqNum - ws >= left {
      assert net + ToSet([]) == net;
    } else {
      forall i | 0 <= i < |s.unacked| ensures left <= s.unacked[i].seqNum {
        assert i > 0 ==> s.unacked[0].seqNum < s.unacked[i].seqNum;
      }
      MoveOneKeeps(s, ws, written, net);
      var s1 := MoveOne(s);
      SlideKeeps(s1, ws, left, written, net + {s.write[0]});
      var out1 := Slide(s1, ws, left).1;
      assert net + {s.write[0]} + ToSet(out1) == net + ToSet([s.write[0]] + out1);
    }
  }

  lemma OnWriteOk(s: Sender, ws: int, written: seq<Payload>, net: set<Message>, p: Payload)
    requires SenderOk(s, ws, written, net) && WindowFull(s, ws) && ws >= 1
    ensures var (s', out) := OnWrite(s, ws, p);
      && SenderOk(s', ws, written + [p], net + ToSet(out))
      && WindowFull(s', ws)
      && Top(s) <= Top(s')
      && (forall n :: HasNum(s'.unacked, n) <==> HasNum(s.unacked, n) || Top(s) < n <= Top(s'))
  {
    var m := Data(s.seqNum + 1, p);
    if s.write == [] && (s.unacked == [] || m.seqNum - ws < s.unacked[0].seqNum) {
      WriteSends(s, ws, written, net, m);
    } else {
      WriteWaits(s, ws, written, net, m);
      assert net + ToSet([]) == net;
    }
  }

  lemma WriteSends(s: Sender, ws: int, written: seq<Payload>, net: set<Message>, m: Message)
    requires SenderOk(s, ws, written, net) && ws >= 1 && m.Data? && m.seqNum == s.seqNum + 1
    requires s.write == [] && (s.unacked == [] || m.seqNum - ws < s.unacked[0].seqNum)
    ensures var s' := Sender(m.seqNum, [], Inserted(s.unacked, m));
      && SenderOk(s', ws, written + [m.payload], net + ToSet([m]))
      && (forall n :: HasNum(s'.unacked, n) <==> HasNum(s.unacked, n) || n == m.seqNum)
  {
    forall x | x in s.unacked ensures m.seqNum - ws < x.seqNum < m.seqNum {
      var i :| 0 <= i < |s.unacked| && s.unacked[i] == x;
      assert i > 0 ==> s.unacked[0].seqNum < s.unacked[i].seqNum;
    }
    SendNext(s.unacked, m);
    assert ToSet([m]) == {m};
  }

  lemma WriteWaits(s: Sender, ws: int, written: seq<Payload>, net: set<Message>, m: Message)
    requires SenderOk(s, ws, written, net) && WindowFull(s, ws) && m.Data? && m.seqNum == s.seqNum + 1
    requires s.write != [] || (s.unacked != [] && m.seqNum - ws >= s.unacked[0].seqNum)
    ensures var s' := Sender(m.seqNum, Inserted(s.write, m), s.unacked);
      SenderOk(s', ws, written + [m.payload], net) && WindowFull(s', ws) && Top(s') == Top(s)
  {
    InsertedAt(s.write, m, |s.write|);
    assert s.write[..|s.write|] == s.write && s.write[|s.write|..] == [] && s.write + [m] + [] == s.write + [m];
    QueueGrows(s.write, Top(s), written, m);
    forall x | x in net ensures Genuine(written + [m.payload], x) { GenuineGrows(written, m.payload, x); }
  }

  lemma QueueGrows(write: seq<Message>, top: int, written: seq<Payload>, m: Message)
    requires m.Data? && m.seqNum == top + |write| + 1 == |written| + 1 && 0 <= top
    requires forall i :: 0 <= i < |write| ==> write[i].seqNum == top + 1 + i && Genuine(written, write[i])
    ensures var q := write + [m];
      forall i :: 0 <= i < |q| ==> q[i].seqNum == top + 1 + i && Genuine(written + [m.payload], q[i])
  {
    var q := write + [m];
    forall i | 0 <= i < |q| ensures q[i].seqNum == top + 1 + i && Genuine(written + [m.payload], q[i]) {
      if i < |write| { GenuineGrows(written, m.payload, write[i]); }
    }
  }

  lemma GenuineGrows(written: seq<Payload>, p: Payload, x: Message)
    requires Genuine(written, x)
    ensures Genuine(written + [p], x)
  {
  }

  lemma OnAckOk(s: Sender, ws: int, written: seq<Payload>, net: set<Message>, n: int)
    requires SenderOk(s, ws, written, net) && WindowFull(s, ws) && ws >= 1
    ensures var (s', out) := OnAck(s, ws, n);
      && SenderOk(s', ws, written, net + ToSet(out))
      && WindowFull(s', ws)
      && Top(s) <= Top(s')
      && (forall k :: HasNum(s'.unacked, k) <==> (HasNum(s.unacked, k) && k != n) || Top(s) < k <= Top(s'))
  {
    var s1 := s.(unacked := Deleted(s.unacked, n));
    DeleteOk(s, ws, written, net, n);
    if !HasNum(s.unacked, n) || s.write == [] {
      assert OnAck(s, ws, n) == (s1, []);
      assert net + ToSet([]) == net;
    } else if s1.unacked != [] {
      SlideKeeps(s1, ws, s1.unacked[0].seqNum, written, net);
    } else {
      RestartWindow(s1, ws, written, net);
    }
  }

  lemma DeleteOk(s: Sender, ws: int, written: seq<Payload>, net: set<Message>, n: int)
    requires SenderOk(s, ws, written, net) && WindowFull(s, ws)
    ensures var s1 := s.(unacked := Deleted(s.unacked, n));
      && SenderOk(s1, ws, written, net)
      && (!HasNum(s.unacked, n) || s.write == [] ==> WindowFull(s1, ws))
      && (forall k :: HasNum(s1.unacked, k) <==> HasNum(s.unacked, k) && k != n)
  {
    DeletedFacts(s.unacked, n);
  }

  /** The last unacked message was acknowledged: the window restarts at the first waiting one. */
  lemma RestartWindow(s: Sender, ws: int, written: seq<Payload>, net: set<Message>)
    requires SenderOk(s, ws, written, net) && ws >= 1 && s.unacked == [] && s.write != []
    ensures var (s', out) := Slide(MoveOne(s), ws, s.write[0].seqNum);
      && SenderOk(s', ws, written, net + ToSet([s.write[0]] + out))
      && WindowFull(s', ws)
      && Top(s) <= Top(s')
      && (forall k :: HasNum(s'.unacked, k) <==> Top(s) < k <= Top(s'))
  {
    MoveOneKeeps(s, ws, written, net);
    SlideKeeps(MoveOne(s), ws, s.write[0].seqNum, written, net + {s.write[0]});
    var out := Slide(MoveOne(s), ws, s.write[0].seqNum).1;
    assert net + {s.write[0]} + ToSet(out) == net + ToSet([s.write[0]] + out);
  }

  lemma WriteKeeps(l: Link, ws: int, wr: int, p: Payload)
    requires Inv(l, ws, wr) && ws >= 1
    ensures Inv(Do(l, ws, wr, Write(p)), ws, wr)
  {
    var l' := Do(l, ws, wr, Write(p));
    OnWriteOk(l.snd, ws, l.written, l.dataNet, p);
    assert l.written[..l.rcv.expected - 1] == l'.written[..l.rcv.expected - 1];
    assert Accounted(l');
  }

  lemma DeliverAckKeeps(l: Link, ws: int, wr: int, n: int)
    requires Inv(l, ws, wr) && ws >= 1 && Enabled(l, DeliverAck(n))
    ensures Inv(Do(l, ws, wr, DeliverAck(n)), ws, wr)
  {
    var l' := Do(l, ws, wr, DeliverAck(n));
    OnAckOk(l.snd, ws, l.written, l.dataNet, n);
    if HasNum(l.snd.unacked, n) { NumInRange(l.snd.unacked, n, 1, Top(l.snd)); }
    assert Accounted(l');
  }

  lemma EpochsKeep(l: Link, ws: int, wr: int)
    requires Inv(l, ws, wr)
    ensures Inv(Do(l, ws, wr, SenderEpoch), ws, wr) && Inv(Do(l, ws, wr, ReceiverEpoch), ws, wr)
  {
    assert l.dataNet + ToSet(l.snd.unacked) == l.dataNet;
    forall n | n in AckNums(EpochAcks(l.rcv)) ensures n == 0 || Received(l.rcv, n) {
      var m :| m in EpochAcks(l.rcv) && m.seqNum == n;
      if l.rcv.acks != [] {
        var i :| 0 <= i < |l.rcv.acks| && l.rcv.acks[i] == m;
        assert HasNum(l.rcv.acks, n);
      }
    }
  }

  // ---------- the receiving half ----------

  lemma ReadKeeps(l: Link, ws: int, wr: int)
    requires Inv(l, ws, wr) && Enabled(l, Read)
    ensures Inv(Do(l, ws, wr, Read), ws, wr)
  {
    var l', r := Do(l, ws, wr, Read), l.rcv;
    assert r.read[0] in r.read && Genuine(l.written, r.read[0]);
    SplitHead(r.read);
    assert forall n :: Received(l'.rcv, n) <==> Received(r, n);
    assert l.written[..r.expected] == l.written[..r.expected - 1] + [l.written[r.expected - 1]];
    forall m | m in l'.rcv.read ensures r.expected < m.seqNum {
      var i :| 0 <= i < |l'.rcv.read| && l'.rcv.read[i] == m;
      assert r.read[i + 1] == m;
    }
  }

  lemma OnDataOk(r: Receiver, wr: int, top: int, net: set<Message>, m: Message)
    requires ReceiverOk(r, top, net) && AcksOk(r, wr) && wr >= 1 && m in net && m.seqNum >= r.expected
    ensures var r' := OnData(r, wr, m).0;
      && ReceiverOk(r', top, net) && AcksOk(r', wr)
      && (forall n :: Received(r', n) <==> Received(r, n) || n == m.seqNum)
  {
    var r' := OnData(r, wr, m).0;
    InsertedFacts(r.read, m);
    AcksAfter(r.acks, m.seqNum, wr);
    assert forall n :: Received(r', n) <==> Received(r, n) || n == m.seqNum;
    if r.acks != [] { LastIsMax(r.acks); }
  }

  lemma LastAfterInsert(acks: seq<Message>, n: int)
    requires Sorted(acks)
    ensures var a := Inserted(acks, Ack(n));
      a != [] && Last(a) == if acks == [] || Last(acks) < n then n else Last(acks)
  {
    var a := Inserted(acks, Ack(n));
    InsertedFacts(acks, Ack(n));
    assert HasNum(a, n);
    LastIsMax(a);
    if acks != [] {
      LastIsMax(acks);
      assert HasNum(a, Last(acks));
    }
  }

  /** Recording one more acknowledgement and adjusting to the window. */
  lemma AcksAfter(acks: seq<Message>, n: int, wr: int)
    requires Sorted(acks) && wr >= 1
    ensures Inserted(acks, Ack(n)) != []
    ensures var a' := Adjusted(Inserted(acks, Ack(n)), wr);
      && Sorted(a') && a' != []
      && (Last(a') == if acks == [] || Last(acks) < n then n else Last(acks))
      && (forall k :: HasNum(a', k) <==> (HasNum(acks, k) || k == n) && k > Last(a') - wr)
  {
    LastAfterInsert(acks, n);
    InsertedFacts(acks, Ack(n));
    Clipped(Inserted(acks, Ack(n)), wr);
  }

  lemma Clipped(a: seq<Message>, wr: int)
    requires Sorted(a) && a != [] && wr >= 1
    ensures var a' := Adjusted(a, wr);
      && Sorted(a') && a' != [] && Last(a') == Last(a)
      && (forall k :: HasNum(a', k) <==> HasNum(a, k) && k > Last(a) - wr)
  {
    DroppedFacts(a, Last(a) - wr + 1);
    AdjustedKeepsLast(a, Last(a) - wr + 1);
  }

  lemma LastIsMax(s: seq<Message>)
    requires Sorted(s) && s != []
    ensures HasNum(s, Last(s)) && forall n :: HasNum(s, n) ==> n <= Last(s)
  {
    assert s[|s| - 1].seqNum == Last(s);
  }

  lemma DeliverDataKeeps(l: Link, ws: int, wr: int, m: Message)
    requires Inv(l, ws, wr) && wr >= 1 && Enabled(l, DeliverData(m))
    ensures Inv(Do(l, ws, wr, DeliverData(m)), ws, wr)
  {
    var l' := Do(l, ws, wr, DeliverData(m));
    if m.seqNum >= l.rcv.expected {
      OnDataOk(l.rcv, wr, Top(l.snd), l.dataNet, m);
      assert AckNums([Ack(m.seqNum)]) == {m.seqNum} by { assert Ack(m.seqNum) in [Ack(m.seqNum)]; }
      assert Accounted(l');
    }
  }

  lemma StepKeeps(l: Link, ws: int, wr: int, step: Step)
    requires Inv(l, ws, wr) && ws >= 1 && wr >= 1 && Enabled(l, step)
    ensures Inv(Do(l, ws, wr, step), ws, wr)
  {
    match step
    case Write(p) => WriteKeeps(l, ws, wr, p);
    case Read => ReadKeeps(l, ws, wr);
    case DeliverData(m) => DeliverDataKeeps(l, ws, wr, m);
    case DeliverAck(n) => DeliverAckKeeps(l, ws, wr, n);
    case SenderEpoch => EpochsKeep(l, ws, wr);
    case ReceiverEpoch => EpochsKeep(l, ws, wr);
  }

  lemma {:induction false} RunKeeps(ws: int, wr: int, l: Link, run: seq<Step>, l': Link)
    requires Inv(l, ws, wr) && ws >= 1 && wr >= 1 && RunsTo(ws, wr, l, run, l')
    ensures Inv(l', ws, wr)
    decreases |run|
  {
    if run != [] {
      var k := |run| - 1;
      var p :| RunsTo(ws, wr, l, run[..k], p) && Next(p, ws, wr, run[k], l');
      RunKeeps(ws, wr, l, run[..k], p);
      StepKeeps(p, ws, wr, run[k]);
    }
  }

  lemma ReachableInv(ws: int, wr: int, l: Link)
    requires ws >= 1 && wr >= 1 && Reachable(ws, wr, l)
    ensures Inv(l, ws, wr)
  {
    var run :| RunsTo(ws, wr, Init(), run, l);
    RunKeeps(ws, wr, Init(), run, l);
  }
}
