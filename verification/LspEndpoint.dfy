/** One endpoint of a live LSP connection. The client and each connection of the server
    run the same handlers; each endpoint has a sending and a receiving half, which share
    nothing but the connection. Handlers return the packets they put on the network. */
module LspEndpoint {
  import opened LspBuffer

  /** `write` waits for the window, `unacked` is sent and not yet acknowledged. */
  datatype Sender = Sender(seqNum: int, write: seq<Message>, unacked: seq<Message>)

  /** `read` waits for the reader, `acks` are the acknowledgements to repeat on every epoch. */
  datatype Receiver = Receiver(expected: int, read: seq<Message>, acks: seq<Message>)

  function OnWrite(s: Sender, window: int, payload: Payload): (Sender, seq<Message>) {
    var m := Data(s.seqNum + 1, payload);
    if s.write == [] && (s.unacked == [] || m.seqNum - window < s.unacked[0].seqNum) then
      (Sender(m.seqNum, s.write, Inserted(s.unacked, m)), [m])
    else
      (Sender(m.seqNum, Inserted(s.write, m), s.unacked), [])
  }

  /** Moves waiting messages into the window that starts at `left`. */
  function Slide(s: Sender, window: int, left: int): (Sender, seq<Message>)
    decreases |s.write|
  {
    if s.write == [] || s.write[0].seqNum - window >= left then (s, [])
    else
      var (s', out) := Slide(MoveOne(s), window, left);
      (s', [s.write[0]] + out)
  }

  function MoveOne(s: Sender): Sender
    requires s.write != []
  {
    s.(write := s.write[1..], unacked := Inserted(s.unacked, s.write[0]))
  }

  function OnAck(s: Sender, window: int, n: int): (Sender, seq<Message>) {
    var s1 := s.(unacked := Deleted(s.unacked, n));
    if !HasNum(s.unacked, n) || s.write == [] then (s1, [])
    else if s1.unacked != [] then Slide(s1, window, s1.unacked[0].seqNum)
    else
      var (s', out) := Slide(MoveOne(s1), window, s1.write[0].seqNum);
      (s', [s1.write[0]] + out)
  }

  function OnData(r: Receiver, window: int, m: Message): (Receiver, seq<Message>) {
    if m.seqNum >= r.expected then
      var acks := Inserted(r.acks, Ack(m.seqNum));
      (Receiver(r.expected, Inserted(r.read, m), if acks == [] then [] else Adjusted(acks, window)), [Ack(m.seqNum)])
    else (r, [])
  }

  predicate CanRead(r: Receiver) {
    r.read != [] && r.read[0].seqNum == r.expected && r.read[0].Data?
  }

  function OnRead(r: Receiver): (Receiver, Payload)
    requires CanRead(r)
  {
    (r.(expected := r.expected + 1, read := r.read[1..]), r.read[0].payload)
  }

  /** The acknowledgements repeated on an epoch; number 0 when no data has come yet. */
  function EpochAcks(r: Receiver): seq<Message> {
    if r.acks == [] then [Ack(0)] else r.acks
  }

  class Endpoint {
    const window: int
    const writeBuffer: Buffer
    const unAckedMsgBuffer: Buffer
    const latestAckBuffer: Buffer
    const readBuffer: Buffer
    var seqNum: int
    var expectedSeqNum: int

    ghost predicate Valid()
      reads this, writeBuffer, unAckedMsgBuffer, latestAckBuffer, readBuffer
    {
      && writeBuffer != unAckedMsgBuffer && writeBuffer != latestAckBuffer && writeBuffer != readBuffer
      && unAckedMsgBuffer != latestAckBuffer && unAckedMsgBuffer != readBuffer && latestAckBuffer != readBuffer
      && writeBuffer.Valid() && unAckedMsgBuffer.Valid() && latestAckBuffer.Valid() && readBuffer.Valid()
      && (forall m :: m in readBuffer.msgs ==> m.Data?)
    }

    ghost function Snd(): Sender
      reads this, writeBuffer, unAckedMsgBuffer
    {
      Sender(seqNum, writeBuffer.msgs, unAckedMsgBuffer.msgs)
    }

    ghost function Rcv(): Receiver
      reads this, readBuffer, latestAckBuffer
    {
      Receiver(expectedSeqNum, readBuffer.msgs, latestAckBuffer.msgs)
    }

    constructor (window: int)
      ensures Valid() && this.window == window
      ensures Snd() == Sender(0, [], []) && Rcv() == Receiver(1, [], [])
      ensures fresh(writeBuffer) && fresh(unAckedMsgBuffer) && fresh(latestAckBuffer) && fresh(readBuffer)
    {
      this.window := window;
      seqNum, expectedSeqNum := 0, 1;
      writeBuffer := new Buffer();
      unAckedMsgBuffer := new Buffer();
      latestAckBuffer := new Buffer();
      readBuffer := new Buffer();
    }

    method HandleWrite(payload: Payload) returns (out: seq<Message>)
      requires Valid()
      modifies this`seqNum, writeBuffer, unAckedMsgBuffer
      ensures Valid() && (Snd(), out) == OnWrite(old(Snd()), window, payload)
    {
      seqNum := seqNum + 1;
      var sentMsg := Data(seqNum, payload);
      if |writeBuffer.msgs| == 0 &&
         (|unAckedMsgBuffer.msgs| == 0 || sentMsg.seqNum - window < unAckedMsgBuffer.msgs[0].seqNum)
      {
        unAckedMsgBuffer.Insert(sentMsg);
        out := [sentMsg];
      } else {
        writeBuffer.Insert(sentMsg);
        out := [];
      }
    }

    method HandleAck(n: int) returns (out: seq<Message>)
      requires Valid()
      modifies writeBuffer, unAckedMsgBuffer
      ensures Valid() && (Snd(), out) == OnAck(old(Snd()), window, n)
    {
      out := [];
      var msgExist := unAckedMsgBuffer.Delete(n);
      if msgExist && |writeBuffer.msgs| > 0 {
        if |unAckedMsgBuffer.msgs| == 0 {
          var sentMsg := writeBuffer.Remove();
          unAckedMsgBuffer.Insert(sentMsg);
          out := [sentMsg];
        }
        var moved := MoveIntoWindow(unAckedMsgBuffer.msgs[0].seqNum);
        assert [] + moved == moved;
        out := out + moved;
      }
    }

    /** The loop of the acknowledgement handler. */
    method MoveIntoWindow(wLeft: int) returns (out: seq<Message>)
      requires Valid()
      modifies writeBuffer, unAckedMsgBuffer
      ensures Valid() && (Snd(), out) == Slide(old(Snd()), window, wLeft)
    {
      out := [];
      ghost var first := Snd();
      while |writeBuffer.msgs| != 0
        invariant Valid()
        invariant Slide(first, window, wLeft).0 == Slide(Snd(), window, wLeft).0
        invariant Slide(first, window, wLeft).1 == out + Slide(Snd(), window, wLeft).1
        decreases |writeBuffer.msgs|
      {
        if writeBuffer.msgs[0].seqNum - window >= wLeft { break; }
        ghost var here := Snd();
        var sentMsg := writeBuffer.Remove();
        unAckedMsgBuffer.Insert(sentMsg);
        assert Snd() == MoveOne(here);
        assert out + ([sentMsg] + Slide(Snd(), window, wLeft).1) == (out + [sentMsg]) + Slide(Snd(), window, wLeft).1;
        out := out + [sentMsg];
      }
      assert out + [] == out;
    }

    method HandleData(m: Message) returns (out: seq<Message>)
      requires Valid() && m.Data?
      modifies latestAckBuffer, readBuffer
      ensures Valid() && (Rcv(), out) == OnData(old(Rcv()), window, m)
    {
      out := [];
      if m.seqNum >= expectedSeqNum {
        InsertedFacts(readBuffer.msgs, m);
        readBuffer.Insert(m);
        var ackMsg := Ack(m.seqNum);
        out := [ackMsg];
        InsertedFacts(latestAckBuffer.msgs, ackMsg);
        latestAckBuffer.Insert(ackMsg);
        assert HasNum(latestAckBuffer.msgs, m.seqNum);
        latestAckBuffer.AdjustUsingWindow(window);
      }
    }

    /** Returns the payload that is next in order, if it is there; otherwise the request
        waits (or fails, once the connection is lost) and nothing changes. */
    method HandleRead() returns (ok: bool, payload: Payload)
      requires Valid()
      modifies this`expectedSeqNum, readBuffer
      ensures Valid() && ok == old(CanRead(Rcv()))
      ensures ok ==> (Rcv(), payload) == OnRead(old(Rcv()))
      ensures !ok ==> Rcv() == old(Rcv())
    {
      if |readBuffer.msgs| == 0 || readBuffer.msgs[0].seqNum != expectedSeqNum {
        ok, payload := false, [];
      } else {
        assert readBuffer.msgs[0] in readBuffer.msgs;
        var m := readBuffer.Remove();
        expectedSeqNum := expectedSeqNum + 1;
        ok, payload := true, m.payload;
      }
    }

    method HandleEpoch() returns (out: seq<Message>)
      requires Valid()
      ensures out == (if Rcv().acks == [] then [Ack(0)] else []) + Snd().unacked + Rcv().acks
      ensures forall m :: m in out <==> m in Snd().unacked || m in EpochAcks(Rcv())
    {
      out := [];
      if |latestAckBuffer.msgs| == 0 { out := [Ack(0)]; }
      var unAcked := unAckedMsgBuffer.ReturnAll();
      var latest := latestAckBuffer.ReturnAll();
      out := out + unAcked + latest;
    }
  }
}
