/** One airline server: the six operation helpers and the replay loop that carries an
    operation through the Paxos log. The replies of the server's own Paxos instance are
    parameters, given in the order in which the call consumes them. */
module AirlineServer {
  import opened Airline

  /** One answer of Paxos Status for the current slot. */
  datatype StatusReply = Locked | Open | DecidedAs(op: Op)

  datatype CallOutcome =
    | Returned(result: Result)
    | Failed             // Start or Status reported that the cluster is locked
    | Waiting            // the replies end here; the call is still blocked

  /** The operations that the given replies report as decided, in order. */
  function Decisions(replies: seq<StatusReply>): seq<Op> {
    if replies == [] then []
    else
      var k := |replies| - 1;
      Decisions(replies[..k]) + if replies[k].DecidedAs? then [replies[k].op] else []
  }

  /** None of the first `n` Status replies is a lock. */
  predicate NoLock(replies: seq<StatusReply>, n: nat)
    requires n <= |replies|
  {
    forall k :: 0 <= k < n ==> !replies[k].Locked?
  }

  /** None of the first `n` calls of Start is refused. */
  predicate AllStarted(starts: seq<bool>, n: nat)
    requires n <= |starts|
  {
    forall k :: 0 <= k < n ==> starts[k]
  }

  class Server {
    var currSlotNum: nat
    var reservedFlights: map<string, seq<FlightInfo>>
    var flightStatus: map<FlightKey, int>

    constructor ()
      ensures currSlotNum == 0 && Abs() == EMPTY
    {
      currSlotNum, reservedFlights, flightStatus := 0, map[], map[];
    }

    function Abs(): State
      reads this
    {
      State(reservedFlights, flightStatus)
    }

    method MyReservationHelper(op: Op) returns (r: seq<FlightInfo>)
      ensures r == Live(flightStatus, Account(Abs(), op.userName))
    {
      r := [];
      if op.userName !in reservedFlights { return; }
      var flights := reservedFlights[op.userName];
      var i := 0;
      while i < |flights|
        invariant 0 <= i <= |flights|
        invariant r == Live(flightStatus, flights[..i])
      {
        assert flights[..i + 1][..i] == flights[..i];
        if KeyOf(flights[i]) in flightStatus { r := r + [flights[i]]; }
        i := i + 1;
      }
      assert flights[..i] == flights;
    }

    method CheckTicketsHelper(op: Op) returns (r: seq<FlightInfo>)
      ensures r == Available(flightStatus, op.flightId, op.startDate, op.endDate)
    {
      r := [];
      var queryDate := op.startDate;
      while queryDate <= op.endDate
        invariant op.startDate <= queryDate && (queryDate == op.startDate || queryDate <= op.endDate + 1)
        invariant r == Available(flightStatus, op.flightId, op.startDate, queryDate - 1)
        decreases op.endDate - queryDate + 1
      {
        var query := FlightKey(op.flightId, queryDate);
        if query in flightStatus && flightStatus[query] > 0 {
          r := r + [FlightInfo(op.flightId, queryDate, flightStatus[query])];
        }
        queryDate := queryDate + 1;
      }
    }

    method ReserveTicketHelper(op: Op) returns (ok: bool)
      requires op.kind.ReserveTicket?
      modifies this`reservedFlights, this`flightStatus
      ensures (Abs(), Status(ok)) == Apply(old(Abs()), op)
    {
      var query := FlightKey(op.flightId, op.startDate);
      if query in flightStatus && flightStatus[query] > 0 {
        flightStatus := flightStatus[query := flightStatus[query] - 1];
        var account := if op.userName in reservedFlights then reservedFlights[op.userName] else [];
        reservedFlights := reservedFlights[op.userName := account + [FlightInfo(op.flightId, op.startDate, 0)]];
        ok := true;
      } else {
        ok := false;
      }
    }

    method AddFlightHelper(op: Op) returns (ok: bool)
      requires op.kind.AddFlight?
      modifies this`flightStatus
      ensures (Abs(), Status(ok)) == Apply(old(Abs()), op)
    {
      var added := FlightKey(op.flightId, op.startDate);
      ok := added !in flightStatus;
      if ok { flightStatus := flightStatus[added := op.ticketNum]; }
    }

    method CancelFlightHelper(op: Op) returns (ok: bool)
      requires op.kind.CancelFlight?
      modifies this`flightStatus
      ensures (Abs(), Status(ok)) == Apply(old(Abs()), op)
    {
      var deleted := FlightKey(op.flightId, op.startDate);
      ok := deleted in flightStatus;
      if ok { flightStatus := flightStatus - {deleted}; }
    }

    method EditFlightHelper(op: Op) returns (ok: bool)
      requires op.kind.EditFlight?
      modifies this`flightStatus
      ensures (Abs(), Status(ok)) == Apply(old(Abs()), op)
    {
      var edited := FlightKey(op.flightId, op.startDate);
      ok := edited in flightStatus;
      if ok { flightStatus := flightStatus[edited := op.ticketNum]; }
    }

    /** Executes a decided operation. Queries of other callers are skipped and leave the
        old return value in place. */
    method Execute(decided: Op, mine: bool, retVal: Result) returns (r: Result)
      modifies this`reservedFlights, this`flightStatus
      ensures Abs() == Apply(old(Abs()), decided).0
      ensures r == if IsCommand(decided) || (mine && !decided.kind.NoOp?) then Apply(old(Abs()), decided).1 else retVal
    {
      r := retVal;
      match decided.kind {
        case MyReservation => if mine { var fs := MyReservationHelper(decided); r := Flights(fs); }
        case CheckTickets => if mine { var fs := CheckTicketsHelper(decided); r := Flights(fs); }
        case ReserveTicket => var ok := ReserveTicketHelper(decided); r := Status(ok);
        case AddFlight => var ok := AddFlightHelper(decided); r := Status(ok);
        case CancelFlight => var ok := CancelFlightHelper(decided); r := Status(ok);
        case EditFlight => var ok := EditFlightHelper(decided); r := Status(ok);
        case NoOp =>
      }
    }

    /** Carries `op` through the log. `replayed` lists the decided operations executed,
        `calls` the slots of the calls of Start, and `used` counts the Status replies consumed. */
    method AddPaxosLogAndUpdateState(op: Op, replies: seq<StatusReply>, starts: seq<bool>)
      returns (outcome: CallOutcome, replayed: seq<Op>, calls: seq<nat>, used: nat)
      modifies this
      ensures used <= |replies| && replayed == Decisions(replies[..used])
      ensures currSlotNum == old(currSlotNum) + |replayed|
      ensures Abs() == Replay(old(Abs()), replayed)
      // every slot passed holds another operation, except the last one of a call that returns
      ensures forall k :: 0 <= k < |replayed| && replayed[k] == op ==> outcome.Returned? && k == |replayed| - 1
      ensures outcome.Returned? ==> replayed != [] && replayed[|replayed| - 1] == op
      ensures outcome.Returned? && !op.kind.NoOp? ==>
        outcome.result == Apply(Replay(old(Abs()), replayed[..|replayed| - 1]), op).1
      // Start is called once per open answer, on the slot that was found open
      ensures |calls| <= |starts|
      ensures !outcome.Waiting? ==> calls == OpenSlots(old(currSlotNum), replies[..used])
      ensures outcome.Waiting? ==>
        var open := OpenSlots(old(currSlotNum), replies[..used]);
        Unanswered(open, calls, currSlotNum, used == |replies|, |calls| == |starts|)
      ensures outcome.Failed? <==> !(NoLock(replies, used) && AllStarted(starts, |calls|))
    {
      replayed, calls, outcome, used := [], [], Waiting, 0;
      var retVal, first := Nothing, currSlotNum;
      while outcome == Waiting && used < |replies|
        invariant used <= |replies| && |calls| <= |starts|
        invariant replayed == Decisions(replies[..used]) && calls == OpenSlots(old(currSlotNum), replies[..used])
        invariant currSlotNum == old(currSlotNum) + |replayed|
        invariant Abs() == Replay(old(Abs()), replayed)
        invariant forall k :: 0 <= k < |replayed| && replayed[k] == op ==> outcome.Returned? && k == |replayed| - 1
        invariant outcome.Returned? ==> replayed != [] && replayed[|replayed| - 1] == op
        invariant outcome.Returned? && !op.kind.NoOp? ==>
          outcome.result == Apply(Replay(old(Abs()), replayed[..|replayed| - 1]), op).1
        invariant NoLock(replies, used) && AllStarted(starts, |calls|) && !outcome.Failed?
      {
        var reply;
        reply, used, calls := AwaitDecision(first, currSlotNum, replies, starts, used, calls);
        if reply.DecidedAs? {
          var decidedOp := reply.op;
          currSlotNum := currSlotNum + 1;
          retVal := Execute(decidedOp, op == decidedOp, retVal);
          replayed := replayed + [decidedOp];
          assert replayed[..|replayed| - 1] + [decidedOp] == replayed;
          if op == decidedOp { outcome := Returned(retVal); }
        } else {
          if reply.Locked? { outcome := Failed; }
          break;
        }
      }
    }
  }

  /** The slots that the replies found open, one per open answer, when the first reply is about `slot`. */
  function OpenSlots(slot: nat, replies: seq<StatusReply>): seq<nat> {
    if replies == [] then []
    else
      var k := |replies| - 1;
      OpenSlots(slot, replies[..k]) + if replies[k].Open? then [slot + |Decisions(replies[..k])|] else []
  }

  /** The replies ended, or the last open answer, for `slot`, still waits for its Start. */
  ghost predicate Unanswered(open: seq<nat>, calls: seq<nat>, slot: nat, noReplies: bool, noStarts: bool) {
    (noReplies && open == calls) || (noStarts && open == calls + [slot])
  }

  /** All replies of this call before number `used' - 1` were open, and Start was called for each. */
  ghost predicate Asking(first: nat, slot: nat, replies: seq<StatusReply>, starts: seq<bool>, used: nat,
        used': nat, calls': seq<nat>)
  {
    && used < used' <= |replies| && |calls'| <= |starts|
    && Decisions(replies[..used' - 1]) == Decisions(replies[..used]) && slot == first + |Decisions(replies[..used])|
    && OpenSlots(first, replies[..used' - 1]) == calls'
    && NoLock(replies, used' - 1) && AllStarted(starts, |calls'|)
  }

  /** What the call comes to: the slot's decision, a lock of Status or of Start, or `Open` when
      the replies end. */
  ghost predicate Answers(first: nat, slot: nat, replies: seq<StatusReply>, starts: seq<bool>, used: nat,
        reply: StatusReply, used': nat, calls': seq<nat>)
  {
    && used < used' <= |replies| && |calls'| <= |starts|
    && Decisions(replies[..used']) == Decisions(replies[..used]) + (if reply.DecidedAs? then [reply.op] else [])
    && (reply.Locked? <==> !(NoLock(replies, used') && AllStarted(starts, |calls'|)))
    && var open := OpenSlots(first, replies[..used']);
       if reply.Open? then Unanswered(open, calls', slot, used' == |replies|, |calls'| == |starts|) else calls' == open
  }

  lemma Stops(first: nat, slot: nat, replies: seq<StatusReply>, starts: seq<bool>, used: nat, used': nat,
        calls': seq<nat>)
    requires Asking(first, slot, replies, starts, used, used', calls')
    requires !replies[used' - 1].Open? || |calls'| == |starts|
    ensures Answers(first, slot, replies, starts, used, replies[used' - 1], used', calls')
  {
    RepliesStep(first, replies, used' - 1);
  }

  lemma Starts(first: nat, slot: nat, replies: seq<StatusReply>, starts: seq<bool>, used: nat, used': nat,
        calls': seq<nat>)
    requires Asking(first, slot, replies, starts, used, used', calls')
    requires replies[used' - 1].Open? && |calls'| < |starts|
    ensures var more := calls' + [slot];
      if !starts[|calls'|] then Answers(first, slot, replies, starts, used, Locked, used', more)
      else if used' == |replies| then Answers(first, slot, replies, starts, used, Open, used', more)
      else Asking(first, slot, replies, starts, used, used' + 1, more)
  {
    RepliesStep(first, replies, used' - 1);
  }

  /** Asks for the status of the current slot, and runs Paxos on it with the caller's
      operation for as long as it is open. */
  method AwaitDecision(first: nat, slot: nat, replies: seq<StatusReply>, starts: seq<bool>, used: nat, calls: seq<nat>)
    returns (reply: StatusReply, used': nat, calls': seq<nat>)
    requires used < |replies| && |calls| <= |starts| && calls == OpenSlots(first, replies[..used])
    requires slot == first + |Decisions(replies[..used])|
    requires NoLock(replies, used) && AllStarted(starts, |calls|)
    ensures Answers(first, slot, replies, starts, used, reply, used', calls')
  {
    reply, used', calls' := replies[used], used + 1, calls;
    while reply.Open?
      invariant Asking(first, slot, replies, starts, used, used', calls') && reply == replies[used' - 1]
      decreases |replies| - used'
    {
      if |calls'| == |starts| {
        Stops(first, slot, replies, starts, used, used', calls');
        return;
      }
      Starts(first, slot, replies, starts, used, used', calls');
      var ok := starts[|calls'|];
      calls' := calls' + [slot];
      if !ok { reply := Locked; return; }
      if used' == |replies| { return; }
      reply, used' := replies[used'], used' + 1;
    }
    Stops(first, slot, replies, starts, used, used', calls');
  }

  lemma RepliesStep(first: nat, replies: seq<StatusReply>, i: nat)
    requires i < |replies|
    ensures Decisions(replies[..i + 1])
         == Decisions(replies[..i]) + if replies[i].DecidedAs? then [replies[i].op] else []
    ensures OpenSlots(first, replies[..i + 1])
         == OpenSlots(first, replies[..i]) + if replies[i].Open? then [first + |Decisions(replies[..i])|] else []
  {
    assert replies[..i + 1][..i] == replies[..i];
  }
}
