/** The mining server: it splits a client's nonce range into work units, hands them to
    miners, takes them back from miners that are lost, and folds the partial minima. */
module Scheduler {
  import opened Basics

  const TWO64: nat := 0x1_0000_0000_0000_0000
  const MAX_UINT64: nat := TWO64 - 1
  const MINER_WORKLOAD_THRESHOLD: nat := 10000

  datatype WorkUnit = WorkUnit(client: int, data: string, lower: nat, upper: nat)
  datatype ClientStatus = ClientStatus(notFinishedJob: int, minHash: nat, nonce: nat)
  datatype Reply = Reply(client: int, hash: nat, nonce: nat)

  datatype State = State(minerCurrWork: map<int, Option<WorkUnit>>, unOccupiedMiner: set<int>,
                         clients: map<int, ClientStatus>, jobQ: seq<WorkUnit>)

  const IDLE: State := State(map[], {}, map[], [])

  // ---------- the handlers as functions ----------

  /** The number of nonces of the range in uint64 arithmetic. */
  function RangeSize(lower: nat, upper: nat): nat { (upper - lower + 1) % TWO64 }

  /** The work units of a request, in uint64 arithmetic. */
  function Partition(client: int, data: string, lower: nat, upper: nat, miners: nat): seq<WorkUnit> {
    if RangeSize(lower, upper) <= MINER_WORKLOAD_THRESHOLD then [WorkUnit(client, data, lower, upper)]
    else
      var n := if miners == 0 then 1 else miners;
      seq(n, i requires 0 <= i < n => Piece(client, data, lower, upper, n, i))
  }

  function Piece(client: int, data: string, lower: nat, upper: nat, n: nat, i: nat): WorkUnit
    requires i < n
  {
    var interval := RangeSize(lower, upper) / n;
    PieceFrom(client, data, lower, upper, i * interval, interval, i == n - 1)
  }

  function PieceFrom(client: int, data: string, lower: nat, upper: nat, offset: nat, interval: nat,
        last: bool): WorkUnit {
    var from := (lower + offset) % TWO64;
    WorkUnit(client, data, from, if last then upper else (from + interval - 1) % TWO64)
  }

  function OnJoin(s: State, id: int): State {
    s.(minerCurrWork := s.minerCurrWork[id := None], unOccupiedMiner := s.unOccupiedMiner + {id})
  }

  /** A request of a client that already has one is ignored. */
  function OnRequest(s: State, id: int, data: string, lower: nat, upper: nat): State {
    if id in s.clients then s
    else
      var units := Partition(id, data, lower, upper, |s.minerCurrWork|);
      s.(jobQ := s.jobQ + units, clients := s.clients[id := ClientStatus(|units|, MAX_UINT64, 0)])
  }

  function Improved(st: ClientStatus, hash: nat, nonce: nat): ClientStatus {
    if hash < st.minHash then ClientStatus(st.notFinishedJob - 1, hash, nonce)
    else st.(notFinishedJob := st.notFinishedJob - 1)
  }

  predicate IsWorking(s: State, id: int) {
    id in s.minerCurrWork && s.minerCurrWork[id].Some?
  }

  function OnResult(s: State, id: int, hash: nat, nonce: nat): (State, Option<Reply>)
    requires IsWorking(s, id)
  {
    var c := s.minerCurrWork[id].value.client;
    var s1 := s.(minerCurrWork := s.minerCurrWork[id := None], unOccupiedMiner := s.unOccupiedMiner + {id});
    if c !in s.clients then (s1, None)
    else
      var st := Improved(s.clients[c], hash, nonce);
      if st.notFinishedJob == 0 then (s1.(clients := s1.clients - {c}), Some(Reply(c, st.minHash, st.nonce)))
      else (s1.(clients := s1.clients[c := st]), None)
  }

  function OnLost(s: State, id: int): State {
    if id in s.minerCurrWork then
      s.(minerCurrWork := s.minerCurrWork - {id}, unOccupiedMiner := s.unOccupiedMiner - {id},
         jobQ := if s.minerCurrWork[id].Some? then [s.minerCurrWork[id].value] + s.jobQ else s.jobQ)
    else s.(clients := s.clients - {id})
  }

  /** Units of clients that are gone are dropped from the front of the queue. */
  function DropStale(q: seq<WorkUnit>, clients: map<int, ClientStatus>): seq<WorkUnit> {
    if q == [] || q[0].client in clients then q else DropStale(q[1..], clients)
  }

  function AssignTo(s: State, miner: int, reachable: bool): State {
    var q := DropStale(s.jobQ, s.clients);
    if q == [] || !reachable then s.(jobQ := q)
    else State(s.minerCurrWork[miner := Some(q[0])], s.unOccupiedMiner - {miner}, s.clients, q[1..])
  }

  /** Offers work to the free miners in the given order; `reachable` are those to which the
      job can be sent. */
  function AssignAll(s: State, order: seq<int>, reachable: set<int>): State
    decreases |order|
  {
    if order == [] || s.jobQ == [] then s
    else AssignAll(AssignTo(s, order[0], order[0] in reachable), order[1..], reachable)
  }

  // ---------- the server object ----------

  class Server {
    var minerCurrWork: map<int, Option<WorkUnit>>
    var unOccupiedMiner: set<int>
    var clients: map<int, ClientStatus>
    var jobQ: seq<WorkUnit>

    function Abs(): State
      reads this
    {
      State(minerCurrWork, unOccupiedMiner, clients, jobQ)
    }

    constructor ()
      ensures Abs() == IDLE
    {
      minerCurrWork, unOccupiedMiner, clients, jobQ := map[], {}, map[], [];
    }

    method HandleJoin(id: int)
      modifies this
      ensures Abs() == OnJoin(old(Abs()), id)
    {
      minerCurrWork := minerCurrWork[id := None];
      unOccupiedMiner := unOccupiedMiner + {id};
    }

    method PartitionJob(id: int, data: string, lower: nat, upper: nat)
      requires id !in clients
      modifies this
      ensures Abs() == OnRequest(old(Abs()), id, data, lower, upper)
    {
      if (upper - lower + 1) % TWO64 <= MINER_WORKLOAD_THRESHOLD {
        jobQ := jobQ + [WorkUnit(id, data, lower, upper)];
        clients := clients[id := ClientStatus(1, MAX_UINT64, 0)];
      } else {
        var numOfMiner := |minerCurrWork|;
        if numOfMiner == 0 { numOfMiner := 1; }
        clients := clients[id := ClientStatus(numOfMiner, MAX_UINT64, 0)];
        var interval := (upper - lower + 1) % TWO64 / numOfMiner;
        ghost var units := Partition(id, data, lower, upper, |minerCurrWork|);
        var i := 0;
        while i < numOfMiner
          invariant 0 <= i <= numOfMiner == |units|
          invariant jobQ == old(jobQ) + units[..i]
          modifies this`jobQ
        {
          var currLower := (lower + i * interval) % TWO64;
          var currUpper := (currLower + interval - 1) % TWO64;
          if i == numOfMiner - 1 { currUpper := upper; }
          jobQ := jobQ + [WorkUnit(id, data, currLower, currUpper)];
          assert units[..i + 1] == units[..i] + [Piece(id, data, lower, upper, numOfMiner, i)];
          i := i + 1;
        }
        assert units[..i] == units;
      }
    }

    method HandleRequest(id: int, data: string, lower: nat, upper: nat)
      modifies this
      ensures Abs() == OnRequest(old(Abs()), id, data, lower, upper)
    {
      if id !in clients { PartitionJob(id, data, lower, upper); }
    }

    method UpdateResult(id: int, hash: nat, nonce: nat) returns (reply: Option<Reply>)
      requires IsWorking(Abs(), id)
      modifies this
      ensures (Abs(), reply) == OnResult(old(Abs()), id, hash, nonce)
    {
      reply := None;
      var c := minerCurrWork[id].value.client;
      minerCurrWork := minerCurrWork[id := None];
      unOccupiedMiner := unOccupiedMiner + {id};
      if c in clients {
        var status := clients[c];
        status := status.(notFinishedJob := status.notFinishedJob - 1);
        if hash < status.minHash {
          status := status.(minHash := hash, nonce := nonce);
        }
        clients := clients[c := status];
        if status.notFinishedJob == 0 {
          reply := Some(Reply(c, status.minHash, status.nonce));
          clients := clients - {c};
          assert clients == old(clients) - {c};
        }
      }
    }

    method HandleFailure(id: int)
      modifies this
      ensures Abs() == OnLost(old(Abs()), id)
    {
      if id in minerCurrWork {
        if minerCurrWork[id].Some? { jobQ := [minerCurrWork[id].value] + jobQ; }
        unOccupiedMiner := unOccupiedMiner - {id};
        minerCurrWork := minerCurrWork - {id};
      } else if id in clients {
        clients := clients - {id};
      } else {
        assert clients - {id} == clients;
      }
    }

    /** `order` is the order in which the map of free miners is ranged over. */
    method AssignJobsToUnoccupiedMiner(order: seq<int>, reachable: set<int>)
      modifies this
      ensures Abs() == AssignAll(old(Abs()), order, reachable)
    {
      var k := 0;
      while k < |order| && |jobQ| > 0
        invariant 0 <= k <= |order|
        invariant AssignAll(old(Abs()), order, reachable) == AssignAll(Abs(), order[k..], reachable)
      {
        var miner := order[k];
        assert order[k..][1..] == order[k + 1..];
        ghost var s := Abs();
        while |jobQ| > 0 && jobQ[0].client !in clients
          invariant DropStale(jobQ, clients) == DropStale(s.jobQ, s.clients)
          invariant Abs() == s.(jobQ := jobQ)
          modifies this`jobQ
          decreases |jobQ|
        {
          jobQ := jobQ[1..];
        }
        if |jobQ| > 0 && miner in reachable {
          var workU := jobQ[0];
          jobQ := jobQ[1..];
          minerCurrWork := minerCurrWork[miner := Some(workU)];
          unOccupiedMiner := unOccupiedMiner - {miner};
        }
        assert Abs() == AssignTo(s, miner, miner in reachable);
        k := k + 1;
      }
    }
  }
}
