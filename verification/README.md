# Verification of the distributed protocols

The repository holds course projects around five protocols: a sliding-window transport
(LSP), a mining scheduler on top of it, a key-value store with leased client caches, Paxos,
and a flight server replicated over a Paxos log. It also vendors godoc, whose formatter
merges selections of a text. This project models their handlers and loops and proves what
whole runs of them guarantee.

Each protocol has the same three layers. Classes and methods follow the Go code statement
by statement; their contracts tie them to functions on values. A step system over those
functions says what can happen, in any order, with messages lost, late, repeated and
reordered. Lemmas prove an inductive invariant of the step system, and from it the
guarantees.

| files | what they model |
|---|---|
| `PaxosPeer`, `PaxosRun`, `PaxosStatus`, `PaxosStart`, `PaxosLateAccept`, `PaxosProgress`, `Consensus` | acceptor handlers and proposer loop; one slot under every interleaving; what Status may report, and after Start; a run in which it is wrong; that a decision can always be reached; refinement of an abstract slot that decides once |
| `Airline`, `AirlineServer`, `ReplicatedLog`, `EndToEnd`, `Divergence` | the flight state machine; one server's replay loop; all servers over abstract slots; all servers over real Paxos slots; a run in which they drift apart |
| `LeaseCore`, `LeaseNodes`, `LeaseRun`, `LeaseRead`, `LeaseWrite` | leases; storage server and libstore; one key under every interleaving; a Get and a write as steps of it, with the program's lease times |
| `Ring` | the order of storage servers and the placement of keys |
| `LspBuffer`, `LspEndpoint`, `LspRun`, `LspGuarantees`, `LspProgress` | the ordered buffer; the handlers of one endpoint; one direction of a connection; its safety guarantees; when reads succeed and that all can be delivered |
| `Scheduler`, `MiningRange`, `MiningRun`, `MiningHistory` | the mining server; nonce ranges in uint64 arithmetic; all interleavings; answers, results and queue against the history |
| `Segments`, `Format` | the merger of segment changes; the formatter |

Verify with `dafny verify dfyconfig.toml`.

Some properties that the code or its comments suggest do not hold without a condition. The
code is modelled as it is, and each condition is proved exact, in both directions:

- Accept does not test whether the slot is decided, so a late Accept can replace a decided
  value locally. Majorities still agree. For any number of servers, every operation still
  takes effect at most once, a returned call exactly once, and effects follow real time
  (`EndToEnd.CallsTakeEffectOnce`, `EndToEnd.EffectsFollowRealTime`). Every report is right
  if and only if no decided peer accepts a different value (`EndToEnd.TrustExactly`), and in
  such runs the servers agree and are linearizable. All runs are such, and the servers always
  agree, if and only if there are at most two peers (`PaxosLateAccept.StatusExactly`,
  `Divergence.ServersAgreeExactly`).
- The comment at `p1/src/github.com/cmu440/lsp/client_impl.go:246-249`
  that a dropped acknowledgement is never needed holds if and only if the sender's window does
  not exceed the receiver's (`LspGuarantees.RetentionExactly`).
- Coherence of cached copies needs a positive guard time (`LeaseRun.GuardExactly`).
- The units of a mining request tile it unless it is split and either starts at 0 with more
  miners than nonces, or is reversed (`MiningRange.PartitionTiles`). In the first case the
  request never gets an answer, since a miner's loop does not end at the greatest uint64, so
  every answer is minimal all the same (`MiningRun.AnswersAreMinimal`).
- Every key is accepted by exactly the server that the libstore picks if and only if the node
  ids are distinct (`Ring.RoutingAgrees`).
- A libstore that caches a value and a list under one key drops only the value when the lease
  is revoked (`LeaseNodes.Libstore.RevokeLease`).

Modelling decisions: the clock, the order in which a Go map is ranged over, RPC replies and
their loss are parameters or steps. SHA-256 and the FNV hash are arbitrary functions. An
operation submitted by a call is a value distinct from every other call's. The values of a
slot are of an arbitrary type; Go's nil is one of them. Handlers are atomic, as the slot,
key and event-loop locks make them.

## Model

| member | source | states |
|---|---|---|
| `PaxosRun.Agreement` | p3/src/github.com/cmu440/flight_reservation/paxos/paxos.go:423-562 | in every run with lost, late, repeated and reordered RPCs, two values that majorities accepted for one slot, under any two numbers, are the same value |
| `PaxosRun.OneProposalPerNumber` | p3/src/github.com/cmu440/flight_reservation/paxos/paxos.go:148-157 | no two rounds of a slot both collect a prepare majority under the same number, whatever the clocks say |
| `PaxosRun.DecideIsSound` | p3/src/github.com/cmu440/flight_reservation/paxos/paxos.go:523-557 | every Decide sent carries the chosen value, so all Decides of a slot agree |
| `PaxosRun.ProposalIsSafe` | p3/src/github.com/cmu440/flight_reservation/paxos/paxos.go:475-508 | the value a proposer takes from a prepare majority is the value of every lower proposal that could still be chosen, although a Promise may pair a decided value with an older number |
| `PaxosRun.StepKeeps` | p3/src/github.com/cmu440/flight_reservation/paxos/paxos.go:137-202 | every step of the protocol keeps the inductive invariant (votes, promises, proposals, decisions and their compatibility) |
| `PaxosRun.ReachableInv` | p3/src/github.com/cmu440/flight_reservation/paxos/paxos.go:423-562 | the invariant holds in every state of every run |
| `PaxosPeer.NextSeqNum` | p3/src/github.com/cmu440/flight_reservation/paxos/paxos.go:440-447 | the number is above the highest one heard of, by at most n when bumped, is never below the clock value, and is congruent to the peer index modulo n |
| `PaxosPeer.Int64Exactly` | p3/src/github.com/cmu440/flight_reservation/paxos/paxos.go:440-447 | int64 arithmetic, with overflow and Go's remainder, computes that number if and only if the number fits in an int64 |
| `PaxosPeer.PeersNeverCollide` | p3/src/github.com/cmu440/flight_reservation/paxos/paxos.go:441-447 | corollary: two peers never generate the same number, whatever their clocks and what they heard |
| `PaxosPeer.RejectedThenHeard` | p3/src/github.com/cmu440/flight_reservation/paxos/paxos.go:486-500 | a peer whose rejection made a prepare phase fail promises the next number, if it has heard of no other in between |
| `PaxosPeer.RefusedThenHeard` | p3/src/github.com/cmu440/flight_reservation/paxos/paxos.go:531-545 | the same for a peer that refused an Accept |
| `PaxosPeer.Peer.constructor` | p3/src/github.com/cmu440/flight_reservation/paxos/paxos.go:621-646 | a peer starts with every slot fresh |
| `PaxosPeer.Peer.Prepare` | p3/src/github.com/cmu440/flight_reservation/paxos/paxos.go:137-159 | the slot changes and the reply is as in the step system; no other slot changes |
| `PaxosPeer.Peer.Accept` | p3/src/github.com/cmu440/flight_reservation/paxos/paxos.go:162-182 | the same for Accept, including that isDecided is neither tested nor changed |
| `PaxosPeer.Peer.Decide` | p3/src/github.com/cmu440/flight_reservation/paxos/paxos.go:185-202 | the value is replaced and marked decided, both numbers stay, the highest decided slot is kept up to date |
| `PaxosPeer.Peer.SetLock` | p3/src/github.com/cmu440/flight_reservation/paxos/paxos.go:257-265 | sets the lock flag and nothing else |
| `PaxosPeer.Peer.Status` | p3/src/github.com/cmu440/flight_reservation/paxos/paxos.go:579-597 | an error while the cluster is locked; otherwise the local flag and value |
| `PaxosPeer.CollectPrepareReplies` | p3/src/github.com/cmu440/flight_reservation/paxos/paxos.go:475-496 | the loop computes the tally of the step system, stopping at a majority |
| `PaxosPeer.CollectAcceptReplies` | p3/src/github.com/cmu440/flight_reservation/paxos/paxos.go:523-539 | the same for accept replies |
| `PaxosPeer.StartHelper` | p3/src/github.com/cmu440/flight_reservation/paxos/paxos.go:423-562 | the retry loop ends at the first attempt whose two phases get a majority, with the value of its prepare tally; each number has the peer's residue, is at least the clock's, exceeds every rejection that the attempt before ended with, and is no higher than it has to be |
| `PaxosPeer.TallyPicksFirst` | p3/src/github.com/cmu440/flight_reservation/paxos/paxos.go:481-485 | the value taken is that of the first promise with the highest accepted number |
| `PaxosPeer.LateRepliesIgnored` | p3/src/github.com/cmu440/flight_reservation/paxos/paxos.go:475-496 | replies after the majority change nothing |
| `PaxosStart.AttemptIsRound` | p3/src/github.com/cmu440/flight_reservation/paxos/paxos.go:449-557 | an attempt of that loop, with replies that the peers gave, gets its majorities if and only if its round of the step system can end both phases, and then its value is what a majority has chosen under its number |
| `PaxosStart.StartSettles` | p3/src/github.com/cmu440/flight_reservation/paxos/paxos.go:449-559 | when Start returns, its own peer reports the chosen value and has promised the chosen number or more |
| `PaxosStart.SettledAtKeeps` | p3/src/github.com/cmu440/flight_reservation/paxos/paxos.go:162-202 | no step of the protocol changes the report of such a peer |
| `PaxosProgress.StartCanSucceed` | p3/src/github.com/cmu440/flight_reservation/paxos/paxos.go:423-562 | from every state that runs of proposers can reach, for every peer and value, some number of the peer leads, without new rounds of others, to a choice under it that the peer then reports for good |
| `PaxosStatus.WrongStatusIsStale` | p3/src/github.com/cmu440/flight_reservation/paxos/paxos.go:579-597 | in every run a peer that reports a decision reports the chosen value, or has last accepted a number below every chosen one |
| `PaxosStatus.ReportMeansChosen` | p3/src/github.com/cmu440/flight_reservation/paxos/paxos.go:185-202 | in every run a report means that some majority has chosen a value |
| `PaxosStatus.AcceptKeepsReport` | p3/src/github.com/cmu440/flight_reservation/paxos/paxos.go:169-174 | a right report survives an Accept if and only if the number is rejected or the value is the same; numbers at or above the chosen one always carry the same value |
| `PaxosStatus.SettledForever` | p3/src/github.com/cmu440/flight_reservation/paxos/paxos.go:162-202 | a right report of a peer that promised the chosen number or more stays right for ever |
| `PaxosStatus.TruthfulExactly` | p3/src/github.com/cmu440/flight_reservation/paxos/paxos.go:169-174 | for any number of peers, every report is right in every state of a run if and only if no step of it makes a decided peer accept a different value |
| `PaxosStatus.ReportIsSubmitted` | p3/src/github.com/cmu440/flight_reservation/paxos/paxos.go:162-202 | a reported value, right or wrong, was submitted by some caller |
| `PaxosLateAccept.LateAcceptOverwrites` | p3/src/github.com/cmu440/flight_reservation/paxos/paxos.go:169-172 | with three or more peers, one late Accept turns a right report into a wrong one, and two peers report different decisions, although every proposer waits for its own peer |
| `PaxosLateAccept.StatusExactly` | p3/src/github.com/cmu440/flight_reservation/paxos/paxos.go:595-596 | Status reports the chosen value in every run of n peers if and only if n is at most 2 |
| `Consensus.AbsDecision` | p3/src/github.com/cmu440/flight_reservation/paxos/paxos.go:547-557 | the chosen value of a slot is unique and is one of the callers' values |
| `Consensus.DecisionStays` | p3/src/github.com/cmu440/flight_reservation/paxos/paxos.go:162-182 | no step undoes a choice |
| `Consensus.PaxosRefinesConsensus` | p3/src/github.com/cmu440/flight_reservation/paxos/paxos.go:423-562 | every step of Paxos is a proposal, the one decision, or invisible, of an abstract slot that decides once |
| `AirlineServer.Server.MyReservationHelper` | p3/src/github.com/cmu440/flight_reservation/server/server_impl.go:253-276 | the loop returns the account entries whose flight still exists |
| `Airline.LiveExactly` | p3/src/github.com/cmu440/flight_reservation/server/server_impl.go:262-271 | these are, in order, exactly the entries at the positions whose flight exists |
| `AirlineServer.Server.CheckTicketsHelper` | p3/src/github.com/cmu440/flight_reservation/server/server_impl.go:278-302 | the loop returns the days asked for on which tickets are left |
| `Airline.AvailableExactly` | p3/src/github.com/cmu440/flight_reservation/server/server_impl.go:287-299 | these are exactly such days, each once, in order, with the count left; none if the range is empty |
| `AirlineServer.Server.ReserveTicketHelper` | p3/src/github.com/cmu440/flight_reservation/server/server_impl.go:304-322 | the whole new state and answer of a reservation |
| `AirlineServer.Server.AddFlightHelper` | p3/src/github.com/cmu440/flight_reservation/server/server_impl.go:324-338 | the whole new state and answer of adding a flight |
| `AirlineServer.Server.CancelFlightHelper` | p3/src/github.com/cmu440/flight_reservation/server/server_impl.go:340-353 | the whole new state and answer of cancelling a flight |
| `AirlineServer.Server.EditFlightHelper` | p3/src/github.com/cmu440/flight_reservation/server/server_impl.go:355-369 | the whole new state and answer of editing a flight |
| `AirlineServer.Server.Execute` | p3/src/github.com/cmu440/flight_reservation/server/server_impl.go:225-243 | executing a decided operation is one step of the airline state machine; queries of others are skipped |
| `AirlineServer.AwaitDecision` | p3/src/github.com/cmu440/flight_reservation/server/server_impl.go:199-219 | the inner loop calls Start once per open answer, on that slot, and ends at the decision, at a lock, or when the replies end |
| `AirlineServer.Server.AddPaxosLogAndUpdateState` | p3/src/github.com/cmu440/flight_reservation/server/server_impl.go:188-251 | the state is the replay of the decided operations consumed, one per slot; the call returns at the first slot that holds its operation, with its result there; Start is called once per open answer; it fails exactly on a lock |
| `Airline.ReplayAppends` | p3/src/github.com/cmu440/flight_reservation/server/server_impl.go:188-251 | replaying a log in two pieces is replaying it at once |
| `Airline.QueriesAreInvisible` | p3/src/github.com/cmu440/flight_reservation/server/server_impl.go:225-243 | queries and NoOps can be dropped from every log without changing the state |
| `Airline.TicketsConserved` | p3/src/github.com/cmu440/flight_reservation/server/server_impl.go:304-369 | over every log, a flight's count is the count last set less the reservations since, and no more than that count is sold |
| `Airline.SuccessExactly` | p3/src/github.com/cmu440/flight_reservation/server/server_impl.go:304-369 | over every log, a reservation succeeds if and only if tickets are left of the count last set, an addition if and only if the flight is absent, a cancellation or edit if and only if it is there |
| `Airline.MyReservationExactly` | p3/src/github.com/cmu440/flight_reservation/server/server_impl.go:226-229 | over every log, the answer lists the user's successful reservations, in order, of the flights still there: of each flight as many entries as the user reserved, or none if it is gone |
| `Airline.CheckTicketsExactly` | p3/src/github.com/cmu440/flight_reservation/server/server_impl.go:230-233 | over every log, an entry is listed if and only if its flight and day were asked for and its positive count is the count last set less the reservations since |
| `Airline.AccountIsBookings` | p3/src/github.com/cmu440/flight_reservation/server/server_impl.go:304-322 | over every log, an account is its user's successful reservations, in order |
| `Airline.AccountsConserved` | p3/src/github.com/cmu440/flight_reservation/server/server_impl.go:304-322 | over every log, a user's account holds one entry per successful reservation of that user |
| `Airline.ReservationsConserved` | p3/src/github.com/cmu440/flight_reservation/server/server_impl.go:304-322 | over every log, the entries for a flight, summed over all users, are its successful reservations |
| `ReplicatedLog.ReplicasAgree` | p3/src/github.com/cmu440/flight_reservation/server/server_impl.go:188-251 | in every run over abstract slots in which no server misreads a decided slot, a server's state is the replay of the slots it has passed, and equal slot numbers mean equal states |
| `ReplicatedLog.PlacedAtMostOnce` | p3/src/github.com/cmu440/flight_reservation/server/server_impl.go:188-251 | in every run, misread slots included, an operation occupies at most one slot, whether its call returns, fails or still waits |
| `ReplicatedLog.ReturnedIsPlaced` | p3/src/github.com/cmu440/flight_reservation/server/server_impl.go:245-249 | in every run a call that returned has its operation in exactly one slot; without misread slots it answered its result on the state of all earlier slots |
| `ReplicatedLog.RealTimeOrder` | p3/src/github.com/cmu440/flight_reservation/server/server_impl.go:198-250 | in every run, if one call had returned before another was submitted, its slot comes first |
| `ReplicatedLog.SlotsAdvance` | p3/src/github.com/cmu440/flight_reservation/server/server_impl.go:204-213 | corollary: seen from one slot, every event is a step of its consensus object |
| `ReplicatedLog.StepKeeps` | p3/src/github.com/cmu440/flight_reservation/server/server_impl.go:188-251 | every event keeps the invariant behind these results |
| `EndToEnd.ActionSimulates` | p3/src/github.com/cmu440/flight_reservation/server/server_impl.go:188-251 | every action of the servers over real Paxos slots is one event of the replicated log, or invisible; acting on a wrong report is a misread, on a right one never |
| `EndToEnd.WrongReportIsMisread` | p3/src/github.com/cmu440/flight_reservation/server/server_impl.go:199-222 | a wrong report can come only to a call that has not proposed in the slot, and the call's operation is neither reported nor chosen there |
| `EndToEnd.RefinesReplicatedLog` | p3/src/github.com/cmu440/flight_reservation/server/server_impl.go:188-251 | every run of any number of servers is a run of the replicated log; a run that acted on right reports only is one without misread slots |
| `EndToEnd.CallsTakeEffectOnce` | p3/src/github.com/cmu440/flight_reservation/server/server_impl.go:188-251 | in every run of any number of servers an operation is chosen in at most one slot, and a call that returned has its operation chosen |
| `EndToEnd.EffectsFollowRealTime` | p3/src/github.com/cmu440/flight_reservation/server/server_impl.go:188-251 | in every run of any number of servers a call that had returned before another was submitted has its operation chosen in an earlier slot |
| `EndToEnd.TrustExactly` | p3/src/github.com/cmu440/flight_reservation/paxos/paxos.go:169-174 | every report that any server could get at any time of a run is right if and only if no decided peer accepts a different value in it |
| `EndToEnd.Linearizable` | p3/src/github.com/cmu440/flight_reservation/server/server_impl.go:188-251 | for any number of servers, in every run in which no decided peer accepts a different value, a returned call is chosen in exactly one slot, answered what the earlier slots imply, and follows every call that had returned before it began |
| `EndToEnd.GuardedRunsStayInStep` | p3/src/github.com/cmu440/flight_reservation/server/server_impl.go:188-251 | for any number of servers, in every such run servers at the same slot number hold equal states |
| `Divergence.ServersDiverge` | p3/src/github.com/cmu440/flight_reservation/server/server_impl.go:199-222 | three or more servers can hold different flights after the same number of slots |
| `Divergence.ServersAgreeExactly` | p3/src/github.com/cmu440/flight_reservation/server/server_impl.go:188-251 | servers at the same slot number hold equal states in every run of n servers if and only if n is at most 2 |
| `LeaseRun.CachesAreCoherent` | p2/src/github.com/cmu440/tribbler/libstore/libstore_impl.go:246-336 | in every run, a cached copy whose lease has not run out is the store's value, and the server's record outlasts it by the guard time |
| `LeaseRun.AnswersWereHeld` | p2/src/github.com/cmu440/tribbler/libstore/libstore_impl.go:246-336 | in every run, every Get answers a value that the store held at some moment of the call, although it reads the clock before it waits for the lock |
| `LeaseRun.GuardExactly` | p2/src/github.com/cmu440/tribbler/storageserver/storageserver_impl.go:485-509 | the caches are coherent in every run if and only if the guard time is positive |
| `LeaseRead.CoherentAsConfigured` | p2/src/github.com/cmu440/tribbler/storageserver/storageserver_impl.go:485-509 | with the program's lease and guard times, in every run, a copy is the store's value for ten seconds from the start of the Get that fetched it, and is on record for twelve |
| `LeaseRead.AnswersHeldAsConfigured` | p2/src/github.com/cmu440/tribbler/libstore/libstore_impl.go:246-336 | with the program's times, every Get answers a value that the store held during the call |
| `LeaseRead.CopyServesExactly` | p2/src/github.com/cmu440/tribbler/libstore/libstore_impl.go:253-284 | a later Get at the same libstore is answered from the cache, with the store's value, if and only if it begins within those ten seconds |
| `LeaseRead.HitExactly` | p2/src/github.com/cmu440/tribbler/libstore/libstore_impl.go:253-263 | a Get uses a copy if and only if its clock reading is not past the copy's lease |
| `LeaseRead.ServeIsGet` | p2/src/github.com/cmu440/tribbler/storageserver/storageserver_impl.go:485-509 | the server's part of a Get is the step Serve; a lease is granted if and only if one is asked for and none of the host is still on record, for twelve seconds |
| `LeaseRead.FinishIsGet` | p2/src/github.com/cmu440/tribbler/libstore/libstore_impl.go:320-334 | the libstore's part of a Get is the step Finish; the copy kept is believed for ten seconds from the start of the Get |
| `LeaseRun.StaleWithoutGuard` | p2/src/github.com/cmu440/tribbler/storageserver/storageserver_impl.go:511-553 | without a guard time some run leaves a believed copy behind the store |
| `LeaseRun.StepKeeps` | p2/src/github.com/cmu440/tribbler/storageserver/storageserver_impl.go:217-333 | every step of Gets, writers, revocations and the clock keeps the invariant |
| `LeaseRun.CommitIsQuiet` | p2/src/github.com/cmu440/tribbler/storageserver/storageserver_impl.go:297-333 | when a write commits, nobody relies on an unexpired copy of the old value |
| `LeaseNodes.RevokeGrantedLease` | p2/src/github.com/cmu440/tribbler/storageserver/storageserver_impl.go:511-553 | the revocation succeeds if and only if every lease has run out, was waited out, or was given up by its holder |
| `LeaseNodes.SettledExactly` | p2/src/github.com/cmu440/tribbler/storageserver/storageserver_impl.go:511-553 | the revocation goes wrong exactly at a failed dial to the holder of a lease that was still running |
| `LeaseNodes.StorageServer.CheckRequest` | p2/src/github.com/cmu440/tribbler/storageserver/storageserver_impl.go:218-230 | a request is turned away if and only if the server is not ready, or is ready and not the owner of the key |
| `LeaseNodes.StorageServer.GrantLeaseIfNecessary` | p2/src/github.com/cmu440/tribbler/storageserver/storageserver_impl.go:485-509 | grant, length and record of a lease |
| `LeaseNodes.StorageServer.Get` | p2/src/github.com/cmu440/tribbler/storageserver/storageserver_impl.go:217-251 | status, value, grant and new lease record, with the requests turned away |
| `LeaseNodes.StorageServer.GetList` | p2/src/github.com/cmu440/tribbler/storageserver/storageserver_impl.go:254-295 | the same for lists, whose items are copied in order |
| `LeaseNodes.StorageServer.Put` | p2/src/github.com/cmu440/tribbler/storageserver/storageserver_impl.go:297-333 | the value changes, and the leases go, only when the request is accepted and every lease is settled; otherwise nothing changes |
| `LeaseWrite.SettledWriteCommits` | p2/src/github.com/cmu440/tribbler/storageserver/storageserver_impl.go:319-328 | when the revocation loop has settled every lease, the steps it stands for lead from that state of the protocol to the commit |
| `LeaseWrite.UnsettledWriteWaits` | p2/src/github.com/cmu440/tribbler/storageserver/storageserver_impl.go:511-553 | corollary: a running lease whose holder has not answered holds the write up; only an abort takes it past |
| `LeaseNodes.StorageServer.AppendToList` | p2/src/github.com/cmu440/tribbler/storageserver/storageserver_impl.go:335-385 | the same for appending, with the duplicate case, which also clears the leases |
| `LeaseNodes.StorageServer.RemoveFromList` | p2/src/github.com/cmu440/tribbler/storageserver/storageserver_impl.go:387-432 | the same for removing the first occurrence, with the missing cases |
| `LeaseNodes.WithoutAt` | p2/src/github.com/cmu440/tribbler/storageserver/storageserver_impl.go:415-424 | cutting at the index found removes exactly the first occurrence |
| `LeaseNodes.Libstore.Get` | p2/src/github.com/cmu440/tribbler/libstore/libstore_impl.go:246-336 | a believed copy is returned as it is; otherwise the reply decides answer and cache, and the lease starts when the clock was read |
| `LeaseNodes.Libstore.GetList` | p2/src/github.com/cmu440/tribbler/libstore/libstore_impl.go:380-464 | the same for lists; a missing key reads as the empty list |
| `LeaseNodes.Libstore.RevokeLease` | p2/src/github.com/cmu440/tribbler/libstore/libstore_impl.go:539-562 | the value copy goes; the list copy goes if and only if there is no value copy under the same key |
| `Ring.SortServers` | p2/src/github.com/cmu440/tribbler/storageserver/storageserver_impl.go:171-180 | the exchange sort leaves an ordered permutation |
| `Ring.ExchangeFrom` | p2/src/github.com/cmu440/tribbler/storageserver/storageserver_impl.go:173-179 | the inner loop brings the least of the rest to its place |
| `Ring.FindHashRing` | p2/src/github.com/cmu440/tribbler/libstore/libstore_impl.go:227-244 | picks the owner of the hash |
| `Ring.CheckIsRightServer` | p2/src/github.com/cmu440/tribbler/storageserver/storageserver_impl.go:468-483 | accepts if and only if the server has the owner's id |
| `Ring.OwnerIsSuccessor` | p2/src/github.com/cmu440/tribbler/libstore/libstore_impl.go:227-244 | on an ordered ring the owner is the clockwise successor of the hash modulo 2^32, wrap-around included |
| `Ring.RoutingAgrees` | p2/src/github.com/cmu440/tribbler/storageserver/storageserver_impl.go:468-483 | every key is accepted by exactly the server the libstore picks if and only if the node ids are distinct |
| `LspGuarantees.DeliversInOrder` | p1/src/github.com/cmu440/lsp/client_impl.go:126-259 | in every run over a network that drops, repeats, delays and reorders, the payloads read are a prefix of the payloads written |
| `LspGuarantees.SendSideConserved` | p1/src/github.com/cmu440/lsp/client_impl.go:146-234 | every number written is in exactly one of the write buffer, the unacked buffer and the acked set, and what is acked was received |
| `LspGuarantees.WindowIsKept` | p1/src/github.com/cmu440/lsp/client_impl.go:158-234 | unacked numbers are sorted and span less than the window, the waiting ones are contiguous, and nothing that fits is held back |
| `LspGuarantees.RetainedWhenWindowsFit` | p1/src/github.com/cmu440/lsp/client_impl.go:246-259 | the receiver still repeats every acknowledgement the sender waits for |
| `LspGuarantees.RetentionExactly` | p1/src/github.com/cmu440/lsp/client_impl.go:246-259 | that holds in every run if and only if the sender's window does not exceed the receiver's |
| `LspGuarantees.NotRetained` | p1/src/github.com/cmu440/lsp/buffer.go:72-86 | otherwise some run drops an acknowledgement that the sender still needs |
| `LspGuarantees.NeverAckedAgain` | p1/src/github.com/cmu440/lsp/client_impl.go:240-259 | and once it is dropped no step of any later run sends it again |
| `LspGuarantees.NothingIsStranded` | p1/src/github.com/cmu440/lsp/client_impl.go:175-202 | from every reachable state, one resend, one delivery, one repeat of acknowledgements and one delivery settle any unacked number |
| `LspProgress.EverythingDeliverable` | p1/src/github.com/cmu440/lsp/client_impl.go:126-259 | with windows that fit, from every reachable state some run without new writes delivers exactly what was written and leaves nothing unacknowledged |
| `LspProgress.ReadExactly` | p1/src/github.com/cmu440/lsp/client_impl.go:126-143 | in every run a read succeeds if and only if the next payload in order has arrived, and returns that payload |
| `LspProgress.ArrivalAcksExactly` | p1/src/github.com/cmu440/lsp/client_impl.go:240-259 | in every run data is acknowledged on arrival if and only if it has not been read yet |
| `LspProgress.EpochAcksExactly` | p1/src/github.com/cmu440/lsp/client_impl.go:184-202 | in every run an epoch acknowledges exactly the arrivals within one window of the highest, or 0 if there are none |
| `LspRun.StepKeeps` | p1/src/github.com/cmu440/lsp/server_impl.go:138-205 | every step of writes, reads, deliveries and epochs keeps the invariant |
| `LspRun.SlideKeeps` | p1/src/github.com/cmu440/lsp/server_impl.go:150-168 | moving messages into the window keeps the sender's invariant and leaves nothing that fits behind |
| `LspEndpoint.Endpoint.HandleWrite` | p1/src/github.com/cmu440/lsp/client_impl.go:146-172 | new sender state and packets as in the step system |
| `LspEndpoint.Endpoint.HandleAck` | p1/src/github.com/cmu440/lsp/client_impl.go:211-234 | the same for an acknowledgement, with the emptied and the partly acknowledged window |
| `LspEndpoint.Endpoint.MoveIntoWindow` | p1/src/github.com/cmu440/lsp/client_impl.go:223-233 | the loop moves exactly the messages that fit, in order |
| `LspEndpoint.Endpoint.HandleData` | p1/src/github.com/cmu440/lsp/client_impl.go:240-259 | the same for data; old numbers are ignored |
| `LspEndpoint.Endpoint.HandleRead` | p1/src/github.com/cmu440/lsp/client_impl.go:126-143 | returns the next payload in order if it is there, and changes nothing otherwise |
| `LspEndpoint.Endpoint.HandleEpoch` | p1/src/github.com/cmu440/lsp/client_impl.go:184-202 | resends the unacked data and the latest acknowledgements, or acknowledgement 0 |
| `LspBuffer.Buffer.Insert` | p1/src/github.com/cmu440/lsp/buffer.go:20-40 | ordered insertion of the linked list |
| `LspBuffer.Buffer.Remove` | p1/src/github.com/cmu440/lsp/buffer.go:43-48 | takes the front message |
| `LspBuffer.Buffer.Delete` | p1/src/github.com/cmu440/lsp/buffer.go:58-67 | deletes by number and says whether it was there |
| `LspBuffer.Buffer.AdjustUsingWindow` | p1/src/github.com/cmu440/lsp/buffer.go:72-86 | drops from the front what is below the last window |
| `LspBuffer.Buffer.ReturnAll` | p1/src/github.com/cmu440/lsp/buffer.go:89-98 | lists the messages in order |
| `LspBuffer.InsertedFacts` | p1/src/github.com/cmu440/lsp/buffer.go:20-40 | insertion keeps the order strict, and adds the message exactly when its number is new |
| `LspBuffer.DeletedFacts` | p1/src/github.com/cmu440/lsp/buffer.go:58-67 | deletion keeps the order and removes exactly the number |
| `LspBuffer.DroppedFacts` | p1/src/github.com/cmu440/lsp/buffer.go:72-86 | adjusting keeps exactly the numbers from the bound on |
| `MiningRun.AnswersAreMinimal` | p1/src/github.com/cmu440/bitcoin/server/server.go:105-128 | in every run of joins, requests, results, losses and assignments, every answer sent to a request that is not reversed is the minimum over the requested range, with a nonce that attains it |
| `MiningRun.ReversedAnswer` | p1/src/github.com/cmu440/bitcoin/server/server.go:105-128 | the answer to a reversed request, whose range is empty, says that nothing was found if and only if no nonce of its units has a hash below the greatest uint64 |
| `MiningHistory.AnswersMatchRequests` | p1/src/github.com/cmu440/bitcoin/server/server.go:105-128 | in every run every connection is sent exactly one answer to each of its requests that was taken up, in order, except for the one still active or active when it was lost; no answer goes to a miner |
| `MiningHistory.AnswerIsFirstBest` | p1/src/github.com/cmu440/bitcoin/server/server.go:113-118 | in every run an answer is made from one result per unit, and is the first result that none is smaller than |
| `MiningHistory.FirstComeFirstServed` | p1/src/github.com/cmu440/bitcoin/server/server.go:157-184 | in every run the queue is units that came back from lost miners followed by the last arrivals in order, so a unit is first handed out after all that arrived before it |
| `MiningHistory.MinersAreThoseJoined` | p1/src/github.com/cmu440/bitcoin/server/server.go:142-145 | in every run the known miners are those that joined and were not lost |
| `MiningHistory.AssignedIsActive` | p1/src/github.com/cmu440/bitcoin/server/server.go:161-178 | work is handed out for active clients only |
| `MiningHistory.UnreachableIsUntouched` | p1/src/github.com/cmu440/bitcoin/server/server.go:167-174 | a miner that the job could not be sent to keeps its state |
| `MiningRun.UnitsConserved` | p1/src/github.com/cmu440/bitcoin/server/server.go:69-201 | the unfinished count is the units queued plus those at miners, these and the finished ones are exactly the units of the request, and the free miners are those without work |
| `MiningRun.LostUnitIsNext` | p1/src/github.com/cmu440/bitcoin/server/server.go:187-196 | corollary: the unit of a lost miner is the next one handed out, if its client is still there |
| `MiningRun.AssignmentIsGreedy` | p1/src/github.com/cmu440/bitcoin/server/server.go:157-184 | after an assignment round work is left only if every miner still free could not be reached |
| `MiningRun.StepKeeps` | p1/src/github.com/cmu440/bitcoin/server/server.go:131-201 | every event keeps the invariant |
| `MiningRange.PartitionTiles` | p1/src/github.com/cmu440/bitcoin/server/server.go:69-101 | for every uint64 request and every number of miners, the ranges sent out cover the request exactly, without overlap, if and only if it is not split, or every miner gets a nonce and it is not reversed, or some get none and it does not start at 0 |
| `MiningRange.PartitionIsEven` | p1/src/github.com/cmu440/bitcoin/server/server.go:69-101 | up to 10000 nonces, or the whole uint64 range, are one unit; any other request is one unit per miner, all equally long but the last, which is longer by less than one nonce per miner |
| `MiningRange.ReversedSplit` | p1/src/github.com/cmu440/bitcoin/server/server.go:80-99 | when a reversed range is split, its first or its last piece lies outside of it |
| `MiningRange.PieceBounds` | p1/src/github.com/cmu440/bitcoin/server/server.go:86-93 | with no more miners than nonces every piece is non-empty and computed without overflow |
| `MiningRange.ZeroInterval` | p1/src/github.com/cmu440/bitcoin/server/server.go:86-93 | with more miners than nonces all pieces but the last are [lower, lower-1] in uint64 arithmetic |
| `MiningRange.CalculateMinHash` | p1/src/github.com/cmu440/bitcoin/miner/miner.go:29-41 | the uint64 loop ends, after as many passes as the range has nonces, if and only if upper is below the greatest uint64; then it has found the least hash of the range at its first nonce |
| `Scheduler.Server.HandleJoin` | p1/src/github.com/cmu440/bitcoin/server/server.go:142-145 | the new state after a join |
| `Scheduler.Server.PartitionJob` | p1/src/github.com/cmu440/bitcoin/server/server.go:69-101 | the loop queues the units of the request in uint64 arithmetic and registers the client |
| `Scheduler.Server.HandleRequest` | p1/src/github.com/cmu440/bitcoin/server/server.go:146-150 | a second request of a client is ignored |
| `Scheduler.Server.UpdateResult` | p1/src/github.com/cmu440/bitcoin/server/server.go:105-128 | the new state and the answer sent, if any |
| `Scheduler.Server.HandleFailure` | p1/src/github.com/cmu440/bitcoin/server/server.go:187-201 | a lost miner's unit goes back to the front; a lost client is forgotten |
| `Scheduler.Server.AssignJobsToUnoccupiedMiner` | p1/src/github.com/cmu440/bitcoin/server/server.go:157-184 | the two nested loops assign as the state machine does, for every order of the map range and every set of reachable miners |
| `Format.FormatSelections` | p2/src/code.google.com/p/go.tools/godoc/format.go:62-143 | for well-formed selections the chunks are exactly the text, each byte under exactly the selections that cover it, chunks are as long as possible, and the link tags up to the end of the text are written once, in order and in place |
| `Format.BitsComplete` | p2/src/code.google.com/p/go.tools/godoc/format.go:128-138 | corollary: with up to 64 selections no bit is lost |
| `Format.PutSegment` | p2/src/code.google.com/p/go.tools/godoc/format.go:96-108 | the peephole keeps what is written and delayed equal to the pointwise definition |
| `Format.OnLink` | p2/src/code.google.com/p/go.tools/godoc/format.go:119-126 | a link change keeps the loop invariant |
| `Format.OnSelection` | p2/src/code.google.com/p/go.tools/godoc/format.go:127-139 | a selection change keeps the loop invariant |
| `Segments.Merger.constructor` | p2/src/code.google.com/p/go.tools/godoc/format.go:155-166 | every selection starts at its first non-empty segment |
| `Segments.Merger.Next` | p2/src/code.google.com/p/go.tools/godoc/format.go:173-209 | returns the smallest pending offset, at the first selection that has it, and consumes exactly that change |
| `Segments.Steady` | p2/src/code.google.com/p/go.tools/godoc/format.go:173-209 | between two changes a selection covers an offset if and only if the merger is inside one of its segments |
| `Segments.Advances` | p2/src/code.google.com/p/go.tools/godoc/format.go:193-208 | consuming a change loses and gains no coverage ahead, and flips being inside |

## Left out

- Paxos membership change (Put, UpdatePeers, SyncPaxosValue, the admin tool): the peer list is fixed; a lock shows only as a failed Start or Status.
- Paxos liveness: the retry loop may run for ever under contention, so `PaxosPeer.StartHelper` runs over a finite list of attempts.
- PaxosRun.Agreement: sequence numbers are unbounded there; `PaxosPeer.Int64Exactly` says when int64 arithmetic yields them. A round may use any number, which includes those the clock arithmetic yields.
- ReplicatedLog.ReplicasAgree: for runs without misread slots; `EndToEnd` says when the reports of Status give such runs.
- EndToEnd.Linearizable: the answers of a run in which a decided peer accepted a different value are not characterised; they are results on the state that the server's own reports produced.
- LSP connection set-up, closing, epoch timeouts and lost connections: one live connection is modelled, with its window constant; neither side's connection id is checked.
- The LSP server's map of connections and its queue of deferred reads: a read that has nothing to return is modelled as not yet taken.
- LspEndpoint.Endpoint.HandleData: payload sizes and checks of the packet format are not modelled.
- LspBuffer.Buffer.Insert: the doubly linked list is a sequence field; the loops walk it by index.
- MiningRun.AnswersAreMinimal: a miner joins once and answers each job once with what its loop finds, miners and clients are different connections, and connection ids are not reused.
- LeaseRun.CachesAreCoherent: all clocks agree, a key holds a value or a list but not both, and each host port is one libstore.
- The libstore's query history and its periodic clean-up: asking for a lease is a free choice, and a copy may be evicted at any time.
- LeaseNodes.RevokeGrantedLease: after a failed dial the source returns with the lock of its connection cache still taken, so a later revocation for that host blocks; here it is visited anew.
- Registration and start-up of the storage servers, apart from the sort of the ring.
- Format.FormatSelections: segments end below the constant infinity, as the iterator contract implies for real texts; selections past the 64th have no bit, as in the source.
- FormatText, line and token selections, and the rest of the vendored tools tree.
- RPC, HTTP, JSON, gob, UDP and goroutine start-up; tribserver, clients, runners and the p0 echo server: thin wrappers.
- time.Time values after gob encoding: dates count days, and operations compare by value.
