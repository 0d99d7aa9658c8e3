/** The airline state machine that every replica runs over the Paxos log, and what the
    log as a whole says about tickets. Dates count days. */
module Airline {

  datatype OpType = MyReservation | CheckTickets | ReserveTicket | AddFlight | CancelFlight | EditFlight | NoOp

  datatype Op = Op(kind: OpType, timestamp: int, userName: string, flightId: string,
                   startDate: int, endDate: int, ticketNum: int)
  {
    function Flight(): FlightKey { FlightKey(flightId, startDate) }
  }

  datatype FlightKey = FlightKey(flightId: string, date: int)
  datatype FlightInfo = FlightInfo(flightId: string, date: int, ticketNum: int)

  datatype State = State(reserved: map<string, seq<FlightInfo>>, status: map<FlightKey, int>)

  datatype Result = Flights(flights: seq<FlightInfo>) | Status(ok: bool) | Nothing

  const EMPTY: State := State(map[], map[])

  function KeyOf(info: FlightInfo): FlightKey { FlightKey(info.flightId, info.date) }

  function Account(s: State, user: string): seq<FlightInfo> {
    if user in s.reserved then s.reserved[user] else []
  }

  /** The entries of an account whose flight still exists. */
  function Live(status: map<FlightKey, int>, infos: seq<FlightInfo>): seq<FlightInfo> {
    if infos == [] then []
    else
      var k := |infos| - 1;
      Live(status, infos[..k]) + if KeyOf(infos[k]) in status then [infos[k]] else []
  }

  /** `r` is what stands at the positions `idx` of `infos`: in order, exactly those whose
      flight exists. */
  ghost predicate Picks(status: map<FlightKey, int>, infos: seq<FlightInfo>, idx: seq<nat>, r: seq<FlightInfo>) {
    && |idx| == |r|
    && (forall k :: 0 <= k < |idx| ==> idx[k] < |infos| && r[k] == infos[idx[k]] && KeyOf(r[k]) in status)
    && (forall j, k :: 0 <= j < k < |idx| ==> idx[j] < idx[k])
    && (forall p: nat :: p < |infos| && KeyOf(infos[p]) in status ==> Picked(idx, p))
  }

  ghost predicate Picked(idx: seq<nat>, p: nat) {
    exists k :: 0 <= k < |idx| && idx[k] == p
  }

  lemma PicksOneMore(status: map<FlightKey, int>, infos: seq<FlightInfo>, idx: seq<nat>, r: seq<FlightInfo>,
        info: FlightInfo)
    requires Picks(status, infos, idx, r) && KeyOf(info) in status
    ensures Picks(status, infos + [info], idx + [|infos|], r + [info])
  {
    var idx' := idx + [|infos|];
    assert idx'[|idx|] == |infos|;
    forall p: nat | p < |infos| && KeyOf(infos[p]) in status ensures Picked(idx', p) {
      var k :| 0 <= k < |idx| && idx[k] == p;
      assert idx'[k] == p;
    }
  }

  lemma PicksNoMore(status: map<FlightKey, int>, infos: seq<FlightInfo>, idx: seq<nat>, r: seq<FlightInfo>,
        info: FlightInfo)
    requires Picks(status, infos, idx, r) && KeyOf(info) !in status
    ensures Picks(status, infos + [info], idx, r)
  {
  }

  /** Live keeps, in order, exactly the entries whose flight exists: `idx` lists their positions. */
  lemma {:induction false} LiveExactly(status: map<FlightKey, int>, infos: seq<FlightInfo>) returns (idx: seq<nat>)
    ensures Picks(status, infos, idx, Live(status, infos))
  {
    idx := [];
    if infos != [] {
      var k := |infos| - 1;
      var before := LiveExactly(status, infos[..k]);
      assert infos[..k] + [infos[k]] == infos;
      if KeyOf(infos[k]) in status {
        idx := before + [k];
        PicksOneMore(status, infos[..k], before, Live(status, infos[..k]), infos[k]);
      } else {
        idx := before;
        PicksNoMore(status, infos[..k], before, Live(status, infos[..k]), infos[k]);
      }
    }
  }

  /** The days of `[first, last]` on which the flight has tickets left. */
  function Available(status: map<FlightKey, int>, flightId: string, first: int, last: int): seq<FlightInfo>
    decreases last - first + 1
  {
    if first > last then []
    else
      var k := FlightKey(flightId, last);
      Available(status, flightId, first, last - 1)
      + if k in status && status[k] > 0 then [FlightInfo(flightId, last, status[k])] else []
  }

  predicate TicketsLeft(status: map<FlightKey, int>, i: FlightInfo) {
    KeyOf(i) in status && status[KeyOf(i)] == i.ticketNum > 0
  }

  predicate DatesRise(r: seq<FlightInfo>, last: int) {
    && (forall j :: 0 <= j < |r| ==> r[j].date <= last)
    && (forall j, k :: 0 <= j < k < |r| ==> r[j].date < r[k].date)
  }

  lemma {:induction false} AvailableHas(status: map<FlightKey, int>, flightId: string, first: int, last: int,
        i: FlightInfo)
    ensures i in Available(status, flightId, first, last)
       <==> i.flightId == flightId && first <= i.date <= last && TicketsLeft(status, i)
    decreases last - first + 1
  {
    if first <= last { AvailableHas(status, flightId, first, last - 1, i); }
  }

  /** Available lists exactly the days asked for that have tickets left, each once, in
      order, with the count left. */
  lemma AvailableExactly(status: map<FlightKey, int>, flightId: string, first: int, last: int)
    ensures var r := Available(status, flightId, first, last);
      && DatesRise(r, last)
      && forall i :: i in r <==> i.flightId == flightId && first <= i.date <= last && TicketsLeft(status, i)
  {
    forall i ensures i in Available(status, flightId, first, last)
                <==> i.flightId == flightId && first <= i.date <= last && TicketsLeft(status, i)
    {
      AvailableHas(status, flightId, first, last, i);
    }
    AvailableOrder(status, flightId, first, last);
  }

  lemma {:induction false} AvailableOrder(status: map<FlightKey, int>, flightId: string, first: int, last: int)
    ensures DatesRise(Available(status, flightId, first, last), last)
    decreases last - first + 1
  {
    if first <= last { AvailableOrder(status, flightId, first, last - 1); }
  }

  /** What executing one decided operation does and answers. */
  function Apply(s: State, op: Op): (State, Result) {
    var f := op.Flight();
    match op.kind
    case MyReservation => (s, Flights(Live(s.status, Account(s, op.userName))))
    case CheckTickets => (s, Flights(Available(s.status, op.flightId, op.startDate, op.endDate)))
    case ReserveTicket =>
      if f in s.status && s.status[f] > 0 then
        (State(s.reserved[op.userName := Account(s, op.userName) + [FlightInfo(op.flightId, op.startDate, 0)]],
               s.status[f := s.status[f] - 1]), Status(true))
      else (s, Status(false))
    case AddFlight =>
      if f !in s.status then (s.(status := s.status[f := op.ticketNum]), Status(true)) else (s, Status(false))
    case CancelFlight =>
      if f in s.status then (s.(status := s.status - {f}), Status(true)) else (s, Status(false))
    case EditFlight =>
      if f in s.status then (s.(status := s.status[f := op.ticketNum]), Status(true)) else (s, Status(false))
    case NoOp => (s, Nothing)
  }

  function Replay(s: State, log: seq<Op>): State {
    if log == [] then s else Apply(Replay(s, log[..|log| - 1]), log[|log| - 1]).0
  }

  lemma {:induction false} ReplayAppends(s: State, log: seq<Op>, more: seq<Op>)
    ensures Replay(s, log + more) == Replay(Replay(s, log), more)
  {
    if more == [] {
      assert log + more == log;
    } else {
      var k := |more| - 1;
      assert (log + more)[..|log + more| - 1] == log + more[..k];
      ReplayAppends(s, log, more[..k]);
    }
  }

  /** Queries and NoOps can be dropped from a log without changing what it does to the
      state; only the four commands matter. */
  lemma {:induction false} QueriesAreInvisible(s: State, log: seq<Op>)
    ensures Replay(s, log) == Replay(s, Commands(log))
  {
    if log != [] {
      var k := |log| - 1;
      QueriesAreInvisible(s, log[..k]);
      if IsCommand(log[k]) {
        assert Commands(log)[..|Commands(log)| - 1] == Commands(log[..k]);
      } else {
        assert Commands(log) == Commands(log[..k]);
      }
    }
  }

  predicate IsCommand(op: Op) {
    op.kind.ReserveTicket? || op.kind.AddFlight? || op.kind.CancelFlight? || op.kind.EditFlight?
  }

  function Commands(log: seq<Op>): seq<Op> {
    if log == [] then []
    else
      var k := |log| - 1;
      Commands(log[..k]) + if IsCommand(log[k]) then [log[k]] else []
  }

  // ---------- what the log says about one flight ----------

  /** The last operation of the log reports success. */
  predicate LastSucceeds(log: seq<Op>)
    requires log != []
  {
    Apply(Replay(EMPTY, log[..|log| - 1]), log[|log| - 1]).1 == Status(true)
  }

  /** The last operation is a successful one of the given kind on flight `f`. */
  predicate LastIs(log: seq<Op>, f: FlightKey, kind: OpType)
    requires log != []
  {
    log[|log| - 1].kind == kind && log[|log| - 1].Flight() == f && LastSucceeds(log)
  }

  datatype Count = Absent | Set(tickets: int)

  /** The count that the last successful add or edit of `f` set, unless it was cancelled since. */
  function LastSet(log: seq<Op>, f: FlightKey): Count {
    if log == [] then Absent
    else if LastIs(log, f, AddFlight) || LastIs(log, f, EditFlight) then Set(log[|log| - 1].ticketNum)
    else if LastIs(log, f, CancelFlight) then Absent
    else LastSet(log[..|log| - 1], f)
  }

  /** The successful reservations of `f` since its count was last set. */
  function SoldSince(log: seq<Op>, f: FlightKey): nat {
    if log == [] then 0
    else if LastIs(log, f, AddFlight) || LastIs(log, f, EditFlight) || LastIs(log, f, CancelFlight) then 0
    else SoldSince(log[..|log| - 1], f) + if LastIs(log, f, ReserveTicket) then 1 else 0
  }

  /** All successful reservations of `f`. */
  function Sold(log: seq<Op>, f: FlightKey): nat {
    if log == [] then 0
    else Sold(log[..|log| - 1], f) + if LastIs(log, f, ReserveTicket) then 1 else 0
  }

  /** Over every log, the remaining count of a flight is the count last set less the
      reservations since, and no more than that count is ever sold. */
  lemma {:induction false} TicketsConserved(log: seq<Op>, f: FlightKey)
    ensures var st := Replay(EMPTY, log).status;
      && (f in st <==> LastSet(log, f).Set?)
      && (f in st ==> st[f] == LastSet(log, f).tickets - SoldSince(log, f))
      && (SoldSince(log, f) > 0 ==> LastSet(log, f).Set? && SoldSince(log, f) <= LastSet(log, f).tickets)
  {
    if log != [] {
      TicketsConserved(log[..|log| - 1], f);
    }
  }

  /** Which commands succeed, in terms of the log alone: a reservation while tickets are
      left, an addition while the flight is absent, the other two while it is there. */
  lemma SuccessExactly(log: seq<Op>, op: Op)
    requires IsCommand(op)
    ensures var set', sold := LastSet(log, op.Flight()), SoldSince(log, op.Flight());
      Apply(Replay(EMPTY, log), op).1 == Status(
        match op.kind
        case ReserveTicket => set'.Set? && sold < set'.tickets
        case AddFlight => set'.Absent?
        case _ => set'.Set?)
  {
    TicketsConserved(log, op.Flight());
  }

  // ---------- accounts ----------

  function CountOf(infos: seq<FlightInfo>, f: FlightKey): nat {
    if infos == [] then 0 else CountOf(infos[..|infos| - 1], f) + if KeyOf(infos[|infos| - 1]) == f then 1 else 0
  }

  /** The successful reservations of `f` by one user. */
  function SoldTo(log: seq<Op>, user: string, f: FlightKey): nat {
    if log == [] then 0
    else
      SoldTo(log[..|log| - 1], user, f)
      + if LastIs(log, f, ReserveTicket) && log[|log| - 1].userName == user then 1 else 0
  }

  lemma AccountStep(s: State, op: Op, user: string, f: FlightKey)
    ensures CountOf(Account(Apply(s, op).0, user), f) == CountOf(Account(s, user), f)
      + if op.kind.ReserveTicket? && Apply(s, op).1 == Status(true) && op.userName == user && op.Flight() == f
        then 1 else 0
  {
    var infos, info := Account(s, user), FlightInfo(op.flightId, op.startDate, 0);
    assert (infos + [info])[..|infos + [info]| - 1] == infos;
  }

  /** Over every log, a user's account holds one entry per successful reservation of that user. */
  lemma {:induction false} AccountsConserved(log: seq<Op>, user: string, f: FlightKey)
    ensures CountOf(Account(Replay(EMPTY, log), user), f) == SoldTo(log, user, f)
  {
    if log != [] {
      var k := |log| - 1;
      AccountsConserved(log[..k], user, f);
      AccountStep(Replay(EMPTY, log[..k]), log[k], user, f);
    }
  }

  /** A user's successful reservations, in order. */
  function Bookings(log: seq<Op>, user: string): seq<FlightInfo> {
    if log == [] then []
    else
      var op := log[|log| - 1];
      Bookings(log[..|log| - 1], user)
      + if op.kind.ReserveTicket? && op.userName == user && LastSucceeds(log)
        then [FlightInfo(op.flightId, op.startDate, 0)] else []
  }

  /** Over every log, an account is its user's successful reservations, in order. */
  lemma {:induction false} AccountIsBookings(log: seq<Op>, user: string)
    ensures Account(Replay(EMPTY, log), user) == Bookings(log, user)
  {
    if log != [] { AccountIsBookings(log[..|log| - 1], user); }
  }

  /** The bookings whose flight is there at the end of the log. */
  function Standing(log: seq<Op>, infos: seq<FlightInfo>): seq<FlightInfo> {
    if infos == [] then []
    else
      var k := |infos| - 1;
      Standing(log, infos[..k]) + if LastSet(log, KeyOf(infos[k])).Set? then [infos[k]] else []
  }

  lemma {:induction false} LiveIsStanding(log: seq<Op>, infos: seq<FlightInfo>)
    ensures Live(Replay(EMPTY, log).status, infos) == Standing(log, infos)
  {
    if infos != [] {
      LiveIsStanding(log, infos[..|infos| - 1]);
      TicketsConserved(log, KeyOf(infos[|infos| - 1]));
    }
  }

  lemma {:induction false} StandingCount(log: seq<Op>, infos: seq<FlightInfo>, f: FlightKey)
    ensures CountOf(Standing(log, infos), f) == if LastSet(log, f).Set? then CountOf(infos, f) else 0
  {
    if infos != [] {
      var k := |infos| - 1;
      StandingCount(log, infos[..k], f);
      var before := Standing(log, infos[..k]);
      CountAppend(before, infos[k], f);
      assert Standing(log, infos) == if LastSet(log, KeyOf(infos[k])).Set? then before + [infos[k]] else before;
    }
  }

  lemma CountAppend(infos: seq<FlightInfo>, info: FlightInfo, f: FlightKey)
    ensures CountOf(infos + [info], f) == CountOf(infos, f) + if KeyOf(info) == f then 1 else 0
  {
    assert (infos + [info])[..|infos + [info]| - 1] == infos;
  }

  /** The answer to MyReservation, in terms of the log alone: the user's successful
      reservations, in order, of the flights that are still there. Of each flight it lists as
      many entries as the user has reserved, or none if the flight is not there. */
  lemma MyReservationExactly(log: seq<Op>, op: Op)
    requires op.kind.MyReservation?
    ensures var r := Apply(Replay(EMPTY, log), op).1;
      && r == Flights(Standing(log, Bookings(log, op.userName)))
      && forall f :: CountOf(r.flights, f) == if LastSet(log, f).Set? then SoldTo(log, op.userName, f) else 0
  {
    var infos := Bookings(log, op.userName);
    AccountIsBookings(log, op.userName);
    LiveIsStanding(log, infos);
    forall f
      ensures CountOf(Standing(log, infos), f) == if LastSet(log, f).Set? then SoldTo(log, op.userName, f) else 0
    {
      StandingCount(log, infos, f);
      AccountsConserved(log, op.userName, f);
    }
  }

  /** The answer to CheckTickets, in terms of the log alone: an entry is listed if and only if
      its flight and day were asked for and its count, positive, is the count last set less
      the reservations since; entries are in the order of their days. */
  lemma CheckTicketsExactly(log: seq<Op>, op: Op)
    requires op.kind.CheckTickets?
    ensures var r := Apply(Replay(EMPTY, log), op).1;
      && r.Flights? && DatesRise(r.flights, op.endDate)
      && forall i :: i in r.flights <==> Listed(log, op, i)
  {
    var st := Replay(EMPTY, log).status;
    AvailableExactly(st, op.flightId, op.startDate, op.endDate);
    forall i ensures i in Available(st, op.flightId, op.startDate, op.endDate) <==> Listed(log, op, i) {
      TicketsConserved(log, KeyOf(i));
    }
  }

  predicate Listed(log: seq<Op>, op: Op, i: FlightInfo) {
    && i.flightId == op.flightId && op.startDate <= i.date <= op.endDate
    && LastSet(log, KeyOf(i)).Set? && i.ticketNum == LastSet(log, KeyOf(i)).tickets - SoldSince(log, KeyOf(i)) > 0
  }

  /** The account entries for `f`, summed over the given users. */
  ghost function Entries(reserved: map<string, seq<FlightInfo>>, users: set<string>, f: FlightKey): nat
    requires users <= reserved.Keys
  {
    if users == {} then 0
    else
      var u :| u in users;
      CountOf(reserved[u], f) + Entries(reserved, users - {u}, f)
  }

  lemma {:induction false} EntriesPick(reserved: map<string, seq<FlightInfo>>, users: set<string>,
        f: FlightKey, u: string)
    requires users <= reserved.Keys && u in users
    ensures Entries(reserved, users, f) == CountOf(reserved[u], f) + Entries(reserved, users - {u}, f)
  {
    var w :| w in users && Entries(reserved, users, f) == CountOf(reserved[w], f) + Entries(reserved, users - {w}, f);
    if w != u {
      EntriesPick(reserved, users - {w}, f, u);
      EntriesPick(reserved, users - {u}, f, w);
      assert users - {w} - {u} == users - {u} - {w};
    }
  }

  lemma {:induction false} EntriesFrame(r: map<string, seq<FlightInfo>>, r': map<string, seq<FlightInfo>>,
        users: set<string>, f: FlightKey)
    requires users <= r.Keys && users <= r'.Keys
    requires forall u :: u in users ==> r[u] == r'[u]
    ensures Entries(r, users, f) == Entries(r', users, f)
  {
    if users != {} {
      var u :| u in users;
      EntriesFrame(r, r', users - {u}, f);
      EntriesPick(r, users, f, u);
      EntriesPick(r', users, f, u);
    }
  }

  lemma EntriesAdd(r: map<string, seq<FlightInfo>>, user: string, infos: seq<FlightInfo>, info: FlightInfo,
        f: FlightKey)
    requires infos == if user in r then r[user] else []
    ensures var r' := r[user := infos + [info]];
      Entries(r', r'.Keys, f) == Entries(r, r.Keys, f) + if KeyOf(info) == f then 1 else 0
  {
    var r' := r[user := infos + [info]];
    EntriesPick(r', r'.Keys, f, user);
    assert (infos + [info])[..|infos + [info]| - 1] == infos;
    assert r'.Keys - {user} == r.Keys - {user};
    EntriesFrame(r, r', r.Keys - {user}, f);
    if user in r { EntriesPick(r, r.Keys, f, user); }
    else { assert r.Keys - {user} == r.Keys; }
  }

  /** Over every log, the account entries for a flight, summed over all users, are exactly
      its successful reservations. */
  lemma {:induction false} ReservationsConserved(log: seq<Op>, f: FlightKey)
    ensures var r := Replay(EMPTY, log).reserved; Entries(r, r.Keys, f) == Sold(log, f)
  {
    if log != [] {
      var k := |log| - 1;
      ReservationsConserved(log[..k], f);
      EntriesStep(Replay(EMPTY, log[..k]), log[k], f);
    }
  }

  lemma EntriesStep(s: State, op: Op, f: FlightKey)
    ensures var s' := Apply(s, op).0;
      Entries(s'.reserved, s'.reserved.Keys, f) == Entries(s.reserved, s.reserved.Keys, f)
      + if op.kind.ReserveTicket? && Apply(s, op).1 == Status(true) && op.Flight() == f then 1 else 0
  {
    if op.kind.ReserveTicket? && Apply(s, op).1 == Status(true) {
      EntriesAdd(s.reserved, op.userName, Account(s, op.userName), FlightInfo(op.flightId, op.startDate, 0), f);
    }
  }
}
