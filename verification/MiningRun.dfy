/** The mining server under any interleaving of joins, requests, results, losses and
    assignments. A miner joins once and answers each job once, with what its loop computes;
    miners and clients are different connections, and connection ids are not reused. */
module MiningRun {
  import opened Basics
  import opened Scheduler
  import opened MiningRange

  datatype Req = Req(data: string, lower: nat, upper: nat, miners: nat)

  datatype Found = Found(hash: nat, nonce: nat)

  /** An answer that went out, the request it answers, and the results it was made from. */
  datatype Sent = Sent(req: Req, found: seq<Found>, reply: Reply)

  /** A request that the server took up, and the connection it came from. */
  datatype Ask = Ask(client: int, req: Req)

  /** What happened at the connections: who joined as a miner, the requests taken up, their
      units in the order of arrival, and the results for each active client in order. */
  datatype Log = Log(joined: set<int>, asked: seq<Ask>, arrived: seq<WorkUnit>, found: map<int, seq<Found>>)

  /** The server state with its history: the requests of the active clients, the units
      each has got results for, the lost connections, and the answers sent so far. */
  datatype World = World(s: State, reqs: map<int, Req>, done: map<int, multiset<WorkUnit>>,
                         gone: set<int>, sent: seq<Sent>, log: Log)

  datatype Event =
    | Join(id: int)
    | Request(id: int, data: string, lower: nat, upper: nat)
    | Result(id: int, hash: nat, nonce: nat)
    | Lost(id: int)
    | Assign(order: seq<int>, reachable: set<int>)

  /** The requests of connection `c` that the server took up, in order. */
  ghost function AsksOf(asked: seq<Ask>, c: int): seq<Req> {
    if asked == [] then []
    else
      var k := |asked| - 1;
      AsksOf(asked[..k], c) + if asked[k].client == c then [asked[k].req] else []
  }

  ghost predicate Enabled(h: HashFn, w: World, e: Event) {
    match e
    case Join(id) => id !in w.log.joined && id !in w.gone && AsksOf(w.log.asked, id) == []
    case Request(id, _, lower, upper) => id !in w.gone && id !in w.log.joined && lower < TWO64 && upper < TWO64
    case Result(id, hash, nonce) =>
      IsWorking(w.s, id) &&
      var u := w.s.minerCurrWork[id].value;
      u.upper < MAX_UINT64 && IsMinHash(h, u.data, u.lower, u.upper, hash, nonce)
    case Lost(_) => true
    case Assign(order, _) =>
      && (forall i :: 0 <= i < |order| ==> order[i] in w.s.unOccupiedMiner)
      && (forall i, j :: 0 <= i < j < |order| ==> order[i] != order[j])
  }

  ghost function Logged(w: World, e: Event): Log {
    match e
    case Join(id) => w.log.(joined := w.log.joined + {id})
    case Request(id, data, lower, upper) =>
      if id in w.s.clients then w.log
      else
        var r := Req(data, lower, upper, |w.s.minerCurrWork|);
        w.log.(asked := w.log.asked + [Ask(id, r)], arrived := w.log.arrived + Parts(id, r),
               found := w.log.found[id := []])
    case Result(id, hash, nonce) =>
      if IsWorking(w.s, id) then
        var c := w.s.minerCurrWork[id].value.client;
        w.log.(found := w.log.found[c := FoundFor(w, c) + [Found(hash, nonce)]])
      else w.log
    case _ => w.log
  }

  ghost function FoundFor(w: World, c: int): seq<Found> {
    if c in w.log.found then w.log.found[c] else []
  }

  ghost function Do(h: HashFn, w: World, e: Event): World
    requires Enabled(h, w, e)
  {
    var log := Logged(w, e);
    match e
    case Join(id) => w.(s := OnJoin(w.s, id), log := log)
    case Request(id, data, lower, upper) =>
      var w1 := w.(s := OnRequest(w.s, id, data, lower, upper), log := log);
      if id in w.s.clients then w1
      else w1.(reqs := w.reqs[id := Req(data, lower, upper, |w.s.minerCurrWork|)], done := w.done[id := multiset{}])
    case Result(id, hash, nonce) =>
      var u := w.s.minerCurrWork[id].value;
      var (s, reply) := OnResult(w.s, id, hash, nonce);
      if u.client !in w.reqs || u.client !in w.done then w.(s := s, log := log)
      else if reply.None? then w.(s := s, done := w.done[u.client := w.done[u.client] + multiset{u}], log := log)
      else World(s, w.reqs - {u.client}, w.done - {u.client}, w.gone,
                 w.sent + [Sent(w.reqs[u.client], FoundFor(w, u.client) + [Found(hash, nonce)], reply.value)], log)
    case Lost(id) =>
      if id in w.s.minerCurrWork then w.(s := OnLost(w.s, id), gone := w.gone + {id}, log := log)
      else w.(s := OnLost(w.s, id), gone := w.gone + {id}, reqs := w.reqs - {id}, done := w.done - {id}, log := log)
    case Assign(order, reachable) => w.(s := AssignAll(w.s, order, reachable), log := log)
  }

  ghost predicate Next(h: HashFn, w: World, e: Event, w': World) {
    Enabled(h, w, e) && w' == Do(h, w, e)
  }

  ghost const START: World := World(IDLE, map[], map[], {}, [], Log({}, [], [], map[]))

  ghost predicate RunsTo(h: HashFn, run: seq<Event>, w: World)
    decreases |run|
  {
    if run == [] then w == START
    else
      var k := |run| - 1;
      exists p :: RunsTo(h, run[..k], p) && Next(h, p, run[k], w)
  }

  ghost predicate Reachable(h: HashFn, w: World) {
    exists run :: RunsTo(h, run, w)
  }

  // ---------- where the units of a client are ----------

  ghost function Mine(u: WorkUnit, c: int): multiset<WorkUnit> {
    if u.client == c then multiset{u} else multiset{}
  }

  ghost function OfClient(q: seq<WorkUnit>, c: int): seq<WorkUnit> {
    if q == [] then [] else (if q[0].client == c then [q[0]] else []) + OfClient(q[1..], c)
  }

  ghost function Queued(q: seq<WorkUnit>, c: int): multiset<WorkUnit> {
    multiset(OfClient(q, c))
  }

  ghost function HeldOne(o: Option<WorkUnit>, c: int): multiset<WorkUnit> {
    if o.Some? then Mine(o.value, c) else multiset{}
  }

  ghost function Held(m: map<int, Option<WorkUnit>>, ids: set<int>, c: int): multiset<WorkUnit>
    requires ids <= m.Keys
  {
    if ids == {} then multiset{}
    else
      var k := Pick(ids);
      HeldOne(m[k], c) + Held(m, ids - {k}, c)
  }

  /** The units of client `c` that are queued or held by a miner. */
  ghost function Pending(s: State, c: int): multiset<WorkUnit> {
    Queued(s.jobQ, c) + Held(s.minerCurrWork, s.minerCurrWork.Keys, c)
  }

  lemma {:induction false} HeldPick(m: map<int, Option<WorkUnit>>, ids: set<int>, c: int, k: int)
    requires ids <= m.Keys && k in ids
    ensures Held(m, ids, c) == HeldOne(m[k], c) + Held(m, ids - {k}, c)
  {
    var j := Pick(ids);
    if j != k {
      HeldPick(m, ids - {j}, c, k);
      HeldPick(m, ids - {k}, c, j);
      assert ids - {j} - {k} == ids - {k} - {j};
    }
  }

  lemma {:induction false} HeldFrame(m: map<int, Option<WorkUnit>>, m': map<int, Option<WorkUnit>>,
        ids: set<int>, c: int)
    requires ids <= m.Keys && ids <= m'.Keys && forall k :: k in ids ==> m[k] == m'[k]
    ensures Held(m, ids, c) == Held(m', ids, c)
  {
    if ids != {} {
      var k := Pick(ids);
      HeldFrame(m, m', ids - {k}, c);
      HeldPick(m, ids, c, k);
      HeldPick(m', ids, c, k);
    }
  }

  /** What all miners but `k` hold. */
  ghost function HeldByOthers(m: map<int, Option<WorkUnit>>, k: int, c: int): multiset<WorkUnit> {
    Held(m, m.Keys - {k}, c)
  }

  lemma HeldPut(m: map<int, Option<WorkUnit>>, k: int, o: Option<WorkUnit>, c: int)
    ensures Held(m[k := o], m[k := o].Keys, c) == HeldOne(o, c) + HeldByOthers(m, k, c)
  {
    var m' := m[k := o];
    HeldPick(m', m'.Keys, c, k);
    assert m'.Keys - {k} == m.Keys - {k};
    HeldFrame(m, m', m.Keys - {k}, c);
  }

  lemma HeldDrop(m: map<int, Option<WorkUnit>>, k: int, c: int)
    ensures Held(m - {k}, (m - {k}).Keys, c) == HeldByOthers(m, k, c)
    ensures k in m ==> Held(m, m.Keys, c) == HeldOne(m[k], c) + HeldByOthers(m, k, c)
    ensures k !in m ==> Held(m, m.Keys, c) == HeldByOthers(m, k, c)
  {
    var m' := m - {k};
    assert m'.Keys == m.Keys - {k};
    HeldFrame(m, m', m.Keys - {k}, c);
    if k in m { HeldPick(m, m.Keys, c, k); } else { assert m.Keys - {k} == m.Keys; }
  }

  lemma QueuedHead(q: seq<WorkUnit>, c: int)
    requires q != []
    ensures Queued(q, c) == Mine(q[0], c) + Queued(q[1..], c)
  {
  }

  lemma {:induction false} OfClientAppend(q: seq<WorkUnit>, q': seq<WorkUnit>, c: int)
    ensures OfClient(q + q', c) == OfClient(q, c) + OfClient(q', c)
  {
    if q == [] {
      assert q + q' == q';
    } else {
      var head := if q[0].client == c then [q[0]] else [];
      OfClientAppend(q[1..], q', c);
      assert (q + q')[0] == q[0] && (q + q')[1..] == q[1..] + q';
      Assoc(head, OfClient(q[1..], c), OfClient(q', c));
    }
  }

  lemma QueuedAppend(q: seq<WorkUnit>, q': seq<WorkUnit>, c: int)
    ensures Queued(q + q', c) == Queued(q, c) + Queued(q', c)
  {
    OfClientAppend(q, q', c);
  }

  lemma {:induction false} QueuedAll(q: seq<WorkUnit>, c: int)
    requires forall u :: u in q ==> u.client == c
    ensures OfClient(q, c) == q
  {
    if q != [] { QueuedAll(q[1..], c); }
  }

  lemma {:induction false} QueuedNone(q: seq<WorkUnit>, c: int)
    requires forall u :: u in q ==> u.client != c
    ensures OfClient(q, c) == []
  {
    if q != [] { QueuedNone(q[1..], c); }
  }

  lemma {:induction false} DropStaleKeeps(q: seq<WorkUnit>, clients: map<int, ClientStatus>, c: int)
    ensures c in clients ==> Queued(DropStale(q, clients), c) == Queued(q, c)
    ensures Queued(DropStale(q, clients), c) <= Queued(q, c)
  {
    if q != [] && q[0].client !in clients {
      QueuedHead(q, c);
      DropStaleKeeps(q[1..], clients, c);
    }
  }

  // ---------- the invariant ----------

  ghost function Parts(c: int, r: Req): seq<WorkUnit> {
    Partition(c, r.data, r.lower, r.upper, r.miners)
  }

  /** `(hash, nonce)` is the least hash found in the given units. */
  ghost predicate BestOf(h: HashFn, data: string, units: multiset<WorkUnit>, hash: nat, nonce: nat) {
    && hash <= MAX_UINT64
    && (forall u, x: nat :: u in units && Covers(u, x) ==> hash <= h(data, x))
    && (if hash < MAX_UINT64 then h(data, nonce) == hash && exists u :: u in units && Covers(u, nonce) else nonce == 0)
  }

  /** Nothing of an active request is lost or duplicated, and its status is up to date. */
  ghost predicate ClientOk(h: HashFn, w: World, c: int) {
    c in w.s.clients && c in w.reqs && c in w.done &&
    var st := w.s.clients[c];
    && Pending(w.s, c) + w.done[c] == multiset(Parts(c, w.reqs[c]))
    && st.notFinishedJob == |Pending(w.s, c)| > 0
    && BestOf(h, w.reqs[c].data, w.done[c], st.minHash, st.nonce)
    && w.reqs[c].lower < TWO64 && w.reqs[c].upper < TWO64
    && (forall u :: u in w.done[c] ==> u.upper < MAX_UINT64)
  }

  ghost predicate ClientsOk(h: HashFn, w: World) {
    && w.reqs.Keys == w.s.clients.Keys == w.done.Keys
    && (forall c :: c in w.s.clients ==> ClientOk(h, w, c))
  }

  /** A connection that may still send a request has no units left over. */
  ghost predicate NoLeftovers(w: World) {
    forall c :: c !in w.s.clients && c !in w.gone ==> Pending(w.s, c) == multiset{}
  }

  ghost predicate FreeOk(s: State) {
    forall m :: m in s.unOccupiedMiner <==> m in s.minerCurrWork && s.minerCurrWork[m].None?
  }

  ghost predicate AllSentOk(h: HashFn, w: World) {
    forall i :: 0 <= i < |w.sent| ==> SentOk(h, w.sent[i])
  }

  /** The miners are those that joined and were not lost. */
  ghost predicate MinersOk(w: World) {
    w.s.minerCurrWork.Keys == w.log.joined - w.gone
  }

  ghost predicate UnitsOk(h: HashFn, w: World) {
    ClientsOk(h, w) && NoLeftovers(w) && FreeOk(w.s) && AllSentOk(h, w)
  }

  ghost predicate Inv(h: HashFn, w: World) {
    UnitsOk(h, w) && MinersOk(w)
  }

  /** The answer sent is the minimum over the units of the request. */
  ghost predicate SentOk(h: HashFn, m: Sent) {
    && m.req.lower < TWO64 && m.req.upper < TWO64
    && (forall u :: u in Parts(m.reply.client, m.req) ==> u.upper < MAX_UINT64)
    && BestOf(h, m.req.data, multiset(Parts(m.reply.client, m.req)), m.reply.hash, m.reply.nonce)
  }

  // ---------- what each handler does to the pending units ----------

  lemma PendingAfterJoin(s: State, id: int, c: int)
    requires id !in s.minerCurrWork
    ensures Pending(OnJoin(s, id), c) == Pending(s, c)
  {
    HeldPut(s.minerCurrWork, id, None, c);
    HeldDrop(s.minerCurrWork, id, c);
  }

  lemma PartsBelong(id: int, data: string, lower: nat, upper: nat, miners: nat)
    ensures var units := Partition(id, data, lower, upper, miners);
      units != [] && forall u :: u in units ==> u.client == id && u.data == data
  {
    var units := Partition(id, data, lower, upper, miners);
    forall i | 0 <= i < |units| ensures units[i].client == id && units[i].data == data {
      if RangeSize(lower, upper) > MINER_WORKLOAD_THRESHOLD {
        assert units[i] == Piece(id, data, lower, upper, if miners == 0 then 1 else miners, i);
      }
    }
  }

  lemma PendingAfterRequest(s: State, id: int, data: string, lower: nat, upper: nat, c: int)
    requires id !in s.clients
    ensures var units := Partition(id, data, lower, upper, |s.minerCurrWork|);
      Pending(OnRequest(s, id, data, lower, upper), c)
      == Pending(s, c) + if c == id then multiset(units) else multiset{}
  {
    var units := Partition(id, data, lower, upper, |s.minerCurrWork|);
    var mine := if c == id then multiset(units) else multiset{};
    QueuedAppend(s.jobQ, units, c);
    PartsBelong(id, data, lower, upper, |s.minerCurrWork|);
    assert Queued(units, c) == mine by { if c == id { QueuedAll(units, c); } else { QueuedNone(units, c); } }
    Shifted(Queued(s.jobQ, c), mine, Held(s.minerCurrWork, s.minerCurrWork.Keys, c));
  }

  lemma Shifted(a: multiset<WorkUnit>, b: multiset<WorkUnit>, c: multiset<WorkUnit>)
    ensures (a + b) + c == (a + c) + b
  {
  }

  lemma Swapped(a: multiset<WorkUnit>, b: multiset<WorkUnit>, c: multiset<WorkUnit>)
    ensures (a + b) + c == b + (a + c)
  {
  }

  lemma PendingAfterLost(s: State, id: int, c: int)
    ensures Pending(OnLost(s, id), c) == Pending(s, c)
  {
    if id in s.minerCurrWork {
      HeldDrop(s.minerCurrWork, id, c);
      if s.minerCurrWork[id].Some? {
        var u := s.minerCurrWork[id].value;
        QueuedAppend([u], s.jobQ, c);
        assert OfClient([u], c) == if u.client == c then [u] else [];
        Swapped(Mine(u, c), Queued(s.jobQ, c), HeldByOthers(s.minerCurrWork, id, c));
      }
    }
  }

  lemma PendingAfterResult(s: State, id: int, hash: nat, nonce: nat, c: int)
    requires IsWorking(s, id)
    ensures Pending(s, c) == Pending(OnResult(s, id, hash, nonce).0, c) + Mine(s.minerCurrWork[id].value, c)
  {
    var s' := OnResult(s, id, hash, nonce).0;
    assert s'.minerCurrWork == s.minerCurrWork[id := None] && s'.jobQ == s.jobQ;
    HeldPut(s.minerCurrWork, id, None, c);
    HeldDrop(s.minerCurrWork, id, c);
    assert Held(s.minerCurrWork, s.minerCurrWork.Keys, c)
        == Mine(s.minerCurrWork[id].value, c) + Held(s'.minerCurrWork, s'.minerCurrWork.Keys, c);
  }

  lemma PendingAfterAssignTo(s: State, miner: int, reachable: bool, c: int)
    requires miner in s.minerCurrWork && s.minerCurrWork[miner].None?
    ensures c in s.clients ==> Pending(AssignTo(s, miner, reachable), c) == Pending(s, c)
    ensures Pending(AssignTo(s, miner, reachable), c) <= Pending(s, c)
  {
    var q := DropStale(s.jobQ, s.clients);
    DropStaleKeeps(s.jobQ, s.clients, c);
    if q != [] && reachable {
      HeldDrop(s.minerCurrWork, miner, c);
      HeldPut(s.minerCurrWork, miner, Some(q[0]), c);
    }
  }

  // ---------- the invariant is kept ----------

  lemma ClientStays(h: HashFn, w: World, w': World, c: int)
    requires ClientOk(h, w, c) && c in w'.s.clients && c in w'.reqs && c in w'.done
    requires w'.s.clients[c] == w.s.clients[c] && w'.reqs[c] == w.reqs[c] && w'.done[c] == w.done[c]
    requires Pending(w'.s, c) == Pending(w.s, c)
    ensures ClientOk(h, w', c)
  {
  }

  lemma PendingSame(w: World, w': World, h: HashFn)
    requires UnitsOk(h, w)
    requires w'.reqs == w.reqs && w'.done == w.done && w'.gone == w.gone && w'.sent == w.sent
    requires w'.s.clients == w.s.clients
    requires forall c :: c in w.s.clients || c !in w.gone ==> Pending(w'.s, c) == Pending(w.s, c)
    requires FreeOk(w'.s)
    ensures UnitsOk(h, w')
  {
    forall c | c in w'.s.clients ensures ClientOk(h, w', c) { ClientStays(h, w, w', c); }
  }

  lemma JoinKeeps(h: HashFn, w: World, id: int)
    requires Inv(h, w) && Enabled(h, w, Join(id))
    ensures UnitsOk(h, Do(h, w, Join(id)))
  {
    assert id !in w.s.minerCurrWork;
    forall c ensures Pending(OnJoin(w.s, id), c) == Pending(w.s, c) { PendingAfterJoin(w.s, id, c); }
    PendingSame(w, Do(h, w, Join(id)), h);
  }

  lemma NewClient(h: HashFn, w: World, id: int, data: string, lower: nat, upper: nat)
    requires UnitsOk(h, w) && Enabled(h, w, Request(id, data, lower, upper)) && id !in w.s.clients
    ensures ClientOk(h, Do(h, w, Request(id, data, lower, upper)), id)
  {
    var w' := Do(h, w, Request(id, data, lower, upper));
    var units := Parts(id, w'.reqs[id]);
    PartsBelong(id, data, lower, upper, |w.s.minerCurrWork|);
    PendingAfterRequest(w.s, id, data, lower, upper, id);
    assert Pending(w'.s, id) == multiset(units);
    assert |multiset(units)| == |units|;
    assert w'.s.clients[id] == ClientStatus(|units|, MAX_UINT64, 0);
    assert BestOf(h, data, multiset{}, MAX_UINT64, 0);
  }

  lemma RequestFrame(s: State, id: int, data: string, lower: nat, upper: nat)
    requires id !in s.clients
    ensures var s' := OnRequest(s, id, data, lower, upper);
      && s'.minerCurrWork == s.minerCurrWork && s'.unOccupiedMiner == s.unOccupiedMiner
      && s'.clients.Keys == s.clients.Keys + {id}
      && (forall c :: c in s.clients ==> s'.clients[c] == s.clients[c])
      && (forall c :: c != id ==> Pending(s', c) == Pending(s, c))
  {
    forall c | c != id ensures Pending(OnRequest(s, id, data, lower, upper), c) == Pending(s, c) {
      PendingAfterRequest(s, id, data, lower, upper, c);
    }
  }

  lemma RequestKeeps(h: HashFn, w: World, id: int, data: string, lower: nat, upper: nat)
    requires UnitsOk(h, w) && Enabled(h, w, Request(id, data, lower, upper)) && id !in w.s.clients
    ensures UnitsOk(h, Do(h, w, Request(id, data, lower, upper)))
  {
    var w' := Do(h, w, Request(id, data, lower, upper));
    RequestShape(h, w, id, data, lower, upper);
    NewClient(h, w, id, data, lower, upper);
    Admitted(h, w, w', id);
  }

  lemma RequestShape(h: HashFn, w: World, id: int, data: string, lower: nat, upper: nat)
    requires Enabled(h, w, Request(id, data, lower, upper)) && id !in w.s.clients
    requires w.reqs.Keys == w.s.clients.Keys == w.done.Keys
    ensures var w' := Do(h, w, Request(id, data, lower, upper));
      && w'.s.minerCurrWork == w.s.minerCurrWork && w'.s.unOccupiedMiner == w.s.unOccupiedMiner
      && w'.s.clients.Keys == w'.reqs.Keys == w'.done.Keys == w.s.clients.Keys + {id}
      && (forall c :: c in w.s.clients ==>
            w'.s.clients[c] == w.s.clients[c] && w'.reqs[c] == w.reqs[c] && w'.done[c] == w.done[c])
      && (forall c :: c != id ==> Pending(w'.s, c) == Pending(w.s, c))
      && w'.gone == w.gone && w'.sent == w.sent
  {
    RequestFrame(w.s, id, data, lower, upper);
  }

  lemma Admitted(h: HashFn, w: World, w': World, id: int)
    requires UnitsOk(h, w) && id !in w.s.clients && ClientOk(h, w', id)
    requires w'.s.minerCurrWork == w.s.minerCurrWork && w'.s.unOccupiedMiner == w.s.unOccupiedMiner
    requires w'.s.clients.Keys == w'.reqs.Keys == w'.done.Keys == w.s.clients.Keys + {id}
    requires forall c :: c in w.s.clients ==>
      w'.s.clients[c] == w.s.clients[c] && w'.reqs[c] == w.reqs[c] && w'.done[c] == w.done[c]
    requires forall c :: c != id ==> Pending(w'.s, c) == Pending(w.s, c)
    requires w'.gone == w.gone && w'.sent == w.sent
    ensures UnitsOk(h, w')
  {
    OthersStay(h, w, w', id);
  }

  /** Everything but client `id` carries over. */
  lemma OthersStay(h: HashFn, w: World, w': World, id: int)
    requires ClientsOk(h, w) && NoLeftovers(w)
    requires forall c :: c != id ==> Pending(w'.s, c) == Pending(w.s, c)
    requires w'.s.clients.Keys == w'.reqs.Keys == w'.done.Keys && w.gone <= w'.gone
    requires forall c :: c != id ==> (c in w'.s.clients <==> c in w.s.clients)
    requires forall c :: c != id && c in w.s.clients ==>
      w'.s.clients[c] == w.s.clients[c] && w'.reqs[c] == w.reqs[c] && w'.done[c] == w.done[c]
    requires id in w'.s.clients ==> ClientOk(h, w', id)
    requires id !in w'.s.clients && id !in w'.gone ==> Pending(w'.s, id) == multiset{}
    ensures ClientsOk(h, w') && NoLeftovers(w')
  {
    forall c | c in w'.s.clients && c != id ensures ClientOk(h, w', c) { ClientStays(h, w, w', c); }
  }

  lemma LostKeeps(h: HashFn, w: World, id: int)
    requires UnitsOk(h, w)
    ensures UnitsOk(h, Do(h, w, Lost(id)))
  {
    var w' := Do(h, w, Lost(id));
    forall c ensures Pending(w'.s, c) == Pending(w.s, c) { PendingAfterLost(w.s, id, c); }
    if id in w'.s.clients { ClientStays(h, w, w', id); }
    OthersStay(h, w, w', id);
  }

  lemma AssignToKeeps(h: HashFn, w: World, miner: int, reachable: bool)
    requires UnitsOk(h, w) && miner in w.s.unOccupiedMiner
    ensures UnitsOk(h, w.(s := AssignTo(w.s, miner, reachable)))
    ensures AssignTo(w.s, miner, reachable).unOccupiedMiner >= w.s.unOccupiedMiner - {miner}
  {
    var w' := w.(s := AssignTo(w.s, miner, reachable));
    forall c | c in w.s.clients || c !in w.gone ensures Pending(w'.s, c) == Pending(w.s, c) {
      PendingAfterAssignTo(w.s, miner, reachable, c);
    }
    PendingSame(w, w', h);
  }

  lemma {:induction false} AssignKeeps(h: HashFn, w: World, order: seq<int>, reachable: set<int>)
    requires UnitsOk(h, w) && Enabled(h, w, Assign(order, reachable))
    ensures UnitsOk(h, Do(h, w, Assign(order, reachable)))
    decreases |order|
  {
    if order != [] && w.s.jobQ != [] {
      var w1 := w.(s := AssignTo(w.s, order[0], order[0] in reachable));
      AssignToKeeps(h, w, order[0], order[0] in reachable);
      AssignKeeps(h, w1, order[1..], reachable);
    }
  }

  // ---------- results ----------

  /** Folding in the minimum of one more unit. */
  lemma BestImproves(h: HashFn, data: string, units: multiset<WorkUnit>, st: ClientStatus, u: WorkUnit,
        hash: nat, nonce: nat)
    requires BestOf(h, data, units, st.minHash, st.nonce) && IsMinHash(h, data, u.lower, u.upper, hash, nonce)
    ensures var st' := Improved(st, hash, nonce); BestOf(h, data, units + multiset{u}, st'.minHash, st'.nonce)
  {
    var st' := Improved(st, hash, nonce);
    if hash < st.minHash { assert u in units + multiset{u} && Covers(u, nonce); }
    else if st.minHash < MAX_UINT64 {
      var v :| v in units && Covers(v, st.nonce);
      assert v in units + multiset{u};
    }
  }

  /** The unit a miner works on for an active client is one of the request's. */
  lemma UnitBelongs(h: HashFn, w: World, id: int)
    requires UnitsOk(h, w) && IsWorking(w.s, id) && w.s.minerCurrWork[id].value.client in w.s.clients
    ensures var u := w.s.minerCurrWork[id].value; u.data == w.reqs[u.client].data
  {
    var u := w.s.minerCurrWork[id].value;
    var c := u.client;
    assert ClientOk(h, w, c);
    HeldDrop(w.s.minerCurrWork, id, c);
    assert u in HeldOne(w.s.minerCurrWork[id], c) && u in Pending(w.s, c);
    assert u in multiset(Parts(c, w.reqs[c]));
    PartsBelong(c, w.reqs[c].data, w.reqs[c].lower, w.reqs[c].upper, w.reqs[c].miners);
  }

  /** What a result does to the client it is for. */
  lemma ResultForClient(h: HashFn, w: World, id: int, hash: nat, nonce: nat)
    requires UnitsOk(h, w) && Enabled(h, w, Result(id, hash, nonce))
    requires w.s.minerCurrWork[id].value.client in w.s.clients
    ensures var u := w.s.minerCurrWork[id].value; var c := u.client;
      var s' := OnResult(w.s, id, hash, nonce).0;
      var st := Improved(w.s.clients[c], hash, nonce);
      && st.notFinishedJob == |Pending(s', c)|
      && Pending(s', c) + (w.done[c] + multiset{u}) == multiset(Parts(c, w.reqs[c]))
      && BestOf(h, w.reqs[c].data, w.done[c] + multiset{u}, st.minHash, st.nonce)
  {
    BestAfterResult(h, w, id, hash, nonce);
    var u := w.s.minerCurrWork[id].value;
    var c := u.client;
    assert ClientOk(h, w, c);
    PendingAfterResult(w.s, id, hash, nonce, c);
    UnitMoved(Pending(w.s, c), Pending(OnResult(w.s, id, hash, nonce).0, c), w.done[c], u);
  }

  lemma BestAfterResult(h: HashFn, w: World, id: int, hash: nat, nonce: nat)
    requires UnitsOk(h, w) && Enabled(h, w, Result(id, hash, nonce))
    requires w.s.minerCurrWork[id].value.client in w.s.clients
    ensures var u := w.s.minerCurrWork[id].value; var c := u.client;
      var st := Improved(w.s.clients[c], hash, nonce);
      BestOf(h, w.reqs[c].data, w.done[c] + multiset{u}, st.minHash, st.nonce)
  {
    var u := w.s.minerCurrWork[id].value;
    assert ClientOk(h, w, u.client);
    UnitBelongs(h, w, id);
    BestImproves(h, u.data, w.done[u.client], w.s.clients[u.client], u, hash, nonce);
  }

  /** Moving one unit from the pending to the done ones keeps their sum. */
  lemma UnitMoved(pending: multiset<WorkUnit>, pending': multiset<WorkUnit>, done: multiset<WorkUnit>, u: WorkUnit)
    requires pending == pending' + multiset{u}
    ensures pending' + (done + multiset{u}) == pending + done && |pending| == |pending'| + 1
  {
  }

  /** A result for a client that is gone only frees the miner. */
  lemma IgnoredResultKeeps(h: HashFn, w: World, id: int, hash: nat, nonce: nat)
    requires UnitsOk(h, w) && Enabled(h, w, Result(id, hash, nonce))
    requires w.s.minerCurrWork[id].value.client !in w.s.clients
    ensures UnitsOk(h, Do(h, w, Result(id, hash, nonce)))
  {
    var w', c0 := Do(h, w, Result(id, hash, nonce)), w.s.minerCurrWork[id].value.client;
    forall c ensures c != c0 ==> Pending(w'.s, c) == Pending(w.s, c) { PendingAfterResult(w.s, id, hash, nonce, c); }
    PendingAfterResult(w.s, id, hash, nonce, c0);
    OthersStay(h, w, w', c0);
  }

  lemma ClientAfterPartial(h: HashFn, w: World, id: int, hash: nat, nonce: nat)
    requires UnitsOk(h, w) && Enabled(h, w, Result(id, hash, nonce))
    requires w.s.minerCurrWork[id].value.client in w.s.clients
    requires OnResult(w.s, id, hash, nonce).1.None?
    ensures ClientOk(h, Do(h, w, Result(id, hash, nonce)), w.s.minerCurrWork[id].value.client)
  {
    assert ClientOk(h, w, w.s.minerCurrWork[id].value.client);
    ResultForClient(h, w, id, hash, nonce);
  }

  lemma FreeAfterResult(s: State, id: int, hash: nat, nonce: nat)
    requires FreeOk(s) && IsWorking(s, id)
    ensures FreeOk(OnResult(s, id, hash, nonce).0)
  {
  }

  lemma PartialFrame(h: HashFn, w: World, id: int, hash: nat, nonce: nat)
    requires w.reqs.Keys == w.s.clients.Keys == w.done.Keys
    requires Enabled(h, w, Result(id, hash, nonce)) && w.s.minerCurrWork[id].value.client in w.s.clients
    requires OnResult(w.s, id, hash, nonce).1.None?
    ensures var w', u := Do(h, w, Result(id, hash, nonce)), w.s.minerCurrWork[id].value;
      && w'.s.clients.Keys == w.s.clients.Keys == w'.done.Keys
      && w'.reqs == w.reqs && w'.gone == w.gone && w'.sent == w.sent
      && (forall c :: c != u.client && c in w.s.clients ==>
            w'.s.clients[c] == w.s.clients[c] && w'.done[c] == w.done[c])
  {
  }

  lemma OthersAfterResult(s: State, id: int, hash: nat, nonce: nat)
    requires IsWorking(s, id)
    ensures forall c :: c != s.minerCurrWork[id].value.client ==>
      Pending(OnResult(s, id, hash, nonce).0, c) == Pending(s, c)
  {
    forall c | c != s.minerCurrWork[id].value.client
      ensures Pending(OnResult(s, id, hash, nonce).0, c) == Pending(s, c)
    {
      PendingAfterResult(s, id, hash, nonce, c);
    }
  }

  /** A result that leaves units of its client pending. */
  lemma PartialResultKeeps(h: HashFn, w: World, id: int, hash: nat, nonce: nat)
    requires UnitsOk(h, w) && Enabled(h, w, Result(id, hash, nonce))
    requires w.s.minerCurrWork[id].value.client in w.s.clients
    requires OnResult(w.s, id, hash, nonce).1.None?
    ensures UnitsOk(h, Do(h, w, Result(id, hash, nonce)))
  {
    var w', u := Do(h, w, Result(id, hash, nonce)), w.s.minerCurrWork[id].value;
    ClientAfterPartial(h, w, id, hash, nonce);
    PartialFrame(h, w, id, hash, nonce);
    FreeAfterResult(w.s, id, hash, nonce);
    OthersAfterResult(w.s, id, hash, nonce);
    OthersStay(h, w, w', u.client);
  }

  /** The last result of a request: the answer goes out and the client leaves. */
  lemma LastResultKeeps(h: HashFn, w: World, id: int, hash: nat, nonce: nat)
    requires UnitsOk(h, w) && Enabled(h, w, Result(id, hash, nonce))
    requires w.s.minerCurrWork[id].value.client in w.s.clients
    requires OnResult(w.s, id, hash, nonce).1.Some?
    ensures UnitsOk(h, Do(h, w, Result(id, hash, nonce)))
  {
    var w', u := Do(h, w, Result(id, hash, nonce)), w.s.minerCurrWork[id].value;
    assert ClientOk(h, w, u.client);
    ResultForClient(h, w, id, hash, nonce);
    assert Pending(w'.s, u.client) == multiset{};
    assert w.done[u.client] + multiset{u} == multiset(Parts(u.client, w.reqs[u.client]));
    assert forall v :: v in Parts(u.client, w.reqs[u.client]) ==> v in multiset(Parts(u.client, w.reqs[u.client]));
    assert SentOk(h, w'.sent[|w.sent|]);
    OthersAfterResult(w.s, id, hash, nonce);
    OthersStay(h, w, w', u.client);
    FreeAfterResult(w.s, id, hash, nonce);
    SentGrows(h, w, w');
  }

  lemma SentGrows(h: HashFn, w: World, w': World)
    requires AllSentOk(h, w) && |w'.sent| == |w.sent| + 1 && w'.sent[..|w.sent|] == w.sent
    requires SentOk(h, w'.sent[|w.sent|])
    ensures AllSentOk(h, w')
  {
    forall i | 0 <= i < |w'.sent| ensures SentOk(h, w'.sent[i]) {
      if i < |w.sent| { assert w'.sent[i] == w.sent[i]; }
    }
  }

  lemma ResultKeeps(h: HashFn, w: World, id: int, hash: nat, nonce: nat)
    requires UnitsOk(h, w) && Enabled(h, w, Result(id, hash, nonce))
    ensures UnitsOk(h, Do(h, w, Result(id, hash, nonce)))
  {
    if w.s.minerCurrWork[id].value.client !in w.s.clients { IgnoredResultKeeps(h, w, id, hash, nonce); }
    else if OnResult(w.s, id, hash, nonce).1.None? { PartialResultKeeps(h, w, id, hash, nonce); }
    else { LastResultKeeps(h, w, id, hash, nonce); }
  }

  lemma {:induction false} AssignKeepsKeys(s: State, order: seq<int>, reachable: set<int>)
    requires forall i :: 0 <= i < |order| ==> order[i] in s.minerCurrWork
    ensures AssignAll(s, order, reachable).minerCurrWork.Keys == s.minerCurrWork.Keys
    decreases |order|
  {
    if order != [] && s.jobQ != [] {
      var s1 := AssignTo(s, order[0], order[0] in reachable);
      assert s1.minerCurrWork.Keys == s.minerCurrWork.Keys;
      AssignKeepsKeys(s1, order[1..], reachable);
    }
  }

  lemma KeysAfterLost(s: State, id: int)
    ensures OnLost(s, id).minerCurrWork.Keys == s.minerCurrWork.Keys - {id}
  {
  }

  lemma KeysAfterResult(s: State, id: int, hash: nat, nonce: nat)
    requires IsWorking(s, id)
    ensures OnResult(s, id, hash, nonce).0.minerCurrWork.Keys == s.minerCurrWork.Keys
  {
  }

  lemma FreeIsKnown(s: State, m: int)
    requires FreeOk(s) && m in s.unOccupiedMiner
    ensures m in s.minerCurrWork && s.minerCurrWork[m].None?
  {
  }

  /** What an event does to the set of known miners. */
  lemma KeysAfter(h: HashFn, w: World, e: Event)
    requires FreeOk(w.s) && Enabled(h, w, e)
    ensures Do(h, w, e).s.minerCurrWork.Keys ==
      match e
      case Join(id) => w.s.minerCurrWork.Keys + {id}
      case Lost(id) => w.s.minerCurrWork.Keys - {id}
      case _ => w.s.minerCurrWork.Keys
  {
    match e {
      case Join(id) =>
      case Request(id, data, lower, upper) =>
      case Result(id, hash, nonce) => KeysAfterResult(w.s, id, hash, nonce);
      case Lost(id) => KeysAfterLost(w.s, id);
      case Assign(order, reachable) =>
        forall i | 0 <= i < |order| ensures order[i] in w.s.minerCurrWork { FreeIsKnown(w.s, order[i]); }
        AssignKeepsKeys(w.s, order, reachable);
    }
  }

  lemma MinersKept(h: HashFn, w: World, e: Event)
    requires FreeOk(w.s) && MinersOk(w) && Enabled(h, w, e)
    ensures MinersOk(Do(h, w, e))
  {
    KeysAfter(h, w, e);
  }

  lemma StepKeeps(h: HashFn, w: World, e: Event)
    requires Inv(h, w) && Enabled(h, w, e)
    ensures Inv(h, Do(h, w, e))
  {
    MinersKept(h, w, e);
    match e
    case Join(id) => JoinKeeps(h, w, id);
    case Request(id, data, lower, upper) =>
      if id !in w.s.clients { RequestKeeps(h, w, id, data, lower, upper); } else { PendingSame(w, Do(h, w, e), h); }
    case Result(id, hash, nonce) => ResultKeeps(h, w, id, hash, nonce);
    case Lost(id) => LostKeeps(h, w, id);
    case Assign(order, reachable) => AssignKeeps(h, w, order, reachable);
  }

  lemma {:induction false} RunKeeps(h: HashFn, run: seq<Event>, w: World)
    requires RunsTo(h, run, w)
    ensures Inv(h, w)
    decreases |run|
  {
    if run != [] {
      var k := |run| - 1;
      var p :| RunsTo(h, run[..k], p) && Next(h, p, run[k], w);
      RunKeeps(h, run[..k], p);
      StepKeeps(h, p, run[k]);
    }
  }

  lemma ReachableInv(h: HashFn, w: World)
    requires Reachable(h, w)
    ensures Inv(h, w)
  {
    var run :| RunsTo(h, run, w);
    RunKeeps(h, run, w);
  }

  // ---------- the theorems ----------

  /** In every run, for every active client: its unfinished count is its units in the queue
      plus those at miners, these and the finished ones are exactly the units of its request,
      and the free miners are exactly those without work. */
  lemma UnitsConserved(h: HashFn, w: World, c: int)
    requires Reachable(h, w) && c in w.s.clients
    ensures c in w.reqs && c in w.done
    ensures w.s.clients[c].notFinishedJob
         == |Queued(w.s.jobQ, c)| + |Held(w.s.minerCurrWork, w.s.minerCurrWork.Keys, c)|
    ensures Pending(w.s, c) + w.done[c] == multiset(Parts(c, w.reqs[c]))
    ensures forall m :: m in w.s.unOccupiedMiner <==> m in w.s.minerCurrWork && w.s.minerCurrWork[m].None?
  {
    ReachableInv(h, w);
    assert ClientOk(h, w, c);
  }

  /** In every run, whatever joins, losses and requeues happened on the way, every answer
      sent to a request that is not reversed is the minimum over the whole requested range,
      with the nonce that attains it. A request that fails the check `Splits` never gets an
      answer, since one of its units keeps a miner busy for ever. */
  lemma AnswersAreMinimal(h: HashFn, w: World, i: nat)
    requires Reachable(h, w) && i < |w.sent|
    ensures var r, a := w.sent[i].req, w.sent[i].reply;
      r.lower <= r.upper ==>
        Splits(r.lower, r.upper, r.miners) && IsMinHash(h, r.data, r.lower, r.upper, a.hash, a.nonce)
  {
    ReachableInv(h, w);
    var r, a := w.sent[i].req, w.sent[i].reply;
    assert SentOk(h, w.sent[i]);
    if r.lower <= r.upper {
      AnsweredSplits(r, a.client);
      PartitionTiles(a.client, r.data, r.lower, r.upper, r.miners);
      MinOverCover(h, r, a, Parts(a.client, r));
    }
  }

  /** A request all of whose units can be answered passes the check. */
  lemma AnsweredSplits(r: Req, client: int)
    requires r.lower <= r.upper < TWO64 && forall u :: u in Parts(client, r) ==> u.upper < MAX_UINT64
    ensures Splits(r.lower, r.upper, r.miners)
  {
    SizeOf(r.lower, r.upper);
    if MINER_WORKLOAD_THRESHOLD < RangeSize(r.lower, r.upper) < r.miners {
      ZeroInterval(client, r.data, r.lower, r.upper, r.miners);
      assert Parts(client, r)[0] in Parts(client, r);
    }
  }

  /** The answer to a reversed request, whose range is empty, says so if and only if its units
      cover nothing either, or no nonce in them has a hash below the greatest uint64. */
  lemma ReversedAnswer(h: HashFn, w: World, i: nat)
    requires Reachable(h, w) && i < |w.sent| && w.sent[i].req.lower > w.sent[i].req.upper
    ensures var r, a := w.sent[i].req, w.sent[i].reply;
      IsMinHash(h, r.data, r.lower, r.upper, a.hash, a.nonce) <==>
        forall u, x: nat :: u in Parts(a.client, r) && Covers(u, x) ==> h(r.data, x) >= MAX_UINT64
  {
    ReachableInv(h, w);
    var r, a := w.sent[i].req, w.sent[i].reply;
    assert SentOk(h, w.sent[i]);
    var units := Parts(a.client, r);
    assert forall u :: u in multiset(units) <==> u in units;
    if a.hash < MAX_UINT64 {
      var u :| u in multiset(units) && Covers(u, a.nonce);
      assert u in units && h(r.data, a.nonce) < MAX_UINT64;
    } else {
      forall u, x: nat | u in units && Covers(u, x) ensures h(r.data, x) >= MAX_UINT64 { assert u in multiset(units); }
    }
  }

  lemma MinOverCover(h: HashFn, r: Req, a: Reply, units: seq<WorkUnit>)
    requires ExactCover(units, r.lower, r.upper) && BestOf(h, r.data, multiset(units), a.hash, a.nonce)
    ensures IsMinHash(h, r.data, r.lower, r.upper, a.hash, a.nonce)
  {
    forall x: nat | r.lower <= x <= r.upper ensures a.hash <= h(r.data, x) {
      assert Covered(units, x);
      var i :| 0 <= i < |units| && Covers(units[i], x);
      assert units[i] in multiset(units);
    }
    if a.hash < MAX_UINT64 {
      var u :| u in multiset(units) && Covers(u, a.nonce);
      var i :| 0 <= i < |units| && units[i] == u;
      assert Covers(units[i], a.nonce);
    }
  }

  /** A lost miner's unit is the next one handed out, if its client is still there. */
  lemma LostUnitIsNext(s: State, lost: int, miner: int)
    requires IsWorking(s, lost) && s.minerCurrWork[lost].value.client in s.clients && miner != lost
    ensures AssignTo(OnLost(s, lost), miner, true).minerCurrWork
         == (s.minerCurrWork - {lost})[miner := s.minerCurrWork[lost]]
    ensures AssignTo(OnLost(s, lost), miner, true).jobQ == s.jobQ
  {
    var u := s.minerCurrWork[lost].value;
    assert ([u] + s.jobQ)[1..] == s.jobQ;
  }

  /** After an assignment round over all free miners, either no work is queued or every
      miner left free could not be reached. */
  lemma {:induction false} AssignmentIsGreedy(s: State, order: seq<int>, reachable: set<int>, m: int)
    requires m in order
    requires forall i, j :: 0 <= i < j < |order| ==> order[i] != order[j]
    ensures var s' := AssignAll(s, order, reachable);
      s'.jobQ != [] && m in s'.unOccupiedMiner ==> m !in reachable
    decreases |order|
  {
    if s.jobQ != [] {
      var s1 := AssignTo(s, order[0], order[0] in reachable);
      if m == order[0] { StaysTaken(s1, order[1..], reachable, m); }
      else { AssignmentIsGreedy(s1, order[1..], reachable, m); }
    }
  }

  lemma {:induction false} StaysTaken(s: State, order: seq<int>, reachable: set<int>, m: int)
    ensures var s' := AssignAll(s, order, reachable);
      && (m !in s.unOccupiedMiner ==> m !in s'.unOccupiedMiner)
      && (s.jobQ == [] ==> s'.jobQ == [])
    decreases |order|
  {
    if order != [] && s.jobQ != [] {
      StaysTaken(AssignTo(s, order[0], order[0] in reachable), order[1..], reachable, m);
    }
  }
}
