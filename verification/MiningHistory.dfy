/** What the mining server owes to its history: who gets which answer, from which results,
    and in which order work is handed out. */
module MiningHistory {
  import opened Basics
  import opened Scheduler
  import opened MiningRange
  import opened MiningRun

  // ---------- every request gets its one answer ----------

  /** The requests that were answered to connection `c`, in order. */
  ghost function AnswersTo(sent: seq<Sent>, c: int): seq<Req> {
    if sent == [] then []
    else
      var k := |sent| - 1;
      AnswersTo(sent[..k], c) + if sent[k].reply.client == c then [sent[k].req] else []
  }

  ghost function Active(w: World, c: int): Option<Req> {
    if c in w.s.clients && c in w.reqs then Some(w.reqs[c]) else None
  }

  ghost predicate Owed(asks: seq<Req>, answers: seq<Req>, active: Option<Req>, gone: bool) {
    if gone then active.None? && answers <= asks && |asks| <= |answers| + 1
    else asks == answers + if active.Some? then [active.value] else []
  }

  /** Everything `c` asked is answered, in order, but for its active request; once `c` is
      lost, the active request may stay unanswered. */
  ghost predicate AsksOk(w: World, c: int) {
    Owed(AsksOf(w.log.asked, c), AnswersTo(w.sent, c), Active(w, c), c in w.gone)
  }

  ghost predicate SameKeys(w: World) {
    w.reqs.Keys == w.s.clients.Keys == w.done.Keys
  }

  ghost predicate AllAsksOk(w: World) {
    && (forall c :: AsksOk(w, c))
    && (forall c :: c in w.log.joined ==> AsksOf(w.log.asked, c) == [])
  }

  lemma AsksAppend(asked: seq<Ask>, a: Ask, c: int)
    ensures AsksOf(asked + [a], c) == AsksOf(asked, c) + if a.client == c then [a.req] else []
  {
    assert (asked + [a])[..|asked|] == asked;
  }

  lemma AnswersAppend(sent: seq<Sent>, m: Sent, c: int)
    ensures AnswersTo(sent + [m], c) == AnswersTo(sent, c) + if m.reply.client == c then [m.req] else []
  {
    assert (sent + [m])[..|sent|] == sent;
  }

  lemma RequestKeepsAsks(h: HashFn, w: World, id: int, data: string, lower: nat, upper: nat, c: int)
    requires SameKeys(w) && Enabled(h, w, Request(id, data, lower, upper)) && AsksOk(w, c)
    ensures AsksOk(Do(h, w, Request(id, data, lower, upper)), c)
  {
    if id !in w.s.clients {
      var w', r := Do(h, w, Request(id, data, lower, upper)), Req(data, lower, upper, |w.s.minerCurrWork|);
      AsksAppend(w.log.asked, Ask(id, r), c);
      ActiveAfterRequest(h, w, id, data, lower, upper, c);
      if c == id { OwedMore(AsksOf(w.log.asked, id), AnswersTo(w.sent, id), r); }
    }
  }

  lemma OwedMore(asks: seq<Req>, answers: seq<Req>, r: Req)
    requires Owed(asks, answers, None, false)
    ensures Owed(asks + [r], answers, Some(r), false)
  {
  }

  lemma ActiveAfterRequest(h: HashFn, w: World, id: int, data: string, lower: nat, upper: nat, c: int)
    requires Enabled(h, w, Request(id, data, lower, upper)) && id !in w.s.clients
    ensures var w' := Do(h, w, Request(id, data, lower, upper));
      && Active(w', c) == (if c == id then Some(Req(data, lower, upper, |w.s.minerCurrWork|)) else Active(w, c))
      && w'.sent == w.sent && w'.gone == w.gone
  {
  }

  lemma ResultClients(s: State, id: int, hash: nat, nonce: nat)
    requires IsWorking(s, id)
    ensures var (s', reply) := OnResult(s, id, hash, nonce); var c := s.minerCurrWork[id].value.client;
      && s'.clients.Keys == s.clients.Keys - (if reply.Some? then {c} else {})
      && (reply.Some? ==> c in s.clients && reply.value.client == c)
  {
  }

  lemma ActiveAfterResult(h: HashFn, w: World, id: int, hash: nat, nonce: nat, c: int)
    requires SameKeys(w) && Enabled(h, w, Result(id, hash, nonce))
    ensures var w', u := Do(h, w, Result(id, hash, nonce)), w.s.minerCurrWork[id].value;
      var reply := OnResult(w.s, id, hash, nonce).1;
      && Active(w', c) == (if reply.Some? && c == u.client then None else Active(w, c))
      && (if reply.Some?
          then Active(w, u.client).Some? && reply.value.client == u.client
               && w'.sent == w.sent + [
                    Sent(w.reqs[u.client], FoundFor(w, u.client) + [Found(hash, nonce)], reply.value)]
          else w'.sent == w.sent)
  {
    ResultClients(w.s, id, hash, nonce);
  }

  lemma ResultKeepsAsks(h: HashFn, w: World, id: int, hash: nat, nonce: nat, c: int)
    requires SameKeys(w) && Enabled(h, w, Result(id, hash, nonce)) && AsksOk(w, c)
    ensures AsksOk(Do(h, w, Result(id, hash, nonce)), c)
  {
    var u := w.s.minerCurrWork[id].value;
    var reply := OnResult(w.s, id, hash, nonce).1;
    ActiveAfterResult(h, w, id, hash, nonce, c);
    if reply.Some? {
      AnswersAppend(w.sent, Sent(w.reqs[u.client], FoundFor(w, u.client) + [Found(hash, nonce)], reply.value), c);
    }
  }

  lemma LostKeepsAsks(h: HashFn, w: World, id: int, c: int)
    requires SameKeys(w) && MinersOk(w) && AsksOk(w, c)
    requires id in w.log.joined ==> AsksOf(w.log.asked, id) == []
    ensures AsksOk(Do(h, w, Lost(id)), c)
  {
    var w' := Do(h, w, Lost(id));
    if id in w.s.minerCurrWork { assert id in w.log.joined; }
    if c != id {
      assert Active(w', c) == Active(w, c);
    } else {
      assert w'.gone == w.gone + {id};
      assert id !in w.s.minerCurrWork ==> Active(w', id) == None;
    }
  }

  lemma {:induction false} AssignKeepsClients(s: State, order: seq<int>, reachable: set<int>)
    ensures AssignAll(s, order, reachable).clients == s.clients
    decreases |order|
  {
    if order != [] && s.jobQ != [] {
      AssignKeepsClients(AssignTo(s, order[0], order[0] in reachable), order[1..], reachable);
    }
  }

  lemma StepKeepsAsks(h: HashFn, w: World, e: Event)
    requires SameKeys(w) && MinersOk(w) && Enabled(h, w, e) && AllAsksOk(w)
    ensures AllAsksOk(Do(h, w, e))
  {
    forall c ensures AsksOk(Do(h, w, e), c) {
      assert AsksOk(w, c);
      StepKeepsAsk(h, w, e, c);
    }
    forall c | c in Logged(w, e).joined ensures AsksOf(Logged(w, e).asked, c) == [] { MinersNeverAsk(h, w, e, c); }
    LogIsLogged(h, w, e);
  }

  lemma LogIsLogged(h: HashFn, w: World, e: Event)
    requires Enabled(h, w, e)
    ensures Do(h, w, e).log == Logged(w, e)
  {
  }

  lemma StepKeepsAsk(h: HashFn, w: World, e: Event, c: int)
    requires SameKeys(w) && MinersOk(w) && Enabled(h, w, e) && AsksOk(w, c)
    requires forall m :: m in w.log.joined ==> AsksOf(w.log.asked, m) == []
    ensures AsksOk(Do(h, w, e), c)
  {
    match e {
      case Join(id) => AskStays(w, Do(h, w, e), c);
      case Request(id, data, lower, upper) => RequestKeepsAsks(h, w, id, data, lower, upper, c);
      case Result(id, hash, nonce) => ResultKeepsAsks(h, w, id, hash, nonce, c);
      case Lost(id) => LostKeepsAsks(h, w, id, c);
      case Assign(order, reachable) =>
        AssignKeepsClients(w.s, order, reachable);
        AskStays(w, Do(h, w, e), c);
    }
  }

  lemma AskStays(w: World, w': World, c: int)
    requires AsksOk(w, c) && w'.s.clients == w.s.clients && w'.reqs == w.reqs && w'.gone == w.gone
    requires w'.sent == w.sent && w'.log.asked == w.log.asked
    ensures AsksOk(w', c)
  {
  }

  lemma MinersNeverAsk(h: HashFn, w: World, e: Event, c: int)
    requires Enabled(h, w, e) && AllAsksOk(w) && c in Logged(w, e).joined
    ensures AsksOf(Logged(w, e).asked, c) == []
  {
    if e.Request? && e.id !in w.s.clients {
      AsksAppend(w.log.asked, Ask(e.id, Req(e.data, e.lower, e.upper, |w.s.minerCurrWork|)), c);
    }
  }

  // ---------- the first best result ----------

  /** `(hash, nonce)` is the first of the results that none is smaller than; the greatest
      uint64 stands for no result. */
  ghost predicate FirstBest(found: seq<Found>, hash: nat, nonce: nat) {
    if hash >= MAX_UINT64 then nonce == 0 && forall j :: 0 <= j < |found| ==> found[j].hash >= hash
    else exists i :: FirstBestAt(found, hash, nonce, i)
  }

  ghost predicate FirstBestAt(found: seq<Found>, hash: nat, nonce: nat, i: int) {
    && 0 <= i < |found| && found[i] == Found(hash, nonce)
    && (forall j :: 0 <= j < |found| ==> found[j].hash >= hash && (j < i ==> found[j].hash > hash))
  }

  ghost predicate FoundOk(w: World, c: int) {
    && c in w.s.clients && c in w.done && |FoundFor(w, c)| == |w.done[c]|
    && FirstBest(FoundFor(w, c), w.s.clients[c].minHash, w.s.clients[c].nonce)
  }

  ghost predicate SentFoundOk(m: Sent) {
    FirstBest(m.found, m.reply.hash, m.reply.nonce) && |m.found| == |Parts(m.reply.client, m.req)|
  }

  ghost predicate AllFoundOk(w: World) {
    && (forall c :: c in w.s.clients ==> FoundOk(w, c))
    && (forall i :: 0 <= i < |w.sent| ==> SentFoundOk(w.sent[i]))
  }

  lemma FirstBestImproves(found: seq<Found>, st: ClientStatus, hash: nat, nonce: nat)
    requires FirstBest(found, st.minHash, st.nonce) && st.minHash <= MAX_UINT64
    ensures var st' := Improved(st, hash, nonce); FirstBest(found + [Found(hash, nonce)], st'.minHash, st'.nonce)
  {
    var found' := found + [Found(hash, nonce)];
    if hash < st.minHash {
      assert FirstBestAt(found', hash, nonce, |found|);
    } else if st.minHash < MAX_UINT64 {
      var i :| FirstBestAt(found, st.minHash, st.nonce, i);
      assert FirstBestAt(found', st.minHash, st.nonce, i);
    }
  }

  lemma FoundAfterResult(h: HashFn, w: World, id: int, hash: nat, nonce: nat, c: int)
    requires SameKeys(w) && Enabled(h, w, Result(id, hash, nonce)) && c in OnResult(w.s, id, hash, nonce).0.clients
    requires FoundOk(w, c) && w.s.clients[c].minHash <= MAX_UINT64
    ensures FoundOk(Do(h, w, Result(id, hash, nonce)), c)
  {
    ResultClients(w.s, id, hash, nonce);
    if c == w.s.minerCurrWork[id].value.client {
      FirstBestImproves(FoundFor(w, c), w.s.clients[c], hash, nonce);
    }
  }

  lemma SentAfterResult(h: HashFn, w: World, id: int, hash: nat, nonce: nat)
    requires UnitsOk(h, w) && Enabled(h, w, Result(id, hash, nonce)) && AllFoundOk(w)
    requires OnResult(w.s, id, hash, nonce).1.Some?
    ensures var w' := Do(h, w, Result(id, hash, nonce));
      |w'.sent| == |w.sent| + 1 && w'.sent[..|w.sent|] == w.sent && SentFoundOk(w'.sent[|w.sent|])
  {
    var c := w.s.minerCurrWork[id].value.client;
    ResultClients(w.s, id, hash, nonce);
    assert FoundOk(w, c) && ClientOk(h, w, c);
    FirstBestImproves(FoundFor(w, c), w.s.clients[c], hash, nonce);
    ResultForClient(h, w, id, hash, nonce);
    AllAnswered(w.done[c] + multiset{w.s.minerCurrWork[id].value}, Parts(c, w.reqs[c]),
                Pending(OnResult(w.s, id, hash, nonce).0, c));
  }

  lemma AllAnswered(done: multiset<WorkUnit>, parts: seq<WorkUnit>, pending: multiset<WorkUnit>)
    requires pending + done == multiset(parts) && |pending| == 0
    ensures |done| == |parts|
  {
    assert |pending + done| == |pending| + |done|;
    assert |multiset(parts)| == |parts|;
  }

  lemma ResultKeepsFound(h: HashFn, w: World, id: int, hash: nat, nonce: nat)
    requires UnitsOk(h, w) && Enabled(h, w, Result(id, hash, nonce)) && AllFoundOk(w)
    ensures AllFoundOk(Do(h, w, Result(id, hash, nonce)))
  {
    var w' := Do(h, w, Result(id, hash, nonce));
    ResultClients(w.s, id, hash, nonce);
    forall c | c in w'.s.clients ensures FoundOk(w', c) {
      assert FoundOk(w, c) && ClientOk(h, w, c);
      FoundAfterResult(h, w, id, hash, nonce, c);
    }
    if OnResult(w.s, id, hash, nonce).1.Some? {
      SentAfterResult(h, w, id, hash, nonce);
      forall i | 0 <= i < |w'.sent| ensures SentFoundOk(w'.sent[i]) {
        if i < |w.sent| { assert w'.sent[i] == w.sent[i]; }
      }
    }
  }

  lemma RequestKeepsFound(h: HashFn, w: World, id: int, data: string, lower: nat, upper: nat)
    requires UnitsOk(h, w) && Enabled(h, w, Request(id, data, lower, upper)) && AllFoundOk(w)
    ensures AllFoundOk(Do(h, w, Request(id, data, lower, upper)))
  {
    var w' := Do(h, w, Request(id, data, lower, upper));
    if id !in w.s.clients {
      RequestShape(h, w, id, data, lower, upper);
      assert w'.s.clients[id].minHash == MAX_UINT64 && w'.s.clients[id].nonce == 0;
      forall c | c in w'.s.clients ensures FoundOk(w', c) {
        if c != id { assert FoundOk(w, c); }
      }
    } else {
      forall c | c in w'.s.clients ensures FoundOk(w', c) { assert FoundOk(w, c); }
    }
  }

  lemma StepKeepsFound(h: HashFn, w: World, e: Event)
    requires UnitsOk(h, w) && Enabled(h, w, e) && AllFoundOk(w)
    ensures AllFoundOk(Do(h, w, e))
  {
    match e {
      case Request(id, data, lower, upper) => RequestKeepsFound(h, w, id, data, lower, upper);
      case Result(id, hash, nonce) => ResultKeepsFound(h, w, id, hash, nonce);
      case Assign(order, reachable) =>
        AssignKeepsClients(w.s, order, reachable);
        forall c | c in Do(h, w, e).s.clients ensures FoundOk(Do(h, w, e), c) { assert FoundOk(w, c); }
      case _ =>
        forall c | c in Do(h, w, e).s.clients ensures FoundOk(Do(h, w, e), c) { assert FoundOk(w, c); }
    }
  }

  // ---------- first come, first served ----------

  /** The queue is `back`, units that had been handed out before and came back, followed by
      the units not yet handed out, which are the last ones that arrived. */
  ghost predicate Queue(s: State, arrived: seq<WorkUnit>, back: seq<WorkUnit>, k: nat) {
    && k <= |arrived| && s.jobQ == back + arrived[k..]
    && (forall i :: 0 <= i < |back| ==> back[i] in arrived[..k])
    && (forall m :: m in s.minerCurrWork && s.minerCurrWork[m].Some? ==> s.minerCurrWork[m].value in arrived[..k])
  }

  ghost predicate InOrder(s: State, arrived: seq<WorkUnit>) {
    exists back, k: nat :: Queue(s, arrived, back, k)
  }

  /** Taking the first unit off the queue. */
  lemma Taken(s: State, arrived: seq<WorkUnit>, back: seq<WorkUnit>, k: nat) returns (back': seq<WorkUnit>, k': nat)
    requires Queue(s, arrived, back, k) && s.jobQ != []
    ensures Queue(s.(jobQ := s.jobQ[1..]), arrived, back', k') && s.jobQ[0] in arrived[..k']
  {
    if back != [] {
      back', k' := back[1..], k;
      assert s.jobQ[0] == back[0] && s.jobQ[1..] == back[1..] + arrived[k..];
    } else {
      back', k' := [], k + 1;
      assert s.jobQ == arrived[k..] && s.jobQ[0] == arrived[..k + 1][k] && arrived[k..][1..] == arrived[k + 1..];
      assert arrived[..k + 1] == arrived[..k] + [arrived[k]];
    }
  }

  lemma {:induction false} StaleDropped(s: State, arrived: seq<WorkUnit>, back: seq<WorkUnit>, k: nat)
    returns (back': seq<WorkUnit>, k': nat)
    requires Queue(s, arrived, back, k)
    ensures Queue(s.(jobQ := DropStale(s.jobQ, s.clients)), arrived, back', k')
    decreases |s.jobQ|
  {
    if s.jobQ == [] || s.jobQ[0].client in s.clients {
      back', k' := back, k;
    } else {
      var b, j := Taken(s, arrived, back, k);
      back', k' := StaleDropped(s.(jobQ := s.jobQ[1..]), arrived, b, j);
    }
  }

  lemma AssignToKeepsOrder(s: State, arrived: seq<WorkUnit>, miner: int, reachable: bool)
    requires InOrder(s, arrived)
    ensures InOrder(AssignTo(s, miner, reachable), arrived)
  {
    var back, k: nat :| Queue(s, arrived, back, k);
    var b, j := StaleDropped(s, arrived, back, k);
    var s1 := s.(jobQ := DropStale(s.jobQ, s.clients));
    if s1.jobQ != [] && reachable {
      var b', j' := Taken(s1, arrived, b, j);
      assert Queue(AssignTo(s, miner, reachable), arrived, b', j');
    }
  }

  lemma {:induction false} AssignKeepsOrder(s: State, arrived: seq<WorkUnit>, order: seq<int>, reachable: set<int>)
    requires InOrder(s, arrived)
    ensures InOrder(AssignAll(s, order, reachable), arrived)
    decreases |order|
  {
    if order != [] && s.jobQ != [] {
      AssignToKeepsOrder(s, arrived, order[0], order[0] in reachable);
      AssignKeepsOrder(AssignTo(s, order[0], order[0] in reachable), arrived, order[1..], reachable);
    }
  }

  lemma RequestKeepsOrder(s: State, arrived: seq<WorkUnit>, id: int, data: string, lower: nat, upper: nat)
    requires InOrder(s, arrived) && id !in s.clients
    ensures InOrder(OnRequest(s, id, data, lower, upper),
                    arrived + Partition(id, data, lower, upper, |s.minerCurrWork|))
  {
    var back, k: nat :| Queue(s, arrived, back, k);
    var units := Partition(id, data, lower, upper, |s.minerCurrWork|);
    var arrived' := arrived + units;
    assert arrived'[..k] == arrived[..k] && arrived'[k..] == arrived[k..] + units;
    Assoc(back, arrived[k..], units);
    assert Queue(OnRequest(s, id, data, lower, upper), arrived', back, k);
  }

  lemma LostKeepsOrder(s: State, arrived: seq<WorkUnit>, id: int)
    requires InOrder(s, arrived)
    ensures InOrder(OnLost(s, id), arrived)
  {
    var back, k: nat :| Queue(s, arrived, back, k);
    if IsWorking(s, id) {
      var u := s.minerCurrWork[id].value;
      Assoc([u], back, arrived[k..]);
      assert Queue(OnLost(s, id), arrived, [u] + back, k);
    } else {
      assert Queue(OnLost(s, id), arrived, back, k);
    }
  }

  lemma FreedKeepsOrder(s: State, s': State, arrived: seq<WorkUnit>)
    requires InOrder(s, arrived) && s'.jobQ == s.jobQ
    requires forall m :: m in s'.minerCurrWork && s'.minerCurrWork[m].Some? ==>
      m in s.minerCurrWork && s'.minerCurrWork[m] == s.minerCurrWork[m]
    ensures InOrder(s', arrived)
  {
    var back, k: nat :| Queue(s, arrived, back, k);
    assert Queue(s', arrived, back, k);
  }

  lemma StepKeepsOrder(h: HashFn, w: World, e: Event)
    requires Enabled(h, w, e) && InOrder(w.s, w.log.arrived)
    ensures InOrder(Do(h, w, e).s, Do(h, w, e).log.arrived)
  {
    match e {
      case Join(id) => FreedKeepsOrder(w.s, OnJoin(w.s, id), w.log.arrived);
      case Request(id, data, lower, upper) =>
        if id !in w.s.clients { RequestKeepsOrder(w.s, w.log.arrived, id, data, lower, upper); }
      case Result(id, hash, nonce) => FreedKeepsOrder(w.s, OnResult(w.s, id, hash, nonce).0, w.log.arrived);
      case Lost(id) => LostKeepsOrder(w.s, w.log.arrived, id);
      case Assign(order, reachable) => AssignKeepsOrder(w.s, w.log.arrived, order, reachable);
    }
  }

  // ---------- the theorems ----------

  lemma {:induction false} RunKeepsHistory(h: HashFn, run: seq<Event>, w: World)
    requires RunsTo(h, run, w)
    ensures Inv(h, w) && AllAsksOk(w) && AllFoundOk(w) && InOrder(w.s, w.log.arrived)
    decreases |run|
  {
    RunKeeps(h, run, w);
    if run != [] {
      var k := |run| - 1;
      var p :| RunsTo(h, run[..k], p) && Next(h, p, run[k], w);
      RunKeepsHistory(h, run[..k], p);
      StepKeepsAsks(h, p, run[k]);
      StepKeepsFound(h, p, run[k]);
      StepKeepsOrder(h, p, run[k]);
    } else {
      assert Queue(w.s, w.log.arrived, [], 0);
    }
  }

  /** In every run, every connection is sent exactly one answer to each request of its that
      was taken up, in order, except for the request still active, or active when it was lost.
      No answer ever goes to a miner. */
  lemma AnswersMatchRequests(h: HashFn, w: World, c: int)
    requires Reachable(h, w)
    ensures c in w.s.clients ==> c in w.reqs
    ensures c !in w.gone ==>
      AsksOf(w.log.asked, c) == AnswersTo(w.sent, c) + if c in w.s.clients then [w.reqs[c]] else []
    ensures c in w.gone ==>
      AnswersTo(w.sent, c) <= AsksOf(w.log.asked, c) && |AsksOf(w.log.asked, c)| <= |AnswersTo(w.sent, c)| + 1
    ensures c in w.log.joined ==> AnswersTo(w.sent, c) == []
  {
    var run :| RunsTo(h, run, w);
    RunKeepsHistory(h, run, w);
    assert AsksOk(w, c);
  }

  /** In every run, an answer is made from one result per unit of its request, and is the
      first of them that none is smaller than. */
  lemma AnswerIsFirstBest(h: HashFn, w: World, i: nat)
    requires Reachable(h, w) && i < |w.sent|
    ensures |w.sent[i].found| == |Parts(w.sent[i].reply.client, w.sent[i].req)|
    ensures FirstBest(w.sent[i].found, w.sent[i].reply.hash, w.sent[i].reply.nonce)
  {
    var run :| RunsTo(h, run, w);
    RunKeepsHistory(h, run, w);
    assert SentFoundOk(w.sent[i]);
  }

  /** In every run, the queue holds units that came back from lost miners, and behind them the
      last arrivals in order: a unit is handed out for the first time only after all that
      arrived before it. */
  lemma FirstComeFirstServed(h: HashFn, w: World) returns (back: seq<WorkUnit>, k: nat)
    requires Reachable(h, w)
    ensures k <= |w.log.arrived| && w.s.jobQ == back + w.log.arrived[k..]
    ensures forall i :: 0 <= i < |back| ==> back[i] in w.log.arrived[..k]
    ensures forall m :: m in w.s.minerCurrWork && w.s.minerCurrWork[m].Some? ==>
      w.s.minerCurrWork[m].value in w.log.arrived[..k]
  {
    var run :| RunsTo(h, run, w);
    RunKeepsHistory(h, run, w);
    back, k :| Queue(w.s, w.log.arrived, back, k);
  }

  /** In every run, the known miners are those that joined and were not lost. */
  lemma MinersAreThoseJoined(h: HashFn, w: World, m: int)
    requires Reachable(h, w)
    ensures m in w.s.minerCurrWork <==> m in w.log.joined && m !in w.gone
  {
    ReachableInv(h, w);
  }

  /** Work handed out in an assignment round is for active clients only. */
  lemma {:induction false} AssignedIsActive(s: State, order: seq<int>, reachable: set<int>, m: int)
    requires m in AssignAll(s, order, reachable).minerCurrWork
    ensures var o := AssignAll(s, order, reachable).minerCurrWork[m];
      (m in s.minerCurrWork && o == s.minerCurrWork[m]) || (o.Some? && o.value.client in s.clients)
    decreases |order|
  {
    if order != [] && s.jobQ != [] {
      var s1 := AssignTo(s, order[0], order[0] in reachable);
      FrontIsActive(s.jobQ, s.clients);
      AssignedIsActive(s1, order[1..], reachable, m);
    }
  }

  /** A miner that the job could not be sent to, or that is not free, keeps its state. */
  lemma {:induction false} UnreachableIsUntouched(s: State, order: seq<int>, reachable: set<int>, m: int)
    requires m !in order || m !in reachable
    ensures var s' := AssignAll(s, order, reachable);
      && (m in s'.minerCurrWork <==> m in s.minerCurrWork)
      && (m in s.minerCurrWork ==> s'.minerCurrWork[m] == s.minerCurrWork[m])
      && (m in s'.unOccupiedMiner <==> m in s.unOccupiedMiner)
    decreases |order|
  {
    if order != [] && s.jobQ != [] {
      UnreachableIsUntouched(AssignTo(s, order[0], order[0] in reachable), order[1..], reachable, m);
    }
  }

  lemma {:induction false} FrontIsActive(q: seq<WorkUnit>, clients: map<int, ClientStatus>)
    ensures var q' := DropStale(q, clients); q' != [] ==> q'[0].client in clients
  {
    if q != [] && q[0].client !in clients { FrontIsActive(q[1..], clients); }
  }
}
