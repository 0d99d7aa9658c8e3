/** One Paxos peer: the three acceptor handlers, the reply tallies of a proposer's
    round and the generation of sequence numbers. Values are of an arbitrary type `V`;
    the peer's `nilValue` plays the part of Go's nil. */
module PaxosPeer {
  import opened Basics

  /** What an acceptor remembers about one slot of the log. */
  datatype TimeSlot<V> = TimeSlot(value: V, isDecided: bool, seqNumAccepted: int, seqNumHighest: int)

  datatype PrepareReply<V> =
    | Promise(seqNumAccepted: int, valueAccepted: V)
    | PrepareReject(prepareHighest: int)

  datatype AcceptReply = AcceptOk | AcceptReject(acceptHighest: int)

  /** The outcome of one RPC of a round, as the proposer's reply channel delivers it. */
  datatype Delivery<R> = Lost | Got(from: nat, reply: R)

  function FreshSlot<V>(nilValue: V): TimeSlot<V> {
    TimeSlot(nilValue, false, 0, 0)
  }

  function OnPrepare<V>(t: TimeSlot<V>, seqNum: int): (TimeSlot<V>, PrepareReply<V>) {
    if seqNum > t.seqNumHighest then
      (t.(seqNumHighest := seqNum), Promise(t.seqNumAccepted, t.value))
    else
      (t, PrepareReject(t.seqNumHighest))
  }

  function OnAccept<V>(t: TimeSlot<V>, seqNum: int, value: V): (TimeSlot<V>, AcceptReply) {
    if seqNum >= t.seqNumHighest then
      (TimeSlot(value, t.isDecided, seqNum, seqNum), AcceptOk)
    else
      (t, AcceptReject(t.seqNumHighest))
  }

  /** Decide replaces the value but leaves both sequence numbers alone. */
  function OnDecide<V>(t: TimeSlot<V>, value: V): TimeSlot<V> {
    t.(value := value, isDecided := true)
  }

  /** The state of a reply-collecting loop. */
  datatype Tally<V> = Tally(numOk: nat, maxAccepted: int, value: V, maxHighest: int)

  function AbsorbPrepare<V>(t: Tally<V>, d: Delivery<PrepareReply<V>>): Tally<V> {
    match d
    case Lost => t
    case Got(_, Promise(acc, v)) =>
      if acc > t.maxAccepted then t.(numOk := t.numOk + 1, maxAccepted := acc, value := v)
      else t.(numOk := t.numOk + 1)
    case Got(_, PrepareReject(h)) =>
      if h > t.maxHighest then t.(maxHighest := h) else t
  }

  function AbsorbAccept<V>(t: Tally<V>, d: Delivery<AcceptReply>): Tally<V> {
    match d
    case Lost => t
    case Got(_, AcceptOk) => t.(numOk := t.numOk + 1)
    case Got(_, AcceptReject(h)) =>
      if h > t.maxHighest then t.(maxHighest := h) else t
  }

  /** Replies are taken in arrival order until a majority of the `n` peers has said OK. */
  function TallyPrepares<V>(t: Tally<V>, n: nat, ds: seq<Delivery<PrepareReply<V>>>): Tally<V>
    decreases |ds|
  {
    if ds == [] || t.numOk > n / 2 then t
    else TallyPrepares(AbsorbPrepare(t, ds[0]), n, ds[1..])
  }

  function TallyAccepts<V>(t: Tally<V>, n: nat, ds: seq<Delivery<AcceptReply>>): Tally<V>
    decreases |ds|
  {
    if ds == [] || t.numOk > n / 2 then t
    else TallyAccepts(AbsorbAccept(t, ds[0]), n, ds[1..])
  }

  function StartTally<V>(value: V): Tally<V> {
    Tally(0, 0, value, 0)
  }

  /** The bumped number is the least one above `highest` that keeps the peer's residue. */
  function NextSeqNum(nanos: int, n: int, me: int, highest: int): (seqNum: int)
    requires 0 <= me < n
    ensures seqNum > highest
    ensures seqNum % n == me
    ensures seqNum >= nanos * n + me
    ensures seqNum == nanos * n + me || seqNum <= highest + n
  {
    var s := nanos * n + me;
    ResidueOf(nanos, n, me);
    if s <= highest then
      var gap := highest - s;
      ResidueOf(nanos + gap / n + 1, n, me);
      BumpStays(nanos, n, me, gap);
      s + (gap - gap % n + n)
    else s
  }

  const MAX_INT64: int := 0x7FFF_FFFF_FFFF_FFFF

  /** The int64 that a computation leaves when it overflows. */
  function Wrap64(x: int): (w: int)
    ensures -MAX_INT64 - 1 <= w <= MAX_INT64
  {
    if -MAX_INT64 - 1 <= x <= MAX_INT64 then x else (x + MAX_INT64 + 1) % (2 * (MAX_INT64 + 1)) - MAX_INT64 - 1
  }

  /** Go's remainder, which has the sign of the dividend. */
  function Rem(a: int, b: int): int
    requires b > 0
  {
    if a >= 0 then a % b else -((-a) % b)
  }

  /** The number as int64 arithmetic computes it. */
  function Int64SeqNum(nanos: int, n: int, me: int, highest: int): int
    requires 0 <= me < n
  {
    Int64Bumped(Wrap64(Wrap64(nanos * n) + me), n, highest)
  }

  function Int64Bumped(s: int, n: int, highest: int): int
    requires 0 < n
  {
    if s <= highest then
      var gap := Wrap64(highest - s);
      Wrap64(s + Wrap64(Wrap64(gap - Rem(gap, n)) + n))
    else s
  }

  /** int64 arithmetic yields the intended number if and only if that number fits. */
  lemma Int64Exactly(nanos: int, n: int, me: int, highest: int)
    requires 0 <= nanos <= 0x7FFF_FFFF_FFFF_FFFF && 0 <= me < n <= 0x7FFF_FFFF_FFFF_FFFF
    requires 0 <= highest <= 0x7FFF_FFFF_FFFF_FFFF
    ensures Int64SeqNum(nanos, n, me, highest) == NextSeqNum(nanos, n, me, highest)
       <==> NextSeqNum(nanos, n, me, highest) <= 0x7FFF_FFFF_FFFF_FFFF
  {
    var product := nanos * n;
    assert 0 <= product;
    Int64BumpedExactly(product, n, me, highest, NextSeqNum(nanos, n, me, highest));
  }

  lemma Int64BumpedExactly(product: int, n: int, me: int, highest: int, next: int)
    requires 0 <= product && 0 <= me < n <= MAX_INT64 && 0 <= highest <= MAX_INT64
    requires next ==
      var s := product + me; if s <= highest then s + (highest - s - (highest - s) % n + n) else s
    ensures Int64Bumped(Wrap64(Wrap64(product) + me), n, highest) == next <==> next <= MAX_INT64
  {
    var s := product + me;
    if s <= highest {
      RemainderFits(highest - s, n);
      if next <= MAX_INT64 { Int64Bump(s, n, highest - s, (highest - s) % n); }
    }
  }

  lemma RemainderFits(gap: int, n: int)
    requires 0 <= gap && 0 < n
    ensures 0 <= gap % n < n && gap % n <= gap
  {
    if gap < n { assert gap % n == gap; }
  }

  lemma Int64Bump(s: int, n: int, gap: int, rem: int)
    requires 0 <= s && 0 <= rem < n && rem <= gap && s + (gap - rem + n) <= MAX_INT64
    ensures Wrap64(gap) == gap && Wrap64(s + Wrap64(Wrap64(gap - rem) + n)) == s + (gap - rem + n)
  {
  }

  lemma ResidueOf(q: int, n: int, me: int)
    requires 0 <= me < n
    ensures (q * n + me) % n == me
  {
    var k := (q * n + me) / n;
    assert (q * n + me) == k * n + (q * n + me) % n;
    var d := q - k;
    assert d * n == (q * n + me) % n - me by { assert d * n == q * n - k * n; }
    assert d >= 1 ==> d * n >= n;
    assert d <= -1 ==> d * n <= -n;
  }

  lemma BumpStays(nanos: int, n: int, me: int, gap: nat)
    requires 0 <= me < n
    ensures nanos * n + me + (gap - gap % n + n) == (nanos + gap / n + 1) * n + me
  {
    assert gap - gap % n == gap / n * n;
    assert (nanos + gap / n + 1) * n == nanos * n + gap / n * n + n;
  }

  /** Two peers of one cluster never generate the same number, whatever their clocks say. */
  lemma PeersNeverCollide(n: int, me: int, other: int, nanos: int, nanos': int, highest: int, highest': int)
    requires 0 <= me < n && 0 <= other < n && me != other
    ensures NextSeqNum(nanos, n, me, highest) != NextSeqNum(nanos', n, other, highest')
  {
    var a, b := NextSeqNum(nanos, n, me, highest), NextSeqNum(nanos', n, other, highest');
    assert a % n == me && b % n == other;
  }

  lemma {:induction false} TallyHearsReject<V>(t: Tally<V>, n: nat, ds: seq<Delivery<PrepareReply<V>>>, a: nat, h: int)
    requires Got(a, PrepareReject(h)) in ds && TallyPrepares(t, n, ds).numOk <= n / 2
    ensures TallyPrepares(t, n, ds).maxHighest >= h
    decreases |ds|
  {
    if ds[0] == Got(a, PrepareReject(h)) { MaxHighestGrows(AbsorbPrepare(t, ds[0]), n, ds[1..]); }
    else { TallyHearsReject(AbsorbPrepare(t, ds[0]), n, ds[1..], a, h); }
  }

  lemma {:induction false} MaxHighestGrows<V>(t: Tally<V>, n: nat, ds: seq<Delivery<PrepareReply<V>>>)
    ensures TallyPrepares(t, n, ds).maxHighest >= t.maxHighest
    decreases |ds|
  {
    if ds != [] && t.numOk <= n / 2 { MaxHighestGrows(AbsorbPrepare(t, ds[0]), n, ds[1..]); }
  }

  /** A peer whose rejection made a prepare phase fail says OK to the proposer's next
      number, if it has heard of no other in between. */
  lemma RejectedThenHeard<V>(own: V, n: nat, me: nat, m: int, ds: seq<Delivery<PrepareReply<V>>>, a: nat,
        peer: TimeSlot<V>, nanos: int)
    requires me < n && OnPrepare(peer, m).1.PrepareReject? && Got(a, OnPrepare(peer, m).1) in ds
    requires TallyPrepares(StartTally(own), n, ds).numOk <= n / 2
    ensures OnPrepare(peer, NextSeqNum(nanos, n, me, TallyPrepares(StartTally(own), n, ds).maxHighest)).1.Promise?
  {
    TallyHearsReject(StartTally(own), n, ds, a, peer.seqNumHighest);
  }

  lemma {:induction false} TallyHearsRefusal<V>(t: Tally<V>, n: nat, ds: seq<Delivery<AcceptReply>>, a: nat, h: int)
    requires Got(a, AcceptReject(h)) in ds && TallyAccepts(t, n, ds).numOk <= n / 2
    ensures TallyAccepts(t, n, ds).maxHighest >= h
    decreases |ds|
  {
    if ds[0] == Got(a, AcceptReject(h)) { RefusalGrows(AbsorbAccept(t, ds[0]), n, ds[1..]); }
    else { TallyHearsRefusal(AbsorbAccept(t, ds[0]), n, ds[1..], a, h); }
  }

  lemma {:induction false} RefusalGrows<V>(t: Tally<V>, n: nat, ds: seq<Delivery<AcceptReply>>)
    ensures TallyAccepts(t, n, ds).maxHighest >= t.maxHighest
    decreases |ds|
  {
    if ds != [] && t.numOk <= n / 2 { RefusalGrows(AbsorbAccept(t, ds[0]), n, ds[1..]); }
  }

  /** The same for the accept phase: the peer that refused promises the next number. */
  lemma RefusedThenHeard<V>(v: V, n: nat, me: nat, m: int, ds: seq<Delivery<AcceptReply>>, a: nat,
        peer: TimeSlot<V>, nanos: int)
    requires me < n && OnAccept(peer, m, v).1.AcceptReject? && Got(a, OnAccept(peer, m, v).1) in ds
    requires TallyAccepts(StartTally(v), n, ds).numOk <= n / 2
    ensures OnPrepare(peer, NextSeqNum(nanos, n, me, TallyAccepts(StartTally(v), n, ds).maxHighest)).1.Promise?
  {
    TallyHearsRefusal(StartTally(v), n, ds, a, peer.seqNumHighest);
  }

  /** One attempt of the proposer's retry loop, as the environment drives it. */
  datatype Attempt<V> = Attempt(nanos: int, prepares: seq<Delivery<PrepareReply<V>>>,
        accepts: seq<Delivery<AcceptReply>>)

  datatype Outcome<V> = Undecided | Reached(seqNum: int, decision: V)

  class Peer<V> {
    const n: nat
    const me: nat
    const nilValue: V
    var timeSlot: map<int, TimeSlot<V>>
    var maxDecidedSlot: int
    var isLocked: bool

    constructor (n: nat, me: nat, nilValue: V)
      requires me < n
      ensures this.n == n && this.me == me && this.nilValue == nilValue
      ensures timeSlot == map[] && maxDecidedSlot == 0 && !isLocked
    {
      this.n, this.me, this.nilValue := n, me, nilValue;
      timeSlot, maxDecidedSlot, isLocked := map[], 0, false;
    }

    /** The slot's record; a slot never seen counts as fresh. */
    function SlotAt(slot: int): TimeSlot<V>
      reads this
    {
      if slot in timeSlot then timeSlot[slot] else FreshSlot(nilValue)
    }

    method Prepare(slot: int, seqNum: int) returns (reply: PrepareReply<V>)
      modifies this`timeSlot
      ensures (SlotAt(slot), reply) == OnPrepare(old(SlotAt(slot)), seqNum)
      ensures forall k :: k != slot ==> SlotAt(k) == old(SlotAt(k))
    {
      var t := SlotAt(slot);
      if seqNum > t.seqNumHighest {
        reply := Promise(t.seqNumAccepted, t.value);
        t := t.(seqNumHighest := seqNum);
      } else {
        reply := PrepareReject(t.seqNumHighest);
      }
      timeSlot := timeSlot[slot := t];
    }

    method Accept(slot: int, seqNum: int, value: V) returns (reply: AcceptReply)
      modifies this`timeSlot
      ensures (SlotAt(slot), reply) == OnAccept(old(SlotAt(slot)), seqNum, value)
      ensures forall k :: k != slot ==> SlotAt(k) == old(SlotAt(k))
    {
      var t := SlotAt(slot);
      if seqNum >= t.seqNumHighest {
        t := t.(seqNumAccepted := seqNum);
        t := t.(seqNumHighest := seqNum);
        t := t.(value := value);
        reply := AcceptOk;
      } else {
        reply := AcceptReject(t.seqNumHighest);
      }
      timeSlot := timeSlot[slot := t];
    }

    method Decide(slot: int, value: V)
      modifies this`timeSlot, this`maxDecidedSlot
      ensures SlotAt(slot) == OnDecide(old(SlotAt(slot)), value)
      ensures forall k :: k != slot ==> SlotAt(k) == old(SlotAt(k))
      ensures maxDecidedSlot == if old(maxDecidedSlot) > slot then old(maxDecidedSlot) else slot
    {
      var t := SlotAt(slot);
      t := t.(value := value);
      t := t.(isDecided := true);
      timeSlot := timeSlot[slot := t];
      if slot >= maxDecidedSlot { maxDecidedSlot := slot; }
    }

    method SetLock(setLock: bool)
      modifies this`isLocked
      ensures isLocked == setLock
    {
      isLocked := setLock;
    }

    /** An error while the cluster is locked, and otherwise what the slot's record says. */
    method Status(slot: int) returns (error: bool, decided: bool, value: V)
      ensures error == isLocked
      ensures !error ==> decided == SlotAt(slot).isDecided && value == SlotAt(slot).value
      ensures error ==> !decided && value == nilValue
    {
      if isLocked { return true, false, nilValue; }
      error, decided, value := false, SlotAt(slot).isDecided, SlotAt(slot).value;
    }
  }

  method CollectPrepareReplies<V>(n: nat, own: V, ds: seq<Delivery<PrepareReply<V>>>) returns (t: Tally<V>)
    ensures t == TallyPrepares(StartTally(own), n, ds)
  {
    var numOk: nat, value, maxAccepted, maxHighest := 0, own, 0, 0;
    var i := 0;
    while i < |ds| && numOk <= n / 2
      invariant 0 <= i <= |ds|
      invariant TallyPrepares(StartTally(own), n, ds)
             == TallyPrepares(Tally(numOk, maxAccepted, value, maxHighest), n, ds[i..])
    {
      assert ds[i..][1..] == ds[i + 1..];
      match ds[i] {
        case Lost =>
        case Got(_, Promise(acc, v)) =>
          numOk := numOk + 1;
          if acc > maxAccepted { maxAccepted := acc; value := v; }
        case Got(_, PrepareReject(h)) =>
          if h > maxHighest { maxHighest := h; }
      }
      i := i + 1;
    }
    t := Tally(numOk, maxAccepted, value, maxHighest);
  }

  method CollectAcceptReplies<V>(n: nat, value: V, ds: seq<Delivery<AcceptReply>>) returns (t: Tally<V>)
    ensures t == TallyAccepts(StartTally(value), n, ds)
  {
    var numOk: nat, maxHighest := 0, 0;
    var i := 0;
    while i < |ds| && numOk <= n / 2
      invariant 0 <= i <= |ds|
      invariant TallyAccepts(StartTally(value), n, ds)
             == TallyAccepts(Tally(numOk, 0, value, maxHighest), n, ds[i..])
    {
      assert ds[i..][1..] == ds[i + 1..];
      match ds[i] {
        case Lost =>
        case Got(_, AcceptOk) => numOk := numOk + 1;
        case Got(_, AcceptReject(h)) => if h > maxHighest { maxHighest := h; }
      }
      i := i + 1;
    }
    t := Tally(numOk, 0, value, maxHighest);
  }

  /** The rejections that an attempt ends with: those of its accept phase if it got there,
      and otherwise those of its prepare phase. */
  predicate Rejections<V>(a: Attempt<V>, n: nat, v: V, h: int) {
    if PreparesFail(a, n, v) then exists i :: 0 <= i < |a.prepares| && Rejects(a.prepares[i], h)
    else exists i :: 0 <= i < |a.accepts| && Refuses(a.accepts[i], h)
  }

  predicate Rejects<V>(d: Delivery<PrepareReply<V>>, h: int) {
    d.Got? && d.reply == PrepareReject(h)
  }

  predicate Refuses(d: Delivery<AcceptReply>, h: int) {
    d.Got? && d.reply == AcceptReject(h)
  }

  predicate PreparesFail<V>(a: Attempt<V>, n: nat, v: V) {
    TallyPrepares(StartTally(v), n, a.prepares).numOk <= n / 2
  }

  /** Both phases of the attempt get a majority. */
  predicate Succeeds<V>(a: Attempt<V>, n: nat, v: V) {
    !PreparesFail(a, n, v) && TallyAccepts(StartTally(v), n, a.accepts).numOk > n / 2
  }

  lemma {:induction false} HeardOrNone<V>(t: Tally<V>, n: nat, ds: seq<Delivery<PrepareReply<V>>>)
    ensures var h := TallyPrepares(t, n, ds).maxHighest;
      h == t.maxHighest || exists i :: 0 <= i < |ds| && Rejects(ds[i], h)
    decreases |ds|
  {
    if ds != [] && t.numOk <= n / 2 {
      HeardOrNone(AbsorbPrepare(t, ds[0]), n, ds[1..]);
      var h := TallyPrepares(t, n, ds).maxHighest;
      if i :| 0 <= i < |ds[1..]| && Rejects(ds[1..][i], h) { assert Rejects(ds[i + 1], h); }
      else if h != t.maxHighest { assert Rejects(ds[0], h); }
    }
  }

  lemma {:induction false} RefusedOrNone<V>(t: Tally<V>, n: nat, ds: seq<Delivery<AcceptReply>>)
    ensures var h := TallyAccepts(t, n, ds).maxHighest;
      h == t.maxHighest || exists i :: 0 <= i < |ds| && Refuses(ds[i], h)
    decreases |ds|
  {
    if ds != [] && t.numOk <= n / 2 {
      RefusedOrNone(AbsorbAccept(t, ds[0]), n, ds[1..]);
      var h := TallyAccepts(t, n, ds).maxHighest;
      if i :| 0 <= i < |ds[1..]| && Refuses(ds[1..][i], h) { assert Refuses(ds[i + 1], h); }
      else if h != t.maxHighest { assert Refuses(ds[0], h); }
    }
  }

  lemma {:induction false} CountsAlike<V>(t: Tally<V>, t': Tally<V>, n: nat, ds: seq<Delivery<AcceptReply>>)
    requires t.numOk == t'.numOk && t.maxHighest == t'.maxHighest
    ensures TallyAccepts(t, n, ds).numOk == TallyAccepts(t', n, ds).numOk
    ensures TallyAccepts(t, n, ds).maxHighest == TallyAccepts(t', n, ds).maxHighest
    decreases |ds|
  {
    if ds != [] && t.numOk <= n / 2 { CountsAlike(AbsorbAccept(t, ds[0]), AbsorbAccept(t', ds[0]), n, ds[1..]); }
  }

  /** What a failed attempt hands on is its highest rejection, or 0. */
  ghost predicate HandsOn<V>(a: Attempt<V>, n: nat, v: V, highest: int) {
    && (forall h :: Rejections(a, n, v, h) ==> h <= highest)
    && (highest == 0 || Rejections(a, n, v, highest))
  }

  lemma FailedHandsOn<V>(a: Attempt<V>, n: nat, v: V)
    ensures var p := TallyPrepares(StartTally(v), n, a.prepares);
      if p.numOk <= n / 2 then HandsOn(a, n, v, p.maxHighest)
      else
        var q := TallyAccepts(StartTally(p.value), n, a.accepts);
        && (q.numOk > n / 2 <==> Succeeds(a, n, v))
        && (q.numOk <= n / 2 ==> HandsOn(a, n, v, q.maxHighest))
  {
    var p := TallyPrepares(StartTally(v), n, a.prepares);
    if PreparesFail(a, n, v) {
      HeardOrNone(StartTally(v), n, a.prepares);
      forall h | Rejections(a, n, v, h) ensures h <= p.maxHighest {
        var i :| 0 <= i < |a.prepares| && Rejects(a.prepares[i], h);
        TallyHearsReject(StartTally(v), n, a.prepares, a.prepares[i].from, h);
      }
    } else {
      CountsAlike(StartTally(p.value), StartTally(v), n, a.accepts);
      RefusedOrNone(StartTally(v), n, a.accepts);
      forall h | Rejections(a, n, v, h) && !Succeeds(a, n, v)
        ensures h <= TallyAccepts(StartTally(v), n, a.accepts).maxHighest
      {
        var i :| 0 <= i < |a.accepts| && Refuses(a.accepts[i], h);
        TallyHearsRefusal(StartTally(v), n, a.accepts, a.accepts[i].from, h);
      }
    }
  }

  /** The number that the clock alone yields. */
  function ClockNumber<V>(a: Attempt<V>, n: nat, me: nat): int { a.nanos * n + me }

  predicate Above(number: int, highest: int, clock: int, n: nat) {
    number > highest && number >= clock && (number == clock || number <= highest + n)
  }

  ghost predicate AboveRejections<V>(number: int, a: Attempt<V>, clock: int, n: nat, v: V) {
    exists h :: HandsOn(a, n, v, h) && Above(number, h, clock, n)
  }

  /** The number of attempt `k`: the least of the peer's residue above every rejection of the
      attempt before, or the clock's if that is greater. */
  ghost predicate NumberOk<V>(number: int, k: nat, ats: seq<Attempt<V>>, n: nat, me: nat, v: V, first: int)
    requires me < n && k < |ats|
  {
    && number % n == me
    && (if k == 0 then Above(number, first, ClockNumber(ats[0], n, me), n)
        else AboveRejections(number, ats[k - 1], ClockNumber(ats[k], n, me), n, v))
  }

  /** The proposer's retry loop over a finite run of attempts; `numbers` lists the sequence
      numbers it used, one per attempt up to the first that succeeds. */
  method StartHelper<V>(n: nat, me: nat, v: V, seqNumHighest: int, ats: seq<Attempt<V>>)
    returns (o: Outcome<V>, numbers: seq<int>)
    requires me < n
    ensures |numbers| <= |ats|
    ensures forall k :: 0 <= k < |numbers| ==> NumberOk(numbers[k], k, ats, n, me, v, seqNumHighest)
    ensures forall k :: 0 <= k < |numbers| - 1 ==> !Succeeds(ats[k], n, v)
    ensures o.Reached? <==> numbers != [] && Succeeds(ats[|numbers| - 1], n, v)
    ensures o.Reached? ==> o.seqNum == numbers[|numbers| - 1]
    ensures o.Reached? ==> o.decision == TallyPrepares(StartTally(v), n, ats[|numbers| - 1].prepares).value
    ensures o.Undecided? ==> |numbers| == |ats|
  {
    var maxSeqNumHighest := seqNumHighest;
    numbers := [];
    var i := 0;
    while i < |ats|
      invariant 0 <= i <= |ats| && |numbers| == i
      invariant forall k :: 0 <= k < i ==> NumberOk(numbers[k], k, ats, n, me, v, seqNumHighest)
      invariant forall k :: 0 <= k < i ==> !Succeeds(ats[k], n, v)
      invariant if i == 0 then maxSeqNumHighest == seqNumHighest else HandsOn(ats[i - 1], n, v, maxSeqNumHighest)
    {
      var seqNum := NextSeqNum(ats[i].nanos, n, me, maxSeqNumHighest);
      assert NumberOk(seqNum, i, ats, n, me, v, seqNumHighest) by {
        assert Above(seqNum, maxSeqNumHighest, ClockNumber(ats[i], n, me), n);
      }
      numbers := numbers + [seqNum];
      FailedHandsOn(ats[i], n, v);
      var p := CollectPrepareReplies(n, v, ats[i].prepares);
      maxSeqNumHighest := p.maxHighest;
      if p.numOk > n / 2 {
        var q := CollectAcceptReplies(n, p.value, ats[i].accepts);
        maxSeqNumHighest := q.maxHighest;
        if q.numOk > n / 2 {
          o := Reached(seqNum, p.value);
          return;
        }
      }
      i := i + 1;
    }
    o := Undecided;
  }

  /** The value of a tally is that of the first promise with the highest accepted number. */
  lemma {:induction false} TallyPicksFirst<V>(t: Tally<V>, n: nat, ds: seq<Delivery<PrepareReply<V>>>) returns (i: nat)
    requires TallyPrepares(t, n, ds).maxAccepted > t.maxAccepted
    ensures var f := TallyPrepares(t, n, ds);
      && i < |ds| && ds[i].Got? && ds[i].reply == Promise(f.maxAccepted, f.value)
      && forall j :: 0 <= j < i && ds[j].Got? && ds[j].reply.Promise? ==> ds[j].reply.seqNumAccepted < f.maxAccepted
    decreases |ds|
  {
    var t', f := AbsorbPrepare(t, ds[0]), TallyPrepares(t, n, ds);
    if f.maxAccepted > t'.maxAccepted {
      var k := TallyPicksFirst(t', n, ds[1..]);
      i := k + 1;
      forall j | 0 <= j < i && ds[j].Got? && ds[j].reply.Promise? ensures ds[j].reply.seqNumAccepted < f.maxAccepted {
        if j > 0 { assert ds[j] == ds[1..][j - 1]; }
      }
    } else {
      NothingHigher(t', n, ds[1..]);
      i := 0;
    }
  }

  lemma {:induction false} NothingHigher<V>(t: Tally<V>, n: nat, ds: seq<Delivery<PrepareReply<V>>>)
    ensures var f := TallyPrepares(t, n, ds);
      f.maxAccepted >= t.maxAccepted && (f.maxAccepted == t.maxAccepted ==> f.value == t.value)
    decreases |ds|
  {
    if ds != [] && t.numOk <= n / 2 { NothingHigher(AbsorbPrepare(t, ds[0]), n, ds[1..]); }
  }

  /** Replies that come after a majority has said OK change nothing. */
  lemma {:induction false} LateRepliesIgnored<V>(t: Tally<V>, n: nat, ds: seq<Delivery<PrepareReply<V>>>,
        more: seq<Delivery<PrepareReply<V>>>)
    requires TallyPrepares(t, n, ds).numOk > n / 2
    ensures TallyPrepares(t, n, ds + more) == TallyPrepares(t, n, ds)
    ensures t.numOk <= n / 2 + 1 ==> TallyPrepares(t, n, ds).numOk == n / 2 + 1
    decreases |ds|
  {
    if t.numOk <= n / 2 {
      assert (ds + more)[1..] == ds[1..] + more;
      LateRepliesIgnored(AbsorbPrepare(t, ds[0]), n, ds[1..], more);
    }
  }

  lemma {:induction false} LateAcceptsIgnored<V>(t: Tally<V>, n: nat, ds: seq<Delivery<AcceptReply>>,
        more: seq<Delivery<AcceptReply>>)
    requires TallyAccepts(t, n, ds).numOk > n / 2
    ensures TallyAccepts(t, n, ds + more) == TallyAccepts(t, n, ds)
    ensures t.numOk <= n / 2 + 1 ==> TallyAccepts(t, n, ds).numOk == n / 2 + 1
    decreases |ds|
  {
    if t.numOk <= n / 2 {
      assert (ds + more)[1..] == ds[1..] + more;
      LateAcceptsIgnored(AbsorbAccept(t, ds[0]), n, ds[1..], more);
    }
  }
}
