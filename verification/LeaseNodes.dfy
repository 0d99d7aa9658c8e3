/** The two parties of the lease protocol as objects: the storage server's value and list
    stores, and the libstore's caches. */
module LeaseNodes {
  import opened Basics
  import opened LeaseCore
  import Ring

  datatype RpcStatus = OK | KeyNotFound | ItemNotFound | WrongServer | ItemExists | NotReady

  /** How the revocation of one lease goes: the clock reading with which the loop looks at
      the lease, and what happens if it is still running. */
  datatype Visit = Visit(now: int, how: Wait)
  datatype Wait = Acked | SleptUntil(wokeAt: int) | DialFailed

  /** The lease is out of the way: it had run out, was waited out, or its holder has dropped its copy. */
  predicate Settled(l: Lease, v: Visit) {
    v.now >= Until(l) || v.how.Acked? || (v.how.SleptUntil? && v.how.wokeAt >= Until(l))
  }

  function Without(l: seq<string>, item: string): seq<string> {
    if l == [] then [] else if l[0] == item then l[1..] else [l[0]] + Without(l[1..], item)
  }

  /** The loop visits every lease once, and a sleep lasts until the lease has run out. */
  predicate Visits(leases: map<string, Lease>, order: seq<string>, visits: map<string, Visit>) {
    && (forall h :: h in leases ==> h in order && h in visits)
    && (forall h :: h in order ==> h in leases)
    && (forall h :: h in leases && h in visits && visits[h].how.SleptUntil? ==>
          visits[h].how.wokeAt >= Until(leases[h]))
  }

  predicate AllSettled<H>(leases: map<H, Lease>, visits: map<H, Visit>) {
    forall h :: h in leases ==> h in visits && Settled(leases[h], visits[h])
  }

  /** The revocation loop over the granted leases, in the order `order` of the map range.
      It succeeds exactly when no running lease meets a failed dial, and then every lease is settled. */
  method RevokeGrantedLease(leases: map<string, Lease>, order: seq<string>, visits: map<string, Visit>)
    returns (ok: bool)
    requires Visits(leases, order, visits)
    ensures ok <==> AllSettled(leases, visits)
  {
    var i := 0;
    while i < |order|
      invariant 0 <= i <= |order|
      invariant forall k :: 0 <= k < i ==> Settled(leases[order[k]], visits[order[k]])
    {
      var h := order[i];
      if visits[h].now < Until(leases[h]) && visits[h].how.DialFailed? {
        return false;
      }
      i := i + 1;
    }
    ok := true;
  }

  /** The revocation goes wrong exactly at a failed dial to the holder of a lease that was still
      running when the loop came to it. */
  lemma SettledExactly(leases: map<string, Lease>, order: seq<string>, visits: map<string, Visit>)
    requires Visits(leases, order, visits)
    ensures AllSettled(leases, visits) <==>
      forall h :: h in leases && visits[h].how.DialFailed? ==>
        visits[h].now >= leases[h].startFrom + leases[h].validSeconds * 1_000_000_000
  {
    if forall h :: h in leases && visits[h].how.DialFailed? ==> visits[h].now >= Until(leases[h]) {
      forall h | h in leases ensures Settled(leases[h], visits[h]) {
        assert h in visits;
      }
    }
  }

  class StorageServer {
    const nodeID: int
    const serversList: seq<Ring.Node>
    const keyHash: string -> int
    var ready: bool
    var keyValueStore: map<string, Entry<string, string>>
    var keyListStore: map<string, Entry<seq<string>, string>>

    /** `keyHash` is the hash of a key's first part. */
    constructor (nodeID: int, serversList: seq<Ring.Node>, keyHash: string -> int)
      ensures this.nodeID == nodeID && this.serversList == serversList && this.keyHash == keyHash
      ensures !ready && keyValueStore == map[] && keyListStore == map[]
    {
      this.nodeID, this.serversList, this.keyHash := nodeID, serversList, keyHash;
      ready, keyValueStore, keyListStore := false, map[], map[];
    }

    /** The ring is complete when the server is ready. */
    ghost predicate Valid()
      reads this
    {
      ready ==> serversList != []
    }

    /** Why a request for the key is turned away, if it is. */
    ghost function Refusal(key: string): Option<RpcStatus>
      requires Valid()
      reads this
    {
      if !ready then Some(NotReady)
      else if !Ring.IsRight(serversList, nodeID, keyHash(key)) then Some(WrongServer)
      else None
    }

    method CheckRequest(key: string) returns (refusal: Option<RpcStatus>)
      requires Valid()
      ensures refusal == Refusal(key)
    {
      if !ready { return Some(NotReady); }
      var isRightServer := Ring.CheckIsRightServer(serversList, nodeID, keyHash(key));
      refusal := if isRightServer then None else Some(WrongServer);
    }

    /** Grants a lease if asked to and the host has none running; the granted lease is
        shorter than the recorded one by the guard time. */
    method GrantLeaseIfNecessary(host: string, leases: map<string, Lease>, now: int)
      returns (granted: bool, validSeconds: int, leases': map<string, Lease>)
      ensures (Entry("", leases'), granted, validSeconds) == OnGet(Entry("", leases), host, now, true)
    {
      granted, validSeconds, leases' := false, 0, leases;
      if host in leases {
        if now > Until(leases[host]) {
          leases' := leases[host := Lease(now, LEASE_SECONDS + LEASE_GUARD_SECONDS)];
          granted, validSeconds := true, LEASE_SECONDS;
        }
      } else {
        leases' := leases[host := Lease(now, LEASE_SECONDS + LEASE_GUARD_SECONDS)];
        granted, validSeconds := true, LEASE_SECONDS;
      }
    }

    method Get(key: string, wantLease: bool, host: string, now: int)
      returns (status: RpcStatus, value: string, granted: bool, validSeconds: int)
      requires Valid()
      modifies this`keyValueStore
      ensures status == if Refusal(key).Some? then Refusal(key).value
                        else if key in old(keyValueStore) then OK else KeyNotFound
      ensures !status.OK? ==> keyValueStore == old(keyValueStore) && !granted
      ensures status.OK? ==>
        var (e, g, v) := OnGet(old(keyValueStore[key]), host, now, wantLease);
        value == e.value && granted == g && validSeconds == v && keyValueStore == old(keyValueStore)[key := e]
    {
      value, granted, validSeconds := "", false, 0;
      var refusal := CheckRequest(key);
      if refusal.Some? { status := refusal.value; return; }
      if key !in keyValueStore { status := KeyNotFound; return; }
      var e := keyValueStore[key];
      status, value := OK, e.value;
      if wantLease {
        var leases;
        granted, validSeconds, leases := GrantLeaseIfNecessary(host, e.leaseGranted, now);
        e := e.(leaseGranted := leases);
      }
      keyValueStore := keyValueStore[key := e];
    }

    method GetList(key: string, wantLease: bool, host: string, now: int)
      returns (status: RpcStatus, value: seq<string>, granted: bool, validSeconds: int)
      requires Valid()
      modifies this`keyListStore
      ensures status == if Refusal(key).Some? then Refusal(key).value
                        else if key in old(keyListStore) then OK else KeyNotFound
      ensures !status.OK? ==> keyListStore == old(keyListStore) && !granted
      ensures status.OK? ==>
        var (e, g, v) := OnGet(old(keyListStore[key]), host, now, wantLease);
        value == e.value && granted == g && validSeconds == v && keyListStore == old(keyListStore)[key := e]
    {
      value, granted, validSeconds := [], false, 0;
      var refusal := CheckRequest(key);
      if refusal.Some? { status := refusal.value; return; }
      if key !in keyListStore { status := KeyNotFound; return; }
      var e := keyListStore[key];
      status := OK;
      var i := 0;
      while i < |e.value|
        invariant 0 <= i <= |e.value| && value == e.value[..i]
      {
        value := value + [e.value[i]];
        i := i + 1;
      }
      if wantLease {
        var leases;
        granted, validSeconds, leases := GrantLeaseIfNecessary(host, e.leaseGranted, now);
        e := e.(leaseGranted := leases);
      }
      keyListStore := keyListStore[key := e];
    }

    /** A value changes only after every lease on its old value is settled; if the revocation
        fails (`None`, an error) or the request is turned away, nothing changes and the leases
        stay on record. */
    method Put(key: string, value: string, order: seq<string>, visits: map<string, Visit>)
      returns (status: Option<RpcStatus>)
      requires Valid()
      requires key in keyValueStore ==> Visits(keyValueStore[key].leaseGranted, order, visits)
      modifies this`keyValueStore
      ensures status ==
        if Refusal(key).Some? then Refusal(key)
        else if key in old(keyValueStore) && !AllSettled(old(keyValueStore)[key].leaseGranted, visits) then None
        else Some(OK)
      ensures keyValueStore ==
        if status == Some(OK) then old(keyValueStore)[key := Entry(value, map[])] else old(keyValueStore)
    {
      status := CheckRequest(key);
      if status.Some? { return; }
      if key in keyValueStore {
        var ok := RevokeGrantedLease(keyValueStore[key].leaseGranted, order, visits);
        if !ok { return None; }
      }
      status := Some(OK);
      keyValueStore := keyValueStore[key := Entry(value, map[])];
    }

    /** A duplicate changes nothing but clears the leases. */
    method AppendToList(key: string, item: string, order: seq<string>, visits: map<string, Visit>)
      returns (status: Option<RpcStatus>)
      requires Valid()
      requires key in keyListStore ==> Visits(keyListStore[key].leaseGranted, order, visits)
      modifies this`keyListStore
      ensures Refusal(key).Some? ==> status == Refusal(key) && keyListStore == old(keyListStore)
      ensures Refusal(key).None? && key !in old(keyListStore) ==>
        status == Some(OK) && keyListStore == old(keyListStore)[key := Entry([item], map[])]
      ensures Refusal(key).None? && key in old(keyListStore) ==>
        var e := old(keyListStore[key]);
        if !AllSettled(e.leaseGranted, visits) then status == None && keyListStore == old(keyListStore)
        else
          && status == Some(if item in e.value then ItemExists else OK)
          && keyListStore == old(keyListStore)[
               key := Entry(if item in e.value then e.value else e.value + [item], map[])]
    {
      status := CheckRequest(key);
      if status.Some? { return; }
      if key !in keyListStore {
        keyListStore := keyListStore[key := Entry([item], map[])];
        return Some(OK);
      }
      var e := keyListStore[key];
      var ok := RevokeGrantedLease(e.leaseGranted, order, visits);
      if !ok { return None; }
      var i := 0;
      while i < |e.value| && e.value[i] != item
        invariant 0 <= i <= |e.value| && item !in e.value[..i]
      {
        i := i + 1;
      }
      if i < |e.value| {
        status := Some(ItemExists);
      } else {
        e := e.(value := e.value + [item]);
        status := Some(OK);
      }
      keyListStore := keyListStore[key := Entry(e.value, map[])];
    }

    method RemoveFromList(key: string, item: string, order: seq<string>, visits: map<string, Visit>)
      returns (status: Option<RpcStatus>)
      requires Valid()
      requires key in keyListStore ==> Visits(keyListStore[key].leaseGranted, order, visits)
      modifies this`keyListStore
      ensures Refusal(key).Some? ==> status == Refusal(key) && keyListStore == old(keyListStore)
      ensures Refusal(key).None? && key !in old(keyListStore) ==>
        status == Some(ItemNotFound) && keyListStore == old(keyListStore)
      ensures Refusal(key).None? && key in old(keyListStore) ==>
        var e := old(keyListStore[key]);
        if !AllSettled(e.leaseGranted, visits) then status == None && keyListStore == old(keyListStore)
        else
          && status == Some(if item in e.value then OK else ItemNotFound)
          && keyListStore == old(keyListStore)[key := Entry(Without(e.value, item), map[])]
    {
      status := CheckRequest(key);
      if status.Some? { return; }
      if key !in keyListStore { return Some(ItemNotFound); }
      var e := keyListStore[key];
      var ok := RevokeGrantedLease(e.leaseGranted, order, visits);
      if !ok { return None; }
      var i := 0;
      while i < |e.value| && e.value[i] != item
        invariant 0 <= i <= |e.value| && item !in e.value[..i]
      {
        i := i + 1;
      }
      WithoutAt(e.value, item, i);
      if i < |e.value| {
        e := e.(value := e.value[..i] + e.value[i + 1..]);
        status := Some(OK);
      } else {
        status := Some(ItemNotFound);
      }
      keyListStore := keyListStore[key := Entry(e.value, map[])];
    }
  }

  lemma {:induction false} WithoutAt(l: seq<string>, item: string, i: nat)
    requires i <= |l| && item !in l[..i] && (i < |l| ==> l[i] == item)
    ensures Without(l, item) == if i < |l| then l[..i] + l[i + 1..] else l
  {
    if i > 0 {
      assert l[0] in l[..i] && l[1..][..i - 1] == l[..i][1..];
      WithoutAt(l[1..], item, i - 1);
      if i < |l| { ConsCut(l, i, i + 1); } else { assert [l[0]] + l[1..] == l; }
    }
  }

  class Libstore {
    var keyValue: map<string, Cached<string>>
    var keylist: map<string, Cached<seq<string>>>

    constructor ()
      ensures keyValue == map[] && keylist == map[]
    {
      keyValue, keylist := map[], map[];
    }

    function CachedValue(key: string): Option<Cached<string>>
      reads this
    {
      if key in keyValue then Some(keyValue[key]) else None
    }

    function CachedList(key: string): Option<Cached<seq<string>>>
      reads this
    {
      if key in keylist then Some(keylist[key]) else None
    }

    /** A Get under the key's lock: `now` was read before the lock was taken, and `rpc` is
        what the storage server answers if it is asked. The lease kept starts at `now`. */
    method Get(key: string, now: int, rpc: Fetched<string>) returns (result: Option<string>)
      modifies this`keyValue
      ensures var hit := Lookup(old(CachedValue(key)), now);
        if hit.Some? then result == Some(hit.value.value) && keyValue == old(keyValue)
        else
          && result == (if rpc.Found? then Some(rpc.value) else None)
          && CachedValue(key) == Kept(rpc, now)
      ensures forall k :: k != key ==> CachedValue(k) == old(CachedValue(k))
    {
      if key in keyValue {
        if now > Until(keyValue[key].lease) {
          keyValue := keyValue - {key};
        } else {
          return Some(keyValue[key].value);
        }
      }
      if rpc.Found? {
        if rpc.granted { keyValue := keyValue[key := Cached(rpc.value, Lease(now, rpc.validSeconds))]; }
        result := Some(rpc.value);
      } else {
        result := None;
      }
    }

    /** Lists are read the same way, except that a missing key reads as the empty list. */
    method GetList(key: string, now: int, rpc: Fetched<seq<string>>) returns (result: Option<seq<string>>)
      modifies this`keylist
      ensures var hit := Lookup(old(CachedList(key)), now);
        if hit.Some? then result == Some(hit.value.value) && keylist == old(keylist)
        else
          && result == (match rpc case Failed => None case NotFound => Some([]) case Found(v, _, _) => Some(v))
          && CachedList(key) == Kept(rpc, now)
      ensures forall k :: k != key ==> CachedList(k) == old(CachedList(k))
    {
      if key in keylist {
        if now > Until(keylist[key].lease) {
          keylist := keylist - {key};
        } else {
          return Some(keylist[key].value);
        }
      }
      match rpc {
        case Failed => result := None;
        case NotFound => result := Some([]);
        case Found(v, granted, valid) =>
          if granted { keylist := keylist[key := Cached(v, Lease(now, valid))]; }
          result := Some(v);
      }
    }

    /** Revocation drops the value copy; it drops the list copy if and only if there is no
        value copy under the same key. */
    method RevokeLease(key: string) returns (status: RpcStatus)
      modifies this
      ensures status == if key in old(keyValue) || key in old(keylist) then OK else KeyNotFound
      ensures keyValue == old(keyValue) - {key}
      ensures keylist == if key in old(keyValue) then old(keylist) else old(keylist) - {key}
      ensures key !in keyValue && (key !in keylist <==> !(key in old(keyValue) && key in old(keylist)))
    {
      var okvalue, oklist := key in keyValue, key in keylist;
      if okvalue || oklist {
        status := OK;
        if okvalue { keyValue := keyValue - {key}; } else { keylist := keylist - {key}; }
      } else {
        status := KeyNotFound;
      }
      assert key !in old(keyValue) ==> old(keyValue) - {key} == old(keyValue);
      assert key !in old(keylist) ==> old(keylist) - {key} == old(keylist);
    }
  }
}
