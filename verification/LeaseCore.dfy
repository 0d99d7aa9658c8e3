/** Leases: what the storage server records, what a libstore caches, and the rules by
    which one is granted and the other believed. Times are nanoseconds on one clock. */
module LeaseCore {
  import opened Basics

  const SECOND: int := 1_000_000_000
  const LEASE_SECONDS: int := 10
  const LEASE_GUARD_SECONDS: int := 2

  datatype Lease = Lease(startFrom: int, validSeconds: int)

  function Until(l: Lease): int { l.startFrom + l.validSeconds * SECOND }

  /** A libstore's copy of a value. */
  datatype Cached<V> = Cached(value: V, lease: Lease)

  /** A storage server's value with the leases it has granted on it. */
  datatype Entry<V, H> = Entry(value: V, leaseGranted: map<H, Lease>)

  /** A lease is refused while an earlier one of the same host runs. */
  predicate Grants<H>(leases: map<H, Lease>, host: H, now: int) {
    host !in leases || now > Until(leases[host])
  }

  function AfterGrant<H>(leases: map<H, Lease>, host: H, now: int, validSeconds: int): map<H, Lease> {
    if Grants(leases, host, now) then leases[host := Lease(now, validSeconds)] else leases
  }

  /** What a Get does at the storage server: the new entry, whether a lease is granted, and for
      how long. The record outlasts the grant by the guard time. */
  function OnGet<V, H>(e: Entry<V, H>, host: H, now: int, wantLease: bool): (Entry<V, H>, bool, int) {
    if wantLease && Grants(e.leaseGranted, host, now) then
      var leases := AfterGrant(e.leaseGranted, host, now, LEASE_SECONDS + LEASE_GUARD_SECONDS);
      (e.(leaseGranted := leases), true, LEASE_SECONDS)
    else (e, false, 0)
  }

  /** What the Get RPC brings back to the libstore. */
  datatype Fetched<V> = Failed | NotFound | Found(value: V, granted: bool, validSeconds: int)

  /** The copy that the libstore keeps of a reply: its lease starts at `now`, when the Get
      began. */
  function Kept<V>(rpc: Fetched<V>, now: int): Option<Cached<V>> {
    if rpc.Found? && rpc.granted then Some(Cached(rpc.value, Lease(now, rpc.validSeconds))) else None
  }

  /** The cached copy, if the clock reading `now` does not rule it out. */
  function Lookup<V>(cache: Option<Cached<V>>, now: int): Option<Cached<V>> {
    if cache.Some? && now > Until(cache.value.lease) then None else cache
  }
}
