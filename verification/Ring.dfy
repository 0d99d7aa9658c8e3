/** The ring of storage servers: the sort that orders it, and the two sides that place a
    key on it, the libstore that picks a server and the server that checks the choice. */
module Ring {

  const TWO32: int := 0x1_0000_0000

  datatype Node = Node(hostPort: string, nodeID: int)

  /** Ordered by node id, equal ids allowed. */
  ghost predicate Ordered(s: seq<Node>) {
    forall i, j :: 0 <= i < j < |s| ==> s[i].nodeID <= s[j].nodeID
  }

  ghost predicate Distinct(s: seq<Node>) {
    forall i, j :: 0 <= i < j < |s| ==> s[i].nodeID != s[j].nodeID
  }

  ghost predicate IdsInRange(s: seq<Node>) {
    forall i :: 0 <= i < |s| ==> 0 <= s[i].nodeID < TWO32
  }

  /** Everything before `i` is no greater than everything from `i` on. */
  ghost predicate Below(s: seq<Node>, i: int)
    requires 0 <= i <= |s|
  {
    forall k, l :: 0 <= k < i <= l < |s| ==> s[k].nodeID <= s[l].nodeID
  }

  function Swapped(s: seq<Node>, i: nat, j: nat): seq<Node>
    requires i < j < |s|
  {
    s[i := s[j]][j := s[i]]
  }

  lemma SwapFacts(s: seq<Node>, i: nat, j: nat)
    requires i < j < |s| && Below(s, i) && s[i].nodeID > s[j].nodeID
    requires forall l :: i <= l < j ==> s[i].nodeID <= s[l].nodeID
    ensures var t := Swapped(s, i, j);
      && multiset(t) == multiset(s) && t[..i] == s[..i] && Below(t, i)
      && forall l :: i <= l <= j ==> t[i].nodeID <= t[l].nodeID
  {
    var t := Swapped(s, i, j);
    assert t[..i] == s[..i];
    forall k, l | 0 <= k < i <= l < |t| ensures t[k].nodeID <= t[l].nodeID {
      assert t[k] == s[k] && t[l] == s[if l == i then j else if l == j then i else l];
    }
  }

  lemma OrderedSnoc(s: seq<Node>, i: nat)
    requires i < |s| && Ordered(s[..i]) && Below(s, i)
    ensures Ordered(s[..i + 1])
  {
    var t := s[..i + 1];
    forall k, l | 0 <= k < l < |t| ensures t[k].nodeID <= t[l].nodeID {
      if l < i { assert t[k] == s[..i][k] && t[l] == s[..i][l]; } else { assert t[k] == s[k] && t[l] == s[i]; }
    }
  }

  /** The exchange sort of the registered servers, in place. */
  method SortServers(a: array<Node>)
    modifies a
    ensures Ordered(a[..])
    ensures multiset(a[..]) == old(multiset(a[..]))
  {
    var i := 0;
    while i < a.Length
      invariant 0 <= i <= a.Length
      invariant Ordered(a[..i]) && Below(a[..], i)
      invariant multiset(a[..]) == old(multiset(a[..]))
    {
      ExchangeFrom(a, i);
      assert a[..][..i] == a[..i] && a[..][..i + 1] == a[..i + 1];
      OrderedSnoc(a[..], i);
      i := i + 1;
    }
    assert a[..i] == a[..];
  }

  /** The inner loop: the least of the rest comes to place `i`. */
  method ExchangeFrom(a: array<Node>, i: nat)
    requires i < a.Length && Below(a[..], i)
    modifies a
    ensures a[..i] == old(a[..i]) && Below(a[..], i) && Below(a[..], i + 1)
    ensures multiset(a[..]) == old(multiset(a[..]))
  {
    var j := i + 1;
    while j < a.Length
      invariant i < j <= a.Length
      invariant a[..][..i] == old(a[..][..i]) && Below(a[..], i)
      invariant forall l :: i <= l < j ==> a[..][i].nodeID <= a[..][l].nodeID
      invariant multiset(a[..]) == old(multiset(a[..]))
    {
      if a[i].nodeID > a[j].nodeID {
        ghost var s := a[..];
        SwapFacts(s, i, j);
        a[i], a[j] := a[j], a[i];
        assert a[..] == Swapped(s, i, j);
      }
      j := j + 1;
    }
    assert a[..i] == a[..][..i];
    BelowNext(a[..], i);
  }

  lemma BelowNext(s: seq<Node>, i: nat)
    requires i < |s| && Below(s, i) && forall l :: i <= l < |s| ==> s[i].nodeID <= s[l].nodeID
    ensures Below(s, i + 1)
  {
  }

  // ---------- placing a key ----------

  /** The first server at or after the hash, or the first one of all. */
  function Owner(s: seq<Node>, hash: int): (k: int)
    requires s != []
    ensures 0 <= k < |s|
  {
    FirstFrom(s, hash, 0)
  }

  function FirstFrom(s: seq<Node>, hash: int, i: nat): (k: int)
    requires s != [] && i <= |s|
    ensures 0 <= k < |s|
    decreases |s| - i
  {
    if i == |s| then 0 else if hash <= s[i].nodeID then i else FirstFrom(s, hash, i + 1)
  }

  /** The libstore's choice. */
  method FindHashRing(servers: seq<Node>, hash: int) returns (hostPort: string)
    requires servers != []
    ensures hostPort == servers[Owner(servers, hash)].hostPort
  {
    var i := 0;
    while i < |servers| && !(servers[i].nodeID >= hash)
      invariant 0 <= i <= |servers|
      invariant Owner(servers, hash) == FirstFrom(servers, hash, i)
    {
      i := i + 1;
    }
    if i == |servers| { i := 0; }
    hostPort := servers[i].hostPort;
  }

  /** The storage server's check of a key sent to it. */
  method CheckIsRightServer(servers: seq<Node>, nodeID: int, hash: int) returns (ok: bool)
    requires servers != []
    ensures ok <==> IsRight(servers, nodeID, hash)
  {
    var belong := servers[0].nodeID;
    var i := 0;
    while i < |servers|
      invariant 0 <= i <= |servers| && belong == servers[0].nodeID
      invariant Owner(servers, hash) == FirstFrom(servers, hash, i)
    {
      if hash <= servers[i].nodeID {
        belong := servers[i].nodeID;
        break;
      }
      i := i + 1;
    }
    ok := belong == nodeID;
  }

  predicate IsRight(servers: seq<Node>, nodeID: int, hash: int)
    requires servers != []
  {
    servers[Owner(servers, hash)].nodeID == nodeID
  }

  /** How far a hash has to go clockwise to reach an id. */
  function Clockwise(hash: int, id: int): int { (id - hash) % TWO32 }

  lemma {:induction false} FirstFromIsFirst(s: seq<Node>, hash: int, i: nat)
    requires s != [] && i <= |s|
    ensures var k := FirstFrom(s, hash, i);
      if exists l :: i <= l < |s| && hash <= s[l].nodeID
      then i <= k && hash <= s[k].nodeID && (forall l :: i <= l < k ==> s[l].nodeID < hash)
      else k == 0
    decreases |s| - i
  {
    if i < |s| && hash > s[i].nodeID { FirstFromIsFirst(s, hash, i + 1); }
  }

  /** On an ordered ring the owner of a key is its clockwise successor, wrap-around included. */
  lemma OwnerIsSuccessor(s: seq<Node>, hash: int, j: int)
    requires s != [] && Ordered(s) && IdsInRange(s) && 0 <= hash < TWO32 && 0 <= j < |s|
    ensures Clockwise(hash, s[Owner(s, hash)].nodeID) <= Clockwise(hash, s[j].nodeID)
  {
    var k := Owner(s, hash);
    FirstFromIsFirst(s, hash, 0);
    assert j < k ==> s[j].nodeID < hash;
    assert k < j ==> s[k].nodeID <= s[j].nodeID;
    assert s[0].nodeID <= s[j].nodeID;
  }

  /** Routing agreement: every key is accepted by exactly one of the registered servers,
      the one the libstore picks, if and only if the node ids are distinct. */
  lemma RoutingAgrees(s: seq<Node>)
    requires s != [] && Ordered(s) && IdsInRange(s)
    ensures Distinct(s) <==>
      forall hash, k :: 0 <= hash < TWO32 && 0 <= k < |s| ==> (IsRight(s, s[k].nodeID, hash) <==> k == Owner(s, hash))
  {
    if Distinct(s) {
      forall hash, k | 0 <= hash < TWO32 && 0 <= k < |s|
        ensures IsRight(s, s[k].nodeID, hash) <==> k == Owner(s, hash)
      {
        var o := Owner(s, hash);
        assert k < o ==> s[k].nodeID != s[o].nodeID;
        assert o < k ==> s[o].nodeID != s[k].nodeID;
      }
    } else {
      var i, j :| 0 <= i < j < |s| && s[i].nodeID == s[j].nodeID;
      FirstFromIsFirst(s, s[i].nodeID, 0);
      var o := Owner(s, s[i].nodeID);
      assert o <= i && s[o].nodeID == s[i].nodeID by {
        assert o < i ==> s[o].nodeID <= s[i].nodeID;
      }
      assert IsRight(s, s[j].nodeID, s[i].nodeID) && j != o;
    }
  }
}
