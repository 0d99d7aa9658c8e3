/** The ordered message buffer of the LSP endpoints. */
module LspBuffer {
  import opened Basics

  type Payload = seq<byte>

  datatype Message = Data(seqNum: int, payload: Payload) | Ack(seqNum: int)

  ghost predicate Sorted(s: seq<Message>) {
    forall i, j :: 0 <= i < j < |s| ==> s[i].seqNum < s[j].seqNum
  }

  /** Ordered insertion; a message whose number is already there is dropped. */
  function Inserted(s: seq<Message>, m: Message): seq<Message> {
    if s == [] || m.seqNum < s[0].seqNum then [m] + s
    else if m.seqNum == s[0].seqNum then s
    else [s[0]] + Inserted(s[1..], m)
  }

  /** The first message with number `n` removed. */
  function Deleted(s: seq<Message>, n: int): seq<Message> {
    if s == [] then []
    else if s[0].seqNum == n then s[1..]
    else [s[0]] + Deleted(s[1..], n)
  }

  predicate HasNum(s: seq<Message>, n: int) {
    exists i :: 0 <= i < |s| && s[i].seqNum == n
  }

  function DroppedBelow(s: seq<Message>, bound: int): seq<Message> {
    if s == [] || s[0].seqNum >= bound then s else DroppedBelow(s[1..], bound)
  }

  /** Only the numbers of the last window remain. */
  function Adjusted(s: seq<Message>, window: int): seq<Message>
    requires s != []
  {
    DroppedBelow(s, s[|s| - 1].seqNum - window + 1)
  }

  // ---------- what the buffer operations do to order and contents ----------

  lemma {:induction false} InsertedFacts(s: seq<Message>, m: Message)
    requires Sorted(s)
    ensures Sorted(Inserted(s, m))
    ensures forall x :: x in Inserted(s, m) <==> x in s || (x == m && !HasNum(s, m.seqNum))
    ensures forall n :: HasNum(Inserted(s, m), n) <==> HasNum(s, n) || n == m.seqNum
  {
    var r := Inserted(s, m);
    if s == [] || m.seqNum < s[0].seqNum {
      SplitHead(r);
      assert r[1..] == s;
      ConsSorted(m, s);
      assert !HasNum(s, m.seqNum);
    } else if m.seqNum != s[0].seqNum {
      var t := s[1..];
      InsertedFacts(t, m);
      SplitHead(s);
      SplitHead(r);
      assert r[1..] == Inserted(t, m);
      ConsSorted(s[0], Inserted(t, m));
    }
  }

  lemma ConsSorted(h: Message, t: seq<Message>)
    requires Sorted(t) && (t != [] ==> h.seqNum < t[0].seqNum)
    ensures Sorted([h] + t)
  {
  }

  lemma SplitHead(s: seq<Message>)
    requires s != []
    ensures forall x :: x in s <==> x == s[0] || x in s[1..]
    ensures forall n :: HasNum(s, n) <==> n == s[0].seqNum || HasNum(s[1..], n)
  {
    forall n | HasNum(s[1..], n) ensures HasNum(s, n) {
      var i :| 0 <= i < |s[1..]| && s[1..][i].seqNum == n;
      assert s[i + 1].seqNum == n;
    }
    forall n | HasNum(s, n) && n != s[0].seqNum ensures HasNum(s[1..], n) {
      var i :| 0 <= i < |s| && s[i].seqNum == n;
      assert s[1..][i - 1].seqNum == n;
    }
    forall n | n == s[0].seqNum ensures HasNum(s, n) { assert s[0].seqNum == n; }
  }

  /** Insertion at the place where a scan for the first number not below stops. */
  lemma {:induction false} InsertedAt(s: seq<Message>, m: Message, i: nat)
    requires i <= |s| && (forall k :: 0 <= k < i ==> s[k].seqNum < m.seqNum)
    requires i < |s| ==> m.seqNum <= s[i].seqNum
    ensures Inserted(s, m) == if i < |s| && m.seqNum == s[i].seqNum then s else s[..i] + [m] + s[i..]
  {
    if i > 0 {
      InsertedAt(s[1..], m, i - 1);
      ConsInsert(s, m, i);
      assert [s[0]] + s[1..] == s;
    } else {
      assert s[..0] + [m] + s[0..] == [m] + s;
    }
  }

  lemma {:induction false} DeletedAt(s: seq<Message>, n: int, i: nat)
    requires i <= |s| && (forall k :: 0 <= k < i ==> s[k].seqNum != n)
    requires i < |s| ==> s[i].seqNum == n
    ensures Deleted(s, n) == if i < |s| then s[..i] + s[i + 1..] else s
  {
    if i > 0 {
      DeletedAt(s[1..], n, i - 1);
      if i < |s| { ConsCut(s, i, i + 1); } else { assert [s[0]] + s[1..] == s; }
    } else if s != [] {
      assert s[..0] + s[1..] == s[1..];
    }
  }

  lemma {:induction false} DeletedFacts(s: seq<Message>, n: int)
    requires Sorted(s)
    ensures Sorted(Deleted(s, n))
    ensures forall x :: x in Deleted(s, n) <==> x in s && x.seqNum != n
    ensures forall k :: HasNum(Deleted(s, n), k) <==> HasNum(s, k) && k != n
    ensures HasNum(s, n) || Deleted(s, n) == s
    ensures |Deleted(s, n)| == if HasNum(s, n) then |s| - 1 else |s|
  {
    if s != [] {
      var t, r := s[1..], Deleted(s, n);
      SplitHead(s);
      DeletedFacts(t, n);
      if s[0].seqNum != n {
        assert r[1..] == Deleted(t, n);
        SplitHead(r);
        ConsSorted(s[0], Deleted(t, n));
      }
    }
  }

  lemma {:induction false} DroppedFacts(s: seq<Message>, bound: int)
    requires Sorted(s)
    ensures Sorted(DroppedBelow(s, bound))
    ensures forall x :: x in DroppedBelow(s, bound) <==> x in s && x.seqNum >= bound
    ensures forall k :: HasNum(DroppedBelow(s, bound), k) <==> HasNum(s, k) && k >= bound
  {
    if s != [] {
      SplitHead(s);
      forall i | 0 <= i < |s[1..]| ensures s[0].seqNum < s[1..][i].seqNum { assert s[1..][i] == s[i + 1]; }
      if s[0].seqNum < bound { DroppedFacts(s[1..], bound); }
    }
  }

  lemma {:induction false} AdjustedKeepsLast(s: seq<Message>, bound: int)
    requires s != [] && s[|s| - 1].seqNum >= bound
    ensures var r := DroppedBelow(s, bound); r != [] && r[|r| - 1] == s[|s| - 1]
  {
    if s[0].seqNum < bound { AdjustedKeepsLast(s[1..], bound); }
  }

  // ---------- the buffer itself ----------

  class Buffer {
    var msgs: seq<Message>

    ghost predicate Valid()
      reads this
    {
      Sorted(msgs)
    }

    constructor ()
      ensures msgs == [] && Valid()
    {
      msgs := [];
    }

    method Insert(val: Message)
      requires Valid()
      modifies this
      ensures Valid() && msgs == Inserted(old(msgs), val)
    {
      InsertedFacts(msgs, val);
      if |msgs| == 0 || val.seqNum > msgs[|msgs| - 1].seqNum {
        InsertedAt(msgs, val, |msgs|);
        msgs := msgs + [val];
      } else {
        var i := 0;
        while msgs[i].seqNum < val.seqNum
          invariant 0 <= i < |msgs|
          invariant forall k :: 0 <= k < i ==> msgs[k].seqNum < val.seqNum
          decreases |msgs| - i
        {
          i := i + 1;
        }
        InsertedAt(msgs, val, i);
        if val.seqNum < msgs[i].seqNum {
          msgs := msgs[..i] + [val] + msgs[i..];
        }
      }
    }

    method Remove() returns (m: Message)
      requires Valid() && msgs != []
      modifies this
      ensures Valid() && [m] + msgs == old(msgs)
    {
      m := msgs[0];
      msgs := msgs[1..];
    }

    method Delete(n: int) returns (found: bool)
      requires Valid()
      modifies this
      ensures Valid() && msgs == Deleted(old(msgs), n) && found == HasNum(old(msgs), n)
    {
      DeletedFacts(msgs, n);
      var i := 0;
      while i < |msgs| && msgs[i].seqNum != n
        invariant 0 <= i <= |msgs|
        invariant forall k :: 0 <= k < i ==> msgs[k].seqNum != n
      {
        i := i + 1;
      }
      DeletedAt(msgs, n, i);
      found := i < |msgs|;
      if found { msgs := msgs[..i] + msgs[i + 1..]; }
    }

    method AdjustUsingWindow(window: int)
      requires Valid() && msgs != []
      modifies this
      ensures Valid() && msgs == Adjusted(old(msgs), window)
    {
      var left := msgs[|msgs| - 1].seqNum - window + 1;
      DroppedFacts(msgs, left);
      while msgs != [] && msgs[0].seqNum < left
        invariant DroppedBelow(msgs, left) == DroppedBelow(old(msgs), left)
        decreases |msgs|
      {
        msgs := msgs[1..];
      }
    }

    method ReturnAll() returns (r: seq<Message>)
      ensures r == msgs
    {
      r := [];
      var pos := 0;
      while pos < |msgs|
        invariant 0 <= pos <= |msgs| && r == msgs[..pos]
      {
        r := r + [msgs[pos]];
        pos := pos + 1;
      }
    }
  }
}
