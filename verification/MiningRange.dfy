/** Nonce ranges: when the units of a request cover it exactly, and what a miner finds in one. */
module MiningRange {
  import opened Scheduler

  /** The hash of a message and a nonce; SHA-256 in the program, any function here. */
  type HashFn = (string, nat) -> nat

  predicate Covers(u: WorkUnit, x: nat) {
    u.lower <= x <= u.upper
  }

  ghost predicate Covered(units: seq<WorkUnit>, x: nat) {
    exists i :: 0 <= i < |units| && Covers(units[i], x)
  }

  /** Every nonce of the range belongs to exactly one unit, and no unit goes outside. */
  ghost predicate ExactCover(units: seq<WorkUnit>, lower: nat, upper: nat) {
    && (forall i, x: nat :: 0 <= i < |units| && Covers(units[i], x) ==> lower <= x <= upper)
    && (forall x: nat :: lower <= x <= upper ==> Covered(units, x))
    && (forall i, j, x: nat :: 0 <= i < j < |units| ==> !(Covers(units[i], x) && Covers(units[j], x)))
  }

  /** What a caller can check: the request is not split; or every miner gets a nonce and the
      range is not reversed; or some get none and the range does not start at zero. */
  predicate Splits(lower: nat, upper: nat, miners: nat) {
    || RangeSize(lower, upper) <= MINER_WORKLOAD_THRESHOLD
    || miners <= 1
    || (if miners <= RangeSize(lower, upper) then lower <= upper else lower > 0)
  }

  lemma SizeOf(lower: nat, upper: nat)
    requires lower < TWO64 && upper < TWO64
    ensures RangeSize(lower, upper) ==
      if lower > upper + 1 then TWO64 + upper + 1 - lower
      else if upper - lower + 1 == TWO64 then 0
      else upper - lower + 1
  {
  }

  /** Equal parts of at least one nonce: the first `i + 1` of them fit. */
  lemma PartsFit(size: nat, n: nat, i: nat)
    requires i < n <= size
    ensures size / n >= 1 && 0 <= i * (size / n) && i * (size / n) + size / n <= size
  {
    var w := size / n;
    Quotient(size, n);
    Monotone(i + 1, n, w);
    assert (i + 1) * w == i * w + w;
    Monotone(0, i, w);
  }

  lemma Quotient(size: nat, n: nat)
    requires 0 < n <= size
    ensures 1 <= size / n && n * (size / n) <= size
  {
    var w := size / n;
    assert size == n * w + size % n;
    assert w == 0 ==> n * w == 0;
  }

  lemma Monotone(a: nat, b: nat, w: nat)
    requires a <= b
    ensures a * w <= b * w
  {
    assert b * w == a * w + (b - a) * w;
  }

  lemma PieceFromBounds(c: int, data: string, lower: nat, upper: nat, offset: nat, w: nat, last: bool)
    requires 1 <= w && lower + offset + w - 1 <= upper < TWO64
    ensures PieceFrom(c, data, lower, upper, offset, w, last)
         == WorkUnit(c, data, lower + offset, if last then upper else lower + offset + w - 1)
  {
  }

  /** The bounds of a piece when every miner gets at least one nonce. */
  lemma PieceBounds(c: int, data: string, lower: nat, upper: nat, n: nat, i: nat, size: nat)
    requires lower <= upper < TWO64 && i < n <= size == RangeSize(lower, upper)
    ensures var w := size / n;
      && 1 <= w && 0 <= i * w && lower + i * w + w - 1 <= upper
      && Piece(c, data, lower, upper, n, i)
         == WorkUnit(c, data, lower + i * w, if i == n - 1 then upper else lower + i * w + w - 1)
  {
    SizeOf(lower, upper);
    PartsFit(size, n, i);
    PieceFromBounds(c, data, lower, upper, i * (size / n), size / n, i == n - 1);
  }

  /** The part that a position falls into, the last one taking the remainder. */
  lemma PartOf(size: nat, n: nat, w: nat, y: nat) returns (i: nat)
    requires 1 <= w && 0 < n && y < size
    ensures i < n && i * w <= y && (i < n - 1 ==> y < i * w + w)
  {
    var k := y / w;
    assert y == k * w + y % w;
    if k < n { i := k; } else {
      i := n - 1;
      assert (n - 1) * w <= k * w;
    }
  }

  lemma PieceAt(c: int, data: string, lower: nat, upper: nat, n: nat, x: nat, size: nat) returns (i: nat)
    requires lower <= x <= upper < TWO64 && 0 < n <= size == RangeSize(lower, upper)
    ensures i < n && Covers(Piece(c, data, lower, upper, n, i), x)
  {
    SizeOf(lower, upper);
    PartsFit(size, n, 0);
    i := PartOf(size, n, size / n, x - lower);
    PieceBounds(c, data, lower, upper, n, i, size);
  }

  lemma PartsApart(w: nat, i: nat, j: nat)
    requires i < j
    ensures i * w + w <= j * w
  {
    assert (i + 1) * w <= j * w;
  }

  lemma PiecesDisjoint(c: int, data: string, lower: nat, upper: nat, n: nat, i: nat, j: nat, x: nat, size: nat)
    requires lower <= upper < TWO64 && i < j < n <= size == RangeSize(lower, upper)
    ensures !(Covers(Piece(c, data, lower, upper, n, i), x) && Covers(Piece(c, data, lower, upper, n, j), x))
  {
    PieceBounds(c, data, lower, upper, n, i, size);
    PieceBounds(c, data, lower, upper, n, j, size);
    PartsApart(size / n, i, j);
  }

  lemma EvenSplitCovers(c: int, data: string, lower: nat, upper: nat, n: nat, units: seq<WorkUnit>, size: nat)
    requires lower <= upper < TWO64 && 0 < n <= size == RangeSize(lower, upper)
    requires |units| == n && forall i :: 0 <= i < n ==> units[i] == Piece(c, data, lower, upper, n, i)
    ensures ExactCover(units, lower, upper)
  {
    forall i, x: nat | 0 <= i < |units| && Covers(units[i], x) ensures lower <= x <= upper {
      PieceBounds(c, data, lower, upper, n, i, size);
    }
    forall x: nat | lower <= x <= upper ensures Covered(units, x) {
      var i := PieceAt(c, data, lower, upper, n, x, size);
      assert Covers(units[i], x);
    }
    forall i, j, x: nat | 0 <= i < j < |units| ensures !(Covers(units[i], x) && Covers(units[j], x)) {
      PiecesDisjoint(c, data, lower, upper, n, i, j, x, size);
    }
  }

  /** With more miners than nonces the interval is zero: all pieces but the last are
      `[lower, lower - 1]` in uint64 arithmetic. */
  lemma ZeroInterval(c: int, data: string, lower: nat, upper: nat, n: nat)
    requires lower < TWO64 && upper < TWO64 && MINER_WORKLOAD_THRESHOLD < RangeSize(lower, upper) < n
    ensures var units := Partition(c, data, lower, upper, n);
      && |units| == n
      && units[n - 1] == WorkUnit(c, data, lower, upper)
      && (forall i :: 0 <= i < n - 1 ==> units[i] == WorkUnit(c, data, lower, (lower - 1) % TWO64))
  {
    NoInterval(RangeSize(lower, upper), n);
    forall i | 0 <= i < n
      ensures Piece(c, data, lower, upper, n, i) == PieceFrom(c, data, lower, upper, 0, 0, i == n - 1)
    {
      assert i * 0 == 0;
    }
  }

  lemma NoInterval(size: nat, n: nat)
    requires size < n
    ensures size / n == 0
  {
    var q := size / n;
    assert size == n * q + size % n;
    assert q >= 1 ==> n * q >= n;
  }

  /** A reversed range counts as one that wraps around zero, and some piece of a split lies
      outside of it. */
  lemma ReversedSplit(c: int, data: string, lower: nat, upper: nat, n: nat, size: nat)
    requires upper < lower < TWO64 && 2 <= n <= size == RangeSize(lower, upper)
    ensures Covers(Piece(c, data, lower, upper, n, 0), lower) || Covers(Piece(c, data, lower, upper, n, n - 1), upper)
  {
    SizeOf(lower, upper);
    PartsFit(size, n, n - 1);
    var w := size / n;
    PartsApart(w, 0, n - 1);
    if lower + w <= TWO64 {
      assert Piece(c, data, lower, upper, n, 0) == PieceFrom(c, data, lower, upper, 0, w, false);
      PieceFromBounds(c, data, lower, TWO64 - 1, 0, w, false);
    } else {
      PieceWraps(c, data, lower, upper, (n - 1) * w, w);
    }
  }

  lemma PieceWraps(c: int, data: string, lower: nat, upper: nat, offset: nat, w: nat)
    requires lower < TWO64 <= lower + offset && lower + offset + w <= TWO64 + upper + 1 && upper < TWO64 && w >= 1
    ensures Covers(PieceFrom(c, data, lower, upper, offset, w, true), upper)
  {
  }

  lemma UnsplitCovers(c: int, data: string, lower: nat, upper: nat, units: seq<WorkUnit>)
    requires units == [WorkUnit(c, data, lower, upper)]
    ensures ExactCover(units, lower, upper)
  {
    assert forall x: nat :: Covers(units[0], x) ==> Covered(units, x);
  }

  lemma ZeroIntervalCovers(c: int, data: string, lower: nat, upper: nat, n: nat)
    requires lower < TWO64 && upper < TWO64 && MINER_WORKLOAD_THRESHOLD < RangeSize(lower, upper) < n
    ensures ExactCover(Partition(c, data, lower, upper, n), lower, upper) <==> lower > 0
  {
    var units := Partition(c, data, lower, upper, n);
    ZeroInterval(c, data, lower, upper, n);
    SizeOf(lower, upper);
    if lower > 0 {
      assert forall x: nat :: Covers(units[n - 1], x) ==> Covered(units, x);
    } else {
      assert Covers(units[0], upper + 1);
    }
  }

  /** The units of any uint64 request cover it exactly, for every number of miners, if and
      only if the check `Splits` passes. */
  lemma PartitionTiles(c: int, data: string, lower: nat, upper: nat, miners: nat)
    requires lower < 0x1_0000_0000_0000_0000 && upper < 0x1_0000_0000_0000_0000
    ensures ExactCover(Partition(c, data, lower, upper, miners), lower, upper) <==> Splits(lower, upper, miners)
  {
    SizeOf(lower, upper);
    var units, n := Partition(c, data, lower, upper, miners), if miners == 0 then 1 else miners;
    var size := RangeSize(lower, upper);
    if size <= MINER_WORKLOAD_THRESHOLD {
      UnsplitCovers(c, data, lower, upper, units);
    } else if n == 1 {
      assert Piece(c, data, lower, upper, 1, 0) == PieceFrom(c, data, lower, upper, 0, size / 1, true);
      UnsplitCovers(c, data, lower, upper, units);
    } else if n > size {
      ZeroIntervalCovers(c, data, lower, upper, n);
    } else if lower <= upper {
      EvenSplitCovers(c, data, lower, upper, n, units, size);
    } else {
      ReversedSplit(c, data, lower, upper, n, size);
      assert Covers(units[0], lower) || Covers(units[n - 1], upper);
    }
  }

  /** How work is shared out: a request of up to 10000 nonces, or of the whole uint64 range,
      is one unit; any other is one unit per miner, all equally long but for the last, which
      is longer by less than one nonce per miner. */
  lemma PartitionIsEven(c: int, data: string, lower: nat, upper: nat, miners: nat)
    requires lower <= upper < 0x1_0000_0000_0000_0000
    ensures var units, size := Partition(c, data, lower, upper, miners), upper - lower + 1;
      if size <= 10000 || size == 0x1_0000_0000_0000_0000 then units == [WorkUnit(c, data, lower, upper)]
      else
        && |units| == (if miners == 0 then 1 else miners)
        && (|units| <= size ==>
              && (forall i, j :: 0 <= i < |units| - 1 && 0 <= j < |units| - 1 ==> Length(units[i]) == Length(units[j]))
              && (forall i :: 0 <= i < |units| - 1 ==>
                    Length(units[i]) <= Length(units[|units| - 1]) < Length(units[i]) + |units|))
  {
    SizeOf(lower, upper);
    var n, size := if miners == 0 then 1 else miners, RangeSize(lower, upper);
    var units := Partition(c, data, lower, upper, miners);
    if MINER_WORKLOAD_THRESHOLD < size && n <= size {
      forall i | 0 <= i < n ensures Length(units[i]) == if i < n - 1 then size / n else size - (n - 1) * (size / n) {
        PieceBounds(c, data, lower, upper, n, i, size);
      }
      LastPart(size, n);
    }
  }

  function Length(u: WorkUnit): int { u.upper - u.lower + 1 }

  lemma LastPart(size: nat, n: nat)
    requires 0 < n
    ensures size / n <= size - (n - 1) * (size / n) < size / n + n
  {
    var w := size / n;
    assert size == n * w + size % n;
    assert (n - 1) * w == n * w - w;
  }

  // ---------- the miner ----------

  /** `(hash, nonce)` is the least hash of the range and where it is; the greatest uint64
      stands for no smaller hash. */
  ghost predicate IsMinHash(h: HashFn, data: string, lower: nat, upper: nat, hash: nat, nonce: nat) {
    && hash <= MAX_UINT64
    && (forall x: nat :: lower <= x <= upper ==> hash <= h(data, x))
    && (if hash < MAX_UINT64 then lower <= nonce <= upper && h(data, nonce) == hash else nonce == 0)
  }

  /** The miner's loop over a uint64 counter, cut off after `budget` passes. It comes to an end
      within some budget if and only if `upper` is below the greatest uint64, and then the
      result is the minimum of the range, at its first nonce. */
  method CalculateMinHash(h: HashFn, data: string, lower: nat, upper: nat, budget: nat)
    returns (done: bool, minHash: nat, nonce: nat)
    requires lower < 0x1_0000_0000_0000_0000 && upper < 0x1_0000_0000_0000_0000
    ensures done <==> upper < 0xFFFF_FFFF_FFFF_FFFF && upper - lower + 1 <= budget
    ensures done ==> IsMinHash(h, data, lower, upper, minHash, nonce)
    ensures done ==> forall x: nat :: lower <= x < nonce ==> minHash < h(data, x)
  {
    minHash, nonce := MAX_UINT64, 0;
    var i: nat, passes := lower, 0;
    while i <= upper && passes < budget
      invariant 0 <= passes <= budget && i < TWO64
      invariant upper < MAX_UINT64 ==> i == lower + passes && (passes == 0 || i <= upper + 1)
      invariant minHash <= MAX_UINT64
      invariant upper < MAX_UINT64 ==> forall x: nat :: lower <= x < i ==> minHash <= h(data, x)
      invariant if minHash < MAX_UINT64 then nonce <= upper && h(data, nonce) == minHash else nonce == 0
      invariant upper < MAX_UINT64 && minHash < MAX_UINT64 ==> lower <= nonce < i
      invariant upper < MAX_UINT64 && minHash < MAX_UINT64 ==>
        forall x: nat :: lower <= x < nonce ==> minHash < h(data, x)
      decreases budget - passes
    {
      var hash := h(data, i);
      if hash < minHash {
        minHash, nonce := hash, i;
      }
      i, passes := (i + 1) % TWO64, passes + 1;
    }
    done := i > upper;
  }
}
