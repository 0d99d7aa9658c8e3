/** Merging selections of a text: the k-way merger of segment changes. */
module Segments {

  datatype Segment = Segment(start: int, end: int)

  const INFINITY: int := 2_000_000_000

  predicate IsEmpty(s: Segment) { s.start >= s.end }

  /** One selection inside the merger: its next segment, of which the start or both offsets
      may have been consumed (set to infinity), and the segments still to come. */
  datatype Cursor = Cursor(seg: Segment, rest: seq<Segment>)

  const NOTHING: Segment := Segment(INFINITY, INFINITY)

  function Opened(rest: seq<Segment>): Cursor {
    if rest == [] then Cursor(NOTHING, [])
    else Cursor(if IsEmpty(rest[0]) then NOTHING else rest[0], rest[1..])
  }

  /** Consuming the start or the end of the current segment. */
  function Advance(c: Cursor, start: bool): Cursor {
    if start then c.(seg := c.seg.(start := INFINITY)) else Opened(c.rest)
  }

  /** A segment not yet started, or one whose start or both ends are consumed. */
  predicate Pending(s: Segment) {
    s.end <= INFINITY && (s.start < s.end || s.start == INFINITY)
  }

  ghost predicate AllPending(cs: seq<Cursor>) {
    forall i :: 0 <= i < |cs| ==> Pending(cs[i].seg)
  }

  /** `(index, offs, start)` is the smallest offset at which a segment starts or ends, and
      the first selection that has it. */
  ghost predicate IsNext(cs: seq<Cursor>, index: int, offs: int, start: bool) {
    && (forall i :: 0 <= i < |cs| ==> offs <= cs[i].seg.start && offs <= cs[i].seg.end)
    && (if index < 0 then offs == INFINITY
        else
          && index < |cs| && offs < INFINITY
          && offs == (if start then cs[index].seg.start else cs[index].seg.end)
          && (!start ==> offs < cs[index].seg.start)
          && (forall i :: 0 <= i < index ==> offs < cs[i].seg.start && offs < cs[i].seg.end))
  }

  class Merger {
    const segments: array<Segment>
    var rest: seq<seq<Segment>>

    ghost predicate Valid()
      reads this
    {
      |rest| == segments.Length
    }

    ghost function Cursors(): seq<Cursor>
      requires Valid()
      reads this, segments
    {
      seq(|rest|, i requires 0 <= i < |rest| reads this, segments requires Valid() => Cursor(segments[i], rest[i]))
    }

    constructor (selections: seq<seq<Segment>>)
      ensures Valid() && fresh(segments)
      ensures |Cursors()| == |selections| && forall i :: 0 <= i < |selections| ==> Cursors()[i] == Opened(selections[i])
    {
      segments := new Segment[|selections|];
      rest := selections;
      new;
      var i := 0;
      while i < segments.Length
        invariant 0 <= i <= segments.Length == |rest| == |selections|
        invariant forall k :: 0 <= k < i ==> Cursor(segments[k], rest[k]) == Opened(selections[k])
        invariant forall k :: i <= k < |rest| ==> rest[k] == selections[k]
        modifies this`rest, segments
      {
        segments[i] := NOTHING;
        if rest[i] != [] {
          var seg := rest[i][0];
          rest := rest[i := rest[i][1..]];
          if !IsEmpty(seg) { segments[i] := seg; }
        }
        i := i + 1;
      }
    }

    method Next() returns (index: int, offs: int, start: bool)
      requires Valid() && AllPending(Cursors())
      modifies this`rest, segments
      ensures Valid() && |Cursors()| == |old(Cursors())|
      ensures IsNext(old(Cursors()), index, offs, start)
      ensures index < 0 ==> Cursors() == old(Cursors())
      ensures index >= 0 ==> Cursors() == old(Cursors())[index := Advance(old(Cursors())[index], start)]
    {
      offs, index, start := INFINITY, -1, false;
      ghost var cs := Cursors();
      assert forall k :: 0 <= k < segments.Length ==> Pending(segments[k]) by {
        forall k | 0 <= k < segments.Length ensures Pending(segments[k]) { assert cs[k].seg == segments[k]; }
      }
      var i := 0;
      while i < segments.Length
        invariant 0 <= i <= segments.Length
        invariant forall k :: 0 <= k < i ==> offs <= segments[k].start && offs <= segments[k].end
        invariant offs <= INFINITY && -1 <= index < i && (index < 0 ==> offs == INFINITY)
        invariant index >= 0 ==> offs < INFINITY && offs == if start then segments[index].start else segments[index].end
        invariant index >= 0 && !start ==> offs < segments[index].start
        invariant forall k :: 0 <= k < index ==> offs < segments[k].start && offs < segments[k].end
      {
        if segments[i].start < offs {
          offs, index, start := segments[i].start, i, true;
        } else if segments[i].end < offs {
          offs, index, start := segments[i].end, i, false;
        }
        i := i + 1;
      }
      if index < 0 { return; }
      segments[index] := segments[index].(start := INFINITY);
      if start { return; }
      segments[index] := segments[index].(end := INFINITY);
      if rest[index] != [] {
        var seg := rest[index][0];
        rest := rest[index := rest[index][1..]];
        if !IsEmpty(seg) { segments[index] := seg; }
      }
    }
  }

  // ---------- what the changes mean ----------

  /** Consecutive, non-overlapping, non-empty segments from offset `at` on. */
  predicate WellFormed(segs: seq<Segment>, at: int) {
    segs != [] ==> at <= segs[0].start < segs[0].end < 2_000_000_000 && WellFormed(segs[1..], segs[0].end)
  }

  /** The selection covers offset `x`. */
  predicate Selects(segs: seq<Segment>, x: int) {
    exists k :: 0 <= k < |segs| && segs[k].start <= x < segs[k].end
  }

  /** The merger is inside a segment of this selection. */
  predicate Inside(c: Cursor) { c.seg.start == INFINITY && c.seg.end < INFINITY }

  /** Coverage from the current offset on, as far as the cursor still knows it. */
  predicate Ahead(c: Cursor, x: int) {
    (if Inside(c) then x < c.seg.end else c.seg.start <= x < c.seg.end) || Selects(c.rest, x)
  }

  /** The cursor stands at offset `at`. */
  predicate At(c: Cursor, at: int) {
    if c.seg == NOTHING then c.rest == []
    else
      && at <= c.seg.end < INFINITY && WellFormed(c.rest, c.seg.end)
      && (c.seg.start == INFINITY || at <= c.seg.start < c.seg.end)
  }

  lemma SelectsHead(segs: seq<Segment>, x: int)
    requires segs != []
    ensures Selects(segs, x) <==> segs[0].start <= x < segs[0].end || Selects(segs[1..], x)
  {
    if Selects(segs[1..], x) {
      var k :| 0 <= k < |segs[1..]| && segs[1..][k].start <= x < segs[1..][k].end;
      assert segs[k + 1].start <= x;
    }
    if k :| 0 <= k < |segs| && segs[k].start <= x < segs[k].end {
      if k > 0 { assert segs[1..][k - 1] == segs[k]; }
    }
  }

  lemma {:induction false} SelectsFrom(segs: seq<Segment>, at: int, x: int)
    requires WellFormed(segs, at) && Selects(segs, x)
    ensures at <= x < INFINITY
  {
    SelectsHead(segs, x);
    if Selects(segs[1..], x) { SelectsFrom(segs[1..], segs[0].end, x); }
  }

  lemma OpenedAt(rest: seq<Segment>, at: int)
    requires WellFormed(rest, at)
    ensures At(Opened(rest), at)
    ensures forall x :: Ahead(Opened(rest), x) <==> Selects(rest, x)
    ensures !Inside(Opened(rest))
  {
    if rest != [] {
      forall x ensures Ahead(Opened(rest), x) <==> Selects(rest, x) { SelectsHead(rest, x); }
    } else {
      assert forall x :: !Selects([], x);
    }
  }

  /** Before the next change nothing changes: between here and there, a selection covers
      an offset exactly when the merger is inside one of its segments. */
  lemma Steady(c: Cursor, at: int, offs: int, x: int)
    requires At(c, at) && offs <= c.seg.start && offs <= c.seg.end && at <= x < offs
    ensures Ahead(c, x) <==> Inside(c)
  {
    if Selects(c.rest, x) { SelectsFrom(c.rest, c.seg.end, x); }
  }

  /** Past the change, nothing ahead is lost or gained, and being inside flips. */
  lemma Advances(c: Cursor, at: int, offs: int, start: bool, x: int)
    requires At(c, at) && at <= offs < INFINITY && offs <= x
    requires offs == if start then c.seg.start else c.seg.end
    requires !start ==> offs < c.seg.start
    ensures Ahead(Advance(c, start), x) <==> Ahead(c, x)
    ensures At(Advance(c, start), offs)
    ensures Inside(Advance(c, start)) <==> start
    ensures !start ==> Inside(c)
  {
    if !start { OpenedAt(c.rest, c.seg.end); }
  }

  /** A change not yet reached leaves the other cursors where they are. */
  lemma Waits(c: Cursor, at: int, offs: int)
    requires At(c, at) && at <= offs && offs <= c.seg.start && offs <= c.seg.end
    ensures At(c, offs)
  {
  }

  /** The number of changes a cursor has still to report. */
  function Changes(c: Cursor): nat {
    (if c.seg.start < INFINITY then 1 else 0) + (if c.seg.end < INFINITY then 1 else 0) + 2 * |c.rest|
  }

  function TotalChanges(cs: seq<Cursor>): nat {
    if cs == [] then 0 else Changes(cs[0]) + TotalChanges(cs[1..])
  }

  lemma {:induction false} TotalUpdate(cs: seq<Cursor>, i: nat, c: Cursor)
    requires i < |cs|
    ensures TotalChanges(cs[i := c]) == TotalChanges(cs) - Changes(cs[i]) + Changes(c)
  {
    if i > 0 {
      TotalUpdate(cs[1..], i - 1, c);
      assert cs[i := c][1..] == cs[1..][i - 1 := c];
    } else {
      assert cs[0 := c][1..] == cs[1..];
    }
  }
}
