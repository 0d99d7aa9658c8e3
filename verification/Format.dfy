/** Formatting a text by selections: what reaches the segment writer and the link writer. */
module Format {
  import opened Basics
  import opened Segments

  /** The width of the bit set that a segment writer gets. */
  const WORD: nat := 64

  datatype Event = Chunk(text: seq<byte>, bits: set<nat>) | Link(offs: int, start: bool)

  /** Every byte of the chunks, with the bits it is written under. */
  function Painted(out: seq<Event>): seq<(byte, set<nat>)> {
    if out == [] then []
    else
      var k := |out| - 1;
      Painted(out[..k]) + Paint(out[k])
  }

  function Paint(e: Event): seq<(byte, set<nat>)> {
    match e
    case Chunk(t, bits) => seq(|t|, i requires 0 <= i < |t| => (t[i], bits))
    case Link(_, _) => []
  }

  /** The selections, by number, that cover offset `x`; numbers past the word are lost. */
  function Bits(selections: seq<seq<Segment>>, x: int): set<nat> {
    set i: nat | i < |selections| && i < WORD && Selects(selections[i], x)
  }

  /** With up to 64 selections no bit is lost. */
  lemma BitsComplete(selections: seq<seq<Segment>>, x: int, i: nat)
    requires i < |selections| <= 64
    ensures i in Bits(selections, x) <==> Selects(selections[i], x)
  {
  }

  /** The text as it should be written: each byte under the selections that cover it. */
  function Ideal(text: seq<byte>, selections: seq<seq<Segment>>): seq<(byte, set<nat>)> {
    seq(|text|, x requires 0 <= x < |text| => (text[x], Bits(selections, x)))
  }

  /** Every link tag stands exactly at its offset. */
  ghost predicate LinksInPlace(out: seq<Event>) {
    forall i :: 0 <= i < |out| && out[i].Link? ==> |Painted(out[..i])| == out[i].offs
  }

  function Links(out: seq<Event>): seq<(int, bool)> {
    if out == [] then []
    else
      var k := |out| - 1;
      Links(out[..k]) + if out[k].Link? then [(out[k].offs, out[k].start)] else []
  }

  /** The start and end tags of a selection, in order. */
  function Tags(segs: seq<Segment>): seq<(int, bool)> {
    if segs == [] then [] else [(segs[0].start, true), (segs[0].end, false)] + Tags(segs[1..])
  }

  /** The tags a cursor has still to report. */
  function TagsAhead(c: Cursor): seq<(int, bool)> {
    (if c.seg.start < INFINITY then [(c.seg.start, true)] else [])
    + (if c.seg.end < INFINITY then [(c.seg.end, false)] else [])
    + Tags(c.rest)
  }

  // ---------- writing one more event ----------

  lemma PaintedAppend(out: seq<Event>, e: Event)
    ensures Painted(out + [e]) == Painted(out) + Paint(e)
    ensures Links(out + [e]) == Links(out) + if e.Link? then [(e.offs, e.start)] else []
    ensures LinksInPlace(out) && (e.Link? ==> |Painted(out)| == e.offs) ==> LinksInPlace(out + [e])
  {
    var out' := out + [e];
    assert out'[..|out|] == out;
    if LinksInPlace(out) && (e.Link? ==> |Painted(out)| == e.offs) {
      forall i | 0 <= i < |out'| && out'[i].Link? ensures |Painted(out'[..i])| == out'[i].offs {
        assert i < |out| ==> out'[..i] == out[..i];
      }
    }
  }

  /** The delayed segment: bytes `[begin, end)` of the text, not yet written. */
  datatype Last = Last(begin: int, end: int, bits: set<nat>)

  function Flush(text: seq<byte>, out: seq<Event>, last: Last): seq<Event>
    requires 0 <= last.begin <= last.end <= |text|
  {
    if last.begin < last.end then out + [Chunk(text[last.begin..last.end], last.bits)] else out
  }

  /** `out` followed by the delayed segment paints the text up to `last.end` as it should be. */
  ghost predicate Sound(text: seq<byte>, selections: seq<seq<Segment>>, out: seq<Event>, last: Last) {
    && 0 <= last.begin <= last.end <= |text|
    && Painted(out) == Ideal(text, selections)[..last.begin]
    && (forall x :: last.begin <= x < last.end ==> last.bits == Bits(selections, x))
    && LinksInPlace(out)
  }

  lemma FlushSound(text: seq<byte>, selections: seq<seq<Segment>>, out: seq<Event>, last: Last)
    requires Sound(text, selections, out, last)
    ensures Sound(text, selections, Flush(text, out, last), Last(last.end, last.end, last.bits))
    ensures Links(Flush(text, out, last)) == Links(out)
  {
    var ideal := Ideal(text, selections);
    if last.begin < last.end {
      var e := Chunk(text[last.begin..last.end], last.bits);
      PaintedAppend(out, e);
      PaintsIdeal(text, selections, last);
      Slices(ideal, last.begin, last.end);
    }
  }

  lemma PaintsIdeal(text: seq<byte>, selections: seq<seq<Segment>>, last: Last)
    requires 0 <= last.begin <= last.end <= |text|
    requires forall x :: last.begin <= x < last.end ==> last.bits == Bits(selections, x)
    ensures Paint(Chunk(text[last.begin..last.end], last.bits)) == Ideal(text, selections)[last.begin..last.end]
  {
  }

  lemma Slices<T>(s: seq<T>, i: nat, j: nat)
    requires i <= j <= |s|
    ensures s[..i] + s[i..j] == s[..j]
  {
  }

  /** Extending or replacing the delayed segment by `[last.end, end)` under `bits`. */
  lemma SegmentSound(text: seq<byte>, selections: seq<seq<Segment>>, out: seq<Event>, last: Last, end: int,
        bits: set<nat>)
    requires Sound(text, selections, out, last) && last.end < end <= |text|
    requires forall x :: last.end <= x < end ==> bits == Bits(selections, x)
    ensures last.bits == bits ==> Sound(text, selections, out, Last(last.begin, end, bits))
    ensures Sound(text, selections, Flush(text, out, last), Last(last.end, end, bits))
    ensures Links(Flush(text, out, last)) == Links(out)
  {
    FlushSound(text, selections, out, last);
  }

  // ---------- no two chunks that could have been one ----------

  /** No chunk is empty, and neighbouring chunks differ in their bits. */
  ghost predicate Merged(out: seq<Event>) {
    && (forall i :: 0 <= i < |out| && out[i].Chunk? ==> out[i].text != [])
    && (forall i :: 0 <= i < |out| - 1 && out[i].Chunk? && out[i + 1].Chunk? ==> out[i].bits != out[i + 1].bits)
  }

  /** What is delayed cannot be joined to the last chunk written. */
  ghost predicate Apart(out: seq<Event>, last: Last) {
    out != [] && out[|out| - 1].Chunk? ==> last.begin < last.end && out[|out| - 1].bits != last.bits
  }

  lemma FlushMerged(text: seq<byte>, out: seq<Event>, last: Last)
    requires 0 <= last.begin <= last.end <= |text| && Merged(out) && Apart(out, last)
    ensures Merged(Flush(text, out, last))
    ensures forall bits, end :: bits != last.bits && last.end < end ==>
      Apart(Flush(text, out, last), Last(last.end, end, bits))
  {
  }

  // ---------- the tags of the link selection ----------

  lemma TagsOpened(segs: seq<Segment>, at: int)
    requires WellFormed(segs, at)
    ensures TagsAhead(Opened(segs)) == Tags(segs)
  {
  }

  /** Reporting a change takes the first tag off. */
  lemma TagsAdvance(c: Cursor, at: int, offs: int, start: bool)
    requires At(c, at) && offs < INFINITY
    requires offs == if start then c.seg.start else c.seg.end
    requires !start ==> offs < c.seg.start
    ensures TagsAhead(c) == [(offs, start)] + TagsAhead(Advance(c, start))
  {
    if !start { TagsOpened(c.rest, c.seg.end); }
  }

  lemma {:induction false} TagsFrom(segs: seq<Segment>, at: int, i: int)
    requires WellFormed(segs, at) && 0 <= i < |Tags(segs)|
    ensures at <= Tags(segs)[i].0
  {
    if i >= 2 { TagsFrom(segs[1..], segs[0].end, i - 2); }
  }

  lemma TagsBeyond(c: Cursor, at: int, offs: int, i: int)
    requires At(c, at) && offs <= c.seg.start && offs <= c.seg.end && 0 <= i < |TagsAhead(c)|
    ensures offs <= TagsAhead(c)[i].0
  {
    var n := |TagsAhead(c)| - |Tags(c.rest)|;
    if i >= n { TagsFrom(c.rest, c.seg.end, i - n); }
  }

  // ---------- the formatter ----------

  /** The segment closure: `[lastOffs, end)` under `bitset` goes through the peephole. */
  method PutSegment(text: seq<byte>, out: seq<Event>, last: Last, lastOffs: int, bitset: set<nat>, end: int,
                    ghost selections: seq<seq<Segment>>)
    returns (out': seq<Event>, last': Last)
    requires Sound(text, selections, out, last) && last.end == lastOffs <= end <= |text|
    requires Merged(out) && Apart(out, last)
    requires forall x :: lastOffs <= x < end ==> bitset == Bits(selections, x)
    ensures Sound(text, selections, out', last') && last'.end == end && Links(out') == Links(out)
    ensures Merged(out') && Apart(out', last')
  {
    out', last' := out, last;
    if lastOffs < end {
      SegmentSound(text, selections, out, last, end, bitset);
      if last.end != lastOffs || last.bits != bitset {
        FlushMerged(text, out, last);
        out' := Flush(text, out, last);
        last' := last.(begin := lastOffs);
      }
      last' := Last(last'.begin, end, bitset);
    }
  }

  /** Where the merger stands relative to the selections it was given. */
  ghost predicate Synced(all: seq<seq<Segment>>, cs: seq<Cursor>, at: int) {
    && |cs| == |all|
    && (forall i :: 0 <= i < |cs| ==> At(cs[i], at))
    && (forall i, x :: 0 <= i < |cs| && at <= x ==> (Ahead(cs[i], x) <==> Selects(all[i], x)))
  }

  ghost predicate BitsNow(cs: seq<Cursor>, n: nat, bitset: set<nat>) {
    forall i: nat :: i in bitset <==> i < n && i < WORD && i < |cs| && Inside(cs[i])
  }

  lemma BitsUntilNext(all: seq<seq<Segment>>, cs: seq<Cursor>, n: nat, at: int, offs: int, bitset: set<nat>, x: int)
    requires Synced(all, cs, at) && BitsNow(cs, n, bitset) && n <= |all|
    requires forall i :: 0 <= i < |cs| ==> offs <= cs[i].seg.start && offs <= cs[i].seg.end
    requires at <= x < offs
    ensures bitset == Bits(all[..n], x)
  {
    forall i: nat | i < n ensures Inside(cs[i]) <==> Selects(all[..n][i], x) {
      Steady(cs[i], at, offs, x);
    }
  }

  lemma SyncedNext(all: seq<seq<Segment>>, cs: seq<Cursor>, at: int, index: int, offs: int, start: bool)
    requires Synced(all, cs, at) && IsNext(cs, index, offs, start) && index >= 0 && at <= offs
    ensures Synced(all, cs[index := Advance(cs[index], start)], offs)
    ensures forall i :: 0 <= i < |cs| && i != index ==>
      (Inside(cs[index := Advance(cs[index], start)][i]) <==> Inside(cs[i]))
    ensures Inside(Advance(cs[index], start)) <==> start
    ensures TotalChanges(cs[index := Advance(cs[index], start)]) < TotalChanges(cs)
  {
    var cs' := cs[index := Advance(cs[index], start)];
    forall i | 0 <= i < |cs| ensures At(cs'[i], offs) {
      if i == index { Advances(cs[i], at, offs, start, offs); } else { Waits(cs[i], at, offs); }
    }
    forall i, x | 0 <= i < |cs| && offs <= x ensures Ahead(cs'[i], x) <==> Selects(all[i], x) {
      if i == index { Advances(cs[i], at, offs, start, x); }
    }
    Advances(cs[index], at, offs, start, offs);
    TotalUpdate(cs, index, Advance(cs[index], start));
  }

  lemma NextIsAhead(cs: seq<Cursor>, at: int, index: int, offs: int, start: bool)
    requires IsNext(cs, index, offs, start) && index >= 0 && forall i :: 0 <= i < |cs| ==> At(cs[i], at)
    ensures at <= offs
  {
    assert At(cs[index], at);
  }

  lemma StartSynced(all: seq<seq<Segment>>, cs: seq<Cursor>)
    requires |cs| == |all| && forall i :: 0 <= i < |all| ==> WellFormed(all[i], 0) && cs[i] == Opened(all[i])
    ensures Synced(all, cs, 0) && forall n: nat :: BitsNow(cs, n, {})
  {
    forall i | 0 <= i < |all|
      ensures At(cs[i], 0) && !Inside(cs[i]) && forall x :: Ahead(cs[i], x) <==> Selects(all[i], x)
    {
      OpenedAt(all[i], 0);
    }
  }

  /** The tags written so far and those to come are all the tags of the link selection. */
  ghost predicate LinksSoFar(links: seq<Segment>, out: seq<Event>, c: Cursor, length: int) {
    && Links(out) + TagsAhead(c) == Tags(links)
    && (forall i :: 0 <= i < |Links(out)| ==> Links(out)[i].0 <= length)
  }

  lemma LinksComplete(links: seq<Segment>, out: seq<Event>, c: Cursor, at: int, offs: int, length: int)
    requires LinksSoFar(links, out, c, length) && At(c, at) && offs <= c.seg.start && offs <= c.seg.end && length < offs
    ensures Links(out) <= Tags(links)
    ensures forall i :: 0 <= i < |Tags(links)| ==> (i < |Links(out)| <==> Tags(links)[i].0 <= length)
  {
    forall i | 0 <= i < |Tags(links)| ensures i < |Links(out)| <==> Tags(links)[i].0 <= length {
      if i >= |Links(out)| {
        TagsBeyond(c, at, offs, i - |Links(out)|);
        assert Tags(links)[i] == TagsAhead(c)[i - |Links(out)|];
      } else {
        assert Tags(links)[i] == Links(out)[i];
      }
    }
  }

  /** The variables of the formatting loop: what is written, what is delayed, the offset
      reached and the selections that cover the text there. */
  datatype Progress = Progress(out: seq<Event>, last: Last, lastOffs: int, bitset: set<nat>)

  /** The arguments: whether there is a link writer, the link selection and the others. */
  datatype Job = Job(text: seq<byte>, lw: bool, links: seq<Segment>, selections: seq<seq<Segment>>)
  {
    function All(): seq<seq<Segment>> { if lw then selections + [links] else selections }
  }

  ghost predicate LoopOk(j: Job, cs: seq<Cursor>, f: Progress) {
    && 0 <= f.lastOffs == f.last.end <= |j.text|
    && Synced(j.All(), cs, f.lastOffs) && BitsNow(cs, |j.selections|, f.bitset)
    && Sound(j.text, j.selections, f.out, f.last) && Merged(f.out) && Apart(f.out, f.last)
    && (if j.lw then LinksSoFar(j.links, f.out, cs[|j.selections|], |j.text|) else Links(f.out) == [])
  }

  lemma SteadyUntil(j: Job, cs: seq<Cursor>, f: Progress, offs: int)
    requires LoopOk(j, cs, f) && forall i :: 0 <= i < |cs| ==> offs <= cs[i].seg.start && offs <= cs[i].seg.end
    ensures forall x :: f.lastOffs <= x < offs ==> f.bitset == Bits(j.selections, x)
  {
    assert j.All()[..|j.selections|] == j.selections;
    forall x | f.lastOffs <= x < offs ensures f.bitset == Bits(j.selections, x) {
      BitsUntilNext(j.All(), cs, |j.selections|, f.lastOffs, offs, f.bitset, x);
    }
  }

  lemma LinksNext(links: seq<Segment>, out: seq<Event>, out': seq<Event>, c: Cursor, offs: int, start: bool,
        length: int)
    requires LinksSoFar(links, out, c, length) && offs <= length
    requires Links(out') == Links(out) + [(offs, start)]
    requires TagsAhead(c) == [(offs, start)] + TagsAhead(Advance(c, start))
    ensures LinksSoFar(links, out', Advance(c, start), length)
  {
    Assoc(Links(out), [(offs, start)], TagsAhead(Advance(c, start)));
  }

  /** The bit set after a change of selection `index`; the link selection has no bit. */
  lemma BitsNext(cs: seq<Cursor>, n: nat, bitset: set<nat>, index: nat, start: bool)
    requires BitsNow(cs, n, bitset) && index < |cs| && (Inside(Advance(cs[index], start)) <==> start)
    ensures var mask := if index < n && index < WORD then {index} else {};
      BitsNow(cs[index := Advance(cs[index], start)], n, if start then bitset + mask else bitset - mask)
  {
  }

  /** Writes what is delayed, and then a link tag at its end. */
  method PutTag(text: seq<byte>, out: seq<Event>, last: Last, start: bool, ghost selections: seq<seq<Segment>>)
    returns (out': seq<Event>, last': Last)
    requires Sound(text, selections, out, last) && Merged(out) && Apart(out, last)
    ensures Sound(text, selections, out', last') && last'.end == last.end
    ensures Links(out') == Links(out) + [(last.end, start)]
    ensures Merged(out') && Apart(out', last')
  {
    FlushSound(text, selections, out, last);
    FlushMerged(text, out, last);
    var flushed := Flush(text, out, last);
    out', last' := flushed + [Link(last.end, start)], Last(last.end, last.end, last.bits);
    TagSound(text, selections, flushed, last', start);
    TagMerged(flushed, last.end, start);
  }

  lemma TagSound(text: seq<byte>, selections: seq<seq<Segment>>, out: seq<Event>, last: Last, start: bool)
    requires Sound(text, selections, out, last) && last.begin == last.end
    ensures Sound(text, selections, out + [Link(last.end, start)], last)
    ensures Links(out + [Link(last.end, start)]) == Links(out) + [(last.end, start)]
  {
    assert |Painted(out)| == last.end;
    PaintedAppend(out, Link(last.end, start));
  }

  lemma TagMerged(out: seq<Event>, offs: int, start: bool)
    requires Merged(out)
    ensures Merged(out + [Link(offs, start)])
  {
  }

  /** A change of the link selection: everything before it is written, then the tag. */
  method OnLink(j: Job, f: Progress, offs: int, start: bool, ghost cs: seq<Cursor>) returns (f': Progress)
    requires LoopOk(j, cs, f) && j.lw && IsNext(cs, |j.selections|, offs, start) && f.lastOffs <= offs <= |j.text|
    ensures var n := |j.selections|; LoopOk(j, cs[n := Advance(cs[n], start)], f')
  {
    ghost var n := |j.selections|;
    SteadyUntil(j, cs, f, offs);
    SyncedNext(j.All(), cs, f.lastOffs, n, offs, start);
    TagsAdvance(cs[n], f.lastOffs, offs, start);
    var out, last := PutSegment(j.text, f.out, f.last, f.lastOffs, f.bitset, offs, j.selections);
    out, last := PutTag(j.text, out, last, start, j.selections);
    f' := Progress(out, last, offs, f.bitset);
    LinksNext(j.links, f.out, out, cs[n], offs, start, |j.text|);
    BitsNext(cs, n, f.bitset, n, start);
  }

  /** A change of another selection: its bit is set or cleared. */
  method OnSelection(j: Job, f: Progress, index: nat, offs: int, start: bool, ghost cs: seq<Cursor>)
    returns (f': Progress)
    requires LoopOk(j, cs, f) && index < |j.selections| && IsNext(cs, index, offs, start)
    requires f.lastOffs <= offs <= |j.text|
    ensures LoopOk(j, cs[index := Advance(cs[index], start)], f')
  {
    SteadyUntil(j, cs, f, offs);
    SyncedNext(j.All(), cs, f.lastOffs, index, offs, start);
    var out, last := PutSegment(j.text, f.out, f.last, f.lastOffs, f.bitset, offs, j.selections);
    var mask := if index < WORD then {index} else {};
    f' := Progress(out, last, offs, if start then f.bitset + mask else f.bitset - mask);
    BitsNext(cs, |j.selections|, f.bitset, index, start);
  }

  lemma LoopStarts(j: Job, cs: seq<Cursor>)
    requires |cs| == |j.All()| && forall i :: 0 <= i < |cs| ==> WellFormed(j.All()[i], 0) && cs[i] == Opened(j.All()[i])
    ensures LoopOk(j, cs, Progress([], Last(0, 0, {}), 0, {}))
  {
    StartSynced(j.All(), cs);
    if j.lw {
      assert j.All()[|j.selections|] == j.links;
      TagsOpened(j.links, 0);
    }
  }

  lemma LoopPending(j: Job, cs: seq<Cursor>, f: Progress)
    requires LoopOk(j, cs, f)
    ensures AllPending(cs)
  {
    forall i | 0 <= i < |cs| ensures Pending(cs[i].seg) { assert At(cs[i], f.lastOffs); }
  }

  /** One pass of the loop: a change at an offset of the text. */
  method OnChange(j: Job, f: Progress, index: nat, offs: int, start: bool, ghost cs: seq<Cursor>) returns (f': Progress)
    requires LoopOk(j, cs, f) && IsNext(cs, index, offs, start) && offs <= |j.text|
    ensures LoopOk(j, cs[index := Advance(cs[index], start)], f')
    ensures TotalChanges(cs[index := Advance(cs[index], start)]) < TotalChanges(cs)
  {
    NextIsAhead(cs, f.lastOffs, index, offs, start);
    SyncedNext(j.All(), cs, f.lastOffs, index, offs, start);
    if j.lw && index == |j.All()| - 1 {
      f' := OnLink(j, f, offs, start, cs);
    } else {
      f' := OnSelection(j, f, index, offs, start, cs);
    }
  }

  /** The link tags written are exactly those at offsets of the text. */
  ghost predicate LinksWritten(j: Job, out: seq<Event>) {
    if !j.lw then Links(out) == []
    else
      && Links(out) <= Tags(j.links)
      && (forall i :: 0 <= i < |Tags(j.links)| ==> (i < |Links(out)| <==> Tags(j.links)[i].0 <= |j.text|))
  }

  /** No change is left at an offset of the text. */
  lemma BeyondText(cs: seq<Cursor>, index: int, offs: int, start: bool, length: nat)
    requires IsNext(cs, index, offs, start) && length < INFINITY && (index < 0 || offs > length)
    ensures length < offs && forall i :: 0 <= i < |cs| ==> offs <= cs[i].seg.start && offs <= cs[i].seg.end
  {
  }

  /** Writing what is delayed up to the end completes the text. */
  lemma Completes(text: seq<byte>, selections: seq<seq<Segment>>, out: seq<Event>, last: Last)
    requires Sound(text, selections, out, last) && last.end == |text| && Merged(out) && Apart(out, last)
    ensures var done := Flush(text, out, last);
      && Painted(done) == Ideal(text, selections) && Merged(done) && LinksInPlace(done) && Links(done) == Links(out)
  {
    FlushSound(text, selections, out, last);
    FlushMerged(text, out, last);
    assert Ideal(text, selections)[..|text|] == Ideal(text, selections);
  }

  /** The end of the text: what is delayed is extended to it and written. */
  method Close(j: Job, f: Progress, ghost cs: seq<Cursor>, ghost index: int, ghost offs: int, ghost start: bool)
    returns (out: seq<Event>)
    requires LoopOk(j, cs, f) && |j.text| < INFINITY && IsNext(cs, index, offs, start)
    requires index < 0 || offs > |j.text|
    ensures Painted(out) == Ideal(j.text, j.selections)
    ensures Merged(out) && LinksInPlace(out) && LinksWritten(j, out)
  {
    BeyondText(cs, index, offs, start, |j.text|);
    SteadyUntil(j, cs, f, offs);
    LinksAtClose(j, f, cs, offs);
    var last;
    out, last := PutSegment(j.text, f.out, f.last, f.lastOffs, f.bitset, |j.text|, j.selections);
    Completes(j.text, j.selections, out, last);
    out := Flush(j.text, out, last);
    SameLinks(j, f.out, out);
  }

  lemma LinksAtClose(j: Job, f: Progress, cs: seq<Cursor>, offs: int)
    requires LoopOk(j, cs, f) && |j.text| < offs
    requires forall i :: 0 <= i < |cs| ==> offs <= cs[i].seg.start && offs <= cs[i].seg.end
    ensures LinksWritten(j, f.out)
  {
    if j.lw { LinksComplete(j.links, f.out, cs[|j.selections|], f.lastOffs, offs, |j.text|); }
  }

  lemma SameLinks(j: Job, out: seq<Event>, out': seq<Event>)
    requires LinksWritten(j, out) && Links(out') == Links(out)
    ensures LinksWritten(j, out')
  {
  }

  /** Formats a text. Whatever the selections, the link writer and the order of equal
      offsets, the chunks are the text, every byte carries exactly the bits of the
      selections that cover it, chunks are as long as they can be, and every link tag up to
      the end of the text is written once, in order and in place. */
  method FormatSelections(j: Job) returns (out: seq<Event>)
    requires |j.text| < 2_000_000_000
    requires forall i :: 0 <= i < |j.All()| ==> WellFormed(j.All()[i], 0)
    ensures Painted(out) == Ideal(j.text, j.selections)
    ensures Merged(out) && LinksInPlace(out) && LinksWritten(j, out)
  {
    var changes := new Merger(j.All());
    LoopStarts(j, changes.Cursors());
    var f := Progress([], Last(0, 0, {}), 0, {});
    while true
      invariant fresh(changes) && fresh(changes.segments) && changes.Valid()
      invariant LoopOk(j, changes.Cursors(), f)
      decreases TotalChanges(changes.Cursors())
    {
      ghost var cs := changes.Cursors();
      LoopPending(j, cs, f);
      var index, offs, start := changes.Next();
      if index < 0 || offs > |j.text| {
        out := Close(j, f, cs, index, offs, start);
        return;
      }
      f := OnChange(j, f, index, offs, start, cs);
    }
  }
}
