/** Reading the log back (readChanges, src/exports/log.ts): segment objects stitched to the pending
    tail, in states that other calls and processes may change between the queries. */
module ExportReads {
  import opened Basics
  import opened ExportRecords
  import opened ExportSystem

  const LIMIT_MAX: nat := 1000
  const LIMIT_DEFAULT: nat := 500

  /** No usable number counts as the default; anything else is floored, and clamped to 1..1000. */
  function ClampLimit(value: Option<real>): (n: nat)
    ensures 1 <= n <= LIMIT_MAX
    ensures value.None? ==> n == 500
    ensures value.Some? && value.value < 2.0 ==> n == 1
    ensures value.Some? && value.value >= 1000.0 ==> n == 1000
    ensures value.Some? && 1.0 <= value.value < 1001.0 ==> n as real <= value.value < n as real + 1.0
  {
    if value.None? then LIMIT_DEFAULT
    else
      var f := value.value.Floor;
      if f < 1 then 1 else if f > LIMIT_MAX then LIMIT_MAX else f
  }

  datatype Page = Page(records: seq<Record>, nextCursor: nat, hasMore: bool)

  // ----- the queries -----

  /** Segments with end_seq >= cursor, by start_seq. */
  function SegmentsFrom(segments: seq<Segment>, cursor: nat): seq<Segment> {
    if segments == [] then []
    else
      var last := segments[|segments| - 1];
      SegmentsFrom(segments[..|segments| - 1], cursor) + if last.endSeq >= cursor then [last] else []
  }

  /** The object's lines; a registered object is always there. */
  function Body(objects: Objects, key: ObjectKey): seq<Record> {
    if key in objects then objects[key] else []
  }

  function Lines(segments: seq<Segment>, objects: Objects): seq<Record> {
    if segments == [] then []
    else Lines(segments[..|segments| - 1], objects) + Body(objects, segments[|segments| - 1].key)
  }

  /** The records with seq >= cursor, in order. */
  function FromSeq(lines: seq<Record>, cursor: nat): (r: seq<Record>)
    ensures |r| <= |lines|
  {
    if lines == [] then []
    else
      var last := lines[|lines| - 1];
      FromSeq(lines[..|lines| - 1], cursor) + if last.seqNo >= cursor then [last] else []
  }

  function Take<T>(s: seq<T>, n: nat): seq<T> { if n <= |s| then s[..n] else s }

  function NextCursor(records: seq<Record>, cursor: nat): nat {
    if records == [] then cursor else records[|records| - 1].seqNo + 1
  }

  /** `segments` as the first query saw them, `pending` and `head` as the later ones did. */
  function StitchedPage(segments: seq<Segment>, objects: Objects, pending: seq<Record>, head: nat,
                        cursor: nat, limit: nat): Page {
    var front := Take(FromSeq(Lines(SegmentsFrom(segments, cursor), objects), cursor), limit);
    var tail := if |front| < limit then Take(FromSeq(pending, NextCursor(front, cursor)), limit - |front|) else [];
    var next := NextCursor(front + tail, cursor);
    Page(front + tail, next, next < head)
  }

  function ReadChanges(log: SourceLog, objects: Objects, cursor: nat, limit: nat): Page {
    StitchedPage(log.segments, objects, log.pending, log.nextSeq, cursor, limit)
  }

  /** A read during which `mid` happens between the segment query and the pending query, and
      `late` between the pending query and the head query. */
  function ReadAcross(s: System, mid: seq<Action>, late: seq<Action>, cursor: nat, limit: nat): Page {
    var s1 := Exec(s, mid);
    StitchedPage(s.log.segments, s1.objects, s1.log.pending, Exec(s1, late).log.nextSeq, cursor, limit)
  }

  // ----- what each query yields, in terms of the history -----

  lemma SliceSplit<T>(h: seq<T>, a: nat, b: nat, c: nat)
    requires a <= b <= c <= |h|
    ensures h[a..b] + h[b..c] == h[a..c]
  {
  }

  lemma WholeSplit<T>(h: seq<T>, f: nat)
    requires f <= |h|
    ensures h[..f] + h[f..] == h
  {
  }

  lemma SliceLast<T>(h: seq<T>, a: nat, b: nat)
    requires a < b <= |h|
    ensures h[a..b] == h[a..b - 1] + [h[b - 1]]
  {
  }

  lemma SliceOfSlice<T>(h: seq<T>, a: nat, b: nat, i: nat, j: nat)
    requires a <= b <= |h| && i <= j <= b - a
    ensures h[a..b][i..j] == h[a + i..a + j]
  {
    var g := h[a..b];
    assert forall k | 0 <= k < b - a :: g[k] == h[a + k];
    assert forall k | 0 <= k < j - i :: g[i..j][k] == g[i + k];
  }

  lemma {:induction false} FromSeqConcat(a: seq<Record>, b: seq<Record>, cursor: nat)
    ensures FromSeq(a + b, cursor) == FromSeq(a, cursor) + FromSeq(b, cursor)
    decreases |b|
  {
    if b == [] {
      assert a + b == a;
    } else {
      FromSeqConcat(a, b[..|b| - 1], cursor);
      assert (a + b)[..|a + b| - 1] == a + b[..|b| - 1];
    }
  }

  /** `cursor` moved into the range [a, b]. */
  function Clamp(cursor: nat, a: nat, b: nat): (c: nat)
    requires a <= b
    ensures a <= c <= b
  {
    if cursor < a then a else if cursor > b then b else cursor
  }

  lemma FromSeqStep(lines: seq<Record>, x: Record, cursor: nat)
    ensures FromSeq(lines + [x], cursor) == FromSeq(lines, cursor) + if x.seqNo >= cursor then [x] else []
  {
    assert (lines + [x])[..|lines + [x]| - 1] == lines;
  }

  lemma {:induction false} FromSeqSlice(h: seq<Record>, a: nat, b: nat, cursor: nat)
    requires Numbering(h) && a <= b <= |h|
    ensures FromSeq(h[a..b], cursor) == h[Clamp(cursor, a, b)..b]
    decreases b
  {
    if a < b {
      FromSeqSlice(h, a, b - 1, cursor);
      FromSeqLast(h, a, b, cursor);
    } else {
      assert h[a..b] == [] && h[Clamp(cursor, a, b)..b] == [];
    }
  }

  lemma FromSeqLast(h: seq<Record>, a: nat, b: nat, cursor: nat)
    requires a < b <= |h| && h[b - 1].seqNo == b - 1
    requires FromSeq(h[a..b - 1], cursor) == h[Clamp(cursor, a, b - 1)..b - 1]
    ensures FromSeq(h[a..b], cursor) == h[Clamp(cursor, a, b)..b]
  {
    SliceLast(h, a, b);
    FromSeqStep(h[a..b - 1], h[b - 1], cursor);
    if cursor < b { SliceLast(h, Clamp(cursor, a, b), b); }
  }

  lemma TilesFront(segments: seq<Segment>, objects: Objects, h: seq<Record>)
    requires Tiles(segments, objects, h) && segments != []
    ensures Tiles(segments[..|segments| - 1], objects, h)
    ensures Flushed(segments[..|segments| - 1]) == segments[|segments| - 1].startSeq
    ensures SegmentHolds(segments[|segments| - 1], objects, h)
  {
    var p := segments[..|segments| - 1];
    assert SegmentHolds(segments[|segments| - 1], objects, h);
    forall i | 0 <= i < |p| ensures SegmentHolds(p[i], objects, h) { assert p[i] == segments[i]; }
  }

  lemma LinesStep(segments: seq<Segment>, s: Segment, objects: Objects)
    ensures Lines(segments + [s], objects) == Lines(segments, objects) + Body(objects, s.key)
  {
    var q := segments + [s];
    assert q[..|q| - 1] == segments;
  }

  /** Segments that tile a history give back exactly its flushed part from the cursor on. */
  lemma {:induction false} SegmentLines(segments: seq<Segment>, objects: Objects, h: seq<Record>, cursor: nat)
    requires Tiles(segments, objects, h) && Numbering(h)
    ensures Flushed(segments) <= |h|
    ensures FromSeq(Lines(SegmentsFrom(segments, cursor), objects), cursor)
              == h[Clamp(cursor, 0, Flushed(segments))..Flushed(segments)]
    decreases |segments|
  {
    if segments != [] {
      var p, last := segments[..|segments| - 1], segments[|segments| - 1];
      LastTile(segments, objects, h);
      SegmentLines(p, objects, h, cursor);
      LastSegmentLines(SegmentsFrom(p, cursor), last, objects, h, cursor);
    }
  }

  lemma LastTile(segments: seq<Segment>, objects: Objects, h: seq<Record>)
    requires Tiles(segments, objects, h) && segments != []
    ensures var p, last := segments[..|segments| - 1], segments[|segments| - 1];
      && Tiles(p, objects, h) && SegmentHolds(last, objects, h)
      && last.startSeq == Flushed(p) && Flushed(segments) == last.endSeq + 1
  {
    TilesFront(segments, objects, h);
    assert SegmentHolds(segments[|segments| - 1], objects, h);
  }

  lemma LastSegmentLines(front: seq<Segment>, s: Segment, objects: Objects, h: seq<Record>, cursor: nat)
    requires SegmentHolds(s, objects, h) && Numbering(h)
    requires FromSeq(Lines(front, objects), cursor) == h[Clamp(cursor, 0, s.startSeq)..s.startSeq]
    ensures FromSeq(Lines(front + if s.endSeq >= cursor then [s] else [], objects), cursor)
              == h[Clamp(cursor, 0, s.endSeq + 1)..s.endSeq + 1]
  {
    if s.endSeq >= cursor {
      var a, b := s.startSeq, s.endSeq + 1;
      calc {
        FromSeq(Lines(front + [s], objects), cursor);
        { LinesStep(front, s, objects); }
        FromSeq(Lines(front, objects) + h[a..b], cursor);
        { FromSeqConcat(Lines(front, objects), h[a..b], cursor); }
        h[Clamp(cursor, 0, a)..a] + FromSeq(h[a..b], cursor);
        { FromSeqSlice(h, a, b, cursor); }
        h[Clamp(cursor, 0, a)..a] + h[Clamp(cursor, a, b)..b];
        { StretchJoins(h, cursor, a, b); }
        h[Clamp(cursor, 0, b)..b];
      }
    } else {
      assert front + [] == front;
    }
  }

  lemma StretchJoins(h: seq<Record>, cursor: nat, a: nat, b: nat)
    requires a <= b <= |h| && cursor <= b
    ensures h[Clamp(cursor, 0, a)..a] + h[Clamp(cursor, a, b)..b] == h[Clamp(cursor, 0, b)..b]
  {
    if cursor <= a { SliceSplit(h, cursor, a, b); }
  }

  /** Everything a reader can reach, segments first. */
  function Contents(log: SourceLog, objects: Objects): seq<Record> {
    Lines(log.segments, objects) + log.pending
  }

  lemma {:induction false} LinesAreTheFlushedPart(segments: seq<Segment>, objects: Objects, h: seq<Record>)
    requires Tiles(segments, objects, h)
    ensures Flushed(segments) <= |h| && Lines(segments, objects) == h[..Flushed(segments)]
    decreases |segments|
  {
    if segments != [] {
      TilesFront(segments, objects, h);
      LinesAreTheFlushedPart(segments[..|segments| - 1], objects, h);
      SliceSplit(h, 0, segments[|segments| - 1].startSeq, Flushed(segments));
    }
  }

  lemma ReachesHistory(log: SourceLog, objects: Objects, h: seq<Record>)
    requires Consistent(log, objects, h)
    ensures Contents(log, objects) == h
  {
    LinesAreTheFlushedPart(log.segments, objects, h);
    WholeSplit(h, Flushed(log.segments));
  }

  /** A key names one body, and no two flush calls run at once. */
  ghost predicate Orderly(s: System) {
    && (forall p, q | 0 <= p < |s.issued| && 0 <= q < |s.issued| && s.issued[p].key == s.issued[q].key ::
          s.issued[p].body == s.issued[q].body)
    && (forall t, u | 0 <= t < u < |s.tasks| && Running(s.tasks[u].phase) :: !Running(s.tasks[t].phase))
  }

  predicate Running(phase: Phase) { phase.Putting? || phase.Stored? }

  /** Crash safety: after any interleaving, segments followed by pending rows are the history, with
      segments contiguous from 0; puts under one key carry one body; flush calls do not overlap. */
  lemma NothingIsLost(source: string, actions: seq<Action>)
    ensures var s := Exec(Init(source), actions);
      && Contents(s.log, s.objects) == s.hist && Numbering(s.hist) && s.log.nextSeq == |s.hist|
      && Tiles(s.log.segments, s.objects, s.hist)
      && Orderly(s)
  {
    AlwaysConsistent(source, actions);
    var s := Exec(Init(source), actions);
    ReachesHistory(s.log, s.objects, s.hist);
    IsOrderly(s);
  }

  lemma IsOrderly(s: System)
    requires Chained(s.tasks, s.lock) && PutsHold(s.issued, s.hist)
    ensures Orderly(s)
  {
    forall p, q | 0 <= p < |s.issued| && 0 <= q < |s.issued| && s.issued[p].key == s.issued[q].key
      ensures s.issued[p].body == s.issued[q].body
    {
      assert PutHolds(s.issued[p], s.hist) && PutHolds(s.issued[q], s.hist);
    }
    forall t, u | 0 <= t < u < |s.tasks| && Running(s.tasks[u].phase) ensures !Running(s.tasks[t].phase) {
      OnlyOneRuns(s, t, u);
    }
  }

  // ----- readChanges -----

  /** What the segment query contributes: the flushed part it saw, from the cursor, up to the limit. */
  function Front(h: seq<Record>, f0: nat, cursor: nat, limit: nat): seq<Record>
    requires f0 <= |h|
  {
    Take(h[Clamp(cursor, 0, f0)..f0], limit)
  }

  /** What the pending query contributes when it sees rows from `f1` on. */
  function Tail(h: seq<Record>, f0: nat, f1: nat, cursor: nat, limit: nat): seq<Record>
    requires f0 <= |h| && f1 <= |h|
  {
    var n := |Front(h, f0, cursor, limit)|;
    if n < limit then Take(h[Clamp(Max(cursor, f0), f1, |h|)..], limit - n) else []
  }

  lemma StitchedPageIs(segments: seq<Segment>, objects: Objects, h: seq<Record>, f1: nat, head: nat, cursor: nat,
                       limit: nat)
    requires Tiles(segments, objects, h) && Numbering(h) && f1 <= |h| && limit >= 1
    ensures Flushed(segments) <= |h|
    ensures StitchedPage(segments, objects, h[f1..], head, cursor, limit).records
              == Front(h, Flushed(segments), cursor, limit) + Tail(h, Flushed(segments), f1, cursor, limit)
  {
    SegmentLines(segments, objects, h, cursor);
    StitchedFrom(segments, objects, h, Flushed(segments), f1, head, cursor, limit);
  }

  lemma StitchedFrom(segments: seq<Segment>, objects: Objects, h: seq<Record>, f0: nat, f1: nat, head: nat,
                     cursor: nat, limit: nat)
    requires Numbering(h) && f0 <= |h| && f1 <= |h| && limit >= 1
    requires FromSeq(Lines(SegmentsFrom(segments, cursor), objects), cursor) == h[Clamp(cursor, 0, f0)..f0]
    ensures StitchedPage(segments, objects, h[f1..], head, cursor, limit).records
              == Front(h, f0, cursor, limit) + Tail(h, f0, f1, cursor, limit)
  {
    JoinedIs(h, f0, f1, cursor, limit);
    StitchedOf(segments, objects, h[f1..], head, cursor, limit, Front(h, f0, cursor, limit),
               Tail(h, f0, f1, cursor, limit));
  }

  lemma StitchedOf(segments: seq<Segment>, objects: Objects, pending: seq<Record>, head: nat, cursor: nat, limit: nat,
                   front: seq<Record>, tail: seq<Record>)
    requires front == Take(FromSeq(Lines(SegmentsFrom(segments, cursor), objects), cursor), limit)
    requires tail == if |front| < limit then Take(FromSeq(pending, NextCursor(front, cursor)), limit - |front|) else []
    ensures StitchedPage(segments, objects, pending, head, cursor, limit).records == front + tail
  {
  }

  /** The pending rows are taken up where the segments stop. */
  lemma JoinedIs(h: seq<Record>, f0: nat, f1: nat, cursor: nat, limit: nat)
    requires Numbering(h) && f0 <= |h| && f1 <= |h| && limit >= 1
    ensures var front := Front(h, f0, cursor, limit);
      |front| < limit ==>
        Take(FromSeq(h[f1..], NextCursor(front, cursor)), limit - |front|) == Tail(h, f0, f1, cursor, limit)
  {
    FrontCursor(h, f0, cursor, limit);
    PendingFrom(h, f1, Max(cursor, f0));
  }

  lemma PendingFrom(h: seq<Record>, f1: nat, from: nat)
    requires Numbering(h) && f1 <= |h|
    ensures FromSeq(h[f1..], from) == h[Clamp(from, f1, |h|)..]
  {
    FromSeqSlice(h, f1, |h|, from);
    assert h[f1..|h|] == h[f1..];
    assert h[Clamp(from, f1, |h|)..|h|] == h[Clamp(from, f1, |h|)..];
  }

  lemma FrontCursor(h: seq<Record>, f0: nat, cursor: nat, limit: nat)
    requires Numbering(h) && f0 <= |h| && limit >= 1
    ensures |Front(h, f0, cursor, limit)| < limit ==> NextCursor(Front(h, f0, cursor, limit), cursor) == Max(cursor, f0)
    ensures |Front(h, f0, cursor, limit)| < limit <==> f0 < Clamp(cursor, 0, f0) + limit
    ensures |Front(h, f0, cursor, limit)| < limit ==> Front(h, f0, cursor, limit) == h[Clamp(cursor, 0, f0)..f0]
    ensures |Front(h, f0, cursor, limit)| >= limit ==>
              Clamp(cursor, 0, f0) == cursor && cursor + limit <= f0
                && Front(h, f0, cursor, limit) == h[cursor..cursor + limit]
  {
    var c := Clamp(cursor, 0, f0);
    var front := Front(h, f0, cursor, limit);
    if limit <= f0 - c {
      SliceOfSlice(h, c, f0, 0, limit);
    } else if c < f0 {
      assert front[|front| - 1] == h[f0 - 1];
    }
  }

  /** Front and tail are one stretch of the history exactly when the pending table the second query
      sees starts no later than where the reader stopped, or the page was already full. */
  lemma PageIsASliceIff(h: seq<Record>, f0: nat, f1: nat, cursor: nat, limit: nat)
    requires Numbering(h) && f0 <= f1 <= |h| && limit >= 1
    ensures Front(h, f0, cursor, limit) + Tail(h, f0, f1, cursor, limit)
              == h[Clamp(cursor, 0, |h|)..Clamp(cursor + limit, 0, |h|)]
            <==> f1 <= Max(cursor, f0) || cursor + limit <= f0
  {
    FrontCursor(h, f0, cursor, limit);
    var front, tail := Front(h, f0, cursor, limit), Tail(h, f0, f1, cursor, limit);
    var from := Max(cursor, f0);
    if |front| < limit {
      if f1 <= from {
        StretchTake(h, Clamp(cursor, 0, f0), f0, cursor, limit);
      } else {
        SkipShows(h, f0, f1, cursor, limit);
      }
    }
  }

  /** The full page: the flushed stretch, then pending rows from where it ended. */
  lemma StretchTake(h: seq<Record>, c: nat, f0: nat, cursor: nat, limit: nat)
    requires f0 <= |h| && c == Clamp(cursor, 0, f0) && f0 < c + limit
    ensures h[c..f0] + Take(h[Clamp(Max(cursor, f0), 0, |h|)..], limit - (f0 - c))
              == h[Clamp(cursor, 0, |h|)..Clamp(cursor + limit, 0, |h|)]
  {
    var from := Clamp(Max(cursor, f0), 0, |h|);
    var n := limit - (f0 - c);
    var to := if from + n <= |h| then from + n else |h|;
    assert Take(h[from..], n) == h[from..to];
    if cursor <= f0 { SliceSplit(h, cursor, f0, to); }
  }

  /** A reader that starts its pending rows beyond where it stopped leaves a gap. */
  lemma SkipShows(h: seq<Record>, f0: nat, f1: nat, cursor: nat, limit: nat)
    requires Numbering(h) && f0 <= f1 <= |h| && limit >= 1
    requires f1 > Max(cursor, f0) && |Front(h, f0, cursor, limit)| < limit
    ensures Front(h, f0, cursor, limit) + Tail(h, f0, f1, cursor, limit)
              != h[Clamp(cursor, 0, |h|)..Clamp(cursor + limit, 0, |h|)]
  {
    FrontCursor(h, f0, cursor, limit);
    var front, tail := Front(h, f0, cursor, limit), Tail(h, f0, f1, cursor, limit);
    var want := h[Clamp(cursor, 0, |h|)..Clamp(cursor + limit, 0, |h|)];
    assert |want| > |front| && want[|front|] == h[Max(cursor, f0)];
    assert tail != [] ==> tail[0] == h[f1];
  }

  /** With nothing flushed between its queries, readChanges returns exactly the next stretch. */
  lemma ReadChangesIsASlice(log: SourceLog, objects: Objects, h: seq<Record>, cursor: nat, limit: nat)
    requires Consistent(log, objects, h) && limit >= 1
    ensures var page := ReadChanges(log, objects, cursor, limit);
      && page.records == h[Clamp(cursor, 0, |h|)..Clamp(cursor + limit, 0, |h|)]
      && page.nextCursor == Max(cursor, Clamp(cursor + limit, 0, |h|))
      && (page.hasMore <==> page.nextCursor < |h|)
      && (cursor < |h| ==> page.nextCursor > cursor)
  {
    ReadRecordsAre(log, objects, h, cursor, limit);
    SliceCursor(h, cursor, limit);
  }

  lemma ReadRecordsAre(log: SourceLog, objects: Objects, h: seq<Record>, cursor: nat, limit: nat)
    requires Consistent(log, objects, h) && limit >= 1
    ensures ReadChanges(log, objects, cursor, limit).records == h[Clamp(cursor, 0, |h|)..Clamp(cursor + limit, 0, |h|)]
  {
    var f := Flushed(log.segments);
    StitchedPageIs(log.segments, objects, h, f, log.nextSeq, cursor, limit);
    PageIsASliceIff(h, f, f, cursor, limit);
  }

  lemma SliceCursor(h: seq<Record>, cursor: nat, limit: nat)
    requires Numbering(h)
    ensures NextCursor(h[Clamp(cursor, 0, |h|)..Clamp(cursor + limit, 0, |h|)], cursor)
              == Max(cursor, Clamp(cursor + limit, 0, |h|))
  {
    var q := h[Clamp(cursor, 0, |h|)..Clamp(cursor + limit, 0, |h|)];
    assert q != [] ==> q[|q| - 1] == h[Clamp(cursor + limit, 0, |h|) - 1];
  }
}
