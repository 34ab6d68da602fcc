/** readChanges while other calls and processes keep writing (src/exports/log.ts): what always holds,
    and exactly when a page is complete and has no gap. */
module ExportInterleaving {
  import opened Basics
  import opened ExportRecords
  import opened ExportSystem
  import opened ExportReads

  // ----- the log only grows -----

  ghost predicate Grows(s: System, s': System) {
    && s.hist <= s'.hist && s.log.segments <= s'.log.segments && s.source == s'.source
    && forall k | k in s.objects :: k in s'.objects && s'.objects[k] == s.objects[k]
  }

  lemma StoreGrows(s: System, p: Put)
    requires Inv(s) && PutHolds(p, s.hist)
    ensures forall k | k in s.objects :: s.objects[p.key := p.body][k] == s.objects[k]
  {
    PutConsistent(s.log, s.objects, s.hist, p);
  }

  lemma StepGrows(s: System, a: Action)
    requires Inv(s) && Enabled(s, a)
    ensures Grows(s, Step(s, a))
  {
    match a
    case PutLands(p) => LandingGrows(s, p);
    case PutAcknowledged(t) => AcknowledgeGrows(s, t);
    case CommitFlush(t) => CommitGrows(s, t);
    case _ => OthersGrow(s, a);
  }

  lemma LandingGrows(s: System, p: nat)
    requires Inv(s) && Enabled(s, PutLands(p))
    ensures Grows(s, Step(s, PutLands(p)))
  {
    StoreGrows(s, s.issued[p]);
  }

  lemma OthersGrow(s: System, a: Action)
    requires Enabled(s, a) && !a.PutLands? && !a.PutAcknowledged? && !a.CommitFlush?
    ensures Grows(s, Step(s, a))
  {
  }

  lemma AcknowledgeGrows(s: System, t: nat)
    requires Inv(s) && Enabled(s, PutAcknowledged(t))
    ensures Grows(s, Step(s, PutAcknowledged(t)))
  {
    var rows := s.tasks[t].phase.rows;
    assert TaskHolds(s.source, s.tasks[t].phase, s.log.pending, s.objects);
    FrontRows(s.source, s.log, s.objects, s.hist, rows);
    StoreGrows(s, Put(KeyFor(s.source, rows), rows));
  }

  lemma CommitGrows(s: System, t: nat)
    requires Inv(s) && Enabled(s, CommitFlush(t))
    ensures Grows(s, Step(s, CommitFlush(t)))
  {
    assert TaskHolds(s.source, s.tasks[t].phase, s.log.pending, s.objects);
    CommitConsistent(s.source, s.log, s.objects, s.hist, s.tasks[t].phase.rows);
  }

  lemma GrowsTransitive(a: System, b: System, c: System)
    requires Grows(a, b) && Grows(b, c)
    ensures Grows(a, c)
  {
  }

  lemma {:induction false} ExecGrows(s: System, actions: seq<Action>)
    requires Inv(s)
    ensures Grows(s, Exec(s, actions)) && Inv(Exec(s, actions))
    decreases |actions|
  {
    if actions != [] {
      var s1 := if Enabled(s, actions[0]) then Step(s, actions[0]) else s;
      if Enabled(s, actions[0]) { StepKeepsInv(s, actions[0]); StepGrows(s, actions[0]); }
      ExecGrows(s1, actions[1..]);
      GrowsTransitive(s, s1, Exec(s, actions));
    }
  }

  /** The segments an earlier query saw still tile the later history. */
  lemma OldSegmentsStillTile(s: System, s': System)
    requires Inv(s) && Inv(s') && Grows(s, s')
    ensures Tiles(s.log.segments, s'.objects, s'.hist)
    ensures Flushed(s.log.segments) <= Flushed(s'.log.segments) <= |s'.hist|
  {
    forall i | 0 <= i < |s.log.segments| ensures SegmentHolds(s.log.segments[i], s'.objects, s'.hist) {
      assert s.log.segments[i] == s'.log.segments[i];
      assert SegmentHolds(s'.log.segments[i], s'.objects, s'.hist);
    }
    if s.log.segments != [] {
      StartsAscend(s'.log.segments, s'.objects, s'.hist, |s.log.segments| - 1);
    }
  }

  // ----- a read across other steps -----

  lemma ReadAcrossIs(s: System, mid: seq<Action>, late: seq<Action>, cursor: nat, limit: nat)
    requires Inv(s) && limit >= 1
    ensures var s1 := Exec(s, mid); var f0, f1 := Flushed(s.log.segments), Flushed(s1.log.segments);
      && Inv(s1) && f0 <= f1 <= |s1.hist|
      && ReadAcross(s, mid, late, cursor, limit).records
           == Front(s1.hist, f0, cursor, limit) + Tail(s1.hist, f0, f1, cursor, limit)
  {
    ExecGrows(s, mid);
    var s1 := Exec(s, mid);
    OldSegmentsStillTile(s, s1);
    StitchedPageIs(s.log.segments, s1.objects, s1.hist, Flushed(s1.log.segments), Exec(s1, late).log.nextSeq, cursor,
                   limit);
  }

  /** Records drawn from `h`, from the cursor on, in strictly ascending order. */
  ghost predicate DrawnFrom(records: seq<Record>, h: seq<Record>, cursor: nat) {
    && (forall i | 0 <= i < |records| :: cursor <= records[i].seqNo < |h| && h[records[i].seqNo] == records[i])
    && (forall i, j | 0 <= i < j < |records| :: records[i].seqNo < records[j].seqNo)
  }

  /** Whatever happens during a read, the page holds true records in order, none before the cursor. */
  lemma ReadsAreSound(s: System, mid: seq<Action>, late: seq<Action>, cursor: nat, limit: nat)
    requires Inv(s) && limit >= 1
    ensures DrawnFrom(ReadAcross(s, mid, late, cursor, limit).records, Exec(s, mid).hist, cursor)
    ensures |ReadAcross(s, mid, late, cursor, limit).records| <= limit
  {
    ReadAcrossIs(s, mid, late, cursor, limit);
    var s1 := Exec(s, mid);
    PageIsDrawn(s1.hist, Flushed(s.log.segments), Flushed(s1.log.segments), cursor, limit);
  }

  lemma PageIsDrawn(h: seq<Record>, f0: nat, f1: nat, cursor: nat, limit: nat)
    requires Numbering(h) && f0 <= f1 <= |h| && limit >= 1
    ensures DrawnFrom(Front(h, f0, cursor, limit) + Tail(h, f0, f1, cursor, limit), h, cursor)
    ensures |Front(h, f0, cursor, limit) + Tail(h, f0, f1, cursor, limit)| <= limit
  {
    FrontIsDrawn(h, f0, cursor, limit);
    TailIsDrawn(h, f0, f1, cursor, limit);
    DrawnJoins(Front(h, f0, cursor, limit), Tail(h, f0, f1, cursor, limit), h, cursor, f0);
  }

  lemma FrontIsDrawn(h: seq<Record>, f0: nat, cursor: nat, limit: nat)
    requires Numbering(h) && f0 <= |h| && limit >= 1
    ensures var front := Front(h, f0, cursor, limit);
      DrawnFrom(front, h, cursor) && |front| <= limit && forall i | 0 <= i < |front| :: front[i].seqNo < f0
  {
    var c, front := Clamp(cursor, 0, f0), Front(h, f0, cursor, limit);
    assert forall i | 0 <= i < |front| :: front[i] == h[c + i];
  }

  lemma TailIsDrawn(h: seq<Record>, f0: nat, f1: nat, cursor: nat, limit: nat)
    requires Numbering(h) && f0 <= f1 <= |h| && limit >= 1
    ensures var tail := Tail(h, f0, f1, cursor, limit);
      && DrawnFrom(tail, h, cursor) && (forall i | 0 <= i < |tail| :: tail[i].seqNo >= f0)
      && (tail != [] ==> |tail| + |Front(h, f0, cursor, limit)| <= limit)
  {
    var d, tail := Clamp(Max(cursor, f0), f1, |h|), Tail(h, f0, f1, cursor, limit);
    assert forall i | 0 <= i < |tail| :: tail[i] == h[d..][i] == h[d + i];
  }

  lemma DrawnJoins(front: seq<Record>, tail: seq<Record>, h: seq<Record>, cursor: nat, f0: nat)
    requires DrawnFrom(front, h, cursor) && DrawnFrom(tail, h, cursor)
    requires forall i | 0 <= i < |front| :: front[i].seqNo < f0
    requires forall i | 0 <= i < |tail| :: tail[i].seqNo >= f0
    ensures DrawnFrom(front + tail, h, cursor)
  {
  }

  /** A page is the full next stretch exactly when no flush commit moved rows the reader had not
      reached out of the pending table between the two queries, or the segments already filled it. */
  lemma ReadIsCompleteIff(s: System, mid: seq<Action>, late: seq<Action>, cursor: nat, limit: nat)
    requires Inv(s) && limit >= 1
    ensures var s1 := Exec(s, mid); var h := s1.hist;
      var f0, f1 := Flushed(s.log.segments), Flushed(s1.log.segments);
      ReadAcross(s, mid, late, cursor, limit).records == h[Clamp(cursor, 0, |h|)..Clamp(cursor + limit, 0, |h|)]
      <==> f1 <= Max(cursor, f0) || cursor + limit <= f0
  {
    ReadAcrossIs(s, mid, late, cursor, limit);
    var s1 := Exec(s, mid);
    PageIsASliceIff(s1.hist, Flushed(s.log.segments), Flushed(s1.log.segments), cursor, limit);
  }

  /** The records from the cursor to the page's own next cursor, none left out. */
  ghost predicate GapFree(page: Page, h: seq<Record>, cursor: nat) {
    cursor <= page.nextCursor && page.records == h[Clamp(cursor, 0, |h|)..Clamp(page.nextCursor, 0, |h|)]
  }

  /** A page skips records its next cursor moves past exactly when, in addition, newer rows were
      already pending for the second query to return. */
  lemma ReadIsGapFreeIff(s: System, mid: seq<Action>, late: seq<Action>, cursor: nat, limit: nat)
    requires Inv(s) && limit >= 1
    ensures var s1 := Exec(s, mid);
      var f0, f1 := Flushed(s.log.segments), Flushed(s1.log.segments);
      GapFree(ReadAcross(s, mid, late, cursor, limit), s1.hist, cursor)
      <==> f1 <= Max(cursor, f0) || cursor + limit <= f0 || f1 == |s1.hist|
  {
    ReadAcrossIs(s, mid, late, cursor, limit);
    var s1 := Exec(s, mid);
    GapFreeIff(s1.hist, Flushed(s.log.segments), Flushed(s1.log.segments), cursor, limit);
  }

  lemma GapFreeIff(h: seq<Record>, f0: nat, f1: nat, cursor: nat, limit: nat)
    requires Numbering(h) && f0 <= f1 <= |h| && limit >= 1
    ensures var records := Front(h, f0, cursor, limit) + Tail(h, f0, f1, cursor, limit);
      && cursor <= NextCursor(records, cursor)
      && (records == h[Clamp(cursor, 0, |h|)..Clamp(NextCursor(records, cursor), 0, |h|)]
      <==> f1 <= Max(cursor, f0) || cursor + limit <= f0 || f1 == |h|)
  {
    PageIsDrawn(h, f0, f1, cursor, limit);
    if f1 <= Max(cursor, f0) || cursor + limit <= f0 {
      PageIsASliceIff(h, f0, f1, cursor, limit);
      SliceCursor(h, cursor, limit);
    } else if f1 == |h| {
      ShortPage(h, f0, cursor, limit);
    } else {
      GapPage(h, f0, f1, cursor, limit);
    }
  }

  /** Nothing was pending: the page stops where the segments did. */
  lemma ShortPage(h: seq<Record>, f0: nat, cursor: nat, limit: nat)
    requires Numbering(h) && f0 <= |h| && limit >= 1 && |h| > Max(cursor, f0) && cursor + limit > f0
    ensures var records := Front(h, f0, cursor, limit) + Tail(h, f0, |h|, cursor, limit);
      && NextCursor(records, cursor) == Max(cursor, f0)
      && records == h[cursor..Max(cursor, f0)]
  {
    FrontCursor(h, f0, cursor, limit);
    assert Tail(h, f0, |h|, cursor, limit) == [];
    assert Front(h, f0, cursor, limit) + [] == Front(h, f0, cursor, limit);
  }

  lemma GapPage(h: seq<Record>, f0: nat, f1: nat, cursor: nat, limit: nat)
    requires Numbering(h) && f0 <= f1 < |h| && limit >= 1 && f1 > Max(cursor, f0) && cursor + limit > f0
    ensures var records := Front(h, f0, cursor, limit) + Tail(h, f0, f1, cursor, limit);
      && NextCursor(records, cursor) > f1
      && records != h[Clamp(cursor, 0, |h|)..Clamp(NextCursor(records, cursor), 0, |h|)]
  {
    FrontCursor(h, f0, cursor, limit);
    var front, tail := Front(h, f0, cursor, limit), Tail(h, f0, f1, cursor, limit);
    assert tail == Take(h[f1..], limit - |front|);
    assert tail[0] == h[f1] && tail[|tail| - 1] == h[f1 + |tail| - 1];
    var records := front + tail;
    assert records[|front|] == h[f1] && records[|records| - 1] == tail[|tail| - 1];
    GapShows(h, records, cursor, |front|, Max(cursor, f0), f1);
  }

  lemma GapShows(h: seq<Record>, records: seq<Record>, cursor: nat, n: nat, k: nat, f1: nat)
    requires Numbering(h) && n < |records| && k < f1 < |h| && records[n] == h[f1]
    requires n == k - Clamp(cursor, 0, |h|) && NextCursor(records, cursor) > k >= cursor
    ensures records != h[Clamp(cursor, 0, |h|)..Clamp(NextCursor(records, cursor), 0, |h|)]
  {
    var want := h[Clamp(cursor, 0, |h|)..Clamp(NextCursor(records, cursor), 0, |h|)];
    assert n < |want| && want[n] == h[k];
  }

  /** The race is real: two rows are flushed and a third is appended between the two queries of a
      read from 0, which returns only the third and a cursor past all of them. */
  lemma FlushDuringReadLosesRecords(source: string, a: Record, b: Record, c: Record)
    requires a.op.Upsert? && b.op.Upsert? && c.op.Upsert?
    requires a.entityId != b.entityId && b.entityId != c.entityId && a.entityId != c.entityId
    ensures var s := Exec(Init(source), [DoAppend(a), DoAppend(b), CallFlush, StartFlush(0), PutAcknowledged(0)]);
      var page := ReadAcross(s, [CommitFlush(0), DoAppend(c)], [], 0, LIMIT_DEFAULT);
      && page.records == [c.(seqNo := 2)] && page.nextCursor == 3 && !page.hasMore
      && Exec(s, [CommitFlush(0), DoAppend(c)]).hist == [a.(seqNo := 0), b.(seqNo := 1), c.(seqNo := 2)]
  {
    var r0, r1, r2 := a.(seqNo := 0), b.(seqNo := 1), c.(seqNo := 2);
    var s5 := TwoStored(source, a, b);
    var s7 := ThirdAppended(s5, source, r0, r1, c);
    assert SegmentsFrom([], 0) == [] && Lines([], s7.objects) == [];
    FromSeqStep([], r2, 0);
    assert [] + [r2] == [r2];
  }

  lemma TwoStored(source: string, a: Record, b: Record) returns (s5: System)
    requires a.op.Upsert? && b.op.Upsert? && a.entityId != b.entityId
    ensures s5 == Exec(Init(source), [DoAppend(a), DoAppend(b), CallFlush, StartFlush(0), PutAcknowledged(0)])
    ensures var r0, r1 := a.(seqNo := 0), b.(seqNo := 1);
      && s5.source == source && s5.log == SourceLog(2, map[a.entityId := r0, b.entityId := r1], [r0, r1], [])
      && s5.hist == [r0, r1] && s5.tasks == [Task(None, Stored([r0, r1]))]
  {
    var r0, r1 := a.(seqNo := 0), b.(seqNo := 1);
    var s0 := Init(source);
    var s1 := Step(s0, DoAppend(a));
    assert s1.log.pending == [r0] && s1.hist == [r0];
    var s2 := Step(s1, DoAppend(b));
    assert s2.log.pending == [r0, r1] && s2.hist == [r0, r1];
    var s3 := Step(s2, CallFlush);
    assert s3.tasks == [Task(None, Waiting)];
    var s4 := Step(s3, StartFlush(0));
    assert s4.tasks == [Task(None, Putting([r0, r1]))];
    s5 := Step(s4, PutAcknowledged(0));
    assert s5.tasks == [Task(None, Stored([r0, r1]))];
    ExecOne(s0, DoAppend(a), [DoAppend(b), CallFlush, StartFlush(0), PutAcknowledged(0)]);
    ExecOne(s1, DoAppend(b), [CallFlush, StartFlush(0), PutAcknowledged(0)]);
    ExecOne(s2, CallFlush, [StartFlush(0), PutAcknowledged(0)]);
    ExecOne(s3, StartFlush(0), [PutAcknowledged(0)]);
    ExecOne(s4, PutAcknowledged(0), []);
  }

  lemma ThirdAppended(s5: System, source: string, r0: Record, r1: Record, c: Record) returns (s7: System)
    requires r0.seqNo == 0 && r1.seqNo == 1 && c.op.Upsert? && c.entityId != r0.entityId && c.entityId != r1.entityId
    requires s5.log == SourceLog(2, map[r0.entityId := r0, r1.entityId := r1], [r0, r1], [])
    requires s5.hist == [r0, r1] && s5.tasks == [Task(None, Stored([r0, r1]))]
    ensures s7 == Exec(s5, [CommitFlush(0), DoAppend(c)])
    ensures s7.log.pending == [c.(seqNo := 2)] && s7.log.nextSeq == 3 && s7.hist == [r0, r1, c.(seqNo := 2)]
  {
    var s6 := Step(s5, CommitFlush(0));
    DropTwo(r0, r1);
    s7 := Step(s6, DoAppend(c));
    ExecOne(s5, CommitFlush(0), [DoAppend(c)]);
    ExecOne(s6, DoAppend(c), []);
  }

  lemma ExecOne(s: System, a: Action, rest: seq<Action>)
    requires Enabled(s, a)
    ensures Exec(s, [a] + rest) == Exec(Step(s, a), rest)
    ensures rest == [] ==> Exec(s, [a]) == Step(s, a)
  {
    assert ([a] + rest)[1..] == rest;
  }

  lemma DropTwo(r0: Record, r1: Record)
    requires r0.seqNo == 0 && r1.seqNo == 1
    ensures DropThrough([r0, r1], 1) == []
  {
    assert [r0, r1][1..] == [r1];
    assert DropThrough([r1], 1) == [] by { assert [r1][1..] == []; }
  }
}
