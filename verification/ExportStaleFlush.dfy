/** A flush by another process (the promise chain in src/exports/log.ts is per process): it commits
    a stretch of rows it read and stored earlier, into tables that have moved on. */
module ExportStaleFlush {
  import opened Basics
  import opened ExportRecords
  import opened ExportSystem
  import opened ExportReads
  import opened ExportInterleaving

  /** The commit extends the segments at their end, grows the last one, or repeats one. */
  predicate Harmless(segments: seq<Segment>, key: ObjectKey) {
    || key.startSeq == Flushed(segments)
    || exists i :: 0 <= i < |segments| && Regrows(segments, key, i)
  }

  predicate Regrows(segments: seq<Segment>, key: ObjectKey, i: nat)
    requires i < |segments|
  {
    && segments[i].startSeq == key.startSeq
    && (segments[i].endSeq == key.endSeq || (i == |segments| - 1 && segments[i].endSeq <= key.endSeq))
  }

  predicate Ascending(segments: seq<Segment>) {
    forall i, j | 0 <= i < j < |segments| :: segments[i].startSeq < segments[j].startSeq
  }

  lemma {:induction false} TilesAscend(segments: seq<Segment>, objects: Objects, h: seq<Record>)
    requires Tiles(segments, objects, h)
    ensures Ascending(segments)
    decreases |segments|
  {
    if segments != [] {
      var p := segments[..|segments| - 1];
      TilesFront(segments, objects, h);
      TilesAscend(p, objects, h);
      assert forall i | 0 <= i < |p| :: p[i] == segments[i];
      forall i | 0 <= i < |p| ensures p[i].startSeq < segments[|p|].startSeq {
        StartsAscend(p, objects, h, i);
        assert SegmentHolds(p[i], objects, h);
      }
    }
  }

  /** Where the upsert puts a segment: after every smaller start, replacing an equal one. */
  function Position(segments: seq<Segment>, start: nat): (k: nat)
    ensures k <= |segments|
    ensures forall i | 0 <= i < k :: segments[i].startSeq < start
    ensures k < |segments| ==> start <= segments[k].startSeq
  {
    if segments == [] || start <= segments[0].startSeq then 0 else 1 + Position(segments[1..], start)
  }

  function Rest(segments: seq<Segment>, start: nat): seq<Segment> {
    var k := Position(segments, start);
    if k < |segments| && segments[k].startSeq == start then segments[k + 1..] else segments[k..]
  }

  lemma {:induction false} UpsertShape(segments: seq<Segment>, s: Segment)
    ensures UpsertSegment(segments, s) == segments[..Position(segments, s.startSeq)] + [s] + Rest(segments, s.startSeq)
  {
    if segments != [] && s.startSeq > segments[0].startSeq {
      UpsertShape(segments[1..], s);
      assert segments[..Position(segments, s.startSeq)]
          == [segments[0]] + segments[1..][..Position(segments[1..], s.startSeq)];
    }
  }

  lemma DropThroughTail(h: seq<Record>, f: nat, e: nat)
    requires Numbering(h) && f <= |h| && e < |h|
    ensures DropThrough(h[f..], e) == h[Max(f, e + 1)..]
  {
    if e + 1 >= f {
      DropFront(h[f..], e + 1 - f, f);
      assert h[f..][e + 1 - f..] == h[e + 1..];
    } else {
      KeepAll(h[f..], e);
    }
  }

  /** A late commit leaves tables and history in step exactly when it is harmless; otherwise
      segments overlap, or rows it cut off are in no segment and no longer pending. */
  lemma LateCommitIff(log: SourceLog, objects: Objects, h: seq<Record>, key: ObjectKey)
    requires Consistent(log, objects, h) && key in objects && PutHolds(Put(key, objects[key]), h)
    ensures Consistent(Commit(log, key), objects, h) <==> Harmless(log.segments, key)
  {
    var segs := log.segments;
    var s := Segment(key.startSeq, key.endSeq, key);
    TilesAscend(segs, objects, h);
    UpsertShape(segs, s);
    DropThroughTail(h, Flushed(segs), key.endSeq);
    assert SegmentHolds(s, objects, h);
    if Harmless(segs, key) {
      HarmlessKeeps(log, objects, h, key);
    }
    if Consistent(Commit(log, key), objects, h) {
      KeepsIsHarmless(log, objects, h, key);
    }
  }

  lemma HarmlessKeeps(log: SourceLog, objects: Objects, h: seq<Record>, key: ObjectKey)
    requires Consistent(log, objects, h) && key in objects && PutHolds(Put(key, objects[key]), h)
    requires Harmless(log.segments, key) && Ascending(log.segments)
    ensures Consistent(Commit(log, key), objects, h)
  {
    var s := Segment(key.startSeq, key.endSeq, key);
    if key.startSeq == Flushed(log.segments) {
      Extended(log.segments, objects, h, s);
    } else {
      var i :| 0 <= i < |log.segments| && Regrows(log.segments, key, i);
      Regrown(log.segments, objects, h, s, i);
    }
    CommitKeeps(log, objects, h, key);
  }

  lemma CommitKeeps(log: SourceLog, objects: Objects, h: seq<Record>, key: ObjectKey)
    requires Consistent(log, objects, h) && key.endSeq < |h|
    requires var segs := UpsertSegment(log.segments, Segment(key.startSeq, key.endSeq, key));
      Tiles(segs, objects, h) && Flushed(segs) == Max(Flushed(log.segments), key.endSeq + 1)
    ensures Consistent(Commit(log, key), objects, h)
  {
    DropThroughTail(h, Flushed(log.segments), key.endSeq);
  }

  lemma Regrown(segs: seq<Segment>, objects: Objects, h: seq<Record>, s: Segment, i: nat)
    requires Tiles(segs, objects, h) && Ascending(segs) && i < |segs| && SegmentHolds(s, objects, h)
    requires segs[i].startSeq == s.startSeq
    requires segs[i].endSeq == s.endSeq || (i == |segs| - 1 && segs[i].endSeq <= s.endSeq)
    ensures Tiles(UpsertSegment(segs, s), objects, h)
    ensures Flushed(UpsertSegment(segs, s)) == Max(Flushed(segs), s.endSeq + 1)
  {
    UpsertShape(segs, s);
    assert Position(segs, s.startSeq) == i;
    StartsAscend(segs, objects, h, i);
    Replaced(segs, objects, h, s, i);
  }

  lemma Extended(segs: seq<Segment>, objects: Objects, h: seq<Record>, s: Segment)
    requires Tiles(segs, objects, h) && SegmentHolds(s, objects, h) && s.startSeq == Flushed(segs)
    ensures UpsertSegment(segs, s) == segs + [s] && Tiles(segs + [s], objects, h)
  {
    StartsBelow(segs, objects, h);
    UpsertLast(segs, s);
    TilesExtend(segs, objects, h, s);
  }

  lemma Replaced(segs: seq<Segment>, objects: Objects, h: seq<Record>, s: Segment, i: nat)
    requires Tiles(segs, objects, h) && i < |segs| && SegmentHolds(s, objects, h)
    requires segs[i].startSeq == s.startSeq
    requires segs[i].endSeq == s.endSeq || i == |segs| - 1
    ensures Tiles(segs[..i] + [s] + segs[i + 1..], objects, h)
    ensures Flushed(segs[..i] + [s] + segs[i + 1..]) == if i == |segs| - 1 then s.endSeq + 1 else Flushed(segs)
  {
    SameAsUpdate(segs, i, s);
    var t := segs[i := s];
    forall j | 0 <= j < |t| ensures SegmentHolds(t[j], objects, h) {
      if j != i { assert SegmentHolds(segs[j], objects, h); }
    }
  }

  lemma SameAsUpdate(segs: seq<Segment>, i: nat, s: Segment)
    requires i < |segs|
    ensures segs[..i] + [s] + segs[i + 1..] == segs[i := s]
  {
  }

  lemma KeepsIsHarmless(log: SourceLog, objects: Objects, h: seq<Record>, key: ObjectKey)
    requires Consistent(log, objects, h) && key in objects && PutHolds(Put(key, objects[key]), h)
    requires Consistent(Commit(log, key), objects, h) && Ascending(log.segments)
    ensures Harmless(log.segments, key)
  {
    var segs, s := log.segments, Segment(key.startSeq, key.endSeq, key);
    UpsertAt(segs, s);
    DropThroughTail(h, Flushed(segs), key.endSeq);
    TilingIsHarmless(segs, UpsertSegment(segs, s), objects, h, key);
  }

  /** The new segment and its neighbours. */
  ghost predicate PutAt(segs: seq<Segment>, t: seq<Segment>, s: Segment, k: nat) {
    && k <= |segs| && k < |t| && t[k] == s && (k > 0 ==> t[k - 1] == segs[k - 1])
    && (k < |segs| ==>
          if segs[k].startSeq == s.startSeq
          then |t| == |segs| && (k + 1 < |segs| ==> t[k + 1] == segs[k + 1])
          else k + 1 < |t| && t[k + 1] == segs[k])
  }

  lemma UpsertAt(segs: seq<Segment>, s: Segment)
    ensures PutAt(segs, UpsertSegment(segs, s), s, Position(segs, s.startSeq))
  {
    UpsertShape(segs, s);
  }

  lemma TilingIsHarmless(segs: seq<Segment>, t: seq<Segment>, objects: Objects, h: seq<Record>, key: ObjectKey)
    requires Tiles(segs, objects, h) && Tiles(t, objects, h) && Flushed(segs) <= Flushed(t)
    requires PutAt(segs, t, Segment(key.startSeq, key.endSeq, key), Position(segs, key.startSeq))
    ensures Harmless(segs, key)
  {
    var k := Position(segs, key.startSeq);
    if k < |segs| {
      NotBefore(segs, t, objects, h, key, k);
      assert Regrows(segs, key, k);
    }
  }

  /** It cannot have been put in front of an old segment. */
  lemma NotBefore(segs: seq<Segment>, t: seq<Segment>, objects: Objects, h: seq<Record>, key: ObjectKey, k: nat)
    requires Tiles(segs, objects, h) && Tiles(t, objects, h)
    requires PutAt(segs, t, Segment(key.startSeq, key.endSeq, key), k) && k < |segs|
    ensures segs[k].startSeq == key.startSeq
  {
  }

  // ----- flushers that do not share a lock -----

  /** Where the flush of one process stands: rows read, and then stored. */
  datatype Flusher = Resting | Holding(rows: seq<Record>) | Stored(rows: seq<Record>)

  /** One source's tables and objects, its history, and the processes flushing it. */
  datatype Shared = Shared(source: string, log: SourceLog, objects: Objects, hist: seq<Record>, flushers: seq<Flusher>)

  datatype Action = WriteRecord(r: Record) | ReadRows(f: nat) | StoreRows(f: nat) | CommitRows(f: nat)

  predicate Enabled(t: Shared, a: Action) {
    match a
    case WriteRecord(r) => !IsNoop(t.log.state, r)
    case ReadRows(f) => f < |t.flushers| && t.flushers[f].Resting? && t.log.pending != []
    case StoreRows(f) => f < |t.flushers| && t.flushers[f].Holding? && t.flushers[f].rows != []
    case CommitRows(f) => f < |t.flushers| && t.flushers[f].Stored? && t.flushers[f].rows != []
  }

  function KeyOf(t: Shared, f: nat): ObjectKey
    requires f < |t.flushers| && !t.flushers[f].Resting? && t.flushers[f].rows != []
  {
    KeyFor(t.source, t.flushers[f].rows)
  }

  function Step(t: Shared, a: Action): Shared
    requires Enabled(t, a)
  {
    match a
    case WriteRecord(r) => t.(log := Append(t.log, r), hist := t.hist + [Numbered(t.log, r)])
    case ReadRows(f) => t.(flushers := t.flushers[f := Holding(t.log.pending)])
    case StoreRows(f) =>
      t.(objects := t.objects[KeyOf(t, f) := t.flushers[f].rows],
         flushers := t.flushers[f := Flusher.Stored(t.flushers[f].rows)])
    case CommitRows(f) => t.(log := Commit(t.log, KeyOf(t, f)), flushers := t.flushers[f := Resting])
  }

  function Exec(t: Shared, actions: seq<Action>): Shared
    decreases |actions|
  {
    if actions == [] then t else Exec(if Enabled(t, actions[0]) then Step(t, actions[0]) else t, actions[1..])
  }

  function Empty(source: string, flushers: nat): Shared {
    Shared(source, EMPTY, map[], [], seq(flushers, i => Resting))
  }

  /** What a flusher holds is a stretch of the history, and what it stored is there. */
  ghost predicate FlusherHolds(t: Shared, f: nat)
    requires f < |t.flushers|
  {
    t.flushers[f].Resting?
    || (t.flushers[f].rows != [] && PutHolds(Put(KeyOf(t, f), t.flushers[f].rows), t.hist)
        && (t.flushers[f].Stored? ==> KeyOf(t, f) in t.objects && t.objects[KeyOf(t, f)] == t.flushers[f].rows))
  }

  ghost predicate FlushersHold(t: Shared) {
    ObjectsHold(t.objects, t.hist) && forall f | 0 <= f < |t.flushers| :: FlusherHolds(t, f)
  }

  ghost predicate InStep(t: Shared) { Consistent(t.log, t.objects, t.hist) }

  lemma WriteKeeps(t: Shared, r: Record)
    requires FlushersHold(t) && InStep(t) && Enabled(t, WriteRecord(r))
    ensures FlushersHold(Step(t, WriteRecord(r))) && InStep(Step(t, WriteRecord(r)))
  {
    var a := Numbered(t.log, r);
    AppendConsistent(t.log, t.objects, t.hist, r);
    PutsGrow([], t.objects, t.hist, a);
    forall f | 0 <= f < |t.flushers| ensures FlusherHolds(Step(t, WriteRecord(r)), f) {
      assert FlusherHolds(t, f);
      if !t.flushers[f].Resting? { GrowPut(Put(KeyOf(t, f), t.flushers[f].rows), t.hist, a); }
    }
  }

  lemma ReadKeeps(t: Shared, f: nat)
    requires FlushersHold(t) && InStep(t) && Enabled(t, ReadRows(f))
    ensures FlushersHold(Step(t, ReadRows(f))) && InStep(Step(t, ReadRows(f)))
  {
    FrontRows(t.source, t.log, t.objects, t.hist, t.log.pending);
    forall g | 0 <= g < |t.flushers| ensures FlusherHolds(Step(t, ReadRows(f)), g) {
      assert FlusherHolds(t, g);
    }
  }

  lemma StoreKeeps(t: Shared, f: nat)
    requires FlushersHold(t) && InStep(t) && Enabled(t, StoreRows(f))
    ensures FlushersHold(Step(t, StoreRows(f))) && InStep(Step(t, StoreRows(f)))
  {
    assert FlusherHolds(t, f);
    PutConsistent(t.log, t.objects, t.hist, Put(KeyOf(t, f), t.flushers[f].rows));
    forall g | 0 <= g < |t.flushers| ensures FlusherHolds(Step(t, StoreRows(f)), g) { OtherStored(t, f, g); }
  }

  lemma OtherStored(t: Shared, f: nat, g: nat)
    requires FlushersHold(t) && Enabled(t, StoreRows(f)) && g < |t.flushers|
    ensures FlusherHolds(Step(t, StoreRows(f)), g)
  {
    assert FlusherHolds(t, f) && FlusherHolds(t, g);
    if g != f && t.flushers[g].Stored? && KeyOf(t, g) == KeyOf(t, f) {
      assert t.flushers[g].rows == t.flushers[f].rows;
    }
  }

  lemma CommitKeepsIff(t: Shared, f: nat)
    requires FlushersHold(t) && InStep(t) && Enabled(t, CommitRows(f))
    ensures FlushersHold(Step(t, CommitRows(f)))
    ensures InStep(Step(t, CommitRows(f))) <==> Harmless(t.log.segments, KeyOf(t, f))
  {
    assert FlusherHolds(t, f);
    LateCommitIff(t.log, t.objects, t.hist, KeyOf(t, f));
    forall g | 0 <= g < |t.flushers| ensures FlusherHolds(Step(t, CommitRows(f)), g) {
      assert FlusherHolds(t, g);
    }
  }

  predicate Runs(t: Shared, actions: seq<Action>)
    decreases |actions|
  {
    actions == [] || (Enabled(t, actions[0]) && Runs(Step(t, actions[0]), actions[1..]))
  }

  /** Tables and history agree at every point of the run. */
  ghost predicate AlwaysInStep(t: Shared, actions: seq<Action>)
    requires Runs(t, actions)
    decreases |actions|
  {
    InStep(t) && (actions != [] ==> AlwaysInStep(Step(t, actions[0]), actions[1..]))
  }

  /** Every commit of the run is harmless where it comes. */
  predicate CommitsHarmless(t: Shared, actions: seq<Action>)
    requires Runs(t, actions)
    decreases |actions|
  {
    actions == []
    || ((actions[0].CommitRows? ==> Harmless(t.log.segments, KeyOf(t, actions[0].f)))
        && CommitsHarmless(Step(t, actions[0]), actions[1..]))
  }

  lemma {:induction false} AlwaysInStepIff(t: Shared, actions: seq<Action>)
    requires Runs(t, actions) && FlushersHold(t) && InStep(t)
    ensures AlwaysInStep(t, actions) <==> CommitsHarmless(t, actions)
    decreases |actions|
  {
    if actions != [] {
      var a := actions[0];
      match a {
        case WriteRecord(r) => WriteKeeps(t, r);
        case ReadRows(f) => ReadKeeps(t, f);
        case StoreRows(f) => StoreKeeps(t, f);
        case CommitRows(f) => CommitKeepsIff(t, f);
      }
      if InStep(Step(t, a)) { AlwaysInStepIff(Step(t, a), actions[1..]); }
    }
  }

  /** Any number of processes flushing one source from an empty log: tables and history agree all the
      way if and only if every commit extends the segments, regrows the last one or repeats one. */
  lemma FlushersAgreeIff(source: string, flushers: nat, actions: seq<Action>)
    requires Runs(Empty(source, flushers), actions)
    ensures AlwaysInStep(Empty(source, flushers), actions) <==> CommitsHarmless(Empty(source, flushers), actions)
  {
    AlwaysInStepIff(Empty(source, flushers), actions);
  }

  // ----- a run in which they lose a record -----

  function StaleRun(a: Record, b: Record): seq<Action> {
    [WriteRecord(a)] + ([ReadRows(0)] + ([WriteRecord(b)] + ([ReadRows(1)] + LateRun())))
  }

  /** The second flusher finishes, and then the first. */
  function LateRun(): seq<Action> { [StoreRows(1)] + ([CommitRows(1)] + ([StoreRows(0)] + ([CommitRows(0)] + []))) }

  lemma RunOn(t: Shared, a: Action, rest: seq<Action>)
    requires Enabled(t, a)
    ensures Exec(t, [a] + rest) == Exec(Step(t, a), rest) && (Runs(t, [a] + rest) <==> Runs(Step(t, a), rest))
  {
    assert ([a] + rest)[1..] == rest;
  }

  /** Two processes flush one source: the first reads one row, the second reads two, stores and
      registers both, then the first stores and registers its one row over them. The second row is
      left in no segment and not pending, so no reader can reach it any more. */
  lemma StaleFlusherLosesARecord(source: string, a: Record, b: Record)
    requires a.op.Upsert? && b.op.Upsert? && a.entityId != b.entityId
    ensures var t := Exec(Empty(source, 2), StaleRun(a, b));
      && Runs(Empty(source, 2), StaleRun(a, b))
      && t.hist == [a.(seqNo := 0), b.(seqNo := 1)] && Contents(t.log, t.objects) == [a.(seqNo := 0)]
  {
    assert Empty(source, 2).flushers == [Resting, Resting];
    var t := EarlyRun(Empty(source, 2), a, b);
    LateRunLoses(t, a.(seqNo := 0), b.(seqNo := 1));
  }

  lemma EarlyRun(t: Shared, a: Record, b: Record) returns (q: Shared)
    requires t.log == EMPTY && t.hist == [] && t.flushers == [Resting, Resting]
    requires a.op.Upsert? && b.op.Upsert? && a.entityId != b.entityId
    ensures Exec(t, StaleRun(a, b)) == Exec(q, LateRun()) && (Runs(t, StaleRun(a, b)) <==> Runs(q, LateRun()))
    ensures q.hist == [a.(seqNo := 0), b.(seqNo := 1)] == q.log.pending && q.log.segments == []
    ensures q.flushers == [Holding([a.(seqNo := 0)]), Holding([a.(seqNo := 0), b.(seqNo := 1)])]
  {
    var x, y := a.(seqNo := 0), b.(seqNo := 1);
    var t2 := WroteAndRead(t, a, 0, [WriteRecord(b)] + ([ReadRows(1)] + LateRun()));
    assert t2.log.state == map[a.entityId := x] && t2.log.nextSeq == 1 && t2.log.pending == [x] && t2.hist == [x];
    assert t2.flushers == [Holding([x]), Resting];
    q := WroteAndRead(t2, b, 1, LateRun());
    assert q.hist == [x, y] && q.log.pending == [x, y];
    assert q.flushers == [Holding([x]), Holding([x, y])];
  }

  /** A record is written and a flusher reads what is pending. */
  lemma WroteAndRead(t: Shared, r: Record, f: nat, rest: seq<Action>) returns (q: Shared)
    requires f < |t.flushers| && t.flushers[f].Resting? && r.op.Upsert? && r.entityId !in t.log.state
    ensures Exec(t, [WriteRecord(r)] + ([ReadRows(f)] + rest)) == Exec(q, rest)
    ensures Runs(t, [WriteRecord(r)] + ([ReadRows(f)] + rest)) <==> Runs(q, rest)
    ensures var a := Numbered(t.log, r);
      q == t.(log := Append(t.log, r), hist := t.hist + [a], flushers := t.flushers[f := Holding(t.log.pending + [a])])
  {
    RunOn(t, WriteRecord(r), [ReadRows(f)] + rest);
    var mid := Step(t, WriteRecord(r));
    RunOn(mid, ReadRows(f), rest);
    q := Step(mid, ReadRows(f));
  }

  lemma LateRunLoses(t: Shared, x: Record, y: Record)
    requires x.seqNo == 0 && y.seqNo == 1 && t.log.segments == [] && t.log.pending == [x, y]
    requires t.flushers == [Holding([x]), Holding([x, y])]
    ensures var q := Exec(t, LateRun()); Runs(t, LateRun()) && q.hist == t.hist && Contents(q.log, q.objects) == [x]
  {
    var one, two := ObjectKey(t.source, 0, 0), ObjectKey(t.source, 0, 1);
    RunOn(t, StoreRows(1), [CommitRows(1)] + ([StoreRows(0)] + ([CommitRows(0)] + [])));
    var t1 := Step(t, StoreRows(1));
    RunOn(t1, CommitRows(1), [StoreRows(0)] + ([CommitRows(0)] + []));
    var t2 := Step(t1, CommitRows(1));
    DropTwo(x, y);
    assert t2.log.segments == [Segment(0, 1, two)] && t2.log.pending == [];
    RunOn(t2, StoreRows(0), [CommitRows(0)] + []);
    var t3 := Step(t2, StoreRows(0));
    RunOn(t3, CommitRows(0), []);
    var t4 := Step(t3, CommitRows(0));
    assert t2.log.segments[1..] == [];
    assert t4.log.segments == [Segment(0, 0, one)] && t4.log.pending == [] && t4.objects[one] == [x];
    LinesStep([], Segment(0, 0, one), t4.objects);
    assert [] + [Segment(0, 0, one)] == [Segment(0, 0, one)];
  }
}
