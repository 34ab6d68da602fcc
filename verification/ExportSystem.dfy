/** One source's log in motion: commits, any number of flush calls in the process, object puts that
    land late or fail, commits of a flush, and crashes, in any interleaving (src/exports/log.ts).
    The history `hist` is what the log should say; nothing reads it. */
module ExportSystem {
  import opened Basics
  import opened ExportRecords

  /** Where a flush call stands. It first waits for the call before it; once started it has read
      the pending rows; once the put is acknowledged it may commit. */
  datatype Phase = Waiting | Putting(rows: seq<Record>) | Stored(rows: seq<Record>) | Settled

  /** `prev` is the call it was chained behind, if any was registered. */
  datatype Task = Task(prev: Option<nat>, phase: Phase)

  /** `lock` is the flushLocks entry of the source; `issued` lists every put ever sent. */
  datatype System = System(
    source: string, log: SourceLog, objects: Objects, hist: seq<Record>,
    tasks: seq<Task>, lock: Option<nat>, issued: seq<Put>)

  datatype Put = Put(key: ObjectKey, body: seq<Record>)

  datatype Action =
    | DoAppend(r: Record)
    | CallFlush
    | StartFlush(t: nat)
    | PutLands(p: nat)
    | PutAcknowledged(t: nat)
    | PutFails(t: nat)
    | CommitFlush(t: nat)
    | CommitFails(t: nat)
    | ReleaseLock(t: nat)
    | Crash

  function Init(source: string): System { System(source, EMPTY, map[], [], [], None, []) }

  predicate MayStart(s: System, t: nat) {
    && t < |s.tasks| && s.tasks[t].phase.Waiting?
    && (s.tasks[t].prev.Some? ==> s.tasks[t].prev.value < t && s.tasks[s.tasks[t].prev.value].phase.Settled?)
  }

  predicate Enabled(s: System, a: Action) {
    match a
    case DoAppend(_) => true
    case CallFlush => true
    case StartFlush(t) => MayStart(s, t)
    case PutLands(p) => p < |s.issued|
    case PutAcknowledged(t) => t < |s.tasks| && s.tasks[t].phase.Putting? && s.tasks[t].phase.rows != []
    case PutFails(t) => t < |s.tasks| && s.tasks[t].phase.Putting?
    case CommitFlush(t) => t < |s.tasks| && s.tasks[t].phase.Stored? && s.tasks[t].phase.rows != []
    case CommitFails(t) => t < |s.tasks| && s.tasks[t].phase.Stored?
    case ReleaseLock(t) => t < |s.tasks| && s.tasks[t].phase.Settled?
    case Crash => true
  }

  function SetPhase(s: System, t: nat, phase: Phase): System
    requires t < |s.tasks|
  {
    s.(tasks := s.tasks[t := s.tasks[t].(phase := phase)])
  }

  function Step(s: System, a: Action): System
    requires Enabled(s, a)
  {
    match a
    case DoAppend(r) =>
      if IsNoop(s.log.state, r) then s
      else s.(log := Append(s.log, r), hist := s.hist + [Numbered(s.log, r)])
    case CallFlush => s.(tasks := s.tasks + [Task(s.lock, Waiting)], lock := Some(|s.tasks|))
    case StartFlush(t) =>
      var rows := s.log.pending;
      if rows == [] then SetPhase(s, t, Settled)
      else SetPhase(s, t, Putting(rows)).(issued := s.issued + [Put(KeyFor(s.source, rows), rows)])
    case PutLands(p) => s.(objects := s.objects[s.issued[p].key := s.issued[p].body])
    case PutAcknowledged(t) =>
      var rows := s.tasks[t].phase.rows;
      SetPhase(s, t, Stored(rows)).(objects := s.objects[KeyFor(s.source, rows) := rows])
    case PutFails(t) => SetPhase(s, t, Settled)
    case CommitFlush(t) => SetPhase(s, t, Settled).(log := Commit(s.log, KeyFor(s.source, s.tasks[t].phase.rows)))
    case CommitFails(t) => SetPhase(s, t, Settled)
    case ReleaseLock(t) => if s.lock == Some(t) then s.(lock := None) else s
    case Crash => s.(tasks := [], lock := None)
  }

  /** Run a schedule; an action that is not enabled does nothing. */
  function Exec(s: System, actions: seq<Action>): System
    decreases |actions|
  {
    if actions == [] then s
    else Exec(if Enabled(s, actions[0]) then Step(s, actions[0]) else s, actions[1..])
  }

  // ----- the invariant -----

  /** Everything before task `t` is settled. */
  ghost predicate SettledBefore(tasks: seq<Task>, t: int) {
    forall i | 0 <= i < t && i < |tasks| :: tasks[i].phase.Settled?
  }

  /** The promise chain: the lock names the newest call, every call waits for the one before it
      or started when none was left. */
  ghost predicate Chained(tasks: seq<Task>, lock: Option<nat>) {
    && (lock.Some? ==> lock.value + 1 == |tasks|)
    && (lock.None? ==> SettledBefore(tasks, |tasks|))
    && (forall t | 0 <= t < |tasks| :: tasks[t].prev.Some? ==> tasks[t].prev.value + 1 == t)
    && (forall t | 0 <= t < |tasks| :: tasks[t].prev.None? || !tasks[t].phase.Waiting? ==> SettledBefore(tasks, t))
  }

  ghost predicate PutHolds(p: Put, h: seq<Record>) {
    && p.key.startSeq <= p.key.endSeq < |h|
    && p.body == h[p.key.startSeq..p.key.endSeq + 1]
  }

  /** Every started flush holds the front of the pending table; a stored one also has its object. */
  ghost predicate TasksHold(source: string, tasks: seq<Task>, pending: seq<Record>, objects: Objects) {
    forall t | 0 <= t < |tasks| :: TaskHolds(source, tasks[t].phase, pending, objects)
  }

  ghost predicate TaskHolds(source: string, phase: Phase, pending: seq<Record>, objects: Objects) {
    match phase
    case Putting(rows) => rows != [] && rows <= pending
    case Stored(rows) => rows != [] && rows <= pending && StoredAs(KeyFor(source, rows), rows, objects)
    case _ => true
  }

  ghost predicate StoredAs(key: ObjectKey, body: seq<Record>, objects: Objects) {
    key in objects && objects[key] == body
  }

  /** Every put ever sent, and every object, carries the stretch of history its key names. */
  ghost predicate PutsHold(issued: seq<Put>, h: seq<Record>) {
    forall p | 0 <= p < |issued| :: PutHolds(issued[p], h)
  }

  ghost predicate ObjectsHold(objects: Objects, h: seq<Record>) {
    forall k | k in objects :: PutHolds(Put(k, objects[k]), h)
  }

  ghost predicate Inv(s: System) {
    && Consistent(s.log, s.objects, s.hist)
    && NoRepeats(s.hist)
    && Chained(s.tasks, s.lock)
    && TasksHold(s.source, s.tasks, s.log.pending, s.objects)
    && PutsHold(s.issued, s.hist)
    && ObjectsHold(s.objects, s.hist)
  }

  // ----- step lemmas -----

  /** A front piece of the pending table is a stretch of the history starting where segments end. */
  lemma FrontRows(src: string, log: SourceLog, objects: Objects, h: seq<Record>, rows: seq<Record>)
    requires Consistent(log, objects, h) && rows != [] && rows <= log.pending
    ensures KeyFor(src, rows).startSeq == Flushed(log.segments)
    ensures KeyFor(src, rows).endSeq + 1 == Flushed(log.segments) + |rows| <= |h|
    ensures rows == h[KeyFor(src, rows).startSeq..KeyFor(src, rows).endSeq + 1]
    ensures PutHolds(Put(KeyFor(src, rows), rows), h)
  {
    FrontSlice(h, Flushed(log.segments), rows);
  }

  lemma FrontSlice(h: seq<Record>, f: nat, rows: seq<Record>)
    requires f <= |h| && rows != [] && rows <= h[f..]
    ensures f + |rows| <= |h| && rows == h[f..f + |rows|]
    ensures rows[0] == h[f] && rows[|rows| - 1] == h[f + |rows| - 1]
  {
  }

  lemma GrowPut(p: Put, h: seq<Record>, r: Record)
    requires PutHolds(p, h)
    ensures PutHolds(p, h + [r])
  {
    assert (h + [r])[p.key.startSeq..p.key.endSeq + 1] == h[p.key.startSeq..p.key.endSeq + 1];
  }

  lemma TilesGrow(segments: seq<Segment>, objects: Objects, h: seq<Record>, a: Record)
    requires Tiles(segments, objects, h)
    ensures Tiles(segments, objects, h + [a])
  {
    forall i | 0 <= i < |segments| ensures SegmentHolds(segments[i], objects, h + [a]) {
      var s := segments[i];
      assert SegmentHolds(s, objects, h);
      assert (h + [a])[s.startSeq..s.endSeq + 1] == h[s.startSeq..s.endSeq + 1];
    }
  }

  lemma NoRepeatsGrow(h: seq<Record>, a: Record)
    requires NoRepeats(h) && !IsNoop(Fold(h), a)
    ensures NoRepeats(h + [a])
  {
    forall k | 0 <= k < |h + [a]| ensures !IsNoop(Fold((h + [a])[..k]), (h + [a])[k]) {
      assert (h + [a])[..k] == h[..k];
      assert h[..|h|] == h;
    }
  }

  lemma AppendConsistent(log: SourceLog, objects: Objects, h: seq<Record>, r: Record)
    requires Consistent(log, objects, h) && !IsNoop(log.state, r)
    ensures Consistent(Append(log, r), objects, h + [Numbered(log, r)])
  {
    var a := Numbered(log, r);
    FoldStep(h, a);
    TilesGrow(log.segments, objects, h, a);
    SliceGrow(h, Flushed(log.segments), a);
  }

  lemma SliceGrow(h: seq<Record>, f: nat, a: Record)
    requires f <= |h|
    ensures (h + [a])[f..] == h[f..] + [a]
  {
  }

  lemma {:induction false} DropFront(pending: seq<Record>, n: nat, base: nat)
    requires n <= |pending| && forall i | 0 <= i < |pending| :: pending[i].seqNo == base + i
    ensures base + n > 0 ==> DropThrough(pending, base + n - 1) == pending[n..]
  {
    if pending != [] && base + n > 0 {
      assert forall i | 0 <= i < |pending| - 1 :: pending[1..][i].seqNo == base + 1 + i;
      if n > 0 {
        DropFront(pending[1..], n - 1, base + 1);
      } else {
        KeepAll(pending, base - 1);
      }
    }
  }

  lemma {:induction false} KeepAll(pending: seq<Record>, endSeq: nat)
    requires forall i | 0 <= i < |pending| :: pending[i].seqNo > endSeq
    ensures DropThrough(pending, endSeq) == pending
  {
    if pending != [] { KeepAll(pending[1..], endSeq); }
  }

  /** A start beyond every registered one is added at the end. */
  lemma {:induction false} UpsertLast(segments: seq<Segment>, s: Segment)
    requires forall i | 0 <= i < |segments| :: segments[i].startSeq < s.startSeq
    ensures UpsertSegment(segments, s) == segments + [s]
  {
    if segments != [] { UpsertLast(segments[1..], s); }
  }

  lemma {:induction false} StartsAscend(segments: seq<Segment>, objects: Objects, h: seq<Record>, i: nat)
    requires Tiles(segments, objects, h) && i < |segments|
    ensures segments[i].endSeq < Flushed(segments)
    decreases |segments| - i
  {
    if i + 1 < |segments| {
      StartsAscend(segments, objects, h, i + 1);
      assert SegmentHolds(segments[i + 1], objects, h);
    }
  }

  /** Committing a stored front piece moves it from the pending table to the segment table. */
  lemma CommitConsistent(src: string, log: SourceLog, objects: Objects, h: seq<Record>, rows: seq<Record>)
    requires Consistent(log, objects, h) && rows != [] && rows <= log.pending
    requires StoredAs(KeyFor(src, rows), rows, objects)
    ensures Consistent(Commit(log, KeyFor(src, rows)), objects, h)
    ensures Commit(log, KeyFor(src, rows)).segments
              == log.segments + [Segment(KeyFor(src, rows).startSeq, KeyFor(src, rows).endSeq, KeyFor(src, rows))]
    ensures Commit(log, KeyFor(src, rows)).pending == log.pending[|rows|..]
  {
    FrontRows(src, log, objects, h, rows);
    CommitFront(log, objects, h, KeyFor(src, rows), |rows|);
  }

  lemma CommitFront(log: SourceLog, objects: Objects, h: seq<Record>, key: ObjectKey, n: nat)
    requires Consistent(log, objects, h) && 0 < n <= |log.pending|
    requires key.startSeq == Flushed(log.segments) && key.endSeq + 1 == Flushed(log.segments) + n
    requires SegmentHolds(Segment(key.startSeq, key.endSeq, key), objects, h)
    ensures Consistent(Commit(log, key), objects, h)
    ensures Commit(log, key).segments == log.segments + [Segment(key.startSeq, key.endSeq, key)]
    ensures Commit(log, key).pending == log.pending[n..]
  {
    CommitShape(log, objects, h, key, n);
    TilesExtend(log.segments, objects, h, Segment(key.startSeq, key.endSeq, key));
    SliceDrop(h, Flushed(log.segments), n);
  }

  /** What the two statements of a commit do when the key names the front of the pending table. */
  lemma CommitShape(log: SourceLog, objects: Objects, h: seq<Record>, key: ObjectKey, n: nat)
    requires Consistent(log, objects, h) && 0 < n <= |log.pending|
    requires key.startSeq == Flushed(log.segments) && key.endSeq + 1 == Flushed(log.segments) + n
    ensures UpsertSegment(log.segments, Segment(key.startSeq, key.endSeq, key))
        == log.segments + [Segment(key.startSeq, key.endSeq, key)]
    ensures DropThrough(log.pending, key.endSeq) == log.pending[n..]
  {
    SegmentGoesLast(log.segments, objects, h, Segment(key.startSeq, key.endSeq, key));
    DropPending(h, Flushed(log.segments), n);
  }

  lemma SegmentGoesLast(segments: seq<Segment>, objects: Objects, h: seq<Record>, s: Segment)
    requires Tiles(segments, objects, h) && s.startSeq == Flushed(segments)
    ensures UpsertSegment(segments, s) == segments + [s]
  {
    StartsBelow(segments, objects, h);
    UpsertLast(segments, s);
  }

  lemma DropPending(h: seq<Record>, f: nat, n: nat)
    requires Numbering(h) && f <= |h| && 0 < n <= |h| - f
    ensures DropThrough(h[f..], f + n - 1) == h[f..][n..]
  {
    DropFront(h[f..], n, f);
  }

  lemma StartsBelow(segments: seq<Segment>, objects: Objects, h: seq<Record>)
    requires Tiles(segments, objects, h)
    ensures forall i | 0 <= i < |segments| :: segments[i].startSeq < Flushed(segments)
  {
    forall i | 0 <= i < |segments| ensures segments[i].startSeq < Flushed(segments) {
      assert SegmentHolds(segments[i], objects, h);
      StartsAscend(segments, objects, h, i);
    }
  }

  lemma TilesExtend(segments: seq<Segment>, objects: Objects, h: seq<Record>, seg: Segment)
    requires Tiles(segments, objects, h) && SegmentHolds(seg, objects, h) && seg.startSeq == Flushed(segments)
    ensures Tiles(segments + [seg], objects, h) && Flushed(segments + [seg]) == seg.endSeq + 1
  {
    var t := segments + [seg];
    forall i | 0 <= i < |t| ensures SegmentHolds(t[i], objects, h) {
      if i < |segments| { assert t[i] == segments[i] && SegmentHolds(segments[i], objects, h); }
    }
  }

  lemma SliceDrop(h: seq<Record>, f: nat, n: nat)
    requires f + n <= |h|
    ensures h[f..][n..] == h[f + n..]
  {
  }

  /** Storing an object under a key keeps every registered segment readable, because a key
      determines its body. */
  lemma PutConsistent(log: SourceLog, objects: Objects, h: seq<Record>, p: Put)
    requires Consistent(log, objects, h) && PutHolds(p, h)
    requires forall k | k in objects :: PutHolds(Put(k, objects[k]), h)
    ensures Consistent(log, objects[p.key := p.body], h)
    ensures p.key in objects ==> objects[p.key] == p.body
  {
    if p.key in objects {
      assert PutHolds(Put(p.key, objects[p.key]), h);
    }
    forall i | 0 <= i < |log.segments| ensures SegmentHolds(log.segments[i], objects[p.key := p.body], h) {
      assert SegmentHolds(log.segments[i], objects, h);
    }
  }

  /** At most one flush call is past waiting and not settled. */
  lemma OnlyOneRuns(s: System, t: nat, u: nat)
    requires Chained(s.tasks, s.lock) && t < u < |s.tasks|
    requires s.tasks[u].phase.Putting? || s.tasks[u].phase.Stored?
    ensures s.tasks[t].phase.Settled?
  {
    assert SettledBefore(s.tasks, u);
  }

  // ----- the invariant holds after every schedule -----

  lemma TasksGrow(source: string, tasks: seq<Task>, pending: seq<Record>, objects: Objects, a: Record)
    requires TasksHold(source, tasks, pending, objects)
    ensures TasksHold(source, tasks, pending + [a], objects)
  {
    forall t | 0 <= t < |tasks| ensures TaskHolds(source, tasks[t].phase, pending + [a], objects) {
      assert TaskHolds(source, tasks[t].phase, pending, objects);
    }
  }

  lemma PutsGrow(issued: seq<Put>, objects: Objects, h: seq<Record>, a: Record)
    requires PutsHold(issued, h) && ObjectsHold(objects, h)
    ensures PutsHold(issued, h + [a]) && ObjectsHold(objects, h + [a])
  {
    forall p | 0 <= p < |issued| ensures PutHolds(issued[p], h + [a]) { GrowPut(issued[p], h, a); }
    forall k | k in objects ensures PutHolds(Put(k, objects[k]), h + [a]) { GrowPut(Put(k, objects[k]), h, a); }
  }

  lemma AppendKeepsInv(s: System, r: Record)
    requires Inv(s) && !IsNoop(s.log.state, r)
    ensures Inv(Step(s, DoAppend(r)))
  {
    var a := Numbered(s.log, r);
    AppendConsistent(s.log, s.objects, s.hist, r);
    NoRepeatsGrow(s.hist, a);
    TasksGrow(s.source, s.tasks, s.log.pending, s.objects, a);
    PutsGrow(s.issued, s.objects, s.hist, a);
  }

  lemma StartKeepsInv(s: System, t: nat)
    requires Inv(s) && MayStart(s, t)
    ensures Inv(Step(s, StartFlush(t)))
  {
    ChainStart(s.tasks, s.lock, t);
    var rows := s.log.pending;
    if rows == [] {
      ChainStarted(s.tasks, s.lock, t, Settled);
      SetPhaseHolds(s.source, s.tasks, rows, s.objects, t, Settled);
    } else {
      ChainStarted(s.tasks, s.lock, t, Putting(rows));
      SetPhaseHolds(s.source, s.tasks, rows, s.objects, t, Putting(rows));
      FrontRows(s.source, s.log, s.objects, s.hist, rows);
      IssueHolds(s.issued, s.hist, Put(KeyFor(s.source, rows), rows));
    }
  }

  lemma IssueHolds(issued: seq<Put>, h: seq<Record>, p: Put)
    requires PutsHold(issued, h) && PutHolds(p, h)
    ensures PutsHold(issued + [p], h)
  {
  }

  lemma ChainStarted(tasks: seq<Task>, lock: Option<nat>, t: nat, phase: Phase)
    requires Chained(tasks, lock) && t < |tasks| && tasks[t].phase.Waiting? && SettledBefore(tasks, t)
        && !phase.Waiting?
    ensures Chained(tasks[t := tasks[t].(phase := phase)], lock)
  {
    var tasks' := tasks[t := tasks[t].(phase := phase)];
    assert forall u | 0 <= u <= |tasks| && SettledBefore(tasks, u) :: SettledBefore(tasks', u);
  }

  /** A call that may start is the oldest one not settled. */
  lemma ChainStart(tasks: seq<Task>, lock: Option<nat>, t: nat)
    requires Chained(tasks, lock) && t < |tasks|
    requires tasks[t].prev.Some? ==> tasks[t].prev.value < t && tasks[tasks[t].prev.value].phase.Settled?
    ensures SettledBefore(tasks, t)
  {
    if tasks[t].prev.Some? {
      assert SettledBefore(tasks, t - 1);
    }
  }

  lemma TasksStore(source: string, tasks: seq<Task>, pending: seq<Record>, objects: Objects, p: Put)
    requires TasksHold(source, tasks, pending, objects)
    requires p.key in objects ==> objects[p.key] == p.body
    ensures TasksHold(source, tasks, pending, objects[p.key := p.body])
  {
    forall t | 0 <= t < |tasks| ensures TaskHolds(source, tasks[t].phase, pending, objects[p.key := p.body]) {
      assert TaskHolds(source, tasks[t].phase, pending, objects);
    }
  }

  lemma StoreKeepsInv(s: System, p: Put)
    requires Inv(s) && PutHolds(p, s.hist)
    ensures Inv(s.(objects := s.objects[p.key := p.body]))
  {
    PutConsistent(s.log, s.objects, s.hist, p);
    TasksStore(s.source, s.tasks, s.log.pending, s.objects, p);
  }

  lemma ChainPhase(tasks: seq<Task>, lock: Option<nat>, t: nat, phase: Phase)
    requires Chained(tasks, lock) && t < |tasks|
    requires phase.Settled? ==> !tasks[t].phase.Waiting? || SettledBefore(tasks, t)
    requires !phase.Settled? ==> !phase.Waiting? && !tasks[t].phase.Waiting? && !tasks[t].phase.Settled?
    ensures Chained(tasks[t := tasks[t].(phase := phase)], lock)
  {
    var tasks' := tasks[t := tasks[t].(phase := phase)];
    forall u | 0 <= u <= |tasks| && SettledBefore(tasks, u) ensures SettledBefore(tasks', u) {
    }
  }

  lemma AcknowledgeKeepsInv(s: System, t: nat)
    requires Inv(s) && Enabled(s, PutAcknowledged(t))
    ensures Inv(Step(s, PutAcknowledged(t)))
  {
    var rows := s.tasks[t].phase.rows;
    assert TaskHolds(s.source, s.tasks[t].phase, s.log.pending, s.objects);
    FrontRows(s.source, s.log, s.objects, s.hist, rows);
    var p := Put(KeyFor(s.source, rows), rows);
    StoreKeepsInv(s, p);
    ChainPhase(s.tasks, s.lock, t, Stored(rows));
    SetPhaseHolds(s.source, s.tasks, s.log.pending, s.objects[p.key := p.body], t, Stored(rows));
  }

  lemma SetPhaseHolds(source: string, tasks: seq<Task>, pending: seq<Record>, objects: Objects, t: nat, phase: Phase)
    requires TasksHold(source, tasks, pending, objects) && t < |tasks| && TaskHolds(source, phase, pending, objects)
    ensures TasksHold(source, tasks[t := tasks[t].(phase := phase)], pending, objects)
  {
  }

  lemma CommitKeepsInv(s: System, t: nat)
    requires Inv(s) && Enabled(s, CommitFlush(t))
    ensures Inv(Step(s, CommitFlush(t)))
  {
    var rows := s.tasks[t].phase.rows;
    assert TaskHolds(s.source, s.tasks[t].phase, s.log.pending, s.objects);
    CommitConsistent(s.source, s.log, s.objects, s.hist, rows);
    ChainPhase(s.tasks, s.lock, t, Settled);
    OthersIdle(s.tasks, s.lock, t);
    var s' := Step(s, CommitFlush(t));
    forall u | 0 <= u < |s'.tasks| ensures TaskHolds(s.source, s'.tasks[u].phase, s'.log.pending, s.objects) {
      assert u == t || s'.tasks[u] == s.tasks[u];
    }
  }

  lemma OthersIdle(tasks: seq<Task>, lock: Option<nat>, t: nat)
    requires Chained(tasks, lock) && t < |tasks| && (tasks[t].phase.Putting? || tasks[t].phase.Stored?)
    ensures forall u | 0 <= u < |tasks| && u != t :: tasks[u].phase.Waiting? || tasks[u].phase.Settled?
  {
    assert SettledBefore(tasks, t);
    forall u | t < u < |tasks| ensures tasks[u].phase.Waiting? {
      assert tasks[u].phase.Waiting? || SettledBefore(tasks, u);
    }
  }

  lemma SettleKeepsInv(s: System, t: nat)
    requires Inv(s) && t < |s.tasks| && !s.tasks[t].phase.Waiting?
    ensures Inv(SetPhase(s, t, Settled))
  {
    ChainPhase(s.tasks, s.lock, t, Settled);
    SetPhaseHolds(s.source, s.tasks, s.log.pending, s.objects, t, Settled);
  }

  lemma CallKeepsChain(tasks: seq<Task>, lock: Option<nat>)
    requires Chained(tasks, lock)
    ensures Chained(tasks + [Task(lock, Waiting)], Some(|tasks|))
  {
    var tasks' := tasks + [Task(lock, Waiting)];
    forall u | 0 <= u <= |tasks| && SettledBefore(tasks, u) ensures SettledBefore(tasks', u) {
    }
  }

  lemma ReleaseKeepsChain(tasks: seq<Task>, lock: Option<nat>, t: nat)
    requires Chained(tasks, lock) && t < |tasks| && tasks[t].phase.Settled? && lock == Some(t)
    ensures Chained(tasks, None)
  {
    assert SettledBefore(tasks, t);
  }

  lemma StepKeepsInv(s: System, a: Action)
    requires Inv(s) && Enabled(s, a)
    ensures Inv(Step(s, a))
  {
    match a
    case DoAppend(r) => if !IsNoop(s.log.state, r) { AppendKeepsInv(s, r); }
    case StartFlush(t) => StartKeepsInv(s, t);
    case PutLands(p) => StoreKeepsInv(s, s.issued[p]);
    case PutAcknowledged(t) => AcknowledgeKeepsInv(s, t);
    case CommitFlush(t) => CommitKeepsInv(s, t);
    case CallFlush => CallKeepsChain(s.tasks, s.lock);
    case PutFails(t) => SettleKeepsInv(s, t);
    case CommitFails(t) => SettleKeepsInv(s, t);
    case ReleaseLock(t) => if s.lock == Some(t) { ReleaseKeepsChain(s.tasks, s.lock, t); }
    case Crash =>
  }

  lemma {:induction false} ExecKeepsInv(s: System, actions: seq<Action>)
    requires Inv(s)
    ensures Inv(Exec(s, actions))
    decreases |actions|
  {
    if actions != [] {
      if Enabled(s, actions[0]) { StepKeepsInv(s, actions[0]); }
      ExecKeepsInv(if Enabled(s, actions[0]) then Step(s, actions[0]) else s, actions[1..]);
    }
  }

  /** After any schedule from an empty log. */
  lemma AlwaysConsistent(source: string, actions: seq<Action>)
    ensures Inv(Exec(Init(source), actions))
  {
    ExecKeepsInv(Init(source), actions);
  }
}
