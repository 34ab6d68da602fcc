/** The pass that repairs a source's records (src/pipeline/repair_ibabs_times.ts): a walk over the
    snapshot of a log that appends to that log as it goes, nobody else writing. */
module RepairIbabsTimes {
  import opened Basics
  import opened EntityCommit
  import opened ExportRecords
  import opened ExportReads
  import opened ExportConsumer
  import opened ExportLog
  import opened RepairRecords

  // ----- the records of a page -----

  function RepairAll(fix: Fix, log: SourceLog, rs: seq<Record>): SourceLog {
    if rs == [] then log else RepairOne(fix, RepairAll(fix, log, rs[..|rs| - 1]), rs[|rs| - 1])
  }

  ghost predicate LiveRecords(state: State, rs: seq<Record>) {
    forall i | 0 <= i < |rs| :: rs[i].entityId in state && state[rs[i].entityId] == rs[i] && rs[i].op.Upsert?
  }

  /** What a repair leaves of a record that was live: itself when it needs nothing, or when its hash
      is already that of the repaired payload; otherwise the repaired record. */
  predicate LeftAs(fix: Fix, was: Record, now: Record) {
    match PlanRepair(fix, was)
    case None => now == was
    case Some(payload) =>
      if was.contentHash == Some(Stringify(payload)) then now == was
      else now == RepairedRecord(fix, was, payload).(seqNo := now.seqNo)
  }

  /** The entities named by `rs` are as a repair leaves them, all others as they were. */
  ghost predicate RepairedIn(fix: Fix, before: State, after: State, rs: seq<Record>) {
    && after.Keys == before.Keys && Keyed(after)
    && (forall i | 0 <= i < |rs| :: rs[i].entityId in after && LeftAs(fix, rs[i], after[rs[i].entityId]))
    && (forall id | id in before && !Touched(rs, id) :: after[id] == before[id])
  }

  lemma RepairAllStep(fix: Fix, log: SourceLog, p: seq<Record>, r: Record)
    ensures RepairAll(fix, log, p + [r]) == RepairOne(fix, RepairAll(fix, log, p), r)
  {
    assert (p + [r])[..|p + [r]| - 1] == p;
  }

  /** Live, distinct records but for the last are the same, and the last is none of them. */
  lemma FrontOf(state: State, p: seq<Record>, r: Record)
    requires LiveRecords(state, p + [r]) && DistinctIds(p + [r])
    ensures LiveRecords(state, p) && DistinctIds(p) && !Touched(p, r.entityId)
    ensures r.entityId in state && state[r.entityId] == r && r.op.Upsert?
  {
    var rs := p + [r];
    assert rs[|p|] == r && forall i | 0 <= i < |p| :: rs[i] == p[i];
  }

  lemma {:induction false} PageRepaired(fix: Fix, log: SourceLog, rs: seq<Record>)
    requires Keyed(log.state) && LiveRecords(log.state, rs) && DistinctIds(rs)
    ensures RepairedIn(fix, log.state, RepairAll(fix, log, rs).state, rs)
  {
    if rs != [] {
      var p, r := rs[..|rs| - 1], rs[|rs| - 1];
      assert rs == p + [r];
      FrontOf(log.state, p, r);
      PageRepaired(fix, log, p);
      RepairAllStep(fix, log, p, r);
      NextRepaired(fix, log.state, RepairAll(fix, log, p), p, r);
    }
  }

  lemma NextRepaired(fix: Fix, before: State, mid: SourceLog, p: seq<Record>, r: Record)
    requires RepairedIn(fix, before, mid.state, p) && !Touched(p, r.entityId)
    requires r.entityId in before && before[r.entityId] == r && r.op.Upsert?
    ensures RepairedIn(fix, before, RepairOne(fix, mid, r).state, p + [r])
  {
    OneRepaired(fix, mid, r);
    JoinRepaired(fix, before, mid.state, RepairOne(fix, mid, r).state, p, r);
  }

  lemma OneRepaired(fix: Fix, log: SourceLog, r: Record)
    requires Keyed(log.state) && r.entityId in log.state && log.state[r.entityId] == r && r.op.Upsert?
    ensures RepairedNext(fix, log.state, RepairOne(fix, log, r).state, r)
  {
  }

  /** One more record repaired, every other entity as it was after the ones before. */
  ghost predicate RepairedNext(fix: Fix, mid: State, after: State, r: Record) {
    && after.Keys == mid.Keys && Keyed(after) && r.entityId in after && LeftAs(fix, r, after[r.entityId])
    && forall id | id in mid && id != r.entityId :: after[id] == mid[id]
  }

  lemma JoinRepaired(fix: Fix, before: State, mid: State, after: State, p: seq<Record>, r: Record)
    requires RepairedIn(fix, before, mid, p) && RepairedNext(fix, mid, after, r) && !Touched(p, r.entityId)
    ensures RepairedIn(fix, before, after, p + [r])
  {
    var rs := p + [r];
    forall i | 0 <= i < |rs| ensures rs[i].entityId in after && LeftAs(fix, rs[i], after[rs[i].entityId]) {
      if i < |p| { EarlierKept(fix, before, mid, after, p, r, i); }
    }
    forall id | id in before && !Touched(rs, id) ensures after[id] == before[id] {
      TouchedConcat(p, [r], id);
      assert Touched([r], r.entityId) by { assert [r][0].entityId == r.entityId; }
    }
  }

  lemma EarlierKept(fix: Fix, before: State, mid: State, after: State, p: seq<Record>, r: Record, i: nat)
    requires RepairedIn(fix, before, mid, p) && RepairedNext(fix, mid, after, r) && !Touched(p, r.entityId) && i < |p|
    ensures p[i].entityId in after && LeftAs(fix, p[i], after[p[i].entityId])
  {
    assert p[i].entityId != r.entityId;
  }

  lemma {:induction false} RepairAllJoin(fix: Fix, log: SourceLog, a: seq<Record>, b: seq<Record>)
    ensures RepairAll(fix, RepairAll(fix, log, a), b) == RepairAll(fix, log, a + b)
    decreases |b|
  {
    if b == [] {
      assert a + b == a;
    } else {
      RepairAllJoin(fix, log, a, b[..|b| - 1]);
      RepairAllStep(fix, log, a + b[..|b| - 1], b[|b| - 1]);
      assert a + b == a + b[..|b| - 1] + [b[|b| - 1]];
    }
  }

  lemma {:induction false} OthersKept(fix: Fix, log: SourceLog, rs: seq<Record>, id: string)
    requires !Touched(rs, id)
    ensures SameAt(RepairAll(fix, log, rs).state, log.state, id)
  {
    if rs != [] {
      var p, r := rs[..|rs| - 1], rs[|rs| - 1];
      assert forall i | 0 <= i < |p| :: p[i] == rs[i];
      OthersKept(fix, log, p, id);
      assert r.entityId != id;
    }
  }

  /** How many of the records need a repair. */
  function Planned(fix: Fix, rs: seq<Record>): nat {
    if rs == [] then 0 else Planned(fix, rs[..|rs| - 1]) + if PlanRepair(fix, rs[|rs| - 1]).Some? then 1 else 0
  }

  lemma {:induction false} PlannedConcat(fix: Fix, a: seq<Record>, b: seq<Record>)
    ensures Planned(fix, a + b) == Planned(fix, a) + Planned(fix, b)
    decreases |b|
  {
    if b == [] {
      assert a + b == a;
    } else {
      PlannedConcat(fix, a, b[..|b| - 1]);
      assert (a + b)[..|a + b| - 1] == a + b[..|b| - 1];
    }
  }

  /** The repairs of a page's records, in order. */
  function Repairs(fix: Fix, rs: seq<Record>): seq<Record> {
    if rs == [] then []
    else
      var r := rs[|rs| - 1];
      Repairs(fix, rs[..|rs| - 1])
      + match PlanRepair(fix, r) case Some(payload) => [RepairedRecord(fix, r, payload)] case None => []
  }

  lemma {:induction false} RepairsAre(fix: Fix, log: SourceLog, rs: seq<Record>)
    ensures RepairAll(fix, log, rs) == AppendAll(log, Repairs(fix, rs)) && Planned(fix, rs) == |Repairs(fix, rs)|
  {
    if rs != [] {
      var p, r := rs[..|rs| - 1], rs[|rs| - 1];
      RepairsAre(fix, log, p);
      var plan := PlanRepair(fix, r);
      if plan.Some? {
        AppendAllStep(log, Repairs(fix, p), RepairedRecord(fix, r, plan.value));
      } else {
        assert Repairs(fix, p) + [] == Repairs(fix, p);
      }
    }
  }

  /** Planning looks at nothing but the record. */
  method PlanPage(records: seq<Record>, fix: Fix) returns (repairs: seq<Record>)
    ensures repairs == Repairs(fix, records)
  {
    repairs := [];
    var i := 0;
    while i < |records|
      invariant i <= |records| && repairs == Repairs(fix, records[..i])
    {
      assert records[..i + 1][..i] == records[..i];
      var repair := PlanRepair(fix, records[i]);
      if repair.Some? {
        repairs := repairs + [RepairedRecord(fix, records[i], repair.value)];
      }
      i := i + 1;
    }
    assert records[..i] == records;
  }

  ghost predicate FromSource(rs: seq<Record>, source: string) {
    forall i | 0 <= i < |rs| :: rs[i].sourceKey == source
  }

  lemma {:induction false} RepairsFromSource(fix: Fix, rs: seq<Record>, source: string)
    requires FromSource(rs, source)
    ensures FromSource(Repairs(fix, rs), source)
  {
    if rs != [] { RepairsFromSource(fix, rs[..|rs| - 1], source); }
  }

  lemma AppendAllNext(log: SourceLog, rs: seq<Record>, i: nat)
    requires i < |rs|
    ensures AppendAll(log, rs[..i + 1]) == Append(AppendAll(log, rs[..i]), rs[i])
  {
    assert rs[..i] + [rs[i]] == rs[..i + 1];
    AppendAllStep(log, rs[..i], rs[i]);
  }

  method AppendRepairs(log: ExportChangesLog, repairs: seq<Record>)
    requires log.Valid() && FromSource(repairs, log.source)
    modifies log
    ensures log.Valid() && log.View() == AppendAll(old(log.View()), repairs) && old(log.hist) <= log.hist
  {
    ghost var was, h := log.View(), log.hist;
    var i := 0;
    while i < |repairs|
      invariant i <= |repairs| && log.Valid() && log.View() == AppendAll(was, repairs[..i]) && h <= log.hist
    {
      AppendAllNext(was, repairs, i);
      AppendOne(log, repairs[i]);
      i := i + 1;
    }
    assert repairs[..i] == repairs;
  }

  method AppendOne(log: ExportChangesLog, r: Record)
    requires log.Valid() && r.sourceKey == log.source
    modifies log
    ensures log.Valid() && log.View() == Append(old(log.View()), r) && old(log.hist) <= log.hist
  {
    var written := log.Append(r);
  }

  /** The repairs of one page, appended if they are to be applied. */
  method RepairPage(log: ExportChangesLog, records: seq<Record>, apply: bool, fix: Fix) returns (repaired: nat)
    requires log.Valid() && FromSource(records, log.source)
    modifies log
    ensures log.Valid() && repaired == Planned(fix, records) && old(log.hist) <= log.hist
    ensures log.View() == if apply then RepairAll(fix, old(log.View()), records) else old(log.View())
  {
    var repairs := PlanPage(records, fix);
    RepairsAre(fix, log.View(), records);
    RepairsFromSource(fix, records, log.source);
    repaired := |repairs|;
    if apply {
      AppendRepairs(log, repairs);
    }
  }

  // ----- the walk -----

  lemma SameLive(state: State, before: State, cursor: string)
    requires forall id | Less(cursor, id) :: SameAt(state, before, id)
    ensures LiveAfter(state, cursor) == LiveAfter(before, cursor)
    ensures forall id | id in LiveAfter(before, cursor) :: id in state && state[id] == before[id]
  {
    forall id ensures id in LiveAfter(state, cursor) <==> id in LiveAfter(before, cursor) {
      if Less(cursor, id) { assert SameAt(state, before, id); }
    }
    forall id | id in LiveAfter(before, cursor) ensures id in state && state[id] == before[id] {
      assert SameAt(state, before, id);
    }
  }

  lemma SameRows(state: State, before: State, ids: seq<string>)
    requires forall id | id in ids :: id in before && id in state && state[id] == before[id]
    ensures RowsOf(state, ids) == RowsOf(before, ids)
  {
    assert forall i | 0 <= i < |ids| :: ids[i] in ids;
  }

  /** A page read in the changed log is the page of the log as it was. */
  lemma PageAsBefore(log: SourceLog, before: SourceLog, cursor: string, limit: nat)
    requires limit >= 1 && forall id | Less(cursor, id) :: SameAt(log.state, before.state, id)
    ensures var page, was := ReadSnapshot(log, cursor, limit), ReadSnapshot(before, cursor, limit);
      page.records == was.records && page.nextCursor == was.nextCursor && page.hasMore == was.hasMore
  {
    SameLive(log.state, before.state, cursor);
    var ids := PageIds(before.state, cursor, limit);
    assert PageIds(log.state, cursor, limit) == ids;
    SameRows(log.state, before.state, ids);
  }

  /** Facts about one page's rows. */
  lemma PageFacts(log: SourceLog, cursor: string, limit: nat)
    requires limit >= 1 && Keyed(log.state)
    ensures var page := ReadSnapshot(log, cursor, limit);
      && LiveRecords(log.state, page.records) && DistinctIds(page.records)
      && (forall i | 0 <= i < |page.records| ::
            Less(cursor, page.records[i].entityId) && AtMost(page.records[i].entityId, page.nextCursor))
      && (page.hasMore ==> Less(cursor, page.nextCursor))
  {
    var page, ids := ReadSnapshot(log, cursor, limit), PageIds(log.state, cursor, limit);
    PageCovers(log, cursor, limit);
    forall i | 0 <= i < |ids|
      ensures page.records[i].entityId == ids[i] && ids[i] in LiveAfter(log.state, cursor)
          && AtMost(ids[i], page.nextCursor)
    {
      assert ids[i] in ids;
    }
    forall i, j | 0 <= i < j < |page.records| ensures page.records[i].entityId != page.records[j].entityId {
      LessTotal(ids[i], ids[j]);
    }
  }

  /** Where the walk stands: it saw the front of the live records as they were when it began, and the
      log is that log with exactly those repaired. */
  ghost predicate Standing(fix: Fix, apply: bool, before: SourceLog, log: SourceLog, w: Walk, seen: seq<Record>) {
    && LiveRows(before.state, "") == seen + (if w.more then LiveRows(before.state, w.cursor) else [])
    && (forall i | 0 <= i < |seen| :: AtMost(seen[i].entityId, w.cursor))
    && log == (if apply then RepairAll(fix, before, seen) else before)
    && w.scanned == |seen| && w.repaired == Planned(fix, seen)
  }

  /** The state of the walk between pages: where it is and what it counted. */
  datatype Walk = Walk(cursor: string, more: bool, scanned: nat, repaired: nat)

  lemma StandingStarts(fix: Fix, apply: bool, before: SourceLog)
    ensures Standing(fix, apply, before, before, Walk("", true, 0, 0), [])
  {
    NothingBefore(LiveRows(before.state, ""));
  }

  lemma NothingBefore(rs: seq<Record>)
    ensures rs == [] + rs
  {
  }

  /** Beyond the cursor nothing has changed. */
  lemma AheadUnchanged(fix: Fix, apply: bool, before: SourceLog, log: SourceLog, w: Walk, seen: seq<Record>)
    requires Standing(fix, apply, before, log, w, seen)
    ensures forall id | Less(w.cursor, id) :: SameAt(log.state, before.state, id)
  {
    forall id | Less(w.cursor, id) ensures SameAt(log.state, before.state, id) {
      LessTotal(w.cursor, id);
      if apply { OthersKept(fix, before, seen, id); }
    }
  }

  lemma SeenBelow(seen: seq<Record>, page: SnapshotPage, cursor: string)
    requires forall i | 0 <= i < |seen| :: AtMost(seen[i].entityId, cursor)
    requires forall i | 0 <= i < |page.records| :: AtMost(page.records[i].entityId, page.nextCursor)
    requires AtMost(cursor, page.nextCursor)
    ensures forall i | 0 <= i < |seen + page.records| :: AtMost((seen + page.records)[i].entityId, page.nextCursor)
  {
    forall i | 0 <= i < |seen| ensures AtMost(seen[i].entityId, page.nextCursor) {
      if Less(seen[i].entityId, cursor) && Less(cursor, page.nextCursor) {
        LessTransitive(seen[i].entityId, cursor, page.nextCursor);
      }
    }
  }

  /** The page the walk reads is the next page of the log as it was. */
  lemma PageAhead(fix: Fix, apply: bool, before: SourceLog, log: SourceLog, w: Walk, seen: seq<Record>)
    requires Keyed(before.state) && Standing(fix, apply, before, log, w, seen) && w.more
    ensures var page := ReadSnapshot(log, w.cursor, PAGE_LIMIT);
      && LiveRows(before.state, "") == (seen + page.records)
        + (if page.hasMore then LiveRows(before.state, page.nextCursor) else [])
      && (forall i | 0 <= i < |seen + page.records| :: AtMost((seen + page.records)[i].entityId, page.nextCursor))
      && (page.hasMore ==> |LiveAfter(before.state, page.nextCursor)| < |LiveAfter(before.state, w.cursor)|)
  {
    var page := ReadSnapshot(log, w.cursor, PAGE_LIMIT);
    AheadUnchanged(fix, apply, before, log, w, seen);
    PageAsBefore(log, before, w.cursor, PAGE_LIMIT);
    PageFacts(before, w.cursor, PAGE_LIMIT);
    LiveRowsSplit(before, w.cursor, PAGE_LIMIT);
    if page.hasMore { FewerLeft(before, w.cursor, PAGE_LIMIT); }
    Regroup(seen, page.records, if page.hasMore then LiveRows(before.state, page.nextCursor) else []);
    PageAscends(before, w.cursor, PAGE_LIMIT);
    SeenBelow(seen, page, w.cursor);
  }

  lemma PageAscends(log: SourceLog, cursor: string, limit: nat)
    requires limit >= 1
    ensures AtMost(cursor, ReadSnapshot(log, cursor, limit).nextCursor)
  {
    var ids := PageIds(log.state, cursor, limit);
    if ids != [] { assert ids[|ids| - 1] in ids; }
  }

  lemma PageHandled(fix: Fix, apply: bool, before: SourceLog, log: SourceLog, after: SourceLog, w: Walk,
                    seen: seq<Record>)
    requires Keyed(before.state) && Standing(fix, apply, before, log, w, seen) && w.more
    requires after == if apply then RepairAll(fix, log, ReadSnapshot(log, w.cursor, PAGE_LIMIT).records) else log
    ensures var page := ReadSnapshot(log, w.cursor, PAGE_LIMIT);
      && Standing(fix, apply, before, after,
                  Walk(page.nextCursor, page.hasMore, w.scanned + |page.records|,
                       w.repaired + Planned(fix, page.records)),
                  seen + page.records)
      && (page.hasMore ==> |LiveAfter(before.state, page.nextCursor)| < |LiveAfter(before.state, w.cursor)|)
  {
    var records := ReadSnapshot(log, w.cursor, PAGE_LIMIT).records;
    PageAhead(fix, apply, before, log, w, seen);
    PlannedConcat(fix, seen, records);
    if apply { RepairAllJoin(fix, before, seen, records); }
  }

  lemma StateFromSource(h: seq<Record>, source: string)
    requires OneSource(h, source)
    ensures forall id | id in Fold(h) :: Fold(h)[id].sourceKey == source
  {
    FoldKeys(h);
  }

  lemma PageFromSource(log: SourceLog, cursor: string, limit: nat, source: string)
    requires forall id | id in log.state :: log.state[id].sourceKey == source
    ensures FromSource(ReadSnapshot(log, cursor, limit).records, source)
  {
    var ids := PageIds(log.state, cursor, limit);
    forall i | 0 <= i < |ids|
      ensures ids[i] in log.state && log.state[ids[i]].sourceKey == source
    {
      assert ids[i] in ids;
    }
  }

  lemma OwnPage(log: ExportChangesLog, cursor: string)
    requires log.Valid()
    ensures FromSource(ReadSnapshot(log.View(), cursor, PAGE_LIMIT).records, log.source)
  {
    StateFromSource(log.hist, log.source);
    PageFromSource(log.View(), cursor, PAGE_LIMIT, log.source);
  }

  /** One turn of the walk: read a page and repair its records. */
  method WalkPage(log: ExportChangesLog, apply: bool, fix: Fix, w: Walk, ghost before: SourceLog,
                  ghost seen: seq<Record>)
    returns (w': Walk, ghost seen': seq<Record>)
    requires log.Valid() && Keyed(before.state) && w.more && Standing(fix, apply, before, log.View(), w, seen)
    modifies log
    ensures log.Valid() && Standing(fix, apply, before, log.View(), w', seen') && old(log.hist) <= log.hist
    ensures w'.more ==> |LiveAfter(before.state, w'.cursor)| < |LiveAfter(before.state, w.cursor)|
  {
    ghost var was := log.View();
    var page, n := RepairNext(log, apply, fix, w.cursor);
    PageHandled(fix, apply, before, was, log.View(), w, seen);
    seen' := seen + page.records;
    w' := Walk(page.nextCursor, page.hasMore, w.scanned + |page.records|, w.repaired + n);
  }

  /** Read the page after the cursor and repair its records. */
  method RepairNext(log: ExportChangesLog, apply: bool, fix: Fix, cursor: string) returns (page: SnapshotPage, n: nat)
    requires log.Valid()
    modifies log
    ensures log.Valid() && old(log.hist) <= log.hist
    ensures page == ReadSnapshot(old(log.View()), cursor, PAGE_LIMIT) && n == Planned(fix, page.records)
    ensures log.View() == if apply then RepairAll(fix, old(log.View()), page.records) else old(log.View())
  {
    page := log.ReadSnapshot(cursor, Some(PAGE_LIMIT as real));
    OwnPage(log, cursor);
    n := RepairPage(log, page.records, apply, fix);
  }

  method WalkAll(log: ExportChangesLog, apply: bool, fix: Fix) returns (w: Walk)
    requires log.Valid()
    modifies log
    ensures log.Valid() && old(log.hist) <= log.hist
    ensures log.View() == if apply then RepairAll(fix, old(log.View()), LiveRows(old(log.state), ""))
        else old(log.View())
    ensures w.scanned == |LiveRows(old(log.state), "")| && w.repaired == Planned(fix, LiveRows(old(log.state), ""))
  {
    ghost var before := log.View();
    ghost var seen: seq<Record> := [];
    w := Walk("", true, 0, 0);
    ValidIsKeyed(log);
    StandingStarts(fix, apply, before);
    while w.more
      invariant log.Valid() && Standing(fix, apply, before, log.View(), w, seen) && old(log.hist) <= log.hist
      decreases w.more, |LiveAfter(before.state, w.cursor)|
    {
      w, seen := WalkPage(log, apply, fix, w, before, seen);
    }
    assert seen + [] == seen;
  }

  lemma RowsAreLive(state: State)
    requires Keyed(state)
    ensures LiveRecords(state, LiveRows(state, "")) && DistinctIds(LiveRows(state, ""))
  {
    var ids, rows := Listing(LiveAfter(state, "")), LiveRows(state, "");
    forall i | 0 <= i < |rows|
      ensures ids[i] in state && rows[i] == state[ids[i]] && rows[i].entityId == ids[i] && rows[i].op.Upsert?
    {
      assert ids[i] in LiveAfter(state, "");
    }
    forall i, j | 0 <= i < j < |rows| ensures rows[i].entityId != rows[j].entityId { LessTotal(ids[i], ids[j]); }
  }

  lemma {:induction false} NothingPlanned(fix: Fix, log: SourceLog, rs: seq<Record>)
    requires Planned(fix, rs) == 0
    ensures RepairAll(fix, log, rs) == log
  {
    if rs != [] { NothingPlanned(fix, log, rs[..|rs| - 1]); }
  }

  /** What was not to be repaired, by supplier, type, time or fields, is as it was; what was is repaired,
      unless its hash was none that the log's writers give. */
  ghost predicate Walked(fix: Fix, before: State, after: State) {
    after.Keys == before.Keys && forall id | id in before :: WalkedOne(fix, id, before[id], after[id])
  }

  ghost predicate WalkedOne(fix: Fix, id: string, was: Record, now: Record) {
    && (!(id != "" && ToRepair(fix, was)) ==> now == was)
    && (id != "" && ToRepair(fix, was) ==> now == was || IsRepaired(fix, was, now))
    && (id != "" && ToRepair(fix, was) && Traced(was) ==> IsRepaired(fix, was, now))
  }

  lemma WalkedIs(fix: Fix, before: State, after: State)
    requires Keyed(before) && RepairedIn(fix, before, after, LiveRows(before, ""))
    ensures Walked(fix, before, after)
  {
    forall id | id in before ensures WalkedOne(fix, id, before[id], after[id]) {
      if id != "" && before[id].op.Upsert? {
        SeenInWalk(before, id);
        LeftIsWalked(fix, id, before[id], after[id]);
      } else {
        NotWalked(before, id);
        PlannedIff(fix, before[id]);
      }
    }
  }

  lemma LeftIsWalked(fix: Fix, id: string, was: Record, now: Record)
    requires LeftAs(fix, was, now) && id != ""
    ensures WalkedOne(fix, id, was, now)
  {
    PlannedIff(fix, was);
    if Traced(was) { PlannedRepairIsNotDropped(fix, was); }
    if PlanRepair(fix, was).Some? && now != was { RepairedIs(fix, was, now); }
  }

  lemma RepairedIs(fix: Fix, was: Record, now: Record)
    requires PlanRepair(fix, was).Some?
    requires now == RepairedRecord(fix, was, PlanRepair(fix, was).value).(seqNo := now.seqNo)
    ensures IsRepaired(fix, was, now)
  {
    RepairedPayloadIs(fix, was, "");
    PlanCorrects(fix, was);
  }

  lemma NotWalked(state: State, id: string)
    requires Keyed(state) && id in state && (id == "" || state[id].op.Delete?)
    ensures !Touched(LiveRows(state, ""), id)
  {
    var ids := Listing(LiveAfter(state, ""));
    forall i | 0 <= i < |ids| ensures LiveRows(state, "")[i].entityId != id { assert ids[i] in LiveAfter(state, ""); }
  }

  /** Although the walk appends to the log it pages over, it sees every live entity exactly once, as
      it was when the walk began, and appends exactly those records' repairs. After an applied pass
      with a clock past the cutoff over a log its writers can produce, nothing needs repair. A pass
      that finds nothing to repair changes nothing. */
  method RepairIbabsTimes(log: ExportChangesLog, apply: bool, fix: Fix) returns (scanned: nat, repaired: nat)
    requires log.Valid()
    modifies log
    ensures log.Valid() && old(log.hist) <= log.hist
    ensures scanned == |LiveAfter(old(log.state), "")| && repaired == Planned(fix, LiveRows(old(log.state), ""))
    ensures !apply || repaired == 0 ==> log.View() == old(log.View())
    ensures apply ==> var done := RepairAll(fix, old(log.View()), LiveRows(old(log.state), ""));
      log.state == done.state && log.nextSeq == done.nextSeq
        && RepairedIn(fix, old(log.state), log.state, LiveRows(old(log.state), ""))
    ensures apply && TracedState(old(log.state)) && PastCutoff(fix)
        ==> forall id | id != "" :: !NeedsRepair(fix, log.state, id)
    ensures apply ==> Walked(fix, old(log.state), log.state)
  {
    ghost var before := log.View();
    LiveRowsCount(log.state);
    ValidIsKeyed(log);
    WhatAPassLeaves(fix, before);
    WalkedIs(fix, before.state, RepairAll(fix, before, LiveRows(before.state, "")).state);
    var w := WalkAll(log, apply, fix);
    if apply && w.repaired > 0 {
      var flushed := log.FlushNow();
    }
    scanned, repaired := w.scanned, w.repaired;
  }

  // ----- afterwards -----

  ghost predicate NeedsRepair(fix: Fix, state: State, id: string) { id in state && PlanRepair(fix, state[id]).Some? }

  ghost predicate PastCutoff(fix: Fix) { forall x :: fix.clock(x) >= fix.before }

  lemma WhatAPassLeaves(fix: Fix, log: SourceLog)
    requires Keyed(log.state)
    ensures var rows := LiveRows(log.state, ""); var after := RepairAll(fix, log, rows);
      && RepairedIn(fix, log.state, after.state, rows)
      && (Planned(fix, rows) == 0 ==> after == log)
      && (TracedState(log.state) && PastCutoff(fix) ==> forall id | id != "" :: !NeedsRepair(fix, after.state, id))
  {
    var rows := LiveRows(log.state, "");
    RowsAreLive(log.state);
    PageRepaired(fix, log, rows);
    if Planned(fix, rows) == 0 { NothingPlanned(fix, log, rows); }
    if TracedState(log.state) && PastCutoff(fix) {
      NothingNeedsRepair(fix, log.state, RepairAll(fix, log, rows).state);
    }
  }

  /** Whatever the hashes, a pass leaves an entity needing repair only if its own repair was dropped. */
  lemma LeftNeedingRepairIff(fix: Fix, before: State, after: State, id: string)
    requires Keyed(before) && RepairedIn(fix, before, after, LiveRows(before, "")) && id != ""
    requires PastCutoff(fix)
    ensures NeedsRepair(fix, after, id) <==> NeedsRepair(fix, before, id) && RepairIsDropped(fix, before[id])
  {
    if id in before {
      if before[id].op.Upsert? {
        SeenInWalk(before, id);
      } else {
        NotSeenInWalk(before, id);
      }
    }
  }

  lemma SeenInWalk(state: State, id: string)
    requires Keyed(state) && id != "" && id in state && state[id].op.Upsert?
    ensures var rows := LiveRows(state, "");
      exists i :: 0 <= i < |rows| && rows[i] == state[id] && rows[i].entityId == id
  {
    var ids := Listing(LiveAfter(state, ""));
    assert id in LiveAfter(state, "");
    var i :| 0 <= i < |ids| && ids[i] == id;
    assert LiveRows(state, "")[i] == state[id];
  }

  lemma NotSeenInWalk(state: State, id: string)
    requires Keyed(state) && id in state && state[id].op.Delete?
    ensures !Touched(LiveRows(state, ""), id)
  {
    var ids := Listing(LiveAfter(state, ""));
    forall i | 0 <= i < |ids| ensures LiveRows(state, "")[i].entityId != id { assert ids[i] in LiveAfter(state, ""); }
  }

  /** After a pass over a log its writers can produce, no record needs repair. */
  lemma NothingNeedsRepair(fix: Fix, before: State, after: State)
    requires Keyed(before) && TracedState(before) && PastCutoff(fix)
    requires RepairedIn(fix, before, after, LiveRows(before, ""))
    ensures forall id | id != "" :: !NeedsRepair(fix, after, id)
  {
    forall id | id != "" ensures !NeedsRepair(fix, after, id) {
      LeftNeedingRepairIff(fix, before, after, id);
      if id in before { PlannedRepairIsNotDropped(fix, before[id]); }
    }
  }

  /** From an empty log, after any imports, removals and repairs, one pass leaves nothing to repair. */
  lemma AnyWrittenLogIsRepaired(source: string, ws: seq<Writing>, fix: Fix)
    requires PastCutoff(fix)
    ensures var log := WriteAll(source, ws);
      forall id | id != "" :: !NeedsRepair(fix, RepairAll(fix, log, LiveRows(log.state, "")).state, id)
  {
    WrittenIsTraced(source, ws);
    WrittenIsKeyed(source, ws);
    WhatAPassLeaves(fix, WriteAll(source, ws));
  }

  lemma {:induction false} WrittenIsKeyed(source: string, ws: seq<Writing>)
    ensures Keyed(WriteAll(source, ws).state)
  {
    if ws != [] { WrittenIsKeyed(source, ws[..|ws| - 1]); }
  }

  lemma {:induction false} NoneNeeded(fix: Fix, rs: seq<Record>)
    requires forall i | 0 <= i < |rs| :: PlanRepair(fix, rs[i]).None?
    ensures Planned(fix, rs) == 0
  {
    if rs != [] { NoneNeeded(fix, rs[..|rs| - 1]); }
  }

  /** A second pass plans nothing, so by the contract of RepairIbabsTimes it changes nothing. */
  lemma SecondPassPlansNothing(fix: Fix, again: Fix, before: State, after: State)
    requires Keyed(before) && TracedState(before) && PastCutoff(fix)
        && RepairedIn(fix, before, after, LiveRows(before, ""))
    requires again.before == fix.before && again.correct == fix.correct
    ensures Planned(again, LiveRows(after, "")) == 0
  {
    NothingNeedsRepair(fix, before, after);
    RowsAreLive(after);
    var rows, ids := LiveRows(after, ""), Listing(LiveAfter(after, ""));
    forall i | 0 <= i < |rows| ensures PlanRepair(again, rows[i]).None? {
      assert ids[i] in LiveAfter(after, "");
      assert !NeedsRepair(fix, after, ids[i]);
      SamePlan(fix, again, rows[i]);
    }
    NoneNeeded(again, rows);
  }

  /** Run twice, the second pass appends nothing and changes nothing. */
  method RepairTwice(log: ExportChangesLog, fix: Fix, again: Fix) returns (first: nat, second: nat)
    requires log.Valid() && TracedState(log.state) && PastCutoff(fix)
    requires again.before == fix.before && again.correct == fix.correct
    modifies log
    ensures log.Valid() && first == Planned(fix, LiveRows(old(log.state), "")) && second == 0
    ensures log.state == RepairAll(fix, old(log.View()), LiveRows(old(log.state), "")).state
    ensures log.nextSeq == RepairAll(fix, old(log.View()), LiveRows(old(log.state), "")).nextSeq
  {
    ghost var before := log.state;
    ValidIsKeyed(log);
    var scanned;
    scanned, first := RepairIbabsTimes(log, true, fix);
    SecondPassPlansNothing(fix, again, before, log.state);
    scanned, second := RepairIbabsTimes(log, true, again);
  }

  /** Whatever the hashes, walking the records a pass has left appends nothing again. */
  lemma SecondWalkAppendsNothing(fix: Fix, again: Fix, before: State, log: SourceLog)
    requires Keyed(before) && RepairedIn(fix, before, log.state, LiveRows(before, "")) && PastCutoff(fix)
    requires again.before == fix.before && again.correct == fix.correct
    ensures RepairAll(again, log, LiveRows(log.state, "")) == log
  {
    var rows, ids := LiveRows(log.state, ""), Listing(LiveAfter(log.state, ""));
    forall i | 0 <= i < |rows| ensures RepairOne(again, log, rows[i]) == log {
      assert ids[i] in LiveAfter(log.state, "");
      SecondRepairIsNoop(fix, again, before, log, ids[i]);
    }
    NoopsChangeNothing(again, log, rows);
  }

  lemma {:induction false} NoopsChangeNothing(fix: Fix, log: SourceLog, rs: seq<Record>)
    requires forall i | 0 <= i < |rs| :: RepairOne(fix, log, rs[i]) == log
    ensures RepairAll(fix, log, rs) == log
  {
    if rs != [] { NoopsChangeNothing(fix, log, rs[..|rs| - 1]); }
  }

  lemma SecondRepairIsNoop(fix: Fix, again: Fix, before: State, log: SourceLog, id: string)
    requires Keyed(before) && RepairedIn(fix, before, log.state, LiveRows(before, "")) && id != "" && id in log.state
    requires PastCutoff(fix) && again.before == fix.before && again.correct == fix.correct
    ensures RepairOne(again, log, log.state[id]) == log
  {
    LeftNeedingRepairIff(fix, before, log.state, id);
    SamePlan(fix, again, log.state[id]);
    if NeedsRepair(fix, log.state, id) {
      SeenInWalk(before, id);
      assert log.state[id] == before[id];
    }
  }
}
