/** Purging a source (src/ops/purge_source.ts): collect every live record of its log page by page,
    then record a tombstone for each, nobody else writing. */
module PurgeSource {
  import opened Basics
  import opened ExportRecords
  import opened ExportReads
  import opened ExportConsumer
  import opened ExportLog

  /** Every live record of the source, in id order, across pages. */
  method CollectEntities(log: ExportChangesLog) returns (records: seq<Record>)
    ensures records == LiveRows(log.state, "")
  {
    records := [];
    var cursor, more := "", true;
    while more
      invariant LiveRows(log.state, "") == records + if more then LiveRows(log.state, cursor) else []
      decreases more, |LiveAfter(log.state, cursor)|
    {
      var page := log.ReadSnapshot(cursor, Some(PAGE_LIMIT as real));
      LiveRowsSplit(log.View(), cursor, PAGE_LIMIT);
      if page.hasMore { FewerLeft(log.View(), cursor, PAGE_LIMIT); }
      Regroup(records, page.records, if page.hasMore then LiveRows(log.state, page.nextCursor) else []);
      records := records + page.records;
      cursor, more := page.nextCursor, page.hasMore;
    }
    assert records + [] == records;
  }

  function Ids(rs: seq<Record>): set<string> { set i | 0 <= i < |rs| :: rs[i].entityId }

  lemma LiveRowsAre(state: State)
    requires Keyed(state)
    ensures Ids(LiveRows(state, "")) == LiveAfter(state, "")
    ensures DistinctIds(LiveRows(state, "")) && |LiveRows(state, "")| == |LiveAfter(state, "")|
  {
    var ids, rows := Listing(LiveAfter(state, "")), LiveRows(state, "");
    forall i | 0 <= i < |rows| ensures rows[i].entityId == ids[i] { assert ids[i] in LiveAfter(state, ""); }
    forall i, j | 0 <= i < j < |rows| ensures rows[i].entityId != rows[j].entityId { LessTotal(ids[i], ids[j]); }
    forall id | id in LiveAfter(state, "") ensures id in Ids(rows) {
      var i :| 0 <= i < |ids| && ids[i] == id;
      assert rows[i].entityId == id;
    }
  }

  lemma IdsStep(rs: seq<Record>, i: nat)
    requires i < |rs|
    ensures Ids(rs[..i + 1]) == Ids(rs[..i]) + {rs[i].entityId}
  {
    var a, b := rs[..i], rs[..i + 1];
    assert b == a + [rs[i]];
    forall id | id in Ids(b) ensures id in Ids(a) + {rs[i].entityId} {
      var k :| 0 <= k < |b| && b[k].entityId == id;
      if k < i { assert a[k].entityId == id; }
    }
    forall id | id in Ids(a) + {rs[i].entityId} ensures id in Ids(b) {
      if id in Ids(a) {
        var k :| 0 <= k < |a| && a[k].entityId == id;
        assert b[k].entityId == id;
      } else {
        assert b[i].entityId == id;
      }
    }
  }

  ghost predicate AllLive(state: State, rs: seq<Record>) {
    forall i | 0 <= i < |rs| :: rs[i].entityId in Live(state)
  }

  /** From place `from` on the history holds a deletion of each of these records' entities, with its
      supplier and type, the reason, and nothing else. */
  ghost predicate PurgedEach(records: seq<Record>, source: string, clock: string -> int, h: seq<Record>, from: nat) {
    && |h| == from + |records|
    && forall i | 0 <= i < |records| :: PurgedAs(records[i], source, clock, h[from + i], from + i)
  }

  predicate PurgedAs(r: Record, source: string, clock: string -> int, t: Record, n: nat) {
    t == Record(n, Delete, clock(r.entityId), r.entityId, r.entityType, source, r.supplier, None, None,
                Some(SourcePurged), None)
  }

  lemma PurgedOneMore(records: seq<Record>, i: nat, source: string, clock: string -> int, h: seq<Record>, t: Record,
                      from: nat)
    requires i < |records| && PurgedEach(records[..i], source, clock, h, from)
    requires PurgedAs(records[i], source, clock, t, |h|)
    ensures PurgedEach(records[..i + 1], source, clock, h + [t], from)
  {
  }

  /** Record the tombstone of one live entity. */
  method RecordOne(log: ExportChangesLog, r: Record, clock: string -> int) returns (appended: bool)
    requires log.Valid() && r.entityId in Live(log.state)
    modifies log
    ensures log.Valid() && appended && Live(log.state) == Live(old(log.state)) - {r.entityId}
    ensures |log.hist| == |old(log.hist)| + 1 && log.hist == old(log.hist) + [log.hist[|old(log.hist)|]]
    ensures PurgedAs(r, log.source, clock, log.hist[|old(log.hist)|], |old(log.hist)|)
  {
    SequenceIsHistory(log);
    var t := log.RecordDelete(r.supplier, r.entityId, r.entityType, clock(r.entityId), Some(SourcePurged), None);
    appended := t.Some?;
  }

  /** One tombstone for each of these live, distinct entities. */
  method RecordTombstones(log: ExportChangesLog, records: seq<Record>, clock: string -> int) returns (tombstones: nat)
    requires log.Valid() && DistinctIds(records) && AllLive(log.state, records)
    modifies log
    ensures log.Valid() && tombstones == |records|
    ensures old(log.hist) <= log.hist && |log.hist| == |old(log.hist)| + tombstones
    ensures PurgedEach(records, log.source, clock, log.hist, |old(log.hist)|)
    ensures Live(log.state) == Live(old(log.state)) - Ids(records)
  {
    ghost var from, live := |log.hist|, Live(log.state);
    tombstones := 0;
    var i := 0;
    while i < |records|
      invariant i <= |records| && log.Valid() && tombstones == i
      invariant old(log.hist) <= log.hist && PurgedEach(records[..i], log.source, clock, log.hist, from)
      invariant Live(log.state) == live - Ids(records[..i])
    {
      StillLive(live, records, i);
      ghost var h := log.hist;
      var appended := RecordOne(log, records[i], clock);
      PurgedOneMore(records, i, log.source, clock, h, log.hist[|h|], from);
      if appended {
        tombstones := tombstones + 1;
      }
      i := i + 1;
    }
    assert records[..i] == records;
  }

  lemma StillLive(live: State, records: seq<Record>, i: nat)
    requires i < |records| && DistinctIds(records) && records[i].entityId in live
    ensures records[i].entityId in live - Ids(records[..i])
    ensures live - Ids(records[..i]) - {records[i].entityId} == live - Ids(records[..i + 1])
  {
    IdsStep(records, i);
    assert records[i].entityId !in Ids(records[..i]);
  }

  /** After an applied purge no entity is live (but for one with an empty id, which no page lists),
      and one tombstone per live entity was appended. A purge of a source with nothing live, such as
      a second one, appends nothing. */
  method PurgeSource(log: ExportChangesLog, apply: bool, clock: string -> int)
    returns (liveEntities: nat, tombstones: nat)
    requires log.Valid()
    modifies log
    ensures log.Valid() && liveEntities == |LiveAfter(old(log.state), "")|
    ensures !apply ==> log.View() == old(log.View()) && tombstones == 0
    ensures apply ==> tombstones == liveEntities && Live(log.state).Keys <= {""} && LiveAfter(log.state, "") == {}
    ensures old(log.hist) <= log.hist && |log.hist| == |old(log.hist)| + tombstones
        && log.nextSeq == old(log.nextSeq) + tombstones
    ensures apply ==> PurgedEach(LiveRows(old(log.state), ""), log.source, clock, log.hist, |old(log.hist)|)
    ensures LiveAfter(old(log.state), "") == {}
        ==> tombstones == 0 && log.state == old(log.state) && log.hist == old(log.hist)
    ensures "" in Live(old(log.state)) ==> "" in Live(log.state) && Live(log.state)[""] == Live(old(log.state))[""]
  {
    var records := CollectEntities(log);
    liveEntities, tombstones := |records|, 0;
    LiveRowsCount(log.state);
    if apply {
      tombstones := TombstoneEach(log, records, clock);
      var flushed := log.FlushNow();
    } else {
      SequenceIsHistory(log);
    }
  }

  /** The applied part: every live record's entity is taken out of the live table. */
  method TombstoneEach(log: ExportChangesLog, records: seq<Record>, clock: string -> int) returns (tombstones: nat)
    requires log.Valid() && records == LiveRows(log.state, "")
    modifies log
    ensures log.Valid() && tombstones == |LiveAfter(old(log.state), "")|
    ensures Purged(old(log.state), log.state, old(log.hist), log.hist, tombstones)
    ensures PurgedEach(records, log.source, clock, log.hist, |old(log.hist)|)
    ensures log.nextSeq == |log.hist| && old(log.nextSeq) == |old(log.hist)|
  {
    ghost var before, h := log.state, log.hist;
    LiveRowsCount(before);
    ValidIsKeyed(log);
    RowsLive(before);
    LiveRowsAre(before);
    SequenceIsHistory(log);
    tombstones := RecordTombstones(log, records, clock);
    SequenceIsHistory(log);
    NothingLeft(before, log.state);
    WhenNothingWasLive(before, log.state, h, log.hist, tombstones);
  }

  lemma SequenceIsHistory(log: ExportChangesLog)
    requires log.Valid()
    ensures log.nextSeq == |log.hist| && log.state == Fold(log.hist)
  {
  }

  /** What a purge does to the state and the history. */
  ghost predicate Purged(before: State, after: State, h: seq<Record>, h': seq<Record>, tombstones: nat) {
    && Live(after).Keys <= {""} && LiveAfter(after, "") == {}
    && h <= h' && |h'| == |h| + tombstones
    && (tombstones == 0 ==> after == before && h' == h)
    && ("" in Live(before) ==> "" in Live(after) && Live(after)[""] == Live(before)[""])
  }

  lemma WhenNothingWasLive(before: State, after: State, h: seq<Record>, h': seq<Record>, tombstones: nat)
    requires before == Fold(h) && after == Fold(h') && h <= h' && |h'| == |h| + tombstones
    ensures tombstones == 0 ==> after == before && h' == h
  {
  }

  lemma RowsLive(state: State)
    requires Keyed(state)
    ensures AllLive(state, LiveRows(state, ""))
  {
    LiveRowsAre(state);
    var rows := LiveRows(state, "");
    forall i | 0 <= i < |rows| ensures rows[i].entityId in Live(state) { assert rows[i].entityId in Ids(rows); }
  }

  lemma NothingLeft(before: State, after: State)
    requires Keyed(before) && Live(after) == Live(before) - Ids(LiveRows(before, ""))
    ensures Live(after).Keys <= {""} && LiveAfter(after, "") == {}
    ensures "" in Live(before) ==> "" in Live(after) && Live(after)[""] == Live(before)[""]
  {
    LiveRowsAre(before);
    forall id | id in Live(after) ensures id == "" {
      assert id != "" ==> id in LiveAfter(before, "");
    }
    forall id ensures id !in LiveAfter(after, "") {
      assert id in LiveAfter(after, "") ==> id in Live(after);
    }
  }

  /** Run twice, the second purge finds and appends nothing. */
  method PurgeTwice(log: ExportChangesLog, clock: string -> int) returns (first: nat, second: nat)
    requires log.Valid()
    modifies log
    ensures log.Valid() && first == |LiveAfter(old(log.state), "")| && second == 0
    ensures old(log.hist) <= log.hist && |log.hist| == |old(log.hist)| + first
  {
    var found;
    found, first := PurgeSource(log, true, clock);
    found, second := PurgeSource(log, true, clock);
  }
}
