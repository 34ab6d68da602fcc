/** What one source's export log holds (src/exports/log.ts), as values: records, the latest-state
    table, the pending table and the segment table, with append and the two halves of a flush. */
module ExportRecords {
  import opened Basics
  import opened EntityCommit

  datatype Op = Upsert | Delete
  datatype DeleteReason = Takedown | RemovedAtSource | SourcePurged

  /** `time` is the record's ISO instant in milliseconds. */
  datatype Record = Record(
    seqNo: nat, op: Op, time: int, entityId: string, entityType: string, sourceKey: string, supplier: string,
    contentHash: Option<string>, payload: Option<Json>, reason: Option<DeleteReason>, meetingId: Option<string>)

  datatype ObjectKey = ObjectKey(sourceKey: string, startSeq: nat, endSeq: nat)
  datatype Segment = Segment(startSeq: nat, endSeq: nat, key: ObjectKey)

  type State = map<string, Record>
  type Objects = map<ObjectKey, seq<Record>>

  /** The rows of one source: head counter, latest record per entity, pending rows by ascending
      sequence number, segment rows by ascending start. */
  datatype SourceLog = SourceLog(nextSeq: nat, state: State, pending: seq<Record>, segments: seq<Segment>)

  const EMPTY := SourceLog(0, map[], [], [])

  // ----- append -----

  /** The commit changes nothing: a delete of something not live, or an upsert whose content
      hash is the live one. A missing hash never matches. */
  predicate IsNoop(state: State, r: Record) {
    if r.op.Delete? then r.entityId !in state || state[r.entityId].op.Delete?
    else
      && r.entityId in state && state[r.entityId].op.Upsert?
      && r.contentHash.Some? && state[r.entityId].contentHash == r.contentHash
  }

  function Numbered(log: SourceLog, r: Record): Record { r.(seqNo := log.nextSeq) }

  function Append(log: SourceLog, r: Record): SourceLog {
    if IsNoop(log.state, r) then log
    else
      var a := Numbered(log, r);
      log.(nextSeq := log.nextSeq + 1, state := log.state[r.entityId := a], pending := log.pending + [a])
  }

  function AppendAll(log: SourceLog, rs: seq<Record>): SourceLog {
    if rs == [] then log else Append(AppendAll(log, rs[..|rs| - 1]), rs[|rs| - 1])
  }

  lemma AppendAllStep(log: SourceLog, rs: seq<Record>, r: Record)
    ensures AppendAll(log, rs + [r]) == Append(AppendAll(log, rs), r)
  {
    assert (rs + [r])[..|rs + [r]| - 1] == rs;
  }

  /** Records of other entities. */
  predicate Elsewhere(rs: seq<Record>, id: string) { forall i | 0 <= i < |rs| :: rs[i].entityId != id }

  /** The tables agree, up to numbering, about every other entity. */
  ghost predicate SameBut(a: State, b: State, id: string) {
    forall x | x != id :: (x in a <==> x in b) && (x in a ==> a[x].(seqNo := 0) == b[x].(seqNo := 0))
  }

  lemma AppendElsewhere(a: SourceLog, b: SourceLog, r: Record, id: string)
    requires SameBut(a.state, b.state, id) && r.entityId != id
    ensures SameBut(Append(a, r).state, Append(b, r).state, id)
    ensures id in Append(a, r).state <==> id in a.state
    ensures id in a.state ==> Append(a, r).state[id] == a.state[id]
  {
    var x := r.entityId;
    if x in a.state {
      assert a.state[x].(seqNo := 0).op == a.state[x].op
          && a.state[x].(seqNo := 0).contentHash == a.state[x].contentHash;
      assert b.state[x].(seqNo := 0).op == b.state[x].op
          && b.state[x].(seqNo := 0).contentHash == b.state[x].contentHash;
    }
    assert IsNoop(a.state, r) <==> IsNoop(b.state, r);
  }

  /** Writing about other entities neither depends on an entity nor touches it. */
  lemma {:induction false} AppendAllElsewhere(a: SourceLog, b: SourceLog, rs: seq<Record>, id: string)
    requires SameBut(a.state, b.state, id) && Elsewhere(rs, id)
    ensures SameBut(AppendAll(a, rs).state, AppendAll(b, rs).state, id)
    ensures id in AppendAll(a, rs).state <==> id in a.state
    ensures id in a.state ==> AppendAll(a, rs).state[id] == a.state[id]
    decreases |rs|
  {
    if rs != [] {
      var p := rs[..|rs| - 1];
      AppendAllElsewhere(a, b, p, id);
      AppendElsewhere(AppendAll(a, p), AppendAll(b, p), rs[|rs| - 1], id);
    }
  }

  // ----- flush -----

  function KeyFor(sourceKey: string, rows: seq<Record>): ObjectKey
    requires rows != []
  {
    ObjectKey(sourceKey, rows[0].seqNo, rows[|rows| - 1].seqNo)
  }

  /** INSERT ... ON CONFLICT(start_seq) DO UPDATE, on rows kept by ascending start. */
  function UpsertSegment(segments: seq<Segment>, s: Segment): seq<Segment> {
    if segments == [] || s.startSeq < segments[0].startSeq then [s] + segments
    else if s.startSeq == segments[0].startSeq then [s] + segments[1..]
    else [segments[0]] + UpsertSegment(segments[1..], s)
  }

  function DropThrough(pending: seq<Record>, endSeq: nat): seq<Record> {
    if pending == [] then []
    else (if pending[0].seqNo <= endSeq then [] else [pending[0]]) + DropThrough(pending[1..], endSeq)
  }

  function Commit(log: SourceLog, key: ObjectKey): SourceLog {
    log.(segments := UpsertSegment(log.segments, Segment(key.startSeq, key.endSeq, key)),
         pending := DropThrough(log.pending, key.endSeq))
  }

  // ----- the history and what the tables should say about it -----

  /** The table of latest records after a history. */
  function Fold(h: seq<Record>): State {
    if h == [] then map[] else Fold(h[..|h| - 1])[h[|h| - 1].entityId := h[|h| - 1]]
  }

  function Live(state: State): State {
    map id | id in state && state[id].op.Upsert? :: state[id]
  }

  /** Registered segments are non-empty, contiguous from 0, and their objects hold exactly the
      history they name. */
  ghost predicate Tiles(segments: seq<Segment>, objects: Objects, h: seq<Record>) {
    && (segments != [] ==> segments[0].startSeq == 0)
    && (forall i | 0 <= i < |segments| :: SegmentHolds(segments[i], objects, h))
    && (forall i | 0 < i < |segments| :: segments[i].startSeq == segments[i - 1].endSeq + 1)
  }

  ghost predicate SegmentHolds(s: Segment, objects: Objects, h: seq<Record>) {
    && s.startSeq <= s.endSeq < |h|
    && s.key in objects && objects[s.key] == h[s.startSeq..s.endSeq + 1]
  }

  /** First sequence number not covered by a segment. */
  function Flushed(segments: seq<Segment>): nat {
    if segments == [] then 0 else segments[|segments| - 1].endSeq + 1
  }

  ghost predicate Numbering(h: seq<Record>) {
    forall i | 0 <= i < |h| :: h[i].seqNo == i
  }

  /** The four tables and the objects say exactly what the history says. */
  ghost predicate Consistent(log: SourceLog, objects: Objects, h: seq<Record>) {
    && log.nextSeq == |h|
    && Numbering(h)
    && log.state == Fold(h)
    && Tiles(log.segments, objects, h)
    && Flushed(log.segments) <= |h|
    && log.pending == h[Flushed(log.segments)..]
  }

  // ----- facts about Fold -----

  /** `h[i]` is the last record of entity `id` in `h`. */
  ghost predicate IsLast(h: seq<Record>, id: string, i: int) {
    0 <= i < |h| && h[i].entityId == id && forall j | i < j < |h| :: h[j].entityId != id
  }

  /** The state of an entity is the last record the history has for it. */
  lemma {:induction false} FoldIsLastRecord(h: seq<Record>, id: string)
    ensures id in Fold(h) <==> exists i :: IsLast(h, id, i)
    ensures forall i | IsLast(h, id, i) :: id in Fold(h) && Fold(h)[id] == h[i]
  {
    if h != [] {
      var p := h[..|h| - 1];
      FoldIsLastRecord(p, id);
      if h[|h| - 1].entityId == id {
        assert IsLast(h, id, |h| - 1);
      } else {
        forall i ensures IsLast(h, id, i) <==> IsLast(p, id, i) {
          if IsLast(p, id, i) { assert h[i] == p[i]; }
          if IsLast(h, id, i) { assert forall j | 0 <= j < |p| :: p[j] == h[j]; }
        }
      }
    }
  }

  lemma FoldStep(h: seq<Record>, r: Record)
    ensures Fold(h + [r]) == Fold(h)[r.entityId := r]
  {
    assert (h + [r])[..|h + [r]| - 1] == h;
  }

  lemma {:induction false} FoldKeys(h: seq<Record>)
    ensures forall id | id in Fold(h) :: Fold(h)[id].entityId == id && Fold(h)[id] in h
  {
    if h != [] { FoldKeys(h[..|h| - 1]); }
  }

  // ----- the history a log can have -----

  /** No record repeats what the state before it already said. */
  ghost predicate NoRepeats(h: seq<Record>) {
    forall k | 0 <= k < |h| :: !IsNoop(Fold(h[..k]), h[k])
  }

  /** What deduplication buys a reader: an entity never starts with a delete, and two consecutive
      records of one entity are never both deletes nor both upserts with the same hash. */
  lemma ConsecutiveRecordsDiffer(h: seq<Record>, i: nat, j: nat)
    requires NoRepeats(h) && i < j < |h| && h[i].entityId == h[j].entityId
    requires forall k | i < k < j :: h[k].entityId != h[j].entityId
    ensures !(h[i].op.Delete? && h[j].op.Delete?)
    ensures h[i].op.Upsert? && h[j].op.Upsert? ==> h[j].contentHash.None? || h[i].contentHash != h[j].contentHash
  {
    FoldIsLastRecord(h[..j], h[j].entityId);
    assert IsLast(h[..j], h[j].entityId, i);
  }

  lemma FirstRecordIsAnUpsert(h: seq<Record>, j: nat)
    requires NoRepeats(h) && j < |h| && forall k | 0 <= k < j :: h[k].entityId != h[j].entityId
    ensures h[j].op.Upsert?
  {
    FoldIsLastRecord(h[..j], h[j].entityId);
    assert forall i | 0 <= i < j :: h[..j][i] == h[i];
  }

  /** Committing a payload appends nothing exactly when the live record was committed from a
      payload that differs from it at most in key order. */
  lemma CommitDeduplicatesByMeaning(state: State, r: Record, payload: Json, live: Json)
    requires WellFormed(payload) && WellFormed(live)
    requires r.op.Upsert? && r.contentHash == Some(Stringify(payload))
    requires r.entityId in state && state[r.entityId].contentHash == Some(Stringify(live))
    ensures IsNoop(state, r) <==> state[r.entityId].op.Upsert? && Meaning(payload) == Meaning(live)
  {
    StringifyCanonical(payload, live);
  }
}
