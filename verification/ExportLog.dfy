/** ExportChangesLog (src/exports/log.ts) as mutable state, each transaction or query one atomic
    step. Every statement selects on source_key, so one object holds the rows of one source: head
    counter, entity state, pending rows, segment rows, and the objects under its keys. `hist`
    records what has been appended and is never read by the code. */
module ExportLog {
  import opened Basics
  import opened EntityCommit
  import opened JsonText
  import opened ExportRecords
  import opened ExportReads
  import opened ExportConsumer
  import ExportSystem
  import JsonMentions

  /** The record's text mentions the id: in the payload, or as one of its own string fields. */
  predicate Mentions(r: Record, id: string) {
    || (r.payload.Some? && Contains(Serialize(r.payload.value), Quote(id)))
    || id == r.entityId || id == r.entityType || id == r.sourceKey || id == r.supplier
    || r.contentHash == Some(id) || r.meetingId == Some(id)
  }

  /** entity_id >= prefix AND entity_id < prefix + U+FFFF. */
  predicate InRange(id: string, prefix: string) {
    !Less(id, prefix) && Less(id, prefix + "\U{FFFF}")
  }

  /** The id begins with the prefix and does not go on with U+FFFF or a later code point. */
  predicate StartsWith(id: string, prefix: string) {
    prefix <= id && (|id| == |prefix| || id[|prefix|] < '\U{FFFF}')
  }

  /** The range asked of the database holds exactly the ids that begin with the prefix. */
  lemma {:induction false} InRangeIff(id: string, prefix: string)
    ensures InRange(id, prefix) <==> StartsWith(id, prefix)
  {
    if prefix == "" {
      BelowOne(id, '\U{FFFF}');
      assert prefix + "\U{FFFF}" == ['\U{FFFF}'];
    } else if id != "" && id[0] == prefix[0] {
      InRangeIff(id[1..], prefix[1..]);
      assert (prefix + "\U{FFFF}")[1..] == prefix[1..] + "\U{FFFF}";
      FrontIff(id, prefix);
    } else {
      LessTotal(id, prefix);
    }
  }

  lemma BelowOne(id: string, c: char)
    ensures Less(id, [c]) <==> id == "" || id[0] < c
  {
    assert [c][1..] == "";
  }

  lemma FrontIff(id: string, prefix: string)
    requires id != "" && prefix != "" && id[0] == prefix[0]
    ensures prefix <= id <==> prefix[1..] <= id[1..]
  {
    assert id == [id[0]] + id[1..] && prefix == [prefix[0]] + prefix[1..];
  }

  function LiveUnder(state: State, prefix: string): set<string> {
    set id | id in state && state[id].op.Upsert? && InRange(id, prefix)
  }

  /** Some of these rows mention the id. */
  predicate MentionedIn(state: State, rows: set<string>, id: string) {
    exists k | k in rows :: k in state && Mentions(state[k], id)
  }

  function LiveUnderAny(state: State, prefixes: seq<string>): set<string> {
    set id | id in state && exists i :: 0 <= i < |prefixes| && id in LiveUnder(state, prefixes[i])
  }

  /** The ids some live record under one of the prefixes mentions. */
  function Referenced(state: State, ids: set<string>, prefixes: seq<string>): set<string> {
    set id | id in ids && MentionedIn(state, LiveUnderAny(state, prefixes), id)
  }

  /** Tables, objects and history agree, and every object carries what its key names. */
  ghost predicate Sound(log: SourceLog, objects: Objects, h: seq<Record>) {
    Consistent(log, objects, h) && NoRepeats(h) && ExportSystem.ObjectsHold(objects, h)
  }

  /** Every record is of this source. */
  ghost predicate OneSource(h: seq<Record>, source: string) {
    forall i | 0 <= i < |h| :: h[i].sourceKey == source
  }

  class ExportChangesLog {
    const source: string
    var nextSeq: nat
    var state: State
    var pending: seq<Record>
    var segments: seq<Segment>
    var objects: Objects
    ghost var hist: seq<Record>

    /** The four tables together. */
    function View(): SourceLog
      reads this
    {
      SourceLog(nextSeq, state, pending, segments)
    }

    ghost predicate Valid()
      reads this
    {
      Sound(View(), objects, hist) && OneSource(hist, source)
    }

    constructor (source: string)
      ensures Valid() && View() == EMPTY && hist == [] && this.source == source
    {
      this.source := source;
      nextSeq, state, pending, segments, objects := 0, map[], [], [], map[];
      hist := [];
    }

    // ----- writing -----

    method Append(r: Record) returns (appended: Option<Record>)
      requires Valid() && r.sourceKey == source
      modifies this
      ensures Valid() && objects == old(objects)
      ensures View() == ExportRecords.Append(old(View()), r)
      ensures IsNoop(old(state), r) ==> appended == None && hist == old(hist)
      ensures !IsNoop(old(state), r) ==>
          appended == Some(Numbered(old(View()), r)) && hist == old(hist) + [appended.value]
    {
      if IsNoop(state, r) {
        return None;
      }
      var record := r.(seqNo := nextSeq);
      ghost var before, was := View(), hist;
      nextSeq := nextSeq + 1;
      pending := pending + [record];
      state := state[r.entityId := record];
      hist := hist + [record];
      Appended(before, objects, was, r, record, View());
      return Some(record);
    }

    /** A tombstone; deleting what is not live appends nothing. */
    method RecordDelete(supplier: string, entityId: string, entityType: string, time: int,
                        reason: Option<DeleteReason>, meetingId: Option<string>)
      returns (appended: Option<Record>)
      requires Valid()
      modifies this
      ensures Valid() && objects == old(objects)
      ensures var t := Tombstone(source, supplier, entityId, entityType, time, reason, meetingId);
        View() == ExportRecords.Append(old(View()), t)
      ensures appended.Some? <==> entityId in Live(old(state))
      ensures appended.Some? ==>
          appended.value == Record(old(nextSeq), Delete, time, entityId, entityType, source, supplier, None, None,
                                   reason, if meetingId == Some("") then None else meetingId)
      ensures hist == old(hist) + (if appended.Some? then [appended.value] else [])
      ensures Live(state) == Live(old(state)) - {entityId}
    {
      var t := Tombstone(source, supplier, entityId, entityType, time, reason, meetingId);
      TombstoneTakesOut(state, t, Numbered(View(), t));
      appended := Append(t);
      NothingMore(old(hist));
    }

    /** The synchronous start of flushNow: the pending rows. */
    method FlushRead() returns (rows: seq<Record>)
      ensures rows == pending
    {
      rows := pending;
    }

    method PutObject(key: ObjectKey, body: seq<Record>)
      requires Valid() && ExportSystem.PutHolds(ExportSystem.Put(key, body), hist)
      modifies this`objects
      ensures Valid() && objects == old(objects)[key := body]
    {
      ExportSystem.PutConsistent(View(), objects, hist, ExportSystem.Put(key, body));
      objects := objects[key := body];
    }

    /** The transaction at the end of flushNow, for rows still at the front of the pending table. */
    method FlushCommit(rows: seq<Record>)
      requires Valid() && rows != [] && rows <= pending
      requires ExportSystem.StoredAs(KeyFor(source, rows), rows, objects)
      modifies this`segments, this`pending
      ensures Valid() && View() == Commit(old(View()), KeyFor(source, rows))
      ensures pending == old(pending)[|rows|..]
    {
      var key := KeyFor(source, rows);
      CommitIsSound(rows);
      segments := UpsertSegment(segments, Segment(key.startSeq, key.endSeq, key));
      pending := DropThrough(pending, key.endSeq);
    }

    lemma CommitIsSound(rows: seq<Record>)
      requires Valid() && rows != [] && rows <= pending
      requires ExportSystem.StoredAs(KeyFor(source, rows), rows, objects)
      ensures Sound(Commit(View(), KeyFor(source, rows)), objects, hist)
      ensures Commit(View(), KeyFor(source, rows)).pending == pending[|rows|..]
    {
      ExportSystem.CommitConsistent(source, View(), objects, hist, rows);
    }

    /** A whole flush with nothing in between: everything pending becomes one segment, and what a
        reader can reach stays the same. */
    method FlushNow() returns (recordCount: nat)
      requires Valid()
      modifies this`segments, this`pending, this`objects
      ensures Valid() && recordCount == |old(pending)| && pending == []
      ensures Contents(View(), objects) == hist
    {
      var rows := FlushRead();
      recordCount := |rows|;
      if rows != [] {
        StretchPending(rows);
        PutObject(KeyFor(source, rows), rows);
        FlushCommit(rows);
      }
      ReachesHistory(View(), objects, hist);
    }

    lemma StretchPending(rows: seq<Record>)
      requires Valid() && rows != [] && rows == pending
      ensures ExportSystem.PutHolds(ExportSystem.Put(KeyFor(source, rows), rows), hist)
    {
      ExportSystem.FrontRows(source, View(), objects, hist, rows);
    }

    // ----- reading -----

    /** The last record of the entity, if it was ever recorded. */
    function GetEntityRecord(entityId: string): (r: Option<Record>)
      reads this
      ensures r.Some? <==> entityId in state
      ensures Valid() ==>
        && (r.Some? <==> exists i :: IsLast(hist, entityId, i))
        && forall i | IsLast(hist, entityId, i) :: r == Some(hist[i])
    {
      FoldIsLastRecord(hist, entityId);
      if entityId in state then Some(state[entityId]) else None
    }

    method ReadChanges(cursor: nat, limit: Option<real>) returns (page: Page)
      requires Valid()
      ensures page.records == hist[Clamp(cursor, 0, |hist|)..Clamp(cursor + ClampLimit(limit), 0, |hist|)]
      ensures page.hasMore <==> page.nextCursor < |hist|
      ensures page.nextCursor == Max(cursor, Clamp(cursor + ClampLimit(limit), 0, |hist|))
    {
      page := ReadPage(View(), objects, hist, cursor, ClampLimit(limit));
    }

    method ReadSnapshot(after: string, limit: Option<real>) returns (page: SnapshotPage)
      ensures page == ExportConsumer.ReadSnapshot(View(), after, ClampLimit(limit))
    {
      var n := ClampLimit(limit);
      var changesCursor := nextSeq;
      var all := Listing(LiveAfter(state, after));
      var rows := Take(all, n + 1);
      var ids := Take(rows, n);
      assert ids == PageIds(state, after, n);
      var nextCursor := if ids != [] then ids[|ids| - 1] else after;
      page := SnapshotPage(RowsOf(state, ids), nextCursor, |rows| > n, changesCursor);
    }

    /** One pass over the rows under each prefix, stopping once every id was found. */
    method FindReferencedEntityIds(entityIds: seq<string>, prefixes: seq<string>) returns (referenced: set<string>)
      ensures referenced == Referenced(state, (set id | id in entityIds), prefixes)
      ensures forall id :: id in referenced <==>
          id in entityIds && exists m, i :: MentionedBy(state, prefixes, id, m, i)
    {
      var all := set id | id in entityIds;
      var left := all;
      referenced := {};
      ghost var done: set<string> := {};
      var i := 0;
      while i < |prefixes| && left != {}
        invariant i <= |prefixes|
        invariant done == LiveUnderAny(state, prefixes[..i])
        invariant referenced == FoundIn(state, all, done) && left == all - referenced
      {
        left, referenced := ScanPrefix(state, prefixes[i], all, left, referenced, done);
        PrefixDone(state, prefixes, i);
        done := done + LiveUnder(state, prefixes[i]);
        i := i + 1;
      }
      AllFound(state, all, done, prefixes, i);
      forall id ensures id in referenced <==> id in entityIds && exists m, i :: MentionedBy(state, prefixes, id, m, i) {
        ReferencedIff(state, all, prefixes, id);
      }
    }
  }

  /** A live record whose id begins with one of the prefixes mentions the entity. */
  ghost predicate MentionedBy(state: State, prefixes: seq<string>, id: string, m: string, i: int) {
    && 0 <= i < |prefixes| && m in state && state[m].op.Upsert? && StartsWith(m, prefixes[i]) && Mentions(state[m], id)
  }

  /** The record holds the id: as one of its own fields, as a string or key of its payload, or at the
      end of one, after a quotation mark. */
  ghost predicate HoldsId(r: Record, id: string) {
    || (r.payload.Some? && exists s :: JsonMentions.Holds(r.payload.value, s) && JsonMentions.Fits(s, id))
    || id in [r.entityId, r.entityType, r.sourceKey, r.supplier] || Some(id) in [r.contentHash, r.meetingId]
  }

  lemma MentionsIff(r: Record, id: string)
    requires JsonMentions.Telling(id)
    ensures Mentions(r, id) <==> HoldsId(r, id)
  {
    if r.payload.Some? { JsonMentions.FoundIff(r.payload.value, id); }
  }

  /** What the scan reports of the ids of documents: those that some live record under one of the
      prefixes holds. */
  lemma ReferencedExactly(state: State, ids: set<string>, prefixes: seq<string>, id: string)
    requires "document:" <= id
    ensures id in Referenced(state, ids, prefixes) <==>
        id in ids && exists m, i :: HeldBy(state, prefixes, id, m, i)
  {
    ReferencedIff(state, ids, prefixes, id);
    JsonMentions.DocumentTells(id);
    forall m, i ensures MentionedBy(state, prefixes, id, m, i) <==> HeldBy(state, prefixes, id, m, i) {
      if m in state { MentionsIff(state[m], id); }
    }
  }

  ghost predicate HeldBy(state: State, prefixes: seq<string>, id: string, m: string, i: int) {
    && 0 <= i < |prefixes| && m in state && state[m].op.Upsert? && StartsWith(m, prefixes[i]) && HoldsId(state[m], id)
  }

  lemma ReferencedIff(state: State, ids: set<string>, prefixes: seq<string>, id: string)
    ensures id in Referenced(state, ids, prefixes) <==>
        id in ids && exists m, i :: MentionedBy(state, prefixes, id, m, i)
  {
    if id in ids && MentionedIn(state, LiveUnderAny(state, prefixes), id) {
      var m :| m in LiveUnderAny(state, prefixes) && m in state && Mentions(state[m], id);
      var i :| 0 <= i < |prefixes| && m in LiveUnder(state, prefixes[i]);
      InRangeIff(m, prefixes[i]);
      assert MentionedBy(state, prefixes, id, m, i);
    }
    if m, i :| MentionedBy(state, prefixes, id, m, i) {
      InRangeIff(m, prefixes[i]);
      assert m in LiveUnder(state, prefixes[i]);
      assert m in LiveUnderAny(state, prefixes);
    }
  }

  method ReadPage(log: SourceLog, objects: Objects, ghost h: seq<Record>, cursor: nat, n: nat) returns (page: Page)
    requires Sound(log, objects, h) && n >= 1
    ensures page.records == h[Clamp(cursor, 0, |h|)..Clamp(cursor + n, 0, |h|)]
    ensures page.hasMore <==> page.nextCursor < |h|
    ensures page.nextCursor == Max(cursor, Clamp(cursor + n, 0, |h|))
  {
    page := Stitch(log.segments, objects, log.pending, log.nextSeq, cursor, n);
    ReadChangesIsASlice(log, objects, h, cursor, n);
  }

  lemma ValidIsKeyed(log: ExportChangesLog)
    requires log.Valid()
    ensures Keyed(log.state)
  {
    FoldKeys(log.hist);
  }

  lemma NothingMore(h: seq<Record>)
    ensures h + [] == h
  {
  }

  lemma Appended(log: SourceLog, objects: Objects, h: seq<Record>, r: Record, record: Record, after: SourceLog)
    requires Sound(log, objects, h) && !IsNoop(log.state, r) && record == r.(seqNo := log.nextSeq)
    requires after == SourceLog(log.nextSeq + 1, log.state[r.entityId := record], log.pending + [record], log.segments)
    ensures after == ExportRecords.Append(log, r) && record == Numbered(log, r) && Sound(after, objects, h + [record])
  {
    ExportSystem.AppendConsistent(log, objects, h, r);
    ExportSystem.NoRepeatsGrow(h, record);
    ExportSystem.PutsGrow([], objects, h, record);
  }

  /** A tombstone takes its entity out of the live table and touches nothing else in it. */
  lemma TombstoneTakesOut(state: State, t: Record, numbered: Record)
    requires t.op.Delete? && numbered.op.Delete?
    ensures !IsNoop(state, t) <==> t.entityId in Live(state)
    ensures IsNoop(state, t) ==> Live(state) == Live(state) - {t.entityId}
    ensures Live(state[t.entityId := numbered]) == Live(state) - {t.entityId}
  {
  }

  /** An empty meeting id is left off. */
  function Tombstone(source: string, supplier: string, entityId: string, entityType: string, time: int,
                     reason: Option<DeleteReason>, meetingId: Option<string>): Record
  {
    Record(0, Delete, time, entityId, entityType, source, supplier, None, None, reason,
           if meetingId == Some("") then None else meetingId)
  }

  /** readChanges over the rows its three queries return. */
  method Stitch(segments: seq<Segment>, objects: Objects, pending: seq<Record>, head: nat, cursor: nat, n: nat)
    returns (page: Page)
    ensures page == StitchedPage(segments, objects, pending, head, cursor, n)
  {
    var records := ReadSegments(SegmentsFrom(segments, cursor), objects, cursor, n);
    if |records| < n {
      var fromSeq := NextCursor(records, cursor);
      records := records + Take(FromSeq(pending, fromSeq), n - |records|);
    } else {
      assert records + [] == records;
    }
    var nextCursor := NextCursor(records, cursor);
    page := Page(records, nextCursor, nextCursor < head);
  }

  /** The loop over segment objects: lines below the cursor are skipped, and reading stops once the
      page is full. */
  method ReadSegments(found: seq<Segment>, objects: Objects, cursor: nat, n: nat) returns (records: seq<Record>)
    ensures records == Take(FromSeq(Lines(found, objects), cursor), n)
  {
    records := [];
    var i := 0;
    while i < |found| && |records| < n
      invariant i <= |found|
      invariant records == Take(FromSeq(Lines(found[..i], objects), cursor), n)
    {
      records := ReadLines(records, Lines(found[..i], objects), Body(objects, found[i].key), cursor, n);
      LinesNext(found, i, objects);
      i := i + 1;
    }
    StoppedEarly(found, i, objects, cursor, n);
  }

  /** The loop over one object's lines. */
  method ReadLines(before: seq<Record>, ghost seen: seq<Record>, lines: seq<Record>, cursor: nat, n: nat)
    returns (records: seq<Record>)
    requires before == Take(FromSeq(seen, cursor), n)
    ensures records == Take(FromSeq(seen + lines, cursor), n)
  {
    records := before;
    var j := 0;
    assert seen + lines[..0] == seen;
    while j < |lines| && |records| < n
      invariant j <= |lines|
      invariant records == Take(FromSeq(seen + lines[..j], cursor), n)
    {
      LineStep(seen, lines, j, cursor);
      if lines[j].seqNo >= cursor {
        records := records + [lines[j]];
      }
      j := j + 1;
    }
    FullStays(seen, lines, j, cursor, n);
  }

  /** The ids among `all` that one of the rows mentions. */
  function FoundIn(state: State, all: set<string>, rows: set<string>): set<string> {
    set id | id in all && MentionedIn(state, rows, id)
  }

  /** The loop over one prefix's rows, with its early exit. */
  method ScanRows(state: State, rows: seq<string>, all: set<string>, left0: set<string>, found0: set<string>,
                  ghost done: set<string>)
    returns (left: set<string>, referenced: set<string>)
    requires forall k | k in rows :: k in state
    requires found0 == FoundIn(state, all, done) && left0 == all - found0
    ensures referenced == FoundIn(state, all, done + (set k | k in rows)) && left == all - referenced
  {
    left, referenced := left0, found0;
    var j := 0;
    ghost var seen := done;
    while j < |rows| && left != {}
      invariant j <= |rows|
      invariant seen == done + (set k | k in rows[..j])
      invariant referenced == FoundIn(state, all, seen) && left == all - referenced
    {
      var row := rows[j];
      var hits := set id | id in left && Mentions(state[row], id);
      FoundMore(state, all, seen, row);
      seen := seen + {row};
      referenced := referenced + hits;
      left := left - hits;
      j := j + 1;
    }
    FoundGrows(state, all, seen, done + (set k | k in rows));
    if j == |rows| {
      assert rows[..j] == rows;
    } else {
      AllOf(all, FoundIn(state, all, seen));
    }
  }

  method ScanPrefix(state: State, prefix: string, all: set<string>, left0: set<string>, found0: set<string>,
                    ghost done: set<string>)
    returns (left: set<string>, referenced: set<string>)
    requires found0 == FoundIn(state, all, done) && left0 == all - found0
    ensures referenced == FoundIn(state, all, done + LiveUnder(state, prefix)) && left == all - referenced
  {
    var rows := Listing(LiveUnder(state, prefix));
    left, referenced := ScanRows(state, rows, all, left0, found0, done);
    assert (set k | k in rows) == LiveUnder(state, prefix);
  }

  // ----- facts the loops use -----

  lemma LineStep(seen: seq<Record>, lines: seq<Record>, j: nat, cursor: nat)
    requires j < |lines|
    ensures FromSeq(seen + lines[..j + 1], cursor)
              == FromSeq(seen + lines[..j], cursor) + if lines[j].seqNo >= cursor then [lines[j]] else []
  {
    FromSeqStep(seen + lines[..j], lines[j], cursor);
    assert seen + lines[..j] + [lines[j]] == seen + lines[..j + 1];
  }

  /** Once a page is full, more lines do not change it. */
  lemma FullStays(seen: seq<Record>, lines: seq<Record>, j: nat, cursor: nat, n: nat)
    requires j <= |lines| && (j == |lines| || |Take(FromSeq(seen + lines[..j], cursor), n)| >= n)
    ensures Take(FromSeq(seen + lines[..j], cursor), n) == Take(FromSeq(seen + lines, cursor), n)
  {
    FromSeqConcat(seen + lines[..j], lines[j..], cursor);
    assert seen + lines[..j] + lines[j..] == seen + lines;
  }

  lemma LinesNext(found: seq<Segment>, i: nat, objects: Objects)
    requires i < |found|
    ensures Lines(found[..i + 1], objects) == Lines(found[..i], objects) + Body(objects, found[i].key)
  {
    LinesStep(found[..i], found[i], objects);
    assert found[..i] + [found[i]] == found[..i + 1];
  }

  /** Once a page is full, more objects do not change it. */
  lemma {:induction false} StoppedEarly(found: seq<Segment>, i: nat, objects: Objects, cursor: nat, n: nat)
    requires i <= |found| && (i == |found| || |Take(FromSeq(Lines(found[..i], objects), cursor), n)| >= n)
    ensures Take(FromSeq(Lines(found, objects), cursor), n) == Take(FromSeq(Lines(found[..i], objects), cursor), n)
    decreases |found|
  {
    if i < |found| {
      var p, last := found[..|found| - 1], found[|found| - 1];
      assert p[..i] == found[..i];
      StoppedEarly(p, i, objects, cursor, n);
      FromSeqConcat(Lines(p, objects), Body(objects, last.key), cursor);
    } else {
      assert found[..i] == found;
    }
  }

  lemma FoundMore(state: State, all: set<string>, rows: set<string>, k: string)
    requires k in state
    ensures FoundIn(state, all, rows + {k}) == FoundIn(state, all, rows)
        + (set id | id in all && Mentions(state[k], id))
  {
    forall id | id in all
      ensures MentionedIn(state, rows + {k}, id) <==> MentionedIn(state, rows, id) || Mentions(state[k], id)
    {
      if MentionedIn(state, rows, id) {
        var x :| x in rows && x in state && Mentions(state[x], id);
        assert x in rows + {k};
      }
      if Mentions(state[k], id) { assert k in rows + {k}; }
    }
  }

  /** More rows find no fewer ids; when all were found, no more. */
  lemma FoundGrows(state: State, all: set<string>, rows: set<string>, more: set<string>)
    requires rows <= more
    ensures FoundIn(state, all, rows) <= FoundIn(state, all, more) <= all
  {
    forall id | id in FoundIn(state, all, rows) ensures MentionedIn(state, more, id) {
      var x :| x in rows && x in state && Mentions(state[x], id);
      assert x in more;
    }
  }

  lemma AllOf(all: set<string>, found: set<string>)
    requires all - found == {} && found <= all
    ensures found == all
  {
    forall id | id in all ensures id in found { assert id !in all - found; }
  }

  lemma PrefixDone(state: State, prefixes: seq<string>, i: nat)
    requires i < |prefixes|
    ensures LiveUnderAny(state, prefixes[..i + 1]) == LiveUnderAny(state, prefixes[..i]) + LiveUnder(state, prefixes[i])
  {
    var a, b := prefixes[..i], prefixes[..i + 1];
    assert forall k | 0 <= k < i :: b[k] == a[k];
    assert b[i] == prefixes[i];
  }

  lemma AllFound(state: State, all: set<string>, done: set<string>, prefixes: seq<string>, i: nat)
    requires i <= |prefixes| && done == LiveUnderAny(state, prefixes[..i])
    requires i == |prefixes| || all - FoundIn(state, all, done) == {}
    ensures FoundIn(state, all, done) == Referenced(state, all, prefixes)
  {
    if i == |prefixes| {
      assert prefixes[..i] == prefixes;
    } else {
      forall id | id in done ensures id in LiveUnderAny(state, prefixes) {
        var k :| 0 <= k < i && id in LiveUnder(state, prefixes[..i][k]);
        assert prefixes[k] == prefixes[..i][k];
      }
      FoundGrows(state, all, done, LiveUnderAny(state, prefixes));
      AllOf(all, FoundIn(state, all, done));
    }
  }
}
