/** The contract offered to consumers of the export log (src/exports/log.ts): take a snapshot,
    then follow the changes from the first page's changesCursor, and you hold the live entities,
    whatever is written and flushed meanwhile. */
module ExportConsumer {
  import opened Basics
  import opened ExportRecords
  import opened ExportSystem
  import opened ExportReads
  import opened ExportInterleaving

  // ----- one snapshot page -----

  datatype SnapshotPage = SnapshotPage(records: seq<Record>, nextCursor: string, hasMore: bool, changesCursor: nat)

  function LiveAfter(state: State, after: string): set<string> {
    set id | id in state && state[id].op.Upsert? && Less(after, id)
  }

  /** The rows of `ids`, in that order. */
  function RowsOf(state: State, ids: seq<string>): (r: seq<Record>)
    requires forall id | id in ids :: id in state
    ensures |r| == |ids|
  {
    seq(|ids|, i requires 0 <= i < |ids| => state[ids[i]])
  }

  /** The ids a page lists: the first `limit` live ones after the cursor. */
  function PageIds(state: State, after: string, limit: nat): (ids: seq<string>)
    ensures forall id | id in ids :: id in LiveAfter(state, after)
    ensures Sorted(ids) && |ids| <= limit
  {
    var all := Listing(LiveAfter(state, after));
    var ids := Take(all, limit);
    assert forall id | id in ids :: id in all;
    ids
  }

  function ReadSnapshot(log: SourceLog, after: string, limit: nat): SnapshotPage {
    var ids := PageIds(log.state, after, limit);
    SnapshotPage(RowsOf(log.state, ids), if ids == [] then after else ids[|ids| - 1],
                 |LiveAfter(log.state, after)| > limit, log.nextSeq)
  }

  predicate AtMost(a: string, b: string) { a == b || Less(a, b) }

  /** A page lists exactly the live entities between its cursor and its next cursor, and all the
      rest when it says there is no more. */
  lemma PageCovers(log: SourceLog, after: string, limit: nat)
    requires limit >= 1
    ensures var page := ReadSnapshot(log, after, limit); var ids := PageIds(log.state, after, limit);
      && (page.hasMore ==> Less(after, page.nextCursor))
      && (forall id :: id in ids <==>
            id in LiveAfter(log.state, after) && (page.hasMore ==> AtMost(id, page.nextCursor)))
      && (forall id :: page.hasMore ==>
           (id in LiveAfter(log.state, page.nextCursor) <==> id in LiveAfter(log.state, after) && id !in ids))
  {
    var page, ids := ReadSnapshot(log, after, limit), PageIds(log.state, after, limit);
    var all := Listing(LiveAfter(log.state, after));
    if page.hasMore {
      var last := ids[limit - 1];
      assert last == all[limit - 1] == page.nextCursor && last in ids;
      forall id ensures id in ids <==> id in LiveAfter(log.state, after) && AtMost(id, last) {
        if id in all {
          var k :| 0 <= k < |all| && all[k] == id;
          if k < limit { assert ids[k] == id; }
          LessTotal(id, last);
        }
      }
      forall id ensures id in LiveAfter(log.state, last) <==> id in LiveAfter(log.state, after) && id !in ids {
        LessTotal(id, last);
        if Less(last, id) { LessTransitive(after, last, id); }
      }
    } else {
      assert ids == all;
    }
  }

  // ----- pages over a log nobody is writing to -----

  /** With no other writer, a page is a front piece of the ordered listing and the next cursor
      selects exactly the rest: paging lists every live entity once, in id order. */
  lemma QuietPage(log: SourceLog, after: string, limit: nat)
    requires limit >= 1
    ensures var page := ReadSnapshot(log, after, limit); var ids := PageIds(log.state, after, limit);
      Listing(LiveAfter(log.state, after))
        == ids + if page.hasMore then Listing(LiveAfter(log.state, page.nextCursor)) else []
  {
    var page, ids := ReadSnapshot(log, after, limit), PageIds(log.state, after, limit);
    var all := Listing(LiveAfter(log.state, after));
    if page.hasMore {
      PageCovers(log, after, limit);
      WholeSplit(all, limit);
      RestIsAfter(log.state, after, page.nextCursor, ids, all[limit..]);
    } else {
      WholePage(ids, all);
    }
  }

  lemma WholePage(ids: seq<string>, all: seq<string>)
    requires ids == all
    ensures all == ids + []
  {
  }

  lemma RestIsAfter(state: State, after: string, next: string, ids: seq<string>, rest: seq<string>)
    requires Listing(LiveAfter(state, after)) == ids + rest
    requires forall id :: id in LiveAfter(state, next) <==> id in LiveAfter(state, after) && id !in ids
    ensures rest == Listing(LiveAfter(state, next))
  {
    forall id ensures id in rest <==> id in LiveAfter(state, next) {
      SplitSorted(ids, rest, id);
    }
    assert forall i | 0 <= i < |rest| :: rest[i] == (ids + rest)[|ids| + i];
    ListingUnique(rest, LiveAfter(state, next));
  }

  lemma SplitSorted(a: seq<string>, b: seq<string>, id: string)
    requires Sorted(a + b)
    ensures id in b <==> id in a + b && id !in a
  {
    if id in b && id in a {
      var i :| 0 <= i < |a| && a[i] == id;
      var j :| 0 <= j < |b| && b[j] == id;
      assert Less((a + b)[i], (a + b)[|a| + j]);
      LessTotal(id, id);
    }
  }

  /** Read pages until there are no more, nobody else writing. */
  function QuietSnapshot(log: SourceLog, after: string, limit: nat): seq<Record>
    requires limit >= 1
    decreases |LiveAfter(log.state, after)|
  {
    var page := ReadSnapshot(log, after, limit);
    if !page.hasMore then page.records
    else
      PageCovers(log, after, limit);
      FewerLeft(log, after, limit);
      page.records + QuietSnapshot(log, page.nextCursor, limit)
  }

  lemma FewerLeft(log: SourceLog, after: string, limit: nat)
    requires limit >= 1 && ReadSnapshot(log, after, limit).hasMore
    ensures |LiveAfter(log.state, ReadSnapshot(log, after, limit).nextCursor)| == |LiveAfter(log.state, after)| - limit
  {
    QuietPage(log, after, limit);
  }

  lemma RowsConcat(state: State, a: seq<string>, b: seq<string>)
    requires forall id | id in a + b :: id in state
    ensures (forall id | id in a :: id in state) && (forall id | id in b :: id in state)
    ensures RowsOf(state, a + b) == RowsOf(state, a) + RowsOf(state, b)
  {
    assert forall id | id in a :: id in a + b;
    assert forall id | id in b :: id in a + b;
  }

  lemma {:induction false} QuietSnapshotListsAll(log: SourceLog, after: string, limit: nat)
    requires limit >= 1
    ensures QuietSnapshot(log, after, limit) == RowsOf(log.state, Listing(LiveAfter(log.state, after)))
    decreases |LiveAfter(log.state, after)|
  {
    QuietPage(log, after, limit);
    var page, ids := ReadSnapshot(log, after, limit), PageIds(log.state, after, limit);
    if page.hasMore {
      FewerLeft(log, after, limit);
      QuietSnapshotListsAll(log, page.nextCursor, limit);
      RowsConcat(log.state, ids, Listing(LiveAfter(log.state, page.nextCursor)));
    } else {
      assert ids + [] == ids;
    }
  }

  // ----- every live record -----

  /** How many records the walks over a source's log read at a time. */
  const PAGE_LIMIT: nat := 500

  ghost predicate Keyed(state: State) { forall id | id in state :: state[id].entityId == id }

  ghost predicate DistinctIds(rs: seq<Record>) {
    forall i, j | 0 <= i < j < |rs| :: rs[i].entityId != rs[j].entityId
  }

  /** Every live record after the cursor, in id order. */
  function LiveRows(state: State, after: string): seq<Record> { RowsOf(state, Listing(LiveAfter(state, after))) }

  lemma LiveRowsSplit(log: SourceLog, cursor: string, limit: nat)
    requires limit >= 1
    ensures var page := ReadSnapshot(log, cursor, limit);
      LiveRows(log.state, cursor) == page.records + if page.hasMore then LiveRows(log.state, page.nextCursor) else []
  {
    var page, ids := ReadSnapshot(log, cursor, limit), PageIds(log.state, cursor, limit);
    QuietPage(log, cursor, limit);
    if page.hasMore {
      RowsConcat(log.state, ids, Listing(LiveAfter(log.state, page.nextCursor)));
    } else {
      assert ids + [] == ids;
    }
  }

  lemma LiveRowsCount(state: State)
    ensures |LiveRows(state, "")| == |LiveAfter(state, "")|
  {
  }

  // ----- what a consumer does with what it reads -----

  function Apply(m: State, r: Record): State {
    if r.op.Upsert? then m[r.entityId := r] else m - {r.entityId}
  }

  function Replay(m: State, rs: seq<Record>): State {
    if rs == [] then m else Apply(Replay(m, rs[..|rs| - 1]), rs[|rs| - 1])
  }

  lemma {:induction false} ReplayConcat(m: State, a: seq<Record>, b: seq<Record>)
    ensures Replay(m, a + b) == Replay(Replay(m, a), b)
    decreases |b|
  {
    if b == [] {
      assert a + b == a;
    } else {
      ReplayConcat(m, a, b[..|b| - 1]);
      assert (a + b)[..|a + b| - 1] == a + b[..|b| - 1];
    }
  }

  ghost predicate Touched(rs: seq<Record>, id: string) {
    exists i :: 0 <= i < |rs| && rs[i].entityId == id
  }

  /** Two maps say the same about `id`. */
  ghost predicate SameAt(m: State, n: State, id: string) {
    (id in m <==> id in n) && (id in m ==> m[id] == n[id])
  }

  lemma {:induction false} ReplayUntouched(m: State, rs: seq<Record>, id: string)
    requires !Touched(rs, id)
    ensures SameAt(Replay(m, rs), m, id)
  {
    if rs != [] {
      assert forall i | 0 <= i < |rs| - 1 :: rs[..|rs| - 1][i] == rs[i];
      ReplayUntouched(m, rs[..|rs| - 1], id);
    }
  }

  lemma {:induction false} ReplayTouched(m: State, rs: seq<Record>, id: string, i: nat)
    requires IsLast(rs, id, i)
    ensures id in Replay(m, rs) <==> rs[i].op.Upsert?
    ensures rs[i].op.Upsert? ==> Replay(m, rs)[id] == rs[i]
  {
    if i < |rs| - 1 {
      var p := rs[..|rs| - 1];
      assert IsLast(p, id, i) by { assert forall j | 0 <= j < |p| :: p[j] == rs[j]; }
      ReplayTouched(m, p, id, i);
    }
  }

  lemma {:induction false} LastExists(rs: seq<Record>, id: string) returns (i: nat)
    requires Touched(rs, id)
    ensures IsLast(rs, id, i)
  {
    if rs[|rs| - 1].entityId == id {
      i := |rs| - 1;
    } else {
      var p := rs[..|rs| - 1];
      var k :| 0 <= k < |rs| && rs[k].entityId == id;
      assert p[k].entityId == id;
      i := LastExists(p, id);
      assert forall j | 0 <= j < |p| :: p[j] == rs[j];
    }
  }

  /** The state of an entity does not change while nothing is recorded about it. */
  lemma FoldUntouched(h: seq<Record>, a: nat, b: nat, id: string)
    requires a <= b <= |h| && !Touched(h[a..b], id)
    ensures SameAt(Fold(h[..a]), Fold(h[..b]), id)
    decreases b
  {
    if a < b {
      assert h[a..b][b - 1 - a] == h[b - 1];
      var p := h[a..b - 1];
      forall i | 0 <= i < |p| ensures p[i].entityId != id { assert h[a..b][i] == p[i]; }
      FoldUntouched(h, a, b - 1, id);
      assert h[..b][..b - 1] == h[..b - 1];
    }
  }

  lemma FoldTouched(h: seq<Record>, a: nat, b: nat, id: string, i: nat)
    requires a <= b <= |h| && IsLast(h[a..b], id, i)
    ensures id in Fold(h[..b]) && Fold(h[..b])[id] == h[a..b][i]
  {
    var p := h[..b];
    assert forall j | 0 <= j < b - a :: h[a..b][j] == p[a + j];
    assert IsLast(p, id, a + i) by {
      forall j | a + i < j < |p| ensures p[j].entityId != id { assert h[a..b][j - a] == p[j]; }
    }
    FoldIsLastRecord(p, id);
  }

  // ----- reading all snapshot pages while the log moves on -----

  /** A page of this size, then these steps of other writers before the next page. */
  datatype SnapshotStep = SnapshotStep(limit: nat, between: seq<Action>)
  datatype SnapshotRun = SnapshotRun(records: seq<Record>, done: bool, end: System)

  function TakeSnapshot(s: System, after: string, plan: seq<SnapshotStep>): SnapshotRun
    decreases |plan|
  {
    if plan == [] then SnapshotRun([], false, s)
    else
      var page := ReadSnapshot(s.log, after, plan[0].limit);
      var s' := Exec(s, plan[0].between);
      if !page.hasMore then SnapshotRun(page.records, true, s')
      else
        var rest := TakeSnapshot(s', page.nextCursor, plan[1..]);
        SnapshotRun(page.records + rest.records, rest.done, rest.end)
  }

  ghost predicate PositiveLimits(plan: seq<SnapshotStep>) {
    forall i | 0 <= i < |plan| :: plan[i].limit >= 1
  }

  /** Everything read lies after the cursor, and every page row is an upsert under its own id. */
  lemma PageRows(s: System, after: string, limit: nat)
    requires Inv(s) && limit >= 1
    ensures PageShows(s.log, after, limit)
  {
    FoldKeys(s.hist);
    forall i | 0 <= i < |PageIds(s.log.state, after, limit)| ensures RowShows(s.log, after, limit, i) {
      RowAt(s.log, after, limit, i);
    }
  }

  /** Row `i` of a page is the live record of its id, after the cursor. */
  ghost predicate RowShows(log: SourceLog, after: string, limit: nat, i: nat)
    requires i < |PageIds(log.state, after, limit)|
  {
    var id, row := PageIds(log.state, after, limit)[i], ReadSnapshot(log, after, limit).records[i];
    row.entityId == id && row.op.Upsert? && id in log.state && row == log.state[id] && Less(after, id)
  }

  ghost predicate PageShows(log: SourceLog, after: string, limit: nat) {
    forall i | 0 <= i < |PageIds(log.state, after, limit)| :: RowShows(log, after, limit, i)
  }

  lemma RowAt(log: SourceLog, after: string, limit: nat, i: nat)
    requires i < |PageIds(log.state, after, limit)| && Keyed(log.state)
    ensures RowShows(log, after, limit, i)
  {
    var ids := PageIds(log.state, after, limit);
    assert ids[i] in ids;
  }

  lemma {:induction false} SnapshotStaysAfter(s: System, after: string, plan: seq<SnapshotStep>, id: string)
    requires Inv(s) && PositiveLimits(plan) && AtMost(id, after)
    ensures !Touched(TakeSnapshot(s, after, plan).records, id)
    decreases |plan|
  {
    if plan != [] {
      var page, s' := ReadSnapshot(s.log, after, plan[0].limit), Exec(s, plan[0].between);
      PageStaysAfter(s, after, plan[0].limit, id);
      if page.hasMore {
        ExecGrows(s, plan[0].between);
        SnapshotStaysAfter(s', page.nextCursor, plan[1..], id);
        TouchedConcat(page.records, TakeSnapshot(s', page.nextCursor, plan[1..]).records, id);
      }
    }
  }

  lemma PageStaysAfter(s: System, after: string, limit: nat, id: string)
    requires Inv(s) && limit >= 1 && AtMost(id, after)
    ensures var page := ReadSnapshot(s.log, after, limit);
      !Touched(page.records, id) && (page.hasMore ==> AtMost(id, page.nextCursor))
  {
    var page := ReadSnapshot(s.log, after, limit);
    PageRows(s, after, limit);
    forall i | 0 <= i < |page.records| ensures page.records[i].entityId != id {
      assert RowShows(s.log, after, limit, i);
      LaterDiffers(id, after, page.records[i].entityId);
    }
    PageCovers(s.log, after, limit);
    if page.hasMore && Less(id, after) { LessTransitive(id, after, page.nextCursor); }
  }

  lemma LaterDiffers(id: string, after: string, x: string)
    requires AtMost(id, after) && Less(after, x)
    ensures x != id
  {
    LessTotal(id, x);
    LessTotal(after, x);
  }

  lemma TouchedConcat(a: seq<Record>, b: seq<Record>, id: string)
    ensures Touched(a + b, id) <==> Touched(a, id) || Touched(b, id)
  {
    if Touched(a, id) { var i :| 0 <= i < |a| && a[i].entityId == id; assert (a + b)[i].entityId == id; }
    if Touched(b, id) { var i :| 0 <= i < |b| && b[i].entityId == id; assert (a + b)[|a| + i].entityId == id; }
  }

  /** What a page says about an id it covers is the state of that id when the page was read. */
  lemma PageSays(s: System, after: string, limit: nat, m: State, id: string)
    requires Inv(s) && limit >= 1 && Less(after, id) && id !in m
    requires var page := ReadSnapshot(s.log, after, limit); page.hasMore ==> AtMost(id, page.nextCursor)
    ensures SameAt(Replay(m, ReadSnapshot(s.log, after, limit).records), Live(s.log.state), id)
  {
    var page, ids := ReadSnapshot(s.log, after, limit), PageIds(s.log.state, after, limit);
    PageCovers(s.log, after, limit);
    PageRows(s, after, limit);
    if id in ids {
      var k :| 0 <= k < |ids| && ids[k] == id;
      assert RowShows(s.log, after, limit, k);
      RowIsLast(s.log, after, limit, k);
      ReplayTouched(m, page.records, id, k);
    } else {
      NotOnPage(s.log, after, limit, id);
      ReplayUntouched(m, page.records, id);
    }
  }

  lemma RowIsLast(log: SourceLog, after: string, limit: nat, k: nat)
    requires PageShows(log, after, limit) && k < |PageIds(log.state, after, limit)|
    ensures IsLast(ReadSnapshot(log, after, limit).records, PageIds(log.state, after, limit)[k], k)
  {
    var page, ids := ReadSnapshot(log, after, limit), PageIds(log.state, after, limit);
    assert RowShows(log, after, limit, k);
    forall j | k < j < |page.records| ensures page.records[j].entityId != ids[k] {
      assert RowShows(log, after, limit, j);
      LessTotal(ids[k], ids[j]);
    }
  }

  lemma NotOnPage(log: SourceLog, after: string, limit: nat, id: string)
    requires PageShows(log, after, limit) && id !in PageIds(log.state, after, limit)
    ensures !Touched(ReadSnapshot(log, after, limit).records, id)
  {
    var page, ids := ReadSnapshot(log, after, limit), PageIds(log.state, after, limit);
    forall i | 0 <= i < |page.records| ensures page.records[i].entityId != id {
      assert RowShows(log, after, limit, i) && ids[i] in ids;
    }
  }

  /** Nothing is recorded about `id` from `s` to the later state `end`. */
  ghost predicate Quiet(s: System, end: System, id: string) {
    s.hist <= end.hist && !Touched(end.hist[|s.hist|..], id)
  }

  /** Every id after the cursor that nothing is recorded about during the snapshot ends up as in
      the final state: there when live, absent when not. */
  lemma {:induction false} SnapshotSays(s: System, after: string, plan: seq<SnapshotStep>, m: State, id: string)
    requires Inv(s) && PositiveLimits(plan) && TakeSnapshot(s, after, plan).done
    requires Less(after, id) && id !in m && Quiet(s, TakeSnapshot(s, after, plan).end, id)
    ensures var run := TakeSnapshot(s, after, plan); SameAt(Replay(m, run.records), Live(run.end.log.state), id)
    decreases |plan|, 1
  {
    var page := ReadSnapshot(s.log, after, plan[0].limit);
    SnapshotEnds(s, after, plan);
    StateKept(s, TakeSnapshot(s, after, plan).end, id);
    LessTotal(id, page.nextCursor);
    if !page.hasMore {
      PageSays(s, after, plan[0].limit, m, id);
    } else if Less(page.nextCursor, id) {
      PageSkips(s, after, plan[0].limit, id);
      ReplayUntouched(m, page.records, id);
      LaterSays(s, page, plan, Replay(m, page.records), id);
      ReplayConcat(m, page.records, TakeSnapshot(Exec(s, plan[0].between), page.nextCursor, plan[1..]).records);
    } else {
      CoveredSays(s, after, plan, m, id);
    }
  }

  /** An id beyond the first page is left to the remaining pages. */
  lemma {:induction false} LaterSays(s: System, page: SnapshotPage, plan: seq<SnapshotStep>, m: State, id: string)
    requires Inv(s) && PositiveLimits(plan) && plan != [] && Less(page.nextCursor, id) && id !in m
    requires var rest := TakeSnapshot(Exec(s, plan[0].between), page.nextCursor, plan[1..]);
      rest.done && Quiet(s, rest.end, id)
    ensures var rest := TakeSnapshot(Exec(s, plan[0].between), page.nextCursor, plan[1..]);
      SameAt(Replay(m, rest.records), Live(rest.end.log.state), id)
    decreases |plan|, 0
  {
    var s' := Exec(s, plan[0].between);
    ExecGrows(s, plan[0].between);
    SnapshotEnds(s', page.nextCursor, plan[1..]);
    HistorySuffix(s.hist, s'.hist, TakeSnapshot(s', page.nextCursor, plan[1..]).end.hist, id);
    SnapshotSays(s', page.nextCursor, plan[1..], m, id);
  }

  /** An id the first page covers is not mentioned again. */
  lemma CoveredSays(s: System, after: string, plan: seq<SnapshotStep>, m: State, id: string)
    requires Inv(s) && PositiveLimits(plan) && plan != [] && Less(after, id) && id !in m
    requires var page := ReadSnapshot(s.log, after, plan[0].limit); page.hasMore && AtMost(id, page.nextCursor)
    ensures SameAt(Replay(m, TakeSnapshot(s, after, plan).records), Live(s.log.state), id)
  {
    var page := ReadSnapshot(s.log, after, plan[0].limit);
    PageSays(s, after, plan[0].limit, m, id);
    ExecGrows(s, plan[0].between);
    SnapshotStaysAfter(Exec(s, plan[0].between), page.nextCursor, plan[1..], id);
    var rest := TakeSnapshot(Exec(s, plan[0].between), page.nextCursor, plan[1..]).records;
    StillSays(m, page.records, rest, Live(s.log.state), id);
  }

  lemma StillSays(m: State, a: seq<Record>, b: seq<Record>, live: State, id: string)
    requires SameAt(Replay(m, a), live, id) && !Touched(b, id)
    ensures SameAt(Replay(m, a + b), live, id)
  {
    ReplayConcat(m, a, b);
    ReplayUntouched(Replay(m, a), b, id);
  }

  lemma {:induction false} SnapshotEnds(s: System, after: string, plan: seq<SnapshotStep>)
    requires Inv(s)
    ensures Inv(TakeSnapshot(s, after, plan).end) && Grows(s, TakeSnapshot(s, after, plan).end)
    decreases |plan|
  {
    if plan != [] {
      ExecGrows(s, plan[0].between);
      var page := ReadSnapshot(s.log, after, plan[0].limit);
      var s' := Exec(s, plan[0].between);
      if page.hasMore {
        SnapshotEnds(s', page.nextCursor, plan[1..]);
        GrowsTransitive(s, s', TakeSnapshot(s, after, plan).end);
      }
    }
  }

  lemma PageSkips(s: System, after: string, limit: nat, id: string)
    requires Inv(s) && limit >= 1
    requires var page := ReadSnapshot(s.log, after, limit); page.hasMore && Less(page.nextCursor, id)
    ensures !Touched(ReadSnapshot(s.log, after, limit).records, id)
  {
    var page, ids := ReadSnapshot(s.log, after, limit), PageIds(s.log.state, after, limit);
    PageCovers(s.log, after, limit);
    PageRows(s, after, limit);
    LessTotal(id, page.nextCursor);
    forall i | 0 <= i < |page.records| ensures page.records[i].entityId != id {
      assert RowShows(s.log, after, limit, i) && ids[i] in ids;
    }
  }

  /** Not touched after `a` means not touched after any later point. */
  lemma HistorySuffix(a: seq<Record>, b: seq<Record>, c: seq<Record>, id: string)
    requires a <= b <= c && !Touched(c[|a|..], id)
    ensures !Touched(c[|b|..], id)
  {
    forall i | 0 <= i < |c| - |b| ensures c[|b|..][i].entityId != id {
      assert c[|a|..][|b| - |a| + i] == c[|b|..][i];
    }
  }

  lemma StateKept(s: System, s': System, id: string)
    requires Inv(s) && Inv(s') && s.hist <= s'.hist && !Touched(s'.hist[|s.hist|..], id)
    ensures SameAt(Live(s.log.state), Live(s'.log.state), id)
  {
    FoldKept(s.hist, s'.hist, id);
  }

  lemma FoldKept(e: seq<Record>, h: seq<Record>, id: string)
    requires e <= h && !Touched(h[|e|..], id)
    ensures SameAt(Live(Fold(e)), Live(Fold(h)), id)
  {
    assert h[|e|..|h|] == h[|e|..] && h[..|h|] == h;
    LiveKept(e, h, |h|, id);
  }

  // ----- following the changes -----

  /** One readChanges call: `mid` and `late` happen inside it, `between` before the next call. */
  datatype FollowStep = FollowStep(limit: nat, mid: seq<Action>, late: seq<Action>, between: seq<Action>)
  datatype FollowRun = FollowRun(records: seq<Record>, cursor: nat, end: System)

  function After(s: System, step: FollowStep): System {
    Exec(Exec(Exec(s, step.mid), step.late), step.between)
  }

  function FollowChanges(s: System, cursor: nat, plan: seq<FollowStep>): FollowRun
    decreases |plan|
  {
    if plan == [] then FollowRun([], cursor, s)
    else
      var page := ReadAcross(s, plan[0].mid, plan[0].late, cursor, plan[0].limit);
      var rest := FollowChanges(After(s, plan[0]), page.nextCursor, plan[1..]);
      FollowRun(page.records + rest.records, rest.cursor, rest.end)
  }

  /** No call loses rows to a flush between its two queries (the condition of ReadIsGapFreeIff). */
  ghost predicate Undisturbed(s: System, cursor: nat, step: FollowStep) {
    var s1 := Exec(s, step.mid);
    var f0, f1 := Flushed(s.log.segments), Flushed(s1.log.segments);
    step.limit >= 1 && (f1 <= Max(cursor, f0) || cursor + step.limit <= f0 || f1 == |s1.hist|)
  }

  ghost predicate AllUndisturbed(s: System, cursor: nat, plan: seq<FollowStep>)
    decreases |plan|
  {
    plan != [] ==>
      && Undisturbed(s, cursor, plan[0])
      && var page := ReadAcross(s, plan[0].mid, plan[0].late, cursor, plan[0].limit);
         AllUndisturbed(After(s, plan[0]), page.nextCursor, plan[1..])
  }

  lemma AfterGrows(s: System, step: FollowStep)
    requires Inv(s)
    ensures Inv(Exec(s, step.mid)) && Inv(After(s, step))
    ensures s.hist <= Exec(s, step.mid).hist <= After(s, step).hist
  {
    ExecGrows(s, step.mid);
    ExecGrows(Exec(s, step.mid), step.late);
    ExecGrows(Exec(Exec(s, step.mid), step.late), step.between);
  }

  lemma FollowStepSlice(s: System, cursor: nat, step: FollowStep)
    requires Inv(s) && cursor <= |s.hist| && Undisturbed(s, cursor, step)
    ensures var page := ReadAcross(s, step.mid, step.late, cursor, step.limit); var h := Exec(s, step.mid).hist;
      && cursor <= page.nextCursor <= |h| && page.records == h[cursor..page.nextCursor]
  {
    var h := Exec(s, step.mid).hist;
    var page := ReadAcross(s, step.mid, step.late, cursor, step.limit);
    ExecGrows(s, step.mid);
    ReadIsGapFreeIff(s, step.mid, step.late, cursor, step.limit);
    ReadsAreSound(s, step.mid, step.late, cursor, step.limit);
    assert Clamp(cursor, 0, |h|) == cursor;
    assert page.nextCursor == NextCursor(page.records, cursor);
  }

  lemma FollowRest(s: System, cursor: nat, plan: seq<FollowStep>)
    requires plan != []
    ensures var page := ReadAcross(s, plan[0].mid, plan[0].late, cursor, plan[0].limit);
      var rest := FollowChanges(After(s, plan[0]), page.nextCursor, plan[1..]);
      FollowChanges(s, cursor, plan) == FollowRun(page.records + rest.records, rest.cursor, rest.end)
  {
  }

  lemma PrefixSlice(a: seq<Record>, h: seq<Record>, i: nat, j: nat, k: nat)
    requires a <= h && i <= j <= |a| && j <= k <= |h|
    ensures a[i..j] + h[j..k] == h[i..k]
  {
    assert a[i..j] == h[i..j];
    SliceSplit(h, i, j, k);
  }

  /** The run ends in a later sound state, having yielded exactly the records between the cursors. */
  ghost predicate Yields(before: seq<Record>, cursor: nat, run: FollowRun) {
    && Inv(run.end) && before <= run.end.hist
    && cursor <= run.cursor <= |run.end.hist| && run.records == run.end.hist[cursor..run.cursor]
  }

  lemma YieldsJoin(before: seq<Record>, mid: seq<Record>, after: seq<Record>, cursor: nat, next: nat,
                   records: seq<Record>, rest: FollowRun)
    requires before <= mid <= after && cursor <= next <= |mid| && records == mid[cursor..next]
        && Yields(after, next, rest)
    ensures Yields(before, cursor, FollowRun(records + rest.records, rest.cursor, rest.end))
  {
    PrefixSlice(mid, rest.end.hist, cursor, next, rest.cursor);
  }

  /** Following cursors with any limits yields each record from the cursor on once, in order. */
  lemma {:induction false} FollowingYieldsEachOnce(s: System, cursor: nat, plan: seq<FollowStep>)
    requires Inv(s) && cursor <= |s.hist| && AllUndisturbed(s, cursor, plan)
    ensures Yields(s.hist, cursor, FollowChanges(s, cursor, plan))
    decreases |plan|
  {
    if plan == [] {
      assert s.hist[cursor..cursor] == [];
    } else {
      var step := plan[0];
      var page := ReadAcross(s, step.mid, step.late, cursor, step.limit);
      AfterGrows(s, step);
      FollowStepSlice(s, cursor, step);
      FollowingYieldsEachOnce(After(s, step), page.nextCursor, plan[1..]);
      FollowRest(s, cursor, plan);
      YieldsJoin(s.hist, Exec(s, step.mid).hist, After(s, step).hist, cursor, page.nextCursor, page.records,
                 FollowChanges(After(s, step), page.nextCursor, plan[1..]));
    }
  }

  // ----- following a log nobody writes to -----

  /** Calls with nothing happening inside or between them. */
  predicate QuietCalls(plan: seq<FollowStep>) { plan == [] || (IsQuiet(plan[0]) && QuietCalls(plan[1..])) }

  predicate IsQuiet(step: FollowStep) { step == FollowStep(step.limit, [], [], []) && step.limit >= 1 }

  /** How many records the calls ask for at most. */
  function Asked(plan: seq<FollowStep>): nat { if plan == [] then 0 else plan[0].limit + Asked(plan[1..]) }

  lemma {:induction false} AskedAtLeast(plan: seq<FollowStep>)
    requires QuietCalls(plan)
    ensures Asked(plan) >= |plan|
  {
    if plan != [] { AskedAtLeast(plan[1..]); }
  }

  /** A call on a quiet log moves the cursor by its limit, or to the head. */
  lemma QuietCall(s: System, cursor: nat, step: FollowStep)
    requires Inv(s) && cursor <= |s.hist| && IsQuiet(step)
    ensures Undisturbed(s, cursor, step) && After(s, step) == s
    ensures ReadAcross(s, step.mid, step.late, cursor, step.limit).nextCursor == Min(|s.hist|, cursor + step.limit)
  {
    ReadChangesIsASlice(s.log, s.objects, s.hist, cursor, step.limit);
    assert ReadAcross(s, [], [], cursor, step.limit) == ReadChanges(s.log, s.objects, cursor, step.limit);
  }

  /** Where calls on a quiet log get to. */
  ghost predicate Reaches(s: System, cursor: nat, plan: seq<FollowStep>) {
    var run := FollowChanges(s, cursor, plan);
    AllUndisturbed(s, cursor, plan) && run.end == s && run.cursor == Min(|s.hist|, cursor + Asked(plan))
  }

  lemma ReachesMore(s: System, cursor: nat, plan: seq<FollowStep>, next: nat)
    requires plan != [] && Undisturbed(s, cursor, plan[0]) && After(s, plan[0]) == s
    requires ReadAcross(s, plan[0].mid, plan[0].late, cursor, plan[0].limit).nextCursor == next
    requires next == Min(|s.hist|, cursor + plan[0].limit) && Reaches(s, next, plan[1..])
    ensures Reaches(s, cursor, plan)
  {
    FollowRest(s, cursor, plan);
  }

  lemma {:induction false} QuietCallsReach(s: System, cursor: nat, plan: seq<FollowStep>)
    requires Inv(s) && cursor <= |s.hist| && QuietCalls(plan)
    ensures Reaches(s, cursor, plan)
    decreases |plan|
  {
    if plan != [] {
      var next := Min(|s.hist|, cursor + plan[0].limit);
      QuietCall(s, cursor, plan[0]);
      QuietCallsReach(s, next, plan[1..]);
      ReachesMore(s, cursor, plan, next);
    }
  }

  // ----- snapshot, then follow -----

  /** What the consumer holds after the snapshot pages and the changes calls. */
  function Consumed(s: System, head: nat, pages: seq<SnapshotStep>, calls: seq<FollowStep>): State {
    Replay(Replay(map[], TakeSnapshot(s, "", pages).records), Following(s, head, pages, calls).records)
  }

  /** The changes calls, from the first page's changesCursor, after the snapshot ended. */
  function Following(s: System, head: nat, pages: seq<SnapshotStep>, calls: seq<FollowStep>): FollowRun {
    FollowChanges(TakeSnapshot(s, "", pages).end, head, calls)
  }

  lemma MapsAgree(m: State, n: State)
    requires forall id | id != "" :: SameAt(m, n, id)
    ensures m - {""} == n - {""}
  {
    var m', n' := m - {""}, n - {""};
    forall id ensures id in m' <==> id in n' { if id != "" { assert SameAt(m, n, id); } }
    forall id | id in m' ensures m'[id] == n'[id] { assert SameAt(m, n, id); }
    assert m' == n';
  }

  /** The consumer contract. `head` is the changesCursor of the first page, captured at or before
      the state `s` its rows are read in. The pages may be read with any page sizes, and anything
      may be committed, flushed or crash before, between and after the reads. Once the changes have
      been followed to a point at or past the head at the end of the snapshot, the consumer holds
      exactly the entities live at that point. (No page lists an entity with an empty id.) */
  lemma SnapshotThenFollowConverges(s: System, head: nat, pages: seq<SnapshotStep>, calls: seq<FollowStep>)
    requires Inv(s) && head <= |s.hist| && PositiveLimits(pages) && TakeSnapshot(s, "", pages).done
    requires AllUndisturbed(TakeSnapshot(s, "", pages).end, head, calls)
    ensures var end, run := TakeSnapshot(s, "", pages).end, Following(s, head, pages, calls);
      && head <= run.cursor <= |run.end.hist|
      && (run.cursor >= |end.hist| ==>
            Consumed(s, head, pages, calls) - {""} == Live(Fold(run.end.hist[..run.cursor])) - {""})
  {
    var snap, run := TakeSnapshot(s, "", pages), Following(s, head, pages, calls);
    SnapshotEnds(s, "", pages);
    FollowingYieldsEachOnce(snap.end, head, calls);
    if run.cursor >= |snap.end.hist| {
      forall id | id != "" ensures SameAt(Consumed(s, head, pages, calls), Live(Fold(run.end.hist[..run.cursor])), id) {
        ConvergesAt(s, head, pages, run.end.hist, run.cursor, id);
      }
      MapsAgree(Consumed(s, head, pages, calls), Live(Fold(run.end.hist[..run.cursor])));
    }
  }

  lemma ConvergesAt(s: System, head: nat, pages: seq<SnapshotStep>, h: seq<Record>, c: nat, id: string)
    requires Inv(s) && PositiveLimits(pages) && TakeSnapshot(s, "", pages).done && id != ""
    requires s.hist <= TakeSnapshot(s, "", pages).end.hist <= h
    requires head <= |s.hist| && |TakeSnapshot(s, "", pages).end.hist| <= c <= |h|
    ensures SameAt(Replay(Replay(map[], TakeSnapshot(s, "", pages).records), h[head..c]), Live(Fold(h[..c])), id)
  {
    var m := Replay(map[], TakeSnapshot(s, "", pages).records);
    var rs := h[head..c];
    if Touched(rs, id) {
      var i := LastExists(rs, id);
      ReplayTouched(m, rs, id, i);
      FoldTouched(h, head, c, id, i);
    } else {
      ReplayUntouched(m, rs, id);
      UntouchedConverges(s, head, pages, h, c, id);
    }
  }

  lemma UntouchedConverges(s: System, head: nat, pages: seq<SnapshotStep>, h: seq<Record>, c: nat, id: string)
    requires Inv(s) && PositiveLimits(pages) && TakeSnapshot(s, "", pages).done && id != ""
    requires s.hist <= TakeSnapshot(s, "", pages).end.hist <= h
    requires head <= |s.hist| && |TakeSnapshot(s, "", pages).end.hist| <= c <= |h|
    requires !Touched(h[head..c], id)
    ensures SameAt(Replay(map[], TakeSnapshot(s, "", pages).records), Live(Fold(h[..c])), id)
  {
    var end := TakeSnapshot(s, "", pages).end;
    SnapshotEnds(s, "", pages);
    TouchedParts(end.hist, h, head, |s.hist|, c, id);
    SnapshotSays(s, "", pages, map[], id);
    LiveKept(end.hist, h, c, id);
  }

  lemma LiveKept(e: seq<Record>, h: seq<Record>, c: nat, id: string)
    requires e <= h && |e| <= c <= |h| && !Touched(h[|e|..c], id)
    ensures SameAt(Live(Fold(e)), Live(Fold(h[..c])), id)
  {
    FoldUntouched(h, |e|, c, id);
    assert h[..|e|] == e;
  }

  lemma TouchedParts(e: seq<Record>, h: seq<Record>, c0: nat, c1: nat, c: nat, id: string)
    requires e <= h && c0 <= c1 <= |e| <= c <= |h| && !Touched(h[c0..c], id)
    ensures !Touched(e[c1..], id) && !Touched(h[|e|..c], id)
  {
    var rs, x, y := h[c0..c], e[c1..], h[|e|..c];
    forall i | 0 <= i < |x| ensures x[i].entityId != id { assert rs[c1 - c0 + i] == x[i]; }
    forall i | 0 <= i < |y| ensures y[i].entityId != id { assert rs[|e| - c0 + i] == y[i]; }
  }

  /** From an empty log through any schedule: a consumer that has caught up with the head holds the
      live table itself. `gap` happens between the first page's head query and its rows query. */
  lemma CaughtUpConsumerHoldsTheLiveTable(source: string, before: seq<Action>, gap: seq<Action>,
                                          pages: seq<SnapshotStep>, calls: seq<FollowStep>)
    requires var head := Exec(Init(source), before).log.nextSeq; var s := Exec(Exec(Init(source), before), gap);
      && PositiveLimits(pages) && TakeSnapshot(s, "", pages).done
      && AllUndisturbed(TakeSnapshot(s, "", pages).end, head, calls)
      && Following(s, head, pages, calls).cursor == Following(s, head, pages, calls).end.log.nextSeq
    ensures var head := Exec(Init(source), before).log.nextSeq; var s := Exec(Exec(Init(source), before), gap);
      Consumed(s, head, pages, calls) - {""} == Live(Following(s, head, pages, calls).end.log.state) - {""}
  {
    var s0 := Exec(Init(source), before);
    AlwaysConsistent(source, before);
    ExecGrows(s0, gap);
    CaughtUp(Exec(s0, gap), s0.log.nextSeq, pages, calls);
  }

  lemma CaughtUp(s: System, head: nat, pages: seq<SnapshotStep>, calls: seq<FollowStep>)
    requires Inv(s) && head <= |s.hist| && PositiveLimits(pages) && TakeSnapshot(s, "", pages).done
    requires AllUndisturbed(TakeSnapshot(s, "", pages).end, head, calls)
    requires Following(s, head, pages, calls).cursor == Following(s, head, pages, calls).end.log.nextSeq
    ensures Consumed(s, head, pages, calls) - {""} == Live(Following(s, head, pages, calls).end.log.state) - {""}
  {
    var end, run := TakeSnapshot(s, "", pages).end, Following(s, head, pages, calls);
    SnapshotEnds(s, "", pages);
    FollowingYieldsEachOnce(end, head, calls);
    AtTheHead(run.end, run.cursor);
    SnapshotThenFollowConverges(s, head, pages, calls);
  }

  lemma AtTheHead(s: System, cursor: nat)
    requires Inv(s) && cursor == s.log.nextSeq
    ensures cursor == |s.hist| && Fold(s.hist[..cursor]) == s.log.state
  {
    assert s.hist[..cursor] == s.hist;
  }

  /** The consumer is at the head exactly when it asked for enough, and then holds the live table. */
  ghost predicate CatchesUp(end: SourceLog, head: int, asked: nat, calls: nat, cursor: nat, held: State) {
    && (cursor == end.nextSeq <==> asked >= end.nextSeq - head)
    && (calls >= end.nextSeq - head ==> cursor == end.nextSeq)
    && (cursor == end.nextSeq ==> held - {""} == Live(end.state) - {""})
  }

  /** Once nobody writes any more, catching up is a matter of asking often enough: the consumer has
      reached the head exactly when its calls asked for as many records as were ahead of it, one call
      for each record being always enough, and then it holds the live table. */
  lemma QuietConsumerCatchesUp(source: string, before: seq<Action>, gap: seq<Action>,
                               pages: seq<SnapshotStep>, calls: seq<FollowStep>)
    requires var s := Exec(Exec(Init(source), before), gap); PositiveLimits(pages) && TakeSnapshot(s, "", pages).done
    requires QuietCalls(calls)
    ensures var head := Exec(Init(source), before).log.nextSeq; var s := Exec(Exec(Init(source), before), gap);
      CatchesUp(TakeSnapshot(s, "", pages).end.log, head, Asked(calls), |calls|,
                Following(s, head, pages, calls).cursor, Consumed(s, head, pages, calls))
  {
    var s0 := Exec(Init(source), before);
    AlwaysConsistent(source, before);
    ExecGrows(s0, gap);
    QuietlyCaughtUp(Exec(s0, gap), s0.log.nextSeq, pages, calls);
  }

  lemma QuietlyCaughtUp(s: System, head: nat, pages: seq<SnapshotStep>, calls: seq<FollowStep>)
    requires Inv(s) && head <= |s.hist| && PositiveLimits(pages) && TakeSnapshot(s, "", pages).done && QuietCalls(calls)
    ensures CatchesUp(TakeSnapshot(s, "", pages).end.log, head, Asked(calls), |calls|,
                      Following(s, head, pages, calls).cursor, Consumed(s, head, pages, calls))
  {
    var end := EndOfSnapshot(s, pages);
    QuietCallsReach(end, head, calls);
    AskedAtLeast(calls);
    if Following(s, head, pages, calls).cursor == end.log.nextSeq { CaughtUp(s, head, pages, calls); }
  }

  lemma EndOfSnapshot(s: System, pages: seq<SnapshotStep>) returns (end: System)
    requires Inv(s)
    ensures end == TakeSnapshot(s, "", pages).end && Inv(end) && |s.hist| <= |end.hist| == end.log.nextSeq
  {
    SnapshotEnds(s, "", pages);
    end := TakeSnapshot(s, "", pages).end;
  }
}
