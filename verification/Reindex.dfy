/** Rebuilding the search rows of a source from its export log (src/pipeline/reindex.ts): pages of
    the snapshot, records of a page read concurrently under mapLimit, rows buffered and flushed in
    batches one at a time. Reads finish in any order. */
module Reindex {
  import opened Basics
  import opened ExportRecords
  import opened ExportReads
  import opened ExportConsumer
  import MapLimit

  datatype IndexRow = IndexRow(text: string)

  /** What projecting one record comes to: its rows, or an issue. */
  datatype Projection = Rows(rows: seq<IndexRow>) | Issue

  datatype Config = Config(batchSize: nat, concurrency: int, project: Record -> Projection)

  /** Where a worker's task stands, and where a flush call stands in the chain. */
  datatype Stage = AtRest | Reading | Flushing(call: nat)
  datatype FlushCall = Queued | Ingesting | Settled

  datatype Unit = Unit

  /** `handed` lists the batches given to ingest; `before` the records projected on earlier pages and
      `order` the positions projected on this one, both in the order they came. */
  datatype Run = Run(
    rest: seq<seq<Record>>, page: seq<Record>, pool: MapLimit.Pool<Unit>, stages: seq<Stage>,
    pending: seq<IndexRow>, flushes: seq<FlushCall>, handed: seq<seq<IndexRow>>,
    entityCount: nat, issueCount: nat, closing: bool, before: seq<Record>, order: seq<nat>)

  function OpenPage(c: Config, page: seq<Record>): MapLimit.Pool<Unit> { MapLimit.Open(|page|, c.concurrency) }

  function Resting(n: nat): seq<Stage> { seq(n, i => AtRest) }

  function Start(c: Config, first: seq<Record>, rest: seq<seq<Record>>): Run {
    Run(rest, first, OpenPage(c, first), Resting(|OpenPage(c, first).workers|), [], [], [], 0, 0, false, [], [])
  }

  // ----- the steps -----

  datatype Action =
    | TakeRecord(w: nat)
    | ReadDone(w: nat)
    | StartFlush(k: nat)
    | IngestDone(k: nat)
    | FlushSeen(w: nat)
    | NextPage
    | Close

  predicate AtStage(r: Run, w: nat, stage: Stage) {
    w < |r.stages| && r.stages[w] == stage && MapLimit.MayComplete(r.pool, w) && r.pool.workers[w].item < |r.page|
  }

  predicate MayStart(r: Run, k: nat) {
    k < |r.flushes| && r.flushes[k].Queued? && forall j | 0 <= j < k :: r.flushes[j].Settled?
  }

  predicate Enabled(r: Run, a: Action) {
    match a
    case TakeRecord(w) => w < |r.stages| && MapLimit.MayTake(r.pool, w)
    case ReadDone(w) => AtStage(r, w, Reading)
    case StartFlush(k) => MayStart(r, k)
    case IngestDone(k) => k < |r.flushes| && r.flushes[k].Ingesting?
    case FlushSeen(w) =>
      w < |r.stages| && r.stages[w].Flushing? && AtStage(r, w, r.stages[w])
      && r.stages[w].call < |r.flushes| && r.flushes[r.stages[w].call].Settled?
    case NextPage => MapLimit.IsFinished(r.pool) && r.rest != []
    case Close => MapLimit.IsFinished(r.pool) && r.rest == [] && !r.closing
  }

  function Ended(r: Run, w: nat): Run
    requires w < |r.stages| && MapLimit.MayComplete(r.pool, w)
  {
    r.(pool := MapLimit.Complete(r.pool, w, Unit), stages := r.stages[w := AtRest])
  }

  function Project(c: Config, r: Run, w: nat): Run
    requires AtStage(r, w, Reading)
  {
    var item := r.pool.workers[w].item;
    var seen := r.(order := r.order + [item]);
    match c.project(r.page[item])
    case Issue => Ended(seen.(issueCount := r.issueCount + 1), w)
    case Rows(rows) =>
      var more := seen.(entityCount := r.entityCount + 1, pending := r.pending + rows);
      if |more.pending| >= c.batchSize then
        more.(flushes := r.flushes + [Queued], stages := r.stages[w := Flushing(|r.flushes|)])
      else Ended(more, w)
  }

  function Step(c: Config, r: Run, a: Action): Run
    requires Enabled(r, a)
  {
    match a
    case TakeRecord(w) =>
      var pool := MapLimit.Take(r.pool, w);
      r.(pool := pool, stages := if pool.workers[w].Busy? then r.stages[w := Reading] else r.stages)
    case ReadDone(w) => Project(c, r, w)
    case StartFlush(k) =>
      if r.pending == [] then r.(flushes := r.flushes[k := Settled])
      else r.(flushes := r.flushes[k := Ingesting], handed := r.handed + [r.pending], pending := [])
    case IngestDone(k) => r.(flushes := r.flushes[k := Settled])
    case FlushSeen(w) => Ended(r, w)
    case NextPage =>
      var page := r.rest[0];
      r.(rest := r.rest[1..], page := page, pool := OpenPage(c, page), stages := Resting(|OpenPage(c, page).workers|),
         before := r.before + Picked(r.page, r.order), order := [])
    case Close => r.(closing := true, flushes := r.flushes + [Queued])
  }

  function Exec(c: Config, r: Run, actions: seq<Action>): Run
    decreases |actions|
  {
    if actions == [] then r
    else Exec(c, if Enabled(r, actions[0]) then Step(c, r, actions[0]) else r, actions[1..])
  }

  /** The call returned: the last flush, and with it every one before it, is over. */
  predicate Returned(r: Run) { r.closing && forall k | 0 <= k < |r.flushes| :: r.flushes[k].Settled? }

  // ----- what has been projected -----

  /** The records at these positions; positions outside the page give nothing. */
  function Picked(page: seq<Record>, order: seq<nat>): seq<Record> {
    if order == [] then []
    else
      var last := order[|order| - 1];
      Picked(page, order[..|order| - 1]) + if last < |page| then [page[last]] else []
  }

  function RowsFor(c: Config, records: seq<Record>): seq<IndexRow> {
    if records == [] then []
    else
      RowsFor(c, records[..|records| - 1])
      + match c.project(records[|records| - 1]) case Rows(rows) => rows case Issue => []
  }

  function Flat<T>(parts: seq<seq<T>>): seq<T> {
    if parts == [] then [] else Flat(parts[..|parts| - 1]) + parts[|parts| - 1]
  }

  function Projected(r: Run): seq<Record> { r.before + Picked(r.page, r.order) }

  lemma PickedStep(page: seq<Record>, order: seq<nat>, i: nat)
    requires i < |page|
    ensures Picked(page, order + [i]) == Picked(page, order) + [page[i]]
  {
    assert (order + [i])[..|order + [i]| - 1] == order;
  }

  lemma RowsStep(c: Config, records: seq<Record>, x: Record)
    ensures RowsFor(c, records + [x]) == RowsFor(c, records)
        + match c.project(x) case Rows(rows) => rows case Issue => []
  {
    assert (records + [x])[..|records + [x]| - 1] == records;
  }

  lemma FlatStep<T>(parts: seq<seq<T>>, x: seq<T>)
    ensures Flat(parts + [x]) == Flat(parts) + x
  {
    assert (parts + [x])[..|parts + [x]| - 1] == parts;
  }

  // ----- the invariant -----

  ghost predicate ReadingNow(r: Run, i: nat) {
    exists w :: 0 <= w < |r.stages| && w < |r.pool.workers| && r.stages[w].Reading?
        && r.pool.workers[w] == MapLimit.Busy(i)
  }

  ghost predicate TasksMatch(r: Run) {
    && MapLimit.Inv(r.pool) && r.pool.size == |r.page| && |r.stages| == |r.pool.workers|
    && forall w | 0 <= w < |r.stages| :: r.stages[w].AtRest? <==> !r.pool.workers[w].Busy?
  }

  /** Each started position is being read or has been projected, once. */
  ghost predicate OrderHolds(r: Run) {
    && (forall i, j | 0 <= i < j < |r.order| :: r.order[i] != r.order[j])
    && (forall i: nat :: i in r.order <==> i < r.pool.index && i < |r.page| && !ReadingNow(r, i))
  }

  ghost predicate RowsHold(c: Config, r: Run) {
    && Flat(r.handed) + r.pending == RowsFor(c, Projected(r))
    && r.entityCount + r.issueCount == |Projected(r)|
  }

  ghost predicate Chained(flushes: seq<FlushCall>) {
    forall j, k | 0 <= j < k < |flushes| && !flushes[k].Queued? :: flushes[j].Settled?
  }

  ghost predicate Closed(r: Run) {
    r.closing ==>
      && r.rest == [] && MapLimit.IsFinished(r.pool) && r.flushes != []
      && (r.flushes[|r.flushes| - 1].Queued? || r.pending == [])
  }

  ghost predicate Inv(c: Config, r: Run) {
    TasksMatch(r) && OrderHolds(r) && RowsHold(c, r) && Chained(r.flushes) && Closed(r)
  }

  // ----- each step keeps it -----

  /** Reading positions change at one worker only. */
  lemma ReadingElsewhere(r: Run, q: Run, w: nat, i: nat)
    requires |r.stages| == |r.pool.workers| == |q.stages| == |q.pool.workers| && w < |r.stages|
    requires forall v | 0 <= v < |r.stages| && v != w ::
        q.stages[v] == r.stages[v] && q.pool.workers[v] == r.pool.workers[v]
    requires r.stages[w].Reading? ==> r.pool.workers[w] != MapLimit.Busy(i)
    requires q.stages[w].Reading? ==> q.pool.workers[w] != MapLimit.Busy(i)
    ensures ReadingNow(q, i) <==> ReadingNow(r, i)
  {
    if ReadingNow(r, i) {
      var v :| 0 <= v < |r.stages| && r.stages[v].Reading? && r.pool.workers[v] == MapLimit.Busy(i);
      assert q.stages[v].Reading? && q.pool.workers[v] == MapLimit.Busy(i);
    }
    if ReadingNow(q, i) {
      var v :| 0 <= v < |q.stages| && q.stages[v].Reading? && q.pool.workers[v] == MapLimit.Busy(i);
      assert r.stages[v].Reading? && r.pool.workers[v] == MapLimit.Busy(i);
    }
  }

  lemma TakeKeepsTasks(c: Config, r: Run, w: nat)
    requires TasksMatch(r) && Enabled(r, TakeRecord(w))
    ensures TasksMatch(Step(c, r, TakeRecord(w)))
  {
    MapLimit.TakeKeepsInv(r.pool, w);
  }

  lemma TakeKeepsOrder(c: Config, r: Run, w: nat)
    requires TasksMatch(r) && OrderHolds(r) && Enabled(r, TakeRecord(w))
    ensures OrderHolds(Step(c, r, TakeRecord(w)))
  {
    var q := Step(c, r, TakeRecord(w));
    forall i: nat ensures i in q.order <==> i < q.pool.index && i < |q.page| && !ReadingNow(q, i) {
      if i == r.pool.index && i < |r.page| {
        assert q.stages[w].Reading? && q.pool.workers[w] == MapLimit.Busy(i);
      } else {
        ReadingElsewhere(r, q, w, i);
      }
    }
  }

  lemma ReadKeepsTasks(c: Config, r: Run, w: nat)
    requires TasksMatch(r) && AtStage(r, w, Reading)
    ensures TasksMatch(Project(c, r, w))
  {
    MapLimit.CompleteKeepsInv(r.pool, w, Unit);
  }

  /** The position being read is not in the order yet. */
  lemma BeingRead(r: Run, w: nat)
    requires TasksMatch(r) && OrderHolds(r) && AtStage(r, w, Reading)
    ensures ReadingNow(r, r.pool.workers[w].item) && r.pool.workers[w].item !in r.order
    ensures r.pool.workers[w].item < r.pool.index
  {
  }

  lemma ReadKeepsOrder(c: Config, r: Run, w: nat)
    requires TasksMatch(r) && OrderHolds(r) && AtStage(r, w, Reading)
    ensures OrderHolds(Project(c, r, w))
  {
    var q, item := Project(c, r, w), r.pool.workers[w].item;
    BeingRead(r, w);
    assert q.order == r.order + [item] && q.pool.index == r.pool.index && q.page == r.page;
    forall i: nat ensures ReadingNow(q, i) <==> ReadingNow(r, i) && i != item {
      if i == item {
        OnlyReader(r, q, w);
      } else {
        ReadingElsewhere(r, q, w, i);
      }
    }
  }

  lemma OnlyReader(r: Run, q: Run, w: nat)
    requires TasksMatch(r) && w < |r.stages| == |q.stages| == |q.pool.workers| && r.pool.workers[w].Busy?
    requires forall v | 0 <= v < |r.stages| && v != w ::
        q.stages[v] == r.stages[v] && q.pool.workers[v] == r.pool.workers[v]
    requires !q.stages[w].Reading?
    ensures !ReadingNow(q, r.pool.workers[w].item)
  {
    forall v | 0 <= v < |q.stages| && q.stages[v].Reading? ensures q.pool.workers[v] != r.pool.workers[w] {
      if v < w {
        assert r.pool.workers[v] != r.pool.workers[w];
      } else {
        assert r.pool.workers[w] != r.pool.workers[v];
      }
    }
  }

  lemma ReadKeepsRows(c: Config, r: Run, w: nat)
    requires RowsHold(c, r) && AtStage(r, w, Reading)
    ensures RowsHold(c, Project(c, r, w))
  {
    var q, item := Project(c, r, w), r.pool.workers[w].item;
    PickedStep(r.page, r.order, item);
    Regroup(r.before, Picked(r.page, r.order), [r.page[item]]);
    assert Projected(q) == Projected(r) + [r.page[item]];
    RowsStep(c, Projected(r), r.page[item]);
    assert q.handed == r.handed && q.pending == r.pending + RowsOfOne(c, r.page[item]) by { NoRows(r.pending); }
    Regroup(Flat(r.handed), r.pending, RowsOfOne(c, r.page[item]));
  }

  lemma NoRows(pending: seq<IndexRow>)
    ensures pending + [] == pending
  {
  }

  lemma FlushKeepsRows(c: Config, r: Run, k: nat)
    requires RowsHold(c, r) && MayStart(r, k)
    ensures RowsHold(c, Step(c, r, StartFlush(k)))
  {
    var q := Step(c, r, StartFlush(k));
    assert Projected(q) == Projected(r);
    if r.pending != [] {
      FlatStep(r.handed, r.pending);
      assert Flat(q.handed) + [] == Flat(r.handed) + r.pending;
    }
  }

  lemma FlushKeepsChain(c: Config, r: Run, k: nat)
    requires Chained(r.flushes) && Closed(r) && MayStart(r, k)
    ensures Chained(Step(c, r, StartFlush(k)).flushes) && Closed(Step(c, r, StartFlush(k)))
  {
  }

  /** Nothing about the tasks changes. */
  lemma SameTasks(r: Run, q: Run)
    requires TasksMatch(r) && OrderHolds(r) && q.pool == r.pool && q.stages == r.stages && q.page == r.page
        && q.order == r.order
    ensures TasksMatch(q) && OrderHolds(q)
  {
    assert forall i: nat :: ReadingNow(q, i) <==> ReadingNow(r, i);
  }

  lemma FlushKeepsInv(c: Config, r: Run, k: nat)
    requires Inv(c, r) && MayStart(r, k)
    ensures Inv(c, Step(c, r, StartFlush(k)))
  {
    FlushKeepsRows(c, r, k);
    FlushKeepsChain(c, r, k);
    SameTasks(r, Step(c, r, StartFlush(k)));
  }

  lemma EndKeepsInv(c: Config, r: Run, w: nat)
    requires Inv(c, r) && Enabled(r, FlushSeen(w))
    ensures Inv(c, Step(c, r, FlushSeen(w)))
  {
    var q := Step(c, r, FlushSeen(w));
    MapLimit.CompleteKeepsInv(r.pool, w, Unit);
    forall i: nat ensures ReadingNow(q, i) <==> ReadingNow(r, i) { ReadingElsewhere(r, q, w, i); }
  }

  lemma ReadKeepsInv(c: Config, r: Run, w: nat)
    requires Inv(c, r) && AtStage(r, w, Reading)
    ensures Inv(c, Project(c, r, w))
  {
    ReadKeepsTasks(c, r, w);
    ReadKeepsOrder(c, r, w);
    ReadKeepsRows(c, r, w);
    ReadKeepsChain(c, r, w);
  }

  lemma ReadKeepsChain(c: Config, r: Run, w: nat)
    requires Chained(r.flushes) && Closed(r) && TasksMatch(r) && AtStage(r, w, Reading)
    ensures Chained(Project(c, r, w).flushes) && Closed(Project(c, r, w))
  {
    assert !r.closing by { assert !r.pool.workers[w].Finished?; }
    QueueMore(r.flushes);
  }

  lemma QueueMore(flushes: seq<FlushCall>)
    requires Chained(flushes)
    ensures Chained(flushes + [Queued])
  {
  }

  lemma OpenedIsFresh(c: Config, r: Run)
    requires r.pool == OpenPage(c, r.page) && r.stages == Resting(|r.pool.workers|) && r.order == []
    ensures TasksMatch(r) && OrderHolds(r)
  {
    MapLimit.OpenHoldsInv<Unit>(|r.page|, c.concurrency);
  }

  lemma NextKeepsInv(c: Config, r: Run)
    requires Inv(c, r) && Enabled(r, NextPage)
    ensures Inv(c, Step(c, r, NextPage))
  {
    var q := Step(c, r, NextPage);
    OpenedIsFresh(c, q);
    assert Picked(q.page, []) == [];
    assert Projected(q) == Projected(r) + [] == Projected(r);
  }

  lemma StepKeepsInv(c: Config, r: Run, a: Action)
    requires Inv(c, r) && Enabled(r, a)
    ensures Inv(c, Step(c, r, a))
  {
    match a
    case TakeRecord(w) => TakeKeepsTasks(c, r, w); TakeKeepsOrder(c, r, w);
    case ReadDone(w) => ReadKeepsInv(c, r, w);
    case StartFlush(k) => FlushKeepsInv(c, r, k);
    case IngestDone(k) => SameTasks(r, Step(c, r, a));
    case FlushSeen(w) => EndKeepsInv(c, r, w);
    case NextPage => NextKeepsInv(c, r);
    case Close => SameTasks(r, Step(c, r, a));
  }

  lemma {:induction false} ExecKeepsInv(c: Config, r: Run, actions: seq<Action>)
    requires Inv(c, r)
    ensures Inv(c, Exec(c, r, actions))
    decreases |actions|
  {
    if actions != [] {
      if Enabled(r, actions[0]) { StepKeepsInv(c, r, actions[0]); }
      ExecKeepsInv(c, if Enabled(r, actions[0]) then Step(c, r, actions[0]) else r, actions[1..]);
    }
  }

  lemma StartHoldsInv(c: Config, first: seq<Record>, rest: seq<seq<Record>>)
    ensures Inv(c, Start(c, first, rest))
  {
    OpenedIsFresh(c, Start(c, first, rest));
    assert Picked(first, []) == [];
  }

  // ----- everything that was there has been seen -----

  /** What is on the pages still to come, on this one, and behind. */
  ghost predicate Covers(r: Run, all: seq<Record>) {
    multiset(r.before) + multiset(r.page) + multiset(Flat(r.rest)) == multiset(all)
  }

  lemma {:induction false} FlatFirst<T>(parts: seq<seq<T>>)
    requires parts != []
    ensures Flat(parts) == parts[0] + Flat(parts[1..])
  {
    if |parts| > 1 {
      var p := parts[..|parts| - 1];
      FlatFirst(p);
      assert parts[1..][..|parts| - 2] == p[1..];
      Regroup(parts[0], Flat(p[1..]), parts[|parts| - 1]);
    } else {
      assert parts[..0] == [] && parts[1..] == [];
      assert [] + parts[0] == parts[0] + [];
    }
  }

  /** Every position below `n`, once. */
  ghost predicate Permutes(order: seq<nat>, n: nat) {
    && (forall i, j | 0 <= i < j < |order| :: order[i] != order[j])
    && (forall i: nat :: i in order <==> i < n)
  }

  ghost predicate Below(order: seq<nat>, n: nat) { forall k | 0 <= k < |order| :: order[k] < n }

  /** Each position once: the records picked are the page's. */
  lemma {:induction false} PickedAll(page: seq<Record>, order: seq<nat>)
    requires Permutes(order, |page|)
    ensures multiset(Picked(page, order)) == multiset(page)
    decreases |page|
  {
    if page == [] {
      PickedNone(order);
    } else {
      var n := |page| - 1;
      assert n in order;
      var k :| 0 <= k < |order| && order[k] == n;
      Without(order, k, n);
      PickedAll(page[..n], order[..k] + order[k + 1..]);
      PickedMinus(page, order, k);
      SplitLast(page);
    }
  }

  lemma SplitLast(s: seq<Record>)
    requires s != []
    ensures multiset(s) == multiset(s[..|s| - 1]) + multiset{s[|s| - 1]}
    ensures multiset(s[..|s| - 1]) == multiset(s) - multiset{s[|s| - 1]}
  {
    assert s == s[..|s| - 1] + [s[|s| - 1]];
  }

  lemma SplitAt(s: seq<Record>, k: nat)
    requires k < |s|
    ensures multiset(s[..k] + s[k + 1..]) == multiset(s) - multiset{s[k]}
  {
    assert s == s[..k] + [s[k]] + s[k + 1..];
  }

  lemma {:induction false} PickedNone(order: seq<nat>)
    ensures Picked([], order) == []
  {
    if order != [] { PickedNone(order[..|order| - 1]); }
  }

  lemma PickedMinus(page: seq<Record>, order: seq<nat>, k: nat)
    requires page != [] && k < |order| && order[k] == |page| - 1
    requires Below(order[..k], |page| - 1) && Below(order[k + 1..], |page| - 1)
    ensures multiset(Picked(page, order)) == multiset(Picked(page[..|page| - 1], order[..k] + order[k + 1..]))
        + multiset{page[|page| - 1]}
  {
    assert order == order[..k] + [order[k]] + order[k + 1..];
    PickedParts(page, order[..k], order[k + 1..]);
  }

  lemma PickedParts(page: seq<Record>, a: seq<nat>, b: seq<nat>)
    requires page != [] && Below(a, |page| - 1) && Below(b, |page| - 1)
    ensures var n := |page| - 1;
      multiset(Picked(page, a + [n] + b)) == multiset(Picked(page[..n], a + b)) + multiset{page[n]}
  {
    var n := |page| - 1;
    PickedAround(page, a, n, b);
    PickedBeside(page, a, b);
    OneBetween(Picked(page, a), page[n], Picked(page, b));
  }

  lemma PickedBeside(page: seq<Record>, a: seq<nat>, b: seq<nat>)
    requires page != [] && Below(a, |page| - 1) && Below(b, |page| - 1)
    ensures Picked(page[..|page| - 1], a + b) == Picked(page, a) + Picked(page, b)
  {
    PickedShorter(page, a);
    PickedShorter(page, b);
    PickedConcat(page[..|page| - 1], a, b);
  }

  lemma PickedAround(page: seq<Record>, a: seq<nat>, n: nat, b: seq<nat>)
    requires n < |page|
    ensures Picked(page, a + [n] + b) == Picked(page, a) + [page[n]] + Picked(page, b)
  {
    PickedConcat(page, a + [n], b);
    PickedStep(page, a, n);
  }

  lemma OneBetween(u: seq<Record>, x: Record, v: seq<Record>)
    ensures multiset(u + [x] + v) == multiset(u + v) + multiset{x}
  {
  }

  lemma Without(order: seq<nat>, k: nat, n: nat)
    requires k < |order| && order[k] == n && Permutes(order, n + 1)
    ensures Permutes(order[..k] + order[k + 1..], n)
    ensures Below(order[..k], n) && Below(order[k + 1..], n)
  {
    var s := order[..k] + order[k + 1..];
    assert forall i | 0 <= i < |s| :: s[i] == order[if i < k then i else i + 1];
    forall j | 0 <= j < |order| && j != k ensures order[j] < n { assert order[j] in order; }
    forall i: nat ensures i in s <==> i < n {
      if i < n {
        assert i in order;
        var j :| 0 <= j < |order| && order[j] == i;
        assert s[if j < k then j else j - 1] == i;
      }
    }
  }

  lemma {:induction false} PickedConcat(page: seq<Record>, a: seq<nat>, b: seq<nat>)
    ensures Picked(page, a + b) == Picked(page, a) + Picked(page, b)
    decreases |b|
  {
    if b == [] {
      assert a + b == a;
    } else {
      PickedConcat(page, a, b[..|b| - 1]);
      assert (a + b)[..|a + b| - 1] == a + b[..|b| - 1];
    }
  }

  lemma {:induction false} PickedShorter(page: seq<Record>, order: seq<nat>)
    requires page != [] && Below(order, |page| - 1)
    ensures Picked(page, order) == Picked(page[..|page| - 1], order)
  {
    if order != [] {
      PickedShorter(page, order[..|order| - 1]);
    }
  }

  lemma PageDone(r: Run)
    requires TasksMatch(r) && OrderHolds(r) && MapLimit.IsFinished(r.pool)
    ensures multiset(Picked(r.page, r.order)) == multiset(r.page)
  {
    MapLimit.FinishedIsComplete(r.pool);
    forall i: nat ensures !ReadingNow(r, i) { }
    PickedAll(r.page, r.order);
  }

  lemma StepCovers(c: Config, r: Run, a: Action, all: seq<Record>)
    requires Inv(c, r) && Covers(r, all) && Enabled(r, a)
    ensures Covers(Step(c, r, a), all)
  {
    var q := Step(c, r, a);
    if a == NextPage {
      PageDone(r);
      FlatFirst(r.rest);
      PageMoves(r.before, Picked(r.page, r.order), r.page, r.rest[0], Flat(r.rest[1..]));
    } else {
      SamePages(c, r, a);
    }
  }

  lemma SamePages(c: Config, r: Run, a: Action)
    requires Enabled(r, a) && a != NextPage
    ensures var q := Step(c, r, a); q.before == r.before && q.page == r.page && q.rest == r.rest
  {
  }

  lemma PageMoves(before: seq<Record>, picked: seq<Record>, page: seq<Record>, next: seq<Record>, later: seq<Record>)
    requires multiset(picked) == multiset(page)
    ensures multiset(before + picked) + multiset(next) + multiset(later)
        == multiset(before) + multiset(page) + multiset(next + later)
  {
  }

  lemma {:induction false} ExecCovers(c: Config, r: Run, actions: seq<Action>, all: seq<Record>)
    requires Inv(c, r) && Covers(r, all)
    ensures Covers(Exec(c, r, actions), all)
    decreases |actions|
  {
    if actions != [] {
      var a := actions[0];
      if Enabled(r, a) {
        StepKeepsInv(c, r, a);
        StepCovers(c, r, a, all);
      }
      ExecCovers(c, if Enabled(r, a) then Step(c, r, a) else r, actions[1..], all);
    }
  }

  /** Rows depend on which records are projected, not on their order. */
  lemma {:induction false} RowsOfPermuted(c: Config, a: seq<Record>, b: seq<Record>)
    requires multiset(a) == multiset(b)
    ensures multiset(RowsFor(c, a)) == multiset(RowsFor(c, b))
    decreases |a|
  {
    if a == [] {
      assert |multiset(b)| == |multiset(a)| == 0;
    } else {
      var x, p := a[|a| - 1], a[..|a| - 1];
      assert a == p + [x];
      assert x in multiset(b);
      var k :| 0 <= k < |b| && b[k] == x;
      LessOne(a, b, k);
      RowsOfPermuted(c, p, b[..k] + b[k + 1..]);
      RowsStep(c, p, x);
      RowsMinus(c, b, k);
    }
  }

  function RowsOfOne(c: Config, x: Record): seq<IndexRow> {
    match c.project(x) case Rows(rows) => rows case Issue => []
  }

  lemma LessOne(a: seq<Record>, b: seq<Record>, k: nat)
    requires multiset(a) == multiset(b) && a != [] && k < |b| && b[k] == a[|a| - 1]
    ensures multiset(a[..|a| - 1]) == multiset(b[..k] + b[k + 1..])
  {
    SplitLast(a);
    SplitAt(b, k);
  }

  lemma RowsMinus(c: Config, b: seq<Record>, k: nat)
    requires k < |b|
    ensures multiset(RowsFor(c, b)) == multiset(RowsFor(c, b[..k] + b[k + 1..])) + multiset(RowsOfOne(c, b[k]))
  {
    var u, v := b[..k], b[k + 1..];
    assert b == u + [b[k]] + v;
    RowsConcat(c, u + [b[k]], v);
    RowsStep(c, u, b[k]);
    RowsConcat(c, u, v);
  }

  lemma {:induction false} RowsConcat(c: Config, a: seq<Record>, b: seq<Record>)
    ensures RowsFor(c, a + b) == RowsFor(c, a) + RowsFor(c, b)
    decreases |b|
  {
    if b == [] {
      assert a + b == a;
    } else {
      RowsConcat(c, a, b[..|b| - 1]);
      assert a + b == (a + b[..|b| - 1]) + [b[|b| - 1]];
      RowsStep(c, a + b[..|b| - 1], b[|b| - 1]);
    }
  }

  /** At most one ingest call is under way, whatever the schedule. */
  lemma IngestsDoNotOverlap(c: Config, first: seq<Record>, rest: seq<seq<Record>>, actions: seq<Action>, j: nat, k: nat)
    requires var r := Exec(c, Start(c, first, rest), actions);
      j < |r.flushes| && k < |r.flushes| && r.flushes[j].Ingesting? && r.flushes[k].Ingesting?
    ensures j == k
  {
    StartHoldsInv(c, first, rest);
    ExecKeepsInv(c, Start(c, first, rest), actions);
  }

  /** For every order in which reads and ingests finish: once the call has returned, what was handed
      to ingest is, row for row, the projections of all records of all pages that raised no issue,
      and every record was counted once, as an entity or as an issue. */
  lemma EveryRecordOnce(c: Config, first: seq<Record>, rest: seq<seq<Record>>, actions: seq<Action>)
    requires Returned(Exec(c, Start(c, first, rest), actions))
    ensures var r := Exec(c, Start(c, first, rest), actions); var all := first + Flat(rest);
      && multiset(Flat(r.handed)) == multiset(RowsFor(c, all))
      && r.entityCount + r.issueCount == |all| && r.pending == []
  {
    var s, all := Start(c, first, rest), first + Flat(rest);
    var r := Exec(c, s, actions);
    StartHoldsInv(c, first, rest);
    ExecKeepsInv(c, s, actions);
    assert multiset(all) == multiset(first) + multiset(Flat(rest));
    ExecCovers(c, s, actions, all);
    PageDone(r);
    assert r.rest == [] && r.pending == [];
    assert multiset(Projected(r)) == multiset(all);
    assert |Projected(r)| == |multiset(Projected(r))| == |multiset(all)| == |all|;
    RowsOfPermuted(c, Projected(r), all);
    assert Flat(r.handed) + [] == Flat(r.handed);
  }

  // ----- how long a run can be -----

  function WorkerWeight(worker: MapLimit.Worker, stage: Stage): nat {
    match worker
    case Ready => 1
    case Finished => 0
    case Busy(_) => if stage.Reading? then 5 else 2
  }

  function FlushWeight(f: FlushCall): nat {
    match f
    case Queued => 2
    case Ingesting => 1
    case Settled => 0
  }

  function WorkerWeights(workers: seq<MapLimit.Worker>, stages: seq<Stage>): seq<nat>
    requires |workers| == |stages|
  {
    seq(|workers|, w requires 0 <= w < |workers| => WorkerWeight(workers[w], stages[w]))
  }

  function FlushWeights(flushes: seq<FlushCall>): seq<nat> {
    seq(|flushes|, k requires 0 <= k < |flushes| => FlushWeight(flushes[k]))
  }

  /** What a page not yet opened can still cost. */
  function PageWeight(c: Config, n: nat): nat { 5 * n + MapLimit.Workers(c.concurrency, n) + 1 }

  function PageWeights(c: Config, pages: seq<seq<Record>>): nat {
    if pages == [] then 0 else PageWeight(c, |pages[0]|) + PageWeights(c, pages[1..])
  }

  function Unstarted(pool: MapLimit.Pool<Unit>): nat {
    if pool.index < pool.size then 5 * (pool.size - pool.index) else 0
  }

  /** A bound on the actions still to come. */
  function ToGo(c: Config, r: Run): nat
    requires |r.pool.workers| == |r.stages|
  {
    Sum(WorkerWeights(r.pool.workers, r.stages)) + Unstarted(r.pool) + Sum(FlushWeights(r.flushes))
    + PageWeights(c, r.rest) + if r.closing then 0 else 3
  }

  lemma WorkerMoves(r: Run, q: Run, w: nat)
    requires w < |r.pool.workers| == |r.stages| && |q.pool.workers| == |q.stages| == |r.stages|
    requires q.pool.workers == r.pool.workers[w := q.pool.workers[w]] && q.stages == r.stages[w := q.stages[w]]
    ensures Sum(WorkerWeights(q.pool.workers, q.stages)) + WorkerWeight(r.pool.workers[w], r.stages[w])
         == Sum(WorkerWeights(r.pool.workers, r.stages)) + WorkerWeight(q.pool.workers[w], q.stages[w])
  {
    SumUpdate(WorkerWeights(r.pool.workers, r.stages), w, WorkerWeight(q.pool.workers[w], q.stages[w]));
    assert WorkerWeights(q.pool.workers, q.stages)
        == WorkerWeights(r.pool.workers, r.stages)[w := WorkerWeight(q.pool.workers[w], q.stages[w])];
  }

  lemma FlushMoves(flushes: seq<FlushCall>, k: nat, f: FlushCall)
    requires k < |flushes|
    ensures Sum(FlushWeights(flushes[k := f])) + FlushWeight(flushes[k]) == Sum(FlushWeights(flushes)) + FlushWeight(f)
  {
    SumUpdate(FlushWeights(flushes), k, FlushWeight(f));
    assert FlushWeights(flushes[k := f]) == FlushWeights(flushes)[k := FlushWeight(f)];
  }

  lemma FlushAdded(flushes: seq<FlushCall>)
    ensures Sum(FlushWeights(flushes + [Queued])) == Sum(FlushWeights(flushes)) + 2
  {
    assert FlushWeights(flushes + [Queued])[..|flushes|] == FlushWeights(flushes);
  }

  lemma OpenWeighs(c: Config, page: seq<Record>)
    ensures Sum(WorkerWeights(OpenPage(c, page).workers, Resting(|OpenPage(c, page).workers|)))
        + Unstarted(OpenPage(c, page)) + 1
         == PageWeight(c, |page|)
  {
    SumOfSame(WorkerWeights(OpenPage(c, page).workers, Resting(|OpenPage(c, page).workers|)), 1);
  }

  lemma DoneWeighsNothing(r: Run)
    requires TasksMatch(r) && MapLimit.IsFinished(r.pool)
    ensures Sum(WorkerWeights(r.pool.workers, r.stages)) == 0 && Unstarted(r.pool) == 0
  {
    MapLimit.FinishedIsComplete(r.pool);
    SumOfSame(WorkerWeights(r.pool.workers, r.stages), 0);
  }

  lemma TakeCosts(c: Config, r: Run, w: nat)
    requires TasksMatch(r) && Enabled(r, TakeRecord(w))
    ensures ToGo(c, Step(c, r, TakeRecord(w))) < ToGo(c, r)
  {
    WorkerMoves(r, Step(c, r, TakeRecord(w)), w);
  }

  lemma ReadCosts(c: Config, r: Run, w: nat)
    requires TasksMatch(r) && AtStage(r, w, Reading)
    ensures ToGo(c, Project(c, r, w)) < ToGo(c, r)
  {
    WorkerMoves(r, Project(c, r, w), w);
    FlushAdded(r.flushes);
  }

  lemma FlushCosts(c: Config, r: Run, a: Action)
    requires TasksMatch(r) && Enabled(r, a) && (a.StartFlush? || a.IngestDone?)
    ensures ToGo(c, Step(c, r, a)) < ToGo(c, r)
  {
    var k := a.k;
    FlushMoves(r.flushes, k, Step(c, r, a).flushes[k]);
  }

  lemma SeenCosts(c: Config, r: Run, w: nat)
    requires TasksMatch(r) && Enabled(r, FlushSeen(w))
    ensures ToGo(c, Step(c, r, FlushSeen(w))) < ToGo(c, r)
  {
    WorkerMoves(r, Step(c, r, FlushSeen(w)), w);
  }

  lemma NextCosts(c: Config, r: Run)
    requires TasksMatch(r) && Enabled(r, NextPage)
    ensures ToGo(c, Step(c, r, NextPage)) < ToGo(c, r)
  {
    DoneWeighsNothing(r);
    OpenWeighs(c, r.rest[0]);
  }

  /** Every step uses up something. */
  lemma StepCosts(c: Config, r: Run, a: Action)
    requires TasksMatch(r) && Enabled(r, a)
    ensures |Step(c, r, a).pool.workers| == |Step(c, r, a).stages| && ToGo(c, Step(c, r, a)) < ToGo(c, r)
  {
    match a
    case TakeRecord(w) => TakeCosts(c, r, w);
    case ReadDone(w) => ReadCosts(c, r, w);
    case StartFlush(_) => FlushCosts(c, r, a);
    case IngestDone(_) => FlushCosts(c, r, a);
    case FlushSeen(w) => SeenCosts(c, r, w);
    case NextPage => NextCosts(c, r);
    case Close => FlushAdded(r.flushes);
  }

  // ----- a run can go on until it returned -----

  /** Every task waits for a flush call there is. */
  ghost predicate CallsExist(r: Run) {
    forall w | 0 <= w < |r.stages| && r.stages[w].Flushing? :: r.stages[w].call < |r.flushes|
  }

  lemma StepKeepsCalls(c: Config, r: Run, a: Action)
    requires CallsExist(r) && Enabled(r, a)
    ensures CallsExist(Step(c, r, a))
  {
  }

  /** The first flush call that is not over can go on. */
  lemma FirstUnsettled(r: Run) returns (a: Action)
    requires exists k :: 0 <= k < |r.flushes| && !r.flushes[k].Settled?
    ensures Enabled(r, a)
  {
    var k := 0;
    while r.flushes[k].Settled?
      invariant 0 <= k < |r.flushes| && forall j | 0 <= j < k :: r.flushes[j].Settled?
      invariant exists i :: k <= i < |r.flushes| && !r.flushes[i].Settled?
      decreases |r.flushes| - k
    {
      k := k + 1;
    }
    a := if r.flushes[k].Queued? then StartFlush(k) else IngestDone(k);
  }

  lemma NeverStuck(c: Config, r: Run) returns (a: Action)
    requires TasksMatch(r) && CallsExist(r) && !Returned(r)
    ensures Enabled(r, a)
  {
    if k :| 0 <= k < |r.flushes| && !r.flushes[k].Settled? {
      a := FirstUnsettled(r);
    } else if !MapLimit.IsFinished(r.pool) {
      var w :| 0 <= w < |r.pool.workers| && !r.pool.workers[w].Finished?;
      a := if r.pool.workers[w].Ready? then TakeRecord(w) else if r.stages[w].Reading? then ReadDone(w)
        else FlushSeen(w);
    } else {
      a := if r.rest != [] then NextPage else Close;
    }
  }

  lemma ReturnedIsOver(c: Config, r: Run, a: Action)
    requires Inv(c, r) && Returned(r)
    ensures !Enabled(r, a)
  {
  }

  /** Every action of the schedule is enabled when it comes. */
  predicate Runs(c: Config, r: Run, actions: seq<Action>)
    decreases |actions|
  {
    actions == [] || (Enabled(r, actions[0]) && Runs(c, Step(c, r, actions[0]), actions[1..]))
  }

  lemma {:induction false} RunCosts(c: Config, r: Run, actions: seq<Action>)
    requires Inv(c, r) && CallsExist(r) && Runs(c, r, actions)
    ensures var q := Exec(c, r, actions); Inv(c, q) && CallsExist(q) && |actions| + ToGo(c, q) <= ToGo(c, r)
    decreases |actions|
  {
    if actions != [] {
      var a := actions[0];
      StepKeepsInv(c, r, a);
      StepKeepsCalls(c, r, a);
      StepCosts(c, r, a);
      RunCosts(c, Step(c, r, a), actions[1..]);
    }
  }

  lemma StartWeighs(c: Config, first: seq<Record>, rest: seq<seq<Record>>)
    ensures ToGo(c, Start(c, first, rest)) == PageWeights(c, [first] + rest) + 2
  {
    OpenWeighs(c, first);
    assert ([first] + rest)[1..] == rest && Sum(FlushWeights([])) == 0;
  }

  /** Every run ends, and it ends by returning: its length is bounded by what the pages weigh, and it
      can go on exactly as long as the call has not returned. */
  lemma EveryRunReturns(c: Config, first: seq<Record>, rest: seq<seq<Record>>, actions: seq<Action>)
    requires Runs(c, Start(c, first, rest), actions)
    ensures var r := Exec(c, Start(c, first, rest), actions);
      && |actions| <= PageWeights(c, [first] + rest) + 2
      && (!Returned(r) <==> exists a :: Enabled(r, a))
  {
    var s := Start(c, first, rest);
    StartHoldsInv(c, first, rest);
    StartWeighs(c, first, rest);
    RunCosts(c, s, actions);
    GoesOnIff(c, Exec(c, s, actions));
  }

  lemma GoesOnIff(c: Config, r: Run)
    requires Inv(c, r) && CallsExist(r)
    ensures !Returned(r) <==> exists a :: Enabled(r, a)
  {
    if Returned(r) {
      forall a ensures !Enabled(r, a) { ReturnedIsOver(c, r, a); }
    } else {
      var a := NeverStuck(c, r);
    }
  }

  // ----- how much waits to be flushed -----

  /** No record has more rows than that. */
  ghost predicate AtMostRows(c: Config, m: nat) { forall x | c.project(x).Rows? :: |c.project(x).rows| <= m }

  function WaitWeight(stage: Stage, flushes: seq<FlushCall>): nat {
    if stage.Flushing? && stage.call < |flushes| && flushes[stage.call].Queued? then 1 else 0
  }

  function WaitWeights(stages: seq<Stage>, flushes: seq<FlushCall>): seq<nat> {
    seq(|stages|, w requires 0 <= w < |stages| => WaitWeight(stages[w], flushes))
  }

  /** How many workers wait for a flush call that has not started. */
  function Waiting(r: Run): nat { Sum(WaitWeights(r.stages, r.flushes)) }

  /** Each row beyond a batch was pushed by a worker that now waits for a flush to start. */
  ghost predicate Bounded(c: Config, m: nat, r: Run) { |r.pending| <= Max(c.batchSize - 1, 0) + m * Waiting(r) }

  /** Before a batch is full nobody flushes. */
  ghost predicate Unhurried(c: Config, r: Run) {
    |r.pending| < c.batchSize && !r.closing && r.handed == [] ==> r.flushes == []
  }

  lemma WaitMoves(r: Run, q: Run, w: nat)
    requires w < |r.stages| == |q.stages| && q.stages == r.stages[w := q.stages[w]]
    requires CallsExist(r) && r.flushes <= q.flushes
    ensures Waiting(q) + WaitWeight(r.stages[w], r.flushes) == Waiting(r) + WaitWeight(q.stages[w], q.flushes)
  {
    SumUpdate(WaitWeights(r.stages, r.flushes), w, WaitWeight(q.stages[w], q.flushes));
    assert WaitWeights(q.stages, q.flushes)
        == WaitWeights(r.stages, r.flushes)[w := WaitWeight(q.stages[w], q.flushes)];
  }

  lemma WaitStays(r: Run, q: Run)
    requires q.stages == r.stages && |q.flushes| >= |r.flushes| && CallsExist(r)
    requires forall k | 0 <= k < |r.flushes| :: q.flushes[k].Queued? <==> r.flushes[k].Queued?
    ensures Waiting(q) == Waiting(r)
  {
    assert WaitWeights(q.stages, q.flushes) == WaitWeights(r.stages, r.flushes);
  }

  lemma NobodyWaits(r: Run)
    requires TasksMatch(r) && MapLimit.IsFinished(r.pool)
    ensures Waiting(r) == 0
  {
    SumOfSame(WaitWeights(r.stages, r.flushes), 0);
  }

  lemma ReadKeepsBound(c: Config, m: nat, r: Run, w: nat)
    requires Bounded(c, m, r) && AtMostRows(c, m) && CallsExist(r) && AtStage(r, w, Reading)
    ensures Bounded(c, m, Project(c, r, w))
  {
    WaitMoves(r, Project(c, r, w), w);
    assert c.project(r.page[r.pool.workers[w].item]).Rows? ==>
        |c.project(r.page[r.pool.workers[w].item]).rows| <= m;
    assert m * (Waiting(r) + 1) == m * Waiting(r) + m;
  }

  lemma StartKeepsBound(c: Config, m: nat, r: Run, k: nat)
    requires Bounded(c, m, r) && MayStart(r, k)
    ensures Bounded(c, m, Step(c, r, StartFlush(k)))
  {
  }

  lemma OtherKeepsBound(c: Config, m: nat, r: Run, a: Action)
    requires TasksMatch(r) && CallsExist(r) && Bounded(c, m, r) && Enabled(r, a)
    requires a.TakeRecord? || a.IngestDone? || a.FlushSeen? || a.Close?
    ensures Bounded(c, m, Step(c, r, a))
  {
    if a.TakeRecord? || a.FlushSeen? { WorkerKeepsWaiting(c, r, a); } else { WaitStays(r, Step(c, r, a)); }
  }

  lemma WorkerKeepsWaiting(c: Config, r: Run, a: Action)
    requires TasksMatch(r) && CallsExist(r) && Enabled(r, a) && (a.TakeRecord? || a.FlushSeen?)
    ensures Waiting(Step(c, r, a)) == Waiting(r) && Step(c, r, a).pending == r.pending
  {
    WaitMoves(r, Step(c, r, a), a.w);
  }

  lemma StepKeepsBound(c: Config, m: nat, r: Run, a: Action)
    requires TasksMatch(r) && CallsExist(r) && Bounded(c, m, r) && AtMostRows(c, m) && Enabled(r, a)
    ensures Bounded(c, m, Step(c, r, a))
  {
    match a
    case ReadDone(w) => ReadKeepsBound(c, m, r, w);
    case StartFlush(k) => StartKeepsBound(c, m, r, k);
    case NextPage => NobodyWaits(r);
    case _ => OtherKeepsBound(c, m, r, a);
  }

  lemma StepKeepsHurry(c: Config, r: Run, a: Action)
    requires Unhurried(c, r) && Enabled(r, a)
    ensures Unhurried(c, Step(c, r, a))
  {
  }

  lemma {:induction false} ExecKeepsBound(c: Config, m: nat, r: Run, actions: seq<Action>)
    requires Inv(c, r) && CallsExist(r) && Bounded(c, m, r) && Unhurried(c, r) && AtMostRows(c, m)
    ensures var q := Exec(c, r, actions); Inv(c, q) && Bounded(c, m, q) && Unhurried(c, q)
    decreases |actions|
  {
    if actions != [] {
      var a := actions[0];
      if Enabled(r, a) {
        StepKeepsInv(c, r, a);
        StepKeepsCalls(c, r, a);
        StepKeepsBound(c, m, r, a);
        StepKeepsHurry(c, r, a);
      }
      ExecKeepsBound(c, m, if Enabled(r, a) then Step(c, r, a) else r, actions[1..]);
    }
  }

  lemma {:induction false} SumAtMost(ns: seq<nat>)
    requires forall i | 0 <= i < |ns| :: ns[i] <= 1
    ensures Sum(ns) <= |ns|
  {
    if ns != [] { SumAtMost(ns[..|ns| - 1]); }
  }

  /** Whatever the order of reads and flushes: with at most m rows a record, never more rows wait than
      one short of a batch and m for each worker; a full batch never waits without a flush queued; and
      until a batch was full nothing is flushed. */
  lemma PendingIsBounded(c: Config, m: nat, first: seq<Record>, rest: seq<seq<Record>>, actions: seq<Action>)
    requires forall x | c.project(x).Rows? :: |c.project(x).rows| <= m
    ensures var r := Exec(c, Start(c, first, rest), actions);
      && |r.pending| <= Max(c.batchSize - 1, 0) + m * |r.pool.workers|
      && |r.pool.workers| == Max(1, Min(c.concurrency, |r.page|))
      && (|r.pending| >= c.batchSize > 0 ==> Queued in r.flushes)
      && (|r.pending| < c.batchSize && r.handed == [] && !r.closing ==> r.flushes == [])
  {
    var s := Start(c, first, rest);
    StartHoldsInv(c, first, rest);
    ExecKeepsBound(c, m, s, actions);
    WorkersOfPage(c, s, actions);
    BoundMeans(c, m, Exec(c, s, actions));
  }

  lemma BoundMeans(c: Config, m: nat, r: Run)
    requires Bounded(c, m, r)
    ensures |r.pending| <= Max(c.batchSize - 1, 0) + m * |r.stages|
    ensures |r.pending| >= c.batchSize > 0 ==> Queued in r.flushes
  {
    SumAtMost(WaitWeights(r.stages, r.flushes));
    if Queued !in r.flushes { SumOfSame(WaitWeights(r.stages, r.flushes), 0); }
    Scaled(m, Waiting(r), |r.stages|);
  }

  lemma Scaled(m: nat, a: nat, b: nat)
    requires a <= b
    ensures m * a <= m * b
  {
  }

  lemma {:induction false} WorkersOfPage(c: Config, r: Run, actions: seq<Action>)
    requires |r.pool.workers| == MapLimit.Workers(c.concurrency, |r.page|)
    ensures var q := Exec(c, r, actions); |q.pool.workers| == MapLimit.Workers(c.concurrency, |q.page|)
    decreases |actions|
  {
    if actions != [] {
      WorkersOfPage(c, if Enabled(r, actions[0]) then Step(c, r, actions[0]) else r, actions[1..]);
    }
  }

  // ----- over the snapshot of a quiescent log -----

  /** The pages of the snapshot, nobody else writing. */
  function Pages(log: SourceLog, after: string, limit: nat): (ps: seq<seq<Record>>)
    requires limit >= 1
    ensures ps != []
    decreases |LiveAfter(log.state, after)|
  {
    var page := ReadSnapshot(log, after, limit);
    if !page.hasMore then [page.records]
    else
      FewerLeft(log, after, limit);
      [page.records] + Pages(log, page.nextCursor, limit)
  }

  lemma {:induction false} PagesAreTheSnapshot(log: SourceLog, after: string, limit: nat)
    requires limit >= 1
    ensures Flat(Pages(log, after, limit)) == QuietSnapshot(log, after, limit)
    decreases |LiveAfter(log.state, after)|
  {
    var page, ps := ReadSnapshot(log, after, limit), Pages(log, after, limit);
    FlatFirst(ps);
    if page.hasMore {
      FewerLeft(log, after, limit);
      PagesAreTheSnapshot(log, page.nextCursor, limit);
      assert ps[1..] == Pages(log, page.nextCursor, limit);
    } else {
      assert ps[1..] == [] && Flat(ps[1..]) == [] && ps[0] + [] == ps[0];
    }
  }

  /** A reindex of a source nobody writes to hands over exactly the projections of its live entities
      that raised no issue, and counts each live entity once. (No page lists an empty id.) */
  lemma EveryLiveEntityOnce(c: Config, log: SourceLog, limit: nat, actions: seq<Action>)
    requires limit >= 1
    requires var ps := Pages(log, "", limit); Returned(Exec(c, Start(c, ps[0], ps[1..]), actions))
    ensures var ps := Pages(log, "", limit); var r := Exec(c, Start(c, ps[0], ps[1..]), actions);
      && multiset(Flat(r.handed)) == multiset(RowsFor(c, RowsOf(log.state, Listing(LiveAfter(log.state, "")))))
      && r.entityCount + r.issueCount == |LiveAfter(log.state, "")|
  {
    var ps := Pages(log, "", limit);
    EveryRecordOnce(c, ps[0], ps[1..], actions);
    FlatFirst(ps);
    PagesAreTheSnapshot(log, "", limit);
    QuietSnapshotListsAll(log, "", limit);
  }
}
