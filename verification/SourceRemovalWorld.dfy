/** The imports of one source over its export log, from an empty log and an empty table of suspects:
    what each run sees and writes, whatever else is written, also while a removal step is under way,
    and that step with the tombstones it records. */
module SourceRemovalWorld {
  import opened Basics
  import opened ExportRecords
  import opened ExportLog
  import opened SourceRemovals
  import opened SourceRemovalRuns
  import D = DeleteDocument
  import SuspectTable

  /** A removal step under way: the run, what its retractions have come to so far, and how long the
      log's history was when it planned. */
  datatype UnderWay = UnderWay(r: Run, scene: D.Scene, outcomes: seq<D.Outcome>, planned: nat)

  /** The log, what the tracker of the current run has seen and remembers, the table of suspects, what
      has happened to the table so far, and the removal step under way. Flushes leave the state of the
      log alone and are not among the happenings, so its pending rows are its whole history. */
  datatype World = World(
    source: string, log: SourceLog, trace: seq<Sighting>, obs: Observations,
    table: Suspects, past: seq<Event>, step: Option<UnderWay>)

  datatype Happening =
    | StartRun
    | Emit(id: string)
    | Observe(meetingId: string, attachment: seq<string>)
    | WriteLog(x: Record)
    | CleanUp(cutoff: int)
    | BeginStep(r: Run, scene: D.Scene)
    | TakeDown(calls: seq<D.Event>, outcome: D.Outcome)
    | EndStep(taskWorked: bool)

  const NOTHING_SEEN := Observations(map[], {}, map[], [], None)

  /** The retractions among a run's writes, in order. */
  function Retracted(ws: seq<Write>): (entries: seq<D.Entry>)
    ensures forall x :: x in entries <==> exists e :: Retract(e) in ws && x == D.Entry(e.entityId, e.meetingId)
  {
    if ws == [] then []
    else
      assert forall w :: w in ws <==> w == ws[0] || w in ws[1..];
      (if ws[0].Retract? then [D.Entry(ws[0].e.entityId, ws[0].e.meetingId)] else []) + Retracted(ws[1..])
  }

  function Entries(u: UnderWay): seq<D.Entry> { Retracted(Done(u.r)) }

  /** A suspect is settled when all its steps worked, the delete task included. */
  ghost predicate Settles(u: UnderWay, taskWorked: bool) {
    var entries := Entries(u);
    && |u.outcomes| == |entries|
    && forall i | 0 <= i < |entries| ::
         u.r.completed(entries[i].entityId) <==> u.outcomes[i].reached.Deleted? && taskWorked
  }

  /** The calls are those of the next retraction. */
  ghost predicate RunsNext(u: UnderWay, calls: seq<D.Event>, outcome: D.Outcome) {
    var i := |u.outcomes|;
    i < |Entries(u)| && D.RanEntry(Entries(u)[i], u.scene, calls, outcome, i)
  }

  /** A step plans with the rows of the table, what this run's tracker remembers, and the log. */
  ghost predicate MayBegin(w: World, r: Run) {
    w.step.None? && Honest(w.table, r) && r.trace == w.trace && r.look.obs == w.obs && r.look.state == w.log.state
  }

  ghost predicate Allowed(w: World, h: Happening) {
    match h
    case WriteLog(x) => x.sourceKey == w.source
    case CleanUp(_) => w.step.None?
    case BeginStep(r, _) => MayBegin(w, r)
    case TakeDown(calls, outcome) => w.step.Some? && RunsNext(w.step.value, calls, outcome)
    case EndStep(taskWorked) => w.step.Some? && Settles(w.step.value, taskWorked)
    case _ => true
  }

  /** One source's log after some calls. */
  function Called(source: string, log: SourceLog, calls: seq<D.Event>): SourceLog {
    D.LogOf(D.Effect(map[source := log], calls), source)
  }

  function Next(w: World, h: Happening): World {
    match h
    case StartRun => w.(trace := [], obs := NOTHING_SEEN)
    case Emit(id) => w.(obs := w.obs.(emitted := w.obs.emitted + {id}))
    case Observe(m, attachment) =>
      var s := Sighting(m, Before(w.log.state, m), attachment);
      w.(trace := w.trace + [s], obs := Saw(w.obs.(emitted := w.obs.emitted + {m}), s))
    case WriteLog(x) => w.(log := Append(w.log, x))
    case CleanUp(cutoff) => w.(table := Expire(w.table, cutoff), past := w.past + [Cleanup(cutoff)])
    case BeginStep(r, scene) => w.(step := Some(UnderWay(r, scene, [], |w.log.pending|)))
    case TakeDown(calls, outcome) =>
      if w.step.None? then w
      else
        var u := w.step.value;
        w.(log := Called(w.source, w.log, calls), step := Some(u.(outcomes := u.outcomes + [outcome])))
    case EndStep(_) =>
      if w.step.None? then w
      else
        var e := RemovalStep(w.step.value.r);
        w.(table := After(w.table, e), past := w.past + [e], step := None)
  }

  function Start(source: string): World { World(source, EMPTY, [], NOTHING_SEEN, map[], [], None) }

  function Go(source: string, hs: seq<Happening>): World {
    if hs == [] then Start(source) else Next(Go(source, hs[..|hs| - 1]), hs[|hs| - 1])
  }

  ghost predicate Legal(source: string, hs: seq<Happening>) {
    hs == [] || (Legal(source, hs[..|hs| - 1]) && Allowed(Go(source, hs[..|hs| - 1]), hs[|hs| - 1]))
  }

  // ----- what every run of events keeps -----

  /** The table of latest records is what the history says. */
  ghost predicate Whole(log: SourceLog) { log.state == Fold(log.pending) }

  /** What the step under way planned with is what was so then. */
  ghost predicate PlannedThen(w: World, u: UnderWay) {
    && Honest(w.table, u.r) && Watched(u.r)
    && u.planned <= |w.log.pending| && u.r.look.state == Fold(w.log.pending[..u.planned])
  }

  ghost predicate Inv(w: World) {
    && Remembers(w.obs, w.trace) && w.table == Table(w.past) && History(w.past) && Whole(w.log)
    && (w.step.Some? ==> PlannedThen(w, w.step.value))
  }

  lemma RememberingIgnoresEmitted(obs: Observations, trace: seq<Sighting>, emitted: set<string>)
    requires Remembers(obs, trace)
    ensures Remembers(obs.(emitted := emitted), trace)
  {
  }

  lemma OneMoreEvent(past: seq<Event>, e: Event)
    requires History(past) && (e.RemovalStep? ==> Honest(Table(past), e.r) && Watched(e.r))
    ensures History(past + [e]) && Table(past + [e]) == After(Table(past), e)
  {
    var all := past + [e];
    assert all[..|past|] == past;
    forall n | 0 <= n < |all| && all[n].RemovalStep?
      ensures Honest(Table(all[..n]), all[n].r) && Watched(all[n].r)
    {
      if n < |past| { assert all[..n] == past[..n]; }
    }
  }

  /** The log has grown from one to the other. */
  ghost predicate GrewTo(a: SourceLog, b: SourceLog) { a.pending <= b.pending && Whole(b) }

  lemma AppendGrows(log: SourceLog, x: Record)
    requires Whole(log)
    ensures GrewTo(log, Append(log, x))
  {
    if !IsNoop(log.state, x) { FoldStep(log.pending, Numbered(log, x)); }
  }

  lemma {:induction false} CallsGrow(source: string, log: SourceLog, calls: seq<D.Event>)
    requires Whole(log)
    ensures GrewTo(log, Called(source, log, calls))
  {
    if calls != [] {
      var p, last := calls[..|calls| - 1], calls[|calls| - 1];
      CallsGrow(source, log, p);
      if last.ok && last.step.RecordTombstone? { AppendGrows(Called(source, log, p), last.step.tombstone); }
    }
  }

  lemma StillPlanned(w: World, log: SourceLog, u: UnderWay, outcomes: seq<D.Outcome>)
    requires PlannedThen(w, u) && GrewTo(w.log, log)
    ensures PlannedThen(w.(log := log), u.(outcomes := outcomes))
  {
    assert log.pending[..u.planned] == w.log.pending[..u.planned];
  }

  lemma WritesKeep(w: World, x: Record)
    requires Inv(w)
    ensures Inv(Next(w, WriteLog(x)))
  {
    AppendGrows(w.log, x);
    if w.step.Some? { StillPlanned(w, Append(w.log, x), w.step.value, w.step.value.outcomes); }
  }

  lemma TakeDownKeeps(w: World, calls: seq<D.Event>, outcome: D.Outcome)
    requires Inv(w) && w.step.Some?
    ensures Inv(Next(w, TakeDown(calls, outcome)))
  {
    CallsGrow(w.source, w.log, calls);
    StillPlanned(w, Called(w.source, w.log, calls), w.step.value, w.step.value.outcomes + [outcome]);
  }

  lemma BeginKeeps(w: World, r: Run, scene: D.Scene)
    requires Inv(w) && MayBegin(w, r)
    ensures Inv(Next(w, BeginStep(r, scene)))
  {
    assert w.log.pending[..|w.log.pending|] == w.log.pending;
  }

  lemma SightingKeeps(w: World, m: string, attachment: seq<string>)
    requires Inv(w)
    ensures Inv(Next(w, Observe(m, attachment)))
  {
    RememberingIgnoresEmitted(w.obs, w.trace, w.obs.emitted + {m});
    var obs := w.obs.(emitted := w.obs.emitted + {m});
    SawRemembers(obs, w.trace, Sighting(m, Before(w.log.state, m), attachment));
  }

  lemma InvKept(w: World, h: Happening)
    requires Inv(w) && Allowed(w, h)
    ensures Inv(Next(w, h))
  {
    match h
    case StartRun =>
    case Emit(id) => RememberingIgnoresEmitted(w.obs, w.trace, w.obs.emitted + {id});
    case Observe(m, attachment) => SightingKeeps(w, m, attachment);
    case WriteLog(x) => WritesKeep(w, x);
    case CleanUp(cutoff) => CleanUpKeeps(w, cutoff);
    case BeginStep(r, scene) => BeginKeeps(w, r, scene);
    case TakeDown(calls, outcome) => TakeDownKeeps(w, calls, outcome);
    case EndStep(taskWorked) => EndKeeps(w, taskWorked);
  }

  lemma CleanUpKeeps(w: World, cutoff: int)
    requires Inv(w) && w.step.None?
    ensures Inv(Next(w, CleanUp(cutoff)))
  {
    OneMoreEvent(w.past, Cleanup(cutoff));
  }

  lemma EndKeeps(w: World, taskWorked: bool)
    requires Inv(w) && w.step.Some?
    ensures Inv(Next(w, EndStep(taskWorked)))
  {
    var e, n := RemovalStep(w.step.value.r), Next(w, EndStep(taskWorked));
    OneMoreEvent(w.past, e);
    assert n.past == w.past + [e] && n.table == After(w.table, e) && n.step.None?;
    assert n.obs == w.obs && n.trace == w.trace && n.log == w.log;
  }

  lemma {:induction false} AlwaysInv(source: string, hs: seq<Happening>)
    requires Legal(source, hs)
    ensures Inv(Go(source, hs)) && Go(source, hs).source == source
  {
    if hs != [] {
      AlwaysInv(source, hs[..|hs| - 1]);
      InvKept(Go(source, hs[..|hs| - 1]), hs[|hs| - 1]);
    }
  }

  // ----- what is settled -----

  /** When a step that went through to its end is over, a document it retracted is a suspect still
      unless its retraction got to the end and the delete task worked: then a later run tries again. */
  lemma IncompleteIsTriedAgain(source: string, hs: seq<Happening>, taskWorked: bool, i: nat)
    requires Legal(source, hs + [EndStep(taskWorked)]) && Go(source, hs).step.Some?
    requires var u := Go(source, hs).step.value; Finished(u.r) && i < |Entries(u)|
    ensures var u, after := Go(source, hs).step.value, Go(source, hs + [EndStep(taskWorked)]);
      && |u.outcomes| == |Entries(u)|
      && (Entries(u)[i].entityId in after.table <==> !(u.outcomes[i].reached.Deleted? && taskWorked))
  {
    var all := hs + [EndStep(taskWorked)];
    assert all[..|all| - 1] == hs && all[|all| - 1] == EndStep(taskWorked);
    AlwaysInv(source, hs);
    var w := Go(source, hs);
    var r := w.step.value.r;
    SuspectTable.TableIsKeyed(w.past);
    assert Entries(w.step.value)[i] in Entries(w.step.value);
    var e :| Retract(e) in Done(r) && Entries(w.step.value)[i] == D.Entry(e.entityId, e.meetingId);
    SuspectTable.RetractedIsForgotten(w.table, r, e);
  }

  // ----- what the run under way has seen -----

  /** This happened in the run under way. */
  ghost predicate ThisRun(hs: seq<Happening>, i: int) {
    0 <= i < |hs| && forall j | i < j < |hs| :: !hs[j].StartRun?
  }

  predicate Emits(h: Happening, id: string) { h == Emit(id) || (h.Observe? && h.meetingId == id) }

  ghost predicate EmittedAt(hs: seq<Happening>, id: string, i: int) { ThisRun(hs, i) && Emits(hs[i], id) }

  ghost predicate SeenAt(source: string, hs: seq<Happening>, s: Sighting, i: int) {
    && ThisRun(hs, i) && hs[i].Observe?
    && s == Sighting(hs[i].meetingId, Before(Go(source, hs[..i]).log.state, hs[i].meetingId), hs[i].attachment)
  }

  lemma ThisRunStep(hs: seq<Happening>, h: Happening, i: int)
    ensures ThisRun(hs + [h], i) <==> i == |hs| || (ThisRun(hs, i) && !h.StartRun?)
  {
    var all := hs + [h];
    assert all[|hs|] == h && forall j | 0 <= j < |hs| :: all[j] == hs[j];
  }

  /** What counts as emitted are the entities and meetings of this run, and what it has seen are its
      meetings, each compared with the log as it was then. */
  lemma {:induction false} RunHasSeen(source: string, hs: seq<Happening>, id: string, s: Sighting)
    ensures id in Go(source, hs).obs.emitted <==> exists i :: EmittedAt(hs, id, i)
    ensures s in Go(source, hs).trace <==> exists i :: SeenAt(source, hs, s, i)
  {
    if hs != [] {
      var p, h := hs[..|hs| - 1], hs[|hs| - 1];
      assert hs == p + [h];
      RunHasSeen(source, p, id, s);
      EmittedOneMore(p, h, id);
      SeenOneMore(source, p, h, s);
      NextHasSeen(Go(source, p), h, id, s);
    }
  }

  lemma NextHasSeen(w: World, h: Happening, id: string, s: Sighting)
    ensures id in Next(w, h).obs.emitted <==> Emits(h, id) || (!h.StartRun? && id in w.obs.emitted)
    ensures s in Next(w, h).trace <==> Shows(w, h, s) || (!h.StartRun? && s in w.trace)
  {
  }

  lemma EmittedOneMore(p: seq<Happening>, h: Happening, id: string)
    ensures (exists i :: EmittedAt(p + [h], id, i)) <==>
        Emits(h, id) || (!h.StartRun? && exists i :: EmittedAt(p, id, i))
  {
    forall i ensures EmittedAt(p + [h], id, i) <==>
        (i == |p| && Emits(h, id)) || (EmittedAt(p, id, i) && !h.StartRun?)
    {
      ThisRunStep(p, h, i);
    }
    assert EmittedAt(p + [h], id, |p|) <==> Emits(h, id);
  }

  predicate Shows(w: World, h: Happening, s: Sighting) {
    h.Observe? && s == Sighting(h.meetingId, Before(w.log.state, h.meetingId), h.attachment)
  }

  lemma SeenOneMore(source: string, p: seq<Happening>, h: Happening, s: Sighting)
    ensures (exists i :: SeenAt(source, p + [h], s, i)) <==>
        Shows(Go(source, p), h, s) || (!h.StartRun? && exists i :: SeenAt(source, p, s, i))
  {
    var all := p + [h];
    assert all[..|p|] == p;
    forall i ensures SeenAt(source, all, s, i) <==>
        (i == |p| && Shows(Go(source, p), h, s)) || (SeenAt(source, p, s, i) && !h.StartRun?)
    {
      ThisRunStep(p, h, i);
      if 0 <= i < |p| { assert all[..i] == p[..i]; }
    }
    assert SeenAt(source, all, s, |p|) <==> Shows(Go(source, p), h, s);
  }

  lemma {:induction false} LegalFront(source: string, hs: seq<Happening>, i: nat)
    requires Legal(source, hs) && i < |hs|
    ensures Legal(source, hs[..i]) && Allowed(Go(source, hs[..i]), hs[i])
  {
    var p := hs[..|hs| - 1];
    if i < |p| {
      LegalFront(source, p, i);
      assert p[..i] == hs[..i] && p[i] == hs[i];
    }
  }

  lemma GoOneMore(source: string, hs: seq<Happening>, h: Happening)
    requires Legal(source, hs) && Allowed(Go(source, hs), h)
    ensures Legal(source, hs + [h]) && Go(source, hs + [h]) == Next(Go(source, hs), h)
  {
    assert (hs + [h])[..|hs + [h]| - 1] == hs;
  }

  // ----- what is taken down -----

  /** The happening takes this entity out of the live table. */
  ghost predicate TakesDown(w: World, h: Happening, id: string) {
    h.TakeDown? && id in Live(w.log.state) && id !in Live(Next(w, h).log.state)
  }

  /** The calls of a retraction take down nothing but its own document. */
  lemma OnlyItsOwn(source: string, log: SourceLog, x: D.Entry, scene: D.Scene, calls: seq<D.Event>, outcome: D.Outcome,
                   i: nat, id: string)
    requires D.RanEntry(x, scene, calls, outcome, i)
    requires id in Live(log.state) && id !in Live(Called(source, log, calls).state)
    ensures x.entityId == id
  {
    D.RunOnLive(x, scene, calls, outcome, i, map[source := log], source, id);
  }

  /** What a retraction takes down is what the step under way set out to retract. */
  lemma TakenDownWasRetracted(w: World, h: Happening, id: string) returns (e: Candidate)
    requires Allowed(w, h) && TakesDown(w, h, id)
    ensures Retract(e) in Done(w.step.value.r) && e.entityId == id
  {
    var u := w.step.value;
    var x := Entries(u)[|u.outcomes|];
    OnlyItsOwn(w.source, w.log, x, u.scene, h.calls, h.outcome, |u.outcomes|, id);
    assert x in Entries(u);
    e :| Retract(e) in Done(u.r) && x == D.Entry(e.entityId, e.meetingId);
  }

  /** In every run of events from an empty log, an entity that a removal step takes out of the live
      table is one that two runs, far enough apart, saw its meeting drop and the supplier call gone. */
  lemma OnlyTwiceSeenIsTakenDown(source: string, hs: seq<Happening>, h: Happening, id: string)
    returns (k: nat, e: Candidate)
    requires Legal(source, hs + [h]) && TakesDown(Go(source, hs), h, id)
    ensures var w := Go(source, hs);
      && w.step.Some? && e.entityId == id && Retract(e) in Done(w.step.value.r)
      && TwiceSeen(w.past + [RemovalStep(w.step.value.r)], k, |w.past|, e)
  {
    var w := FrontHolds(source, hs, h);
    e := TakenDownWasRetracted(w, h, id);
    OneMoreEvent(w.past, RemovalStep(w.step.value.r));
    k := RetractionNeedsTwoSightings(w.past + [RemovalStep(w.step.value.r)], |w.past|, e);
  }

  lemma FrontHolds(source: string, hs: seq<Happening>, h: Happening) returns (w: World)
    requires Legal(source, hs + [h])
    ensures w == Go(source, hs) && Legal(source, hs) && w.source == source && Inv(w) && Allowed(w, h)
  {
    LegalFront(source, hs + [h], |hs|);
    assert (hs + [h])[..|hs|] == hs;
    AlwaysInv(source, hs);
    w := Go(source, hs);
  }

  // ----- listed again while the step is under way -----

  predicate RefersFrom(id: string) { StartsWith(id, "meeting:") || StartsWith(id, "motion:") }

  /** Record `k` of the history is the last of a live meeting or motion and mentions the entity. */
  ghost predicate ListsAt(h: seq<Record>, id: string, k: int) {
    0 <= k < |h| && IsLast(h, h[k].entityId, k) && h[k].op.Upsert? && RefersFrom(h[k].entityId) && Mentions(h[k], id)
  }

  lemma ListedIff(h: seq<Record>, id: string)
    ensures Listed(Fold(h), id) <==> exists k :: ListsAt(h, id, k)
  {
    if Listed(Fold(h), id) {
      var m :| m in LiveUnderAny(Fold(h), REFERENCING_PREFIXES) && m in Fold(h) && Mentions(Fold(h)[m], id);
      ReferrersAre(Fold(h), m);
      FoldIsLastRecord(h, m);
      var k :| IsLast(h, m, k);
      assert ListsAt(h, id, k);
    }
    if k :| ListsAt(h, id, k) {
      FoldIsLastRecord(h, h[k].entityId);
      ReferrersAre(Fold(h), h[k].entityId);
    }
  }

  lemma ListsAtFront(h: seq<Record>, n: nat, id: string, k: nat)
    requires n <= |h| && k < n && ListsAt(h, id, k)
    ensures ListsAt(h[..n], id, k)
  {
    assert forall j | 0 <= j < n :: h[..n][j] == h[j];
  }

  /** What was not listed at a point of the history is listed later exactly when a live meeting or
      motion that mentions it was written since, and still stands. */
  lemma ListedSinceIff(h: seq<Record>, n: nat, id: string)
    requires n <= |h| && !Listed(Fold(h[..n]), id)
    ensures Listed(Fold(h), id) <==> exists k :: n <= k && ListsAt(h, id, k)
  {
    ListedIff(h, id);
    ListedIff(h[..n], id);
    forall k: nat | k < n && ListsAt(h, id, k) ensures false { ListsAtFront(h, n, id, k); }
  }

  lemma PlannedNotListed(table: Suspects, r: Run, e: Candidate)
    requires Honest(table, r) && Retract(e) in Done(r)
    ensures !Listed(r.look.state, e.entityId)
  {
    DoneIsPart(r);
    RetractsIff(r, e);
    var k: nat :| GoneAt(r.plan, r.look.state, r.ask, e, k);
    assert Names(r.plan.remove, e.entityId);
    assert e.entityId in Wanted(r.look, r.suspects);
  }

  /** A retraction takes down a document that a live meeting or motion lists exactly when such a
      record was written after the step planned and stands when the tombstone is recorded. */
  lemma TakenDownThoughListedIff(source: string, hs: seq<Happening>, h: Happening, id: string)
    requires Legal(source, hs + [h]) && TakesDown(Go(source, hs), h, id)
    ensures var w := Go(source, hs);
      w.step.Some? && (Listed(w.log.state, id)
        <==> exists k :: w.step.value.planned <= k && ListsAt(w.log.pending, id, k))
  {
    var w := FrontHolds(source, hs, h);
    var e := TakenDownWasRetracted(w, h, id);
    PlannedNotListed(w.table, w.step.value.r, e);
    ListedSinceIff(w.log.pending, w.step.value.planned, id);
  }

  /** The calls of a retraction none of which fails. */
  function AllCalls(x: D.Entry, scene: D.Scene, i: nat): seq<D.Event>
    requires D.Home(x.entityId).Some?
  {
    D.AllWorked(D.Steps(D.ParseDocumentEntityId(x.entityId).value, x.meetingId, scene.pages(x.entityId), scene.time(i)))
  }

  lemma AllCallsRun(x: D.Entry, scene: D.Scene, i: nat)
    requires D.Home(x.entityId).Some?
    ensures D.RanEntry(x, scene, AllCalls(x, scene, i), D.Outcome(x.entityId, D.Deleted, None), i)
  {
    var p := D.ParseDocumentEntityId(x.entityId).value;
    var steps := D.Steps(p, x.meetingId, scene.pages(x.entityId), scene.time(i));
    assert steps[..7] == steps && AllCalls(x, scene, i) + [] == AllCalls(x, scene, i);
    assert D.RanTo(steps, AllCalls(x, scene, i), D.Outcome(x.entityId, D.Deleted, None), 7);
  }

  lemma ListedBy(state: State, m: string, id: string)
    requires LiveReferrer(state, m) && Mentions(state[m], id)
    ensures Listed(state, id)
  {
    ReferrersAre(state, m);
  }

  lemma ListedOnceWritten(log: SourceLog, x: Record, id: string)
    requires x.op.Upsert? && RefersFrom(x.entityId) && !IsNoop(log.state, x) && Mentions(x, id) && x.entityId != id
    ensures var state := Append(log, x).state;
      && LiveReferrer(state, x.entityId) && Mentions(state[x.entityId], id) && Listed(state, id)
      && (id in Live(log.state) ==> id in Live(state))
  {
    ListedBy(Append(log, x).state, x.entityId, id);
  }

  /** Calls that record no tombstone of an entity leave its row as it is. */
  lemma {:induction false} RowUntouched(source: string, log: SourceLog, calls: seq<D.Event>, m: string)
    requires forall k | 0 <= k < |calls| :: !D.TombstoneEvent(calls[k], source, m)
    ensures m in log.state ==>
        m in Called(source, log, calls).state && Called(source, log, calls).state[m] == log.state[m]
  {
    if calls != [] {
      var p, last := calls[..|calls| - 1], calls[|calls| - 1];
      assert forall k | 0 <= k < |p| :: p[k] == calls[k];
      RowUntouched(source, log, p, m);
    }
  }

  lemma OnlyTheDocumentGoes(source: string, log: SourceLog, x: D.Entry, scene: D.Scene, i: nat, m: string)
    requires D.Home(x.entityId) == Some(source) && x.entityId in Live(log.state)
    requires m != x.entityId && LiveReferrer(log.state, m) && Mentions(log.state[m], x.entityId)
    ensures var state := Called(source, log, AllCalls(x, scene, i)).state;
      x.entityId !in Live(state) && Listed(state, x.entityId)
  {
    var calls, outcome := AllCalls(x, scene, i), D.Outcome(x.entityId, D.Deleted, None);
    AllCallsRun(x, scene, i);
    D.RunOnLive(x, scene, calls, outcome, i, map[source := log], source, x.entityId);
    D.RanOnlyDeletes(x, scene, calls, outcome, i);
    RowUntouched(source, log, calls, m);
    ListedBy(Called(source, log, calls).state, m, x.entityId);
  }

  /** What is next to be retracted in this source. */
  ghost predicate NextIs(w: World, doc: string) {
    && w.step.Some? && |w.step.value.outcomes| < |Entries(w.step.value)|
    && Entries(w.step.value)[|w.step.value.outcomes|].entityId == doc
    && D.Home(doc) == Some(w.source) && doc in Live(w.log.state)
  }

  /** The code does not look again: whenever a live document is next to be retracted, a meeting or
      motion written just before may list it, and it is taken down all the same. */
  lemma ListedMeanwhileIsTakenDown(source: string, hs: seq<Happening>, doc: string, x: Record) returns (h: Happening)
    requires Legal(source, hs) && NextIs(Go(source, hs), doc)
    requires x.op.Upsert? && x.sourceKey == source && RefersFrom(x.entityId) && !IsNoop(Go(source, hs).log.state, x)
    requires Mentions(x, doc) && x.entityId != doc
    ensures var before := hs + [WriteLog(x)];
      && Legal(source, before + [h]) && TakesDown(Go(source, before), h, doc)
      && Listed(Go(source, before).log.state, doc) && Listed(Go(source, before + [h]).log.state, doc)
  {
    AlwaysInv(source, hs);
    var w := Go(source, hs);
    var u := w.step.value;
    var entry := Entries(u)[|u.outcomes|];
    GoOneMore(source, hs, WriteLog(x));
    var v := Next(w, WriteLog(x));
    h := TakeDown(AllCalls(entry, u.scene, |u.outcomes|), D.Outcome(doc, D.Deleted, None));
    AllCallsRun(entry, u.scene, |u.outcomes|);
    GoOneMore(source, hs + [WriteLog(x)], h);
    ListedOnceWritten(w.log, x, doc);
    OnlyTheDocumentGoes(source, v.log, entry, u.scene, |u.outcomes|, x.entityId);
  }
}
