/** The removal step over many import runs (retractRemovedDocuments, src/ingest.ts), with the table
    of suspects that outlives a run (src/ops/store.ts). A run may stop anywhere in the step. */
module SourceRemovalRuns {
  import opened Basics
  import opened JsonText
  import opened ExportRecords
  import opened ExportLog
  import opened SourceRemovals

  const SUSPECT_TTL_MS: int := 30 * 86_400_000

  /** Rows by entity id. */
  type Suspects = map<string, Suspect>

  /** DELETE ... WHERE first_seen_at < cutoff. */
  function Expire(table: Suspects, cutoff: int): Suspects {
    map id | id in table && table[id].firstSeenAt >= cutoff :: table[id]
  }

  /** What the step writes, one statement or one retraction each. */
  datatype Write = Forget(id: string) | Remember(s: Suspect) | Retract(e: Candidate)

  /** An insert keeps the row that is there. */
  function Apply(table: Suspects, w: Write): Suspects {
    match w
    case Forget(id) => table - {id}
    case Remember(s) => if s.entityId in table then table else table[s.entityId := s]
    case Retract(_) => table
  }

  function ApplyAll(table: Suspects, ws: seq<Write>): Suspects {
    if ws == [] then table else Apply(ApplyAll(table, ws[..|ws| - 1]), ws[|ws| - 1])
  }

  /** One run of the step: the meetings it had seen, when the table was listed, what it listed, what
      planning looked at, the supplier's answers, when the i-th first sighting was recorded, which
      retractions completed, and how many of its writes happened before it stopped. */
  datatype Run = Run(
    trace: seq<Sighting>, listedAt: int, suspects: seq<Suspect>, look: Look, maxPerRun: real, plan: Plan,
    ask: (nat, Option<string>) -> Presence, stamp: nat -> int, completed: string -> bool, stopped: nat)

  function Answers(r: Run): Confirmed { Confirm(r.plan, r.look.state, r.ask) }

  function ForgetAll(ids: seq<string>): seq<Write> {
    if ids == [] then [] else [Forget(ids[0])] + ForgetAll(ids[1..])
  }

  /** Second sightings the supplier serves again. */
  function ServedAgain(kept: seq<Kept>): seq<string> {
    if kept == [] then []
    else (if IsServed(kept[0]) then [kept[0].entry.entityId] else []) + ServedAgain(kept[1..])
  }

  predicate IsServed(x: Kept) { x.entry.firstSeenAt.Some? && x.probe == Some(AnswersLive) }

  function FirstSightings(remove: seq<Candidate>, stamp: nat -> int, from: nat): seq<Write> {
    if remove == [] then []
    else
      (if remove[0].firstSeenAt.Some? then []
       else [Remember(Suspect(remove[0].entityId, remove[0].meetingId, stamp(from)))])
      + FirstSightings(remove[1..], stamp, from + 1)
  }

  function Retractions(remove: seq<Candidate>): seq<Write> {
    if remove == [] then []
    else (if remove[0].firstSeenAt.Some? then [Retract(remove[0])] else []) + Retractions(remove[1..])
  }

  function Settled(remove: seq<Candidate>, completed: string -> bool): seq<Write> {
    if remove == [] then []
    else
      (if remove[0].firstSeenAt.Some? && completed(remove[0].entityId) then [Forget(remove[0].entityId)] else [])
      + Settled(remove[1..], completed)
  }

  /** Everything the step would write, in order. */
  function Writes(r: Run): seq<Write> {
    var c := Answers(r);
    ForgetAll(r.plan.clearSuspects) + ForgetAll(ServedAgain(c.kept)) + FirstSightings(c.remove, r.stamp, 0)
    + Retractions(c.remove) + Settled(c.remove, r.completed)
  }

  function Done(r: Run): seq<Write> {
    if r.stopped <= |Writes(r)| then Writes(r)[..r.stopped] else Writes(r)
  }

  predicate Finished(r: Run) { r.stopped >= |Writes(r)| }

  /** The table is also cleaned up when another source's run lists its suspects. */
  datatype Event = Cleanup(cutoff: int) | RemovalStep(r: Run)

  function After(table: Suspects, e: Event): Suspects {
    match e
    case Cleanup(cutoff) => Expire(table, cutoff)
    case RemovalStep(r) => ApplyAll(Expire(table, r.listedAt - SUSPECT_TTL_MS), Done(r))
  }

  function Table(events: seq<Event>): Suspects {
    if events == [] then map[] else After(Table(events[..|events| - 1]), events[|events| - 1])
  }

  /** The run's suspects are the rows of the table, and its plan follows from what it looked at. */
  ghost predicate Honest(table: Suspects, r: Run) {
    && (forall s :: s in r.suspects <==> s.entityId in Rows(table, r) && Rows(table, r)[s.entityId] == s)
    && IsPlan(r.plan, r.look, r.suspects, r.maxPerRun)
    && r.listedAt <= r.look.now && forall i: nat :: r.look.now <= r.stamp(i)
  }

  function Rows(table: Suspects, r: Run): Suspects { Expire(table, r.listedAt - SUSPECT_TTL_MS) }

  /** What planning looked at is what a tracker remembers of the meetings seen. */
  ghost predicate Watched(r: Run) { Remembers(r.look.obs, r.trace) }

  ghost predicate History(events: seq<Event>) {
    forall n | 0 <= n < |events| && events[n].RemovalStep? ::
      Honest(Table(events[..n]), events[n].r) && Watched(events[n].r)
  }

  /** What the run saw of the meeting of something it planned to remove. */
  ghost predicate SawDropped(r: Run, e: Candidate) { SeenDropped(r.trace, r.look, r.suspects, e) }

  lemma PlannedWasSeen(table: Suspects, r: Run, e: Candidate)
    requires Honest(table, r) && Watched(r) && FoundGone(r, e)
    ensures SawDropped(r, e)
  {
    var i :| 0 <= i < |r.plan.remove| && r.plan.remove[i] == e;
    assert EntryIs(r.look, r.suspects, r.plan.remove[i]);
    EntryWasSeen(r.trace, r.look, r.suspects, e);
  }

  // ----- what a run's writes mean -----

  /** The control document answered live and the supplier said this entry is gone. */
  ghost predicate FoundGone(r: Run, e: Candidate) {
    && e in r.plan.remove && ControlAnswer(r.plan, r.look.state, r.ask) == Some(AnswersLive)
    && exists k: nat :: GoneAt(r.plan, r.look.state, r.ask, e, k)
  }

  /** A second sighting the supplier serves again. */
  ghost predicate FoundServed(r: Run, id: string) {
    && ControlAnswer(r.plan, r.look.state, r.ask) == Some(AnswersLive)
    && exists c: Candidate, k: nat :: c.entityId == id && c.firstSeenAt.Some?
                                       && KeptAt(r.plan, r.look.state, r.ask, Kept(c, Some(AnswersLive)), k)
  }

  lemma InWrites(r: Run, w: Write)
    ensures var c := Answers(r);
      w in Writes(r) <==>
        || w in ForgetAll(r.plan.clearSuspects) || w in ForgetAll(ServedAgain(c.kept))
        || w in FirstSightings(c.remove, r.stamp, 0)
        || w in Retractions(c.remove) || w in Settled(c.remove, r.completed)
  {
  }

  lemma {:induction false} ForgetAllAre(ids: seq<string>, w: Write)
    ensures w in ForgetAll(ids) <==> w.Forget? && w.id in ids
  {
    if ids != [] { ForgetAllAre(ids[1..], w); }
  }

  lemma {:induction false} ServedAgainAre(kept: seq<Kept>, id: string)
    ensures id in ServedAgain(kept) <==> exists x :: x in kept && IsServed(x) && x.entry.entityId == id
  {
    if kept != [] {
      ServedAgainAre(kept[1..], id);
      assert forall x :: x in kept <==> x == kept[0] || x in kept[1..];
    }
  }

  lemma {:induction false} FirstSightingsAre(remove: seq<Candidate>, stamp: nat -> int, from: nat, w: Write)
    returns (e: Candidate, i: nat)
    requires w in FirstSightings(remove, stamp, from)
    ensures e in remove && e.firstSeenAt.None? && w == Remember(Suspect(e.entityId, e.meetingId, stamp(i)))
  {
    if remove[0].firstSeenAt.None? && w == Remember(Suspect(remove[0].entityId, remove[0].meetingId, stamp(from))) {
      e, i := remove[0], from;
    } else {
      e, i := FirstSightingsAre(remove[1..], stamp, from + 1, w);
    }
  }

  lemma {:induction false} RetractionsAre(remove: seq<Candidate>, w: Write)
    ensures w in Retractions(remove) <==> w.Retract? && w.e in remove && w.e.firstSeenAt.Some?
  {
    if remove != [] { RetractionsAre(remove[1..], w); }
  }

  lemma {:induction false} SettledAre(remove: seq<Candidate>, completed: string -> bool, w: Write)
    ensures w in Settled(remove, completed) <==>
              w.Forget? && completed(w.id) && exists e :: e in remove && e.entityId == w.id && e.firstSeenAt.Some?
  {
    if remove != [] {
      SettledAre(remove[1..], completed, w);
      assert forall e :: e in remove <==> e == remove[0] || e in remove[1..];
    }
  }

  /** Only recordings are among the first sightings. */
  lemma FirstSightingsRecord(remove: seq<Candidate>, stamp: nat -> int, w: Write)
    ensures w in FirstSightings(remove, stamp, 0) ==> w.Remember?
  {
    if w in FirstSightings(remove, stamp, 0) { var _, _ := FirstSightingsAre(remove, stamp, 0, w); }
  }

  lemma RetractsIff(r: Run, e: Candidate)
    ensures Retract(e) in Writes(r) <==> FoundGone(r, e) && e.firstSeenAt.Some?
  {
    var c, w := Answers(r), Retract(e);
    InWrites(r, w);
    ForgetAllAre(r.plan.clearSuspects, w);
    ForgetAllAre(ServedAgain(c.kept), w);
    FirstSightingsRecord(c.remove, r.stamp, w);
    RetractionsAre(c.remove, w);
    SettledAre(c.remove, r.completed, w);
    ConfirmedAre(r.plan, r.look.state, r.ask);
  }

  lemma RemembersFirst(r: Run, s: Suspect)
    requires Remember(s) in Writes(r)
    ensures FoundGone(r, Candidate(s.entityId, s.meetingId, None)) && exists i: nat :: s.firstSeenAt == r.stamp(i)
  {
    var c, w := Answers(r), Remember(s);
    InWrites(r, w);
    ForgetAllAre(r.plan.clearSuspects, w);
    ForgetAllAre(ServedAgain(c.kept), w);
    RetractionsAre(c.remove, w);
    SettledAre(c.remove, r.completed, w);
    var e, i := FirstSightingsAre(c.remove, r.stamp, 0, w);
    assert e == Candidate(s.entityId, s.meetingId, None) && s.firstSeenAt == r.stamp(i);
    ConfirmedAre(r.plan, r.look.state, r.ask);
  }

  /** What the step forgets: what the plan clears, what is served again on a second sighting, and
      what was retracted completely. */
  lemma ForgetsIff(r: Run, id: string)
    ensures Forget(id) in Writes(r) <==> id in r.plan.clearSuspects || FoundServed(r, id) || RetractedFully(r, id)
  {
    var c, w := Answers(r), Forget(id);
    InWrites(r, w);
    ForgetAllAre(r.plan.clearSuspects, w);
    ForgetAllAre(ServedAgain(c.kept), w);
    FirstSightingsRecord(c.remove, r.stamp, w);
    RetractionsAre(c.remove, w);
    ServedAgainIff(r, id);
    SettledIff(r, id);
  }

  lemma SettledIff(r: Run, id: string)
    ensures Forget(id) in Settled(Answers(r).remove, r.completed) <==> RetractedFully(r, id)
  {
    ConfirmedAre(r.plan, r.look.state, r.ask);
    SettledAre(Answers(r).remove, r.completed, Forget(id));
  }

  ghost predicate RetractedFully(r: Run, id: string) {
    r.completed(id) && exists e :: FoundGone(r, e) && e.entityId == id && e.firstSeenAt.Some?
  }

  lemma ServedAgainIff(r: Run, id: string)
    ensures id in ServedAgain(Answers(r).kept) <==> FoundServed(r, id)
  {
    var c := Answers(r);
    ConfirmedAre(r.plan, r.look.state, r.ask);
    ServedAgainAre(c.kept, id);
    if FoundServed(r, id) {
      var x: Candidate, k: nat :| x.entityId == id && x.firstSeenAt.Some?
                                && KeptAt(r.plan, r.look.state, r.ask, Kept(x, Some(AnswersLive)), k);
      assert Kept(x, Some(AnswersLive)) in c.kept;
    }
    if id in ServedAgain(c.kept) {
      var x :| x in c.kept && IsServed(x) && x.entry.entityId == id;
      assert x == Kept(x.entry, Some(AnswersLive));
    }
  }

  // ----- where a suspect comes from -----

  lemma {:induction false} RowAfterWrites(table: Suspects, ws: seq<Write>, id: string)
    requires id in ApplyAll(table, ws)
    ensures (id in table && ApplyAll(table, ws)[id] == table[id] && Forget(id) !in ws)
         || Remember(ApplyAll(table, ws)[id]) in ws
  {
    if ws != [] {
      var p, w := ws[..|ws| - 1], ws[|ws| - 1];
      assert ws == p + [w];
      if id in ApplyAll(table, p) { RowAfterWrites(table, p, id); }
    }
  }

  lemma DoneIsPart(r: Run)
    ensures forall w | w in Done(r) :: w in Writes(r)
  {
  }

  lemma DoneWhenFinished(r: Run)
    requires Finished(r)
    ensures Done(r) == Writes(r)
  {
    if r.stopped == |Writes(r)| { assert Writes(r)[..r.stopped] == Writes(r); }
  }

  /** The run listed this suspect and did not forget it. */
  ghost predicate Carried(table: Suspects, r: Run, s: Suspect) {
    s.entityId in Rows(table, r) && Rows(table, r)[s.entityId] == s && Forget(s.entityId) !in Done(r)
  }

  lemma RowCarried(table: Suspects, r: Run, s: Suspect)
    requires s.entityId in After(table, RemovalStep(r)) && After(table, RemovalStep(r))[s.entityId] == s
    ensures Remember(s) in Done(r) || Carried(table, r, s)
  {
    RowAfterWrites(Expire(table, r.listedAt - SUSPECT_TTL_MS), Done(r), s.entityId);
  }

  /** Run `k` recorded the suspect, and every later run listed it and did not forget it. */
  ghost predicate Origin(events: seq<Event>, s: Suspect, k: int) {
    && 0 <= k < |events| && events[k].RemovalStep? && Remember(s) in Done(events[k].r)
    && forall j | k < j < |events| && events[j].RemovalStep? :: Carried(Table(events[..j]), events[j].r, s)
  }

  /** Every row was recorded by some run, and every later run listed it and did not forget it. */
  lemma {:induction false} RowHasOrigin(events: seq<Event>, s: Suspect) returns (k: nat)
    requires HasRow(Table(events), s)
    ensures Origin(events, s, k)
  {
    var p, e := events[..|events| - 1], events[|events| - 1];
    assert events == p + [e];
    RowBefore(Table(p), e, s);
    if RecordedIn(e, s) {
      k := |p|;
      OriginHere(p, e, s);
    } else {
      k := RowHasOrigin(p, s);
      OriginStays(p, e, s, k);
    }
  }

  predicate HasRow(table: Suspects, s: Suspect) { s.entityId in table && table[s.entityId] == s }

  predicate RecordedIn(e: Event, s: Suspect) { e.RemovalStep? && Remember(s) in Done(e.r) }

  lemma RowBefore(table: Suspects, e: Event, s: Suspect)
    requires HasRow(After(table, e), s)
    ensures RecordedIn(e, s) || (HasRow(table, s) && (e.RemovalStep? ==> Carried(table, e.r, s)))
  {
    if e.RemovalStep? { RowCarried(table, e.r, s); }
  }

  lemma OriginHere(p: seq<Event>, e: Event, s: Suspect)
    requires RecordedIn(e, s)
    ensures Origin(p + [e], s, |p|)
  {
  }

  lemma OriginStays(p: seq<Event>, e: Event, s: Suspect, k: nat)
    requires Origin(p, s, k) && (e.RemovalStep? ==> Carried(Table(p), e.r, s))
    ensures Origin(p + [e], s, k)
  {
    var events := p + [e];
    forall j | k < j < |events| && events[j].RemovalStep? ensures Carried(Table(events[..j]), events[j].r, s) {
      assert events[..j] == p[..j] && (j < |p| ==> events[j] == p[j]);
      assert p[..|p|] == p;
    }
  }

  // ----- safety over whole histories -----

  /** The control document and this entry of the plan were asked about at their own addresses, and
      were live and gone. */
  ghost predicate SaidGone(r: Run, e: Candidate) {
    && ControlLive(r.plan, r.look.state, r.ask)
    && exists k :: SaidOf(r.plan, r.look.state, r.ask, e, AnswersGone, k)
  }

  /** A second sighting that answered live at its own address. */
  ghost predicate SaidServed(r: Run, id: string) {
    && ControlLive(r.plan, r.look.state, r.ask)
    && exists c: Candidate, k :: c.entityId == id && c.firstSeenAt.Some?
                                 && SaidOf(r.plan, r.look.state, r.ask, c, AnswersLive, k)
  }

  lemma FoundGoneIff(r: Run, e: Candidate)
    ensures FoundGone(r, e) <==> SaidGone(r, e)
  {
    ControlIsSaid(r.plan, r.look.state, r.ask);
    GoneIsSaid(r.plan, r.look.state, r.ask, e);
  }

  lemma FoundServedIff(r: Run, id: string)
    ensures FoundServed(r, id) <==> SaidServed(r, id)
  {
    ControlIsSaid(r.plan, r.look.state, r.ask);
    if FoundServed(r, id) {
      var c: Candidate, k: nat :| c.entityId == id && c.firstSeenAt.Some?
                                && KeptAt(r.plan, r.look.state, r.ask, Kept(c, Some(AnswersLive)), k);
      KeptIsSaid(r.plan, r.look.state, r.ask, Kept(c, Some(AnswersLive)));
    }
    if SaidServed(r, id) {
      var c: Candidate, k :| c.entityId == id && c.firstSeenAt.Some?
                           && SaidOf(r.plan, r.look.state, r.ask, c, AnswersLive, k);
      KeptIsSaid(r.plan, r.look.state, r.ask, Kept(c, Some(AnswersLive)));
    }
  }

  /** A run that finished the step did not see the suspect on its meeting again, emitted, deleted,
      listed elsewhere when it was due, or served again. */
  ghost predicate StillDropped(r: Run, s: Suspect) {
    Finished(r) ==> !IsOver(r.trace, r.look, s) && !SaidServed(r, s.entityId)
  }

  lemma CarriedIsStillDropped(table: Suspects, r: Run, s: Suspect)
    requires Honest(table, r) && Watched(r) && Carried(table, r, s)
    ensures StillDropped(r, s)
  {
    DoneIsPart(r);
    if Finished(r) {
      ForgetsIff(r, s.entityId);
      FoundServedIff(r, s.entityId);
      assert s in r.suspects;
      var i :| 0 <= i < |r.suspects| && r.suspects[i] == s;
      ClearedIff(r.plan, r.trace, r.look, r.suspects, r.maxPerRun, s.entityId);
    }
  }

  /** Runs `k` and `n` both saw `e` dropped by its meeting and found it gone, far enough apart, and no
      finished run between them saw it back. */
  ghost predicate TwiceSeen(events: seq<Event>, k: int, n: int, e: Candidate) {
    && 0 <= k < n < |events| && events[k].RemovalStep? && events[n].RemovalStep? && e.firstSeenAt.Some?
    && SaidGone(events[k].r, Candidate(e.entityId, e.meetingId, None)) && SaidGone(events[n].r, e)
    && SawDropped(events[k].r, Candidate(e.entityId, e.meetingId, None)) && SawDropped(events[n].r, e)
    && var s := Suspect(e.entityId, e.meetingId, e.firstSeenAt.value);
       var first, second := events[k].r.look, events[n].r.look;
       && Due(events[n].r.trace, second, s) && (second.now - first.now) as real >= second.minAge
       && first.now <= s.firstSeenAt && events[n].r.listedAt - s.firstSeenAt <= 2_592_000_000
       && StillDroppedBetween(events, k, n, s)
  }

  /** A document is retracted only if an earlier run, at least the minimum age before, saw the same
      meeting drop it and keep another, and found it gone while its control document answered live,
      this run saw the meeting leave it out and found it gone again, and no run in between that
      finished the step saw it back in any way. */
  lemma RetractionNeedsTwoSightings(events: seq<Event>, n: nat, e: Candidate) returns (k: nat)
    requires History(events) && n < |events| && events[n].RemovalStep? && Retract(e) in Done(events[n].r)
    ensures TwiceSeen(events, k, n, e)
  {
    var s := SecondIsRow(Table(events[..n]), events[n].r, e);
    k := FirstIsRecorded(events, n, s);
    PlannedWasSeen(Table(events[..k]), events[k].r, Candidate(e.entityId, e.meetingId, None));
    PlannedWasSeen(Table(events[..n]), events[n].r, e);
    FoundGoneIff(events[k].r, Candidate(e.entityId, e.meetingId, None));
    FoundGoneIff(events[n].r, e);
    DueIff(events[n].r.trace, events[n].r.look, s);
  }

  ghost predicate StillDroppedBetween(events: seq<Event>, k: int, n: int, s: Suspect) {
    forall j | k < j < n && 0 <= j < |events| && events[j].RemovalStep? :: StillDropped(events[j].r, s)
  }

  lemma FirstIsRecorded(events: seq<Event>, n: nat, s: Suspect) returns (k: nat)
    requires History(events) && n <= |events| && s.entityId in Table(events[..n]) && Table(events[..n])[s.entityId] == s
    ensures k < n && events[k].RemovalStep? && events[k].r.look.now <= s.firstSeenAt
    ensures FoundGone(events[k].r, Candidate(s.entityId, s.meetingId, None))
    ensures StillDroppedBetween(events, k, n, s)
  {
    k := RowHasOrigin(events[..n], s);
    RecordedWhenGone(Table(events[..k]), events[k].r, s);
    forall j | k < j < n && events[j].RemovalStep? ensures StillDropped(events[j].r, s) {
      CarriedAt(events, n, k, j, s);
      CarriedIsStillDropped(Table(events[..j]), events[j].r, s);
    }
  }

  lemma CarriedAt(events: seq<Event>, n: nat, k: nat, j: nat, s: Suspect)
    requires n <= |events| && Origin(events[..n], s, k) && k < j < n && events[j].RemovalStep?
    ensures Carried(Table(events[..j]), events[j].r, s)
  {
    var p := events[..n];
    assert p[j] == events[j] && p[..j] == events[..j];
  }

  lemma SecondIsRow(table: Suspects, r: Run, e: Candidate) returns (s: Suspect)
    requires Honest(table, r) && Retract(e) in Done(r)
    ensures e.firstSeenAt.Some? && FoundGone(r, e)
    ensures s == Suspect(e.entityId, e.meetingId, e.firstSeenAt.value) && Ripe(r.look, s)
    ensures s.entityId in table && table[s.entityId] == s && r.listedAt - s.firstSeenAt <= SUSPECT_TTL_MS
  {
    DoneIsPart(r);
    RetractsIff(r, e);
    s := Suspect(e.entityId, e.meetingId, e.firstSeenAt.value);
    var i :| 0 <= i < |r.plan.remove| && r.plan.remove[i] == e;
    assert EntryIs(r.look, r.suspects, r.plan.remove[i]);
    assert s in r.suspects;
  }

  lemma RecordedWhenGone(table: Suspects, r: Run, s: Suspect)
    requires Honest(table, r) && Remember(s) in Done(r)
    ensures FoundGone(r, Candidate(s.entityId, s.meetingId, None)) && r.look.now <= s.firstSeenAt
  {
    DoneIsPart(r);
    RemembersFirst(r, s);
    var i: nat :| s.firstSeenAt == r.stamp(i);
  }

  // ----- what a run does with a suspect -----

  /** The supplier was asked about the document and gave this answer. */
  ghost predicate AnsweredAt(r: Run, id: string, answer: Presence, k: nat) {
    k < |r.plan.remove| && r.plan.remove[k].entityId == id && Answer(r.plan, r.look.state, r.ask, k) == answer
  }

  ghost predicate Answered(r: Run, id: string, answer: Presence) {
    && ControlAnswer(r.plan, r.look.state, r.ask) == Some(AnswersLive)
    && exists k: nat :: AnsweredAt(r, id, answer, k)
  }

  lemma EntryOfSuspect(table: Suspects, r: Run, s: Suspect, k: nat)
    requires Honest(table, r) && s in r.suspects && k < |r.plan.remove| && r.plan.remove[k].entityId == s.entityId
    ensures r.plan.remove[k].firstSeenAt.Some? <==> Ripe(r.look, s)
    ensures Ripe(r.look, s) ==> r.plan.remove[k] == Candidate(s.entityId, s.meetingId, Some(s.firstSeenAt))
  {
    var e := r.plan.remove[k];
    assert EntryIs(r.look, r.suspects, e);
    if Ripe(r.look, s) {
      var i :| 0 <= i < |r.suspects| && r.suspects[i] == s;
      assert SecondSighting(r.look, r.suspects, s.entityId);
    }
    if e.firstSeenAt.Some? {
      assert Suspect(e.entityId, e.meetingId, e.firstSeenAt.value) in r.suspects;
    }
  }

  /** A run that finishes the step retracts a suspect exactly when it is due and still left out, no
      live meeting or motion mentions it, the cap is not exceeded, and with the control document
      live the supplier says it is gone. */
  lemma SuspectRetractedIff(table: Suspects, r: Run, s: Suspect)
    requires Honest(table, r) && s in r.suspects && Finished(r)
    ensures Retract(Candidate(s.entityId, s.meetingId, Some(s.firstSeenAt))) in Done(r)
       <==> Ripe(r.look, s) && !Listed(r.look.state, s.entityId)
            && |Wanted(r.look, r.suspects)| as real <= r.maxPerRun && Answered(r, s.entityId, AnswersGone)
  {
    var e := Candidate(s.entityId, s.meetingId, Some(s.firstSeenAt));
    DoneIsPart(r);
    RetractsIff(r, e);
    if FoundGone(r, e) {
      var k: nat :| GoneAt(r.plan, r.look.state, r.ask, e, k);
      assert AnsweredAt(r, s.entityId, AnswersGone, k);
      EntryOfSuspect(table, r, s, k);
      assert Names(r.plan.remove, s.entityId);
      assert s.entityId in Wanted(r.look, r.suspects);
    }
    if Ripe(r.look, s) && Answered(r, s.entityId, AnswersGone) {
      var k: nat :| AnsweredAt(r, s.entityId, AnswersGone, k);
      EntryOfSuspect(table, r, s, k);
      assert GoneAt(r.plan, r.look.state, r.ask, e, k);
    }
  }

  lemma {:induction false} RowStays(table: Suspects, ws: seq<Write>, id: string)
    requires id in table && Forget(id) !in ws
    ensures id in ApplyAll(table, ws) && ApplyAll(table, ws)[id] == table[id]
  {
    if ws != [] {
      assert forall w | w in ws[..|ws| - 1] :: w in ws;
      assert ws[|ws| - 1] in ws;
      RowStays(table, ws[..|ws| - 1], id);
    }
  }

  lemma {:induction false} RowGoes(table: Suspects, ws: seq<Write>, id: string)
    requires Forget(id) in ws && NoneRecords(ws, id)
    ensures id !in ApplyAll(table, ws)
  {
    var p, w := ws[..|ws| - 1], ws[|ws| - 1];
    assert ws == p + [w];
    assert w in ws && forall x | x in p :: x in ws;
    if w != Forget(id) { RowGoes(table, p, id); }
  }

  lemma ServedNotGone(r: Run, id: string)
    requires Distinct(r.plan.remove) && Answered(r, id, AnswersLive)
    ensures forall e | FoundGone(r, e) :: e.entityId != id
  {
    forall e | FoundGone(r, e) ensures e.entityId != id {
      var k: nat :| GoneAt(r.plan, r.look.state, r.ask, e, k);
      var j: nat :| AnsweredAt(r, id, AnswersLive, j);
    }
  }

  lemma ServedIff(table: Suspects, r: Run, s: Suspect)
    requires Honest(table, r) && s in r.suspects && Answered(r, s.entityId, AnswersLive)
    ensures FoundServed(r, s.entityId) <==> Ripe(r.look, s)
    ensures StillThere(r.look, s.entityId) && !Listed(r.look.state, s.entityId)
  {
    var k: nat :| AnsweredAt(r, s.entityId, AnswersLive, k);
    EntryOfSuspect(table, r, s, k);
    assert Names(r.plan.remove, s.entityId);
    assert s.entityId in Wanted(r.look, r.suspects);
    if Ripe(r.look, s) {
      assert KeptAt(r.plan, r.look.state, r.ask, Kept(r.plan.remove[k], Some(AnswersLive)), k);
    }
    if FoundServed(r, s.entityId) {
      var c: Candidate, j: nat :| c.entityId == s.entityId && c.firstSeenAt.Some?
                                && KeptAt(r.plan, r.look.state, r.ask, Kept(c, Some(AnswersLive)), j);
      EntryOfSuspect(table, r, s, j);
    }
  }

  /** The meeting the suspect names came back, and lists it again or the sighting is old enough. */
  predicate DueOrBack(r: Run, s: Suspect) {
    Observed(r.look, s) && (ListedBack(r.look, s) || (r.look.now - s.firstSeenAt) as real >= r.look.minAge)
  }

  /** A suspect the supplier serves again is meant to be forgotten. A finished run in which the
      supplier does answer "live" for it forgets it exactly when the suspect's own meeting came
      back, and lists it again or the first sighting is old enough. */
  lemma ServedAgainForgottenIff(table: Suspects, r: Run, s: Suspect)
    requires Honest(table, r) && Finished(r) && s in r.suspects && Answered(r, s.entityId, AnswersLive)
    ensures s.entityId !in After(table, RemovalStep(r)) <==> DueOrBack(r, s)
  {
    DoneForgetsIff(table, r, s);
    RowGoneIff(Rows(table, r), Done(r), s.entityId);
    AfterIs(table, r);
  }

  lemma AfterIs(table: Suspects, r: Run)
    ensures After(table, RemovalStep(r)) == ApplyAll(Rows(table, r), Done(r))
  {
  }

  /** None of these writes records the document. */
  ghost predicate NoneRecords(ws: seq<Write>, id: string) { forall s | Remember(s) in ws :: s.entityId != id }

  lemma DoneForgetsIff(table: Suspects, r: Run, s: Suspect)
    requires Honest(table, r) && Finished(r) && s in r.suspects && Answered(r, s.entityId, AnswersLive)
    ensures Forget(s.entityId) in Done(r) <==> DueOrBack(r, s)
    ensures s.entityId in Rows(table, r) && NoneRecords(Done(r), s.entityId)
  {
    DoneWhenFinished(r);
    ServedForgetIff(table, r, s);
    NotRecordedAgain(table, r, s);
  }

  lemma ServedForgetIff(table: Suspects, r: Run, s: Suspect)
    requires Honest(table, r) && s in r.suspects && Answered(r, s.entityId, AnswersLive)
    ensures Forget(s.entityId) in Writes(r) <==> DueOrBack(r, s)
  {
    ServedNotGone(r, s.entityId);
    ServedIff(table, r, s);
    ForgetsIff(r, s.entityId);
    ForgottenIff(table, r, s);
  }

  lemma NotRecordedAgain(table: Suspects, r: Run, s: Suspect)
    requires Honest(table, r) && Answered(r, s.entityId, AnswersLive)
    ensures NoneRecords(Writes(r), s.entityId)
  {
    ServedNotGone(r, s.entityId);
    forall x | Remember(x) in Writes(r) ensures x.entityId != s.entityId { RemembersFirst(r, x); }
  }

  lemma RowGoneIff(table: Suspects, ws: seq<Write>, id: string)
    requires id in table && NoneRecords(ws, id)
    ensures id !in ApplyAll(table, ws) <==> Forget(id) in ws
  {
    if Forget(id) in ws {
      RowGoes(table, ws, id);
    } else {
      RowStays(table, ws, id);
    }
  }

  lemma ForgottenIff(table: Suspects, r: Run, s: Suspect)
    requires Honest(table, r) && s in r.suspects
    ensures ShownOver(r.look, r.suspects, s.entityId) <==> BackOrGone(r.look, s)
    ensures SecondSighting(r.look, r.suspects, s.entityId) <==> Ripe(r.look, s)
  {
    var i :| 0 <= i < |r.suspects| && r.suspects[i] == s;
    forall k | 0 <= k < |r.suspects| && r.suspects[k].entityId == s.entityId ensures r.suspects[k] == s {
      assert r.suspects[k] in r.suspects;
    }
  }

  lemma {:induction false} FirstSightingsHave(remove: seq<Candidate>, stamp: nat -> int, from: nat, e: Candidate)
    returns (i: nat)
    requires e in remove && e.firstSeenAt.None?
    ensures Remember(Suspect(e.entityId, e.meetingId, stamp(i))) in FirstSightings(remove, stamp, from)
  {
    if remove[0] == e { i := from; } else { i := FirstSightingsHave(remove[1..], stamp, from + 1, e); }
  }

  lemma {:induction false} RememberedStays(table: Suspects, ws: seq<Write>, s: Suspect)
    requires Remember(s) in ws && Forget(s.entityId) !in ws
    ensures s.entityId in ApplyAll(table, ws)
  {
    var p, w := ws[..|ws| - 1], ws[|ws| - 1];
    assert ws == p + [w];
    if w != Remember(s) { RememberedStays(table, p, s); }
  }

  lemma NoSuspectNotForgotten(r: Run, e: Candidate)
    requires Distinct(r.plan.remove) && FoundGone(r, e) && e.firstSeenAt.None?
    requires e.entityId !in r.plan.clearSuspects
    ensures Forget(e.entityId) !in Writes(r)
  {
    ForgetsIff(r, e.entityId);
    OnlyFoundOnce(r, e);
    NotServedOnSecond(r, e);
  }

  lemma OnlyFoundOnce(r: Run, e: Candidate)
    requires Distinct(r.plan.remove) && FoundGone(r, e) && e.firstSeenAt.None?
    ensures !RetractedFully(r, e.entityId)
  {
    forall x | FoundGone(r, x) && x.entityId == e.entityId ensures x == e { SameEntry(r, e, x); }
  }

  lemma SameEntry(r: Run, e: Candidate, x: Candidate)
    requires Distinct(r.plan.remove) && FoundGone(r, e) && FoundGone(r, x) && x.entityId == e.entityId
    ensures x == e
  {
    var k: nat :| GoneAt(r.plan, r.look.state, r.ask, e, k);
    var j: nat :| GoneAt(r.plan, r.look.state, r.ask, x, j);
  }

  lemma NotServedOnSecond(r: Run, e: Candidate)
    requires Distinct(r.plan.remove) && FoundGone(r, e) && e.firstSeenAt.None?
    ensures !FoundServed(r, e.entityId)
  {
    forall c: Candidate, j: nat | KeptAt(r.plan, r.look.state, r.ask, Kept(c, Some(AnswersLive)), j)
      ensures c.entityId != e.entityId
    {
      GoneIsNotKept(r, e, c, j);
    }
  }

  lemma GoneIsNotKept(r: Run, e: Candidate, c: Candidate, j: nat)
    requires Distinct(r.plan.remove) && FoundGone(r, e)
    requires KeptAt(r.plan, r.look.state, r.ask, Kept(c, Some(AnswersLive)), j)
    ensures c.entityId != e.entityId
  {
    var k: nat :| GoneAt(r.plan, r.look.state, r.ask, e, k);
  }

  /** A document found dropped and gone for the first time is a suspect when the step is over, with a
      first sighting no earlier than this run. */
  lemma FirstSightingBecomesSuspect(table: Suspects, r: Run, e: Candidate)
    requires Honest(table, r) && Finished(r) && FoundGone(r, e) && e.firstSeenAt.None?
    requires e.entityId !in Rows(table, r)
    ensures e.entityId in After(table, RemovalStep(r))
    ensures After(table, RemovalStep(r))[e.entityId].firstSeenAt >= r.look.now
  {
    FirstStaysRemembered(table, r, e);
    var s := RecordedFirst(r, e);
    RowRecorded(table, r, s);
    AfterIs(table, r);
  }

  lemma FirstStaysRemembered(table: Suspects, r: Run, e: Candidate)
    requires Honest(table, r) && Finished(r) && FoundGone(r, e) && e.firstSeenAt.None?
    requires e.entityId !in Rows(table, r)
    ensures Done(r) == Writes(r) && Forget(e.entityId) !in Writes(r)
  {
    DoneWhenFinished(r);
    NotASuspect(table, r, e.entityId);
    NoSuspectNotForgotten(r, e);
  }

  lemma RecordedFirst(r: Run, e: Candidate) returns (s: Suspect)
    requires FoundGone(r, e) && e.firstSeenAt.None?
    ensures s.entityId == e.entityId && s.meetingId == e.meetingId && Remember(s) in Writes(r)
  {
    ConfirmedAre(r.plan, r.look.state, r.ask);
    var i := FirstSightingsHave(Answers(r).remove, r.stamp, 0, e);
    s := Suspect(e.entityId, e.meetingId, r.stamp(i));
    InWrites(r, Remember(s));
  }

  lemma RowRecorded(table: Suspects, r: Run, s: Suspect)
    requires Honest(table, r) && Done(r) == Writes(r) && Remember(s) in Done(r) && Forget(s.entityId) !in Done(r)
    requires s.entityId !in Rows(table, r)
    ensures s.entityId in ApplyAll(Rows(table, r), Done(r))
        && ApplyAll(Rows(table, r), Done(r))[s.entityId].firstSeenAt >= r.look.now
  {
    var rows, ws := Rows(table, r), Done(r);
    RememberedStays(rows, ws, s);
    RowAfterWrites(rows, ws, s.entityId);
    RecordedWhenGone(table, r, ApplyAll(rows, ws)[s.entityId]);
  }

  lemma NotASuspect(table: Suspects, r: Run, id: string)
    requires Honest(table, r) && id !in Rows(table, r)
    ensures !Forgotten(r.look, r.suspects, id)
  {
    forall k | 0 <= k < |r.suspects| ensures r.suspects[k].entityId != id { assert r.suspects[k] in r.suspects; }
  }

  // ----- feeding the tracker (onEntity) -----

  /** A meeting is compared with its last record before its new record replaces it. */
  method IngestMeeting(log: ExportChangesLog, tracker: SourceRemovalTracker, r: Record, attachment: seq<string>)
    requires tracker.log == log && log.Valid() && tracker.Valid() && r.sourceKey == log.source
    modifies log, tracker
    ensures log.Valid() && tracker.Valid() && log.View() == Append(old(log.View()), r)
    ensures tracker.emitted == old(tracker.emitted) + {r.entityId}
    ensures tracker.trace == old(tracker.trace) + [Sighting(r.entityId, Before(old(log.state), r.entityId), attachment)]
  {
    tracker.ObserveEmitted(r.entityId);
    tracker.ObserveMeeting(r.entityId, attachment);
    var appended := log.Append(r);
  }

  /** A meeting is seen to drop a document exactly when its last record in the history is live and
      lists it, the meeting no longer does, and it still lists another one of that record. Compared
      after its own commit, a meeting would never be seen to drop anything. */
  lemma {:induction false} DropSeenIff(h: seq<Record>, meetingId: string, i: nat, attachment: seq<string>, id: string)
    requires IsLast(h, meetingId, i)
    ensures var s := Sighting(meetingId, Before(Fold(h), meetingId), attachment);
      && (Drops(s, id) <==>
            && h[i].op.Upsert? && Attaches(h[i].payload, id) && id !in attachment
            && exists k :: Attaches(h[i].payload, k) && k in attachment)
      && (h[i].op.Upsert? && AttachmentIds(h[i].payload) == attachment ==> !Drops(s, id))
  {
    FoldIsLastRecord(h, meetingId);
    forall k ensures k in AttachmentIds(h[i].payload) <==> Attaches(h[i].payload, k) {
      AttachmentIdsAre(h[i].payload, k);
    }
  }
}
