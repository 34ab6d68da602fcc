/** What one run of the removal step makes of the table of suspects (src/ingest.ts, src/ops/store.ts),
    said in terms of the meetings it saw, the log, and what the supplier said about each document's own
    address; and in which order it writes. */
module SuspectTable {
  import opened Basics
  import opened ExportRecords
  import opened SourceRemovals
  import opened SourceRemovalRuns

  /** With the control document live, the supplier said this of the document, asked about its own address. */
  ghost predicate SaysOf(r: Run, id: string, answer: Presence) {
    && ControlLive(r.plan, r.look.state, r.ask)
    && exists k :: SaysAt(r, id, answer, k)
  }

  ghost predicate SaysAt(r: Run, id: string, answer: Presence, k: int) {
    0 <= k < |r.plan.remove| && r.plan.remove[k].entityId == id && Said(r.look.state, r.ask, k + 1, id, answer)
  }

  lemma SaysIff(r: Run, id: string, answer: Presence)
    ensures SaysOf(r, id, answer) <==> Answered(r, id, answer)
  {
    ControlIsSaid(r.plan, r.look.state, r.ask);
    if k: nat :| AnsweredAt(r, id, answer, k) {
      SaidIff(r.look.state, r.ask, k + 1, id, answer);
      assert SaysAt(r, id, answer, k);
    }
    if k :| SaysAt(r, id, answer, k) {
      SaidIff(r.look.state, r.ask, k + 1, id, answer);
      assert AnsweredAt(r, id, answer, k);
    }
  }

  // ----- rows before and after -----

  /** A row that is not older than thirty days when the table is listed. */
  ghost predicate Fresh(table: Suspects, r: Run, s: Suspect) {
    s.entityId in table && table[s.entityId] == s && s.firstSeenAt >= r.listedAt - 2_592_000_000
  }

  lemma FreshIff(table: Suspects, r: Run, s: Suspect)
    requires Honest(table, r)
    ensures Fresh(table, r, s) <==> s in r.suspects
    ensures Fresh(table, r, s) <==> s.entityId in Rows(table, r) && Rows(table, r)[s.entityId] == s
  {
  }

  /** The row stays: it is not over, and the supplier neither serves the document again nor was the
      document, gone for the second time, retracted completely. */
  ghost predicate Stays(r: Run, s: Suspect) {
    && !IsOver(r.trace, r.look, s)
    && !(Due(r.trace, r.look, s) && SaysOf(r, s.entityId, AnswersLive))
    && !(Due(r.trace, r.look, s) && SaysOf(r, s.entityId, AnswersGone) && r.completed(s.entityId))
  }

  /** Gone at the supplier, and no suspect that is due. */
  ghost predicate GoneFirst(table: Suspects, r: Run, id: string) {
    SaysOf(r, id, AnswersGone) && forall s | Fresh(table, r, s) && s.entityId == id :: !Due(r.trace, r.look, s)
  }

  ghost predicate RowStands(table: Suspects, r: Run, id: string) {
    exists s :: Fresh(table, r, s) && s.entityId == id && Stays(r, s)
  }

  /** The row of a document seen for the first time: the meeting that dropped it last, and when. */
  ghost predicate NewRow(r: Run, s: Suspect) {
    exists j, i: nat ::
      LastDrop(r.trace, j, s.entityId) && s.meetingId == r.trace[j].meetingId && s.firstSeenAt == r.stamp(i)
  }

  // ----- what is forgotten -----

  lemma ServedWhen(table: Suspects, r: Run, s: Suspect)
    requires Honest(table, r) && s in r.suspects
    ensures FoundServed(r, s.entityId) <==> Ripe(r.look, s) && Answered(r, s.entityId, AnswersLive)
  {
    if FoundServed(r, s.entityId) {
      var c: Candidate, k: nat :| c.entityId == s.entityId && c.firstSeenAt.Some?
                                && KeptAt(r.plan, r.look.state, r.ask, Kept(c, Some(AnswersLive)), k);
      assert AnsweredAt(r, s.entityId, AnswersLive, k);
    }
    if Answered(r, s.entityId, AnswersLive) { ServedIff(table, r, s); }
  }

  lemma RetractedWhen(table: Suspects, r: Run, s: Suspect)
    requires Honest(table, r) && s in r.suspects
    ensures RetractedFully(r, s.entityId) <==>
        Ripe(r.look, s) && Answered(r, s.entityId, AnswersGone) && r.completed(s.entityId)
  {
    if RetractedFully(r, s.entityId) {
      var e :| FoundGone(r, e) && e.entityId == s.entityId && e.firstSeenAt.Some?;
      var k: nat :| GoneAt(r.plan, r.look.state, r.ask, e, k);
      assert AnsweredAt(r, s.entityId, AnswersGone, k);
      EntryOfSuspect(table, r, s, k);
    }
    if Ripe(r.look, s) && Answered(r, s.entityId, AnswersGone) {
      var k: nat :| AnsweredAt(r, s.entityId, AnswersGone, k);
      EntryOfSuspect(table, r, s, k);
      assert GoneAt(r.plan, r.look.state, r.ask, r.plan.remove[k], k);
      assert FoundGone(r, r.plan.remove[k]);
    }
  }

  lemma ClearedWhen(table: Suspects, r: Run, s: Suspect)
    requires Honest(table, r) && Watched(r) && s in r.suspects
    ensures s.entityId in r.plan.clearSuspects <==> IsOver(r.trace, r.look, s)
  {
    ClearedIff(r.plan, r.trace, r.look, r.suspects, r.maxPerRun, s.entityId);
    OneRow(table, r, s);
    var i :| 0 <= i < |r.suspects| && r.suspects[i] == s;
  }

  lemma OneRow(table: Suspects, r: Run, s: Suspect)
    requires Honest(table, r) && s in r.suspects
    ensures forall k | 0 <= k < |r.suspects| && r.suspects[k].entityId == s.entityId :: r.suspects[k] == s
  {
    forall k | 0 <= k < |r.suspects| && r.suspects[k].entityId == s.entityId ensures r.suspects[k] == s {
      assert r.suspects[k] in r.suspects;
    }
  }

  lemma RowForgottenIff(table: Suspects, r: Run, s: Suspect)
    requires Honest(table, r) && Watched(r) && s in r.suspects
    ensures Forget(s.entityId) in Writes(r) <==> !Stays(r, s)
  {
    ForgetsIff(r, s.entityId);
    ClearedWhen(table, r, s);
    ServedWhen(table, r, s);
    RetractedWhen(table, r, s);
    DueIff(r.trace, r.look, s);
    SaysIff(r, s.entityId, AnswersLive);
    SaysIff(r, s.entityId, AnswersGone);
  }

  /** An entry that carries a first sighting comes from a row that is due. */
  lemma SecondIsRipe(table: Suspects, r: Run, e: Candidate)
    requires Honest(table, r) && e in r.plan.remove && e.firstSeenAt.Some?
    ensures e.entityId in Rows(table, r) && RipeRow(r, e.entityId)
  {
    var k :| 0 <= k < |r.plan.remove| && r.plan.remove[k] == e;
    assert EntryIs(r.look, r.suspects, r.plan.remove[k]);
    assert RipeAs(r.look, r.suspects, Suspect(e.entityId, e.meetingId, e.firstSeenAt.value));
  }

  lemma RetractedIsRipe(table: Suspects, r: Run, id: string)
    requires Honest(table, r) && RetractedFully(r, id)
    ensures id in Rows(table, r) && RipeRow(r, id)
  {
    var e :| FoundGone(r, e) && e.entityId == id && e.firstSeenAt.Some?;
    SecondIsRipe(table, r, e);
  }

  // ----- what is remembered -----

  /** Something is recorded for the document. */
  ghost predicate Records(r: Run, id: string) { exists s :: Remember(s) in Writes(r) && s.entityId == id }

  ghost predicate RipeRow(r: Run, id: string) { exists s :: s in r.suspects && s.entityId == id && Ripe(r.look, s) }

  lemma RipeRowIff(r: Run, id: string)
    ensures RipeRow(r, id) <==> SecondSighting(r.look, r.suspects, id)
  {
    if k :| 0 <= k < |r.suspects| && r.suspects[k].entityId == id && Ripe(r.look, r.suspects[k]) {
      assert r.suspects[k] in r.suspects;
    }
    if s :| s in r.suspects && s.entityId == id && Ripe(r.look, s) {
      var k :| 0 <= k < |r.suspects| && r.suspects[k] == s;
    }
  }

  lemma SecondsAreRipe(table: Suspects, r: Run)
    requires Honest(table, r)
    ensures forall e | e in r.plan.remove && e.firstSeenAt.Some? :: RipeRow(r, e.entityId)
  {
    forall e | e in r.plan.remove && e.firstSeenAt.Some? ensures RipeRow(r, e.entityId) { SecondIsRipe(table, r, e); }
  }

  lemma RecordsIff(table: Suspects, r: Run, id: string)
    requires Honest(table, r)
    ensures Records(r, id) <==> Answered(r, id, AnswersGone) && !RipeRow(r, id)
  {
    RipeRowIff(r, id);
    if s :| Remember(s) in Writes(r) && s.entityId == id {
      RemembersFirst(r, s);
      FirstIsAnswered(r, Candidate(s.entityId, s.meetingId, None));
    }
    if Answered(r, id, AnswersGone) && !RipeRow(r, id) {
      var k: nat :| AnsweredAt(r, id, AnswersGone, k);
      var e := r.plan.remove[k];
      assert e.firstSeenAt.None? by { SecondsAreRipe(table, r); }
      assert GoneAt(r.plan, r.look.state, r.ask, e, k);
      var s := RecordedFirst(r, e);
    }
  }

  lemma FirstIsAnswered(r: Run, e: Candidate)
    requires FoundGone(r, e) && e.firstSeenAt.None? && RemovesEntries(r)
    ensures Answered(r, e.entityId, AnswersGone) && !SecondSighting(r.look, r.suspects, e.entityId)
  {
    var k: nat :| GoneAt(r.plan, r.look.state, r.ask, e, k);
    assert AnsweredAt(r, e.entityId, AnswersGone, k);
    assert EntryIs(r.look, r.suspects, r.plan.remove[k]);
  }

  ghost predicate RemovesEntries(r: Run) {
    forall i | 0 <= i < |r.plan.remove| :: EntryIs(r.look, r.suspects, r.plan.remove[i])
  }

  lemma RecordsGoneFirst(table: Suspects, r: Run, id: string)
    requires Honest(table, r) && Watched(r)
    ensures Records(r, id) <==> GoneFirst(table, r, id)
  {
    RecordsIff(table, r, id);
    SaysIff(r, id, AnswersGone);
    forall s: Suspect | s.entityId == id
      ensures Fresh(table, r, s) <==> s in r.suspects
      ensures Due(r.trace, r.look, s) <==> Ripe(r.look, s)
    {
      FreshIff(table, r, s);
      DueIff(r.trace, r.look, s);
    }
  }

  /** What is recorded names the meeting that dropped the document last. */
  lemma RecordedIsNew(table: Suspects, r: Run, s: Suspect)
    requires Honest(table, r) && Watched(r) && Remember(s) in Writes(r)
    ensures NewRow(r, s)
  {
    RemembersFirst(r, s);
    var i: nat :| s.firstSeenAt == r.stamp(i);
    var e := Candidate(s.entityId, s.meetingId, None);
    var k :| 0 <= k < |r.plan.remove| && r.plan.remove[k] == e;
    assert EntryIs(r.look, r.suspects, r.plan.remove[k]);
    var j := LastDropExists(r.trace, s.entityId);
    assert LastDrop(r.trace, j, s.entityId) && s.meetingId == r.trace[j].meetingId;
  }

  // ----- the table -----

  function Clears(r: Run): seq<Write> { ForgetAll(r.plan.clearSuspects) + ForgetAll(ServedAgain(Answers(r).kept)) }

  function Rest(r: Run): seq<Write> {
    FirstSightings(Answers(r).remove, r.stamp, 0) + Retractions(Answers(r).remove)
    + Settled(Answers(r).remove, r.completed)
  }

  lemma WritesSplit(r: Run)
    ensures Writes(r) == Clears(r) + Rest(r)
  {
  }

  lemma {:induction false} ApplyConcat(table: Suspects, a: seq<Write>, b: seq<Write>)
    ensures ApplyAll(table, a + b) == ApplyAll(ApplyAll(table, a), b)
  {
    if b == [] {
      assert a + b == a;
    } else {
      assert (a + b)[..|a + b| - 1] == a + b[..|b| - 1];
      ApplyConcat(table, a, b[..|b| - 1]);
    }
  }

  lemma InSplit(r: Run, w: Write)
    ensures w in Writes(r) <==> w in Clears(r) || w in Rest(r)
    ensures w in Clears(r) ==> w.Forget? && (w.id in r.plan.clearSuspects || FoundServed(r, w.id))
    ensures w in Rest(r) && w.Forget? ==> RetractedFully(r, w.id)
  {
    WritesSplit(r);
    var c := Answers(r);
    ForgetAllAre(r.plan.clearSuspects, w);
    ForgetAllAre(ServedAgain(c.kept), w);
    FirstSightingsRecord(c.remove, r.stamp, w);
    RetractionsAre(c.remove, w);
    if w.Forget? {
      ServedAgainIff(r, w.id);
      SettledIff(r, w.id);
    }
  }

  /** A first sighting is recorded after whatever forgets the document. */
  lemma RecordedOverForgotten(table: Suspects, r: Run, id: string)
    requires Keyed(table) && Honest(table, r) && Records(r, id) && (id in Rows(table, r) ==> Forget(id) in Writes(r))
    ensures id in ApplyAll(Rows(table, r), Writes(r))
    ensures Remember(ApplyAll(Rows(table, r), Writes(r))[id]) in Writes(r)
  {
    var rows := Rows(table, r);
    var s :| Remember(s) in Writes(r) && s.entityId == id;
    WritesSplit(r);
    ApplyConcat(rows, Clears(r), Rest(r));
    InSplit(r, Remember(s));
    NotSettled(table, r, id);
    InSplit(r, Forget(id));
    assert id !in ApplyAll(rows, Clears(r)) by { GoneAfterClears(r, rows, id); }
    RememberedStays(ApplyAll(rows, Clears(r)), Rest(r), s);
    RowAfterWrites(ApplyAll(rows, Clears(r)), Rest(r), id);
    InSplit(r, Remember(ApplyAll(rows, Writes(r))[id]));
  }

  lemma NotSettled(table: Suspects, r: Run, id: string)
    requires Honest(table, r) && Records(r, id)
    ensures !RetractedFully(r, id)
  {
    RecordsIff(table, r, id);
    if RetractedFully(r, id) { RetractedIsRipe(table, r, id); }
  }

  lemma GoneAfterClears(r: Run, rows: Suspects, id: string)
    requires id in rows ==> Forget(id) in Clears(r)
    ensures id !in ApplyAll(rows, Clears(r))
  {
    forall s ensures Remember(s) !in Clears(r) { InSplit(r, Remember(s)); }
    if Forget(id) in Clears(r) {
      RowGoes(rows, Clears(r), id);
    } else if id in ApplyAll(rows, Clears(r)) {
      RowAfterWrites(rows, Clears(r), id);
    }
  }

  /** Nothing is recorded for it. */
  lemma NothingRecorded(table: Suspects, r: Run, id: string)
    requires Keyed(table) && !Records(r, id) && (id in Rows(table, r) ==> Forget(id) in Writes(r))
    ensures id !in ApplyAll(Rows(table, r), Writes(r))
  {
    var rows := Rows(table, r);
    if id in rows {
      RowGoes(rows, Writes(r), id);
    } else if id in ApplyAll(rows, Writes(r)) {
      RowAfterWrites(rows, Writes(r), id);
      WritesKeepKeys(rows, Writes(r));
    }
  }

  // ----- rows stand under their own id -----

  ghost predicate Keyed(table: Suspects) { forall id | id in table :: table[id].entityId == id }

  lemma {:induction false} WritesKeepKeys(table: Suspects, ws: seq<Write>)
    requires Keyed(table)
    ensures Keyed(ApplyAll(table, ws))
  {
    if ws != [] { WritesKeepKeys(table, ws[..|ws| - 1]); }
  }

  lemma {:induction false} TableIsKeyed(events: seq<Event>)
    ensures Keyed(Table(events))
  {
    if events != [] {
      var e := events[|events| - 1];
      TableIsKeyed(events[..|events| - 1]);
      if e.RemovalStep? { WritesKeepKeys(Rows(Table(events[..|events| - 1]), e.r), Done(e.r)); }
    }
  }

  lemma RowsAfter(table: Suspects, r: Run, id: string)
    requires Keyed(table) && Honest(table, r) && Watched(r) && Finished(r)
    ensures var after := After(table, RemovalStep(r));
      && (id in after <==> RowStands(table, r, id) || GoneFirst(table, r, id))
      && (RowStands(table, r, id) ==> after[id] == table[id])
      && (id in after && !RowStands(table, r, id) ==> after[id].entityId == id && NewRow(r, after[id]))
  {
    DoneWhenFinished(r);
    AfterIs(table, r);
    RecordsGoneFirst(table, r, id);
    StandsIff(table, r, id);
    var rows := Rows(table, r);
    if RowStands(table, r, id) {
      RowStays(rows, Writes(r), id);
    } else {
      NotStanding(table, r, id);
      if Records(r, id) {
        RecordedOverForgotten(table, r, id);
        RecordedIsNew(table, r, ApplyAll(rows, Writes(r))[id]);
        WritesKeepKeys(rows, Writes(r));
      } else {
        NothingRecorded(table, r, id);
      }
    }
  }

  /** The table after any history ending in a finished run, row by row. A document has one exactly when
      it had one, not older than thirty days, that stays, or the supplier says it is gone and no suspect
      was due. A row that stays is unchanged; a new one names the meeting that dropped it last. */
  lemma TableAfter(events: seq<Event>, r: Run, id: string)
    requires History(events + [RemovalStep(r)]) && Finished(r)
    ensures var table, after := Table(events), Table(events + [RemovalStep(r)]);
      && (id in after <==> RowStands(table, r, id) || GoneFirst(table, r, id))
      && (RowStands(table, r, id) ==> after[id] == table[id])
      && (id in after && !RowStands(table, r, id) ==> after[id].entityId == id && NewRow(r, after[id]))
  {
    var all := events + [RemovalStep(r)];
    assert all[..|events|] == events && all[|events|] == RemovalStep(r);
    TableIsKeyed(events);
    RowsAfter(Table(events), r, id);
  }

  lemma StandsIff(table: Suspects, r: Run, id: string)
    requires Keyed(table) && Honest(table, r) && Watched(r)
    ensures RowStands(table, r, id) <==> id in Rows(table, r) && Forget(id) !in Writes(r)
  {
    forall s: Suspect | s.entityId == id && Fresh(table, r, s) ensures Forget(id) in Writes(r) <==> !Stays(r, s) {
      FreshIff(table, r, s);
      RowForgottenIff(table, r, s);
    }
    if id in Rows(table, r) { FreshIff(table, r, Rows(table, r)[id]); }
  }

  lemma NotStanding(table: Suspects, r: Run, id: string)
    requires Keyed(table) && Honest(table, r) && Watched(r) && !RowStands(table, r, id)
    ensures id in Rows(table, r) ==> Forget(id) in Writes(r)
  {
    StandsIff(table, r, id);
  }

  // ----- what is retracted -----

  ghost predicate IsRow(table: Suspects, r: Run, e: Candidate, s: Suspect) {
    Fresh(table, r, s) && e == Candidate(s.entityId, s.meetingId, Some(s.firstSeenAt))
  }

  /** A row whose document the run is to take down. */
  ghost predicate DueRow(table: Suspects, r: Run, e: Candidate) {
    exists s :: IsRow(table, r, e, s) && Due(r.trace, r.look, s)
  }

  /** A finished run retracts exactly the rows that are due, are among the documents to ask about, no
      more of which there are than the cap, and of which the supplier says they are gone. */
  lemma RetractedExactly(table: Suspects, r: Run, e: Candidate) returns (ids: set<string>)
    requires Honest(table, r) && Watched(r) && Finished(r)
    ensures forall id :: id in ids <==> ToAsk(r.trace, r.look, r.suspects, id)
    ensures Retract(e) in Done(r) <==>
        && |ids| as real <= r.maxPerRun && e.entityId in ids && DueRow(table, r, e)
        && SaysOf(r, e.entityId, AnswersGone)
  {
    ids := PlannedIff(r.plan, r.trace, r.look, r.suspects, r.maxPerRun);
    DoneWhenFinished(r);
    RetractsIff(r, e);
    SaysIff(r, e.entityId, AnswersGone);
    if FoundGone(r, e) && e.firstSeenAt.Some? {
      RetractedRow(table, r, e);
      assert Names(r.plan.remove, e.entityId);
    }
    if DueRow(table, r, e) && Answered(r, e.entityId, AnswersGone) { DueIsRetracted(table, r, e); }
    if Answered(r, e.entityId, AnswersGone) { AnsweredIsNamed(r, e.entityId); }
  }

  lemma AnsweredIsNamed(r: Run, id: string)
    requires Answered(r, id, AnswersGone)
    ensures Names(r.plan.remove, id) && r.plan.remove != []
  {
    var k: nat :| AnsweredAt(r, id, AnswersGone, k);
  }

  lemma RetractedRow(table: Suspects, r: Run, e: Candidate)
    requires Honest(table, r) && Watched(r) && FoundGone(r, e) && e.firstSeenAt.Some?
    ensures DueRow(table, r, e) && Answered(r, e.entityId, AnswersGone)
  {
    var k: nat :| GoneAt(r.plan, r.look.state, r.ask, e, k);
    assert AnsweredAt(r, e.entityId, AnswersGone, k) && EntryIs(r.look, r.suspects, r.plan.remove[k]);
    var s := Suspect(e.entityId, e.meetingId, e.firstSeenAt.value);
    assert RipeAs(r.look, r.suspects, s);
    FreshIff(table, r, s);
    DueIff(r.trace, r.look, s);
    assert IsRow(table, r, e, s);
  }

  lemma DueIsRetracted(table: Suspects, r: Run, e: Candidate)
    requires Honest(table, r) && Watched(r) && DueRow(table, r, e) && Answered(r, e.entityId, AnswersGone)
    ensures FoundGone(r, e) && e.firstSeenAt.Some?
  {
    var s :| IsRow(table, r, e, s) && Due(r.trace, r.look, s);
    FreshIff(table, r, s);
    DueIff(r.trace, r.look, s);
    var k: nat :| AnsweredAt(r, e.entityId, AnswersGone, k);
    EntryOfSuspect(table, r, s, k);
    assert GoneAt(r.plan, r.look.state, r.ask, e, k);
  }

  lemma NotBoth(r: Run, id: string)
    requires Distinct(r.plan.remove) && SaysOf(r, id, AnswersGone)
    ensures !SaysOf(r, id, AnswersLive)
  {
    var k :| SaysAt(r, id, AnswersGone, k);
    SaidIff(r.look.state, r.ask, k + 1, id, AnswersGone);
    SaidIff(r.look.state, r.ask, k + 1, id, AnswersLive);
    forall j ensures !SaysAt(r, id, AnswersLive, j) { assert SaysAt(r, id, AnswersLive, j) ==> j == k; }
  }

  /** Of what a finished run retracted the rows are gone exactly where everything worked. */
  lemma RetractedIsForgotten(table: Suspects, r: Run, e: Candidate)
    requires Keyed(table) && Honest(table, r) && Watched(r) && Finished(r) && Retract(e) in Done(r)
    ensures e.entityId !in After(table, RemovalStep(r)) <==> r.completed(e.entityId)
  {
    var ids := RetractedExactly(table, r, e);
    var s :| IsRow(table, r, e, s) && Due(r.trace, r.look, s);
    RowsAfter(table, r, e.entityId);
    DueIsNotOver(r, s);
    NotBoth(r, e.entityId);
    assert Stays(r, s) <==> !r.completed(e.entityId);
    OnlyRow(table, r, s);
  }

  lemma OnlyRow(table: Suspects, r: Run, s: Suspect)
    requires Fresh(table, r, s)
    ensures RowStands(table, r, s.entityId) <==> Stays(r, s)
    ensures Due(r.trace, r.look, s) ==> !GoneFirst(table, r, s.entityId)
  {
  }

  lemma DueIsNotOver(r: Run, s: Suspect)
    requires Watched(r) && Due(r.trace, r.look, s) && !StillMentioned(r.look.state, s.entityId)
    ensures !IsOver(r.trace, r.look, s)
  {
    CameIff(r.look.obs, r.trace, s);
  }

  // ----- in which order -----

  /** What the run forgets before it retracts anything. */
  ghost predicate ForgottenFirst(r: Run, id: string) { id in r.plan.clearSuspects || FoundServed(r, id) }

  lemma SegmentsAre(r: Run, w: Write)
    ensures var c := Answers(r);
      && (w in Clears(r) <==> w.Forget? && ForgottenFirst(r, w.id))
      && (w in FirstSightings(c.remove, r.stamp, 0) ==> w.Remember?)
      && (w in Retractions(c.remove) ==> w.Retract?)
      && (w in Settled(c.remove, r.completed) ==> w.Forget?)
  {
    var c := Answers(r);
    ForgetAllAre(r.plan.clearSuspects, w);
    ForgetAllAre(ServedAgain(c.kept), w);
    FirstSightingsRecord(c.remove, r.stamp, w);
    RetractionsAre(c.remove, w);
    SettledAre(c.remove, r.completed, w);
    if w.Forget? { ServedAgainIff(r, w.id); }
  }

  /** In a list of four parts, cut off anywhere: what is there of a later part comes after all of the
      earlier ones. */
  lemma CutInFour<T>(a: seq<T>, b: seq<T>, c: seq<T>, d: seq<T>, n: nat, k: nat)
    requires n <= |a + b + c + d| && k < n
    ensures k >= |a| + |b| ==> forall x | x in a || x in b :: x in (a + b + c + d)[..n]
    ensures k >= |a| + |b| + |c| ==> forall x | x in c :: x in (a + b + c + d)[..n]
  {
    var all := a + b + c + d;
    if k >= |a| + |b| {
      assert all[..n] == a + b + all[|a| + |b|..n];
      if k >= |a| + |b| + |c| { assert all[..n] == a + b + c + all[|a| + |b| + |c|..n]; }
    }
  }

  /** Wherever a run stopped: when it has retracted anything, it had forgotten every row that was over
      or served again and recorded every first sighting; and a row that was due it forgot only after
      all its retractions. */
  lemma StoppedInOrder(r: Run)
    ensures forall e, s | Retract(e) in Done(r) && Remember(s) in Writes(r) :: Remember(s) in Done(r)
    ensures forall e, id | Retract(e) in Done(r) && ForgottenFirst(r, id) :: Forget(id) in Done(r)
    ensures forall id, e | Forget(id) in Done(r) && !ForgottenFirst(r, id) && Retract(e) in Writes(r) ::
              Retract(e) in Done(r)
  {
    forall e, s | Retract(e) in Done(r) && Remember(s) in Writes(r) ensures Remember(s) in Done(r) {
      BeforeRetracts(r, Retract(e), Remember(s));
    }
    forall e, id | Retract(e) in Done(r) && ForgottenFirst(r, id) ensures Forget(id) in Done(r) {
      SegmentsAre(r, Forget(id));
      InSplit(r, Forget(id));
      BeforeRetracts(r, Retract(e), Forget(id));
    }
    forall id, e | Forget(id) in Done(r) && !ForgottenFirst(r, id) && Retract(e) in Writes(r)
      ensures Retract(e) in Done(r)
    {
      BeforeSettled(r, Forget(id), Retract(e));
    }
  }

  lemma BeforeRetracts(r: Run, w: Write, x: Write)
    requires w in Done(r) && w.Retract? && x in Writes(r) && (x.Remember? || x in Clears(r))
    ensures x in Done(r)
  {
    var k := InOrder(r, w);
    SegmentsAre(r, w);
    SegmentsAre(r, x);
  }

  lemma BeforeSettled(r: Run, w: Write, x: Write)
    requires w in Done(r) && w.Forget? && !ForgottenFirst(r, w.id) && x in Writes(r) && x.Retract?
    ensures x in Done(r)
  {
    var k := InOrder(r, w);
    SegmentsAre(r, w);
    SegmentsAre(r, x);
  }

  /** Where something written stands among the four parts, and what is then written before it. */
  lemma InOrder(r: Run, w: Write) returns (k: nat)
    requires w in Done(r)
    ensures var c := Answers(r);
      var a, b := Clears(r), FirstSightings(c.remove, r.stamp, 0);
      var p, q := Retractions(c.remove), Settled(c.remove, r.completed);
      && (forall x :: x in Writes(r) <==> x in a || x in b || x in p || x in q)
      && (w in a || w in b || (w in p && k >= |a| + |b|) || (w in q && k >= |a| + |b| + |p|))
      && (k >= |a| + |b| ==> forall x | x in a || x in b :: x in Done(r))
      && (k >= |a| + |b| + |p| ==> forall x | x in p :: x in Done(r))
  {
    var c := Answers(r);
    InFour(r);
    k :| k < |Done(r)| && Done(r)[k] == w;
    CutInFour(Clears(r), FirstSightings(c.remove, r.stamp, 0), Retractions(c.remove), Settled(c.remove, r.completed),
              |Done(r)|, k);
  }

  lemma InFour(r: Run)
    ensures var c := Answers(r);
      && Writes(r) == Clears(r) + FirstSightings(c.remove, r.stamp, 0) + Retractions(c.remove)
                      + Settled(c.remove, r.completed)
    ensures |Done(r)| <= |Writes(r)| && Done(r) == Writes(r)[..|Done(r)|]
  {
    assert Writes(r)[..|Writes(r)|] == Writes(r);
  }
}
