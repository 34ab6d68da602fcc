/** A run of events, from an empty log, after which a suspect the supplier has just served again is
    still a suspect (src/ingest.ts), in the world of SourceRemovalWorld. */
module SuspectThatStays {
  import opened Basics
  import opened EntityCommit
  import opened JsonText
  import opened ExportRecords
  import opened ExportLog
  import opened SourceRemovals
  import opened SourceRemovalRuns
  import opened SourceRemovalWorld
  import D = DeleteDocument

  const ONE := "document:1"
  const TWO := "document:2"
  const MEETING := "meeting:1"
  const SUSPECT := Suspect(ONE, MEETING, 0)

  function Strs(ids: seq<string>): (items: seq<Json>)
    ensures |items| == |ids|
  {
    if ids == [] then [] else [Str(ids[0])] + Strs(ids[1..])
  }

  function Lists(ids: seq<string>): Json { Obj([Field("attachment", Arr(Strs(ids)))]) }

  function MeetingRecord(source: string, ids: seq<string>): Record {
    Record(0, Upsert, 0, MEETING, "Meeting", source, "notubiz", Some(Stringify(Lists(ids))), Some(Lists(ids)), None,
           None)
  }

  function DocumentRecord(source: string, id: string): Record {
    Record(0, Upsert, 0, id, "Document", source, "notubiz", Some(Stringify(Obj([]))), Some(Obj([])), None, None)
  }

  /** A run imports the meeting with these documents. */
  function Import(source: string, ids: seq<string>): seq<Happening> {
    [StartRun, Observe(MEETING, ids), WriteLog(MeetingRecord(source, ids))]
  }

  /** The first document was dropped by the meeting, and the second kept. */
  const DROPPED := Observations(map[ONE := MEETING], {MEETING}, map[MEETING := [TWO]], [], Some(TWO))
  const SIGHTING := Sighting(MEETING, [ONE, TWO], [TWO])
  const FIRST_PLAN := Plan([Candidate(ONE, MEETING, None)], [], Some(TWO), None, [])

  lemma DroppedIsSeen()
    ensures Saw(NOTHING_SEEN.(emitted := {MEETING}), SIGHTING) == DROPPED
  {
    var s := SIGHTING;
    assert s.before[0] == ONE && s.before[1] == TWO && s.after[0] == TWO;
    assert ONE[9] == '1' && TWO[9] == '2';
    assert ONE in s.before && ONE !in s.after && TWO in s.before && TWO in s.after;
    assert DropsSome(s) && !DropsAll(s);
    assert Dropped([TWO], [TWO]) == [];
    assert Dropped(s.before, s.after) == [ONE];
    assert FirstKept([TWO], [TWO]) == Some(TWO);
    assert FirstKept(s.before, s.after) == Some(TWO);
    assert IsDocument(ONE);
  }

  lemma ListsAre(ids: seq<string>)
    ensures AttachmentIds(Some(Lists(ids))) == ids
  {
    StringsOfStrs(ids);
    assert FieldOf(Lists(ids).fields, "attachment") == Some(Arr(Strs(ids)));
  }

  lemma {:induction false} StringsOfStrs(ids: seq<string>)
    ensures StringsOf(Strs(ids)) == ids && AllWellFormed(Strs(ids))
  {
    if ids != [] {
      StringsOfStrs(ids[1..]);
      assert Strs(ids)[1..] == Strs(ids[1..]);
    }
  }

  lemma OneField(key: string, v: Json)
    requires WellFormed(v)
    ensures WellFormed(Obj([Field(key, v)])) && Meaning(Obj([Field(key, v)])) == VObj(map[key := Meaning(v)])
  {
    var fields := [Field(key, v)];
    assert MeaningFields(fields[1..]) == map[];
  }

  lemma ListsMeaning(ids: seq<string>)
    ensures WellFormed(Lists(ids)) && Meaning(Lists(ids)) == VObj(map["attachment" := VArr(MeaningItems(Strs(ids)))])
  {
    StringsOfStrs(ids);
    var list := Arr(Strs(ids));
    assert WellFormed(list) && Meaning(list) == VArr(MeaningItems(Strs(ids)));
    OneField("attachment", list);
  }

  lemma ListsDiffer(a: seq<string>, b: seq<string>)
    requires |a| != |b|
    ensures Stringify(Lists(a)) != Stringify(Lists(b))
  {
    ListsMeaning(a);
    ListsMeaning(b);
    StringifyCanonical(Lists(a), Lists(b));
    assert VObj(map["attachment" := VArr(MeaningItems(Strs(a)))]).fields["attachment"].items == MeaningItems(Strs(a));
  }

  /** The table holds the two documents and the meeting listing these. */
  ghost predicate Shows(state: State, source: string, ids: seq<string>) {
    && state.Keys == {MEETING, ONE, TWO}
    && state[MEETING].(seqNo := 0) == MeetingRecord(source, ids)
    && state[ONE].(seqNo := 0) == DocumentRecord(source, ONE) && state[TWO].(seqNo := 0) == DocumentRecord(source, TWO)
  }

  /** The world after a run that saw one meeting and wrote one record. */
  function Imported(w: World, m: string, ids: seq<string>, x: Record): World {
    var s := Sighting(m, Before(w.log.state, m), ids);
    w.(trace := [s], obs := Saw(NOTHING_SEEN.(emitted := {m}), s), log := Append(w.log, x))
  }

  lemma ImportedIs(w: World, m: string, ids: seq<string>, x: Record)
    ensures Next(Next(Next(w, StartRun), Observe(m, ids)), WriteLog(x)) == Imported(w, m, ids, x)
  {
    var a, s := Next(w, StartRun), Sighting(m, Before(w.log.state, m), ids);
    assert a.trace + [s] == [s] && a.obs.emitted + {m} == {m};
  }

  lemma GoImport(source: string, hs: seq<Happening>, ids: seq<string>)
    requires Legal(source, hs) && Go(source, hs).source == source
    ensures Legal(source, hs + Import(source, ids))
        && Go(source, hs + Import(source, ids)) == Imported(Go(source, hs), MEETING, ids, MeetingRecord(source, ids))
  {
    GoThree(source, hs, StartRun, Observe(MEETING, ids), MeetingRecord(source, ids));
    ImportedIs(Go(source, hs), MEETING, ids, MeetingRecord(source, ids));
  }

  lemma GoThree(source: string, hs: seq<Happening>, a: Happening, b: Happening, x: Record)
    requires Legal(source, hs) && Go(source, hs).source == source && x.sourceKey == source && a.StartRun? && b.Observe?
    ensures Legal(source, hs + [a, b, WriteLog(x)])
    ensures Go(source, hs + [a, b, WriteLog(x)]) == Next(Next(Next(Go(source, hs), a), b), WriteLog(x))
  {
    GoOneMore(source, hs, a);
    GoOneMore(source, hs + [a], b);
    GoOneMore(source, hs + [a] + [b], WriteLog(x));
    assert hs + [a] + [b] + [WriteLog(x)] == hs + [a, b, WriteLog(x)];
  }

  /** A run that finds the meeting listing another number of documents commits that list. */
  lemma MeetingChanges(log: SourceLog, source: string, was: seq<string>, ids: seq<string>)
    requires Shows(log.state, source, was) && |was| != |ids|
    ensures Shows(Append(log, MeetingRecord(source, ids)).state, source, ids) && Before(log.state, MEETING) == was
  {
    NewList(log.state, source, was, ids);
    AppendChanged(log, MeetingRecord(source, ids));
    ShowsNext(log.state, source, was, ids, log.nextSeq);
  }

  lemma NewList(state: State, source: string, was: seq<string>, ids: seq<string>)
    requires Shows(state, source, was) && |was| != |ids|
    ensures state[MEETING].contentHash != MeetingRecord(source, ids).contentHash && Before(state, MEETING) == was
  {
    ListsAre(was);
    ListsDiffer(was, ids);
    var r := state[MEETING].(seqNo := 0);
    assert state[MEETING].contentHash == r.contentHash && state[MEETING].payload == r.payload
        && state[MEETING].op == r.op;
  }

  lemma AppendChanged(log: SourceLog, r: Record)
    requires r.op.Upsert? && r.entityId in log.state && log.state[r.entityId].contentHash != r.contentHash
    ensures Append(log, r).state == log.state[r.entityId := r.(seqNo := log.nextSeq)]
  {
  }

  lemma ShowsNext(state: State, source: string, was: seq<string>, ids: seq<string>, n: nat)
    requires Shows(state, source, was)
    ensures Shows(state[MEETING := MeetingRecord(source, ids).(seqNo := n)], source, ids)
  {
    IdsDiffer();
  }

  lemma IdsDiffer()
    ensures ONE != TWO && ONE != MEETING && TWO != MEETING
  {
    assert ONE[9] == '1' && TWO[9] == '2';
  }

  /** The first run of all. */
  function Beginning(source: string): seq<Happening> {
    Import(source, [ONE, TWO]) + [WriteLog(DocumentRecord(source, ONE))] + [WriteLog(DocumentRecord(source, TWO))]
  }

  function FirstLog(source: string): SourceLog {
    Append(Append(Append(EMPTY, MeetingRecord(source, [ONE, TWO])), DocumentRecord(source, ONE)),
           DocumentRecord(source, TWO))
  }

  lemma BeginningGoes(source: string)
    ensures var w := Go(source, Beginning(source));
      Legal(source, Beginning(source)) && w.source == source && w.log == FirstLog(source)
      && w.table == map[] && w.past == [] && w.step.None?
  {
    var b := Import(source, [ONE, TWO]);
    assert [] + b == b;
    GoImport(source, [], [ONE, TWO]);
    GoOneMore(source, b, WriteLog(DocumentRecord(source, ONE)));
    GoOneMore(source, b + [WriteLog(DocumentRecord(source, ONE))], WriteLog(DocumentRecord(source, TWO)));
  }

  lemma AppendNew(log: SourceLog, r: Record)
    requires r.op.Upsert? && r.entityId !in log.state
    ensures Append(log, r).state == log.state[r.entityId := Numbered(log, r)]
  {
  }

  lemma FirstLogShows(source: string)
    ensures Shows(FirstLog(source).state, source, [ONE, TWO])
  {
    var m, one, two := MeetingRecord(source, [ONE, TWO]), DocumentRecord(source, ONE), DocumentRecord(source, TWO);
    IdsDiffer();
    AppendNew(EMPTY, m);
    AppendNew(Append(EMPTY, m), one);
    AppendNew(Append(Append(EMPTY, m), one), two);
  }

  lemma CharInText(text: string, part: string, k: nat)
    requires k < |part| && Contains(text, part)
    ensures part[k] in text
  {
    var i: nat :| i <= |text| && PartAt(text, part, i);
    assert text[i..i + |part|][k] == text[i + k];
  }

  predicate Plain(s: string) { forall i | 0 <= i < |s| :: s[i] != '"' && s[i] != '\\' && s[i] as int >= 32 }

  lemma {:induction false} PlainText(s: string)
    requires Plain(s)
    ensures EscapeAll(s) == s
  {
    if s != "" {
      PlainText(s[1..]);
      assert s == [s[0]] + s[1..];
    }
  }

  lemma OneListed(id: string)
    ensures Serialize(Lists([id])) == "{" + (Quote("attachment") + ":" + ("[" + Quote(id) + "]")) + "}"
  {
    var items := [Str(id)];
    assert Strs([id]) == items && items[1..] == [];
    assert SerializeItems(items) == [Quote(id)];
    var fields := [Field("attachment", Arr(items))];
    assert fields[1..] == [];
    assert SerializeFields(fields) == [Quote("attachment") + ":" + Serialize(Arr(items))];
  }

  lemma WithoutChar(key: string, id: string, c: char)
    requires c !in key && c !in id && c !in "{}[]:\""
    ensures c !in "{" + (("\"" + key + "\"") + ":" + ("[" + ("\"" + id + "\"") + "]")) + "}"
  {
    var k, v := "\"" + key + "\"", "\"" + id + "\"";
    assert "{}[]:\"" == ['{', '}', '[', ']', ':', '"'];
    assert c !in k && c !in v;
    assert c !in k + ":" && c !in "[" + v + "]";
  }

  lemma ListedWithout(id: string, c: char)
    requires Plain(id) && Plain("attachment") && c !in "attachment" && c !in id && c !in "{}[]:\""
    ensures c !in Serialize(Lists([id]))
  {
    OneListed(id);
    PlainText(id);
    PlainText("attachment");
    WithoutChar("attachment", id, c);
  }

  lemma QuotedEnds(one: string)
    requires Plain(one) && one != ""
    ensures |one| < |Quote(one)| && Quote(one)[|one|] == one[|one| - 1]
  {
    PlainText(one);
  }

  /** Two texts that need no escapes, the first ending in a character the second lacks. */
  predicate Apart(one: string, two: string) {
    && Plain(one) && Plain(two) && Plain("attachment") && one != "" && one[0] == 'd'
    && one[|one| - 1] !in "attachment" && one[|one| - 1] !in two && one[|one| - 1] !in "{}[]:\""
  }

  lemma TheyAreApart()
    ensures Apart(ONE, TWO)
  {
    assert ONE[9] == '1';
  }

  lemma NotInText(one: string, two: string)
    requires Apart(one, two)
    ensures !Contains(Serialize(Lists([two])), Quote(one))
  {
    ListedWithout(two, one[|one| - 1]);
    QuotedEnds(one);
    if Contains(Serialize(Lists([two])), Quote(one)) { CharInText(Serialize(Lists([two])), Quote(one), |one|); }
  }

  /** The meeting, listing only the second document, does not mention the first. */
  lemma NotMentioned(source: string, r: Record, one: string, two: string)
    requires r.(seqNo := 0) == MeetingRecord(source, [two]) && source != one && Apart(one, two)
    ensures !Mentions(r, one)
  {
    NotInMeeting(source, one, two);
    NumberDoesNotMatter(r, MeetingRecord(source, [two]), one);
  }

  lemma NotInMeeting(source: string, one: string, two: string)
    requires source != one && Apart(one, two)
    ensures !Mentions(MeetingRecord(source, [two]), one)
  {
    NotInText(one, two);
    ObjectText(Lists([two]));
    assert "notubiz"[0] == 'n' && "Meeting"[0] == 'M' && MEETING[0] == 'm';
  }

  lemma ObjectText(v: Json)
    requires v.Obj?
    ensures Stringify(v) != "" && Stringify(v)[0] == '{'
  {
  }

  /** The number of a record is not part of its text. */
  lemma NumberDoesNotMatter(r: Record, m: Record, id: string)
    requires r.(seqNo := 0) == m.(seqNo := 0)
    ensures Mentions(r, id) <==> Mentions(m, id)
  {
    var x, y := r.(seqNo := 0), m.(seqNo := 0);
    assert x.payload == r.payload && x.entityId == r.entityId && x.entityType == r.entityType;
    assert y.payload == m.payload && y.entityId == m.entityId && y.entityType == m.entityType;
  }

  lemma NotListed(state: State, source: string)
    requires Shows(state, source, [TWO]) && source != ONE
    ensures !Listed(state, ONE)
  {
    TheyAreApart();
    NotMentioned(source, state[MEETING], ONE, TWO);
    DocumentsOutOfRange(ONE);
    DocumentsOutOfRange(TWO);
    OnlyMeetingIn(state);
  }

  lemma OnlyMeetingIn(state: State)
    requires state.Keys == {MEETING, ONE, TWO}
    requires forall i | 0 <= i < |REFERENCING_PREFIXES| ::
        !InRange(ONE, REFERENCING_PREFIXES[i]) && !InRange(TWO, REFERENCING_PREFIXES[i])
    ensures forall id | id in LiveUnderAny(state, REFERENCING_PREFIXES) :: id == MEETING
  {
  }

  lemma DocumentsOutOfRange(id: string)
    requires id != "" && id[0] == 'd'
    ensures forall i | 0 <= i < |REFERENCING_PREFIXES| :: !InRange(id, REFERENCING_PREFIXES[i])
  {
    assert Less(id, "meeting:") && Less(id, "motion:");
  }

  /** With the first document dropped, live and not mentioned, and no suspect due, the plan is to ask
      about it. */
  lemma FirstPlanIs(v: Look, suspects: seq<Suspect>)
    requires v.obs == DROPPED && v.state.Keys == {MEETING, ONE, TWO} && v.state[ONE].op.Upsert? && !Listed(v.state, ONE)
    requires v.now as real < v.minAge && forall k | 0 <= k < |suspects| :: suspects[k] == SUSPECT
    ensures IsPlan(FIRST_PLAN, v, suspects, 25.0)
  {
    IdsDiffer();
    assert StillThere(v, ONE) && !Ripe(v, SUSPECT) && !BackOrGone(v, SUSPECT);
    assert Wanted(v, suspects) == {ONE};
    assert FIRST_PLAN.remove[0].entityId == ONE;
    ControlIsTwo(v, suspects);
  }

  lemma {:induction false} ControlIsTwo(v: Look, suspects: seq<Suspect>)
    requires v.obs.control == Some(TWO)
    ensures Control(v, suspects) == Some(TWO)
  {
    if suspects != [] { ControlIsTwo(v, suspects[..|suspects| - 1]); }
  }

  /** A step that plans to ask about the first document, with the supplier's answer for it; the
      control document answers live. */
  function Asking(state: State, now: int, suspects: seq<Suspect>, answer: Presence): Run {
    Run([SIGHTING], now, suspects, Look(DROPPED, state, now, 43_200_000.0), 25.0, FIRST_PLAN,
        (i, url) => if i == 0 then AnswersLive else answer, i => now, id => false, 1)
  }

  lemma WritesWhenGone(r: Run, now: int)
    requires r.plan == FIRST_PLAN && ControlAnswer(r.plan, r.look.state, r.ask) == Some(AnswersLive)
    requires Answer(r.plan, r.look.state, r.ask, 0) == AnswersGone && r.stamp(0) == now
    ensures Writes(r) == [Remember(Suspect(ONE, MEETING, now))]
  {
    var c := r.plan.remove[0];
    assert GoneAmong(r.plan, r.look.state, r.ask, 0) == [] && KeptAmong(r.plan, r.look.state, r.ask, 0) == [];
    assert GoneAmong(r.plan, r.look.state, r.ask, 1) == [c] && KeptAmong(r.plan, r.look.state, r.ask, 1) == [];
    assert Answers(r) == Confirmed([c], [], Some(AnswersLive), false);
    FirstSightingOnly(c, r.stamp, r.completed);
  }

  lemma FirstSightingOnly(c: Candidate, stamp: nat -> int, completed: string -> bool)
    requires c.firstSeenAt.None?
    ensures FirstSightings([c], stamp, 0) == [Remember(Suspect(c.entityId, c.meetingId, stamp(0)))]
    ensures Retractions([c]) == [] && Settled([c], completed) == [] && ServedAgain([]) == [] && ForgetAll([]) == []
  {
    var rest: seq<Candidate> := [c][1..];
    assert rest == [];
    assert FirstSightings(rest, stamp, 1) == [] && Retractions(rest) == [] && Settled(rest, completed) == [];
  }

  lemma WritesWhenServed(r: Run)
    requires r.plan == FIRST_PLAN && ControlAnswer(r.plan, r.look.state, r.ask) == Some(AnswersLive)
    requires Answer(r.plan, r.look.state, r.ask, 0) == AnswersLive
    ensures Writes(r) == []
  {
    var c := r.plan.remove[0];
    var kept := [Kept(c, Some(AnswersLive))];
    assert GoneAmong(r.plan, r.look.state, r.ask, 0) == [] && KeptAmong(r.plan, r.look.state, r.ask, 0) == [];
    assert GoneAmong(r.plan, r.look.state, r.ask, 1) == [] && KeptAmong(r.plan, r.look.state, r.ask, 1) == kept;
    assert Answers(r) == Confirmed([], kept, Some(AnswersLive), false);
    assert ServedAgain(kept) == [];
  }

  const SCENE := D.Scene(id => [], i => 0, i => true)

  lemma NothingRetracted(r: Run)
    requires Done(r) == [] || (|Done(r)| == 1 && Done(r)[0].Remember?)
    ensures Retracted(Done(r)) == []
  {
    if Done(r) != [] { assert Retracted(Done(r)[1..]) == []; }
  }

  /** A step without retractions only changes the table. */
  function Stepped(w: World, r: Run): World {
    w.(table := After(w.table, RemovalStep(r)), past := w.past + [RemovalStep(r)], step := None)
  }

  lemma StepGoes(source: string, hs: seq<Happening>, r: Run)
    requires Legal(source, hs) && MayBegin(Go(source, hs), r)
    requires Done(r) == [] || (|Done(r)| == 1 && Done(r)[0].Remember?)
    ensures Legal(source, hs + [BeginStep(r, SCENE)]) && Legal(source, hs + [BeginStep(r, SCENE)] + [EndStep(true)])
    ensures Go(source, hs + [BeginStep(r, SCENE)] + [EndStep(true)]) == Stepped(Go(source, hs), r)
  {
    NothingRetracted(r);
    GoOneMore(source, hs, BeginStep(r, SCENE));
    GoOneMore(source, hs + [BeginStep(r, SCENE)], EndStep(true));
  }

  lemma HonestlyAsking(state: State, now: int, suspects: seq<Suspect>, answer: Presence, table: Suspects)
    requires state.Keys == {MEETING, ONE, TWO} && state[ONE].op.Upsert? && !Listed(state, ONE)
    requires 0 <= now <= 1000
    requires (suspects == [] && table == map[]) || (suspects == [SUSPECT] && table == map[ONE := SUSPECT])
    ensures Honest(table, Asking(state, now, suspects, answer))
  {
    var r := Asking(state, now, suspects, answer);
    FirstPlanIs(r.look, suspects);
    assert Rows(table, r) == table;
  }

  /** Where the meeting was last seen to drop the first document. */
  ghost predicate SeesDrop(w: World, source: string, table: Suspects) {
    && w.source == source && Shows(w.log.state, source, [TWO]) && w.trace == [SIGHTING] && w.obs == DROPPED
    && w.table == table && w.step.None?
  }

  /** No step is under way, and the log lists these. */
  ghost predicate Between(w: World, source: string, ids: seq<string>) {
    w.source == source && w.step.None? && Shows(w.log.state, source, ids)
  }

  /** Importing the meeting without the first document after it listed both. */
  lemma DropGoes(source: string, hs: seq<Happening>)
    requires Legal(source, hs) && Between(Go(source, hs), source, [ONE, TWO])
    ensures Legal(source, hs + Import(source, [TWO]))
    ensures SeesDrop(Go(source, hs + Import(source, [TWO])), source, Go(source, hs).table)
  {
    GoImport(source, hs, [TWO]);
    MeetingChanges(Go(source, hs).log, source, [ONE, TWO], [TWO]);
    DroppedIsSeen();
  }

  lemma AskingAllowed(w: World, source: string, now: int, suspects: seq<Suspect>, answer: Presence)
    requires SeesDrop(w, source, w.table) && source != ONE && 0 <= now <= 1000
    requires (suspects == [] && w.table == map[]) || (suspects == [SUSPECT] && w.table == map[ONE := SUSPECT])
    ensures MayBegin(w, Asking(w.log.state, now, suspects, answer))
  {
    NotListed(w.log.state, source);
    HonestlyAsking(w.log.state, now, suspects, answer, w.table);
  }

  /** The step that finds the document gone records it. */
  lemma RecordStep(source: string, hs: seq<Happening>) returns (after: seq<Happening>)
    requires Legal(source, hs) && SeesDrop(Go(source, hs), source, map[]) && source != ONE
    ensures Legal(source, after) && Between(Go(source, after), source, [TWO])
    ensures Go(source, after).table == map[ONE := SUSPECT]
  {
    var w := Go(source, hs);
    var r := Asking(w.log.state, 0, [], AnswersGone);
    WritesWhenGone(r, 0);
    DoneWhenFinished(r);
    AskingAllowed(w, source, 0, [], AnswersGone);
    StepGoes(source, hs, r);
    after := hs + [BeginStep(r, SCENE)] + [EndStep(true)];
    RecordedAlone(r);
  }

  lemma RecordedAlone(r: Run)
    requires Done(r) == [Remember(SUSPECT)]
    ensures After(map[], RemovalStep(r)) == map[ONE := SUSPECT]
  {
    var rows := Expire(map[], r.listedAt - SUSPECT_TTL_MS);
    assert Done(r)[..0] == [];
    assert ApplyAll(rows, Done(r)) == Apply(ApplyAll(rows, []), Remember(SUSPECT));
  }

  /** The run between: the meeting lists both again and the run stops before its step. */
  lemma RelistGoes(source: string, hs: seq<Happening>)
    requires Legal(source, hs) && Between(Go(source, hs), source, [TWO])
    ensures var w := Go(source, hs + Import(source, [ONE, TWO]));
      && Legal(source, hs + Import(source, [ONE, TWO])) && w.table == Go(source, hs).table
      && Between(w, source, [ONE, TWO])
  {
    GoImport(source, hs, [ONE, TWO]);
    MeetingChanges(Go(source, hs).log, source, [TWO], [ONE, TWO]);
  }

  /** The step finished and was told that the supplier serves the suspect, whose meeting is live, and
      the suspect is in the table all the same, which is what the past makes it. */
  ghost predicate ServedButKept(before: World, after: World, r: Run, s: Suspect) {
    && Finished(r) && s in r.suspects && Answered(r, s.entityId, AnswersLive)
    && LiveReferrer(r.look.state, s.meetingId) && r.look.state == before.log.state
    && s.entityId in after.table && after.table[s.entityId] == s
    && History(after.past) && after.table == Table(after.past)
  }

  /** A suspect served again can stay. Its meeting drops a document, which becomes a suspect; the next
      run lists it again and stops before its step; the run after that finds it dropped again and is
      told that the supplier serves it. That run finishes its step and the suspect is still there. */
  lemma YoungSuspectServedAgainStays(source: string) returns (before: seq<Happening>, r: Run, s: Suspect)
    requires source != ONE
    ensures var hs := before + [BeginStep(r, SCENE)] + [EndStep(true)];
      Legal(source, hs) && ServedButKept(Go(source, before), Go(source, hs), r, s)
  {
    before := UpToTheStep(source);
    r, s := ServedStep(source, before);
    TableIsThePast(source, before + [BeginStep(r, SCENE)] + [EndStep(true)]);
  }

  /** The imports before the step that leaves the suspect, and the step that recorded it. */
  lemma UpToTheStep(source: string) returns (hs: seq<Happening>)
    requires source != ONE
    ensures Legal(source, hs) && SeesDrop(Go(source, hs), source, map[ONE := SUSPECT])
  {
    var b := Beginning(source);
    BeginningGoes(source);
    FirstLogShows(source);
    DropGoes(source, b);
    hs := RecordStep(source, b + Import(source, [TWO]));
    RelistGoes(source, hs);
    DropGoes(source, hs + Import(source, [ONE, TWO]));
    hs := hs + Import(source, [ONE, TWO]) + Import(source, [TWO]);
  }

  lemma TableIsThePast(source: string, hs: seq<Happening>)
    requires Legal(source, hs)
    ensures History(Go(source, hs).past) && Table(Go(source, hs).past) == Go(source, hs).table
  {
    AlwaysInv(source, hs);
  }

  lemma ServedStep(source: string, hs: seq<Happening>) returns (r: Run, s: Suspect)
    requires Legal(source, hs) && SeesDrop(Go(source, hs), source, map[ONE := SUSPECT]) && source != ONE
    ensures Legal(source, hs + [BeginStep(r, SCENE)] + [EndStep(true)])
    ensures Finished(r) && s in r.suspects && Answered(r, s.entityId, AnswersLive)
    ensures LiveReferrer(r.look.state, s.meetingId) && r.look.state == Go(source, hs).log.state
    ensures var after := Go(source, hs + [BeginStep(r, SCENE)] + [EndStep(true)]).table;
      s.entityId in after && after[s.entityId] == s
  {
    var w := Go(source, hs);
    s := SUSPECT;
    r := Asking(w.log.state, 1000, [s], AnswersLive);
    assert Expire(w.table, 1000 - SUSPECT_TTL_MS) == w.table;
    WritesWhenServed(r);
    DoneWhenFinished(r);
    AskingAllowed(w, source, 1000, [s], AnswersLive);
    StepGoes(source, hs, r);
    NothingChanges(w.table, r);
    MeetingRefers(w.log.state, source);
    assert AnsweredAt(r, ONE, AnswersLive, 0);
  }

  lemma NothingChanges(table: Suspects, r: Run)
    requires Done(r) == [] && Expire(table, r.listedAt - SUSPECT_TTL_MS) == table
    ensures After(table, RemovalStep(r)) == table
  {
  }

  lemma MeetingRefers(state: State, source: string)
    requires Shows(state, source, [TWO])
    ensures LiveReferrer(state, MEETING)
  {
    assert "meeting:" <= MEETING && MEETING[8] == '1';
  }
}
