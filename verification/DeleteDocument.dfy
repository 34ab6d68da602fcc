/** Retracting documents that are gone at the source: retractDocumentsGoneAtSource
    (src/ops/delete_document.ts), step by step with failures, over the export log. */
module DeleteDocument {
  import opened Basics
  import opened ExportRecords
  import opened ExportLog

  // ----- document entity ids -----

  datatype Parsed = Parsed(entityId: string, supplier: string, organizationType: string, sourceKey: string,
                           nativeId: string)

  function Split(s: string): (parts: seq<string>)
    ensures parts != []
  {
    if s == "" then [""]
    else
      var rest := Split(s[1..]);
      if s[0] == ':' then [""] + rest else [[s[0]] + rest[0]] + rest[1..]
  }

  function Joined(parts: seq<string>): string
    requires parts != []
  {
    if |parts| == 1 then parts[0] else parts[0] + ":" + Joined(parts[1..])
  }

  function ParseDocumentEntityId(entityId: string): Option<Parsed> {
    var parts := Split(entityId);
    if |parts| < 5 || parts[0] != "document" || "" in parts[1..5] then None
    else Some(Parsed(entityId, parts[1], parts[2], parts[3], Joined(parts[4..])))
  }

  lemma {:induction false} JoinUndoesSplit(s: string)
    ensures Joined(Split(s)) == s
  {
    if s != "" {
      JoinUndoesSplit(s[1..]);
      var rest := Split(s[1..]);
      if s[0] == ':' {
        assert ([""] + rest)[1..] == rest;
      } else {
        var parts := [[s[0]] + rest[0]] + rest[1..];
        assert parts[1..] == rest[1..];
      }
    }
  }

  predicate ColonFree(part: string) { ':' !in part }

  lemma {:induction false} SplitPart(part: string, rest: string)
    requires ColonFree(part)
    ensures Split(part + ":" + rest) == [part] + Split(rest)
  {
    if part == "" {
      assert (part + ":" + rest)[1..] == rest;
    } else {
      SplitPart(part[1..], rest);
      assert (part + ":" + rest)[1..] == part[1..] + ":" + rest;
      assert [part[0]] + part[1..] == part;
    }
  }

  lemma {:induction false} SplitParts(s: string)
    ensures forall i | 0 <= i < |Split(s)| :: ColonFree(Split(s)[i])
  {
    if s != "" { SplitParts(s[1..]); }
  }

  /** The text of an id with these parts. */
  function IdText(p: Parsed): string {
    "document" + ":" + (p.supplier + ":" + (p.organizationType + ":" + (p.sourceKey + ":" + p.nativeId)))
  }

  predicate ProperParts(p: Parsed) {
    && p.supplier != "" && p.organizationType != "" && p.sourceKey != "" && p.nativeId != "" && p.nativeId[0] != ':'
    && ColonFree(p.supplier) && ColonFree(p.organizationType) && ColonFree(p.sourceKey)
  }

  lemma FirstPart(s: string)
    ensures Split(s)[0] == "" <==> s == "" || s[0] == ':'
  {
  }

  /** An id is accepted exactly when it is "document" and four parts between colons, none of them
      empty, and then the parts put together again are the id; only the native id may hold colons. */
  lemma ParsedIff(entityId: string, p: Parsed)
    ensures ParseDocumentEntityId(entityId) == Some(p)
        <==> p.entityId == entityId && ProperParts(p) && entityId == IdText(p)
  {
    if p.entityId == entityId && ProperParts(p) && entityId == IdText(p) { ProperIsParsed(entityId, p); }
    if ParseDocumentEntityId(entityId) == Some(p) { ParsedIsProper(entityId, p); }
  }

  lemma IdParts(p: Parsed)
    requires ProperParts(p)
    ensures Split(IdText(p)) == ["document", p.supplier, p.organizationType, p.sourceKey] + Split(p.nativeId)
  {
    var t3 := p.sourceKey + ":" + p.nativeId;
    var t2 := p.organizationType + ":" + t3;
    var t1 := p.supplier + ":" + t2;
    SplitPart(p.sourceKey, p.nativeId);
    SplitPart(p.organizationType, t3);
    SplitPart(p.supplier, t2);
    SplitPart("document", t1);
    OneByOne("document", p.supplier, p.organizationType, p.sourceKey, Split(p.nativeId));
  }

  lemma OneByOne(a: string, b: string, c: string, d: string, rest: seq<string>)
    ensures [a] + ([b] + ([c] + ([d] + rest))) == [a, b, c, d] + rest
  {
  }

  lemma ProperIsParsed(entityId: string, p: Parsed)
    requires p.entityId == entityId && ProperParts(p) && entityId == IdText(p)
    ensures ParseDocumentEntityId(entityId) == Some(p)
  {
    IdParts(p);
    FirstPart(p.nativeId);
    JoinUndoesSplit(p.nativeId);
    var native := Split(p.nativeId);
    var parts := ["document", p.supplier, p.organizationType, p.sourceKey] + native;
    assert parts[1..5] == [p.supplier, p.organizationType, p.sourceKey, native[0]];
    assert parts[4..] == native;
  }

  lemma ParsedIsProper(entityId: string, p: Parsed)
    requires ParseDocumentEntityId(entityId) == Some(p)
    ensures p.entityId == entityId && ProperParts(p) && entityId == IdText(p)
  {
    var parts := Split(entityId);
    SplitParts(entityId);
    JoinUndoesSplit(entityId);
    var a, b, c, d := parts[1..], parts[2..], parts[3..], parts[4..];
    assert a[1..] == b && b[1..] == c && c[1..] == d;
    assert Joined(parts) == parts[0] + ":" + Joined(a);
    assert Joined(a) == parts[1] + ":" + Joined(b);
    assert Joined(b) == parts[2] + ":" + Joined(c);
    assert Joined(c) == parts[3] + ":" + Joined(d);
    RegroupId(parts[0], parts[1], parts[2], parts[3], Joined(d));
    assert parts[1..5][0] == parts[1] && parts[1..5][1] == parts[2] && parts[1..5][2] == parts[3]
        && parts[1..5][3] == parts[4];
    assert parts[4] != "" && d[0] == parts[4];
    assert Joined(d)[0] == parts[4][0];
    assert parts[4][0] in parts[4];
  }

  lemma RegroupId(a: string, b: string, c: string, d: string, e: string)
    ensures a + ":" + (b + ":" + (c + ":" + (d + ":" + e))) == a + ":" + (b + ":" + (c + ":" + d + ":" + e))
  {
    assert c + ":" + (d + ":" + e) == c + ":" + d + ":" + e;
  }

  // ----- the steps for one document -----

  datatype Step =
    | FindPages
    | HideRows(ids: seq<string>)
    | RecordTombstone(sourceKey: string, tombstone: Record)
    | EmptyStorage(prefix: string)

  /** One call to the index, the log or the storage, and whether it returned normally. */
  datatype Event = Event(step: Step, ok: bool)

  datatype Reached = Nothing | Hidden | Tombstoned | Deleted
  datatype Failure = StepFailed | TaskFailed
  datatype Outcome = Outcome(entityId: string, reached: Reached, error: Option<Failure>)

  function StoragePrefixes(p: Parsed): seq<string> {
    var root := "documents/" + p.supplier + "/" + p.organizationType + "/" + p.sourceKey + "/";
    [root + p.nativeId + "/", root + p.entityId + "/",
     "pdf-pages-v4/" + p.entityId + "/", "pdf-pages-v2/" + p.entityId + "/"]
  }

  function TombstoneFor(p: Parsed, meetingId: string, time: int): Record {
    Tombstone(p.sourceKey, p.supplier, p.entityId, "Document", time, Some(RemovedAtSource), Some(meetingId))
  }

  /** What retracting one document does when nothing fails: find its page rows, hide it and them,
      record the tombstone, empty its storage prefixes. */
  function Steps(p: Parsed, meetingId: string, pages: seq<string>, time: int): (s: seq<Step>)
    ensures |s| == 7
  {
    [FindPages, HideRows([p.entityId] + pages), RecordTombstone(p.sourceKey, TombstoneFor(p, meetingId, time))]
    + EmptyAll(StoragePrefixes(p))
  }

  function EmptyAll(prefixes: seq<string>): (s: seq<Step>)
    ensures |s| == |prefixes|
  {
    seq(|prefixes|, i requires 0 <= i < |prefixes| => EmptyStorage(prefixes[i]))
  }

  function AllWorked(steps: seq<Step>): (es: seq<Event>)
    ensures |es| == |steps|
  {
    seq(|steps|, i requires 0 <= i < |steps| => Event(steps[i], true))
  }

  function ReachedAfter(n: nat): Reached {
    if n < 2 then Nothing else if n == 2 then Hidden else if n < 7 then Tombstoned else Deleted
  }

  /** The calls were the first `n` of the steps, all of which worked, and then at most one that
      failed; what was reached is what those `n` steps amount to. */
  ghost predicate RanTo(steps: seq<Step>, events: seq<Event>, o: Outcome, n: nat)
    requires |steps| == 7
  {
    && n <= 7
    && events == AllWorked(steps[..n]) + (if n < 7 then [Event(steps[n], false)] else [])
    && o.reached == ReachedAfter(n) && (o.error == Some(StepFailed) <==> n < 7)
  }

  ghost predicate Ran(entityId: string, meetingId: string, pages: seq<string>, time: int, events: seq<Event>,
                      o: Outcome) {
    && o.entityId == entityId
    && match ParseDocumentEntityId(entityId)
       case None => events == [] && o.reached == Nothing && o.error == Some(StepFailed)
       case Some(p) => exists n :: RanTo(Steps(p, meetingId, pages, time), events, o, n)
  }

  type Logs = map<string, SourceLog>

  function LogOf(logs: Logs, sourceKey: string): SourceLog {
    if sourceKey in logs then logs[sourceKey] else EMPTY
  }

  /** What the calls did to the export logs. */
  function Effect(logs: Logs, events: seq<Event>): Logs {
    if events == [] then logs
    else
      var before, last := Effect(logs, events[..|events| - 1]), events[|events| - 1];
      if last.ok && last.step.RecordTombstone? then
        before[last.step.sourceKey := Append(LogOf(before, last.step.sourceKey), last.step.tombstone)]
      else before
  }

  /** One entry of the loop. `works(i)` says whether the i-th call of the run returns normally. */
  method RetractOne(entityId: string, meetingId: string, pages: seq<string>, time: int,
                    works: nat -> bool, call: nat, logs: Logs)
    returns (o: Outcome, events: seq<Event>, logs': Logs)
    ensures Ran(entityId, meetingId, pages, time, events, o) && o.error != Some(TaskFailed)
    ensures logs' == Effect(logs, events)
  {
    o, events, logs' := Outcome(entityId, Nothing, Some(StepFailed)), [], logs;
    var parsed := ParseDocumentEntityId(entityId);
    if parsed.None? { return; }
    var p := parsed.value;
    ghost var steps := Steps(p, meetingId, pages, time);
    StepsAre(p, meetingId, pages, time);
    o, events, logs' := RetractParsed(p, TombstoneFor(p, meetingId, time), pages, steps, works, call, logs);
  }

  /** The steps for an id that parsed. */
  method RetractParsed(p: Parsed, t: Record, pages: seq<string>, ghost steps: seq<Step>, works: nat -> bool,
                       call: nat, logs: Logs)
    returns (o: Outcome, events: seq<Event>, logs': Logs)
    requires |steps| == 7 && steps[0] == FindPages && steps[1] == HideRows([p.entityId] + pages)
    requires steps[2] == RecordTombstone(p.sourceKey, t)
        && forall i | 0 <= i < 4 :: steps[3 + i] == EmptyStorage(StoragePrefixes(p)[i])
    ensures o.entityId == p.entityId && o.error != Some(TaskFailed) && exists n :: RanTo(steps, events, o, n)
    ensures logs' == Effect(logs, events)
  {
    o, logs' := Outcome(p.entityId, Nothing, Some(StepFailed)), logs;
    var n;
    events, n := HideDocument(p, pages, steps, works, call, logs);
    if n < 2 {
      assert RanTo(steps, events, o, n);
      return;
    }
    o := o.(reached := Hidden);
    TombstoneNext(logs, events, Event(RecordTombstone(p.sourceKey, t), works(call + 2)));
    events := events + [Event(RecordTombstone(p.sourceKey, t), works(call + 2))];
    if !works(call + 2) {
      assert RanTo(steps, events, o, 2);
      return;
    }
    Worked(steps, 2);
    logs' := logs'[p.sourceKey := Append(LogOf(logs', p.sourceKey), t)];
    o := o.(reached := Tombstoned);
    o, events := EmptyPrefixes(StoragePrefixes(p), o, events, steps, works, call + 3, logs);
  }

  /** Look the pages up and hide the document with them: `n` of the two calls worked. */
  method HideDocument(p: Parsed, pages: seq<string>, ghost steps: seq<Step>, works: nat -> bool, call: nat,
                      ghost logs: Logs)
    returns (events: seq<Event>, n: nat)
    requires |steps| == 7 && steps[0] == FindPages && steps[1] == HideRows([p.entityId] + pages)
    ensures n <= 2 && events == AllWorked(steps[..n]) + (if n < 2 then [Event(steps[n], false)] else [])
    ensures Effect(logs, events) == logs
  {
    NoTombstone(logs, [], Event(FindPages, works(call)));
    events := [] + [Event(FindPages, works(call))];
    if !works(call) {
      return events, 0;
    }
    Worked(steps, 0);
    NoTombstone(logs, events, Event(HideRows([p.entityId] + pages), works(call + 1)));
    events := events + [Event(HideRows([p.entityId] + pages), works(call + 1))];
    if !works(call + 1) {
      return events, 1;
    }
    Worked(steps, 1);
    return events, 2;
  }

  lemma TombstoneNext(logs: Logs, events: seq<Event>, e: Event)
    requires Effect(logs, events) == logs && e.step.RecordTombstone?
    ensures Effect(logs, events + [e])
              == if e.ok then logs[e.step.sourceKey := Append(LogOf(logs, e.step.sourceKey), e.step.tombstone)]
                  else logs
  {
    assert (events + [e])[..|events + [e]| - 1] == events;
  }

  /** The loop over the storage prefixes. */
  method EmptyPrefixes(prefixes: seq<string>, o0: Outcome, events0: seq<Event>, ghost steps: seq<Step>,
                       works: nat -> bool, call: nat, ghost logs: Logs)
    returns (o: Outcome, events: seq<Event>)
    requires |steps| == 7 && |prefixes| == 4 && forall i | 0 <= i < 4 :: steps[3 + i] == EmptyStorage(prefixes[i])
    requires events0 == AllWorked(steps[..3]) && o0.reached == Tombstoned && o0.error == Some(StepFailed)
    ensures o.entityId == o0.entityId && o.error != Some(TaskFailed) && exists n :: RanTo(steps, events, o, n)
    ensures Effect(logs, events) == Effect(logs, events0)
  {
    o, events := o0, events0;
    var i := 0;
    while i < |prefixes|
      invariant i <= 4 && o == o0
      invariant events == AllWorked(steps[..3 + i])
      invariant Effect(logs, events) == Effect(logs, events0)
    {
      NoTombstone(logs, events, Event(EmptyStorage(prefixes[i]), works(call + i)));
      events := events + [Event(EmptyStorage(prefixes[i]), works(call + i))];
      if !works(call + i) {
        assert RanTo(steps, events, o, 3 + i);
        return;
      }
      Worked(steps, 3 + i);
      i := i + 1;
    }
    o := o.(reached := Deleted, error := None);
    assert events == AllWorked(steps[..7]) + [];
    assert RanTo(steps, events, o, 7);
  }

  lemma StepsAre(p: Parsed, meetingId: string, pages: seq<string>, time: int)
    ensures var s := Steps(p, meetingId, pages, time);
      && s[0] == FindPages && s[1] == HideRows([p.entityId] + pages)
      && s[2] == RecordTombstone(p.sourceKey, TombstoneFor(p, meetingId, time))
      && forall i | 0 <= i < 4 :: s[3 + i] == EmptyStorage(StoragePrefixes(p)[i])
  {
  }

  lemma Worked(steps: seq<Step>, n: nat)
    requires n < |steps|
    ensures AllWorked(steps[..n + 1]) == AllWorked(steps[..n]) + [Event(steps[n], true)]
    ensures AllWorked(steps[..0]) == []
  {
  }

  lemma NoTombstone(logs: Logs, events: seq<Event>, e: Event)
    requires !e.ok || !e.step.RecordTombstone?
    ensures Effect(logs, events + [e]) == Effect(logs, events)
  {
    assert (events + [e])[..|events + [e]| - 1] == events;
  }

  // ----- the whole call -----

  datatype Entry = Entry(entityId: string, meetingId: string)

  /** What the index says about a document's pages, and the clock when it is retracted. */
  datatype Scene = Scene(pages: string -> seq<string>, time: nat -> int, works: nat -> bool)

  predicate PastTombstone(o: Outcome) { o.reached.Tombstoned? || o.reached.Deleted? }

  /** The documents the delete task covers. */
  function Covered(outcomes: seq<Outcome>): seq<string> {
    if outcomes == [] then []
    else
      var last := outcomes[|outcomes| - 1];
      Covered(outcomes[..|outcomes| - 1]) + if PastTombstone(last) then [last.entityId] else []
  }

  /** A failed delete task is noted on the covered documents that have no earlier error. */
  function Noted(o: Outcome): Outcome {
    if PastTombstone(o) && o.error.None? then o.(error := Some(TaskFailed)) else o
  }

  function EffectAll(logs: Logs, runs: seq<seq<Event>>): Logs {
    if runs == [] then logs else Effect(EffectAll(logs, runs[..|runs| - 1]), runs[|runs| - 1])
  }

  /** Each document's calls, then one delete task covering exactly the tombstoned documents if
      there are any. A failure stops that document only. */
  method RetractDocumentsGoneAtSource(entries: seq<Entry>, scene: Scene, logs: Logs)
    returns (outcomes: seq<Outcome>, runs: seq<seq<Event>>, task: Option<(seq<string>, bool)>, logs': Logs)
    ensures |outcomes| == |entries| == |runs|
    ensures forall i | 0 <= i < |entries| ::
        EndedAs(entries[i], scene, runs[i], outcomes[i], i, task.Some? && !task.value.1)
    ensures task.Some? <==> exists i :: 0 <= i < |outcomes| && PastTombstone(outcomes[i])
    ensures task.Some? ==> task.value.0 == Covered(outcomes)
    ensures logs' == EffectAll(logs, runs)
  {
    outcomes, runs, logs' := RetractEach(entries, scene, logs);
    outcomes, task := CreateDeleteTask(outcomes, scene.works(8 * |entries|));
  }

  /** The outcome of an entry's own calls; if the delete task failed, with that as the error of what
      got past its tombstone and had none. */
  ghost predicate EndedAs(e: Entry, scene: Scene, events: seq<Event>, o: Outcome, i: nat, taskFailed: bool) {
    exists own :: RanEntry(e, scene, events, own, i)
      && o.entityId == own.entityId && o.reached == own.reached
      && o.error == if taskFailed && own.reached in {Tombstoned, Deleted} && own.error == None then Some(TaskFailed)
                    else own.error
  }

  method RetractEach(entries: seq<Entry>, scene: Scene, logs: Logs)
    returns (outcomes: seq<Outcome>, runs: seq<seq<Event>>, logs': Logs)
    ensures |outcomes| == |entries| == |runs|
    ensures forall i | 0 <= i < |entries| :: RanEntry(entries[i], scene, runs[i], outcomes[i], i)
    ensures logs' == EffectAll(logs, runs)
  {
    outcomes, runs, logs' := [], [], logs;
    var i := 0;
    while i < |entries|
      invariant i <= |entries| && |outcomes| == |runs| == i
      invariant forall k | 0 <= k < i :: RanEntry(entries[k], scene, runs[k], outcomes[k], k)
      invariant logs' == EffectAll(logs, runs)
    {
      var e := entries[i];
      var o, events;
      o, events, logs' := RetractOne(e.entityId, e.meetingId, scene.pages(e.entityId), scene.time(i), scene.works,
                                     8 * i, logs');
      EffectOneMore(logs, runs, events);
      outcomes, runs := outcomes + [o], runs + [events];
      i := i + 1;
    }
  }

  lemma EffectOneMore(logs: Logs, runs: seq<seq<Event>>, events: seq<Event>)
    ensures EffectAll(logs, runs + [events]) == Effect(EffectAll(logs, runs), events)
  {
    assert (runs + [events])[..|runs + [events]| - 1] == runs;
  }

  method CreateDeleteTask(before: seq<Outcome>, works: bool)
    returns (outcomes: seq<Outcome>, task: Option<(seq<string>, bool)>)
    ensures |outcomes| == |before|
    ensures forall i | 0 <= i < |before| ::
        outcomes[i] == if task.Some? && !task.value.1 then Noted(before[i]) else before[i]
    ensures task.Some? <==> exists i :: 0 <= i < |outcomes| && PastTombstone(outcomes[i])
    ensures task.Some? ==> task.value == (Covered(outcomes), works)
  {
    outcomes, task := before, None;
    var covered := Covered(before);
    CoveredSome(before);
    if covered != [] {
      task := Some((covered, works));
      if !works {
        outcomes := NoteAll(before);
        SameCovered(before, outcomes);
        CoveredSome(outcomes);
      }
    }
  }

  ghost predicate RanEntry(e: Entry, scene: Scene, events: seq<Event>, o: Outcome, i: nat) {
    Ran(e.entityId, e.meetingId, scene.pages(e.entityId), scene.time(i), events, o) && o.error != Some(TaskFailed)
  }

  function NoteAll(outcomes: seq<Outcome>): (r: seq<Outcome>)
    ensures |r| == |outcomes| && forall i | 0 <= i < |r| :: r[i] == Noted(outcomes[i])
  {
    seq(|outcomes|, i requires 0 <= i < |outcomes| => Noted(outcomes[i]))
  }

  ghost predicate CoversAt(outcomes: seq<Outcome>, id: string, i: int) {
    0 <= i < |outcomes| && PastTombstone(outcomes[i]) && outcomes[i].entityId == id
  }

  /** The delete task covers exactly the documents that got as far as their tombstone. */
  lemma {:induction false} CoveredIff(outcomes: seq<Outcome>, id: string)
    ensures id in Covered(outcomes) <==> exists i :: CoversAt(outcomes, id, i)
  {
    if outcomes != [] {
      var n := |outcomes| - 1;
      var p := outcomes[..n];
      CoveredIff(p, id);
      if id in Covered(p) {
        var i :| CoversAt(p, id, i);
        assert CoversAt(outcomes, id, i);
      }
      if CoversAt(outcomes, id, n) { assert id in Covered(outcomes); }
      assert forall i | CoversAt(outcomes, id, i) && i < n :: CoversAt(p, id, i);
    }
  }

  lemma CoveredSome(outcomes: seq<Outcome>)
    ensures Covered(outcomes) != [] <==> exists i :: 0 <= i < |outcomes| && PastTombstone(outcomes[i])
  {
    if Covered(outcomes) != [] {
      var id := Covered(outcomes)[0];
      CoveredIff(outcomes, id);
      var i :| CoversAt(outcomes, id, i);
    }
    if i :| 0 <= i < |outcomes| && PastTombstone(outcomes[i]) {
      CoveredIff(outcomes, outcomes[i].entityId);
      assert CoversAt(outcomes, outcomes[i].entityId, i);
    }
  }

  lemma {:induction false} SameCovered(before: seq<Outcome>, after: seq<Outcome>)
    requires |before| == |after| && forall i | 0 <= i < |before| :: after[i] == Noted(before[i])
    ensures Covered(after) == Covered(before)
  {
    if before != [] {
      SameCovered(before[..|before| - 1], after[..|after| - 1]);
    }
  }

  // ----- what the order of the steps guarantees -----

  ghost predicate EmptiesAt(events: seq<Event>, i: int) { 0 <= i < |events| && events[i].step.EmptyStorage? }

  /** The deletion recorded is of this document, in the log of its source, with its supplier, the
      reason and the meeting. */
  ghost predicate TombstonedAt(events: seq<Event>, id: string, meetingId: string, time: int, j: int) {
    && 0 <= j < |events| && events[j].ok && events[j].step.RecordTombstone?
    && match ParseDocumentEntityId(id)
       case None => false
       case Some(p) =>
         && events[j].step.sourceKey == p.sourceKey
         && events[j].step.tombstone
              == Record(0, Delete, time, id, "Document", p.sourceKey, p.supplier, None, None, Some(RemovedAtSource),
                        if meetingId == "" then None else Some(meetingId))
  }

  /** The rows hidden are the document's own and its pages'. */
  ghost predicate HiddenAt(events: seq<Event>, id: string, pages: seq<string>, j: int) {
    0 <= j < |events| && events[j].ok && events[j].step.HideRows? && events[j].step.ids == [id] + pages
  }

  lemma RanSteps(p: Parsed, meetingId: string, pages: seq<string>, time: int, events: seq<Event>, o: Outcome, n: nat)
    requires RanTo(Steps(p, meetingId, pages, time), events, o, n)
    ensures |events| == (if n < 7 then n + 1 else 7)
    ensures forall i | 0 <= i < |events| :: events[i] == Event(Steps(p, meetingId, pages, time)[i], i < n)
  {
  }

  /** Storage is touched only after the tombstone was recorded, and the tombstone only after the
      rows were hidden; the outcome says which of the three were completed. */
  lemma ReachedIsWhatHappened(entityId: string, meetingId: string, pages: seq<string>, time: int, events: seq<Event>,
                              o: Outcome)
    requires Ran(entityId, meetingId, pages, time, events, o)
    ensures forall i | EmptiesAt(events, i) :: exists j :: j < i && TombstonedAt(events, entityId, meetingId, time, j)
    ensures forall j | TombstonedAt(events, entityId, meetingId, time, j) ::
        exists h :: h < j && HiddenAt(events, entityId, pages, h)
    ensures !o.reached.Nothing? <==> exists h :: HiddenAt(events, entityId, pages, h)
    ensures PastTombstone(o) <==> exists j :: TombstonedAt(events, entityId, meetingId, time, j)
    ensures o.reached.Deleted? <==>
              ParseDocumentEntityId(entityId).Some? && forall k | 0 <= k < 4 ::
                Event(EmptyStorage(StoragePrefixes(ParseDocumentEntityId(entityId).value)[k]), true) in events
  {
    var parsed := ParseDocumentEntityId(entityId);
    if parsed.Some? {
      var p := parsed.value;
      var n :| RanTo(Steps(p, meetingId, pages, time), events, o, n);
      RanSteps(p, meetingId, pages, time, events, o, n);
      StepsAre(p, meetingId, pages, time);
      if n >= 2 { assert HiddenAt(events, entityId, pages, 1); }
      if n >= 3 { assert TombstonedAt(events, entityId, meetingId, time, 2); }
      if n == 7 {
        forall k | 0 <= k < 4
          ensures Event(EmptyStorage(StoragePrefixes(p)[k]), true) in events
        {
          assert events[3 + k].ok;
        }
      } else {
        LastNotEmptied(p, meetingId, pages, time, events, n);
      }
    }
  }

  lemma LastNotEmptied(p: Parsed, meetingId: string, pages: seq<string>, time: int, events: seq<Event>, n: nat)
    requires n < 7 && |events| == n + 1
    requires forall i | 0 <= i < |events| :: events[i] == Event(Steps(p, meetingId, pages, time)[i], i < n)
    ensures Event(EmptyStorage(StoragePrefixes(p)[3]), true) !in events
  {
    StepsAre(p, meetingId, pages, time);
    var last := Event(EmptyStorage(StoragePrefixes(p)[3]), true);
    var q := StoragePrefixes(p);
    assert q[2][11] == '4' && q[3][11] == '2' && q[3][0] == 'p' && q[0][0] == 'd' && q[1][0] == 'd';
    assert forall k | 0 <= k < 3 :: q[k] != q[3];
  }

  // ----- what it does to the log, and undoing it -----

  predicate LiveIn(logs: Logs, sourceKey: string, id: string) {
    id in LogOf(logs, sourceKey).state && LogOf(logs, sourceKey).state[id].op.Upsert?
  }

  ghost predicate OnlyDeletes(events: seq<Event>) {
    forall i | 0 <= i < |events| && events[i].step.RecordTombstone? :: events[i].step.tombstone.op.Delete?
  }

  ghost predicate TombstoneEvent(e: Event, sourceKey: string, id: string) {
    e.ok && e.step.RecordTombstone? && e.step.sourceKey == sourceKey && e.step.tombstone.entityId == id
  }

  /** Calls that only record tombstones leave live exactly what was live and not tombstoned. */
  lemma {:induction false} EffectOnLive(logs: Logs, events: seq<Event>, sourceKey: string, id: string)
    requires OnlyDeletes(events)
    ensures LiveIn(Effect(logs, events), sourceKey, id) <==>
              && LiveIn(logs, sourceKey, id)
              && !exists i :: 0 <= i < |events| && TombstoneEvent(events[i], sourceKey, id)
  {
    if events != [] {
      var p, last := events[..|events| - 1], events[|events| - 1];
      assert forall i | 0 <= i < |p| :: p[i] == events[i];
      EffectOnLive(logs, p, sourceKey, id);
    }
  }

  lemma RanOnlyDeletes(e: Entry, scene: Scene, events: seq<Event>, o: Outcome, i: nat)
    requires RanEntry(e, scene, events, o, i)
    ensures OnlyDeletes(events)
    ensures forall k, sourceKey, id | 0 <= k < |events| && TombstoneEvent(events[k], sourceKey, id) ::
              id == e.entityId && PastTombstone(o) && Home(e.entityId) == Some(sourceKey)
    ensures PastTombstone(o) ==>
              && Home(e.entityId).Some?
              && exists k :: 0 <= k < |events| && TombstoneEvent(events[k], Home(e.entityId).value, e.entityId)
  {
    var parsed := ParseDocumentEntityId(e.entityId);
    if parsed.Some? {
      var p, pages, time := parsed.value, scene.pages(e.entityId), scene.time(i);
      var n :| RanTo(Steps(p, e.meetingId, pages, time), events, o, n);
      RanSteps(p, e.meetingId, pages, time, events, o, n);
      StepsAre(p, e.meetingId, pages, time);
      if n >= 3 { assert TombstoneEvent(events[2], p.sourceKey, e.entityId); }
    }
  }

  /** The source a document id names. */
  function Home(entityId: string): Option<string> {
    match ParseDocumentEntityId(entityId)
    case Some(p) => Some(p.sourceKey)
    case None => None
  }

  ghost predicate RetractedAt(entries: seq<Entry>, outcomes: seq<Outcome>, sourceKey: string, id: string, i: int)
    requires |entries| == |outcomes|
  {
    0 <= i < |entries| && entries[i].entityId == id && Home(id) == Some(sourceKey) && PastTombstone(outcomes[i])
  }

  ghost predicate EverRetracted(entries: seq<Entry>, outcomes: seq<Outcome>, sourceKey: string, id: string)
    requires |entries| == |outcomes|
  {
    exists i :: RetractedAt(entries, outcomes, sourceKey, id, i)
  }

  lemma RetractedStep(entries: seq<Entry>, outcomes: seq<Outcome>, sourceKey: string, id: string)
    requires |entries| == |outcomes| && entries != []
    ensures var n := |entries| - 1;
      EverRetracted(entries, outcomes, sourceKey, id)
      <==> EverRetracted(entries[..n], outcomes[..n], sourceKey, id) || RetractedAt(entries, outcomes, sourceKey, id, n)
  {
    var n := |entries| - 1;
    var es, os := entries[..n], outcomes[..n];
    if EverRetracted(es, os, sourceKey, id) {
      var i :| RetractedAt(es, os, sourceKey, id, i);
      assert RetractedAt(entries, outcomes, sourceKey, id, i);
    }
    if EverRetracted(entries, outcomes, sourceKey, id) {
      var i :| RetractedAt(entries, outcomes, sourceKey, id, i);
      if i < n { assert RetractedAt(es, os, sourceKey, id, i); }
    }
  }

  lemma RunOnLive(e: Entry, scene: Scene, events: seq<Event>, o: Outcome, i: nat, logs: Logs, sourceKey: string,
                  id: string)
    requires RanEntry(e, scene, events, o, i)
    ensures LiveIn(Effect(logs, events), sourceKey, id) <==>
              LiveIn(logs, sourceKey, id) && !(e.entityId == id && Home(id) == Some(sourceKey) && PastTombstone(o))
  {
    RanOnlyDeletes(e, scene, events, o, i);
    EffectOnLive(logs, events, sourceKey, id);
  }

  /** After the call an entity is live exactly when it was before and no entry naming it got as far
      as its tombstone: nothing else is taken down, and nothing reported as taken down is still live. */
  lemma {:induction false} ExactlyTheTombstonedAreGone(entries: seq<Entry>, scene: Scene, runs: seq<seq<Event>>,
                                                       outcomes: seq<Outcome>, logs: Logs,
                                                       sourceKey: string, id: string)
    requires |entries| == |runs| == |outcomes|
    requires forall i | 0 <= i < |entries| :: RanEntry(entries[i], scene, runs[i], outcomes[i], i)
    ensures LiveIn(EffectAll(logs, runs), sourceKey, id) <==>
              LiveIn(logs, sourceKey, id) && !EverRetracted(entries, outcomes, sourceKey, id)
    decreases |entries|
  {
    if entries != [] {
      var n := |entries| - 1;
      ExactlyTheTombstonedAreGone(entries[..n], scene, runs[..n], outcomes[..n], logs, sourceKey, id);
      RetractedStep(entries, outcomes, sourceKey, id);
      RunOnLive(entries[n], scene, runs[n], outcomes[n], n, EffectAll(logs, runs[..n]), sourceKey, id);
    }
  }

  /** Retraction is reversible: whatever is written about other entities in between, committing the
      content that was live before the tombstone appends a record, and then the same entities are
      live, the others with the same records up to numbering, as if nothing had been retracted. */
  lemma RecommitBringsBack(log: SourceLog, t: Record, between: seq<Record>, r: Record)
    requires t.op.Delete? && r.op.Upsert? && r.entityId == t.entityId && Elsewhere(between, t.entityId)
    requires r.entityId in log.state && log.state[r.entityId].op.Upsert?
        && log.state[r.entityId].contentHash == r.contentHash
    ensures var never := AppendAll(log, between); r.contentHash.Some? ==> Append(never, r) == never
    ensures var never := AppendAll(log, between); var gone := AppendAll(Append(log, t), between);
      var back := Append(gone, r);
      && r.entityId !in Live(gone.state)
      && back.nextSeq == gone.nextSeq + 1 && r.entityId in back.state && back.state[r.entityId] == Numbered(gone, r)
      && SameBut(back.state, never.state, r.entityId) && Live(back.state).Keys == Live(never.state).Keys
  {
    var id := r.entityId;
    var dead := Append(log, t);
    assert dead.state == log.state[id := Numbered(log, t)];
    AppendAllElsewhere(dead, log, between, id);
    AppendAllElsewhere(log, dead, between, id);
    var gone, never := AppendAll(dead, between), AppendAll(log, between);
    BackAgain(gone, never, r);
  }

  lemma BackAgain(gone: SourceLog, never: SourceLog, r: Record)
    requires r.op.Upsert? && r.entityId in gone.state && gone.state[r.entityId].op.Delete?
    requires SameBut(gone.state, never.state, r.entityId) && r.entityId in never.state
        && never.state[r.entityId].op.Upsert?
    ensures var back := Append(gone, r);
      && back.nextSeq == gone.nextSeq + 1 && back.state == gone.state[r.entityId := Numbered(gone, r)]
      && SameBut(back.state, never.state, r.entityId) && Live(back.state).Keys == Live(never.state).Keys
  {
    var back := Append(gone, r);
    assert back.state == gone.state[r.entityId := Numbered(gone, r)];
    forall x ensures x in Live(back.state) <==> x in Live(never.state) {
      if x != r.entityId && x in gone.state {
        assert gone.state[x].(seqNo := 0).op == gone.state[x].op && never.state[x].(seqNo := 0).op == never.state[x].op;
      }
    }
  }
}
