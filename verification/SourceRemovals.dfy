/** Noticing documents a source took off a meeting, within one run: SourceRemovalTracker and
    confirmRemovalsAtSource (src/pipeline/source_removals.ts), over the export log. */
module SourceRemovals {
  import opened Basics
  import opened EntityCommit
  import opened JsonText
  import opened ExportRecords
  import opened ExportLog

  const REFERENCING_PREFIXES: seq<string> := ["meeting:", "motion:"]

  /** What a run saw of one meeting: the documents its last live record listed (none if there was
      no such record) and the documents it lists now. */
  datatype Sighting = Sighting(meetingId: string, before: seq<string>, after: seq<string>)

  datatype Suspect = Suspect(entityId: string, meetingId: string, firstSeenAt: int)

  /** `firstSeenAt` is set for a second sighting. */
  datatype Candidate = Candidate(entityId: string, meetingId: string, firstSeenAt: Option<int>)

  datatype Plan = Plan(remove: seq<Candidate>, clearSuspects: seq<string>, control: Option<string>,
                       capExceeded: Option<nat>, skipped: seq<string>)

  /** The tracker's fields as values. */
  datatype Observations = Observations(
    candidates: map<string, string>, emitted: set<string>, observed: map<string, seq<string>>,
    skipped: seq<string>, control: Option<string>)

  // ----- comparing a meeting with itself -----

  predicate IsDocument(id: string) { "document:" <= id }

  function Dropped(before: seq<string>, after: seq<string>): (d: seq<string>)
    ensures forall id :: id in d <==> id in before && id !in after
    ensures |d| <= |before|
    ensures |d| == |before| <==> forall id | id in before :: id !in after
  {
    if before == [] then []
    else
      var rest := Dropped(before[1..], after);
      if before[0] in after then rest else [before[0]] + rest
  }

  function FirstKept(before: seq<string>, after: seq<string>): (k: Option<string>)
    ensures k.Some? ==> k.value in before && k.value in after
    ensures k.None? ==> forall id | id in before :: id !in after
  {
    if before == [] then None
    else if before[0] in after then Some(before[0])
    else FirstKept(before[1..], after)
  }

  /** `id` is the first of the list that is in the other. */
  ghost predicate FirstOf(list: seq<string>, other: seq<string>, id: string) {
    exists i :: 0 <= i < |list| && list[i] == id && id in other && forall j | 0 <= j < i :: list[j] !in other
  }

  lemma {:induction false} FirstKeptIs(before: seq<string>, after: seq<string>)
    requires FirstKept(before, after).Some?
    ensures FirstOf(before, after, FirstKept(before, after).value)
  {
    if before[0] in after {
      assert before[0] in after;
    } else {
      FirstKeptIs(before[1..], after);
      var id := FirstKept(before, after).value;
      var i :| 0 <= i < |before[1..]| && before[1..][i] == id && id in after
               && forall j | 0 <= j < i :: before[1..][j] !in after;
      assert before[i + 1] == id;
      assert forall j | 0 < j < i + 1 :: before[j] == before[1..][j - 1];
    }
  }

  function FirstDocument(list: seq<string>): (d: Option<string>)
    ensures d.Some? ==> d.value in list && IsDocument(d.value)
    ensures d.None? ==> forall id | id in list :: !IsDocument(id)
  {
    if list == [] then None
    else if IsDocument(list[0]) then Some(list[0])
    else FirstDocument(list[1..])
  }

  /** The meeting dropped something and kept something. */
  predicate DropsSome(s: Sighting) {
    (exists id :: id in s.before && id !in s.after) && (exists id :: id in s.before && id in s.after)
  }

  predicate DropsAll(s: Sighting) {
    s.before != [] && forall id | id in s.before :: id !in s.after
  }

  /** The meeting dropped this document and kept another. */
  predicate Drops(s: Sighting, id: string) {
    id in s.before && id !in s.after && exists k :: k in s.before && k in s.after
  }

  // ----- what the tracker has to remember of a run -----

  ghost predicate LastDrop(trace: seq<Sighting>, i: int, id: string) {
    0 <= i < |trace| && Drops(trace[i], id) && forall j | i < j < |trace| :: !Drops(trace[j], id)
  }

  ghost predicate LastSight(trace: seq<Sighting>, i: int, meetingId: string) {
    0 <= i < |trace| && trace[i].meetingId == meetingId && forall j | i < j < |trace| :: trace[j].meetingId != meetingId
  }

  ghost predicate EverDropped(trace: seq<Sighting>, id: string) {
    exists i :: 0 <= i < |trace| && Drops(trace[i], id)
  }

  ghost predicate EverSeen(trace: seq<Sighting>, meetingId: string) {
    exists i :: 0 <= i < |trace| && trace[i].meetingId == meetingId
  }

  /** The first meeting that dropped a part still listed this document. */
  ghost predicate FirstControl(trace: seq<Sighting>, control: Option<string>) {
    match control
    case None => forall i | 0 <= i < |trace| :: !DropsSome(trace[i])
    case Some(c) =>
      exists i ::
        && 0 <= i < |trace| && DropsSome(trace[i]) && Some(c) == FirstKept(trace[i].before, trace[i].after)
        && forall j | 0 <= j < i :: !DropsSome(trace[j])
  }

  function SkippedIn(trace: seq<Sighting>): seq<string> {
    if trace == [] then []
    else
      var last := trace[|trace| - 1];
      SkippedIn(trace[..|trace| - 1]) + if DropsAll(last) then [last.meetingId] else []
  }

  ghost predicate CandidatesAre(candidates: map<string, string>, trace: seq<Sighting>) {
    && (forall id :: id in candidates <==> IsDocument(id) && EverDropped(trace, id))
    && (forall i, id | LastDrop(trace, i, id) && id in candidates :: candidates[id] == trace[i].meetingId)
  }

  ghost predicate ObservedAre(observed: map<string, seq<string>>, trace: seq<Sighting>) {
    && (forall m :: m in observed <==> EverSeen(trace, m))
    && (forall i, m | LastSight(trace, i, m) && m in observed :: observed[m] == trace[i].after)
  }

  /** Candidates are the documents some meeting dropped while keeping another, under the last such
      meeting; a meeting is observed with the list it came back with last. */
  ghost predicate Remembers(obs: Observations, trace: seq<Sighting>) {
    && CandidatesAre(obs.candidates, trace)
    && ObservedAre(obs.observed, trace)
    && FirstControl(trace, obs.control)
    && obs.skipped == SkippedIn(trace)
  }

  /** The candidates with these documents dropped by this meeting. */
  function WithDropped(candidates: map<string, string>, dropped: seq<string>, meetingId: string): map<string, string> {
    map id | id in candidates.Keys + (set x | x in dropped) && (id in candidates || IsDocument(id)) ::
      if id in dropped && IsDocument(id) then meetingId else candidates[id]
  }

  /** The observations after one more meeting. */
  function Saw(obs: Observations, s: Sighting): Observations {
    Observations(CandidatesAfter(obs.candidates, s), obs.emitted, obs.observed[s.meetingId := s.after],
                 obs.skipped + (if DropsAll(s) then [s.meetingId] else []),
                 if DropsSome(s) && obs.control.None? then FirstKept(s.before, s.after) else obs.control)
  }

  lemma SawRemembers(obs: Observations, trace: seq<Sighting>, s: Sighting)
    requires Remembers(obs, trace)
    ensures Remembers(Saw(obs, s), trace + [s])
  {
    CandidatesOneMore(obs.candidates, trace, s);
    ObservedOneMore(obs.observed, trace, s);
    ControlOneMore(obs.control, trace, s);
    assert (trace + [s])[..|trace + [s]| - 1] == trace;
  }

  /** A meeting with no document listed before drops nothing. */
  lemma NothingBefore(obs: Observations, s: Sighting)
    requires s.before == []
    ensures Saw(obs, s) == obs.(observed := obs.observed[s.meetingId := s.after])
  {
  }

  /** The candidates after one more meeting. */
  function CandidatesAfter(candidates: map<string, string>, s: Sighting): map<string, string> {
    if DropsSome(s) then WithDropped(candidates, Dropped(s.before, s.after), s.meetingId) else candidates
  }

  lemma CandidatesOneMore(candidates: map<string, string>, trace: seq<Sighting>, s: Sighting)
    requires CandidatesAre(candidates, trace)
    ensures CandidatesAre(CandidatesAfter(candidates, s), trace + [s])
  {
    var t, c := trace + [s], CandidatesAfter(candidates, s);
    forall id ensures EverDropped(t, id) <==> EverDropped(trace, id) || Drops(s, id) {
      DroppedOneMore(trace, s, id);
    }
    assert forall id :: Drops(s, id) <==> DropsSome(s) && id in Dropped(s.before, s.after);
    forall i, id | LastDrop(t, i, id) && id in c ensures c[id] == t[i].meetingId {
      if i < |trace| { KeptDrop(trace, s, i, id); }
    }
  }

  lemma DroppedOneMore(trace: seq<Sighting>, s: Sighting, id: string)
    ensures EverDropped(trace + [s], id) <==> EverDropped(trace, id) || Drops(s, id)
  {
    var t := trace + [s];
    if EverDropped(trace, id) { var i :| 0 <= i < |trace| && Drops(trace[i], id); assert t[i] == trace[i]; }
    if Drops(s, id) { assert t[|trace|] == s; }
  }

  lemma ObservedOneMore(observed: map<string, seq<string>>, trace: seq<Sighting>, s: Sighting)
    requires ObservedAre(observed, trace)
    ensures ObservedAre(observed[s.meetingId := s.after], trace + [s])
  {
    var t, o := trace + [s], observed[s.meetingId := s.after];
    SeenOneMore(trace, s);
    forall i, m | LastSight(t, i, m) && m in o ensures o[m] == t[i].after {
      if i < |trace| { assert t[|trace|] == s; KeptSight(trace, s, i, m); }
    }
  }

  lemma KeptDrop(trace: seq<Sighting>, s: Sighting, i: nat, id: string)
    requires i < |trace| && LastDrop(trace + [s], i, id)
    ensures LastDrop(trace, i, id) && !Drops(s, id)
  {
    var t := trace + [s];
    assert t[|trace|] == s;
    assert forall j | 0 <= j < |trace| :: trace[j] == t[j];
  }

  lemma KeptSight(trace: seq<Sighting>, s: Sighting, i: nat, m: string)
    requires i < |trace| && LastSight(trace + [s], i, m)
    ensures LastSight(trace, i, m)
  {
    var t := trace + [s];
    assert forall j | 0 <= j < |trace| :: trace[j] == t[j];
  }

  lemma SeenOneMore(trace: seq<Sighting>, s: Sighting)
    ensures forall m :: EverSeen(trace + [s], m) <==> EverSeen(trace, m) || m == s.meetingId
  {
    var t := trace + [s];
    forall m ensures EverSeen(t, m) <==> EverSeen(trace, m) || m == s.meetingId {
      if EverSeen(trace, m) { var i :| 0 <= i < |trace| && trace[i].meetingId == m; assert t[i] == trace[i]; }
      if m == s.meetingId { assert t[|trace|] == s; }
    }
  }

  lemma ControlOneMore(control: Option<string>, trace: seq<Sighting>, s: Sighting)
    requires FirstControl(trace, control)
    ensures FirstControl(trace + [s], if DropsSome(s) && control.None? then FirstKept(s.before, s.after) else control)
  {
    var t := trace + [s];
    assert forall i | 0 <= i < |trace| :: t[i] == trace[i];
    assert t[|trace|] == s;
    if control.Some? {
      var i :| 0 <= i < |trace| && DropsSome(trace[i]) && control == FirstKept(trace[i].before, trace[i].after)
               && forall j | 0 <= j < i :: !DropsSome(trace[j]);
      assert DropsSome(t[i]) && control == FirstKept(t[i].before, t[i].after);
    }
  }

  // ----- what a plan has to be -----

  /** What planning looks at: the run's observations, the live table, the clock and the minimum age. */
  datatype Look = Look(obs: Observations, state: State, now: int, minAge: real)

  predicate StillThere(v: Look, id: string) {
    id !in v.obs.emitted && id in v.state && v.state[id].op.Upsert?
  }

  predicate Observed(v: Look, s: Suspect) { s.meetingId in v.obs.observed }

  predicate ListedBack(v: Look, s: Suspect)
    requires Observed(v, s)
  {
    s.entityId in v.obs.observed[s.meetingId]
  }

  /** A suspect this run sees for the second time, late enough. */
  predicate Ripe(v: Look, s: Suspect) {
    && Observed(v, s) && !ListedBack(v, s) && StillThere(v, s.entityId)
    && (v.now - s.firstSeenAt) as real >= v.minAge
  }

  predicate BackOrGone(v: Look, s: Suspect) {
    Observed(v, s) && (ListedBack(v, s) || !StillThere(v, s.entityId))
  }

  predicate SecondSighting(v: Look, suspects: seq<Suspect>, id: string) {
    exists k :: 0 <= k < |suspects| && suspects[k].entityId == id && Ripe(v, suspects[k])
  }

  predicate ShownOver(v: Look, suspects: seq<Suspect>, id: string) {
    exists k :: 0 <= k < |suspects| && suspects[k].entityId == id && BackOrGone(v, suspects[k])
  }

  predicate Listed(state: State, id: string) {
    MentionedIn(state, LiveUnderAny(state, REFERENCING_PREFIXES), id)
  }

  /** The documents to ask the supplier about: dropped this run or suspected before, still live, not
      emitted again, and mentioned by no live meeting or motion. */
  function Wanted(v: Look, suspects: seq<Suspect>): set<string> {
    set id | id in v.state && StillThere(v, id) && !Listed(v.state, id)
             && (id in v.obs.candidates || SecondSighting(v, suspects, id))
  }

  ghost predicate RipeAs(v: Look, suspects: seq<Suspect>, s: Suspect) {
    s in suspects && Ripe(v, s)
  }

  /** The meeting and first sighting an entry carries come from a ripe suspect if there is one, from
      this run's own observation otherwise. */
  ghost predicate EntryIs(v: Look, suspects: seq<Suspect>, e: Candidate) {
    match e.firstSeenAt
    case Some(t) => RipeAs(v, suspects, Suspect(e.entityId, e.meetingId, t))
    case None => e.entityId in v.obs.candidates && v.obs.candidates[e.entityId] == e.meetingId
                 && !SecondSighting(v, suspects, e.entityId)
  }

  predicate Distinct(entries: seq<Candidate>) {
    forall i, j | 0 <= i < j < |entries| :: entries[i].entityId != entries[j].entityId
  }

  predicate Names(entries: seq<Candidate>, id: string) {
    exists k :: 0 <= k < |entries| && entries[k].entityId == id
  }

  ghost predicate RemovesWanted(v: Look, suspects: seq<Suspect>, remove: seq<Candidate>) {
    && Distinct(remove)
    && (forall id :: id in Wanted(v, suspects) <==> Names(remove, id))
    && (forall k | 0 <= k < |remove| :: EntryIs(v, suspects, remove[k]))
  }

  /** The document asked first: one a partly emptied meeting kept, else one still listed by the
      meeting of the first ripe suspect whose meeting lists any. */
  function Control(v: Look, suspects: seq<Suspect>): Option<string> {
    if suspects == [] then v.obs.control
    else
      var last := suspects[|suspects| - 1];
      var earlier := Control(v, suspects[..|suspects| - 1]);
      if earlier.None? && Ripe(v, last) then FirstDocument(v.obs.observed[last.meetingId]) else earlier
  }

  /** Suspects to forget: back on their meeting, emitted again or no longer live; or seen again but
      mentioned elsewhere. */
  predicate Forgotten(v: Look, suspects: seq<Suspect>, id: string) {
    ShownOver(v, suspects, id) || (SecondSighting(v, suspects, id) && Listed(v.state, id))
  }

  ghost predicate IsPlan(plan: Plan, v: Look, suspects: seq<Suspect>, maxPerRun: real) {
    && (forall id :: id in plan.clearSuspects <==> Forgotten(v, suspects, id))
    && plan.skipped == v.obs.skipped
    && if |Wanted(v, suspects)| as real > maxPerRun then
         plan.remove == [] && plan.control == None && plan.capExceeded == Some(|Wanted(v, suspects)|)
       else
         RemovesWanted(v, suspects, plan.remove) && plan.control == Control(v, suspects) && plan.capExceeded == None
  }

  function LiveRecord(state: State, id: string): Option<Record> {
    if id in state && state[id].op.Upsert? then Some(state[id]) else None
  }

  function Before(state: State, meetingId: string): seq<string> {
    match LiveRecord(state, meetingId)
    case Some(r) => AttachmentIds(r.payload)
    case None => []
  }

  // ----- the tracker -----

  class SourceRemovalTracker {
    const log: ExportChangesLog
    var candidates: map<string, string>
    /** The keys of `candidates` in the order they were first added. */
    var order: seq<string>
    var emitted: set<string>
    var observed: map<string, seq<string>>
    var skippedMeetings: seq<string>
    var control: Option<string>
    ghost var trace: seq<Sighting>

    function View(): Observations
      reads this
    {
      Observations(candidates, emitted, observed, skippedMeetings, control)
    }

    ghost predicate Valid()
      reads this
    {
      Remembers(View(), trace) && ListsKeys(order, candidates)
    }

    constructor (log: ExportChangesLog)
      ensures Valid() && this.log == log && trace == [] && emitted == {}
    {
      this.log := log;
      candidates, order, emitted, observed, skippedMeetings, control := map[], [], {}, map[], [], None;
      trace := [];
    }

    method ObserveEmitted(entityId: string)
      requires Valid()
      modifies this`emitted
      ensures Valid() && emitted == old(emitted) + {entityId}
    {
      emitted := emitted + {entityId};
    }

    method ObserveMeeting(meetingId: string, attachment: seq<string>)
      requires Valid()
      modifies this
      ensures Valid() && emitted == old(emitted)
      ensures var s := Sighting(meetingId, Before(log.state, meetingId), attachment);
        trace == old(trace) + [s] && View() == Saw(old(View()), s)
    {
      ghost var s := Sighting(meetingId, Before(log.state, meetingId), attachment);
      ghost var was, seen := View(), trace;
      SeeMeeting(meetingId, attachment);
      trace := trace + [s];
      StillRemembers(was, seen, s);
    }

    lemma StillRemembers(was: Observations, seen: seq<Sighting>, s: Sighting)
      requires Remembers(was, seen) && View() == Saw(was, s) && trace == seen + [s]
      ensures Remembers(View(), trace)
    {
      SawRemembers(was, seen, s);
    }

    method SeeMeeting(meetingId: string, attachment: seq<string>)
      requires ListsKeys(order, candidates)
      modifies this
      ensures ListsKeys(order, candidates) && trace == old(trace)
      ensures View() == Saw(old(View()), Sighting(meetingId, Before(log.state, meetingId), attachment))
    {
      ghost var was := View();
      observed := observed[meetingId := attachment];
      var before := LastListed(meetingId);
      if before == [] {
        NothingBefore(was, Sighting(meetingId, before, attachment));
      } else {
        candidates, order, skippedMeetings, control :=
          Compare(candidates, order, skippedMeetings, control, meetingId, before, attachment);
      }
    }

    /** The documents the last record of the meeting lists, if it is a live one. */
    method LastListed(meetingId: string) returns (before: seq<string>)
      ensures before == Before(log.state, meetingId)
    {
      var previous := log.GetEntityRecord(meetingId);
      if previous.Some? && previous.value.op.Upsert? {
        return AttachmentIds(previous.value.payload);
      }
      return [];
    }

    /** What to ask the supplier about, given the suspects earlier runs recorded. */
    method MakePlan(maxPerRun: real, suspects: seq<Suspect>, now: int, minAge: real) returns (plan: Plan)
      requires Valid()
      ensures IsPlan(plan, Look(View(), log.state, now, minAge), suspects, maxPerRun)
    {
      var v := Look(View(), log.state, now, minAge);
      var g := Gather(v, order, suspects);
      var pending := PendingOf(v, g.keys);
      var referenced := {};
      if pending != [] {
        referenced := log.FindReferencedEntityIds(pending, REFERENCING_PREFIXES);
      }
      var cleared := g.cleared + SeenAndListed(pending, referenced, g.firstSeen);
      var remove := EntriesOf(pending, referenced, g);
      EntriesAreWanted(v, suspects, g, pending, referenced);
      ClearedAreForgotten(v, suspects, g, pending, referenced);
      if |remove| as real > maxPerRun {
        plan := Plan([], cleared, None, Some(|remove|), skippedMeetings);
      } else {
        plan := Plan(remove, cleared, g.control, None, skippedMeetings);
      }
    }
  }

  lemma Kinds(s: Sighting)
    ensures var d := Dropped(s.before, s.after);
      && (DropsAll(s) <==> d != [] && |d| == |s.before|)
      && (DropsSome(s) <==> d != [] && |d| != |s.before|)
  {
    var d := Dropped(s.before, s.after);
    if d != [] { assert d[0] in d; }
    if s.before != [] { assert s.before[0] in s.before; }
    if DropsSome(s) {
      var id :| id in s.before && id !in s.after;
      assert id in d;
    }
  }

  /** The comparison of a meeting's last list with its new one. */
  method Compare(candidates: map<string, string>, order: seq<string>, skipped: seq<string>, control: Option<string>,
                 meetingId: string, before: seq<string>, after: seq<string>)
    returns (candidates': map<string, string>, order': seq<string>, skipped': seq<string>, control': Option<string>)
    requires ListsKeys(order, candidates)
    ensures var s := Sighting(meetingId, before, after);
      && candidates' == CandidatesAfter(candidates, s) && ListsKeys(order', candidates')
      && skipped' == skipped + (if DropsAll(s) then [meetingId] else [])
      && control' == if DropsSome(s) && control.None? then FirstKept(before, after) else control
  {
    candidates', order', skipped', control' := candidates, order, skipped, control;
    var dropped := Dropped(before, after);
    Kinds(Sighting(meetingId, before, after));
    if dropped != [] {
      if |dropped| == |before| {
        skipped' := skipped + [meetingId];
        return;
      }
      if control.None? {
        control' := FirstKept(before, after);
      }
      candidates', order' := AddDropped(candidates, order, dropped, meetingId);
    }
  }

  // ----- the loops of plan -----

  ghost predicate ListsKeys(keys: seq<string>, m: map<string, string>) {
    && (forall i, j | 0 <= i < j < |keys| :: keys[i] != keys[j])
    && (forall id :: id in keys <==> id in m)
  }

  /** Map.set: a new key goes last, an old one keeps its place. */
  function WithKey(keys: seq<string>, m: map<string, string>, id: string): seq<string> {
    if id in m then keys else keys + [id]
  }

  method AddDropped(candidates: map<string, string>, order: seq<string>, dropped: seq<string>, meetingId: string)
    returns (candidates': map<string, string>, order': seq<string>)
    requires ListsKeys(order, candidates)
    ensures candidates' == WithDropped(candidates, dropped, meetingId) && ListsKeys(order', candidates')
  {
    candidates', order' := candidates, order;
    var i := 0;
    while i < |dropped|
      invariant i <= |dropped|
      invariant candidates' == WithDropped(candidates, dropped[..i], meetingId)
      invariant ListsKeys(order', candidates')
    {
      DropOneMore(candidates, dropped, i, meetingId);
      KeyListed(order', candidates', dropped[i], meetingId);
      if IsDocument(dropped[i]) {
        order' := WithKey(order', candidates', dropped[i]);
        candidates' := candidates'[dropped[i] := meetingId];
      }
      i := i + 1;
    }
    assert dropped[..i] == dropped;
  }

  lemma DropOneMore(candidates: map<string, string>, dropped: seq<string>, i: nat, meetingId: string)
    requires i < |dropped|
    ensures WithDropped(candidates, dropped[..i + 1], meetingId)
              == if IsDocument(dropped[i])
                 then WithDropped(candidates, dropped[..i], meetingId)[dropped[i] := meetingId]
                 else WithDropped(candidates, dropped[..i], meetingId)
  {
    var a, b := dropped[..i], dropped[..i + 1];
    assert b == a + [dropped[i]];
    assert forall id :: id in b <==> id in a || id == dropped[i];
  }

  lemma KeyListed(keys: seq<string>, m: map<string, string>, id: string, to: string)
    requires ListsKeys(keys, m)
    ensures ListsKeys(WithKey(keys, m, id), m[id := to])
  {
  }

  datatype Gathered = Gathered(firstSeen: map<string, int>, meetingOf: map<string, string>, keys: seq<string>,
                               cleared: seq<string>, control: Option<string>)

  ghost predicate Gathers(v: Look, suspects: seq<Suspect>, g: Gathered) {
    && ListsKeys(g.keys, g.meetingOf)
    && (forall id :: id in g.firstSeen <==> SecondSighting(v, suspects, id))
    && (forall id :: id in g.meetingOf <==> id in v.obs.candidates || id in g.firstSeen)
    && (forall id | id in g.firstSeen :: RipeAs(v, suspects, Suspect(id, g.meetingOf[id], g.firstSeen[id])))
    && (forall id | id in g.meetingOf && id !in g.firstSeen :: g.meetingOf[id] == v.obs.candidates[id])
    && (forall id :: id in g.cleared <==> ShownOver(v, suspects, id))
    && g.control == Control(v, suspects)
  }

  /** One suspect's turn in the loop. */
  function GatherOne(v: Look, g: Gathered, s: Suspect): Gathered {
    if !Observed(v, s) then g
    else if BackOrGone(v, s) then g.(cleared := g.cleared + [s.entityId])
    else if (v.now - s.firstSeenAt) as real < v.minAge then g
    else Gathered(g.firstSeen[s.entityId := s.firstSeenAt], g.meetingOf[s.entityId := s.meetingId],
                  WithKey(g.keys, g.meetingOf, s.entityId), g.cleared,
                  if g.control.None? then FirstDocument(v.obs.observed[s.meetingId]) else g.control)
  }

  method Gather(v: Look, order: seq<string>, suspects: seq<Suspect>) returns (g: Gathered)
    requires ListsKeys(order, v.obs.candidates)
    ensures Gathers(v, suspects, g)
  {
    g := Gathered(map[], v.obs.candidates, order, [], v.obs.control);
    var i := 0;
    while i < |suspects|
      invariant i <= |suspects| && Gathers(v, suspects[..i], g)
    {
      GatherStep(v, suspects[..i], g, suspects[i]);
      assert suspects[..i] + [suspects[i]] == suspects[..i + 1];
      g := GatherOne(v, g, suspects[i]);
      i := i + 1;
    }
    assert suspects[..i] == suspects;
  }

  lemma GatherStep(v: Look, suspects: seq<Suspect>, g: Gathered, s: Suspect)
    requires Gathers(v, suspects, g)
    ensures Gathers(v, suspects + [s], GatherOne(v, g, s))
  {
    var t := suspects + [s];
    assert t[..|t| - 1] == suspects;
    SuspectsGrow(v, suspects, s);
    if Ripe(v, s) { GatherRipe(v, suspects, g, s); }
  }

  lemma GatherRipe(v: Look, suspects: seq<Suspect>, g: Gathered, s: Suspect)
    requires Gathers(v, suspects, g) && Ripe(v, s)
    ensures Gathers(v, suspects + [s], GatherOne(v, g, s))
  {
    var t := suspects + [s];
    assert t[..|t| - 1] == suspects;
    SuspectsGrow(v, suspects, s);
    KeyListed(g.keys, g.meetingOf, s.entityId, s.meetingId);
    assert RipeAs(v, t, s);
  }

  lemma SuspectsGrow(v: Look, suspects: seq<Suspect>, s: Suspect)
    ensures forall id ::
        SecondSighting(v, suspects + [s], id) <==> SecondSighting(v, suspects, id) || (id == s.entityId && Ripe(v, s))
    ensures forall id ::
        ShownOver(v, suspects + [s], id) <==> ShownOver(v, suspects, id) || (id == s.entityId && BackOrGone(v, s))
    ensures forall x | RipeAs(v, suspects, x) :: RipeAs(v, suspects + [s], x)
  {
    var t := suspects + [s];
    assert forall i | 0 <= i < |suspects| :: t[i] == suspects[i];
    assert t[|suspects|] == s;
    forall id
      ensures SecondSighting(v, t, id) <==> SecondSighting(v, suspects, id) || (id == s.entityId && Ripe(v, s))
    {
      if SecondSighting(v, suspects, id) {
        var k :| 0 <= k < |suspects| && suspects[k].entityId == id && Ripe(v, suspects[k]);
        assert t[k] == suspects[k];
      }
    }
    forall id ensures ShownOver(v, t, id) <==> ShownOver(v, suspects, id) || (id == s.entityId && BackOrGone(v, s)) {
      if ShownOver(v, suspects, id) {
        var k :| 0 <= k < |suspects| && suspects[k].entityId == id && BackOrGone(v, suspects[k]);
        assert t[k] == suspects[k];
      }
    }
  }

  function PendingOf(v: Look, keys: seq<string>): (p: seq<string>)
    ensures forall id :: id in p <==> id in keys && StillThere(v, id)
  {
    if keys == [] then []
    else (if StillThere(v, keys[0]) then [keys[0]] else []) + PendingOf(v, keys[1..])
  }

  function SeenAndListed(pending: seq<string>, referenced: set<string>, firstSeen: map<string, int>): (c: seq<string>)
    ensures forall id :: id in c <==> id in pending && id in referenced && id in firstSeen
  {
    if pending == [] then []
    else (if pending[0] in referenced && pending[0] in firstSeen then [pending[0]] else [])
         + SeenAndListed(pending[1..], referenced, firstSeen)
  }

  function EntryOf(g: Gathered, id: string): Candidate
    requires id in g.meetingOf
  {
    Candidate(id, g.meetingOf[id], if id in g.firstSeen then Some(g.firstSeen[id]) else None)
  }

  function EntriesOf(pending: seq<string>, referenced: set<string>, g: Gathered): (r: seq<Candidate>)
    requires forall id | id in pending :: id in g.meetingOf
  {
    if pending == [] then []
    else
      assert pending[0] in pending && forall id | id in pending[1..] :: id in pending;
      (if pending[0] in referenced then [] else [EntryOf(g, pending[0])]) + EntriesOf(pending[1..], referenced, g)
  }

  lemma {:induction false} PendingDistinct(v: Look, keys: seq<string>)
    requires NoDuplicates(keys)
    ensures NoDuplicates(PendingOf(v, keys))
  {
    if keys != [] {
      PendingDistinct(v, keys[1..]);
      var rest := PendingOf(v, keys[1..]);
      forall i | 0 <= i < |rest| ensures rest[i] != keys[0] { assert rest[i] in rest; }
    }
  }

  lemma NamesStep(e: Candidate, rest: seq<Candidate>, id: string)
    ensures Names([e] + rest, id) <==> id == e.entityId || Names(rest, id)
  {
    var r := [e] + rest;
    assert r[0] == e;
    if Names(rest, id) { var k :| 0 <= k < |rest| && rest[k].entityId == id; assert r[k + 1] == rest[k]; }
  }

  lemma {:induction false} EntriesAre(pending: seq<string>, referenced: set<string>, g: Gathered)
    requires forall id | id in pending :: id in g.meetingOf
    ensures var r := EntriesOf(pending, referenced, g);
      && (forall id :: Names(r, id) <==> id in pending && id !in referenced)
      && (forall k | 0 <= k < |r| :: r[k].entityId in g.meetingOf && r[k] == EntryOf(g, r[k].entityId))
  {
    if pending != [] {
      assert pending[0] in pending && forall id | id in pending[1..] :: id in pending;
      EntriesAre(pending[1..], referenced, g);
      var rest := EntriesOf(pending[1..], referenced, g);
      if pending[0] in referenced {
        assert EntriesOf(pending, referenced, g) == rest;
      } else {
        forall id ensures Names([EntryOf(g, pending[0])] + rest, id) <==> id == pending[0] || Names(rest, id) {
          NamesStep(EntryOf(g, pending[0]), rest, id);
        }
      }
    }
  }

  lemma {:induction false} EntriesDistinct(pending: seq<string>, referenced: set<string>, g: Gathered)
    requires (forall id | id in pending :: id in g.meetingOf) && NoDuplicates(pending)
    ensures Distinct(EntriesOf(pending, referenced, g))
  {
    if pending != [] {
      assert pending[0] in pending && forall id | id in pending[1..] :: id in pending;
      EntriesDistinct(pending[1..], referenced, g);
      EntriesAre(pending[1..], referenced, g);
      var rest := EntriesOf(pending[1..], referenced, g);
      forall k | 0 <= k < |rest| ensures rest[k].entityId != pending[0] { assert Names(rest, rest[k].entityId); }
    }
  }

  lemma {:induction false} DistinctCount(r: seq<Candidate>, s: set<string>)
    requires Distinct(r) && forall id :: id in s <==> Names(r, id)
    ensures |s| == |r|
  {
    if r == [] {
      assert forall id :: id !in s;
      assert s == {};
    } else {
      var rest, x := r[1..], r[0].entityId;
      assert Names(r, x);
      forall id ensures id in s - {x} <==> Names(rest, id) {
        if Names(rest, id) { var k :| 0 <= k < |rest| && rest[k].entityId == id; assert r[k + 1].entityId == id; }
        if id in s && id != x { var k :| 0 <= k < |r| && r[k].entityId == id; assert rest[k - 1].entityId == id; }
      }
      DistinctCount(rest, s - {x});
    }
  }

  lemma EntriesAreWanted(v: Look, suspects: seq<Suspect>, g: Gathered, pending: seq<string>, referenced: set<string>)
    requires Gathers(v, suspects, g) && pending == PendingOf(v, g.keys)
    requires referenced == Referenced(v.state, (set id | id in pending), REFERENCING_PREFIXES)
    ensures RemovesWanted(v, suspects, EntriesOf(pending, referenced, g))
    ensures |EntriesOf(pending, referenced, g)| == |Wanted(v, suspects)|
  {
    var r := EntriesOf(pending, referenced, g);
    PendingDistinct(v, g.keys);
    EntriesAre(pending, referenced, g);
    EntriesDistinct(pending, referenced, g);
    forall id ensures id in Wanted(v, suspects) <==> Names(r, id) {
      WantedIff(v, suspects, g, pending, referenced, id);
    }
    forall k | 0 <= k < |r| ensures EntryIs(v, suspects, r[k]) {
      EntryOfIs(v, suspects, g, r[k].entityId);
    }
    DistinctCount(r, Wanted(v, suspects));
  }

  lemma WantedIff(v: Look, suspects: seq<Suspect>, g: Gathered, pending: seq<string>, referenced: set<string>,
                  id: string)
    requires Gathers(v, suspects, g) && pending == PendingOf(v, g.keys)
    requires referenced == Referenced(v.state, (set id | id in pending), REFERENCING_PREFIXES)
    ensures id in Wanted(v, suspects) <==> id in pending && id !in referenced
  {
    assert id in pending <==> id in g.meetingOf && StillThere(v, id);
  }

  lemma EntryOfIs(v: Look, suspects: seq<Suspect>, g: Gathered, id: string)
    requires Gathers(v, suspects, g) && id in g.meetingOf
    ensures EntryIs(v, suspects, EntryOf(g, id))
  {
  }

  lemma ClearedAreForgotten(v: Look, suspects: seq<Suspect>, g: Gathered, pending: seq<string>, referenced: set<string>)
    requires Gathers(v, suspects, g) && pending == PendingOf(v, g.keys)
    requires referenced == Referenced(v.state, (set id | id in pending), REFERENCING_PREFIXES)
    ensures forall id ::
        id in g.cleared + SeenAndListed(pending, referenced, g.firstSeen) <==> Forgotten(v, suspects, id)
  {
    forall id | SecondSighting(v, suspects, id) ensures id in pending {
      assert id in g.keys;
    }
  }

  // ----- what a plan promises -----

  /** A live meeting or motion record of the source. */
  predicate LiveReferrer(state: State, m: string) {
    m in state && state[m].op.Upsert? && (StartsWith(m, "meeting:") || StartsWith(m, "motion:"))
  }

  lemma NotListedMeans(state: State, id: string, m: string)
    requires !Listed(state, id) && LiveReferrer(state, m)
    ensures !Mentions(state[m], id) && !Attaches(state[m].payload, id)
  {
    ReferrersAre(state, m);
    AttachmentIdsAre(state[m].payload, id);
    if id in AttachmentIds(state[m].payload) { AttachmentIsInText(state[m].payload.value, id); }
  }

  lemma ReferrersAre(state: State, m: string)
    ensures m in LiveUnderAny(state, REFERENCING_PREFIXES) <==> LiveReferrer(state, m)
  {
    assert REFERENCING_PREFIXES[0] == "meeting:" && REFERENCING_PREFIXES[1] == "motion:";
    InRangeIff(m, "meeting:");
    InRangeIff(m, "motion:");
    if InRange(m, "meeting:") && LiveReferrer(state, m) { assert m in LiveUnder(state, REFERENCING_PREFIXES[0]); }
    if InRange(m, "motion:") && LiveReferrer(state, m) { assert m in LiveUnder(state, REFERENCING_PREFIXES[1]); }
  }

  /** What this run saw of the meeting an entry names. */
  ghost predicate SeenDropped(trace: seq<Sighting>, v: Look, suspects: seq<Suspect>, e: Candidate) {
    match e.firstSeenAt
    case Some(t) =>
      && Suspect(e.entityId, e.meetingId, t) in suspects && (v.now - t) as real >= v.minAge
      && exists i :: LastSight(trace, i, e.meetingId) && e.entityId !in trace[i].after
    case None =>
      IsDocument(e.entityId) && exists i :: LastDrop(trace, i, e.entityId) && trace[i].meetingId == e.meetingId
  }

  lemma {:induction false} LastSightExists(trace: seq<Sighting>, m: string) returns (i: nat)
    requires EverSeen(trace, m)
    ensures LastSight(trace, i, m)
  {
    var p, n := trace[..|trace| - 1], |trace| - 1;
    if trace[n].meetingId == m {
      i := n;
    } else {
      var k :| 0 <= k < |trace| && trace[k].meetingId == m;
      assert p[k] == trace[k];
      i := LastSightExists(p, m);
      assert forall j | 0 <= j < n :: p[j] == trace[j];
    }
  }

  lemma {:induction false} LastDropExists(trace: seq<Sighting>, id: string) returns (i: nat)
    requires EverDropped(trace, id)
    ensures LastDrop(trace, i, id)
  {
    var p, n := trace[..|trace| - 1], |trace| - 1;
    if Drops(trace[n], id) {
      i := n;
    } else {
      var k :| 0 <= k < |trace| && Drops(trace[k], id);
      assert p[k] == trace[k];
      i := LastDropExists(p, id);
      assert forall j | 0 <= j < n :: p[j] == trace[j];
    }
  }

  lemma EntryWasSeen(trace: seq<Sighting>, v: Look, suspects: seq<Suspect>, e: Candidate)
    requires Remembers(v.obs, trace) && EntryIs(v, suspects, e)
    ensures SeenDropped(trace, v, suspects, e)
  {
    if e.firstSeenAt.Some? {
      var i := LastSightExists(trace, e.meetingId);
      assert LastSight(trace, i, e.meetingId) && e.entityId !in trace[i].after;
    } else {
      var i := LastDropExists(trace, e.entityId);
      assert LastDrop(trace, i, e.entityId) && trace[i].meetingId == e.meetingId;
    }
  }

  /** Whatever a plan wants to remove is live, was not emitted this run, is mentioned and listed by
      no live meeting or motion, and was seen left out by the meeting it names: this run, by a
      meeting that kept another document, or for the second time at least the minimum age after
      the first. Over the cap, nothing is. */
  lemma PlanIsSafe(plan: Plan, trace: seq<Sighting>, v: Look, suspects: seq<Suspect>, maxPerRun: real, k: nat)
    requires Remembers(v.obs, trace) && IsPlan(plan, v, suspects, maxPerRun) && k < |plan.remove|
    ensures plan.capExceeded.None? && |plan.remove| as real <= maxPerRun
    ensures var id := plan.remove[k].entityId;
      && id in v.state && v.state[id].op.Upsert? && id !in v.obs.emitted
      && forall m | LiveReferrer(v.state, m) :: !Mentions(v.state[m], id) && !Attaches(v.state[m].payload, id)
    ensures SeenDropped(trace, v, suspects, plan.remove[k])
  {
    var e := plan.remove[k];
    assert Names(plan.remove, e.entityId) && EntryIs(v, suspects, e);
    assert e.entityId in Wanted(v, suspects);
    DistinctCount(plan.remove, Wanted(v, suspects));
    EntryWasSeen(trace, v, suspects, e);
    forall m | LiveReferrer(v.state, m)
      ensures !Mentions(v.state[m], e.entityId) && !Attaches(v.state[m].payload, e.entityId)
    {
      NotListedMeans(v.state, e.entityId, m);
    }
  }

  // ----- what a plan asks about, in terms of what was seen -----

  /** The meeting came back, last without the document, or with it. */
  ghost predicate CameWithout(trace: seq<Sighting>, s: Suspect) {
    exists i :: LastSight(trace, i, s.meetingId) && s.entityId !in trace[i].after
  }

  ghost predicate CameWith(trace: seq<Sighting>, s: Suspect) {
    exists i :: LastSight(trace, i, s.meetingId) && s.entityId in trace[i].after
  }

  predicate LiveNotEmitted(v: Look, id: string) { id in v.state && v.state[id].op.Upsert? && id !in v.obs.emitted }

  ghost predicate StillMentioned(state: State, id: string) {
    exists m :: LiveReferrer(state, m) && Mentions(state[m], id)
  }

  /** A suspect left out again, still live, and seen first at least the minimum age ago. */
  ghost predicate Due(trace: seq<Sighting>, v: Look, s: Suspect) {
    CameWithout(trace, s) && LiveNotEmitted(v, s.entityId) && (v.now - s.firstSeenAt) as real >= v.minAge
  }

  ghost predicate DueSuspect(trace: seq<Sighting>, v: Look, suspects: seq<Suspect>, id: string) {
    exists k :: 0 <= k < |suspects| && suspects[k].entityId == id && Due(trace, v, suspects[k])
  }

  /** The supplier is to be asked about it: dropped in this run by a meeting that kept another
      document, or a suspect that is due; live, not emitted, and mentioned by no live meeting or motion. */
  ghost predicate ToAsk(trace: seq<Sighting>, v: Look, suspects: seq<Suspect>, id: string) {
    && LiveNotEmitted(v, id) && !StillMentioned(v.state, id)
    && (("document:" <= id && EverDropped(trace, id)) || DueSuspect(trace, v, suspects, id))
  }

  lemma CameIff(obs: Observations, trace: seq<Sighting>, s: Suspect)
    requires Remembers(obs, trace)
    ensures CameWith(trace, s) <==> s.meetingId in obs.observed && s.entityId in obs.observed[s.meetingId]
    ensures CameWithout(trace, s) <==> s.meetingId in obs.observed && s.entityId !in obs.observed[s.meetingId]
  {
    if s.meetingId in obs.observed {
      var i := LastSightExists(trace, s.meetingId);
      assert LastSight(trace, i, s.meetingId);
    }
  }

  lemma DueIff(trace: seq<Sighting>, v: Look, s: Suspect)
    requires Remembers(v.obs, trace)
    ensures Due(trace, v, s) <==> Ripe(v, s)
  {
    CameIff(v.obs, trace, s);
  }

  lemma DueSuspectIff(trace: seq<Sighting>, v: Look, suspects: seq<Suspect>, id: string)
    requires Remembers(v.obs, trace)
    ensures DueSuspect(trace, v, suspects, id) <==> SecondSighting(v, suspects, id)
  {
    forall k | 0 <= k < |suspects| ensures Due(trace, v, suspects[k]) <==> Ripe(v, suspects[k]) {
      DueIff(trace, v, suspects[k]);
    }
  }

  lemma ListedIsMentioned(state: State, id: string)
    ensures Listed(state, id) <==> StillMentioned(state, id)
  {
    forall m ensures m in LiveUnderAny(state, REFERENCING_PREFIXES) <==> LiveReferrer(state, m) {
      ReferrersAre(state, m);
    }
  }

  lemma ToAskIff(trace: seq<Sighting>, v: Look, suspects: seq<Suspect>, id: string)
    requires Remembers(v.obs, trace)
    ensures ToAsk(trace, v, suspects, id) <==> id in Wanted(v, suspects)
  {
    DueSuspectIff(trace, v, suspects, id);
    ListedIsMentioned(v.state, id);
  }

  /** The plan names exactly the documents to ask about, each once; or, if they are more than the
      cap, none, and says how many. */
  lemma PlannedIff(plan: Plan, trace: seq<Sighting>, v: Look, suspects: seq<Suspect>, maxPerRun: real)
    returns (ids: set<string>)
    requires Remembers(v.obs, trace) && IsPlan(plan, v, suspects, maxPerRun)
    ensures forall id :: id in ids <==> ToAsk(trace, v, suspects, id)
    ensures plan.capExceeded == if |ids| as real > maxPerRun then Some(|ids|) else None
    ensures plan.capExceeded.Some? ==> plan.remove == []
    ensures plan.capExceeded.None? ==> Distinct(plan.remove) && forall id :: Names(plan.remove, id) <==> id in ids
  {
    ids := Wanted(v, suspects);
    forall id ensures id in ids <==> ToAsk(trace, v, suspects, id) { ToAskIff(trace, v, suspects, id); }
  }

  /** The suspect is over: listed again; emitted or no longer live when its meeting came back; or due,
      but mentioned elsewhere. */
  ghost predicate IsOver(trace: seq<Sighting>, v: Look, s: Suspect) {
    || CameWith(trace, s)
    || (CameWithout(trace, s) && !LiveNotEmitted(v, s.entityId))
    || (Due(trace, v, s) && StillMentioned(v.state, s.entityId))
  }

  lemma ClearedIff(plan: Plan, trace: seq<Sighting>, v: Look, suspects: seq<Suspect>, maxPerRun: real, id: string)
    requires Remembers(v.obs, trace) && IsPlan(plan, v, suspects, maxPerRun)
    ensures id in plan.clearSuspects <==>
        exists k :: 0 <= k < |suspects| && suspects[k].entityId == id && IsOver(trace, v, suspects[k])
  {
    ListedIsMentioned(v.state, id);
    forall k | 0 <= k < |suspects| && suspects[k].entityId == id
      ensures IsOver(trace, v, suspects[k]) <==>
                BackOrGone(v, suspects[k]) || (Ripe(v, suspects[k]) && Listed(v.state, id))
    {
      CameIff(v.obs, trace, suspects[k]);
      DueIff(trace, v, suspects[k]);
    }
  }

  // ----- which document is asked first -----

  /** The document a suspect's meeting still lists first. */
  ghost predicate OffersControl(trace: seq<Sighting>, v: Look, s: Suspect, id: string) {
    && Due(trace, v, s)
    && exists i, j :: LastSight(trace, i, s.meetingId) && FirstDocumentAt(trace[i].after, j) && trace[i].after[j] == id
  }

  ghost predicate FirstDocumentAt(list: seq<string>, j: int) {
    0 <= j < |list| && "document:" <= list[j] && forall l | 0 <= l < j :: !("document:" <= list[l])
  }

  ghost predicate NoPartlyEmptied(trace: seq<Sighting>) { forall i | 0 <= i < |trace| :: !DropsSome(trace[i]) }

  /** The first document kept by the first meeting that dropped another; without such a meeting the
      first document that the meeting of a due suspect still lists, for the first suspect that has one. */
  ghost predicate ControlIs(trace: seq<Sighting>, v: Look, suspects: seq<Suspect>, control: Option<string>) {
    if !NoPartlyEmptied(trace) then
      exists i :: 0 <= i < |trace| && DropsSome(trace[i]) && (forall j | 0 <= j < i :: !DropsSome(trace[j]))
                  && control.Some? && FirstOf(trace[i].before, trace[i].after, control.value)
    else FirstOffered(trace, v, suspects, control)
  }

  ghost predicate FirstOffered(trace: seq<Sighting>, v: Look, suspects: seq<Suspect>, control: Option<string>) {
    match control
    case None => forall k, id | 0 <= k < |suspects| :: !OffersControl(trace, v, suspects[k], id)
    case Some(c) => exists k :: FirstOffer(trace, v, suspects, k, c)
  }

  ghost predicate FirstOffer(trace: seq<Sighting>, v: Look, suspects: seq<Suspect>, k: int, c: string) {
    && 0 <= k < |suspects| && OffersControl(trace, v, suspects[k], c)
    && forall j, id | 0 <= j < k :: !OffersControl(trace, v, suspects[j], id)
  }

  lemma {:induction false} FirstDocumentIs(list: seq<string>)
    ensures FirstDocument(list).Some? ==> exists j :: FirstDocumentAt(list, j) && list[j] == FirstDocument(list).value
  {
    if list != [] {
      if IsDocument(list[0]) {
        assert FirstDocumentAt(list, 0);
      } else {
        FirstDocumentIs(list[1..]);
        if FirstDocument(list).Some? {
          var j :| FirstDocumentAt(list[1..], j) && list[1..][j] == FirstDocument(list).value;
          assert FirstDocumentAt(list, j + 1) by {
            assert forall l | 0 < l < j + 1 :: list[l] == list[1..][l - 1];
          }
        }
      }
    }
  }

  lemma OffersIff(trace: seq<Sighting>, v: Look, s: Suspect, id: string)
    requires Remembers(v.obs, trace)
    ensures OffersControl(trace, v, s, id) <==> Ripe(v, s) && FirstDocument(v.obs.observed[s.meetingId]) == Some(id)
  {
    DueIff(trace, v, s);
    if Ripe(v, s) {
      var n := LastSightExists(trace, s.meetingId);
      var list := v.obs.observed[s.meetingId];
      assert list == trace[n].after;
      FirstDocumentIs(list);
      if FirstDocument(list).Some? {
        var j :| FirstDocumentAt(list, j) && list[j] == FirstDocument(list).value;
        assert FirstDocumentAt(trace[n].after, j);
      }
      forall i, j | LastSight(trace, i, s.meetingId) && FirstDocumentAt(trace[i].after, j)
        ensures FirstDocument(list) == Some(trace[i].after[j])
      {
        assert i == n;
        FirstDocumentOnly(list, j);
      }
    }
  }

  lemma FirstDocumentOnly(list: seq<string>, j: int)
    requires FirstDocumentAt(list, j)
    ensures FirstDocument(list) == Some(list[j])
  {
    FirstDocumentIs(list);
    assert list[j] in list && IsDocument(list[j]);
  }

  lemma ControlOfTrace(obs: Observations, trace: seq<Sighting>)
    requires Remembers(obs, trace) && obs.control.Some?
    ensures exists i :: 0 <= i < |trace| && DropsSome(trace[i]) && (forall j | 0 <= j < i :: !DropsSome(trace[j]))
                        && FirstOf(trace[i].before, trace[i].after, obs.control.value)
  {
    var i :| 0 <= i < |trace| && DropsSome(trace[i]) && obs.control == FirstKept(trace[i].before, trace[i].after)
             && forall j | 0 <= j < i :: !DropsSome(trace[j]);
    FirstKeptIs(trace[i].before, trace[i].after);
  }

  /** Until a suspect offers one there is no control document, and then it stays. */
  lemma {:induction false} OffersScanned(trace: seq<Sighting>, v: Look, suspects: seq<Suspect>)
    requires Remembers(v.obs, trace) && v.obs.control.None?
    ensures FirstOffered(trace, v, suspects, Control(v, suspects))
    decreases |suspects|
  {
    if suspects != [] {
      var p, last := suspects[..|suspects| - 1], suspects[|suspects| - 1];
      OffersScanned(trace, v, p);
      assert p + [last] == suspects;
      var offer := OfferOf(trace, v, last);
      OneMoreOffer(trace, v, p, last, Control(v, p), offer);
    }
  }

  /** The document this suspect's meeting offers, if it does. */
  lemma OfferOf(trace: seq<Sighting>, v: Look, s: Suspect) returns (offer: Option<string>)
    requires Remembers(v.obs, trace)
    ensures offer == if Ripe(v, s) then FirstDocument(v.obs.observed[s.meetingId]) else None
    ensures forall id :: OffersControl(trace, v, s, id) <==> offer == Some(id)
  {
    offer := if Ripe(v, s) then FirstDocument(v.obs.observed[s.meetingId]) else None;
    forall id ensures OffersControl(trace, v, s, id) <==> offer == Some(id) { OffersIff(trace, v, s, id); }
  }

  lemma OneMoreOffer(trace: seq<Sighting>, v: Look, p: seq<Suspect>, last: Suspect,
                     earlier: Option<string>, offer: Option<string>)
    requires FirstOffered(trace, v, p, earlier) && forall id :: OffersControl(trace, v, last, id) <==> offer == Some(id)
    ensures FirstOffered(trace, v, p + [last], if earlier.None? then offer else earlier)
  {
    var all := p + [last];
    assert all[|p|] == last && forall k | 0 <= k < |p| :: all[k] == p[k];
    if earlier.Some? {
      var k :| FirstOffer(trace, v, p, k, earlier.value);
      assert FirstOffer(trace, v, all, k, earlier.value);
    } else if offer.Some? {
      assert FirstOffer(trace, v, all, |p|, offer.value);
    }
  }

  lemma {:induction false} ControlStays(v: Look, suspects: seq<Suspect>)
    requires v.obs.control.Some?
    ensures Control(v, suspects) == v.obs.control
    decreases |suspects|
  {
    if suspects != [] { ControlStays(v, suspects[..|suspects| - 1]); }
  }

  lemma PlannedControlIs(plan: Plan, trace: seq<Sighting>, v: Look, suspects: seq<Suspect>, maxPerRun: real)
    requires Remembers(v.obs, trace) && IsPlan(plan, v, suspects, maxPerRun) && plan.capExceeded.None?
    ensures ControlIs(trace, v, suspects, plan.control)
  {
    if v.obs.control.Some? {
      ControlStays(v, suspects);
      ControlOfTrace(v.obs, trace);
    } else {
      OffersScanned(trace, v, suspects);
    }
  }

  /** The document asked first was still listed by a meeting this run observed. */
  lemma {:induction false} ControlIsListed(trace: seq<Sighting>, v: Look, suspects: seq<Suspect>)
    requires Remembers(v.obs, trace) && Control(v, suspects).Some?
    ensures exists i :: 0 <= i < |trace| && Control(v, suspects).value in trace[i].after
    decreases |suspects|
  {
    if suspects == [] {
      var i :| 0 <= i < |trace| && DropsSome(trace[i]) && v.obs.control == FirstKept(trace[i].before, trace[i].after);
      assert v.obs.control.value in trace[i].after;
    } else if Control(v, suspects[..|suspects| - 1]).Some? {
      ControlIsListed(trace, v, suspects[..|suspects| - 1]);
    } else {
      var i := LastSightExists(trace, suspects[|suspects| - 1].meetingId);
      assert Control(v, suspects).value in trace[i].after;
    }
  }

  // ----- asking the supplier -----

  datatype Presence = AnswersLive | AnswersGone | NoAnswer

  datatype Kept = Kept(entry: Candidate, probe: Option<Presence>)

  datatype Confirmed = Confirmed(remove: seq<Candidate>, kept: seq<Kept>, control: Option<Presence>,
                                 controlFailed: bool)

  function OriginalUrl(record: Option<Record>): Option<string> {
    if record.Some? && record.value.payload.Some? && record.value.payload.value.Obj? then
      match FieldOf(record.value.payload.value.fields, "original_url")
      case Some(Str(url)) => Some(url)
      case _ => None
    else None
  }

  function UrlOf(state: State, id: string): Option<string> {
    OriginalUrl(if id in state then Some(state[id]) else None)
  }

  /** `ask(i, url)` is the supplier's answer to the i-th question of the run. */
  function ControlAnswer(plan: Plan, state: State, ask: (nat, Option<string>) -> Presence): Option<Presence> {
    if plan.control.Some? && plan.control.value != "" then Some(ask(0, UrlOf(state, plan.control.value))) else None
  }

  function Answer(plan: Plan, state: State, ask: (nat, Option<string>) -> Presence, k: nat): Presence
    requires k < |plan.remove|
  {
    ask(k + 1, UrlOf(state, plan.remove[k].entityId))
  }

  /** The first `n` entries the supplier confirmed gone, and the ones it did not. */
  function GoneAmong(plan: Plan, state: State, ask: (nat, Option<string>) -> Presence, n: nat): seq<Candidate>
    requires n <= |plan.remove|
  {
    if n == 0 then []
    else
      GoneAmong(plan, state, ask, n - 1)
      + if Answer(plan, state, ask, n - 1).AnswersGone? then [plan.remove[n - 1]] else []
  }

  function KeptAmong(plan: Plan, state: State, ask: (nat, Option<string>) -> Presence, n: nat): seq<Kept>
    requires n <= |plan.remove|
  {
    if n == 0 then []
    else KeptAmong(plan, state, ask, n - 1)
         + if Answer(plan, state, ask, n - 1).AnswersGone? then []
           else [Kept(plan.remove[n - 1], Some(Answer(plan, state, ask, n - 1)))]
  }

  function Confirm(plan: Plan, state: State, ask: (nat, Option<string>) -> Presence): Confirmed {
    var control := ControlAnswer(plan, state, ask);
    if plan.remove == [] then Confirmed([], [], None, false)
    else if control != Some(AnswersLive) then
      Confirmed([], seq(|plan.remove|, i requires 0 <= i < |plan.remove| => Kept(plan.remove[i], None)), control, true)
    else
      var n := |plan.remove|;
      Confirmed(GoneAmong(plan, state, ask, n), KeptAmong(plan, state, ask, n), control, false)
  }

  method ConfirmRemovalsAtSource(plan: Plan, state: State, ask: (nat, Option<string>) -> Presence)
    returns (c: Confirmed)
    ensures c == Confirm(plan, state, ask) && AskedAndAnswered(plan, state, ask, c)
  {
    ConfirmedIff(plan, state, ask);
    if |plan.remove| == 0 {
      return Confirmed([], [], None, false);
    }
    var control := None;
    if plan.control.Some? && plan.control.value != "" {
      control := Some(ask(0, UrlOf(state, plan.control.value)));
    }
    if control != Some(AnswersLive) {
      return Confirmed([], seq(|plan.remove|, i requires 0 <= i < |plan.remove| => Kept(plan.remove[i], None)),
                       control, true);
    }
    var remove, kept := [], [];
    var k := 0;
    while k < |plan.remove|
      invariant k <= |plan.remove|
      invariant remove == GoneAmong(plan, state, ask, k) && kept == KeptAmong(plan, state, ask, k)
    {
      var entry := plan.remove[k];
      var probe := ask(k + 1, UrlOf(state, entry.entityId));
      if probe.AnswersGone? {
        remove := remove + [entry];
      } else {
        kept := kept + [Kept(entry, Some(probe))];
      }
      k := k + 1;
    }
    return Confirmed(remove, kept, control, false);
  }

  ghost predicate GoneAt(plan: Plan, state: State, ask: (nat, Option<string>) -> Presence, e: Candidate, k: nat) {
    k < |plan.remove| && plan.remove[k] == e && Answer(plan, state, ask, k).AnswersGone?
  }

  ghost predicate KeptAt(plan: Plan, state: State, ask: (nat, Option<string>) -> Presence, x: Kept, k: nat) {
    k < |plan.remove| && plan.remove[k] == x.entry && !Answer(plan, state, ask, k).AnswersGone?
    && x.probe == Some(Answer(plan, state, ask, k))
  }

  lemma {:induction false} GoneAmongAre(plan: Plan, state: State, ask: (nat, Option<string>) -> Presence, n: nat)
    requires n <= |plan.remove|
    ensures forall e ::
        e in GoneAmong(plan, state, ask, n) <==> exists k: nat :: k < n && GoneAt(plan, state, ask, e, k)
    ensures forall x ::
        x in KeptAmong(plan, state, ask, n) <==> exists k: nat :: k < n && KeptAt(plan, state, ask, x, k)
  {
    if n != 0 {
      GoneAmongAre(plan, state, ask, n - 1);
      if Answer(plan, state, ask, n - 1).AnswersGone? {
        assert GoneAt(plan, state, ask, plan.remove[n - 1], n - 1);
      } else {
        assert KeptAt(plan, state, ask, Kept(plan.remove[n - 1], Some(Answer(plan, state, ask, n - 1))), n - 1);
      }
    }
  }

  lemma ConfirmedAre(plan: Plan, state: State, ask: (nat, Option<string>) -> Presence)
    ensures var c := Confirm(plan, state, ask);
      && (forall e :: e in c.remove <==>
            ControlAnswer(plan, state, ask) == Some(AnswersLive) && exists k: nat :: GoneAt(plan, state, ask, e, k))
      && (forall x: Kept | x.probe.Some? :: x in c.kept <==>
            ControlAnswer(plan, state, ask) == Some(AnswersLive) && exists k: nat :: KeptAt(plan, state, ask, x, k))
      && (c.controlFailed <==> plan.remove != [] && ControlAnswer(plan, state, ask) != Some(AnswersLive))
  {
    GoneAmongAre(plan, state, ask, |plan.remove|);
    assert forall e, k: nat | GoneAt(plan, state, ask, e, k) :: k < |plan.remove|;
    assert forall x, k: nat | KeptAt(plan, state, ask, x, k) :: k < |plan.remove|;
  }

  // ----- which documents were asked about -----

  /** The record's payload holds this text under its last "original_url" field. */
  ghost predicate HoldsUrl(r: Record, url: string) {
    && r.payload.Some? && r.payload.value.Obj?
    && exists i :: LastField(r.payload.value.fields, "original_url", i) && r.payload.value.fields[i].value == Str(url)
  }

  /** The address of this very document in the log, if its record has one. */
  ghost predicate OwnUrl(state: State, id: string, url: Option<string>) {
    match url
    case Some(u) => id in state && HoldsUrl(state[id], u)
    case None => id !in state || forall u :: !HoldsUrl(state[id], u)
  }

  lemma UrlOfIsOwn(state: State, id: string, url: Option<string>)
    ensures OwnUrl(state, id, url) <==> url == UrlOf(state, id)
  {
    if id in state {
      forall u ensures HoldsUrl(state[id], u) <==> OriginalUrl(Some(state[id])) == Some(u) { HoldsIff(state[id], u); }
      if UrlOf(state, id).Some? { assert HoldsUrl(state[id], UrlOf(state, id).value); }
    }
  }

  lemma HoldsIff(r: Record, url: string)
    ensures HoldsUrl(r, url) <==> OriginalUrl(Some(r)) == Some(url)
  {
    if r.payload.Some? && r.payload.value.Obj? { FieldOfIsLast(r.payload.value.fields, "original_url"); }
  }

  /** The i-th question was about this document's own address and had this answer. */
  ghost predicate Said(state: State, ask: (nat, Option<string>) -> Presence, i: nat, id: string, answer: Presence) {
    exists url :: OwnUrl(state, id, url) && ask(i, url) == answer
  }

  lemma SaidIff(state: State, ask: (nat, Option<string>) -> Presence, i: nat, id: string, answer: Presence)
    ensures Said(state, ask, i, id, answer) <==> ask(i, UrlOf(state, id)) == answer
  {
    UrlOfIsOwn(state, id, UrlOf(state, id));
    forall url | OwnUrl(state, id, url) ensures url == UrlOf(state, id) { UrlOfIsOwn(state, id, url); }
  }

  /** The document to ask first answered live at its own address. */
  ghost predicate ControlLive(plan: Plan, state: State, ask: (nat, Option<string>) -> Presence) {
    plan.control.Some? && plan.control.value != "" && Said(state, ask, 0, plan.control.value, AnswersLive)
  }

  /** Entry `k` of the plan is this one, and the answer about its own address was this. */
  ghost predicate SaidOf(plan: Plan, state: State, ask: (nat, Option<string>) -> Presence, e: Candidate,
                         answer: Presence, k: int) {
    0 <= k < |plan.remove| && plan.remove[k] == e && Said(state, ask, k + 1, e.entityId, answer)
  }

  ghost predicate KeptFor(plan: Plan, state: State, ask: (nat, Option<string>) -> Presence, x: Kept) {
    if ControlLive(plan, state, ask)
    then x.probe.Some? && !x.probe.value.AnswersGone? && exists k :: SaidOf(plan, state, ask, x.entry, x.probe.value, k)
    else x.probe.None? && x.entry in plan.remove
  }

  /** Confirmed are the entries whose own address is gone, in a run whose control document answered
      live at its own; the others are kept, with the answer about their own address if asked. */
  ghost predicate AskedAndAnswered(plan: Plan, state: State, ask: (nat, Option<string>) -> Presence, c: Confirmed) {
    && (forall e :: e in c.remove <==>
          ControlLive(plan, state, ask) && exists k :: SaidOf(plan, state, ask, e, AnswersGone, k))
    && (forall x: Kept :: x in c.kept <==> KeptFor(plan, state, ask, x))
    && (c.controlFailed <==> plan.remove != [] && !ControlLive(plan, state, ask))
    && |c.remove| + |c.kept| == |plan.remove|
  }

  lemma {:induction false} AmongCount(plan: Plan, state: State, ask: (nat, Option<string>) -> Presence, n: nat)
    requires n <= |plan.remove|
    ensures |GoneAmong(plan, state, ask, n)| + |KeptAmong(plan, state, ask, n)| == n
  {
    if n > 0 { AmongCount(plan, state, ask, n - 1); }
  }

  lemma GoneIsSaid(plan: Plan, state: State, ask: (nat, Option<string>) -> Presence, e: Candidate)
    ensures (exists k: nat :: GoneAt(plan, state, ask, e, k)) <==>
        exists k :: SaidOf(plan, state, ask, e, AnswersGone, k)
  {
    if k: nat :| GoneAt(plan, state, ask, e, k) {
      SaidIff(state, ask, k + 1, e.entityId, AnswersGone);
      assert SaidOf(plan, state, ask, e, AnswersGone, k);
    }
    if k :| SaidOf(plan, state, ask, e, AnswersGone, k) {
      SaidIff(state, ask, k + 1, e.entityId, AnswersGone);
      assert GoneAt(plan, state, ask, e, k);
    }
  }

  lemma KeptIsSaid(plan: Plan, state: State, ask: (nat, Option<string>) -> Presence, x: Kept)
    requires x.probe.Some?
    ensures (exists k: nat :: KeptAt(plan, state, ask, x, k)) <==>
        !x.probe.value.AnswersGone? && exists k :: SaidOf(plan, state, ask, x.entry, x.probe.value, k)
  {
    var e, answer := x.entry, x.probe.value;
    if k: nat :| KeptAt(plan, state, ask, x, k) {
      SaidIff(state, ask, k + 1, e.entityId, answer);
      assert SaidOf(plan, state, ask, e, answer, k);
    }
    if k :| SaidOf(plan, state, ask, e, answer, k) && !answer.AnswersGone? {
      SaidIff(state, ask, k + 1, e.entityId, answer);
      assert KeptAt(plan, state, ask, x, k);
    }
  }

  lemma ControlIsSaid(plan: Plan, state: State, ask: (nat, Option<string>) -> Presence)
    ensures ControlAnswer(plan, state, ask) == Some(AnswersLive) <==> ControlLive(plan, state, ask)
  {
    if plan.control.Some? { SaidIff(state, ask, 0, plan.control.value, AnswersLive); }
  }

  lemma ConfirmedIff(plan: Plan, state: State, ask: (nat, Option<string>) -> Presence)
    ensures AskedAndAnswered(plan, state, ask, Confirm(plan, state, ask))
  {
    var c := Confirm(plan, state, ask);
    ConfirmedAre(plan, state, ask);
    ControlIsSaid(plan, state, ask);
    AmongCount(plan, state, ask, |plan.remove|);
    forall e ensures e in c.remove <==>
        ControlLive(plan, state, ask) && exists k :: SaidOf(plan, state, ask, e, AnswersGone, k)
    {
      GoneIsSaid(plan, state, ask, e);
    }
    forall x: Kept ensures x in c.kept <==> KeptFor(plan, state, ask, x) { KeptAreFor(plan, state, ask, x); }
  }

  lemma KeptAreFor(plan: Plan, state: State, ask: (nat, Option<string>) -> Presence, x: Kept)
    ensures x in Confirm(plan, state, ask).kept <==> KeptFor(plan, state, ask, x)
  {
    ConfirmedAre(plan, state, ask);
    ControlIsSaid(plan, state, ask);
    if x.probe.Some? {
      KeptIsSaid(plan, state, ask, x);
      if !ControlLive(plan, state, ask) { NoneAsked(plan, state, ask); }
    } else if ControlLive(plan, state, ask) {
      AllAsked(plan, state, ask, |plan.remove|);
    } else {
      NoneAsked(plan, state, ask);
    }
  }

  /** Without a live control document every entry is kept without an answer. */
  lemma NoneAsked(plan: Plan, state: State, ask: (nat, Option<string>) -> Presence)
    requires ControlAnswer(plan, state, ask) != Some(AnswersLive)
    ensures forall x: Kept :: x in Confirm(plan, state, ask).kept <==> x.probe.None? && x.entry in plan.remove
  {
    var kept := Confirm(plan, state, ask).kept;
    assert |kept| == |plan.remove| && forall i | 0 <= i < |kept| :: kept[i] == Kept(plan.remove[i], None);
    forall x: Kept | x.probe.None? && x.entry in plan.remove ensures x in kept {
      var i :| 0 <= i < |plan.remove| && plan.remove[i] == x.entry;
      assert kept[i] == x;
    }
  }

  lemma {:induction false} AllAsked(plan: Plan, state: State, ask: (nat, Option<string>) -> Presence, n: nat)
    requires n <= |plan.remove|
    ensures forall x | x in KeptAmong(plan, state, ask, n) :: x.probe.Some?
  {
    if n > 0 { AllAsked(plan, state, ask, n - 1); }
  }

  /** If the supplier's answer depends on the address alone, a planned document is confirmed exactly
      when the control document's own address is live and its own is gone. */
  lemma ConfirmedByAddress(plan: Plan, state: State, ask: (nat, Option<string>) -> Presence, e: Candidate)
    requires forall i, j, url :: ask(i, url) == ask(j, url)
    ensures e in Confirm(plan, state, ask).remove <==>
        && e in plan.remove && ControlLive(plan, state, ask)
        && exists url :: OwnUrl(state, e.entityId, url) && ask(0, url) == AnswersGone
  {
    ConfirmedIff(plan, state, ask);
    if e in plan.remove && exists url :: OwnUrl(state, e.entityId, url) && ask(0, url) == AnswersGone {
      var k :| 0 <= k < |plan.remove| && plan.remove[k] == e;
      var url :| OwnUrl(state, e.entityId, url) && ask(0, url) == AnswersGone;
      assert ask(k + 1, url) == ask(0, url);
      assert SaidOf(plan, state, ask, e, AnswersGone, k);
    }
    if k :| SaidOf(plan, state, ask, e, AnswersGone, k) {
      var url :| OwnUrl(state, e.entityId, url) && ask(k + 1, url) == AnswersGone;
      assert ask(k + 1, url) == ask(0, url);
    }
  }
}
