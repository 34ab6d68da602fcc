/** What the iBabs time repair plans for one stored record (src/pipeline/repair_ibabs_times.ts), and
    why the log never drops a planned repair: the hash of a record is that of the payload it was cut
    from, and a repair changes a field both have. How a wall clock is corrected is a parameter. */
module RepairRecords {
  import opened Basics
  import opened EntityCommit
  import opened JsonText
  import opened CommitEvent
  import opened ExportRecords

  const REPAIRED_FIELDS: seq<string> := ["start_date", "end_date", "last_discussed_at"]
  const REPAIRED_TYPES: set<string> := {"Meeting", "Document", "Motion"}

  /** Records written before `before` qualify; `clock` is the time a repair is written at. */
  datatype Fix = Fix(before: int, correct: string -> string, clock: string -> int)

  // ----- one record -----

  function SetField(fields: seq<Field>, key: string, value: Json): seq<Field> {
    if fields == [] then []
    else [if fields[0].key == key then Field(key, value) else fields[0]] + SetField(fields[1..], key, value)
  }

  /** The text under a field, if it holds one. */
  function TextAt(fields: seq<Field>, key: string): Option<string> {
    match FieldOf(fields, key)
    case Some(Str(s)) => Some(s)
    case _ => None
  }

  predicate Wrong(fix: Fix, fields: seq<Field>, key: string) {
    TextAt(fields, key).Some? && fix.correct(TextAt(fields, key).value) != TextAt(fields, key).value
  }

  function CorrectField(fix: Fix, fields: seq<Field>, key: string): seq<Field> {
    if Wrong(fix, fields, key) then SetField(fields, key, Str(fix.correct(TextAt(fields, key).value))) else fields
  }

  function CorrectFields(fix: Fix, fields: seq<Field>, keys: seq<string>): seq<Field>
    decreases |keys|
  {
    if keys == [] then fields
    else
      var rest := CorrectField(fix, fields, keys[0]);
      CorrectFields(fix, rest, keys[1..])
  }

  predicate Qualifies(fix: Fix, r: Record) {
    && r.op.Upsert? && r.supplier == "ibabs" && r.entityType in REPAIRED_TYPES && r.time < fix.before
    && r.payload.Some? && r.payload.value.Obj?
  }

  function PlanRepair(fix: Fix, r: Record): Option<Json> {
    if Qualifies(fix, r)
       && exists i :: 0 <= i < |REPAIRED_FIELDS| && Wrong(fix, r.payload.value.fields, REPAIRED_FIELDS[i]) then
      Some(Obj(CorrectFields(fix, r.payload.value.fields, REPAIRED_FIELDS)))
    else None
  }

  /** The hash is taken over the stored payload. */
  function RepairedRecord(fix: Fix, r: Record, payload: Json): Record {
    r.(time := fix.clock(r.entityId), contentHash := Some(Stringify(payload)), payload := Some(payload))
  }

  lemma {:induction false} FieldAfterSet(fields: seq<Field>, key: string, value: Json, k: string)
    ensures FieldOf(SetField(fields, key, value), k)
              == if k == key && FieldOf(fields, key).Some? then Some(value) else FieldOf(fields, k)
  {
    if fields != [] { FieldAfterSet(fields[1..], key, value, k); }
  }

  /** Correcting changes the wrong times among the fields, and nothing else. */
  lemma {:induction false} CorrectedFieldIs(fix: Fix, fields: seq<Field>, keys: seq<string>, k: string)
    requires NoDuplicates(keys)
    ensures FieldOf(CorrectFields(fix, fields, keys), k)
              == if k in keys && Wrong(fix, fields, k) then Some(Str(fix.correct(TextAt(fields, k).value)))
                  else FieldOf(fields, k)
    decreases |keys|
  {
    if keys != [] {
      var rest := CorrectField(fix, fields, keys[0]);
      CorrectedFieldIs(fix, rest, keys[1..], k);
      if Wrong(fix, fields, keys[0]) {
        FieldAfterSet(fields, keys[0], Str(fix.correct(TextAt(fields, keys[0]).value)), k);
      }
    }
  }

  lemma RepairedPayloadIs(fix: Fix, r: Record, key: string)
    requires PlanRepair(fix, r).Some?
    ensures PlanRepair(fix, r).value.Obj?
    ensures var was := r.payload.value.fields;
      FieldOf(PlanRepair(fix, r).value.fields, key)
        == if key in REPAIRED_FIELDS && Wrong(fix, was, key) then Some(Str(fix.correct(TextAt(was, key).value)))
            else FieldOf(was, key)
  {
    CorrectedFieldIs(fix, r.payload.value.fields, REPAIRED_FIELDS, key);
  }

  // ----- which records, and what of them -----

  /** The last field of that name holds this value. */
  ghost predicate Holds(fields: seq<Field>, key: string, v: Json) {
    exists i :: LastField(fields, key, i) && fields[i].value == v
  }

  lemma HoldsIff(fields: seq<Field>, key: string, v: Json)
    ensures Holds(fields, key, v) <==> FieldOf(fields, key) == Some(v)
  {
    FieldOfIsLast(fields, key);
  }

  /** One of the three times, as a text that the correction changes. */
  ghost predicate WrongTime(fix: Fix, fields: seq<Field>, key: string) {
    && key in {"start_date", "end_date", "last_discussed_at"}
    && exists s :: Holds(fields, key, Str(s)) && fix.correct(s) != s
  }

  /** A live iBabs meeting, document or motion written before the cutoff, with a wrong time. */
  ghost predicate ToRepair(fix: Fix, r: Record) {
    && r.op.Upsert? && r.supplier == "ibabs" && r.entityType in {"Meeting", "Document", "Motion"} && r.time < fix.before
    && r.payload.Some? && r.payload.value.Obj? && exists key :: WrongTime(fix, r.payload.value.fields, key)
  }

  lemma WrongTimeIff(fix: Fix, fields: seq<Field>, key: string)
    ensures WrongTime(fix, fields, key) <==> key in REPAIRED_FIELDS && Wrong(fix, fields, key)
  {
    forall s ensures Holds(fields, key, Str(s)) <==> FieldOf(fields, key) == Some(Str(s)) {
      HoldsIff(fields, key, Str(s));
    }
    if Wrong(fix, fields, key) { assert Holds(fields, key, Str(TextAt(fields, key).value)); }
    assert REPAIRED_FIELDS == ["start_date", "end_date", "last_discussed_at"];
  }

  lemma PlannedIff(fix: Fix, r: Record)
    ensures PlanRepair(fix, r).Some? <==> ToRepair(fix, r)
  {
    if Qualifies(fix, r) {
      var fields := r.payload.value.fields;
      forall key ensures WrongTime(fix, fields, key) <==> key in REPAIRED_FIELDS && Wrong(fix, fields, key) {
        WrongTimeIff(fix, fields, key);
      }
      if i :| 0 <= i < |REPAIRED_FIELDS| && Wrong(fix, fields, REPAIRED_FIELDS[i]) {
        assert WrongTime(fix, fields, REPAIRED_FIELDS[i]);
      }
    }
  }

  /** The wrong times are corrected and every other field is as it was. */
  ghost predicate Corrected(fix: Fix, was: seq<Field>, now: seq<Field>) {
    forall key, v :: Holds(now, key, v) <==>
      if WrongTime(fix, was, key) then exists s :: Holds(was, key, Str(s)) && v == Str(fix.correct(s))
      else Holds(was, key, v)
  }

  /** The record with its times corrected, written at the clock's time under a hash of its own. */
  ghost predicate IsRepaired(fix: Fix, was: Record, now: Record) {
    && now == was.(seqNo := now.seqNo, time := fix.clock(was.entityId), contentHash := now.contentHash,
                   payload := now.payload)
    && now.payload.Some? && now.payload.value.Obj? && now.contentHash == Some(Stringify(now.payload.value))
    && was.payload.Some? && was.payload.value.Obj? && Corrected(fix, was.payload.value.fields, now.payload.value.fields)
  }

  lemma PlanCorrects(fix: Fix, r: Record)
    requires PlanRepair(fix, r).Some?
    ensures Corrected(fix, r.payload.value.fields, PlanRepair(fix, r).value.fields)
  {
    var was, now := r.payload.value.fields, PlanRepair(fix, r).value.fields;
    forall key, v
      ensures Holds(now, key, v) <==>
                if WrongTime(fix, was, key) then exists s :: Holds(was, key, Str(s)) && v == Str(fix.correct(s))
                else Holds(was, key, v)
    {
      FieldCorrected(fix, r, key, v);
    }
  }

  lemma FieldCorrected(fix: Fix, r: Record, key: string, v: Json)
    requires PlanRepair(fix, r).Some?
    ensures var was := r.payload.value.fields;
      Holds(PlanRepair(fix, r).value.fields, key, v) <==>
        if WrongTime(fix, was, key) then exists s :: Holds(was, key, Str(s)) && v == Str(fix.correct(s))
        else Holds(was, key, v)
  {
    var was := r.payload.value.fields;
    RepairedPayloadIs(fix, r, key);
    HoldsIff(PlanRepair(fix, r).value.fields, key, v);
    HoldsIff(was, key, v);
    WrongTimeIff(fix, was, key);
    if WrongTime(fix, was, key) {
      var s := TextAt(was, key).value;
      HoldsIff(was, key, Str(s));
      forall x | Holds(was, key, Str(x)) ensures x == s { HoldsIff(was, key, Str(x)); }
    }
  }

  /** A plan depends on the cutoff and the correction, not on the clock. */
  lemma SamePlan(fix: Fix, again: Fix, r: Record)
    requires again.before == fix.before && again.correct == fix.correct
    ensures PlanRepair(again, r) == PlanRepair(fix, r)
  {
    if Qualifies(fix, r) {
      SameCorrection(fix, again, r.payload.value.fields, REPAIRED_FIELDS);
      assert forall i | 0 <= i < |REPAIRED_FIELDS| ::
          Wrong(fix, r.payload.value.fields, REPAIRED_FIELDS[i])
          <==> Wrong(again, r.payload.value.fields, REPAIRED_FIELDS[i]);
    }
  }

  lemma {:induction false} SameCorrection(fix: Fix, again: Fix, fields: seq<Field>, keys: seq<string>)
    requires again.correct == fix.correct
    ensures CorrectFields(again, fields, keys) == CorrectFields(fix, fields, keys)
    decreases |keys|
  {
    if keys != [] {
      var rest := CorrectField(fix, fields, keys[0]);
      SameCorrection(fix, again, rest, keys[1..]);
    }
  }

  // ----- where hashes come from -----

  /** The record's hash is that of `full`, from which its payload keeps the repaired fields. */
  ghost predicate HashedFrom(r: Record, full: seq<Field>) {
    && r.payload.Some? && r.payload.value.Obj? && WellFormed(r.payload.value) && WellFormed(Obj(full))
    && r.contentHash == Some(Stringify(Obj(full)))
    && forall k | k in REPAIRED_FIELDS && FieldOf(r.payload.value.fields, k).Some? ::
         FieldOf(full, k) == FieldOf(r.payload.value.fields, k)
  }

  ghost predicate Traced(r: Record) { r.op.Upsert? ==> exists full :: HashedFrom(r, full) }

  ghost predicate TracedState(state: State) { forall id | id in state :: Traced(state[id]) }

  /** The stored hash is already the hash of the repaired payload, so the log would drop the repair. */
  ghost predicate RepairIsDropped(fix: Fix, r: Record) {
    PlanRepair(fix, r).Some? && r.contentHash == Some(Stringify(PlanRepair(fix, r).value))
  }

  lemma MeaningAt(fields: seq<Field>, key: string)
    requires DistinctKeys(fields) && FieldOf(fields, key).Some?
    ensures key in MeaningFields(fields) && MeaningFields(fields)[key] == Meaning(FieldOf(fields, key).value)
  {
    FieldOfIs(fields, key);
    MeaningHas(fields);
  }

  lemma {:induction false} SetKeepsShape(fields: seq<Field>, key: string, value: Json)
    requires WellFormed(Obj(fields)) && WellFormed(value)
    ensures WellFormed(Obj(SetField(fields, key, value))) && |SetField(fields, key, value)| == |fields|
    ensures forall i | 0 <= i < |fields| :: SetField(fields, key, value)[i].key == fields[i].key
  {
    if fields != [] {
      assert WellFormed(Obj(fields[1..])) by {
        assert forall f | f in fields[1..] :: f in fields;
      }
      SetKeepsShape(fields[1..], key, value);
      assert fields[0] in fields;
    }
  }

  lemma {:induction false} CorrectKeepsShape(fix: Fix, fields: seq<Field>, keys: seq<string>)
    requires WellFormed(Obj(fields))
    ensures WellFormed(Obj(CorrectFields(fix, fields, keys)))
    decreases |keys|
  {
    if keys != [] {
      if Wrong(fix, fields, keys[0]) {
        SetKeepsShape(fields, keys[0], Str(fix.correct(TextAt(fields, keys[0]).value)));
      }
      var rest := CorrectField(fix, fields, keys[0]);
      CorrectKeepsShape(fix, rest, keys[1..]);
    }
  }

  /** The log never drops a planned repair: equal hashes would make the repaired payload equal, as an
      unordered map, to one that has a corrected field as it was. */
  lemma PlannedRepairIsNotDropped(fix: Fix, r: Record)
    requires Traced(r)
    ensures !RepairIsDropped(fix, r)
  {
    var plan := PlanRepair(fix, r);
    if plan.Some? {
      var full :| HashedFrom(r, full);
      var i :| 0 <= i < |REPAIRED_FIELDS| && Wrong(fix, r.payload.value.fields, REPAIRED_FIELDS[i]);
      RepairedDiffers(fix, r, full, REPAIRED_FIELDS[i]);
      StringifyCanonical(plan.value, Obj(full));
    }
  }

  lemma RepairedDiffers(fix: Fix, r: Record, full: seq<Field>, key: string)
    requires PlanRepair(fix, r).Some? && HashedFrom(r, full) && key in REPAIRED_FIELDS
        && Wrong(fix, r.payload.value.fields, key)
    ensures PlanRepair(fix, r).value.Obj? && WellFormed(PlanRepair(fix, r).value)
    ensures Meaning(PlanRepair(fix, r).value) != Meaning(Obj(full))
  {
    var was, now := r.payload.value.fields, PlanRepair(fix, r).value.fields;
    RepairedPayloadIs(fix, r, key);
    CorrectKeepsShape(fix, was, REPAIRED_FIELDS);
    MeaningAt(now, key);
    MeaningAt(full, key);
    assert MeaningFields(full)[key] == VStr(TextAt(was, key).value);
    assert MeaningFields(now)[key] == VStr(fix.correct(TextAt(was, key).value));
  }

  // ----- every writer keeps it -----

  lemma CommitIsTraced(entity: seq<Field>, entityId: string, entityType: string, sourceKey: string, supplier: string,
                       time: int)
    requires IsEntity(entity)
    ensures Traced(CommitRecord(entity, entityId, entityType, sourceKey, supplier, time))
  {
    var r := CommitRecord(entity, entityId, entityType, sourceKey, supplier, time);
    var full := CommitPayload(entity).fields;
    PayloadFields(entity);
    forall k | k in REPAIRED_FIELDS && FieldOf(r.payload.value.fields, k).Some?
      ensures FieldOf(full, k) == FieldOf(r.payload.value.fields, k)
    {
      CompactKeeps(full, k);
    }
    CompactKeeps(full, "");
    assert HashedFrom(r, full);
  }

  lemma RepairIsTraced(fix: Fix, r: Record)
    requires Traced(r) && PlanRepair(fix, r).Some?
    ensures Traced(RepairedRecord(fix, r, PlanRepair(fix, r).value))
  {
    var full :| HashedFrom(r, full);
    CorrectKeepsShape(fix, r.payload.value.fields, REPAIRED_FIELDS);
    assert HashedFrom(RepairedRecord(fix, r, PlanRepair(fix, r).value), PlanRepair(fix, r).value.fields);
  }

  lemma AppendKeepsTraced(log: SourceLog, r: Record)
    requires TracedState(log.state) && Traced(r)
    ensures TracedState(Append(log, r).state)
  {
    NumberedIsTraced(log, r);
  }

  lemma NumberedIsTraced(log: SourceLog, r: Record)
    requires Traced(r)
    ensures Traced(Numbered(log, r))
  {
    if r.op.Upsert? {
      var full :| HashedFrom(r, full);
      assert HashedFrom(Numbered(log, r), full);
    }
  }

  function RepairOne(fix: Fix, log: SourceLog, r: Record): SourceLog {
    match PlanRepair(fix, r)
    case Some(payload) => Append(log, RepairedRecord(fix, r, payload))
    case None => log
  }

  /** The log's writers: the commit of an entity, a tombstone, the repair of a stored record. */
  datatype Writing =
    | Import(entity: seq<Field>, entityId: string, entityType: string, supplier: string, time: int)
    | Removal(tombstone: Record)
    | Repair(fix: Fix, id: string)

  predicate Allowed(log: SourceLog, w: Writing) {
    match w
    case Import(entity, _, _, _, _) => IsEntity(entity)
    case Removal(t) => t.op.Delete?
    case Repair(_, id) => id in log.state
  }

  function WriteOne(source: string, log: SourceLog, w: Writing): SourceLog
    requires Allowed(log, w)
  {
    match w
    case Import(entity, id, kind, supplier, time) => Append(log, CommitRecord(entity, id, kind, source, supplier, time))
    case Removal(t) => Append(log, t)
    case Repair(fix, id) => RepairOne(fix, log, log.state[id])
  }

  /** The log after these writings; one that is not allowed does not happen. */
  function WriteAll(source: string, ws: seq<Writing>): SourceLog {
    if ws == [] then EMPTY
    else
      var log, w := WriteAll(source, ws[..|ws| - 1]), ws[|ws| - 1];
      if Allowed(log, w) then WriteOne(source, log, w) else log
  }

  lemma WritingKeepsTraced(source: string, log: SourceLog, w: Writing)
    requires TracedState(log.state) && Allowed(log, w)
    ensures TracedState(WriteOne(source, log, w).state)
  {
    match w
    case Import(entity, id, kind, supplier, time) =>
      CommitIsTraced(entity, id, kind, source, supplier, time);
      AppendKeepsTraced(log, CommitRecord(entity, id, kind, source, supplier, time));
    case Removal(t) => AppendKeepsTraced(log, t);
    case Repair(fix, id) =>
      if PlanRepair(fix, log.state[id]).Some? {
        RepairIsTraced(fix, log.state[id]);
        AppendKeepsTraced(log, RepairedRecord(fix, log.state[id], PlanRepair(fix, log.state[id]).value));
      }
  }

  /** Every log its writers can produce holds only traced records. */
  lemma {:induction false} WrittenIsTraced(source: string, ws: seq<Writing>)
    ensures TracedState(WriteAll(source, ws).state)
  {
    if ws != [] {
      var log, w := WriteAll(source, ws[..|ws| - 1]), ws[|ws| - 1];
      WrittenIsTraced(source, ws[..|ws| - 1]);
      if Allowed(log, w) { WritingKeepsTraced(source, log, w); }
    }
  }
}
