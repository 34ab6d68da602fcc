/** What an entity's commit carries and hashes (buildEntityCommitEvent, src/events/entity_commit.ts):
    the entity without its raw supplier data, source_info moved to the end; and what the log keeps of
    it (compactEntityPayload, src/quickwit/project.ts). */
module CommitEvent {
  import opened Basics
  import opened EntityCommit
  import opened JsonText
  import opened ExportRecords

  const RAW: string := "raw"
  const SOURCE_INFO: string := "source_info"

  function Without(fields: seq<Field>, key: string): seq<Field> {
    if fields == [] then []
    else (if fields[0].key == key then [] else [fields[0]]) + Without(fields[1..], key)
  }

  /** An entity always has a source_info. */
  predicate IsEntity(fields: seq<Field>) {
    WellFormed(Obj(fields)) && FieldOf(fields, SOURCE_INFO).Some?
  }

  function CommitPayload(fields: seq<Field>): Json
    requires FieldOf(fields, SOURCE_INFO).Some?
  {
    Obj(Without(Without(fields, RAW), SOURCE_INFO) + [Field(SOURCE_INFO, FieldOf(fields, SOURCE_INFO).value)])
  }

  lemma {:induction false} WithoutAre(fields: seq<Field>, key: string)
    ensures forall f :: f in Without(fields, key) <==> f in fields && f.key != key
    ensures DistinctKeys(fields) ==> DistinctKeys(Without(fields, key))
  {
    if fields != [] {
      var rest := Without(fields[1..], key);
      WithoutAre(fields[1..], key);
      assert forall f :: f in fields <==> f == fields[0] || f in fields[1..];
      if DistinctKeys(fields) {
        forall j | 0 <= j < |rest| ensures rest[j].key != fields[0].key {
          assert rest[j] in rest && rest[j] in fields[1..];
        }
      }
    }
  }

  /** With distinct keys, an object's meaning has exactly its fields. */
  lemma MeaningHas(fields: seq<Field>)
    requires DistinctKeys(fields)
    ensures forall f | f in fields :: f.key in MeaningFields(fields) && MeaningFields(fields)[f.key] == Meaning(f.value)
    ensures forall k | k in MeaningFields(fields) :: exists f :: f in fields && f.key == k
  {
    forall f | f in fields ensures f.key in MeaningFields(fields) && MeaningFields(fields)[f.key] == Meaning(f.value) {
      var i :| 0 <= i < |fields| && fields[i] == f;
      MeaningFieldsAt(fields, i);
    }
    MeaningFieldsKeys(fields);
    forall k | k in MeaningFields(fields) ensures exists f :: f in fields && f.key == k {
      var i :| 0 <= i < |fields| && fields[i].key == k;
      assert fields[i] in fields;
    }
  }

  lemma FieldOfIs(fields: seq<Field>, key: string)
    requires FieldOf(fields, key).Some?
    ensures Field(key, FieldOf(fields, key).value) in fields
  {
    var k := FieldIsThere(fields, key);
  }

  lemma OneOfAKey(fields: seq<Field>, f: Field, g: Field)
    requires DistinctKeys(fields) && f in fields && g in fields && f.key == g.key
    ensures f == g
  {
    var i :| 0 <= i < |fields| && fields[i] == f;
    var j :| 0 <= j < |fields| && fields[j] == g;
  }

  /** The payload's fields are the entity's, but for raw. */
  lemma PayloadFields(fields: seq<Field>)
    requires IsEntity(fields)
    ensures DistinctKeys(CommitPayload(fields).fields) && WellFormed(CommitPayload(fields))
    ensures forall f :: f in CommitPayload(fields).fields <==> f in fields && f.key != RAW
  {
    var kept := Without(fields, RAW);
    var others := Without(kept, SOURCE_INFO);
    var info := Field(SOURCE_INFO, FieldOf(fields, SOURCE_INFO).value);
    WithoutAre(fields, RAW);
    WithoutAre(kept, SOURCE_INFO);
    FieldOfIs(fields, SOURCE_INFO);
    forall f | f in fields && f.key == SOURCE_INFO ensures f == info {
      OneOfAKey(fields, f, info);
    }
    forall i | 0 <= i < |others| ensures others[i].key != SOURCE_INFO { assert others[i] in others; }
  }

  /** As an unordered map, the payload is the entity without raw. */
  lemma PayloadMeaning(fields: seq<Field>)
    requires IsEntity(fields)
    ensures MeaningFields(CommitPayload(fields).fields) == MeaningFields(fields) - {RAW}
  {
    PayloadFields(fields);
    SameButRaw(CommitPayload(fields).fields, fields);
  }

  lemma SameButRaw(p: seq<Field>, fields: seq<Field>)
    requires DistinctKeys(p) && DistinctKeys(fields) && forall f :: f in p <==> f in fields && f.key != RAW
    ensures MeaningFields(p) == MeaningFields(fields) - {RAW}
  {
    forall k ensures k in MeaningFields(p) <==> k in MeaningFields(fields) && k != RAW { KeyAgrees(p, fields, k); }
    forall k | k in MeaningFields(p)
      ensures MeaningFields(p)[k] == MeaningFields(fields)[k]
    {
      KeyAgrees(p, fields, k);
    }
  }

  lemma KeyAgrees(p: seq<Field>, fields: seq<Field>, k: string)
    requires DistinctKeys(p) && DistinctKeys(fields) && forall f :: f in p <==> f in fields && f.key != RAW
    ensures k in MeaningFields(p) <==> k in MeaningFields(fields) && k != RAW
    ensures k in MeaningFields(p) ==> MeaningFields(p)[k] == MeaningFields(fields)[k]
  {
    MeaningHas(p);
    MeaningHas(fields);
    if k in MeaningFields(p) {
      var f :| f in p && f.key == k;
    }
  }

  /** Two entities hash alike exactly when they are equal up to key order and raw data, so a commit of
      one appends nothing onto a live record of the other exactly then. */
  lemma HashIgnoresRawAndOrder(a: seq<Field>, b: seq<Field>, state: State, r: Record)
    requires IsEntity(a) && IsEntity(b) && r.op.Upsert? && r.contentHash == Some(Stringify(CommitPayload(b)))
    requires r.entityId in state && state[r.entityId].op.Upsert?
    requires state[r.entityId].contentHash == Some(Stringify(CommitPayload(a)))
    ensures IsNoop(state, r) <==> MeaningFields(a) - {RAW} == MeaningFields(b) - {RAW}
  {
    PayloadFields(a);
    PayloadFields(b);
    PayloadMeaning(a);
    PayloadMeaning(b);
    CommitDeduplicatesByMeaning(state, r, CommitPayload(b), CommitPayload(a));
  }

  // ----- what the log keeps -----

  /** The fields a record of this type keeps. */
  function KeptFields(entityType: string): set<string> {
    match entityType
    case "Document" =>
      {"type", "name", "classification", "original_url", "file_name", "content_type", "date_modified",
       "last_discussed_at", "is_referenced_by", "organization", "derived_content", "media_urls"}
    case "Person" => {"type", "name", "classification", "gender", "member_of", "organization", "party"}
    case "Party" => {"type", "name", "classification", "subOrganizationOf"}
    case "Committee" => {"type", "name", "classification", "description", "subOrganizationOf", "homepage", "email"}
    case "Recording" =>
      {"type", "name", "classification", "media_type", "meeting", "start_date", "duration_seconds", "platform",
       "player_url", "media_url", "stream_url", "content_type", "size_in_bytes", "transcript_language",
       "transcript_kind", "chapters", "speakers", "derived_content", "organization", "last_discussed_at"}
    case "Motion" =>
      {"type", "name", "classification", "motion_type", "status", "result", "date", "proposers", "co_proposers",
       "parties", "votes", "tally", "vote_summary", "meeting", "agenda_item", "agenda_item_hint", "attachment",
       "organization", "last_discussed_at"}
    case _ =>
      {"type", "name", "classification", "status", "location", "start_date", "end_date", "last_discussed_at",
       "organization", "committee", "parent", "agenda", "attachment", "source_url"}
  }

  function Only(fields: seq<Field>, keys: set<string>): seq<Field> {
    if fields == [] then []
    else (if fields[0].key in keys then [fields[0]] else []) + Only(fields[1..], keys)
  }

  /** The kept fields, unchanged. (The order they are stored in is that of the payload here.) */
  function Compact(fields: seq<Field>): Json {
    Obj(Only(fields, KeptFields(match FieldOf(fields, "type") case Some(Str(t)) => t case _ => "")))
  }

  /** The record recordCommit appends for an entity. */
  function CommitRecord(entity: seq<Field>, entityId: string, entityType: string, sourceKey: string, supplier: string,
                        time: int): Record
    requires FieldOf(entity, SOURCE_INFO).Some?
  {
    var payload := CommitPayload(entity);
    Record(0, Upsert, time, entityId, entityType, sourceKey, supplier, Some(Stringify(payload)),
           Some(Compact(payload.fields)), None, None)
  }

  lemma {:induction false} OnlyAre(fields: seq<Field>, keys: set<string>)
    ensures forall f :: f in Only(fields, keys) <==> f in fields && f.key in keys
    ensures DistinctKeys(fields) ==> DistinctKeys(Only(fields, keys))
  {
    if fields != [] {
      var rest := Only(fields[1..], keys);
      OnlyAre(fields[1..], keys);
      assert forall f :: f in fields <==> f == fields[0] || f in fields[1..];
      if DistinctKeys(fields) {
        forall j | 0 <= j < |rest| ensures rest[j].key != fields[0].key {
          assert rest[j] in rest && rest[j] in fields[1..];
        }
      }
    }
  }

  /** With distinct keys, a field is found exactly when it is there. */
  lemma FoundIff(fields: seq<Field>, f: Field)
    requires DistinctKeys(fields)
    ensures FieldOf(fields, f.key) == Some(f.value) <==> f in fields
  {
    if f in fields {
      FieldIsFound(fields, f);
      FieldOfIs(fields, f.key);
      OneOfAKey(fields, f, Field(f.key, FieldOf(fields, f.key).value));
    }
    if FieldOf(fields, f.key) == Some(f.value) { FieldOfIs(fields, f.key); }
  }

  lemma {:induction false} FieldIsFound(fields: seq<Field>, f: Field)
    requires f in fields
    ensures FieldOf(fields, f.key).Some?
  {
    if fields[0] != f { FieldIsFound(fields[1..], f); }
  }

  /** What is kept of a payload is a well-formed object whose fields are those of the payload. */
  lemma CompactKeeps(fields: seq<Field>, key: string)
    requires WellFormed(Obj(fields))
    ensures WellFormed(Compact(fields))
    ensures FieldOf(Compact(fields).fields, key).Some? ==> FieldOf(Compact(fields).fields, key) == FieldOf(fields, key)
  {
    var keys := KeptFields(match FieldOf(fields, "type") case Some(Str(t)) => t case _ => "");
    OnlyAre(fields, keys);
    var kept := Compact(fields).fields;
    if FieldOf(kept, key).Some? {
      var f := Field(key, FieldOf(kept, key).value);
      FieldOfIs(kept, key);
      FoundIff(fields, f);
    }
  }

  // ----- what a record still says -----

  /** The fields the readers of the log go by, by type of entity. */
  predicate Needed(entityType: string, key: string) {
    || key in {"type", "name", "classification"}
    || (entityType in {"Meeting", "Motion", "Document", "Recording"} && key in {"organization", "last_discussed_at"})
    || (entityType == "Meeting" && key in {"attachment", "agenda", "start_date", "end_date", "committee", "status"})
    || (entityType == "Motion" && key in {"attachment", "meeting", "agenda_item", "date", "status", "result", "votes"})
    || (entityType == "Document" && key in {"original_url", "file_name", "derived_content", "is_referenced_by"})
    || (entityType == "Recording" && key in {"meeting", "start_date", "derived_content", "chapters", "speakers"})
  }

  lemma NeededIsKept(entityType: string, key: string)
    ensures Needed(entityType, key) ==> key in KeptFields(entityType)
  {
    MeetingKeeps();
    MotionKeeps();
    DocumentKeeps();
    RecordingKeeps();
    AllKeep(entityType);
  }

  lemma MeetingKeeps()
    ensures {"organization", "last_discussed_at", "attachment", "agenda", "start_date", "end_date"}
         <= KeptFields("Meeting")
    ensures {"committee", "status"} <= KeptFields("Meeting")
  {
  }

  lemma MotionKeeps()
    ensures {"organization", "last_discussed_at", "attachment", "meeting", "agenda_item", "date"}
         <= KeptFields("Motion")
    ensures {"status", "result", "votes"} <= KeptFields("Motion")
  {
  }

  lemma DocumentKeeps()
    ensures {"organization", "last_discussed_at", "original_url", "file_name", "derived_content", "is_referenced_by"}
         <= KeptFields("Document")
  {
  }

  lemma RecordingKeeps()
    ensures {"organization", "last_discussed_at", "meeting", "start_date", "derived_content", "chapters", "speakers"}
         <= KeptFields("Recording")
  {
  }

  lemma AllKeep(entityType: string)
    ensures {"type", "name", "classification"} <= KeptFields(entityType)
  {
  }

  lemma TextsAreLeftOut()
    ensures "md_text" !in KeptFields("Document") && "page_chunks" !in KeptFields("Document")
    ensures "segments" !in KeptFields("Recording")
  {
  }

  /** The texts, which are stored apart, and what the source sent. */
  predicate Bulky(entityType: string, key: string) {
    || key == "raw" || (entityType == "Document" && key in {"md_text", "page_chunks"})
    || (entityType == "Recording" && key == "segments")
  }

  lemma FieldIsKept(fields: seq<Field>, key: string, keys: set<string>)
    requires DistinctKeys(fields)
    ensures FieldOf(Only(fields, keys), key) == if key in keys then FieldOf(fields, key) else None
  {
    OnlyAre(fields, keys);
    var kept := Only(fields, keys);
    if FieldOf(kept, key).Some? { FieldOfIs(kept, key); }
    if FieldOf(fields, key).Some? && key in keys {
      FieldOfIs(fields, key);
      FieldIsFound(kept, Field(key, FieldOf(fields, key).value));
    }
    if FieldOf(kept, key).Some? { FoundIff(fields, Field(key, FieldOf(kept, key).value)); }
  }

  lemma PayloadField(entity: seq<Field>, key: string)
    requires IsEntity(entity)
    ensures FieldOf(CommitPayload(entity).fields, key) == if key == "raw" then None else FieldOf(entity, key)
  {
    var p := CommitPayload(entity).fields;
    PayloadFields(entity);
    if FieldOf(p, key).Some? {
      FieldOfIs(p, key);
      FoundIff(entity, Field(key, FieldOf(p, key).value));
    }
    if FieldOf(entity, key).Some? && key != "raw" {
      FieldOfIs(entity, key);
      FieldIsFound(p, Field(key, FieldOf(entity, key).value));
    }
  }

  /** A committed entity's record holds every needed field as the entity has it, a meeting's and a
      motion's attachments and the times among them, and none of the bulky ones. */
  lemma RecordSays(entity: seq<Field>, id: string, kind: string, sourceKey: string, supplier: string, time: int,
                   key: string)
    requires IsEntity(entity) && FieldOf(entity, "type") == Some(Str(kind))
    ensures var r := CommitRecord(entity, id, kind, sourceKey, supplier, time);
      && r.op == Upsert && r.entityId == id && r.entityType == kind && r.sourceKey == sourceKey
      && r.supplier == supplier && r.time == time && r.reason == None && r.meetingId == None
      && r.contentHash == Some(Stringify(CommitPayload(entity))) && r.payload.Some? && r.payload.value.Obj?
      && (Needed(kind, key) ==> FieldOf(r.payload.value.fields, key) == FieldOf(entity, key))
      && (Bulky(kind, key) ==> FieldOf(r.payload.value.fields, key) == None)
  {
    RecordField(entity, id, kind, sourceKey, supplier, time, key);
    NeededAndBulky(kind, key);
  }

  lemma NeededAndBulky(kind: string, key: string)
    ensures Needed(kind, key) ==> key in KeptFields(kind) && key != "raw"
    ensures Bulky(kind, key) ==> key !in KeptFields(kind) || key == "raw"
  {
    if Needed(kind, key) {
      NeededIsKept(kind, key);
      NeededIsNotRaw(kind, key);
    }
    if Bulky(kind, key) { TextsAreLeftOut(); }
  }

  lemma NeededIsNotRaw(entityType: string, key: string)
    requires Needed(entityType, key)
    ensures key != "raw"
  {
  }

  /** Which fields of the entity its record holds. */
  lemma RecordField(entity: seq<Field>, id: string, kind: string, sourceKey: string, supplier: string, time: int,
                    key: string)
    requires IsEntity(entity) && FieldOf(entity, "type") == Some(Str(kind))
    ensures var r := CommitRecord(entity, id, kind, sourceKey, supplier, time);
      && r.payload.Some? && r.payload.value.Obj?
      && FieldOf(r.payload.value.fields, key)
           == if key in KeptFields(kind) && key != "raw" then FieldOf(entity, key) else None
  {
    var payload := CommitPayload(entity).fields;
    PayloadFields(entity);
    TypeIsKept(entity);
    PayloadField(entity, key);
    FieldIsKept(payload, key, KeptFields(kind));
  }

  lemma TypeIsKept(entity: seq<Field>)
    requires IsEntity(entity)
    ensures FieldOf(CommitPayload(entity).fields, "type") == FieldOf(entity, "type")
  {
    PayloadField(entity, "type");
  }

  lemma AttachmentsAreKept(entity: seq<Field>, id: string, kind: string, sourceKey: string, supplier: string, time: int)
    requires IsEntity(entity) && FieldOf(entity, "type") == Some(Str(kind)) && kind in {"Meeting", "Motion"}
    ensures AttachmentIds(CommitRecord(entity, id, kind, sourceKey, supplier, time).payload)
        == AttachmentIds(Some(Obj(entity)))
  {
    RecordSays(entity, id, kind, sourceKey, supplier, time, "attachment");
  }
}
