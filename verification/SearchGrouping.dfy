/** Collapsing index rows into results (web/search_api.ts): the newest row of each entity, then one
    representative per result. */
module SearchGrouping {
  import opened Basics

  /** An index row with its snippet, as far as collapsing looks at them; a missing string is "". */
  datatype Hit = Hit(
    entityId: string, entityType: string, parent: Option<string>, time: string, isDelete: bool,
    pageNumber: Option<nat>, contentSnippet: Option<string>, nameSnippet: Option<string>, sortDate: string)

  const NO_PAGE: nat := 9_007_199_254_740_991

  /** A JavaScript Map keyed by string: its keys in insertion order, and its entries. */
  datatype Table = Table(keys: seq<string>, entries: map<string, Hit>)

  const EMPTY_TABLE := Table([], map[])

  ghost predicate ProperTable(t: Table) {
    && (forall i, j | 0 <= i < j < |t.keys| :: t.keys[i] != t.keys[j])
    && (forall k :: k in t.keys <==> k in t.entries)
  }

  function Set(t: Table, k: string, h: Hit): Table {
    Table(if k in t.entries then t.keys else t.keys + [k], t.entries[k := h])
  }

  function Values(t: Table): (vs: seq<Hit>)
    requires ProperTable(t)
    ensures |vs| == |t.keys| && forall i | 0 <= i < |vs| :: vs[i] == t.entries[t.keys[i]]
  {
    assert forall i | 0 <= i < |t.keys| :: t.keys[i] in t.keys;
    seq(|t.keys|, i requires 0 <= i < |t.keys| => t.entries[t.keys[i]])
  }

  function ResultId(h: Hit): string {
    if h.entityType == "DocumentPage" || h.entityType == "Recording" then
      if h.parent.Some? then h.parent.value else h.entityId
    else h.entityId
  }

  // ----- which rows are one result -----

  /** A page or a recording that names what it belongs to. */
  predicate Part(h: Hit) { (h.entityType == "DocumentPage" || h.entityType == "Recording") && h.parent.Some? }

  /** Two rows are one result: parts of one thing, a part and that thing, or one and the same entity. */
  predicate Together(a: Hit, b: Hit) {
    if Part(a) && Part(b) then a.parent == b.parent
    else if Part(a) then a.parent == Some(b.entityId)
    else if Part(b) then b.parent == Some(a.entityId)
    else a.entityId == b.entityId
  }

  /** The row has something to open. */
  predicate Opens(h: Hit) { if Part(h) then h.parent.value != "" else h.entityId != "" }

  lemma TogetherIff(a: Hit, b: Hit)
    ensures Together(a, b) <==> ResultId(a) == ResultId(b)
    ensures Opens(a) <==> ResultId(a) != ""
  {
  }

  // ----- the newest row of each entity -----

  /** `rows[i]` is the latest row of its entity, the first of them on ties. */
  ghost predicate Newest(rows: seq<Hit>, id: string, i: int) {
    && 0 <= i < |rows| && rows[i].entityId == id
    && forall j | 0 <= j < |rows| && rows[j].entityId == id ::
         if j < i then Less(rows[j].time, rows[i].time) else !Less(rows[i].time, rows[j].time)
  }

  /** First occurrences, in order, of the non-empty keys of a list. */
  function Firsts(keys: seq<string>): seq<string> {
    if keys == [] then []
    else
      var p, last := Firsts(keys[..|keys| - 1]), keys[|keys| - 1];
      if last == "" || last in p then p else p + [last]
  }

  function EntityIds(rows: seq<Hit>): (r: seq<string>)
    ensures |r| == |rows|
  {
    seq(|rows|, i requires 0 <= i < |rows| => rows[i].entityId)
  }

  function ResultIds(rows: seq<Hit>): (r: seq<string>)
    ensures |r| == |rows|
  {
    seq(|rows|, i requires 0 <= i < |rows| => ResultId(rows[i]))
  }

  lemma FirstsStep(keys: seq<string>, k: string)
    ensures Firsts(keys + [k]) == if k == "" || k in Firsts(keys) then Firsts(keys) else Firsts(keys) + [k]
  {
    assert (keys + [k])[..|keys + [k]| - 1] == keys;
  }

  lemma {:induction false} FirstsHave(keys: seq<string>)
    ensures forall k :: k in Firsts(keys) <==> k in keys && k != ""
    ensures forall i, j | 0 <= i < j < |Firsts(keys)| :: Firsts(keys)[i] != Firsts(keys)[j]
    ensures |Firsts(keys)| <= |keys|
  {
    if keys != [] {
      var p := keys[..|keys| - 1];
      FirstsHave(p);
      assert keys == p + [keys[|keys| - 1]];
    }
  }

  /** What the dedupe map holds after these rows. */
  ghost predicate HoldsNewest(t: Table, rows: seq<Hit>) {
    && ProperTable(t) && t.keys == Firsts(EntityIds(rows))
    && forall id | id in t.entries :: exists i :: Newest(rows, id, i) && t.entries[id] == rows[i]
  }

  lemma NewestOneMore(rows: seq<Hit>, h: Hit, id: string, i: nat)
    requires Newest(rows, id, i)
    ensures h.entityId != id || !Less(rows[i].time, h.time) ==> Newest(rows + [h], id, i)
    ensures h.entityId == id && Less(rows[i].time, h.time) ==> Newest(rows + [h], id, |rows|)
  {
    var t := rows + [h];
    assert forall j | 0 <= j < |rows| :: t[j] == rows[j];
    if h.entityId == id && Less(rows[i].time, h.time) {
      forall j | 0 <= j < |rows| && rows[j].entityId == id ensures Less(t[j].time, h.time) {
        LessTotal(rows[i].time, rows[j].time);
        if j != i && rows[j].time != rows[i].time { LessTransitive(rows[j].time, rows[i].time, h.time); }
      }
      LessTotal(h.time, h.time);
    }
  }

  lemma FirstRowIsNewest(rows: seq<Hit>, h: Hit)
    requires forall j | 0 <= j < |rows| :: rows[j].entityId != h.entityId
    ensures Newest(rows + [h], h.entityId, |rows|)
  {
    LessTotal(h.time, h.time);
  }

  function TakeNewest(t: Table, h: Hit): Table {
    if h.entityId == "" then t
    else if h.entityId !in t.entries || Less(t.entries[h.entityId].time, h.time) then Set(t, h.entityId, h)
    else t
  }

  lemma NewestStep(t: Table, rows: seq<Hit>, h: Hit)
    requires HoldsNewest(t, rows)
    ensures HoldsNewest(TakeNewest(t, h), rows + [h])
  {
    var t' := TakeNewest(t, h);
    FirstsStep(EntityIds(rows), h.entityId);
    assert EntityIds(rows + [h]) == EntityIds(rows) + [h.entityId];
    FirstsHave(EntityIds(rows));
    forall id | id in t'.entries ensures exists i :: Newest(rows + [h], id, i) && t'.entries[id] == (rows + [h])[i] {
      EntryStep(t, rows, h, id);
    }
  }

  lemma EntryStep(t: Table, rows: seq<Hit>, h: Hit, id: string)
    requires HoldsNewest(t, rows) && id in TakeNewest(t, h).entries
    ensures exists i :: Newest(rows + [h], id, i) && TakeNewest(t, h).entries[id] == (rows + [h])[i]
  {
    var all := rows + [h];
    FirstsHave(EntityIds(rows));
    if id in t.entries {
      assert id in t.keys && id != "";
      var i :| Newest(rows, id, i) && t.entries[id] == rows[i];
      NewestOneMore(rows, h, id, i);
      var k := if h.entityId == id && Less(rows[i].time, h.time) then |rows| else i;
      assert Newest(all, id, k) && TakeNewest(t, h).entries[id] == all[k];
    } else {
      forall j | 0 <= j < |rows| ensures rows[j].entityId != id { assert EntityIds(rows)[j] in EntityIds(rows); }
      FirstRowIsNewest(rows, h);
      assert Newest(all, id, |rows|) && all[|rows|] == h;
    }
  }

  function WithoutDeletes(hits: seq<Hit>): seq<Hit> {
    if hits == [] then []
    else (if hits[0].isDelete then [] else [hits[0]]) + WithoutDeletes(hits[1..])
  }

  lemma {:induction false} WithoutDeletesAre(hits: seq<Hit>)
    ensures forall h :: h in WithoutDeletes(hits) <==> h in hits && !h.isDelete
    ensures (forall h | h in hits :: !h.isDelete) ==> WithoutDeletes(hits) == hits
  {
    if hits != [] {
      WithoutDeletesAre(hits[1..]);
      assert hits == [hits[0]] + hits[1..];
    }
  }

  /** dedupeLatestIndexedHits: an entity survives exactly when its latest row, the first of them on
      ties, is not a delete, and that row represents it. */
  method DedupeLatestIndexedHits(rows: seq<Hit>) returns (hits: seq<Hit>)
    ensures forall h :: h in hits <==>
        h.entityId != "" && !h.isDelete && exists i :: Newest(rows, h.entityId, i) && h == rows[i]
    ensures (forall h | h in rows :: !h.isDelete) ==> EntityIds(hits) == Firsts(EntityIds(rows))
  {
    var t := EMPTY_TABLE;
    var n := 0;
    while n < |rows|
      invariant n <= |rows| && HoldsNewest(t, rows[..n])
    {
      NewestStep(t, rows[..n], rows[n]);
      assert rows[..n] + [rows[n]] == rows[..n + 1];
      t := TakeNewest(t, rows[n]);
      n := n + 1;
    }
    assert rows[..n] == rows;
    hits := WithoutDeletes(Values(t));
    NewestValues(t, rows);
    WithoutDeletesAre(Values(t));
  }

  lemma NewestIsOne(rows: seq<Hit>, id: string, i: int, j: int)
    requires Newest(rows, id, i) && Newest(rows, id, j)
    ensures i == j
  {
  }

  lemma NewestValues(t: Table, rows: seq<Hit>)
    requires HoldsNewest(t, rows)
    ensures forall h :: h in Values(t) <==> h.entityId != "" && exists i :: Newest(rows, h.entityId, i) && h == rows[i]
    ensures (forall h | h in rows :: !h.isDelete) ==> forall h | h in Values(t) :: !h.isDelete
    ensures EntityIds(Values(t)) == Firsts(EntityIds(rows))
  {
    var vs := Values(t);
    FirstsHave(EntityIds(rows));
    forall k | 0 <= k < |vs|
      ensures vs[k].entityId == t.keys[k] && vs[k].entityId != ""
      ensures exists i :: Newest(rows, vs[k].entityId, i) && vs[k] == rows[i]
    {
      assert t.keys[k] in t.entries && t.keys[k] in t.keys;
    }
    forall h: Hit | h.entityId != "" && exists i :: Newest(rows, h.entityId, i) && h == rows[i] ensures h in vs {
      var i :| Newest(rows, h.entityId, i) && h == rows[i];
      assert EntityIds(rows)[i] == h.entityId && h.entityId in EntityIds(rows);
      assert h.entityId in t.keys && h.entityId in t.entries;
      var k :| 0 <= k < |t.keys| && t.keys[k] == h.entityId;
      var j :| Newest(rows, h.entityId, j) && t.entries[h.entityId] == rows[j];
      NewestIsOne(rows, h.entityId, i, j);
      assert vs[k] == h;
    }
  }

  // ----- one representative per result -----

  predicate IsRecording(h: Hit) { h.entityType == "Recording" }
  predicate IsPage(h: Hit) { h.entityType == "DocumentPage" }
  predicate NonEmpty(s: Option<string>) { s.Some? && s.value != "" }

  predicate HasSnippet(h: Hit) {
    if h.contentSnippet.Some? then NonEmpty(h.contentSnippet) else NonEmpty(h.nameSnippet)
  }

  function PageNumber(h: Hit): nat { if h.pageNumber.Some? then h.pageNumber.value else NO_PAGE }

  /** preferIndexedHit for an existing representative. */
  predicate Prefer(existing: Hit, candidate: Hit) {
    if IsRecording(existing) != IsRecording(candidate) then
      if NonEmpty(existing.contentSnippet) != NonEmpty(candidate.contentSnippet) then NonEmpty(candidate.contentSnippet)
      else IsRecording(candidate)
    else if existing.time != candidate.time then Less(existing.time, candidate.time)
    else if IsPage(existing) != IsPage(candidate) then IsPage(candidate)
    else if HasSnippet(existing) != HasSnippet(candidate) then HasSnippet(candidate)
    else PageNumber(candidate) < PageNumber(existing)
  }

  /** The content snippet has text; without one, the name snippet does. */
  predicate Telling(h: Hit) {
    match h.contentSnippet
    case Some(text) => text != ""
    case None => h.nameSnippet.Some? && h.nameSnippet.value != ""
  }

  /** A lower page number; no number counts as the largest integer. */
  predicate NoLaterPage(a: Hit, b: Hit) {
    (match a.pageNumber case Some(n) => n case None => 9_007_199_254_740_991)
    <= match b.pageNumber case Some(n) => n case None => 9_007_199_254_740_991
  }

  /** Later, then a page over its document, then with a snippet, then a lower page number. */
  predicate AtLeast(a: Hit, b: Hit) {
    var pageA, pageB := a.entityType == "DocumentPage", b.entityType == "DocumentPage";
    || Less(b.time, a.time)
    || (a.time == b.time && pageA && !pageB)
    || (a.time == b.time && pageA == pageB && Telling(a) && !Telling(b))
    || (a.time == b.time && pageA == pageB && Telling(a) == Telling(b) && NoLaterPage(a, b))
  }

  /** Between two recordings, or two rows neither of which is one. */
  lemma PreferIsNotAtLeast(a: Hit, b: Hit)
    requires a.entityType == "Recording" <==> b.entityType == "Recording"
    ensures Prefer(a, b) <==> !AtLeast(a, b)
    ensures AtLeast(a, b) || AtLeast(b, a)
  {
    LessTotal(a.time, b.time);
  }

  /** The representative of two rows that come one after the other. */
  function Of(first: Hit, second: Hit): Hit { if Prefer(first, second) then second else first }

  /** A recording and something else: the one whose content matched stands for the result, and the
      recording if both or neither did, whichever came first. */
  lemma MatchStands(recording: Hit, other: Hit)
    requires recording.entityType == "Recording" && other.entityType != "Recording"
    ensures Of(recording, other) == Of(other, recording)
    ensures Of(recording, other) ==
        if NonEmpty(other.contentSnippet) && !NonEmpty(recording.contentSnippet) then other else recording
  {
  }

  /** The representative of some rows of one result. */
  function Chosen(items: seq<Hit>): Hit
    requires items != []
  {
    if |items| == 1 then items[0] else Of(Chosen(items[..|items| - 1]), items[|items| - 1])
  }

  predicate Matched(h: Hit) { h.contentSnippet.Some? && h.contentSnippet.value != "" }

  /** All recordings of one meeting, in some order, with the meeting's own row somewhere among them. */
  ghost predicate OneMeeting(items: seq<Hit>, m: int) {
    0 <= m < |items| && !IsRecording(items[m]) && forall i | 0 <= i < |items| && i != m :: IsRecording(items[i])
  }

  /** If the meeting did not match, or every recording did, a recording stands for them; if the
      meeting did and no recording did, the meeting does. */
  lemma {:induction false} MeetingOrRecording(items: seq<Hit>, m: nat)
    requires OneMeeting(items, m) && |items| > 1
    ensures !Matched(items[m]) ==> IsRecording(Chosen(items))
    ensures (forall i | 0 <= i < |items| && i != m :: Matched(items[i])) ==> IsRecording(Chosen(items))
    ensures Matched(items[m]) && (forall i | 0 <= i < |items| && i != m :: !Matched(items[i])) ==>
        Chosen(items) == items[m]
  {
    var n := |items| - 1;
    var p := items[..n];
    assert forall i | 0 <= i < n :: p[i] == items[i];
    if m == n {
      ChosenIsOne(p);
      var k :| 0 <= k < |p| && p[k] == Chosen(p);
      assert items[k] == Chosen(p);
    } else if n > 1 {
      MeetingOrRecording(p, m);
    }
  }

  lemma {:induction false} ChosenIsOne(items: seq<Hit>)
    requires items != []
    ensures exists k :: 0 <= k < |items| && items[k] == Chosen(items)
  {
    if |items| == 1 {
      assert items[0] == Chosen(items);
    } else {
      var p := items[..|items| - 1];
      ChosenIsOne(p);
      var k :| 0 <= k < |p| && p[k] == Chosen(p);
      assert items[if Prefer(Chosen(p), items[|p|]) then |p| else k] == Chosen(items);
    }
  }

  /** Otherwise the order of the rows decides, and a row that did not match may stand for a result two
      of whose rows did: the meeting gives way to a recording that matched, and that to a later one. */
  lemma MatchesCanBeLost(m: Hit, a: Hit, b: Hit)
    requires !IsRecording(m) && IsRecording(a) && IsRecording(b) && Less(a.time, b.time)
    requires Matched(m) && Matched(a) && !Matched(b)
    ensures Chosen([m, a, b]) == b && Chosen([b, m, a]) == a && Chosen([a, b, m]) == m
  {
    LessTotal(a.time, b.time);
    OfThree(m, a, b);
    OfThree(b, m, a);
    OfThree(a, b, m);
  }

  lemma OfThree(x: Hit, y: Hit, z: Hit)
    ensures Chosen([x, y, z]) == Of(Of(x, y), z)
  {
    assert [x, y, z][..2] == [x, y] && [x, y][..1] == [x];
    assert Chosen([x, y]) == Of(x, y);
  }

  lemma AtLeastTransitive(a: Hit, b: Hit, c: Hit)
    requires AtLeast(a, b) && AtLeast(b, c)
    ensures AtLeast(a, c)
  {
    if Less(b.time, a.time) && Less(c.time, b.time) { LessTransitive(c.time, b.time, a.time); }
  }

  ghost predicate NoRecording(items: seq<Hit>, key: string) {
    forall i | 0 <= i < |items| && ResultId(items[i]) == key :: !IsRecording(items[i])
  }

  ghost predicate Best(items: seq<Hit>, h: Hit) {
    forall i | 0 <= i < |items| && ResultId(items[i]) == ResultId(h) :: AtLeast(h, items[i])
  }

  /** What the group map holds after these items. */
  ghost predicate HoldsBest(t: Table, items: seq<Hit>) {
    && ProperTable(t) && t.keys == Firsts(ResultIds(items))
    && forall k | k in t.entries :: RepresentedBy(items, k, t.entries[k])
  }

  ghost predicate RepresentedBy(items: seq<Hit>, key: string, h: Hit) {
    && h in items && ResultId(h) == key && (NoRecording(items, key) ==> Best(items, h))
    && OfResult(items, key) != [] && h == Chosen(OfResult(items, key))
  }

  /** The rows of one result, in order. */
  function OfResult(items: seq<Hit>, key: string): seq<Hit> {
    if items == [] then []
    else
      var last := items[|items| - 1];
      OfResult(items[..|items| - 1], key) + if ResultId(last) == key then [last] else []
  }

  lemma OfResultStep(items: seq<Hit>, h: Hit, key: string)
    ensures OfResult(items + [h], key)
        == if ResultId(h) == key then OfResult(items, key) + [h] else OfResult(items, key)
  {
    assert (items + [h])[..|items + [h]| - 1] == items;
  }

  lemma {:induction false} NoneOfResult(items: seq<Hit>, key: string)
    requires forall i | 0 <= i < |items| :: ResultId(items[i]) != key
    ensures OfResult(items, key) == []
  {
    if items != [] { NoneOfResult(items[..|items| - 1], key); }
  }

  lemma ChosenStep(rows: seq<Hit>, h: Hit)
    ensures Chosen(rows + [h]) == if rows == [] then h else Of(Chosen(rows), h)
  {
    assert (rows + [h])[..|rows + [h]| - 1] == rows;
  }

  function TakePreferred(t: Table, h: Hit): Table {
    var key := ResultId(h);
    if key == "" then t
    else if key !in t.entries || Prefer(t.entries[key], h) then Set(t, key, h)
    else t
  }

  lemma GroupStep(t: Table, items: seq<Hit>, h: Hit)
    requires HoldsBest(t, items)
    ensures HoldsBest(TakePreferred(t, h), items + [h])
  {
    FirstsStep(ResultIds(items), ResultId(h));
    assert ResultIds(items + [h]) == ResultIds(items) + [ResultId(h)];
    FirstsHave(ResultIds(items));
    var t' := TakePreferred(t, h);
    forall k | k in t'.entries ensures RepresentedBy(items + [h], k, t'.entries[k]) {
      assert k in t.entries ==> k in t.keys;
      RepresentStep(t, items, h, k);
    }
  }

  lemma RepresentStep(t: Table, items: seq<Hit>, h: Hit, k: string)
    requires HoldsBest(t, items) && k in TakePreferred(t, h).entries
    ensures RepresentedBy(items + [h], k, TakePreferred(t, h).entries[k])
  {
    FirstsHave(ResultIds(items));
    if k in t.entries {
      StillRepresented(items, t.entries[k], h, k);
    } else {
      forall j | 0 <= j < |items| ensures ResultId(items[j]) != k { assert ResultIds(items)[j] in ResultIds(items); }
      FirstRepresents(items, h, k);
    }
  }

  lemma FirstRepresents(items: seq<Hit>, h: Hit, k: string)
    requires ResultId(h) == k && forall j | 0 <= j < |items| :: ResultId(items[j]) != k
    ensures RepresentedBy(items + [h], k, h)
  {
    var all := items + [h];
    assert all[|items|] == h && forall j | 0 <= j < |items| :: all[j] == items[j];
    OfResultStep(items, h, k);
    NoneOfResult(items, k);
    ChosenStep([], h);
  }

  lemma StillRepresented(items: seq<Hit>, chosen: Hit, h: Hit, k: string)
    requires RepresentedBy(items, k, chosen)
    ensures RepresentedBy(items + [h], k, if ResultId(h) == k && Prefer(chosen, h) then h else chosen)
  {
    var all := items + [h];
    assert all[|items|] == h && forall j | 0 <= j < |items| :: all[j] == items[j];
    assert h in all;
    OfResultStep(items, h, k);
    ChosenStep(OfResult(items, k), h);
    if NoRecording(all, k) {
      assert NoRecording(items, k);
      BestStep(items, chosen, h, k);
    }
  }

  lemma BestStep(items: seq<Hit>, chosen: Hit, h: Hit, k: string)
    requires RepresentedBy(items, k, chosen) && NoRecording(items + [h], k)
    ensures ResultId(h) == k ==> Best(items + [h], if Prefer(chosen, h) then h else chosen)
    ensures ResultId(h) != k ==> Best(items + [h], chosen)
  {
    var all := items + [h];
    assert all[|items|] == h && forall j | 0 <= j < |items| :: all[j] == items[j];
    if ResultId(h) == k {
      assert !IsRecording(chosen);
      PreferIsNotAtLeast(chosen, h);
      forall j | 0 <= j < |items| && ResultId(items[j]) == k && Prefer(chosen, h) ensures AtLeast(h, items[j]) {
        AtLeastTransitive(h, chosen, items[j]);
      }
    }
  }

  /** groupIndexedHits: results in order of first appearance; the representative of one that holds no
      recording is at least as recent and as telling as every other of its rows. */
  method GroupIndexedHits(items: seq<Hit>) returns (groups: seq<Hit>)
    ensures ResultIds(groups) == Firsts(ResultIds(items))
    ensures forall g | g in groups :: RepresentedBy(items, ResultId(g), g)
    ensures Groups(items, groups)
  {
    var t := EMPTY_TABLE;
    var n := 0;
    while n < |items|
      invariant n <= |items| && HoldsBest(t, items[..n])
    {
      GroupStep(t, items[..n], items[n]);
      assert items[..n] + [items[n]] == items[..n + 1];
      t := TakePreferred(t, items[n]);
      n := n + 1;
    }
    assert items[..n] == items;
    groups := Values(t);
    GroupsAre(t, items);
  }

  lemma GroupsAre(t: Table, items: seq<Hit>)
    requires HoldsBest(t, items)
    ensures var groups := Values(t);
      && ResultIds(groups) == Firsts(ResultIds(items)) && Groups(items, groups)
      && forall g | g in groups :: RepresentedBy(items, ResultId(g), g)
  {
    GroupIs(t, items);
    OneGroupEach(items, Values(t));
  }

  lemma GroupIs(t: Table, items: seq<Hit>)
    requires HoldsBest(t, items)
    ensures ResultIds(Values(t)) == Firsts(ResultIds(items))
    ensures forall g | g in Values(t) :: g in items && RepresentedBy(items, ResultId(g), g)
  {
    var groups := Values(t);
    forall i | 0 <= i < |groups|
      ensures ResultId(groups[i]) == t.keys[i] && RepresentedBy(items, t.keys[i], groups[i])
    {
      assert t.keys[i] in t.keys;
    }
    assert ResultIds(groups) == t.keys;
  }

  /** No two groups are one result, and every row that opens something has a group with it. */
  ghost predicate Groups(items: seq<Hit>, groups: seq<Hit>) {
    && (forall i, j | 0 <= i < j < |groups| :: !Together(groups[i], groups[j]))
    && (forall g | g in groups :: g in items && Opens(g))
    && (forall h | h in items && Opens(h) :: exists g | g in groups :: Together(g, h))
  }

  lemma OneGroupEach(items: seq<Hit>, groups: seq<Hit>)
    requires ResultIds(groups) == Firsts(ResultIds(items)) && forall g | g in groups :: g in items
    ensures Groups(items, groups)
  {
    FirstsHave(ResultIds(items));
    forall i, j | 0 <= i < j < |groups| ensures !Together(groups[i], groups[j]) {
      TogetherIff(groups[i], groups[j]);
      assert ResultIds(groups)[i] != ResultIds(groups)[j];
    }
    forall g | g in groups ensures Opens(g) {
      var i :| 0 <= i < |groups| && groups[i] == g;
      assert ResultIds(groups)[i] in Firsts(ResultIds(items));
      TogetherIff(g, g);
    }
    forall h | h in items && Opens(h) ensures exists g | g in groups :: Together(g, h) {
      TogetherIff(h, h);
      var k :| 0 <= k < |items| && items[k] == h;
      assert ResultIds(items)[k] == ResultId(h) && ResultId(h) in ResultIds(groups);
      var i :| 0 <= i < |groups| && ResultIds(groups)[i] == ResultId(h);
      TogetherIff(groups[i], h);
    }
  }
}
