/** Which objects retracting documents takes away (src/ops/delete_document.ts), against the keys under
    which they are stored (src/documents/process.ts, src/documents/thumbnails.ts). */
module DocumentStorage {
  import opened Basics
  import opened DeleteDocument

  // ----- what is stored for a document -----

  /** Where the files of a document are, under the native id of its source or under its own. */
  function Folder(p: Parsed, id: string): string {
    "documents" + "/" + (p.supplier + "/" + (p.organizationType + "/" + (p.sourceKey + "/" + (id + "/"))))
  }

  predicate StoredFor(p: Parsed, key: string) {
    || Folder(p, p.nativeId) <= key || Folder(p, p.entityId) <= key
    || "pdf-pages-v4" + "/" + (p.entityId + "/") <= key || "pdf-pages-v2" + "/" + (p.entityId + "/") <= key
  }

  // ----- what calls do to the objects stored -----

  ghost predicate Attempted(events: seq<Event>, key: string) {
    exists i :: 0 <= i < |events| && events[i].step.EmptyStorage? && events[i].step.prefix <= key
  }

  ghost predicate Emptied(events: seq<Event>, key: string) {
    exists i :: 0 <= i < |events| && events[i].ok && events[i].step.EmptyStorage? && events[i].step.prefix <= key
  }

  /** Deleting by prefix takes the keys under it; a call that failed may have taken some of them. */
  ghost predicate Leaves(events: seq<Event>, keys: set<string>, left: set<string>) {
    && left <= keys
    && (forall key | key in keys && !Attempted(events, key) :: key in left)
    && (forall key | key in left :: !Emptied(events, key))
  }

  lemma PrefixesAre(p: Parsed, key: string)
    ensures StoredFor(p, key) <==> exists k :: 0 <= k < 4 && StoragePrefixes(p)[k] <= key
  {
    FolderIs(p, p.nativeId);
    FolderIs(p, p.entityId);
    PagesAre("pdf-pages-v4", p.entityId);
    PagesAre("pdf-pages-v2", p.entityId);
    var q := StoragePrefixes(p);
    assert q[0] == Folder(p, p.nativeId) && q[1] == Folder(p, p.entityId);
    assert q[2] == "pdf-pages-v4" + "/" + (p.entityId + "/") && q[3] == "pdf-pages-v2" + "/" + (p.entityId + "/");
  }

  lemma FolderIs(p: Parsed, id: string)
    ensures "documents/" + p.supplier + "/" + p.organizationType + "/" + p.sourceKey + "/" + id + "/" == Folder(p, id)
  {
    var k := p.sourceKey + "/" + (id + "/");
    assert p.sourceKey + "/" + id + "/" == k;
    var o := p.organizationType + "/" + k;
    assert p.organizationType + "/" + p.sourceKey + "/" + id + "/" == o;
    assert p.supplier + "/" + p.organizationType + "/" + p.sourceKey + "/" + id + "/" == p.supplier + "/" + o;
    assert "documents/" == "documents" + "/";
  }

  lemma PagesAre(root: string, id: string)
    ensures root + "/" + id + "/" == root + "/" + (id + "/")
  {
  }

  /** Only keys stored for the document itself are ever asked to be deleted, and when the outcome is
      `deleted` all of them were. */
  lemma OnlyItsOwnKeys(x: Entry, scene: Scene, events: seq<Event>, o: Outcome, i: nat, p: Parsed, key: string)
    requires RanEntry(x, scene, events, o, i) && ParseDocumentEntityId(x.entityId) == Some(p)
    ensures Attempted(events, key) ==> StoredFor(p, key)
    ensures o.reached.Deleted? && StoredFor(p, key) ==> Emptied(events, key)
  {
    var pages, time := scene.pages(x.entityId), scene.time(i);
    var n :| RanTo(Steps(p, x.meetingId, pages, time), events, o, n);
    RanSteps(p, x.meetingId, pages, time, events, o, n);
    StepsAre(p, x.meetingId, pages, time);
    PrefixesAre(p, key);
    if j :| 0 <= j < |events| && events[j].step.EmptyStorage? && events[j].step.prefix <= key {
      assert StoragePrefixes(p)[j - 3] <= key;
    }
    if o.reached.Deleted? && StoredFor(p, key) {
      var k :| 0 <= k < 4 && StoragePrefixes(p)[k] <= key;
      assert events[3 + k] == Event(EmptyStorage(StoragePrefixes(p)[k]), true);
    }
  }

  lemma NotADocument(x: Entry, scene: Scene, events: seq<Event>, o: Outcome, i: nat, key: string)
    requires RanEntry(x, scene, events, o, i) && ParseDocumentEntityId(x.entityId).None?
    ensures !Attempted(events, key) && !o.reached.Deleted?
  {
  }

  /** Retracting a document leaves every key that is not stored for it, and none that is once the
      outcome is `deleted`. */
  lemma RetractionTakesItsOwn(x: Entry, scene: Scene, events: seq<Event>, o: Outcome, i: nat, p: Parsed,
                              keys: set<string>, left: set<string>)
    requires RanEntry(x, scene, events, o, i) && ParseDocumentEntityId(x.entityId) == Some(p)
    requires Leaves(events, keys, left)
    ensures forall key | key in keys && !StoredFor(p, key) :: key in left
    ensures o.reached.Deleted? ==> forall key | key in left :: !StoredFor(p, key)
  {
    forall key ensures (Attempted(events, key) ==> StoredFor(p, key))
                    && (o.reached.Deleted? && StoredFor(p, key) ==> Emptied(events, key))
    {
      OnlyItsOwnKeys(x, scene, events, o, i, p, key);
    }
  }

  // ----- when the keys of two documents overlap -----

  /** Some key could be stored for either. */
  ghost predicate Overlap(p: Parsed, q: Parsed) { exists key :: StoredFor(p, key) && StoredFor(q, key) }

  predicate SlashFree(part: string) { '/' !in part }

  /** The same name, or one of them a folder inside the other. */
  predicate Nested(x: string, y: string) { x + "/" <= y + "/" || y + "/" <= x + "/" }

  predicate SameHome(p: Parsed, q: Parsed) {
    p.supplier == q.supplier && p.organizationType == q.organizationType && p.sourceKey == q.sourceKey
  }

  predicate Orderly(p: Parsed) {
    ProperParts(p) && p.entityId == IdText(p)
    && SlashFree(p.supplier) && SlashFree(p.organizationType) && SlashFree(p.sourceKey)
  }

  /** One is a front piece of the other. */
  predicate Comparable(a: string, b: string) { a <= b || b <= a }

  lemma CommonKey(a: string, b: string, key: string)
    requires a <= key && b <= key
    ensures Comparable(a, b)
  {
    if |a| <= |b| { assert b[..|a|] == key[..|a|] == a; } else { assert a[..|b|] == key[..|b|] == b; }
  }

  lemma {:induction false} FirstPartDecides(a: string, b: string, sep: char, u: string, v: string)
    requires sep !in a && sep !in b
    ensures Comparable(a + [sep] + u, b + [sep] + v) <==> a == b && Comparable(u, v)
  {
    var s, t := a + [sep] + u, b + [sep] + v;
    if a == "" || b == "" {
      if a == "" && b == "" {
        FrontDropped(s, t);
        assert s[1..] == u && t[1..] == v;
      } else {
        assert s[0] != t[0];
      }
    } else if a[0] == b[0] {
      FirstPartDecides(a[1..], b[1..], sep, u, v);
      FrontDropped(s, t);
      assert s[1..] == a[1..] + [sep] + u && t[1..] == b[1..] + [sep] + v;
      assert a == [a[0]] + a[1..] && b == [b[0]] + b[1..];
    } else {
      assert s[0] != t[0];
    }
  }

  lemma FrontDropped(s: string, t: string)
    requires s != "" && t != "" && s[0] == t[0]
    ensures Comparable(s, t) <==> Comparable(s[1..], t[1..])
  {
    assert s == [s[0]] + s[1..] && t == [t[0]] + t[1..];
  }

  lemma FoldersComparable(p: Parsed, x: string, q: Parsed, y: string)
    requires Orderly(p) && Orderly(q)
    ensures Comparable(Folder(p, x), Folder(q, y)) <==> SameHome(p, q) && Nested(x, y)
  {
    var k, k' := p.sourceKey + "/" + (x + "/"), q.sourceKey + "/" + (y + "/");
    var o, o' := p.organizationType + "/" + k, q.organizationType + "/" + k';
    var s, s' := p.supplier + "/" + o, q.supplier + "/" + o';
    FirstPartDecides("documents", "documents", '/', s, s');
    FirstPartDecides(p.supplier, q.supplier, '/', o, o');
    FirstPartDecides(p.organizationType, q.organizationType, '/', k, k');
    FirstPartDecides(p.sourceKey, q.sourceKey, '/', x + "/", y + "/");
  }

  /** Ids are nested when they are of one source and their native ids are. */
  lemma IdsNested(p: Parsed, q: Parsed)
    requires Orderly(p) && Orderly(q)
    ensures Nested(p.entityId, q.entityId) <==> SameHome(p, q) && Nested(p.nativeId, q.nativeId)
  {
    var n, n' := p.nativeId + "/", q.nativeId + "/";
    var k, k' := p.sourceKey + ":" + n, q.sourceKey + ":" + n';
    var o, o' := p.organizationType + ":" + k, q.organizationType + ":" + k';
    var s, s' := p.supplier + ":" + o, q.supplier + ":" + o';
    IdWithSlash(p);
    IdWithSlash(q);
    FirstPartDecides("document", "document", ':', s, s');
    FirstPartDecides(p.supplier, q.supplier, ':', o, o');
    FirstPartDecides(p.organizationType, q.organizationType, ':', k, k');
    FirstPartDecides(p.sourceKey, q.sourceKey, ':', n, n');
  }

  lemma IdWithSlash(p: Parsed)
    requires p.entityId == IdText(p)
    ensures p.entityId + "/" ==
        "document" + ":" + (p.supplier + ":" + (p.organizationType + ":" + (p.sourceKey + ":" + (p.nativeId + "/"))))
  {
    var k := p.sourceKey + ":" + p.nativeId;
    assert k + "/" == p.sourceKey + ":" + (p.nativeId + "/");
    var o := p.organizationType + ":" + k;
    assert o + "/" == p.organizationType + ":" + (k + "/");
    var s := p.supplier + ":" + o;
    assert s + "/" == p.supplier + ":" + (o + "/");
  }

  lemma PagesComparable(p: Parsed, q: Parsed)
    requires Orderly(p) && Orderly(q)
    ensures Comparable("pdf-pages-v4" + "/" + (p.entityId + "/"), "pdf-pages-v4" + "/" + (q.entityId + "/"))
        <==> SameHome(p, q) && Nested(p.nativeId, q.nativeId)
    ensures Comparable("pdf-pages-v2" + "/" + (p.entityId + "/"), "pdf-pages-v2" + "/" + (q.entityId + "/"))
        <==> SameHome(p, q) && Nested(p.nativeId, q.nativeId)
    ensures !Comparable("pdf-pages-v4" + "/" + (p.entityId + "/"), "pdf-pages-v2" + "/" + (q.entityId + "/"))
  {
    IdsNested(p, q);
    FirstPartDecides("pdf-pages-v4", "pdf-pages-v4", '/', p.entityId + "/", q.entityId + "/");
    FirstPartDecides("pdf-pages-v2", "pdf-pages-v2", '/', p.entityId + "/", q.entityId + "/");
    assert "pdf-pages-v4"[11] != "pdf-pages-v2"[11];
    FirstPartDecides("pdf-pages-v4", "pdf-pages-v2", '/', p.entityId + "/", q.entityId + "/");
  }

  lemma PagesApart(p: Parsed, x: string, version: string, q: Parsed)
    requires version == "pdf-pages-v4" || version == "pdf-pages-v2"
    ensures !Comparable(Folder(p, x), version + "/" + (q.entityId + "/"))
  {
    assert Folder(p, x)[0] == 'd' && (version + "/" + (q.entityId + "/"))[0] == 'p';
  }

  /** The ids under which files of both can be are nested. */
  predicate FoldersMeet(p: Parsed, q: Parsed) {
    || Nested(p.nativeId, q.nativeId) || Nested(p.nativeId, q.entityId)
    || Nested(p.entityId, q.nativeId) || Nested(p.entityId, q.entityId)
  }

  /** A key stored for one document can be lost with another exactly when both are of one source and
      the native or full id of the one is that of the other, or a folder within it. */
  lemma OverlapIff(p: Parsed, q: Parsed)
    requires Orderly(p) && Orderly(q)
    ensures Overlap(p, q) <==> SameHome(p, q) && FoldersMeet(p, q)
  {
    FoldersComparable(p, p.nativeId, q, q.nativeId);
    FoldersComparable(p, p.nativeId, q, q.entityId);
    FoldersComparable(p, p.entityId, q, q.nativeId);
    FoldersComparable(p, p.entityId, q, q.entityId);
    if key :| StoredFor(p, key) && StoredFor(q, key) { SharedKey(p, q, key); }
    if SameHome(p, q) && FoldersMeet(p, q) { MeetingFolders(p, q); }
  }

  lemma MeetingFolders(p: Parsed, q: Parsed)
    requires exists x, y | x in {p.nativeId, p.entityId} && y in {q.nativeId, q.entityId} ::
               Comparable(Folder(p, x), Folder(q, y))
    ensures Overlap(p, q)
  {
    var x, y :| x in {p.nativeId, p.entityId} && y in {q.nativeId, q.entityId}
                && Comparable(Folder(p, x), Folder(q, y));
    var key := if Folder(p, x) <= Folder(q, y) then Folder(q, y) else Folder(p, x);
    assert StoredFor(p, key) && StoredFor(q, key);
  }

  /** The four places, files first. */
  function PlaceAt(p: Parsed, k: nat): string
    requires k < 4
  {
    if k == 0 then Folder(p, p.nativeId)
    else if k == 1 then Folder(p, p.entityId)
    else if k == 2 then "pdf-pages-v4" + "/" + (p.entityId + "/")
    else "pdf-pages-v2" + "/" + (p.entityId + "/")
  }

  lemma PlacesMeet(p: Parsed, i: nat, q: Parsed, j: nat)
    requires Orderly(p) && Orderly(q) && i < 4 && j < 4
    ensures Comparable(PlaceAt(p, i), PlaceAt(q, j)) ==> SameHome(p, q) && FoldersMeet(p, q)
  {
    if i < 2 && j < 2 {
      FoldersComparable(p, if i == 0 then p.nativeId else p.entityId, q, if j == 0 then q.nativeId else q.entityId);
    } else if i >= 2 && j >= 2 {
      PagesComparable(p, q);
      PagesComparable(q, p);
    } else if i < 2 {
      PagesApart(p, if i == 0 then p.nativeId else p.entityId, if j == 2 then "pdf-pages-v4" else "pdf-pages-v2", q);
    } else {
      PagesApart(q, if j == 0 then q.nativeId else q.entityId, if i == 2 then "pdf-pages-v4" else "pdf-pages-v2", p);
    }
  }

  lemma PlaceOf(p: Parsed, key: string) returns (k: nat)
    requires StoredFor(p, key)
    ensures k < 4 && PlaceAt(p, k) <= key
  {
    k := if Folder(p, p.nativeId) <= key then 0 else if Folder(p, p.entityId) <= key then 1
         else if "pdf-pages-v4" + "/" + (p.entityId + "/") <= key then 2 else 3;
  }

  lemma SharedKey(p: Parsed, q: Parsed, key: string)
    requires Orderly(p) && Orderly(q) && StoredFor(p, key) && StoredFor(q, key)
    ensures SameHome(p, q) && FoldersMeet(p, q)
  {
    var i := PlaceOf(p, key);
    var j := PlaceOf(q, key);
    CommonKey(PlaceAt(p, i), PlaceAt(q, j), key);
    PlacesMeet(p, i, q, j);
  }

  lemma {:induction false} SlashEnds(x: string, y: string)
    requires SlashFree(x) && SlashFree(y)
    ensures Nested(x, y) <==> x == y
  {
    FirstPartDecides(x, y, '/', "", "");
    assert x + "/" + "" == x + "/" && y + "/" + "" == y + "/";
  }

  /** With native ids that hold no slash, two different documents share a key exactly when they are of
      one source and the native id of one is the full id of the other. */
  lemma OverlapOfDifferent(p: Parsed, q: Parsed)
    requires Orderly(p) && Orderly(q) && SlashFree(p.nativeId) && SlashFree(q.nativeId) && p.entityId != q.entityId
    ensures Overlap(p, q) <==> SameHome(p, q) && (p.nativeId == q.entityId || p.entityId == q.nativeId)
  {
    OverlapIff(p, q);
    NoSlashInId(p);
    NoSlashInId(q);
    SlashEnds(p.nativeId, q.nativeId);
    SlashEnds(p.nativeId, q.entityId);
    SlashEnds(p.entityId, q.nativeId);
    SlashEnds(p.entityId, q.entityId);
  }

  lemma NoSlashInId(p: Parsed)
    requires Orderly(p) && SlashFree(p.nativeId)
    ensures SlashFree(p.entityId)
  {
    var k := p.sourceKey + ":" + p.nativeId;
    var o := p.organizationType + ":" + k;
    var s := p.supplier + ":" + o;
    assert SlashFree(k);
    assert SlashFree(o);
    assert SlashFree(s);
    assert SlashFree("document" + ":");
  }

  /** A native id with a slash: the files of document `7/1` go with those of document `7`. */
  lemma SlashSpills(p: Parsed, q: Parsed, rest: string, key: string)
    requires Orderly(p) && Orderly(q) && SameHome(p, q) && q.nativeId == p.nativeId + "/" + rest
    ensures Overlap(p, q) && (Folder(q, q.nativeId) <= key ==> StoredFor(p, key))
  {
    assert q.nativeId + "/" == p.nativeId + "/" + (rest + "/");
    assert Nested(p.nativeId, q.nativeId);
    OverlapIff(p, q);
    var k := p.sourceKey + "/" + (p.nativeId + "/");
    assert q.sourceKey + "/" + (q.nativeId + "/") == k + (rest + "/");
    var o := p.organizationType + "/" + k;
    assert q.organizationType + "/" + (k + (rest + "/")) == o + (rest + "/");
    var s := p.supplier + "/" + o;
    assert q.supplier + "/" + (o + (rest + "/")) == s + (rest + "/");
    assert Folder(q, q.nativeId) == Folder(p, p.nativeId) + (rest + "/");
    if Folder(q, q.nativeId) <= key { FrontOfFront(Folder(p, p.nativeId), rest + "/", key); }
  }

  lemma FrontOfFront(a: string, b: string, key: string)
    requires a + b <= key
    ensures a <= key
  {
    assert key[..|a|] == (a + b)[..|a|] == a;
  }

  // ----- a whole call -----

  /** The entry's calls left these objects of those. */
  ghost predicate LeavesEach(runs: seq<seq<Event>>, stored: seq<set<string>>) {
    |stored| == |runs| + 1 && forall i | 0 <= i < |runs| :: Leaves(runs[i], stored[i], stored[i + 1])
  }

  /** Of a document that overlaps with none retracted every object is left; of one whose outcome is
      `deleted` none is. */
  lemma {:induction false} OthersKeepTheirFiles(entries: seq<Entry>, scene: Scene, runs: seq<seq<Event>>,
                                                outcomes: seq<Outcome>, stored: seq<set<string>>, key: string)
    requires |entries| == |runs| == |outcomes| && LeavesEach(runs, stored)
    requires forall i | 0 <= i < |entries| :: RanEntry(entries[i], scene, runs[i], outcomes[i], i)
    ensures key in stored[|runs|] ==> key in stored[0]
    ensures key in stored[0] && (forall i | 0 <= i < |entries| :: !IsFor(entries[i], key)) ==> key in stored[|runs|]
    ensures forall i | 0 <= i < |entries| && IsFor(entries[i], key) && outcomes[i].reached.Deleted? ::
              key !in stored[|runs|]
    decreases |entries|
  {
    if entries != [] {
      var n := |entries| - 1;
      assert LeavesEach(runs[..n], stored[..n + 1]) by {
        forall i | 0 <= i < n ensures Leaves(runs[..n][i], stored[..n + 1][i], stored[..n + 1][i + 1]) {
          assert Leaves(runs[i], stored[i], stored[i + 1]);
        }
      }
      OthersKeepTheirFiles(entries[..n], scene, runs[..n], outcomes[..n], stored[..n + 1], key);
      OneEntry(entries[n], scene, runs[n], outcomes[n], n, stored[n], stored[n + 1], key);
    }
  }

  /** The key is one under which the entry's document is stored. */
  ghost predicate IsFor(x: Entry, key: string) {
    ParseDocumentEntityId(x.entityId).Some? && StoredFor(ParseDocumentEntityId(x.entityId).value, key)
  }

  lemma OneEntry(x: Entry, scene: Scene, events: seq<Event>, o: Outcome, i: nat, keys: set<string>, left: set<string>,
                 key: string)
    requires RanEntry(x, scene, events, o, i) && Leaves(events, keys, left)
    ensures key in left ==> key in keys
    ensures key in keys && !IsFor(x, key) ==> key in left
    ensures IsFor(x, key) && o.reached.Deleted? ==> key !in left
  {
    match ParseDocumentEntityId(x.entityId)
    case Some(p) => RetractionTakesItsOwn(x, scene, events, o, i, p, keys, left);
    case None => NotADocument(x, scene, events, o, i, key);
  }
}
