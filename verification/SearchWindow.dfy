/** collectSearchWindow (web/search_api.ts): scanning index rows in batches whose size follows the
    ratio of rows to results seen so far, until a page of results is full. */
module SearchWindow {
  import opened Basics
  import opened SearchGrouping

  const INITIAL_ROWS_PER_RESULT: real := 8.0
  const INITIAL_BROWSE_ROWS_PER_RESULT: real := 2.0
  const MIN_SCAN_BATCH_ROWS: nat := 32
  const SCAN_BATCH_ROWS: nat := 500
  const MAX_SCAN_ROWS: nat := 6000

  datatype Sort = Relevance | DateAscending | DateDescending

  /** `results` as the hits that stand for them. */
  datatype Window = Window(results: seq<Hit>, totalCount: nat, totalIsApproximate: bool, hasMore: bool)

  /** The result a row belongs to; rows without an entity id are skipped. */
  function Key(h: Hit): string { if h.entityId == "" then "" else ResultId(h) }

  function Keys(rows: seq<Hit>): (r: seq<string>)
    ensures |r| == |rows|
  {
    seq(|rows|, i requires 0 <= i < |rows| => Key(rows[i]))
  }

  /** The distinct result ids of some rows, in order of first appearance. */
  function Results(rows: seq<Hit>): seq<string> { Firsts(Keys(rows)) }

  function Slice<T>(s: seq<T>, offset: nat, limit: nat): seq<T> {
    s[Min(offset, |s|)..Min(offset + limit, |s|)]
  }

  // ----- sorting -----

  /** Whether `a` may stand before `b`: rows without a date go last either way. */
  predicate InOrder(a: Hit, b: Hit, sort: Sort) {
    if sort.Relevance? then true
    else if a.sortDate == "" || b.sortDate == "" then a.sortDate != "" || b.sortDate == ""
    else if sort.DateAscending? then !Less(b.sortDate, a.sortDate)
    else !Less(a.sortDate, b.sortDate)
  }

  ghost predicate SortedBy(rows: seq<Hit>, sort: Sort) {
    forall i, j | 0 <= i < j < |rows| :: InOrder(rows[i], rows[j], sort)
  }

  /** Array.prototype.sort is stable: each item goes after those it may stand behind. */
  function Inserted(sorted: seq<Hit>, h: Hit, sort: Sort): seq<Hit> {
    if sorted == [] || InOrder(sorted[|sorted| - 1], h, sort) then sorted + [h]
    else Inserted(sorted[..|sorted| - 1], h, sort) + [sorted[|sorted| - 1]]
  }

  function SortResults(items: seq<Hit>, sort: Sort): seq<Hit> {
    if items == [] || sort.Relevance? then items
    else Inserted(SortResults(items[..|items| - 1], sort), items[|items| - 1], sort)
  }

  /** Whether a date may stand before another: no date goes last, either way. */
  predicate DateBefore(a: string, b: string, ascending: bool) {
    if a == "" || b == "" then b == "" else a == b || (if ascending then Less(a, b) else Less(b, a))
  }

  /** In the order asked for, by date. */
  ghost predicate ByDate(items: seq<Hit>, ascending: bool) {
    forall i, j | 0 <= i < j < |items| :: DateBefore(items[i].sortDate, items[j].sortDate, ascending)
  }

  /** The items of one date, in their order. */
  function OfDate(items: seq<Hit>, date: string): seq<Hit> {
    if items == [] then []
    else
      OfDate(items[..|items| - 1], date)
      + if items[|items| - 1].sortDate == date then [items[|items| - 1]] else []
  }

  lemma OfDateStep(items: seq<Hit>, h: Hit, date: string)
    ensures OfDate(items + [h], date) == OfDate(items, date) + if h.sortDate == date then [h] else []
  {
    assert (items + [h])[..|items + [h]| - 1] == items;
  }

  lemma InOrderIs(a: Hit, b: Hit, sort: Sort)
    requires !sort.Relevance?
    ensures InOrder(a, b, sort) <==> DateBefore(a.sortDate, b.sortDate, sort.DateAscending?)
  {
    LessTotal(a.sortDate, b.sortDate);
  }

  lemma DatesAreTotal(a: string, b: string, c: string, ascending: bool)
    ensures DateBefore(a, b, ascending) || DateBefore(b, a, ascending)
    ensures DateBefore(a, b, ascending) && DateBefore(b, c, ascending) ==> DateBefore(a, c, ascending)
    ensures DateBefore(a, b, ascending) && DateBefore(b, a, ascending) ==> a == b
  {
    LessTotal(a, b);
    if Less(a, b) && Less(b, c) { LessTransitive(a, b, c); }
    if Less(c, b) && Less(b, a) { LessTransitive(c, b, a); }
  }

  /** Putting one item in keeps the others' order, and goes behind its equals. */
  lemma {:induction false} InsertedIs(sorted: seq<Hit>, h: Hit, sort: Sort, date: string)
    requires !sort.Relevance? && ByDate(sorted, sort.DateAscending?)
    ensures IsInserted(sorted, h, Inserted(sorted, h, sort), sort.DateAscending?, date)
  {
    var up := sort.DateAscending?;
    if sorted == [] || InOrder(sorted[|sorted| - 1], h, sort) {
      if sorted != [] { InOrderIs(sorted[|sorted| - 1], h, sort); }
      LastFits(sorted, h, up);
      OfDateStep(sorted, h, date);
    } else {
      var p, last := sorted[..|sorted| - 1], sorted[|sorted| - 1];
      assert sorted == p + [last];
      InOrderIs(last, h, sort);
      InsertedIs(p, h, sort, date);
      LastStaysLast(p, Inserted(p, h, sort), last, h, up, date);
    }
  }

  ghost predicate IsInserted(sorted: seq<Hit>, h: Hit, t: seq<Hit>, ascending: bool, date: string) {
    && multiset(t) == multiset(sorted) + multiset{h} && ByDate(t, ascending)
    && OfDate(t, date) == OfDate(sorted, date) + if h.sortDate == date then [h] else []
  }

  lemma LastStaysLast(p: seq<Hit>, t: seq<Hit>, last: Hit, h: Hit, ascending: bool, date: string)
    requires ByDate(p + [last], ascending) && IsInserted(p, h, t, ascending, date)
    requires !DateBefore(last.sortDate, h.sortDate, ascending)
    ensures IsInserted(p + [last], h, t + [last], ascending, date)
  {
    InsertedBefore(p, t, last, h, ascending);
    OfDateStep(t, last, date);
    OfDateStep(p, last, date);
    DatesAreTotal(last.sortDate, h.sortDate, date, ascending);
    BeforeItsEquals(OfDate(p, date), last, h, date);
  }

  lemma LastFits(sorted: seq<Hit>, h: Hit, ascending: bool)
    requires ByDate(sorted, ascending)
    requires sorted != [] ==> DateBefore(sorted[|sorted| - 1].sortDate, h.sortDate, ascending)
    ensures ByDate(sorted + [h], ascending)
  {
    forall i | 0 <= i < |sorted| ensures DateBefore(sorted[i].sortDate, h.sortDate, ascending) {
      DatesAreTotal(sorted[i].sortDate, sorted[|sorted| - 1].sortDate, h.sortDate, ascending);
    }
  }

  lemma InsertedBefore(p: seq<Hit>, t: seq<Hit>, last: Hit, h: Hit, ascending: bool)
    requires multiset(t) == multiset(p) + multiset{h} && ByDate(t, ascending) && ByDate(p + [last], ascending)
    requires !DateBefore(last.sortDate, h.sortDate, ascending)
    ensures ByDate(t + [last], ascending)
  {
    DatesAreTotal(last.sortDate, h.sortDate, "", ascending);
    forall i | 0 <= i < |t| ensures DateBefore(t[i].sortDate, last.sortDate, ascending) {
      if t[i] != h { NotLater(p, t, last, h, i, ascending); }
    }
  }

  lemma NotLater(p: seq<Hit>, t: seq<Hit>, last: Hit, h: Hit, i: nat, ascending: bool)
    requires multiset(t) == multiset(p) + multiset{h} && ByDate(p + [last], ascending) && i < |t| && t[i] != h
    ensures DateBefore(t[i].sortDate, last.sortDate, ascending)
  {
    assert t[i] in multiset(t) && t[i] in multiset(p);
    var k :| 0 <= k < |p| && p[k] == t[i];
    assert (p + [last])[k] == p[k] && (p + [last])[|p|] == last;
  }

  lemma BeforeItsEquals(of: seq<Hit>, last: Hit, h: Hit, date: string)
    requires last.sortDate != h.sortDate
    ensures (of + if h.sortDate == date then [h] else []) + (if last.sortDate == date then [last] else [])
         == (of + if last.sortDate == date then [last] else []) + if h.sortDate == date then [h] else []
  {
  }

  /** The order asked for is what comes out: relevance leaves the items alone; the others give the
      same items by date, undated ones last, and those of one date in the order they came. */
  lemma {:induction false} SortedIs(items: seq<Hit>, sort: Sort, date: string)
    ensures sort.Relevance? ==> SortResults(items, sort) == items
    ensures !sort.Relevance? ==>
        var t := SortResults(items, sort);
        && multiset(t) == multiset(items) && ByDate(t, sort.DateAscending?) && OfDate(t, date) == OfDate(items, date)
  {
    if items != [] && !sort.Relevance? {
      var p, h := items[..|items| - 1], items[|items| - 1];
      assert items == p + [h];
      SortedIs(p, sort, date);
      InsertedIs(SortResults(p, sort), h, sort, date);
      OfDateStep(p, h, date);
    }
  }

  lemma {:induction false} SortedStays(items: seq<Hit>, sort: Sort)
    requires SortedBy(items, sort)
    ensures SortResults(items, sort) == items
  {
    if items != [] && !sort.Relevance? {
      SortedStays(items[..|items| - 1], sort);
      LastStays(items, sort);
    }
  }

  lemma LastStays(items: seq<Hit>, sort: Sort)
    requires SortedBy(items, sort) && items != []
    ensures Inserted(items[..|items| - 1], items[|items| - 1], sort) == items
  {
    assert items == items[..|items| - 1] + [items[|items| - 1]];
  }

  // ----- what is assumed of the index -----

  /** No delete rows, and one result per entity. */
  ghost predicate OneStory(rows: seq<Hit>) {
    && (forall h | h in rows :: !h.isDelete)
    && (forall g, h | g in rows && h in rows && g.entityId == h.entityId :: ResultId(g) == ResultId(h))
  }

  /** Rows delivered in the order asked for, with one date per result when that order is by date. */
  ghost predicate Delivered(rows: seq<Hit>, sort: Sort) {
    && SortedBy(rows, sort)
    && (!sort.Relevance? ==>
          forall g, h | g in rows && h in rows && ResultId(g) == ResultId(h) :: g.sortDate == h.sortDate)
  }

  // ----- first appearances, batch by batch -----

  lemma {:induction false} FirstsConcat(a: seq<string>, b: seq<string>)
    ensures Firsts(a + b) == Firsts(a) + Fresh(Firsts(b), Firsts(a))
    decreases |b|
  {
    if b == [] {
      assert a + b == a;
    } else {
      FirstsConcat(a, b[..|b| - 1]);
      FirstsConcatStep(a, b[..|b| - 1], b[|b| - 1]);
      assert b == b[..|b| - 1] + [b[|b| - 1]];
    }
  }

  lemma FirstsConcatStep(a: seq<string>, p: seq<string>, k: string)
    requires Firsts(a + p) == Firsts(a) + Fresh(Firsts(p), Firsts(a))
    ensures Firsts(a + (p + [k])) == Firsts(a) + Fresh(Firsts(p + [k]), Firsts(a))
  {
    Regroup(a, p, [k]);
    FirstsStep(a + p, k);
    FirstsStep(p, k);
    var fa, fp := Firsts(a), Firsts(p);
    NewKey(fa, fp, k);
  }

  lemma NewKey(fa: seq<string>, fp: seq<string>, k: string)
    ensures var f := fa + Fresh(fp, fa);
      (if k == "" || k in f then f else f + [k]) == fa + Fresh(if k == "" || k in fp then fp else fp + [k], fa)
  {
    FreshAre(fp, fa);
    FreshStep(fp, k, fa);
    Regroup(fa, Fresh(fp, fa), [k]);
    Regroup(fa, Fresh(fp, fa), []);
  }

  /** The keys not seen before. */
  function Fresh(keys: seq<string>, seen: seq<string>): seq<string> {
    if keys == [] then []
    else
      var last := keys[|keys| - 1];
      Fresh(keys[..|keys| - 1], seen) + if last in seen then [] else [last]
  }

  lemma FreshStep(keys: seq<string>, k: string, seen: seq<string>)
    ensures Fresh(keys + [k], seen) == Fresh(keys, seen) + if k in seen then [] else [k]
  {
    assert (keys + [k])[..|keys + [k]| - 1] == keys;
  }

  lemma {:induction false} FreshAre(keys: seq<string>, seen: seq<string>)
    ensures forall k :: k in Fresh(keys, seen) <==> k in keys && k !in seen
  {
    if keys != [] {
      FreshAre(keys[..|keys| - 1], seen);
      assert keys == keys[..|keys| - 1] + [keys[|keys| - 1]];
    }
  }

  /** The results of two batches are those of the first, then the second's new ones. */
  lemma ResultsConcat(a: seq<Hit>, b: seq<Hit>)
    ensures Results(a + b) == Results(a) + Fresh(Results(b), Results(a))
  {
    assert Keys(a + b) == Keys(a) + Keys(b);
    FirstsConcat(Keys(a), Keys(b));
  }

  lemma ResultsGrow(rows: seq<Hit>, a: nat, b: nat)
    requires a <= b <= |rows|
    ensures Results(rows[..a]) <= Results(rows[..b])
  {
    ResultsConcat(rows[..a], rows[a..b]);
    assert rows[..a] + rows[a..b] == rows[..b];
  }

  // ----- one batch -----

  /** `names` applied to each key. */
  function Renamed(names: map<string, string>, keys: seq<string>): (r: seq<string>)
    requires forall k | k in keys :: k in names
    ensures |r| == |keys|
  {
    seq(|keys|, i requires 0 <= i < |keys| => names[keys[i]])
  }

  lemma {:induction false} FirstsOfRenamed(names: map<string, string>, keys: seq<string>)
    requires "" in names && names[""] == "" && forall k | k in keys :: k in names
    ensures forall k | k in Firsts(keys) :: k in names
    ensures Firsts(Renamed(names, keys)) == Firsts(Renamed(names, Firsts(keys)))
  {
    FirstsHave(keys);
    if keys != [] {
      var p, k := keys[..|keys| - 1], keys[|keys| - 1];
      assert keys == p + [k];
      FirstsOfRenamed(names, p);
      FirstsHave(p);
      assert Renamed(names, keys) == Renamed(names, p) + [names[k]];
      FirstsStep(Renamed(names, p), names[k]);
      FirstsHave(Renamed(names, p));
      if k == "" || k in Firsts(p) {
        if k != "" { RenamedHas(names, p, k); }
      } else {
        assert Renamed(names, Firsts(keys)) == Renamed(names, Firsts(p)) + [names[k]];
        FirstsStep(Renamed(names, Firsts(p)), names[k]);
      }
    }
  }

  lemma RenamedHas(names: map<string, string>, keys: seq<string>, k: string)
    requires (forall x | x in keys :: x in names) && k in keys
    ensures names[k] in Renamed(names, keys)
  {
    var i :| 0 <= i < |keys| && keys[i] == k;
    assert Renamed(names, keys)[i] == names[k];
  }

  ghost function Names(rows: seq<Hit>): (m: map<string, string>)
    requires OneStory(rows)
    ensures forall h | h in rows && h.entityId != "" :: h.entityId in m && m[h.entityId] == ResultId(h)
    ensures "" in m && m[""] == ""
  {
    (map h | h in rows :: h.entityId := ResultId(h))["" := ""]
  }

  /** Collapsing a batch finds its results in order of first appearance. */
  lemma CollapsedIs(rows: seq<Hit>, hits: seq<Hit>)
    requires OneStory(rows) && EntityIds(hits) == Firsts(EntityIds(rows))
    requires forall h | h in hits :: h in rows && h.entityId != ""
    ensures Firsts(ResultIds(hits)) == Results(rows)
  {
    var names := Names(rows);
    KeysRenamed(rows, names);
    FirstsOfRenamed(names, EntityIds(rows));
    HitsRenamed(rows, hits, names);
  }

  lemma KeysRenamed(rows: seq<Hit>, names: map<string, string>)
    requires OneStory(rows) && names == Names(rows)
    ensures (forall k | k in EntityIds(rows) :: k in names) && Keys(rows) == Renamed(names, EntityIds(rows))
  {
    var ids := EntityIds(rows);
    forall i | 0 <= i < |rows| ensures ids[i] in names && names[ids[i]] == Key(rows[i]) { assert rows[i] in rows; }
  }

  lemma HitsRenamed(rows: seq<Hit>, hits: seq<Hit>, names: map<string, string>)
    requires OneStory(rows) && names == Names(rows) && forall h | h in hits :: h in rows && h.entityId != ""
    ensures (forall k | k in EntityIds(hits) :: k in names) && ResultIds(hits) == Renamed(names, EntityIds(hits))
  {
    var ids := EntityIds(hits);
    forall i | 0 <= i < |hits| ensures ids[i] in names && names[ids[i]] == ResultId(hits[i]) {
      assert hits[i] in hits;
    }
  }

  method CollapseBatch(rows: seq<Hit>) returns (groups: seq<Hit>)
    requires OneStory(rows)
    ensures ResultIds(groups) == Results(rows)
    ensures forall g | g in groups :: g in rows
  {
    var hits := DedupeLatestIndexedHits(rows);
    groups := GroupIndexedHits(hits);
    CollapsedIs(rows, hits);
    forall g | g in groups ensures g in rows {
      assert RepresentedBy(hits, ResultId(g), g);
    }
  }

  // ----- collecting -----

  /** The Map of results: an id that is already there keeps its first row. */
  method AddNew(collected: seq<Hit>, groups: seq<Hit>) returns (all: seq<Hit>)
    ensures ResultIds(all) == ResultIds(collected) + Fresh(Firsts(ResultIds(groups)), ResultIds(collected))
    ensures forall h | h in all :: h in collected || h in groups
    requires ResultIds(groups) == Firsts(ResultIds(groups))
  {
    all := collected;
    var i := 0;
    while i < |groups|
      invariant i <= |groups|
      invariant ResultIds(all) == ResultIds(collected) + Fresh(ResultIds(groups)[..i], ResultIds(collected))
      invariant forall h | h in all :: h in collected || h in groups
    {
      FreshNext(ResultIds(groups), i, ResultIds(collected));
      if ResultId(groups[i]) !in ResultIds(all) {
        assert ResultIds(all + [groups[i]]) == ResultIds(all) + [ResultId(groups[i])];
        all := all + [groups[i]];
      }
      i := i + 1;
    }
    assert ResultIds(groups)[..i] == ResultIds(groups);
  }

  lemma FreshNext(keys: seq<string>, i: nat, seen: seq<string>)
    requires i < |keys| && keys == Firsts(keys)
    ensures Fresh(keys[..i + 1], seen) == Fresh(keys[..i], seen) + if keys[i] in seen then [] else [keys[i]]
    ensures keys[i] in Fresh(keys[..i], seen) <==> false
  {
    assert keys[..i] + [keys[i]] == keys[..i + 1];
    FreshStep(keys[..i], keys[i], seen);
    FreshAre(keys[..i], seen);
    FirstsHave(keys);
  }

  datatype Scan = Scan(collected: seq<Hit>, rawSeen: nat, exhausted: bool, limitReached: bool)

  ghost predicate ScanHolds(rows: seq<Hit>, s: Scan) {
    && s.rawSeen <= Min(|rows|, MAX_SCAN_ROWS)
    && ResultIds(s.collected) == Results(rows[..s.rawSeen])
    && (forall h | h in s.collected :: h in rows)
    && (s.limitReached <==> s.exhausted && s.rawSeen < |rows|)
    && (s.exhausted ==> s.rawSeen == Min(|rows|, MAX_SCAN_ROWS))
  }

  lemma PartIsOneStory(rows: seq<Hit>, a: nat, b: nat)
    requires OneStory(rows) && a <= b <= |rows|
    ensures OneStory(rows[a..b])
  {
    var p := rows[a..b];
    assert forall h | h in p :: h in rows;
  }

  /** Collapse the rows of one response into the results so far. */
  method TakeBatch(rows: seq<Hit>, before: seq<Hit>, a: nat, b: nat) returns (after: seq<Hit>)
    requires OneStory(rows) && a <= b <= |rows|
    requires ResultIds(before) == Results(rows[..a]) && forall h | h in before :: h in rows
    ensures ResultIds(after) == Results(rows[..b]) && forall h | h in after :: h in rows
  {
    var hits := rows[a..b];
    PartIsOneStory(rows, a, b);
    var groups := CollapseBatch(hits);
    FirstsTwice(Keys(hits));
    after := AddNew(before, groups);
    MoreCollected(rows, a, b, before, groups, after);
  }

  /** One request and the collapse of what it returned. */
  method ScanBatch(rows: seq<Hit>, s: Scan, request: nat) returns (s': Scan)
    requires OneStory(rows) && ScanHolds(rows, s) && !s.exhausted && 1 <= request <= MAX_SCAN_ROWS - s.rawSeen
    ensures ScanHolds(rows, s')
    ensures s'.exhausted || s.rawSeen < s'.rawSeen < MAX_SCAN_ROWS
  {
    var next := Min(s.rawSeen + request, |rows|);
    var returned := next - s.rawSeen;
    if returned == 0 {
      return s.(exhausted := true);
    }
    var collected := TakeBatch(rows, s.collected, s.rawSeen, next);
    var limitReached := next >= MAX_SCAN_ROWS && next < |rows|;
    s' := Scan(collected, next, limitReached || next >= |rows| || returned < request, limitReached);
  }

  lemma MoreCollected(rows: seq<Hit>, a: nat, b: nat, before: seq<Hit>, groups: seq<Hit>, after: seq<Hit>)
    requires a <= b <= |rows| && ResultIds(before) == Results(rows[..a]) && ResultIds(groups) == Results(rows[a..b])
    requires ResultIds(after) == ResultIds(before) + Fresh(Firsts(ResultIds(groups)), ResultIds(before))
    requires (forall h | h in before :: h in rows) && (forall g | g in groups :: g in rows[a..b])
    requires forall h | h in after :: h in before || h in groups
    ensures ResultIds(after) == Results(rows[..b]) && forall h | h in after :: h in rows
  {
    ResultsConcat(rows[..a], rows[a..b]);
    assert rows[..a] + rows[a..b] == rows[..b];
    FirstsTwice(Keys(rows[a..b]));
  }

  lemma {:induction false} FirstsTwice(keys: seq<string>)
    ensures Firsts(Firsts(keys)) == Firsts(keys)
  {
    if keys != [] {
      var p := keys[..|keys| - 1];
      FirstsTwice(p);
      FirstsHave(p);
      FirstsStep(Firsts(p), keys[|keys| - 1]);
    }
  }

  /** The scan loop: it stops with the page full, or with every row within the budget read. */
  method ScanRows(rows: seq<Hit>, target: nat, browsing: bool) returns (s: Scan)
    requires OneStory(rows)
    ensures ScanHolds(rows, s) && (s.exhausted || |s.collected| >= target)
  {
    s := Scan([], 0, false, false);
    var rowsPerResult := if browsing then INITIAL_BROWSE_ROWS_PER_RESULT else INITIAL_ROWS_PER_RESULT;
    while !s.exhausted && |s.collected| < target && s.rawSeen < MAX_SCAN_ROWS
      invariant ScanHolds(rows, s)
      invariant s.exhausted || s.rawSeen < MAX_SCAN_ROWS
      decreases MAX_SCAN_ROWS - s.rawSeen, !s.exhausted
    {
      var wanted := Ceiling((target - |s.collected|) as real * rowsPerResult);
      var request := Min(Min(Max(wanted, MIN_SCAN_BATCH_ROWS), SCAN_BATCH_ROWS), MAX_SCAN_ROWS - s.rawSeen);
      s := ScanBatch(rows, s, request);
      if s.collected != [] {
        var ratio := s.rawSeen as real / |s.collected| as real;
        rowsPerResult := if ratio < 1.0 then 1.0 else ratio;
      }
    }
  }

  // ----- the page -----

  /** Position `a` shows a key for the first time. */
  predicate IsNew(keys: seq<string>, a: nat)
    requires a < |keys|
  {
    keys[a] != "" && keys[a] !in Firsts(keys[..a])
  }

  lemma {:induction false} FirstAppearance(keys: seq<string>, i: nat) returns (a: nat)
    requires i < |Firsts(keys)|
    ensures a < |keys| && keys[a] == Firsts(keys)[i] && |Firsts(keys[..a])| == i && IsNew(keys, a)
  {
    var n := |keys| - 1;
    var p := keys[..n];
    if i < |Firsts(p)| {
      a := FirstAppearance(p, i);
      assert p[..a] == keys[..a];
    } else {
      a := n;
    }
  }

  lemma FirstsMonotone(keys: seq<string>, a: nat, b: nat)
    requires a <= b <= |keys|
    ensures |Firsts(keys[..a])| <= |Firsts(keys[..b])|
  {
    assert keys[..a] + keys[a..b] == keys[..b];
    FirstsConcat(keys[..a], keys[a..b]);
  }

  /** Rows in sort order give collected results in sort order. */
  lemma CollectedSorted(rows: seq<Hit>, n: nat, collected: seq<Hit>, sort: Sort)
    requires Delivered(rows, sort) && n <= |rows|
    requires ResultIds(collected) == Results(rows[..n]) && forall h | h in collected :: h in rows
    ensures SortedBy(collected, sort)
  {
    var keys := Keys(rows[..n]);
    FirstsHave(keys);
    forall i, j | 0 <= i < j < |collected| && !sort.Relevance? ensures InOrder(collected[i], collected[j], sort) {
      var a := FirstAppearance(keys, i);
      var b := FirstAppearance(keys, j);
      if b <= a { FirstsMonotone(keys, b, a); }
      SameDate(rows, sort, n, collected, i, a);
      SameDate(rows, sort, n, collected, j, b);
      assert InOrder(rows[a], rows[b], sort);
    }
  }

  lemma SameDate(rows: seq<Hit>, sort: Sort, n: nat, collected: seq<Hit>, i: nat, a: nat)
    requires Delivered(rows, sort) && !sort.Relevance? && n <= |rows| && i < |collected| && a < n
        && forall h | h in collected :: h in rows
    requires ResultIds(collected) == Results(rows[..n]) && Keys(rows[..n])[a] == Results(rows[..n])[i]
    ensures collected[i].sortDate == rows[a].sortDate
  {
    var keys := Keys(rows[..n]);
    FirstsHave(keys);
    assert keys[a] == Key(rows[a]) && ResultIds(collected)[i] == ResultId(collected[i]);
    assert Results(rows[..n])[i] in Results(rows[..n]);
    assert collected[i] in rows && rows[a] in rows;
  }

  /** The rows the budget reaches. */
  function Reached(rows: seq<Hit>): seq<Hit> { rows[..Min(|rows|, MAX_SCAN_ROWS)] }

  /** The requested slice of the distinct results among the rows within the budget, in order of
      first appearance. A count not marked approximate is exact, and there is more exactly when the
      page is not empty and either results beyond it were reached or the budget cut the rows off. */
  ghost predicate IsWindow(rows: seq<Hit>, offset: nat, limit: nat, w: Window) {
    && ResultIds(w.results) == Slice(Results(Reached(rows)), offset, limit) && (forall h | h in w.results :: h in rows)
    && (!w.totalIsApproximate ==> w.totalCount == |Results(rows)|)
    && (w.results != [] ==> w.totalCount >= offset + |w.results|)
    && (|rows| > MAX_SCAN_ROWS ==> w.totalIsApproximate)
    && (w.totalIsApproximate ==> |rows| > MAX_SCAN_ROWS || |Results(Reached(rows))| > offset + limit)
    && (w.hasMore <==> w.results != [] && (|Results(Reached(rows))| > offset + limit || |rows| > MAX_SCAN_ROWS))
  }

  // ----- the page in terms of the rows themselves -----

  /** Rows without an entity id are not shown, nor those with nothing to open. */
  predicate Shows(h: Hit) { h.entityId != "" && Opens(h) }

  /** Row `p` is the first of its result. */
  predicate FirstKind(rows: seq<Hit>, p: nat) {
    p < |rows| && Shows(rows[p]) && forall q | 0 <= q < p && Shows(rows[q]) :: !Together(rows[q], rows[p])
  }

  /** How many results the first `n` rows belong to. */
  function Kinds(rows: seq<Hit>, n: nat): nat
    requires n <= |rows|
  {
    if n == 0 then 0 else Kinds(rows, n - 1) + if FirstKind(rows, n - 1) then 1 else 0
  }

  /** Every result that first shows before row `end` and whose turn it is has its place on the page. */
  ghost predicate InTurn(rows: seq<Hit>, offset: nat, limit: nat, w: Window, end: nat) {
    forall p: nat | p < end && FirstKind(rows, p) && offset <= Kinds(rows, p) < offset + limit ::
      Kinds(rows, p) - offset < |w.results| && Together(w.results[Kinds(rows, p) - offset], rows[p])
  }

  /** The page holds one row for each result whose turn it is, in order of first appearance among the
      first 6000 rows. An unmarked count is the number of results of all rows. */
  ghost predicate RightPage(rows: seq<Hit>, offset: nat, limit: nat, w: Window) {
    var n := Kinds(rows, Min(|rows|, 6000));
    && (forall h | h in w.results :: h in rows) && |w.results| == Min(n, offset + limit) - Min(n, offset)
    && InTurn(rows, offset, limit, w, 6000)
    && (forall i, j | 0 <= i < j < |w.results| :: !Together(w.results[i], w.results[j]))
    && (!w.totalIsApproximate ==> w.totalCount == Kinds(rows, |rows|))
    && (w.totalIsApproximate ==> |rows| > 6000 || n > offset + limit)
    && (w.hasMore <==> w.results != [] && (n > offset + limit || |rows| > 6000))
  }

  lemma KeyIs(h: Hit)
    ensures Shows(h) <==> Key(h) != ""
    ensures Shows(h) ==> Key(h) == ResultId(h)
  {
    TogetherIff(h, h);
  }

  lemma FirstKindIff(rows: seq<Hit>, p: nat)
    requires p < |rows|
    ensures FirstKind(rows, p) <==> IsNew(Keys(rows), p)
  {
    var keys := Keys(rows);
    KeyIs(rows[p]);
    FirstsHave(keys[..p]);
    forall q | 0 <= q < p && Shows(rows[q]) && Shows(rows[p])
      ensures Together(rows[q], rows[p]) <==> keys[..p][q] == keys[p]
    {
      KeyIs(rows[q]);
      TogetherIff(rows[q], rows[p]);
    }
    forall q | 0 <= q < p && keys[..p][q] == keys[p] && keys[p] != "" ensures Shows(rows[q]) { KeyIs(rows[q]); }
  }

  lemma {:induction false} KindsAre(rows: seq<Hit>, n: nat)
    requires n <= |rows|
    ensures Kinds(rows, n) == |Firsts(Keys(rows)[..n])| == |Results(rows[..n])|
  {
    assert Keys(rows)[..n] == Keys(rows[..n]);
    if n > 0 {
      KindsAre(rows, n - 1);
      FirstKindIff(rows, n - 1);
      assert Keys(rows)[..n] == Keys(rows)[..n - 1] + [Keys(rows)[n - 1]];
      FirstsStep(Keys(rows)[..n - 1], Keys(rows)[n - 1]);
    }
  }

  /** A row that is the first of its result is found at its result's rank. */
  lemma RankIs(rows: seq<Hit>, p: nat, n: nat)
    requires p < n <= |rows| && FirstKind(rows, p)
    ensures Kinds(rows, p) < |Results(rows[..n])| && Results(rows[..n])[Kinds(rows, p)] == ResultId(rows[p])
  {
    KindsAre(rows, p);
    NewResult(rows, p);
    ResultsGrow(rows, p + 1, n);
  }

  lemma NewResult(rows: seq<Hit>, p: nat)
    requires p < |rows| && FirstKind(rows, p)
    ensures Results(rows[..p + 1]) == Results(rows[..p]) + [ResultId(rows[p])]
  {
    var keys := Keys(rows);
    FirstKindIff(rows, p);
    KeyIs(rows[p]);
    assert keys[..p + 1] == keys[..p] + [keys[p]];
    FirstsStep(keys[..p], keys[p]);
    assert Keys(rows[..p + 1]) == keys[..p + 1] && Keys(rows[..p]) == keys[..p];
  }

  lemma OnPage(rows: seq<Hit>, offset: nat, limit: nat, w: Window, p: nat)
    requires ResultIds(w.results) == Slice(Results(Reached(rows)), offset, limit)
    requires p < Min(|rows|, 6000) && FirstKind(rows, p) && offset <= Kinds(rows, p) < offset + limit
    ensures Kinds(rows, p) - offset < |w.results| && Together(w.results[Kinds(rows, p) - offset], rows[p])
  {
    var n, k := Min(|rows|, 6000), Kinds(rows, p) - offset;
    RankIs(rows, p, n);
    assert Slice(Results(rows[..n]), offset, limit)[k] == Results(rows[..n])[offset + k];
    assert ResultIds(w.results)[k] == ResultId(w.results[k]);
    TogetherIff(w.results[k], rows[p]);
  }

  lemma Apart(hits: seq<Hit>, keys: seq<string>, offset: nat, limit: nat)
    requires ResultIds(hits) == Slice(Firsts(keys), offset, limit)
    ensures forall i, j | 0 <= i < j < |hits| :: !Together(hits[i], hits[j])
  {
    SliceDistinct(keys, offset, limit);
    forall i, j | 0 <= i < j < |hits| ensures !Together(hits[i], hits[j]) {
      assert ResultIds(hits)[i] != ResultIds(hits)[j];
      TogetherIff(hits[i], hits[j]);
    }
  }

  lemma AllInTurn(rows: seq<Hit>, offset: nat, limit: nat, w: Window)
    requires ResultIds(w.results) == Slice(Results(Reached(rows)), offset, limit)
    ensures InTurn(rows, offset, limit, w, 6000)
  {
    forall p: nat | p < 6000 && FirstKind(rows, p) && offset <= Kinds(rows, p) < offset + limit
      ensures Kinds(rows, p) - offset < |w.results| && Together(w.results[Kinds(rows, p) - offset], rows[p])
    {
      OnPage(rows, offset, limit, w, p);
    }
  }

  lemma Counts(rows: seq<Hit>, offset: nat, limit: nat, hits: seq<Hit>)
    requires ResultIds(hits) == Slice(Results(Reached(rows)), offset, limit)
    ensures var n := Kinds(rows, Min(|rows|, 6000));
      && n == |Results(Reached(rows))| && |hits| == Min(n, offset + limit) - Min(n, offset)
      && Kinds(rows, |rows|) == |Results(rows)|
  {
    KindsAre(rows, Min(|rows|, 6000));
    KindsAre(rows, |rows|);
    assert rows[..|rows|] == rows;
    assert |ResultIds(hits)| == |Slice(Results(Reached(rows)), offset, limit)|;
  }

  lemma WindowIsRight(rows: seq<Hit>, offset: nat, limit: nat, w: Window)
    requires IsWindow(rows, offset, limit, w)
    ensures RightPage(rows, offset, limit, w)
  {
    Counts(rows, offset, limit, w.results);
    Apart(w.results, Keys(Reached(rows)), offset, limit);
    AllInTurn(rows, offset, limit, w);
  }

  /** No result stands on two pages that do not overlap. */
  lemma PagesApart(rows: seq<Hit>, offset: nat, limit: nat, w: Window, later: nat, next: nat, v: Window, i: nat, j: nat)
    requires IsWindow(rows, offset, limit, w) && IsWindow(rows, later, next, v) && offset + limit <= later
    requires i < |w.results| && j < |v.results|
    ensures !Together(w.results[i], v.results[j])
  {
    var all := Results(Reached(rows));
    FirstsHave(Keys(Reached(rows)));
    assert ResultIds(w.results)[i] == Slice(all, offset, limit)[i] == all[offset + i];
    assert ResultIds(v.results)[j] == Slice(all, later, next)[j] == all[later + j];
    TogetherIff(w.results[i], v.results[j]);
  }

  /** Whatever sizes the batches had, the answer is the window of the rows. */
  method CollectSearchWindow(rows: seq<Hit>, sort: Sort, offset: nat, limit: nat, browsing: bool, estimate: nat)
    returns (w: Window)
    requires OneStory(rows) && Delivered(rows, sort)
    ensures IsWindow(rows, offset, limit, w) && RightPage(rows, offset, limit, w)
  {
    var s := ScanRows(rows, offset + limit + 1, browsing);
    var sorted := SortResults(s.collected, sort);
    CollectedSorted(rows, s.rawSeen, s.collected, sort);
    SortedStays(s.collected, sort);
    ResultsGrow(rows, s.rawSeen, Min(|rows|, MAX_SCAN_ROWS));
    var page := Slice(sorted, offset, limit);
    var scannedEverything := s.exhausted && !s.limitReached;
    var totalCount := |sorted|;
    if !scannedEverything {
      totalCount := Max(|sorted|, estimate);
    }
    SlicedIds(s.collected, offset, limit);
    SlicePrefix(Results(rows[..s.rawSeen]), Results(Reached(rows)), offset, limit);
    if scannedEverything { assert rows[..s.rawSeen] == rows; }
    w := Window(page, totalCount, !scannedEverything,
                page != [] && (|sorted| > offset + limit || !s.exhausted || s.limitReached));
    WindowIsRight(rows, offset, limit, w);
  }

  lemma SlicedIds(hits: seq<Hit>, offset: nat, limit: nat)
    ensures ResultIds(Slice(hits, offset, limit)) == Slice(ResultIds(hits), offset, limit)
  {
  }

  lemma SlicePrefix(a: seq<string>, b: seq<string>, offset: nat, limit: nat)
    requires a <= b && (a == b || |a| > offset + limit)
    ensures Slice(a, offset, limit) == Slice(b, offset, limit)
  {
  }

  // ----- what pages are of the whole answer -----

  /** Row `p` lies past the budget and is the first of a result whose turn it would be on the page. */
  predicate CutOff(rows: seq<Hit>, offset: nat, limit: nat, p: nat) {
    6000 <= p < |rows| && FirstKind(rows, p) && offset <= Kinds(rows, p) < offset + limit
  }

  /** A page is a page of the whole answer exactly when no row past the budget is the first of a
      result that belongs on it. */
  lemma PageIsOfAllResultsIff(rows: seq<Hit>, offset: nat, limit: nat, w: Window)
    requires IsWindow(rows, offset, limit, w)
    ensures InTurn(rows, offset, limit, w, |rows|) <==> !exists p :: CutOff(rows, offset, limit, p)
    ensures ResultIds(w.results) == Slice(Results(rows), offset, limit) <==> !exists p :: CutOff(rows, offset, limit, p)
  {
    CutOffIff(rows, offset, limit, w);
    AllInTurn(rows, offset, limit, w);
    if p: nat :| CutOff(rows, offset, limit, p) {
      NotInTurn(rows, offset, limit, w, p);
    } else {
      NoneCutOff(rows, offset, limit, w);
    }
  }

  lemma NotInTurn(rows: seq<Hit>, offset: nat, limit: nat, w: Window, p: nat)
    requires IsWindow(rows, offset, limit, w) && CutOff(rows, offset, limit, p)
    ensures !InTurn(rows, offset, limit, w, |rows|)
  {
    NoRoom(rows, offset, limit, w, p);
    assert FirstKind(rows, p);
  }

  lemma NoneCutOff(rows: seq<Hit>, offset: nat, limit: nat, w: Window)
    requires InTurn(rows, offset, limit, w, 6000) && !exists p :: CutOff(rows, offset, limit, p)
    ensures InTurn(rows, offset, limit, w, |rows|)
  {
    forall p: nat | FirstKind(rows, p) && offset <= Kinds(rows, p) < offset + limit ensures p < 6000 {
      assert !CutOff(rows, offset, limit, p);
    }
  }

  lemma NoRoom(rows: seq<Hit>, offset: nat, limit: nat, w: Window, p: nat)
    requires IsWindow(rows, offset, limit, w) && CutOff(rows, offset, limit, p)
    ensures Kinds(rows, p) - offset >= |w.results|
  {
    RankPast(rows, p);
    KindsAre(rows, p);
    Counts(rows, offset, limit, w.results);
  }

  lemma CutOffIff(rows: seq<Hit>, offset: nat, limit: nat, w: Window)
    requires IsWindow(rows, offset, limit, w)
    ensures ResultIds(w.results) == Slice(Results(rows), offset, limit) <==> !exists p :: CutOff(rows, offset, limit, p)
  {
    SliceOfAllIff(rows, offset, limit);
    var a, b := |Results(Reached(rows))|, |Results(rows)|;
    if Min(b, offset + limit) > Max(a, offset) {
      var p := FirstPast(rows, Max(a, offset));
      FirstKindIff(rows, p);
      KindsAre(rows, p);
      assert CutOff(rows, offset, limit, p);
    }
    forall p: nat | CutOff(rows, offset, limit, p) ensures Min(b, offset + limit) > Max(a, offset) {
      RankPast(rows, p);
      KindsAre(rows, p);
    }
  }

  lemma KeysOfFront(rows: seq<Hit>, p: nat)
    requires p <= |rows|
    ensures Keys(rows)[..p] == Keys(rows[..p]) && Keys(rows)[..|rows|] == Keys(rows)
  {
  }

  /** The row that first shows the result of a rank that the budget does not reach. */
  lemma FirstPast(rows: seq<Hit>, rank: nat) returns (p: nat)
    requires |Results(Reached(rows))| <= rank < |Results(rows)|
    ensures MAX_SCAN_ROWS <= p < |rows| && IsNew(Keys(rows), p) && |Results(rows[..p])| == rank
  {
    p := FirstAppearance(Keys(rows), rank);
    KeysOfFront(rows, p);
    KeysOfFront(rows, Min(|rows|, MAX_SCAN_ROWS));
    if p < Min(|rows|, MAX_SCAN_ROWS) {
      NewCounts(Keys(rows), p);
      FirstsMonotone(Keys(rows), p + 1, Min(|rows|, MAX_SCAN_ROWS));
    }
  }

  lemma NewCounts(keys: seq<string>, p: nat)
    requires p < |keys| && IsNew(keys, p)
    ensures |Firsts(keys[..p + 1])| == |Firsts(keys[..p])| + 1
  {
    assert keys[..p + 1] == keys[..p] + [keys[p]];
    FirstsStep(keys[..p], keys[p]);
  }

  lemma RankPast(rows: seq<Hit>, p: nat)
    requires MAX_SCAN_ROWS <= p < |rows| && FirstKind(rows, p)
    ensures |Results(Reached(rows))| <= |Results(rows[..p])| < |Results(rows)|
  {
    FirstKindIff(rows, p);
    KeysOfFront(rows, p);
    KeysOfFront(rows, MAX_SCAN_ROWS);
    FirstsMonotone(Keys(rows), MAX_SCAN_ROWS, p);
    NewCounts(Keys(rows), p);
    FirstsMonotone(Keys(rows), p + 1, |rows|);
  }

  lemma SliceOfAllIff(rows: seq<Hit>, offset: nat, limit: nat)
    ensures Slice(Results(Reached(rows)), offset, limit) == Slice(Results(rows), offset, limit)
       <==> Min(|Results(rows)|, offset + limit) <= Max(|Results(Reached(rows))|, offset)
  {
    ResultsGrow(rows, Min(|rows|, MAX_SCAN_ROWS), |rows|);
    assert rows[..|rows|] == rows;
    var a, b := Results(Reached(rows)), Results(rows);
    assert |Slice(a, offset, limit)| == Min(offset + limit, |a|) - Min(offset, |a|);
    assert |Slice(b, offset, limit)| == Min(offset + limit, |b|) - Min(offset, |b|);
    if Min(|b|, offset + limit) <= Max(|a|, offset) { SlicesAgree(a, b, offset, limit); }
  }

  lemma SlicesAgree(a: seq<string>, b: seq<string>, offset: nat, limit: nat)
    requires a <= b && Min(|b|, offset + limit) <= Max(|a|, offset)
    ensures Slice(a, offset, limit) == Slice(b, offset, limit)
  {
  }

  /** Windows asked for one after the other, each from where the one before was to end. */
  ghost predicate Follow(rows: seq<Hit>, offset: nat, limits: seq<nat>, ws: seq<Window>)
    requires |limits| == |ws|
  {
    ws == []
    || var n := |ws| - 1;
       Follow(rows, offset, limits[..n], ws[..n]) && IsWindow(rows, offset + Sum(limits[..n]), limits[n], ws[n])
  }

  function Shown(ws: seq<Window>): seq<string> {
    if ws == [] then [] else Shown(ws[..|ws| - 1]) + ResultIds(ws[|ws| - 1].results)
  }

  lemma SlicesJoin(s: seq<string>, offset: nat, limit: nat, next: nat)
    ensures Slice(s, offset, limit) + Slice(s, offset + limit, next) == Slice(s, offset, limit + next)
  {
  }

  lemma {:induction false} ShownIsOneSlice(rows: seq<Hit>, offset: nat, limits: seq<nat>, ws: seq<Window>)
    requires |limits| == |ws| && Follow(rows, offset, limits, ws)
    ensures Shown(ws) == Slice(Results(Reached(rows)), offset, Sum(limits))
    decreases |ws|
  {
    if ws != [] {
      var n := |ws| - 1;
      ShownIsOneSlice(rows, offset, limits[..n], ws[..n]);
      SlicesJoin(Results(Reached(rows)), offset, Sum(limits[..n]), limits[n]);
    }
  }

  /** Reading page after page shows each result at most once and skips none: the pages together are
      the one page of their total size. */
  lemma PagesTile(rows: seq<Hit>, offset: nat, limits: seq<nat>, ws: seq<Window>, whole: Window)
    requires |limits| == |ws| && Follow(rows, offset, limits, ws) && IsWindow(rows, offset, Sum(limits), whole)
    ensures Shown(ws) == ResultIds(whole.results) && NoDuplicates(Shown(ws))
  {
    ShownIsOneSlice(rows, offset, limits, ws);
    SliceDistinct(Keys(Reached(rows)), offset, Sum(limits));
  }

  lemma SliceDistinct(keys: seq<string>, offset: nat, limit: nat)
    ensures NoDuplicates(Slice(Firsts(keys), offset, limit))
  {
    FirstsHave(keys);
  }

  /** A page that is not empty says there is more exactly when the next page shows something or the
      budget cut rows off; and pages read from the start up to one that says there is no more show
      every result there is. */
  lemma LastPage(rows: seq<Hit>, limits: seq<nat>, ws: seq<Window>, w: Window, limit: nat, after: Window, next: nat)
    requires |limits| == |ws| && Follow(rows, 0, limits, ws) && next > 0
    requires IsWindow(rows, Sum(limits), limit, w) && IsWindow(rows, Sum(limits) + limit, next, after)
        && w.results != []
    ensures w.hasMore <==> after.results != [] || |rows| > 6000
    ensures !w.hasMore ==> Shown(ws) + ResultIds(w.results) == Results(rows)
    ensures !w.hasMore ==> forall h | h in rows && Shows(h) :: ShownOn(ws, h) || OnIt(w, h)
  {
    ShownIsOneSlice(rows, 0, limits, ws);
    MoreIff(Results(Reached(rows)), Sum(limits), limit, next);
    assert w.results != [] <==> ResultIds(w.results) != [];
    assert after.results != [] <==> ResultIds(after.results) != [];
    if !w.hasMore {
      assert Reached(rows) == rows;
      forall h | h in rows && Shows(h) ensures ShownOn(ws, h) || OnIt(w, h) { FoundAmong(rows, ws, w, h); }
    }
  }

  /** The page, or one of the pages, has a row that is one result with this one. */
  ghost predicate OnIt(w: Window, h: Hit) { exists g | g in w.results :: Together(g, h) }

  ghost predicate ShownOn(ws: seq<Window>, h: Hit) { exists w | w in ws :: OnIt(w, h) }

  lemma {:induction false} ShownIff(ws: seq<Window>, h: Hit)
    ensures ResultId(h) in Shown(ws) <==> ShownOn(ws, h)
  {
    if ws != [] {
      var p, last := ws[..|ws| - 1], ws[|ws| - 1];
      assert ws == p + [last];
      ShownIff(p, h);
      OnItIff(last, h);
    }
  }

  lemma OnItIff(w: Window, h: Hit)
    ensures ResultId(h) in ResultIds(w.results) <==> OnIt(w, h)
  {
    forall i | 0 <= i < |w.results|
      ensures ResultIds(w.results)[i] == ResultId(h) <==> Together(w.results[i], h)
    {
      TogetherIff(w.results[i], h);
    }
    if OnIt(w, h) {
      var g :| g in w.results && Together(g, h);
      var i :| 0 <= i < |w.results| && w.results[i] == g;
    }
  }

  lemma FoundAmong(rows: seq<Hit>, ws: seq<Window>, w: Window, h: Hit)
    requires Shown(ws) + ResultIds(w.results) == Results(rows) && h in rows && Shows(h)
    ensures ShownOn(ws, h) || OnIt(w, h)
  {
    KeyIs(h);
    FirstsHave(Keys(rows));
    var i :| 0 <= i < |rows| && rows[i] == h;
    assert Keys(rows)[i] == ResultId(h) && ResultId(h) in Results(rows);
    ShownIff(ws, h);
    OnItIff(w, h);
  }

  lemma MoreIff(all: seq<string>, offset: nat, limit: nat, next: nat)
    requires next > 0
    ensures Slice(all, offset + limit, next) != [] <==> |all| > offset + limit
    ensures |all| <= offset + limit ==> Slice(all, 0, offset) + Slice(all, offset, limit) == all
  {
  }
}
