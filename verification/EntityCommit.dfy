/** The canonical serialisation behind an entity's content hash
    (src/events/entity_commit.ts) and its meaning: JSON with objects read as unordered maps. */
module EntityCommit {
  import opened Basics

  /** Characters a serialised number may contain. */
  predicate NumChar(c: char) { '0' <= c <= '9' || c in "+-.e" }

  type Lexeme = s: string | 0 < |s| && forall c | c in s :: NumChar(c) witness "0"

  datatype Json =
    | Null
    | Bool(b: bool)
    | Num(lexeme: Lexeme)
    | Str(s: string)
    | Arr(items: seq<Json>)
    | Obj(fields: seq<Field>)

  datatype Field = Field(key: string, value: Json)

  /** An object holds each key once, at every depth. */
  predicate WellFormed(v: Json) {
    match v
    case Arr(items) => forall x | x in items :: WellFormed(x)
    case Obj(fields) => DistinctKeys(fields) && forall f | f in fields :: WellFormed(f.value)
    case _ => true
  }

  ghost predicate AllWellFormed(items: seq<Json>) { forall x | x in items :: WellFormed(x) }

  predicate DistinctKeys(fields: seq<Field>) {
    forall i, j | 0 <= i < j < |fields| :: fields[i].key != fields[j].key
  }

  // ----- what a value means -----

  datatype Value =
    | VNull
    | VBool(b: bool)
    | VNum(lexeme: string)
    | VStr(s: string)
    | VArr(items: seq<Value>)
    | VObj(fields: map<string, Value>)

  function Meaning(v: Json): Value {
    match v
    case Null => VNull
    case Bool(b) => VBool(b)
    case Num(l) => VNum(l)
    case Str(s) => VStr(s)
    case Arr(items) => VArr(MeaningItems(items))
    case Obj(fields) => VObj(MeaningFields(fields))
  }

  function MeaningItems(items: seq<Json>): (r: seq<Value>)
    ensures |r| == |items|
  {
    if items == [] then [] else [Meaning(items[0])] + MeaningItems(items[1..])
  }

  /** A repeated key keeps its last value. */
  function MeaningFields(fields: seq<Field>): map<string, Value> {
    if fields == [] then map[]
    else
      var rest := MeaningFields(fields[1..]);
      if fields[0].key in rest then rest else rest[fields[0].key := Meaning(fields[0].value)]
  }

  lemma {:induction false} MeaningFieldsKeys(fields: seq<Field>)
    ensures forall k :: k in MeaningFields(fields) <==> exists i :: 0 <= i < |fields| && fields[i].key == k
  {
    if fields != [] {
      MeaningFieldsKeys(fields[1..]);
      forall k ensures k in MeaningFields(fields) <==> exists i :: 0 <= i < |fields| && fields[i].key == k {
        if i :| 0 <= i < |fields| && fields[i].key == k {
          if i > 0 { assert fields[1..][i - 1].key == k; }
        }
      }
    }
  }

  lemma {:induction false} MeaningFieldsAt(fields: seq<Field>, i: nat)
    requires DistinctKeys(fields) && i < |fields|
    ensures fields[i].key in MeaningFields(fields)
    ensures MeaningFields(fields)[fields[i].key] == Meaning(fields[i].value)
  {
    MeaningFieldsKeys(fields[1..]);
    if i > 0 {
      assert fields[1..][i - 1] == fields[i];
      MeaningFieldsAt(fields[1..], i - 1);
    } else {
      assert forall j | 0 <= j < |fields| - 1 :: fields[1..][j] == fields[j + 1];
    }
  }

  // ----- the text -----

  function HexDigit(n: nat): char
    requires n < 16
  {
    "0123456789abcdef"[n]
  }

  function Escape(c: char): (r: string)
    ensures |r| >= 1 && r[0] != '"'
  {
    var code := c as int;
    if c == '"' then "\\\""
    else if c == '\\' then "\\\\"
    else if code == 8 then "\\b"
    else if code == 12 then "\\f"
    else if c == '\n' then "\\n"
    else if c == '\r' then "\\r"
    else if c == '\t' then "\\t"
    else if code < 32 then "\\u00" + [HexDigit(code / 16), HexDigit(code % 16)]
    else [c]
  }

  function EscapeAll(s: string): string {
    if s == "" then "" else Escape(s[0]) + EscapeAll(s[1..])
  }

  /** JSON.stringify of a string. */
  function Quote(s: string): string { "\"" + EscapeAll(s) + "\"" }

  datatype Entry = Entry(key: string, text: string)

  /** stableStringify. Entries are ordered by key; their text does not take part in the
      ordering, so rendering before sorting is the same as sorting before rendering. */
  function Stringify(v: Json): string {
    match v
    case Null => "null"
    case Bool(b) => if b then "true" else "false"
    case Num(l) => l
    case Str(s) => Quote(s)
    case Arr(items) => "[" + Join(RenderItems(items)) + "]"
    case Obj(fields) => "{" + Join(EntryTexts(SortEntries(RenderFields(fields)))) + "}"
  }

  function RenderItems(items: seq<Json>): (r: seq<string>)
    ensures |r| == |items|
  {
    if items == [] then [] else [Stringify(items[0])] + RenderItems(items[1..])
  }

  function RenderFields(fields: seq<Field>): (r: seq<Entry>)
    ensures |r| == |fields|
    ensures forall i | 0 <= i < |r| :: r[i].key == fields[i].key
  {
    if fields == [] then []
    else [Entry(fields[0].key, Stringify(fields[0].value))] + RenderFields(fields[1..])
  }

  function EntryTexts(es: seq<Entry>): (r: seq<string>)
    ensures |r| == |es|
  {
    seq(|es|, i requires 0 <= i < |es| => Quote(es[i].key) + ":" + es[i].text)
  }

  /** Array.join(","). */
  function Join(parts: seq<string>): string {
    if parts == [] then ""
    else if |parts| == 1 then parts[0]
    else parts[0] + "," + Join(parts[1..])
  }

  /** Insertion sort by key; stable. */
  function SortEntries(es: seq<Entry>): (r: seq<Entry>)
    ensures multiset(r) == multiset(es)
  {
    if es == [] then []
    else
      assert es == [es[0]] + es[1..];
      InsertEntry(es[0], SortEntries(es[1..]))
  }

  function InsertEntry(e: Entry, es: seq<Entry>): (r: seq<Entry>)
    ensures multiset(r) == multiset{e} + multiset(es)
  {
    if es == [] then [e]
    else if e.key == es[0].key || Less(e.key, es[0].key) then [e] + es
    else
      assert es == [es[0]] + es[1..];
      [es[0]] + InsertEntry(e, es[1..])
  }

  predicate KeySorted(es: seq<Entry>) {
    forall i, j | 0 <= i < j < |es| :: KeyLeq(es[i], es[j])
  }

  predicate KeyLeq(a: Entry, b: Entry) { a.key == b.key || Less(a.key, b.key) }

  lemma {:induction false} InsertKeepsSorted(e: Entry, es: seq<Entry>)
    requires KeySorted(es)
    ensures KeySorted(InsertEntry(e, es))
  {
    if es != [] {
      LessTotal(e.key, es[0].key);
      if KeyLeq(e, es[0]) {
        forall x | x in es ensures KeyLeq(e, x) {
          if Less(e.key, es[0].key) && Less(es[0].key, x.key) { LessTransitive(e.key, es[0].key, x.key); }
        }
      } else {
        InsertKeepsSorted(e, es[1..]);
        var rest := InsertEntry(e, es[1..]);
        forall x | x in rest ensures KeyLeq(es[0], x) {
          assert x in multiset(rest);
          assert x == e || x in es[1..];
        }
      }
    }
  }

  lemma {:induction false} SortedEntries(es: seq<Entry>)
    ensures KeySorted(SortEntries(es))
  {
    if es != [] {
      SortedEntries(es[1..]);
      InsertKeepsSorted(es[0], SortEntries(es[1..]));
    }
  }

  // ----- reading the text back is unambiguous -----

  /** Nothing, or a character that ends a JSON value. */
  predicate Delimited(r: string) { r == "" || r[0] in ",]}" }

  lemma EscapeUnique(c: char, d: char, r: string, q: string)
    requires Escape(c) + r == Escape(d) + q
    ensures c == d && r == q
  {
    var x, y := Escape(c), Escape(d);
    SameLength(c, d, r, q);
    assert (x + r)[..|x|] == x && (y + q)[..|x|] == y && (x + r)[|x|..] == r && (y + q)[|x|..] == q;
    EscapeInjective(c, d);
  }

  /** One character, a backslash and a letter, or a code of six. */
  lemma EscapeShape(c: char)
    ensures var x := Escape(c);
      && |x| in {1, 2, 6} && (|x| == 1 <==> x[0] != '\\') && (|x| == 6 <==> |x| > 1 && x[1] == 'u')
  {
  }

  lemma SameLength(c: char, d: char, r: string, q: string)
    requires Escape(c) + r == Escape(d) + q
    ensures |Escape(c)| == |Escape(d)|
  {
    var x, y := Escape(c), Escape(d);
    EscapeShape(c);
    EscapeShape(d);
    assert (x + r)[0] == x[0] && (y + q)[0] == y[0];
    if |x| > 1 && |y| > 1 { assert (x + r)[1] == x[1] && (y + q)[1] == y[1]; }
  }

  lemma EscapeInjective(c: char, d: char)
    requires Escape(c) == Escape(d)
    ensures c == d
  {
    if |Escape(c)| == 6 { assert Escape(c)[4] == Escape(d)[4] && Escape(c)[5] == Escape(d)[5]; }
  }

  lemma EscapeStep(s: string, r: string)
    ensures s == "" ==> EscapeAll(s) + "\"" + r == "\"" + r
    ensures s != "" ==> EscapeAll(s) + "\"" + r == Escape(s[0]) + (EscapeAll(s[1..]) + "\"" + r)
    ensures (EscapeAll(s) + "\"" + r)[0] == if s == "" then '"' else Escape(s[0])[0]
  {
  }

  lemma {:induction false} EscapeAllUnique(s: string, t: string, r: string, q: string)
    requires EscapeAll(s) + "\"" + r == EscapeAll(t) + "\"" + q
    ensures s == t && r == q
  {
    EscapeStep(s, r);
    EscapeStep(t, q);
    if s == "" {
      SamePrefix("\"", r, q);
    } else {
      EscapeUnique(s[0], t[0], EscapeAll(s[1..]) + "\"" + r, EscapeAll(t[1..]) + "\"" + q);
      EscapeAllUnique(s[1..], t[1..], r, q);
      assert s == [s[0]] + s[1..] && t == [t[0]] + t[1..];
    }
  }

  lemma QuoteUnique(s: string, t: string, r: string, q: string)
    requires Quote(s) + r == Quote(t) + q
    ensures s == t && r == q
  {
    var s', t' := EscapeAll(s) + "\"" + r, EscapeAll(t) + "\"" + q;
    assert Quote(s) + r == "\"" + s' && Quote(t) + q == "\"" + t';
    assert ("\"" + s')[1..] == s' && ("\"" + t')[1..] == t';
    EscapeAllUnique(s, t, r, q);
  }

  lemma LexemeUnique(a: Lexeme, b: Lexeme, r: string, q: string)
    requires a + r == b + q && Delimited(r) && Delimited(q)
    ensures a == b && r == q
  {
    var t := a + r;
    assert forall i | 0 <= i < |a| :: t[i] == a[i] && a[i] in a;
    assert forall i | 0 <= i < |b| :: t[i] == b[i] && b[i] in b;
    assert |a| < |t| ==> t[|a|] == r[0];
    assert |b| < |t| ==> t[|b|] == q[0];
    assert |a| == |b|;
    assert t[..|a|] == a && t[..|b|] == b && t[|a|..] == r && t[|b|..] == q;
  }

  /** The first character of a value's text tells its kind. */
  function Kind(c: char): int {
    if c == 'n' then 0 else if c == 't' || c == 'f' then 1 else if NumChar(c) then 2
    else if c == '"' then 3 else if c == '[' then 4 else if c == '{' then 5 else 6
  }

  lemma FirstChar(v: Json)
    ensures Stringify(v) != ""
    ensures Kind(Stringify(v)[0]) == match v {
      case Null => 0 case Bool(_) => 1 case Num(_) => 2 case Str(_) => 3 case Arr(_) => 4 case Obj(_) => 5 }
  {
    match v
    case Num(l) => assert l[0] in l;
    case Str(s) => Opens('"', EscapeAll(s), "\"");
    case Arr(items) => Opens('[', Join(RenderItems(items)), "]");
    case Obj(fields) => Opens('{', Join(EntryTexts(SortEntries(RenderFields(fields)))), "}");
    case _ =>
  }

  lemma Opens(first: char, inner: string, close: string)
    ensures [first] + inner + close != "" && ([first] + inner + close)[0] == first
  {
  }

  /** Text of one value followed by a delimiter determines the value's meaning and where it ends. */
  lemma {:induction false} ValueUnique(v: Json, w: Json, r: string, q: string)
    requires WellFormed(v) && WellFormed(w) && Delimited(r) && Delimited(q)
    requires Stringify(v) + r == Stringify(w) + q
    ensures Meaning(v) == Meaning(w) && Stringify(v) == Stringify(w) && r == q
    decreases v, 2, 0
  {
    FirstChar(v);
    FirstChar(w);
    assert (Stringify(v) + r)[0] == Stringify(v)[0] && (Stringify(w) + q)[0] == Stringify(w)[0];
    match v
    case Arr(items) => ArrUnique(v, w, r, q);
    case Obj(fields) => ObjUnique(v, w, r, q);
    case _ => ScalarUnique(v, w, r, q);
  }

  lemma ScalarUnique(v: Json, w: Json, r: string, q: string)
    requires !v.Arr? && !v.Obj? && !w.Arr? && !w.Obj? && Delimited(r) && Delimited(q)
    requires Stringify(v) + r == Stringify(w) + q
    requires Kind(Stringify(v)[0]) == Kind(Stringify(w)[0])
    ensures v == w && r == q
  {
    FirstChar(v);
    FirstChar(w);
    match v
    case Null => SamePrefix("null", r, q);
    case Bool(b) =>
      assert (Stringify(v) + r)[0] == if b then 't' else 'f';
      assert (Stringify(w) + q)[0] == if w.b then 't' else 'f';
      SamePrefix(Stringify(v), r, q);
    case Num(l) => LexemeUnique(l, w.lexeme, r, q);
    case Str(s) => QuoteUnique(s, w.s, r, q);
  }

  lemma {:induction false} ArrUnique(v: Json, w: Json, r: string, q: string)
    requires v.Arr? && w.Arr? && WellFormed(v) && WellFormed(w)
    requires Stringify(v) + r == Stringify(w) + q
    ensures Meaning(v) == Meaning(w) && Stringify(v) == Stringify(w) && r == q
    decreases v, 1, |v.items| + 1
  {
    OpenBracket("[", Join(RenderItems(v.items)), "]", r);
    OpenBracket("[", Join(RenderItems(w.items)), "]", q);
    SamePrefix("[", Join(RenderItems(v.items)) + "]" + r, Join(RenderItems(w.items)) + "]" + q);
    ItemsUnique(v, v.items, w.items, r, q);
  }

  lemma {:induction false} ObjUnique(v: Json, w: Json, r: string, q: string)
    requires v.Obj? && w.Obj? && WellFormed(v) && WellFormed(w)
    requires Stringify(v) + r == Stringify(w) + q
    ensures Meaning(v) == Meaning(w) && Stringify(v) == Stringify(w) && r == q
    decreases v, 1, |v.fields| + 1
  {
    var es, ds := SortEntries(RenderFields(v.fields)), SortEntries(RenderFields(w.fields));
    OpenBracket("{", Join(EntryTexts(es)), "}", r);
    OpenBracket("{", Join(EntryTexts(ds)), "}", q);
    SamePrefix("{", Join(EntryTexts(es)) + "}" + r, Join(EntryTexts(ds)) + "}" + q);
    EntriesComeFromFields(v.fields);
    EntriesComeFromFields(w.fields);
    SortedLength(RenderFields(v.fields));
    EntriesUnique(v, w, es, ds, r, q);
    FieldsAgree(v, w);
  }

  lemma OpenBracket(open: string, body: string, close: string, r: string)
    ensures open + body + close + r == open + (body + close + r)
  {
  }

  lemma EmptyList(close: string, r: string)
    ensures Join([]) + close + r == close + r
  {
  }

  lemma SortedLength(es: seq<Entry>)
    ensures |SortEntries(es)| == |es|
  {
    assert |multiset(SortEntries(es))| == |multiset(es)|;
  }

  /** What follows the first part of a joined, closed list. */
  function AfterFirst(parts: seq<string>, close: string, r: string): string
    requires parts != []
  {
    if |parts| == 1 then close + r else "," + (Join(parts[1..]) + close + r)
  }

  lemma ReassociateFive(a: string, b: string, c: string, d: string, e: string)
    ensures a + b + c + d + e == a + (b + (c + d + e))
  {
  }

  lemma Regroup3(a: string, b: string, c: string)
    ensures a + b + c == a + (b + c)
  {
  }

  lemma JoinStep(parts: seq<string>, close: string, r: string)
    requires parts != []
    ensures Join(parts) + close + r == parts[0] + AfterFirst(parts, close, r)
  {
    if |parts| == 1 {
      Regroup3(parts[0], close, r);
    } else {
      ReassociateFive(parts[0], ",", Join(parts[1..]), close, r);
    }
  }

  lemma SamePrefix(p: string, r: string, q: string)
    requires p + r == p + q
    ensures r == q
  {
    assert (p + r)[|p|..] == r && (p + q)[|p|..] == q;
  }

  lemma {:induction false} ItemsUnique(ctx: Json, xs: seq<Json>, ys: seq<Json>, r: string, q: string)
    requires (forall x | x in xs :: x < ctx) && AllWellFormed(xs) && AllWellFormed(ys)
    requires Join(RenderItems(xs)) + "]" + r == Join(RenderItems(ys)) + "]" + q
    ensures MeaningItems(xs) == MeaningItems(ys) && RenderItems(xs) == RenderItems(ys) && r == q
    decreases ctx, 1, |xs|
  {
    ItemsStart(xs, r);
    ItemsStart(ys, q);
    if xs == [] {
      EmptyList("]", r);
      EmptyList("]", q);
      SamePrefix("]", r, q);
    } else {
      var ps, qs := RenderItems(xs), RenderItems(ys);
      JoinStep(ps, "]", r);
      JoinStep(qs, "]", q);
      var x, y, xs', ys' := xs[0], ys[0], xs[1..], ys[1..];
      assert x in xs && y in ys;
      assert (forall z | z in xs' :: z in xs) && (forall z | z in ys' :: z in ys);
      ItemsHead(xs);
      ItemsHead(ys);
      ValueUnique(x, y, AfterFirst(ps, "]", r), AfterFirst(qs, "]", q));
      AfterFirstAgrees(ps, qs, "]", r, q);
      if |xs| > 1 {
        ItemsUnique(ctx, xs', ys', r, q);
      } else {
        assert xs' == [] && ys' == [];
      }
    }
  }

  lemma ItemsHead(xs: seq<Json>)
    requires xs != []
    ensures RenderItems(xs)[0] == Stringify(xs[0]) && RenderItems(xs)[1..] == RenderItems(xs[1..])
    ensures RenderItems(xs) == [Stringify(xs[0])] + RenderItems(xs[1..])
    ensures MeaningItems(xs)[0] == Meaning(xs[0]) && MeaningItems(xs)[1..] == MeaningItems(xs[1..])
    ensures MeaningItems(xs) == [Meaning(xs[0])] + MeaningItems(xs[1..])
  {
  }

  lemma AfterFirstAgrees(ps: seq<string>, qs: seq<string>, close: string, r: string, q: string)
    requires ps != [] && qs != [] && |close| == 1 && close != ","
    requires AfterFirst(ps, close, r) == AfterFirst(qs, close, q)
    ensures |ps| == 1 <==> |qs| == 1
    ensures |ps| == 1 ==> r == q
    ensures |ps| > 1 ==> Join(ps[1..]) + close + r == Join(qs[1..]) + close + q
  {
    assert AfterFirst(ps, close, r)[0] == if |ps| == 1 then close[0] else ',';
    assert AfterFirst(qs, close, q)[0] == if |qs| == 1 then close[0] else ',';
    if |ps| == 1 {
      SamePrefix(close, r, q);
    } else {
      SamePrefix(",", Join(ps[1..]) + close + r, Join(qs[1..]) + close + q);
    }
  }

  /** The text of a list starts with its closing bracket exactly when the list is empty. */
  lemma ItemsStart(xs: seq<Json>, r: string)
    ensures var t := Join(RenderItems(xs)) + "]" + r; t[0] == ']' <==> xs == []
  {
    if xs != [] {
      FirstChar(xs[0]);
      assert (Join(RenderItems(xs)) + "]" + r)[0] == Stringify(xs[0])[0];
    }
  }

  lemma EntriesStart(es: seq<Entry>, r: string)
    ensures var t := Join(EntryTexts(es)) + "}" + r; t[0] == '}' <==> es == []
  {
    if es != [] {
      assert EntryTexts(es)[0][0] == '"';
    }
  }

  /** Every sorted entry is some field's rendering, and every field's rendering is there. */
  lemma EntriesComeFromFields(fields: seq<Field>)
    ensures forall e | e in SortEntries(RenderFields(fields)) ::
              exists f :: f in fields && f.key == e.key && Stringify(f.value) == e.text
    ensures forall f | f in fields :: Entry(f.key, Stringify(f.value)) in SortEntries(RenderFields(fields))
  {
    var es, rs := SortEntries(RenderFields(fields)), RenderFields(fields);
    assert forall e :: e in es <==> e in multiset(es);
    assert forall e :: e in rs <==> e in multiset(rs);
    RenderAt(fields);
    forall e | e in es ensures exists f :: f in fields && f.key == e.key && Stringify(f.value) == e.text {
      var i :| 0 <= i < |rs| && rs[i] == e;
      assert fields[i] in fields;
    }
    forall f | f in fields ensures Entry(f.key, Stringify(f.value)) in es {
      var i :| 0 <= i < |fields| && fields[i] == f;
      assert rs[i] in rs;
    }
  }

  lemma {:induction false} RenderAt(fields: seq<Field>)
    ensures forall i | 0 <= i < |fields| :: RenderFields(fields)[i] == Entry(fields[i].key, Stringify(fields[i].value))
  {
    if fields != [] {
      RenderAt(fields[1..]);
      assert forall i | 0 < i < |fields| :: fields[i] == fields[1..][i - 1];
    }
  }

  lemma EntryStep(e: Entry, rest: string)
    ensures Quote(e.key) + ":" + e.text + rest == Quote(e.key) + (":" + (e.text + rest))
  {
  }

  /** `e` renders some field of the object `v`. */
  ghost predicate Renders(e: Entry, v: Json)
    requires v.Obj?
  {
    exists f :: f in v.fields && f.key == e.key && Stringify(f.value) == e.text
  }

  ghost predicate AllRender(es: seq<Entry>, v: Json)
    requires v.Obj?
  {
    forall i | 0 <= i < |es| :: Renders(es[i], v)
  }

  lemma {:induction false} EntriesUnique(v: Json, w: Json, es: seq<Entry>, ds: seq<Entry>, r: string, q: string)
    requires v.Obj? && w.Obj? && WellFormed(v) && WellFormed(w)
    requires AllRender(es, v) && AllRender(ds, w)
    requires Join(EntryTexts(es)) + "}" + r == Join(EntryTexts(ds)) + "}" + q
    ensures es == ds && r == q
    decreases v, 1, |es|
  {
    EntriesStart(es, r);
    EntriesStart(ds, q);
    if es == [] {
      EmptyList("}", r);
      EmptyList("}", q);
      SamePrefix("}", r, q);
    } else {
      var ps, qs := EntryTexts(es), EntryTexts(ds);
      JoinStep(ps, "}", r);
      JoinStep(qs, "}", q);
      EntryUnique(v, w, es[0], ds[0], AfterFirst(ps, "}", r), AfterFirst(qs, "}", q));
      AfterFirstAgrees(ps, qs, "}", r, q);
      RestOfEntries(es);
      RestOfEntries(ds);
      if |es| > 1 { EntriesUnique(v, w, es[1..], ds[1..], r, q); }
    }
  }

  lemma RestOfEntries(es: seq<Entry>)
    requires es != []
    ensures es == [es[0]] + es[1..] && EntryTexts(es)[1..] == EntryTexts(es[1..])
  {
  }

  lemma {:induction false} EntryUnique(v: Json, w: Json, e: Entry, d: Entry, r: string, q: string)
    requires v.Obj? && w.Obj? && WellFormed(v) && WellFormed(w) && Delimited(r) && Delimited(q)
    requires Renders(e, v) && Renders(d, w)
    requires Quote(e.key) + ":" + e.text + r == Quote(d.key) + ":" + d.text + q
    ensures e == d && r == q
    decreases v, 1, 0
  {
    EntryStep(e, r);
    EntryStep(d, q);
    QuoteUnique(e.key, d.key, ":" + (e.text + r), ":" + (d.text + q));
    SamePrefix(":", e.text + r, d.text + q);
    var f :| f in v.fields && f.key == e.key && Stringify(f.value) == e.text;
    var g :| g in w.fields && g.key == d.key && Stringify(g.value) == d.text;
    ValueUnique(f.value, g.value, r, q);
  }

  /** A key of one object is a key of the other, with the same text. */
  lemma KeyCarries(v: Json, w: Json, k: string) returns (i: nat, j: nat)
    requires v.Obj? && w.Obj? && k in MeaningFields(v.fields)
    requires SortEntries(RenderFields(v.fields)) == SortEntries(RenderFields(w.fields))
    ensures i < |v.fields| && j < |w.fields| && v.fields[i].key == k && w.fields[j].key == k
    ensures Stringify(v.fields[i].value) == Stringify(w.fields[j].value)
  {
    MeaningFieldsKeys(v.fields);
    EntriesComeFromFields(v.fields);
    EntriesComeFromFields(w.fields);
    i :| 0 <= i < |v.fields| && v.fields[i].key == k;
    assert v.fields[i] in v.fields;
    var e := Entry(k, Stringify(v.fields[i].value));
    assert e in SortEntries(RenderFields(w.fields));
    var g :| g in w.fields && g.key == e.key && Stringify(g.value) == e.text;
    j :| 0 <= j < |w.fields| && w.fields[j] == g;
  }

  lemma KeyIsThere(fields: seq<Field>, j: nat)
    requires j < |fields|
    ensures fields[j].key in MeaningFields(fields)
  {
    MeaningFieldsKeys(fields);
  }

  lemma {:induction false} ValueAgrees(v: Json, w: Json, k: string)
    requires v.Obj? && w.Obj? && WellFormed(v) && WellFormed(w) && k in MeaningFields(v.fields)
    requires SortEntries(RenderFields(v.fields)) == SortEntries(RenderFields(w.fields))
    ensures k in MeaningFields(w.fields) && MeaningFields(v.fields)[k] == MeaningFields(w.fields)[k]
    decreases v, 0, 1
  {
    var i, j := KeyCarries(v, w, k);
    KeyIsThere(w.fields, j);
    MeaningFieldsAt(v.fields, i);
    MeaningFieldsAt(w.fields, j);
    assert v.fields[i] in v.fields && w.fields[j] in w.fields;
    ValueUnique(v.fields[i].value, w.fields[j].value, "", "");
  }

  lemma {:induction false} FieldsCarry(v: Json, w: Json)
    requires v.Obj? && w.Obj? && WellFormed(v) && WellFormed(w)
    requires SortEntries(RenderFields(v.fields)) == SortEntries(RenderFields(w.fields))
    ensures forall k | k in MeaningFields(v.fields) ::
              k in MeaningFields(w.fields) && MeaningFields(v.fields)[k] == MeaningFields(w.fields)[k]
    decreases v, 0, 2
  {
    forall k | k in MeaningFields(v.fields)
      ensures k in MeaningFields(w.fields) && MeaningFields(v.fields)[k] == MeaningFields(w.fields)[k]
    {
      ValueAgrees(v, w, k);
    }
  }

  lemma KeysCarry(v: Json, w: Json)
    requires v.Obj? && w.Obj?
    requires SortEntries(RenderFields(v.fields)) == SortEntries(RenderFields(w.fields))
    ensures forall k | k in MeaningFields(w.fields) :: k in MeaningFields(v.fields)
  {
    forall k | k in MeaningFields(w.fields) ensures k in MeaningFields(v.fields) {
      var i, j := KeyCarries(w, v, k);
      KeyIsThere(v.fields, j);
    }
  }

  /** Objects with the same rendered entries mean the same map. */
  lemma {:induction false} FieldsAgree(v: Json, w: Json)
    requires v.Obj? && w.Obj? && WellFormed(v) && WellFormed(w)
    requires SortEntries(RenderFields(v.fields)) == SortEntries(RenderFields(w.fields))
    ensures Meaning(v) == Meaning(w)
    decreases v, 1, 0
  {
    FieldsCarry(v, w);
    KeysCarry(v, w);
    SameMaps(MeaningFields(v.fields), MeaningFields(w.fields));
  }

  lemma SameMaps(m: map<string, Value>, n: map<string, Value>)
    requires forall k | k in m :: k in n && m[k] == n[k]
    requires forall k | k in n :: k in m
    ensures m == n
  {
  }

  // ----- equal meaning gives equal text -----

  lemma {:induction false} EqualMeaningEqualText(v: Json, w: Json)
    requires WellFormed(v) && WellFormed(w) && Meaning(v) == Meaning(w)
    ensures Stringify(v) == Stringify(w)
    decreases v, 2, 0
  {
    match v
    case Arr(items) => EqualItems(v, items, w.items);
    case Obj(fields) => EqualFields(v, w);
    case _ =>
  }

  lemma {:induction false} EqualFields(v: Json, w: Json)
    requires v.Obj? && w.Obj? && WellFormed(v) && WellFormed(w) && Meaning(v) == Meaning(w)
    ensures SortEntries(RenderFields(v.fields)) == SortEntries(RenderFields(w.fields))
    decreases v, 1, 0
  {
    var es, ds := SortEntries(RenderFields(v.fields)), SortEntries(RenderFields(w.fields));
    SortedKeys(v.fields);
    SortedKeys(w.fields);
    EntriesComeFromFields(v.fields);
    EntriesComeFromFields(w.fields);
    forall i | 0 <= i < |es| ensures es[i] == ds[i] {
      assert KeyList(es)[i] == es[i].key && KeyList(ds)[i] == ds[i].key;
      assert es[i] in es && ds[i] in ds;
      EqualEntry(v, w, es[i], ds[i]);
    }
  }

  lemma {:induction false} EqualEntry(v: Json, w: Json, e: Entry, d: Entry)
    requires v.Obj? && w.Obj? && WellFormed(v) && WellFormed(w) && Meaning(v) == Meaning(w)
    requires Renders(e, v) && Renders(d, w)
    requires e.key == d.key
    ensures e == d
    decreases v, 0, 0
  {
    var f :| f in v.fields && f.key == e.key && Stringify(f.value) == e.text;
    var g :| g in w.fields && g.key == d.key && Stringify(g.value) == d.text;
    var a :| 0 <= a < |v.fields| && v.fields[a] == f;
    var b :| 0 <= b < |w.fields| && w.fields[b] == g;
    MeaningFieldsAt(v.fields, a);
    MeaningFieldsAt(w.fields, b);
    EqualMeaningEqualText(f.value, g.value);
  }

  lemma {:induction false} EqualItems(ctx: Json, xs: seq<Json>, ys: seq<Json>)
    requires (forall x | x in xs :: x < ctx) && AllWellFormed(xs) && AllWellFormed(ys)
    requires MeaningItems(xs) == MeaningItems(ys)
    ensures RenderItems(xs) == RenderItems(ys)
    decreases ctx, 0, |xs|
  {
    assert |xs| == |MeaningItems(xs)| == |ys|;
    if xs != [] {
      var x, y, xs', ys' := xs[0], ys[0], xs[1..], ys[1..];
      assert x in xs && y in ys;
      assert (forall z | z in xs' :: z in xs) && (forall z | z in ys' :: z in ys);
      ItemsHead(xs);
      ItemsHead(ys);
      EqualMeaningEqualText(x, y);
      EqualItems(ctx, xs', ys');
    }
  }

  function KeyList(es: seq<Entry>): (r: seq<string>)
    ensures |r| == |es|
  {
    seq(|es|, i requires 0 <= i < |es| => es[i].key)
  }

  /** With distinct keys the sorted entries are in the one ascending order of the key set. */
  lemma SortedKeys(fields: seq<Field>)
    requires DistinctKeys(fields)
    ensures KeyList(SortEntries(RenderFields(fields))) == Listing(MeaningFields(fields).Keys)
  {
    var rs := RenderFields(fields);
    var es := SortEntries(rs);
    SortedEntries(rs);
    DistinctPositions(es, rs);
    var q := KeyList(es);
    assert Sorted(q);
    forall k ensures k in q <==> k in MeaningFields(fields).Keys {
      SortedHasKey(fields, k);
    }
    ListingUnique(q, MeaningFields(fields).Keys);
  }

  lemma SortedHasKey(fields: seq<Field>, k: string)
    ensures k in KeyList(SortEntries(RenderFields(fields))) <==> k in MeaningFields(fields).Keys
  {
    MeaningFieldsKeys(fields);
    if k in KeyList(SortEntries(RenderFields(fields))) { ListedIsField(fields, k); }
    if i :| 0 <= i < |fields| && fields[i].key == k { FieldIsListed(fields, i); }
  }

  ghost predicate IsKey(fields: seq<Field>, k: string) { exists i :: 0 <= i < |fields| && fields[i].key == k }

  lemma ListedIsField(fields: seq<Field>, k: string)
    requires k in KeyList(SortEntries(RenderFields(fields)))
    ensures IsKey(fields, k)
  {
    EntriesComeFromFields(fields);
    KeyIsOfField(fields, SortEntries(RenderFields(fields)), k);
  }

  lemma KeyIsOfField(fields: seq<Field>, es: seq<Entry>, k: string)
    requires k in KeyList(es)
    requires forall e | e in es :: exists f :: f in fields && f.key == e.key && Stringify(f.value) == e.text
    ensures IsKey(fields, k)
  {
    var i :| 0 <= i < |es| && KeyList(es)[i] == k;
    assert es[i] in es;
    var f :| f in fields && f.key == es[i].key && Stringify(f.value) == es[i].text;
  }

  lemma FieldIsListed(fields: seq<Field>, i: nat)
    requires i < |fields|
    ensures fields[i].key in KeyList(SortEntries(RenderFields(fields)))
  {
    var es := SortEntries(RenderFields(fields));
    EntriesComeFromFields(fields);
    assert fields[i] in fields && Entry(fields[i].key, Stringify(fields[i].value)) in es;
    var j :| 0 <= j < |es| && es[j] == Entry(fields[i].key, Stringify(fields[i].value));
    assert KeyList(es)[j] == fields[i].key;
  }

  /** A rearrangement of entries with pairwise distinct keys has pairwise distinct keys. */
  lemma DistinctPositions(es: seq<Entry>, rs: seq<Entry>)
    requires multiset(es) == multiset(rs)
    requires forall i, j | 0 <= i < j < |rs| :: rs[i].key != rs[j].key
    ensures forall i, j | 0 <= i < j < |es| :: es[i].key != es[j].key
  {
    forall i, j | 0 <= i < j < |es| ensures es[i].key != es[j].key {
      if es[i].key == es[j].key {
        assert es[i] in multiset(rs) && es[j] in multiset(rs);
        var a :| 0 <= a < |rs| && rs[a] == es[i];
        var b :| 0 <= b < |rs| && rs[b] == es[j];
        assert a == b;
        TwiceIn(es, i, j);
        OnceIn(rs, a);
      }
    }
  }

  lemma TwiceIn(es: seq<Entry>, i: nat, j: nat)
    requires i < j < |es| && es[i] == es[j]
    ensures multiset(es)[es[i]] >= 2
  {
    assert es == es[..i] + [es[i]] + es[i + 1..j] + [es[j]] + es[j + 1..];
  }

  lemma OnceIn(rs: seq<Entry>, a: nat)
    requires a < |rs| && forall i | 0 <= i < |rs| && i != a :: rs[i] != rs[a]
    ensures multiset(rs)[rs[a]] == 1
  {
    assert rs == rs[..a] + [rs[a]] + rs[a + 1..];
    assert rs[a] !in rs[..a] && rs[a] !in rs[a + 1..];
  }

  /** The canonical text is equal exactly when the values are equal with objects as unordered maps. */
  lemma StringifyCanonical(v: Json, w: Json)
    requires WellFormed(v) && WellFormed(w)
    ensures Stringify(v) == Stringify(w) <==> Meaning(v) == Meaning(w)
  {
    if Stringify(v) == Stringify(w) {
      ValueUnique(v, w, "", "");
    }
    if Meaning(v) == Meaning(w) {
      EqualMeaningEqualText(v, w);
    }
  }
}
