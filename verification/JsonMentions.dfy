/** What looking for a quoted id in the JSON text of a record really finds (findReferencedEntityIds,
    src/exports/log.ts): the text is cut into strings and what stands between them, and an id with a
    character that can only stand in a string is found exactly in strings. */
module JsonMentions {
  import opened Basics
  import opened EntityCommit
  import opened JsonText

  /** A string of the value: a text or a key, at any depth. */
  ghost predicate Holds(v: Json, s: string) {
    match v
    case Str(t) => s == t
    case Arr(items) => exists x :: x in items && Holds(x, s)
    case Obj(fields) => exists f :: f in fields && (f.key == s || Holds(f.value, s))
    case _ => false
  }

  predicate EndsWith(s: string, t: string) { |t| <= |s| && s[|s| - |t|..] == t }

  /** The string is the id, or ends with a quotation mark and the id. */
  predicate Fits(s: string, id: string) { s == id || EndsWith(s, "\"" + id) }

  /** A character of numbers, literals and brackets. */
  predicate PlainChar(c: char) { NumChar(c) || c in "[]{}:,nulltruefalse" }

  predicate AllPlain(text: string) { forall c | c in text :: PlainChar(c) }

  /** Some character can only stand in a string. */
  predicate Telling(id: string) { exists c | c in id :: !PlainChar(c) }

  // ----- the text in pieces -----

  datatype Piece = Between(text: string) | Quoted(s: string)

  function Text(p: Piece): string { match p case Between(t) => t case Quoted(s) => Quote(s) }

  function Render(ps: seq<Piece>): string { if ps == [] then "" else Text(ps[0]) + Render(ps[1..]) }

  function Pieces(v: Json): seq<Piece> {
    match v
    case Str(s) => [Quoted(s)]
    case Arr(items) => [Between("[")] + ItemPieces(items) + [Between("]")]
    case Obj(fields) => [Between("{")] + FieldPieces(fields) + [Between("}")]
    case _ => [Between(Serialize(v))]
  }

  function ItemPieces(items: seq<Json>): seq<Piece> {
    if items == [] then []
    else Pieces(items[0]) + if |items| == 1 then [] else [Between(",")] + ItemPieces(items[1..])
  }

  function FieldPieces(fields: seq<Field>): seq<Piece> {
    if fields == [] then []
    else
      [Quoted(fields[0].key), Between(":")] + Pieces(fields[0].value)
      + if |fields| == 1 then [] else [Between(",")] + FieldPieces(fields[1..])
  }

  ghost predicate Sound(ps: seq<Piece>) { forall p | p in ps && p.Between? :: AllPlain(p.text) }

  lemma {:induction false} RenderConcat(a: seq<Piece>, b: seq<Piece>)
    ensures Render(a + b) == Render(a) + Render(b)
  {
    if a == [] {
      assert a + b == b;
    } else {
      assert (a + b)[1..] == a[1..] + b;
      RenderConcat(a[1..], b);
    }
  }

  lemma RenderOne(p: Piece)
    ensures Render([p]) == Text(p)
  {
    assert Render([p][1..]) == "";
  }

  lemma {:induction false} PiecesAreText(v: Json)
    ensures Render(Pieces(v)) == Serialize(v)
    decreases v, 1
  {
    match v
    case Str(s) => RenderOne(Quoted(s));
    case Arr(items) =>
      ItemsAreText(v, items);
      Bracketed("[", ItemPieces(items), "]");
    case Obj(fields) =>
      FieldsAreText(v, fields);
      Bracketed("{", FieldPieces(fields), "}");
    case _ => RenderOne(Between(Serialize(v)));
  }

  lemma Bracketed(open: string, ps: seq<Piece>, close: string)
    ensures Render([Between(open)] + ps + [Between(close)]) == open + Render(ps) + close
  {
    RenderConcat([Between(open)] + ps, [Between(close)]);
    RenderConcat([Between(open)], ps);
    RenderOne(Between(open));
    RenderOne(Between(close));
  }

  /** One part, a comma, and the rest. */
  lemma OneMore(a: seq<Piece>, b: seq<Piece>)
    ensures Render(a + ([Between(",")] + b)) == Render(a) + "," + Render(b)
  {
    RenderConcat(a, [Between(",")] + b);
    RenderConcat([Between(",")], b);
    RenderOne(Between(","));
  }

  lemma {:induction false} ItemsAreText(ctx: Json, items: seq<Json>)
    requires forall x | x in items :: x < ctx
    ensures Render(ItemPieces(items)) == Join(SerializeItems(items))
    decreases ctx, 0, |items|
  {
    if items != [] {
      assert items[0] in items && forall x | x in items[1..] :: x in items;
      PiecesAreText(items[0]);
      if |items| == 1 {
        assert Pieces(items[0]) + [] == Pieces(items[0]);
      } else {
        OneMore(Pieces(items[0]), ItemPieces(items[1..]));
        ItemsAreText(ctx, items[1..]);
        assert SerializeItems(items)[1..] == SerializeItems(items[1..]);
      }
    }
  }

  lemma FieldPart(key: string, ps: seq<Piece>)
    ensures Render([Quoted(key), Between(":")] + ps) == Quote(key) + ":" + Render(ps)
  {
    RenderConcat([Quoted(key), Between(":")], ps);
    assert [Quoted(key), Between(":")] == [Quoted(key)] + [Between(":")];
    RenderConcat([Quoted(key)], [Between(":")]);
    RenderOne(Quoted(key));
    RenderOne(Between(":"));
  }

  lemma {:induction false} FieldsAreText(ctx: Json, fields: seq<Field>)
    requires forall f | f in fields :: f.value < ctx
    ensures Render(FieldPieces(fields)) == Join(SerializeFields(fields))
    decreases ctx, 0, |fields|
  {
    if fields != [] {
      var f := fields[0];
      assert f in fields && forall x | x in fields[1..] :: x in fields;
      PiecesAreText(f.value);
      FieldPart(f.key, Pieces(f.value));
      var head := [Quoted(f.key), Between(":")] + Pieces(f.value);
      if |fields| == 1 {
        assert head + [] == head;
      } else {
        OneMore(head, FieldPieces(fields[1..]));
        FieldsAreText(ctx, fields[1..]);
        assert SerializeFields(fields)[1..] == SerializeFields(fields[1..]);
      }
    }
  }

  // ----- between the strings -----

  lemma {:induction false} PiecesAreSound(v: Json)
    ensures Sound(Pieces(v))
    decreases v, 1
  {
    match v
    case Arr(items) => ItemsAreSound(v, items);
    case Obj(fields) => FieldsAreSound(v, fields);
    case _ =>
  }

  lemma {:induction false} ItemsAreSound(ctx: Json, items: seq<Json>)
    requires forall x | x in items :: x < ctx
    ensures Sound(ItemPieces(items))
    decreases ctx, 0, |items|
  {
    if items != [] {
      assert items[0] in items && forall x | x in items[1..] :: x in items;
      PiecesAreSound(items[0]);
      ItemsAreSound(ctx, items[1..]);
    }
  }

  lemma {:induction false} FieldsAreSound(ctx: Json, fields: seq<Field>)
    requires forall f | f in fields :: f.value < ctx
    ensures Sound(FieldPieces(fields))
    decreases ctx, 0, |fields|
  {
    if fields != [] {
      assert fields[0] in fields && forall x | x in fields[1..] :: x in fields;
      PiecesAreSound(fields[0].value);
      FieldsAreSound(ctx, fields[1..]);
    }
  }

  // ----- the strings -----

  lemma {:induction false} PiecesHold(v: Json, s: string)
    ensures Quoted(s) in Pieces(v) <==> Holds(v, s)
    decreases v, 1
  {
    match v
    case Arr(items) => ItemsHold(v, items, s);
    case Obj(fields) => FieldsHold(v, fields, s);
    case _ =>
  }

  lemma {:induction false} ItemsHold(ctx: Json, items: seq<Json>, s: string)
    requires forall x | x in items :: x < ctx
    ensures Quoted(s) in ItemPieces(items) <==> exists x :: x in items && Holds(x, s)
    decreases ctx, 0, |items|
  {
    if items != [] {
      assert items[0] in items && forall x | x in items[1..] :: x in items;
      PiecesHold(items[0], s);
      ItemsHold(ctx, items[1..], s);
      assert forall x | x in items :: x == items[0] || x in items[1..];
    }
  }

  lemma {:induction false} FieldsHold(ctx: Json, fields: seq<Field>, s: string)
    requires forall f | f in fields :: f.value < ctx
    ensures Quoted(s) in FieldPieces(fields) <==> exists f :: f in fields && (f.key == s || Holds(f.value, s))
    decreases ctx, 0, |fields|
  {
    if fields != [] {
      assert fields[0] in fields && forall x | x in fields[1..] :: x in fields;
      PiecesHold(fields[0].value, s);
      FieldsHold(ctx, fields[1..], s);
      assert forall x | x in fields :: x == fields[0] || x in fields[1..];
    }
  }

  // ----- where a quoted id can stand -----

  lemma EscapedQuote(c: char, j: nat)
    requires j < |Escape(c)| && Escape(c)[j] == '"'
    ensures c == '"' && j == 1 && |Escape(c)| == 2
  {
  }

  lemma DropFirst(a: string, b: string, j: nat)
    requires |a| <= j <= |a + b|
    ensures (a + b)[j..] == b[j - |a|..]
  {
  }

  lemma QuoteOpens(id: string, rest: string)
    ensures Quote(id) + rest == "\"" + (EscapeAll(id) + "\"" + rest)
  {
  }

  lemma TextOpens(s: string, after: string)
    requires s != ""
    ensures EscapeAll(s) + "\"" + after == Escape(s[0]) + (EscapeAll(s[1..]) + "\"" + after)
  {
  }

  /** A quoted id that starts within the text of one character starts at an escaped quotation mark. */
  lemma InCharacter(c: char, tail: string, j: nat, id: string, rest: string)
    requires j < |Escape(c)| && (Escape(c) + tail)[j..] == Quote(id) + rest
    ensures c == '"' && tail == EscapeAll(id) + "\"" + rest
  {
    var e := Escape(c);
    QuoteOpens(id, rest);
    assert (e + tail)[j] == e[j] && (Quote(id) + rest)[0] == '"';
    EscapedQuote(c, j);
    assert (e + tail)[j..] == "\"" + tail;
    SamePrefix("\"", tail, EscapeAll(id) + "\"" + rest);
  }

  /** Inside a string only after a quotation mark, and up to the string's end. */
  lemma {:induction false} InString(s: string, after: string, j: nat, id: string, rest: string)
    requires j < |EscapeAll(s)| && (EscapeAll(s) + "\"" + after)[j..] == Quote(id) + rest
    ensures EndsWith(s, "\"" + id)
  {
    var e, tail := Escape(s[0]), EscapeAll(s[1..]) + "\"" + after;
    TextOpens(s, after);
    if j < |e| {
      InCharacter(s[0], tail, j, id, rest);
      EscapeAllUnique(s[1..], id, after, rest);
      assert s == "\"" + id;
    } else {
      DropFirst(e, tail, j);
      InString(s[1..], after, j - |e|, id, rest);
      LongerEnds(s, "\"" + id);
    }
  }

  lemma LongerEnds(s: string, t: string)
    requires s != "" && EndsWith(s[1..], t)
    ensures EndsWith(s, t)
  {
    assert s[|s| - |t|..] == s[1..][|s[1..]| - |t|..];
  }

  /** The first character of the text that numbers and brackets do not have is at `p`. */
  predicate OddAt(text: string, p: nat) {
    p < |text| && !PlainChar(text[p]) && forall q | 0 <= q < p :: PlainChar(text[q])
  }

  /** A plain part before it moves it on. */
  lemma OddLater(a: string, b: string, p: nat)
    requires AllPlain(a) && OddAt(b, p)
    ensures OddAt(a + b, |a| + p) && (a + b)[|a| + p] == b[p]
  {
    assert forall q | 0 <= q < |a| :: a[q] in a;
  }

  lemma OddEarlier(a: string, b: string, p: nat)
    requires AllPlain(a) && OddAt(a + b, p)
    ensures p >= |a| && OddAt(b, p - |a|) && (a + b)[p] == b[p - |a|]
  {
    assert forall q | 0 <= q < |a| :: a[q] in a && (a + b)[q] == a[q];
    assert forall q | 0 <= q < |b| :: (a + b)[|a| + q] == b[q];
  }

  lemma PlainIsItself(c: char)
    requires PlainChar(c)
    ensures Escape(c) == [c]
  {
  }

  lemma OddStaysOdd(c: char)
    requires !PlainChar(c)
    ensures !PlainChar(Escape(c)[0])
  {
  }

  /** The escaped id has such a character, and it is not a quotation mark. */
  lemma {:induction false} TellingOdd(id: string) returns (p: nat)
    requires Telling(id)
    ensures OddAt(EscapeAll(id), p) && EscapeAll(id)[p] != '"'
  {
    if PlainChar(id[0]) {
      PlainIsItself(id[0]);
      RestTells(id);
      p := TellingOdd(id[1..]);
      OddLater([id[0]], EscapeAll(id[1..]), p);
      p := p + 1;
    } else {
      p := 0;
      OddStaysOdd(id[0]);
    }
  }

  lemma RestTells(id: string)
    requires Telling(id) && PlainChar(id[0])
    ensures Telling(id[1..])
  {
    var c :| c in id && !PlainChar(c);
    assert c in id[1..];
  }

  /** Between strings, the first such character is the quotation mark of the next string. */
  lemma {:induction false} OddIsQuote(ps: seq<Piece>, p: nat)
    requires Sound(ps) && OddAt(Render(ps), p)
    ensures Render(ps)[p] == '"'
  {
    var t, rest := Text(ps[0]), Render(ps[1..]);
    assert ps[0] in ps && forall x | x in ps[1..] :: x in ps;
    if ps[0].Quoted? {
      assert (t + rest)[0] == '"';
    } else {
      OddEarlier(t, rest, p);
      OddIsQuote(ps[1..], p - |t|);
    }
  }

  /** After a closing quotation mark no such id can stand. */
  lemma NotAfterClosing(ps: seq<Piece>, id: string, rest: string)
    requires Sound(ps) && Telling(id)
    ensures Render(ps) != EscapeAll(id) + "\"" + rest
  {
    var p := TellingOdd(id);
    OddEnough(EscapeAll(id), "\"" + rest, p);
    assert EscapeAll(id) + "\"" + rest == EscapeAll(id) + ("\"" + rest);
    if Render(ps) == EscapeAll(id) + "\"" + rest { OddIsQuote(ps, p); }
  }

  lemma OddEnough(a: string, b: string, p: nat)
    requires OddAt(a, p)
    ensures OddAt(a + b, p) && (a + b)[p] == a[p]
  {
  }

  ghost predicate Found(ps: seq<Piece>, id: string) { exists s :: Quoted(s) in ps && Fits(s, id) }

  lemma FoundInString(s: string, ps: seq<Piece>, i: nat, id: string, rest: string)
    requires Sound(ps) && Telling(id) && i < |Quote(s)| && (Quote(s) + Render(ps))[i..] == Quote(id) + rest
    ensures Fits(s, id)
  {
    var after := Render(ps);
    QuoteOpens(s, after);
    if i == 0 {
      assert (Quote(s) + after)[0..] == Quote(s) + after;
      QuoteUnique(s, id, after, rest);
    } else {
      DropFirst("\"", EscapeAll(s) + "\"" + after, i);
      FoundWithin(s, ps, i - 1, id, rest);
    }
  }

  lemma FoundWithin(s: string, ps: seq<Piece>, j: nat, id: string, rest: string)
    requires Sound(ps) && Telling(id) && j <= |EscapeAll(s)|
    requires (EscapeAll(s) + "\"" + Render(ps))[j..] == Quote(id) + rest
    ensures EndsWith(s, "\"" + id)
  {
    var after := Render(ps);
    if j < |EscapeAll(s)| {
      InString(s, after, j, id, rest);
    } else {
      AtClosing(s, after, j);
      QuoteOpens(id, rest);
      SamePrefix("\"", after, EscapeAll(id) + "\"" + rest);
      NotAfterClosing(ps, id, rest);
    }
  }

  lemma AtClosing(s: string, after: string, j: nat)
    requires j == |EscapeAll(s)|
    ensures (EscapeAll(s) + "\"" + after)[j..] == "\"" + after
  {
  }

  lemma {:induction false} FoundInPieces(ps: seq<Piece>, i: nat, id: string)
    requires Sound(ps) && Telling(id) && PartAt(Render(ps), Quote(id), i)
    ensures Found(ps, id)
  {
    assert ps[0] in ps && forall x | x in ps[1..] :: x in ps;
    if i >= |Text(ps[0])| {
      PartLater(Text(ps[0]), Render(ps[1..]), Quote(id), i);
      FoundInPieces(ps[1..], i - |Text(ps[0])|, id);
    } else {
      StartsInString(ps, i, id);
      var rest := Render(ps)[i + |Quote(id)|..];
      assert Render(ps)[i..] == Quote(id) + rest;
      FoundInString(ps[0].s, ps[1..], i, id, rest);
    }
  }

  lemma PartLater(a: string, b: string, part: string, i: nat)
    requires PartAt(a + b, part, i) && i >= |a|
    ensures PartAt(b, part, i - |a|)
  {
    assert (a + b)[i..i + |part|] == b[i - |a|..i - |a| + |part|];
  }

  lemma StartsInString(ps: seq<Piece>, i: nat, id: string)
    requires Sound(ps) && ps != [] && i < |Text(ps[0])| && PartAt(Render(ps), Quote(id), i)
    ensures ps[0].Quoted?
  {
    assert ps[0] in ps;
    FirstOfPart(Text(ps[0]), Render(ps[1..]), Quote(id), i);
    if ps[0].Between? { NoQuoteIn(ps[0].text); }
  }

  lemma FirstOfPart(a: string, b: string, part: string, i: nat)
    requires PartAt(a + b, part, i) && part != "" && i < |a|
    ensures part[0] in a
  {
    assert (a + b)[i..i + |part|][0] == a[i];
  }

  lemma NoQuoteIn(text: string)
    requires AllPlain(text)
    ensures '"' !in text
  {
  }

  // ----- and back -----

  lemma {:induction false} PieceIsThere(ps: seq<Piece>, p: Piece, part: string)
    requires p in ps && Contains(Text(p), part)
    ensures Contains(Render(ps), part)
  {
    if ps[0] == p {
      ContainsBefore(Text(p), Render(ps[1..]), part);
    } else {
      PieceIsThere(ps[1..], p, part);
      ContainsAfter(Text(ps[0]), Render(ps[1..]), part);
    }
  }

  lemma ContainsBefore(a: string, b: string, part: string)
    requires Contains(a, part)
    ensures Contains(a + b, part)
  {
    ContainsWithin("", a, b, part);
    assert "" + a + b == a + b;
  }

  lemma ContainsAfter(a: string, b: string, part: string)
    requires Contains(b, part)
    ensures Contains(a + b, part)
  {
    ContainsWithin(a, b, "", part);
    assert a + b + "" == a + b;
  }

  lemma {:induction false} EscapeConcat(a: string, b: string)
    ensures EscapeAll(a + b) == EscapeAll(a) + EscapeAll(b)
  {
    if a == "" {
      assert a + b == b;
    } else {
      assert (a + b)[1..] == a[1..] + b;
      EscapeConcat(a[1..], b);
    }
  }

  lemma FittingIsThere(s: string, id: string)
    requires Fits(s, id)
    ensures Contains(Quote(s), Quote(id))
  {
    PartAtStart(Quote(id));
    if s != id { EndIsThere(s[..|s| - |id| - 1], s, id); }
  }

  lemma EndIsThere(before: string, s: string, id: string)
    requires s == before + ("\"" + id)
    ensures Contains(Quote(s), Quote(id))
  {
    EscapeConcat(before, "\"" + id);
    EscapedMark(id);
    var a := "\"" + EscapeAll(before) + "\\";
    PartAtStart(Quote(id));
    ContainsAfter(a, Quote(id), Quote(id));
    Parts(EscapeAll(before), EscapeAll(id));
  }

  lemma PartAtStart(part: string)
    ensures Contains(part, part)
  {
    assert PartAt(part, part, 0);
  }

  lemma EscapedMark(id: string)
    ensures EscapeAll("\"" + id) == "\\\"" + EscapeAll(id)
  {
    assert ("\"" + id)[1..] == id;
  }

  lemma Parts(a: string, b: string)
    ensures ("\"" + a + "\\") + ("\"" + b + "\"") == "\"" + (a + ("\\\"" + b)) + "\""
  {
  }

  /** An id with a character that only strings have is found in the text of a value exactly when it is
      one of the value's strings or keys, or one of them ends with a quotation mark and the id. */
  lemma FoundIff(v: Json, id: string)
    requires Telling(id)
    ensures Contains(Serialize(v), Quote(id)) <==> exists s :: Holds(v, s) && Fits(s, id)
  {
    PiecesAreText(v);
    PiecesAreSound(v);
    forall s ensures Quoted(s) in Pieces(v) <==> Holds(v, s) { PiecesHold(v, s); }
    if Contains(Serialize(v), Quote(id)) {
      var i: nat :| i <= |Serialize(v)| && PartAt(Serialize(v), Quote(id), i);
      FoundInPieces(Pieces(v), i, id);
    }
    if s :| Holds(v, s) && Fits(s, id) {
      FittingIsThere(s, id);
      PieceIsThere(Pieces(v), Quoted(s), Quote(id));
    }
  }

  // ----- what an id has to have -----

  /** The id of a document is told from what stands between strings by its first letter. */
  lemma DocumentTells(id: string)
    requires "document:" <= id
    ensures Telling(id)
  {
    assert id[0] == 'd' && 'd' in id;
  }

  /** A value can be found to mention what is none of its strings: a title that ends with a quotation
      mark and the id is enough. */
  lemma TitleCounts(before: string, id: string)
    requires id != "name"
    ensures var v := Obj([Field("name", Str(before + "\"" + id))]);
      Contains(Serialize(v), Quote(id)) && !Holds(v, id)
  {
    var s := before + "\"" + id;
    var v := Obj([Field("name", Str(s))]);
    EndIsThere(before, s, id);
    PiecesAreText(v);
    FieldsHold(v, v.fields, s);
    assert v.fields[0] in v.fields;
    PieceIsThere(Pieces(v), Quoted(s), Quote(id));
  }
}
