/** JSON.stringify of a stored payload, and finding a quoted id in it, which is how
    findReferencedEntityIds (src/exports/log.ts) decides that a record mentions an entity. */
module JsonText {
  import opened Basics
  import opened EntityCommit

  /** JSON.stringify: fields in insertion order. */
  function Serialize(v: Json): string {
    match v
    case Null => "null"
    case Bool(b) => if b then "true" else "false"
    case Num(l) => l
    case Str(s) => Quote(s)
    case Arr(items) => "[" + Join(SerializeItems(items)) + "]"
    case Obj(fields) => "{" + Join(SerializeFields(fields)) + "}"
  }

  function SerializeItems(items: seq<Json>): (r: seq<string>)
    ensures |r| == |items|
  {
    if items == [] then [] else [Serialize(items[0])] + SerializeItems(items[1..])
  }

  function SerializeFields(fields: seq<Field>): (r: seq<string>)
    ensures |r| == |fields|
  {
    if fields == [] then []
    else [Quote(fields[0].key) + ":" + Serialize(fields[0].value)] + SerializeFields(fields[1..])
  }

  predicate PartAt(text: string, part: string, i: nat) {
    i + |part| <= |text| && text[i..i + |part|] == part
  }

  predicate Contains(text: string, part: string) {
    exists i: nat | i <= |text| :: PartAt(text, part, i)
  }

  /** The strings a payload lists under a field, other values skipped; the last field of a name wins. */
  function StringsOf(items: seq<Json>): seq<string> {
    if items == [] then []
    else (if items[0].Str? then [items[0].s] else []) + StringsOf(items[1..])
  }

  function FieldOf(fields: seq<Field>, key: string): Option<Json> {
    if fields == [] then None
    else if FieldOf(fields[1..], key).Some? then FieldOf(fields[1..], key)
    else if fields[0].key == key then Some(fields[0].value)
    else None
  }

  /** attachmentIds (src/pipeline/source_removals.ts). */
  function AttachmentIds(payload: Option<Json>): seq<string> {
    if payload.Some? && payload.value.Obj? then
      match FieldOf(payload.value.fields, "attachment")
      case Some(Arr(items)) => StringsOf(items)
      case _ => []
    else []
  }

  // ----- what is between the quotation marks reads back -----

  function HexValue(c: char): (n: Option<nat>)
    ensures n.Some? ==> n.value < 16
  {
    if '0' <= c <= '9' then Some((c as int) - ('0' as int))
    else if 'a' <= c <= 'f' then Some((c as int) - ('a' as int) + 10)
    else if 'A' <= c <= 'F' then Some((c as int) - ('A' as int) + 10)
    else None
  }

  /** Four hexadecimal digits that are the code of one character. */
  function CodeOf(t: string): Option<char>
    requires |t| == 4
  {
    var a, b, c, d := HexValue(t[0]), HexValue(t[1]), HexValue(t[2]), HexValue(t[3]);
    if a.Some? && b.Some? && c.Some? && d.Some? then
      var n := ((a.value * 16 + b.value) * 16 + c.value) * 16 + d.value;
      if n < 0xD800 || 0xE000 <= n < 0x10000 then Some(n as char) else None
    else None
  }

  function Named(c: char): Option<char> {
    match c
    case '"' => Some('"')
    case '\\' => Some('\\')
    case '/' => Some('/')
    case 'b' => Some(8 as char)
    case 'f' => Some(12 as char)
    case 'n' => Some('\n')
    case 'r' => Some('\r')
    case 't' => Some('\t')
    case _ => None
  }

  function Prepend(c: Option<char>, rest: Option<string>): Option<string> {
    if c.Some? && rest.Some? then Some([c.value] + rest.value) else None
  }

  /** The characters of a JSON string, section 7 of RFC 8259. */
  function Unescape(t: string): Option<string> {
    if t == "" then Some("")
    else if t[0] == '"' || t[0] < ' ' then None
    else if t[0] != '\\' then Prepend(Some(t[0]), Unescape(t[1..]))
    else if |t| >= 6 && t[1] == 'u' then Prepend(CodeOf(t[2..6]), Unescape(t[6..]))
    else if |t| >= 2 then Prepend(Named(t[1]), Unescape(t[2..]))
    else None
  }

  lemma OneReadsBack(c: char, rest: string)
    ensures Unescape(Escape(c) + rest) == Prepend(Some(c), Unescape(rest))
  {
    var e, t := Escape(c), Escape(c) + rest;
    assert t[|e|..] == rest && t[0] == e[0];
    EscapeShape(c);
    if |e| == 2 {
      NamedIs(c);
      assert t[1] == e[1] && t[1] != 'u';
    } else if |e| == 6 {
      CodeIs(c);
      assert t[1] == e[1] && t[2..6] == e[2..6];
    }
  }

  lemma NamedIs(c: char)
    ensures |Escape(c)| == 2 ==> Named(Escape(c)[1]) == Some(c)
  {
  }

  lemma CodeIs(c: char)
    requires |Escape(c)| == 6
    ensures CodeOf(Escape(c)[2..6]) == Some(c)
  {
    var code := c as int;
    assert Escape(c)[2..6] == ['0', '0', HexDigit(code / 16), HexDigit(code % 16)];
    DigitIs(code / 16);
    DigitIs(code % 16);
    assert code == code / 16 * 16 + code % 16;
  }

  lemma DigitIs(n: nat)
    requires n < 16
    ensures HexValue(HexDigit(n)) == Some(n)
  {
  }

  /** What JSON.stringify puts between the quotation marks is a JSON string and reads back as the text. */
  lemma {:induction false} QuotedReadsBack(s: string)
    ensures Unescape(EscapeAll(s)) == Some(s)
  {
    if s != "" {
      QuotedReadsBack(s[1..]);
      OneReadsBack(s[0], EscapeAll(s[1..]));
      assert [s[0]] + s[1..] == s;
    }
  }

  // ----- what the readers find -----

  /** The last field of that name. */
  ghost predicate LastField(fields: seq<Field>, key: string, i: int) {
    0 <= i < |fields| && fields[i].key == key && forall j | i < j < |fields| :: fields[j].key != key
  }

  lemma {:induction false} FieldOfIsLast(fields: seq<Field>, key: string)
    ensures FieldOf(fields, key).Some? <==> exists i :: LastField(fields, key, i)
    ensures forall i | LastField(fields, key, i) :: FieldOf(fields, key) == Some(fields[i].value)
  {
    if fields != [] {
      var rest := fields[1..];
      FieldOfIsLast(rest, key);
      forall i | LastField(fields, key, i) && i > 0 ensures LastField(rest, key, i - 1) {
        assert forall j | 0 <= j < |rest| :: rest[j] == fields[j + 1];
      }
      if FieldOf(rest, key).Some? {
        var i :| LastField(rest, key, i);
        assert LastField(fields, key, i + 1) by {
          assert forall j | 0 < j < |fields| :: fields[j] == rest[j - 1];
        }
      } else if fields[0].key == key {
        assert LastField(fields, key, 0) by {
          forall j | 0 < j < |fields| ensures fields[j].key != key { NoLaterField(rest, key, j - 1); }
        }
      }
    }
  }

  lemma {:induction false} NoLaterField(fields: seq<Field>, key: string, j: nat)
    requires FieldOf(fields, key).None? && j < |fields|
    ensures fields[j].key != key
  {
    if j > 0 { NoLaterField(fields[1..], key, j - 1); }
  }

  lemma {:induction false} StringsOfAre(items: seq<Json>, s: string)
    ensures s in StringsOf(items) <==> Str(s) in items
  {
    if items != [] {
      StringsOfAre(items[1..], s);
      assert items == [items[0]] + items[1..];
    }
  }

  /** The payload's last "attachment" field is a list holding this string. */
  ghost predicate Attaches(payload: Option<Json>, id: string) {
    && payload.Some? && payload.value.Obj?
    && exists i :: LastField(payload.value.fields, "attachment", i)
                   && payload.value.fields[i].value.Arr? && Str(id) in payload.value.fields[i].value.items
  }

  lemma AttachmentIdsAre(payload: Option<Json>, id: string)
    ensures id in AttachmentIds(payload) <==> Attaches(payload, id)
  {
    if payload.Some? && payload.value.Obj? {
      var fields := payload.value.fields;
      FieldOfIsLast(fields, "attachment");
      var found := FieldOf(fields, "attachment");
      if found.Some? && found.value.Arr? { StringsOfAre(found.value.items, id); }
    }
  }

  // ----- a listed attachment is found in the text -----

  lemma ContainsWithin(a: string, b: string, c: string, part: string)
    requires Contains(b, part)
    ensures Contains(a + b + c, part)
  {
    var i: nat :| i <= |b| && PartAt(b, part, i);
    assert (a + b + c)[|a| + i..|a| + i + |part|] == b[i..i + |part|];
    assert PartAt(a + b + c, part, |a| + i);
  }

  lemma {:induction false} JoinContains(parts: seq<string>, k: nat, part: string)
    requires k < |parts| && Contains(parts[k], part)
    ensures Contains(Join(parts), part)
  {
    if |parts| == 1 {
    } else if k == 0 {
      ContainsWithin("", parts[0], "," + Join(parts[1..]), part);
      assert "" + parts[0] + ("," + Join(parts[1..])) == Join(parts);
    } else {
      JoinContains(parts[1..], k - 1, part);
      ContainsWithin(parts[0] + ",", Join(parts[1..]), "", part);
      assert parts[0] + "," + Join(parts[1..]) + "" == Join(parts);
    }
  }

  lemma {:induction false} StringsAreItems(items: seq<Json>, id: string) returns (k: nat)
    requires id in StringsOf(items)
    ensures k < |items| && items[k] == Str(id) && SerializeItems(items)[k] == Quote(id)
  {
    if items[0] == Str(id) {
      k := 0;
    } else {
      k := StringsAreItems(items[1..], id);
      k := k + 1;
    }
  }

  lemma {:induction false} FieldIsThere(fields: seq<Field>, key: string) returns (k: nat)
    requires FieldOf(fields, key).Some?
    ensures k < |fields| && fields[k] == Field(key, FieldOf(fields, key).value)
    ensures SerializeFields(fields)[k] == Quote(key) + ":" + Serialize(fields[k].value)
  {
    if FieldOf(fields[1..], key).Some? {
      k := FieldIsThere(fields[1..], key);
      k := k + 1;
    } else {
      k := 0;
    }
  }

  /** An id a payload lists under "attachment" is found in its text. */
  lemma AttachmentIsInText(payload: Json, id: string)
    requires id in AttachmentIds(Some(payload))
    ensures Contains(Serialize(payload), Quote(id))
  {
    var list := FieldOf(payload.fields, "attachment").value;
    var k := StringsAreItems(list.items, id);
    assert PartAt(Quote(id), Quote(id), 0);
    JoinContains(SerializeItems(list.items), k, Quote(id));
    ContainsWithin("[", Join(SerializeItems(list.items)), "]", Quote(id));
    var f := FieldIsThere(payload.fields, "attachment");
    var text := Serialize(list);
    ContainsWithin(Quote("attachment") + ":", text, "", Quote(id));
    assert Quote("attachment") + ":" + text + "" == SerializeFields(payload.fields)[f];
    JoinContains(SerializeFields(payload.fields), f, Quote(id));
    ContainsWithin("{", Join(SerializeFields(payload.fields)), "}", Quote(id));
  }
}
