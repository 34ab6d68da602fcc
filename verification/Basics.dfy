/** Small shared vocabulary: optional values, a little arithmetic, the order SQLite's BINARY
    collation puts on text keys, and the ordered listing of a key set. */
module Basics {

  datatype Option<+T> = None | Some(value: T)

  function Min(a: int, b: int): int { if a <= b then a else b }
  function Max(a: int, b: int): int { if a <= b then b else a }
  function Lesser(a: real, b: real): real { if a <= b then a else b }
  function Greater(a: real, b: real): real { if a <= b then b else a }

  function Ceiling(x: real): (c: int)
    ensures c as real >= x && (c - 1) as real < x
  {
    -((-x).Floor)
  }

  function PowerOfTwo(n: nat): nat { if n == 0 then 1 else 2 * PowerOfTwo(n - 1) }

  function Sum(s: seq<nat>): nat { if s == [] then 0 else Sum(s[..|s| - 1]) + s[|s| - 1] }

  lemma {:induction false} SumUpdate(s: seq<nat>, i: nat, x: nat)
    requires i < |s|
    ensures Sum(s[i := x]) + s[i] == Sum(s) + x && s[i] <= Sum(s)
  {
    var n := |s| - 1;
    if i == n {
      assert s[i := x][..n] == s[..n];
    } else {
      SumUpdate(s[..n], i, x);
      assert s[i := x][..n] == s[..n][i := x];
    }
  }

  lemma {:induction false} SumOfSame(s: seq<nat>, x: nat)
    requires forall i | 0 <= i < |s| :: s[i] == x
    ensures Sum(s) == |s| * x
  {
    if s != [] { SumOfSame(s[..|s| - 1], x); }
  }

  predicate NoDuplicates(q: seq<string>) { forall i, j | 0 <= i < j < |q| :: q[i] != q[j] }

  lemma Regroup<T>(a: seq<T>, b: seq<T>, c: seq<T>)
    ensures a + (b + c) == (a + b) + c
  {
  }

  /** Code-point order on strings, the order in which the database returns text keys. */
  predicate Less(a: string, b: string) {
    if |b| == 0 then false
    else if |a| == 0 then true
    else a[0] < b[0] || (a[0] == b[0] && Less(a[1..], b[1..]))
  }

  /** The first character that differs decides; a proper front piece comes first. */
  ghost predicate DiffersAt(a: string, b: string, i: int) {
    && 0 <= i < |b| && i <= |a| && a[..i] == b[..i] && (i < |a| ==> a[i] < b[i])
  }

  lemma {:induction false} LessIff(a: string, b: string)
    ensures Less(a, b) <==> exists i :: DiffersAt(a, b, i)
  {
    if |a| == 0 || |b| == 0 {
      if |b| > 0 { assert DiffersAt(a, b, 0); }
    } else if a[0] == b[0] {
      LessIff(a[1..], b[1..]);
      if i :| DiffersAt(a[1..], b[1..], i) { DiffersLater(a, b, i); }
      if i :| DiffersAt(a, b, i) { DiffersSooner(a, b, i); }
    } else {
      if Less(a, b) { assert DiffersAt(a, b, 0); }
      if i :| DiffersAt(a, b, i) { assert i > 0 ==> a[..i][0] == b[..i][0]; }
    }
  }

  lemma DiffersLater(a: string, b: string, i: nat)
    requires |a| > 0 && |b| > 0 && a[0] == b[0] && DiffersAt(a[1..], b[1..], i)
    ensures DiffersAt(a, b, i + 1)
  {
    assert a[..i + 1] == [a[0]] + a[1..][..i] && b[..i + 1] == [b[0]] + b[1..][..i];
  }

  lemma DiffersSooner(a: string, b: string, i: nat)
    requires |a| > 0 && |b| > 0 && a[0] == b[0] && DiffersAt(a, b, i)
    ensures DiffersAt(a[1..], b[1..], i - 1)
  {
    assert a[1..][..i - 1] == a[..i][1..] && b[1..][..i - 1] == b[..i][1..];
  }

  lemma {:induction false} LessTotal(a: string, b: string)
    ensures Less(a, b) || a == b || Less(b, a)
    ensures !(Less(a, b) && (a == b || Less(b, a)))
    ensures !Less(a, a)
  {
    if |a| == 0 || |b| == 0 {
    } else {
      LessTotal(a[1..], b[1..]);
      assert a == [a[0]] + a[1..] && b == [b[0]] + b[1..];
    }
    if |a| != 0 {
      LessTotal(a[1..], a[1..]);
    }
  }

  lemma {:induction false} LessTransitive(a: string, b: string, c: string)
    requires Less(a, b) && Less(b, c)
    ensures Less(a, c)
  {
    if |a| != 0 && a[0] == b[0] && b[0] == c[0] {
      LessTransitive(a[1..], b[1..], c[1..]);
    }
  }

  predicate IsLeast(x: string, s: set<string>) {
    x in s && forall y | y in s :: y == x || Less(x, y)
  }

  lemma {:induction false} LeastExists(s: set<string>)
    requires s != {}
    ensures exists x :: IsLeast(x, s)
  {
    var z :| z in s;
    if s == {z} {
      assert IsLeast(z, s);
    } else {
      LeastExists(s - {z});
      var x :| IsLeast(x, s - {z});
      LessTotal(x, z);
      if Less(x, z) {
        assert IsLeast(x, s);
      } else {
        forall y | y in s ensures y == z || Less(z, y) {
          if y != z && y != x { LessTransitive(z, x, y); }
        }
        assert IsLeast(z, s);
      }
    }
  }

  function Least(s: set<string>): (x: string)
    requires s != {}
    ensures IsLeast(x, s)
  {
    LeastExists(s);
    assert forall x, y | IsLeast(x, s) && IsLeast(y, s) :: x == y by {
      forall x, y | IsLeast(x, s) && IsLeast(y, s) ensures x == y { LessTotal(x, y); }
    }
    var x :| IsLeast(x, s);
    x
  }

  predicate Sorted(q: seq<string>) {
    forall i, j | 0 <= i < j < |q| :: Less(q[i], q[j])
  }

  /** The keys of `s` in ascending order. */
  function Listing(s: set<string>): (q: seq<string>)
    ensures Sorted(q)
    ensures forall x :: x in q <==> x in s
    ensures |q| == |s|
  {
    if s == {} then []
    else
      var x := Least(s);
      var rest := Listing(s - {x});
      assert forall i | 0 <= i < |rest| :: rest[i] in rest;
      [x] + rest
  }

  /** A sorted listing of a set is unique. */
  lemma {:induction false} ListingUnique(q: seq<string>, s: set<string>)
    requires Sorted(q) && forall x :: x in q <==> x in s
    ensures q == Listing(s)
  {
    if q == [] {
      assert forall y :: y !in s;
    } else {
      FirstIsLeast(q, s);
      RestIs(q, s);
      ListingUnique(q[1..], s - {q[0]});
    }
  }

  lemma FirstIsLeast(q: seq<string>, s: set<string>)
    requires Sorted(q) && q != [] && forall x :: x in q <==> x in s
    ensures s != {} && q[0] == Least(s)
  {
    assert q[0] in q;
    var k :| 0 <= k < |q| && q[k] == Least(s);
    LessTotal(q[0], q[k]);
  }

  lemma RestIs(q: seq<string>, s: set<string>)
    requires Sorted(q) && q != [] && forall x :: x in q <==> x in s
    ensures forall y :: y in q[1..] <==> y in s - {q[0]}
  {
    var rest := q[1..];
    assert q == [q[0]] + rest;
    forall i | 0 <= i < |rest| ensures rest[i] != q[0] { LessTotal(q[0], q[i + 1]); }
  }
}
