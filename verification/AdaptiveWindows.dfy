/** Listing meetings over a window of days that is halved whenever the supplier times out
    (listMeetingsAdaptive, src/ibabs/extractor.ts). Days are numbered; both bounds are inclusive. */
module AdaptiveWindows {
  import opened Basics

  datatype Reply<T> = Meetings(list: seq<T>) | TimedOut | Failed

  datatype Window = Window(from: int, to: int)

  /** The answer, if all went well; the windows answered without a further split, and the windows
      asked for, in order. */
  datatype Outcome<T> = Outcome(result: Option<seq<T>>, leaves: seq<Window>, asked: seq<Window>)

  function RangeDays(from: int, to: int): nat { if to - from > 0 then to - from else 0 }

  function LeftEnd(from: int, to: int): int { from + RangeDays(from, to) / 2 }

  /** `ask(i, from, to)` is the supplier's reply to the i-th call. */
  function ListMeetings<T>(ask: (nat, int, int) -> Reply<T>, made: nat, from: int, to: int): Outcome<T>
    decreases RangeDays(from, to)
  {
    var here := Window(from, to);
    match ask(made, from, to)
    case Meetings(list) => Outcome(Some(list), [here], [here])
    case Failed => Outcome(None, [], [here])
    case TimedOut =>
      if RangeDays(from, to) < 1 then Outcome(None, [], [here])
      else
        var left := ListMeetings(ask, made + 1, from, LeftEnd(from, to));
        if left.result.None? then Outcome(None, left.leaves, [here] + left.asked)
        else
          var right := ListMeetings(ask, made + 1 + |left.asked|, LeftEnd(from, to) + 1, to);
          Outcome(if right.result.None? then None else Some(left.result.value + right.result.value),
                  left.leaves + right.leaves, [here] + left.asked + right.asked)
  }

  // ----- the leaves tile the window -----

  /** The windows follow one another day by day from `from` to `to`, none of them empty. */
  ghost predicate Tiles(ws: seq<Window>, from: int, to: int) {
    && ws != [] && ws[0].from == from && ws[|ws| - 1].to == to
    && (forall i | 0 <= i < |ws| :: ws[i].from <= ws[i].to)
    && (forall i | 0 < i < |ws| :: ws[i].from == ws[i - 1].to + 1)
  }

  lemma TilesJoin(a: seq<Window>, b: seq<Window>, from: int, mid: int, to: int)
    requires Tiles(a, from, mid) && Tiles(b, mid + 1, to)
    ensures Tiles(a + b, from, to)
  {
    var ws := a + b;
    forall i | 0 <= i < |ws| ensures ws[i].from <= ws[i].to { if i >= |a| { assert ws[i] == b[i - |a|]; } }
    forall i | 0 < i < |ws| ensures ws[i].from == ws[i - 1].to + 1 {
      if i > |a| { assert ws[i] == b[i - |a|] && ws[i - 1] == b[i - |a| - 1]; }
    }
  }

  /** A successful listing covers the window day by day, with one call per leaf and one per split. */
  lemma {:induction false} LeavesTile<T>(ask: (nat, int, int) -> Reply<T>, made: nat, from: int, to: int)
    requires from <= to && ListMeetings(ask, made, from, to).result.Some?
    ensures var o := ListMeetings(ask, made, from, to);
      && Tiles(o.leaves, from, to) && |o.asked| == 2 * |o.leaves| - 1 && |o.leaves| <= RangeDays(from, to) + 1
    decreases RangeDays(from, to)
  {
    if ask(made, from, to).TimedOut? {
      var left := ListMeetings(ask, made + 1, from, LeftEnd(from, to));
      var right := ListMeetings(ask, made + 1 + |left.asked|, LeftEnd(from, to) + 1, to);
      LeavesTile(ask, made + 1, from, LeftEnd(from, to));
      LeavesTile(ask, made + 1 + |left.asked|, LeftEnd(from, to) + 1, to);
      TilesJoin(left.leaves, right.leaves, from, LeftEnd(from, to), to);
    }
  }

  lemma {:induction false} WindowsAscend(ws: seq<Window>, from: int, to: int, i: nat, j: nat)
    requires Tiles(ws, from, to) && i < j < |ws|
    ensures ws[i].to < ws[j].from
    decreases j
  {
    if i < j - 1 { WindowsAscend(ws, from, to, i, j - 1); }
  }

  predicate Holds(w: Window, day: int) { w.from <= day <= w.to }

  ghost predicate InOneOnly(ws: seq<Window>, day: int, i: int) {
    0 <= i < |ws| && Holds(ws[i], day) && forall j | 0 <= j < |ws| && j != i :: !Holds(ws[j], day)
  }

  /** Every day of the window is in exactly one leaf. */
  lemma EachDayOnce(ws: seq<Window>, from: int, to: int, day: int)
    requires Tiles(ws, from, to) && from <= day <= to
    ensures exists i :: InOneOnly(ws, day, i)
  {
    var i := 0;
    while !Holds(ws[i], day)
      invariant 0 <= i < |ws| && ws[i].from <= day
      decreases |ws| - i
    {
      i := i + 1;
    }
    forall j | 0 <= j < |ws| && j != i ensures !Holds(ws[j], day) {
      if j < i { WindowsAscend(ws, from, to, j, i); } else { WindowsAscend(ws, from, to, i, j); }
    }
    assert InOneOnly(ws, day, i);
  }

  // ----- the answer is the one a single call would give -----

  ghost predicate Additive<T(!new)>(whole: (int, int) -> seq<T>) {
    forall a, b, c | a <= b < c :: whole(a, c) == whole(a, b) + whole(b + 1, c)
  }

  ghost predicate Truthful<T(!new)>(ask: (nat, int, int) -> Reply<T>, whole: (int, int) -> seq<T>) {
    forall n, a, b | ask(n, a, b).Meetings? :: ask(n, a, b).list == whole(a, b)
  }

  /** Against a supplier that is additive over windows, splitting changes nothing. */
  lemma {:induction false} SplittingChangesNothing<T(!new)>(
    ask: (nat, int, int) -> Reply<T>, whole: (int, int) -> seq<T>, made: nat, from: int, to: int)
    requires Additive(whole) && Truthful(ask, whole) && ListMeetings(ask, made, from, to).result.Some?
    ensures ListMeetings(ask, made, from, to).result == Some(whole(from, to))
    decreases RangeDays(from, to)
  {
    if ask(made, from, to).TimedOut? {
      var left := ListMeetings(ask, made + 1, from, LeftEnd(from, to));
      SplittingChangesNothing(ask, whole, made + 1, from, LeftEnd(from, to));
      SplittingChangesNothing(ask, whole, made + 1 + |left.asked|, LeftEnd(from, to) + 1, to);
    }
  }

  // ----- giving up -----

  function Log2(n: nat): nat
    requires n >= 1
  {
    if n == 1 then 0 else 1 + Log2(n / 2)
  }

  lemma {:induction false} Log2IsFloor(n: nat)
    requires n >= 1
    ensures PowerOfTwo(Log2(n)) <= n < PowerOfTwo(Log2(n) + 1)
  {
    if n > 1 { Log2IsFloor(n / 2); }
  }

  /** When every call times out, the listing gives up after floor(log2(days)) + 2 calls: the left
      half is tried first and its failure ends it. */
  lemma {:induction false} AllTimedOutStopsEarly<T(!new)>(
    ask: (nat, int, int) -> Reply<T>, made: nat, from: int, to: int)
    requires forall n, a, b :: ask(n, a, b).TimedOut?
    ensures var o := ListMeetings(ask, made, from, to); var days := RangeDays(from, to);
      && o.result.None? && |o.asked| == (if days < 1 then 1 else Log2(days) + 2)
      && (days >= 1 ==> PowerOfTwo(Log2(days)) <= days < PowerOfTwo(Log2(days) + 1))
    decreases RangeDays(from, to)
  {
    if RangeDays(from, to) >= 1 {
      Log2IsFloor(RangeDays(from, to));
      AllTimedOutStopsEarly(ask, made + 1, from, LeftEnd(from, to));
    }
  }

  /** The call is not answered and is not split any further. */
  ghost predicate FailsFor<T>(ask: (nat, int, int) -> Reply<T>, n: nat, w: Window) {
    ask(n, w.from, w.to).Failed? || (ask(n, w.from, w.to).TimedOut? && RangeDays(w.from, w.to) < 1)
  }

  ghost predicate FirstFailureEnds<T>(ask: (nat, int, int) -> Reply<T>, made: nat, asked: seq<Window>, failed: bool) {
    && asked != []
    && forall i | 0 <= i < |asked| :: FailsFor(ask, made + i, asked[i]) <==> failed && i == |asked| - 1
  }

  ghost predicate Splits<T>(ask: (nat, int, int) -> Reply<T>, n: nat, w: Window) {
    ask(n, w.from, w.to).TimedOut? && RangeDays(w.from, w.to) >= 1
  }

  /** What a window that is split comes to. */
  lemma WhenSplit<T>(ask: (nat, int, int) -> Reply<T>, made: nat, from: int, to: int)
    returns (left: Outcome<T>, right: Outcome<T>)
    requires Splits(ask, made, Window(from, to))
    ensures left == ListMeetings(ask, made + 1, from, LeftEnd(from, to))
    ensures right == ListMeetings(ask, made + 1 + |left.asked|, LeftEnd(from, to) + 1, to)
    ensures var o := ListMeetings(ask, made, from, to);
      && o.asked == [Window(from, to)] + left.asked + (if left.result.None? then [] else right.asked)
      && (o.result.None? <==> left.result.None? || right.result.None?)
  {
    left := ListMeetings(ask, made + 1, from, LeftEnd(from, to));
    right := ListMeetings(ask, made + 1 + |left.asked|, LeftEnd(from, to) + 1, to);
    if left.result.None? { assert [Window(from, to)] + left.asked + [] == [Window(from, to)] + left.asked; }
  }

  /** The first call that fails for good ends the listing, and only such a call makes it fail. */
  lemma {:induction false} FailureEndsTheListing<T>(ask: (nat, int, int) -> Reply<T>, made: nat, from: int, to: int)
    ensures var o := ListMeetings(ask, made, from, to); FirstFailureEnds(ask, made, o.asked, o.result.None?)
    decreases RangeDays(from, to)
  {
    if Splits(ask, made, Window(from, to)) {
      var left, right := WhenSplit(ask, made, from, to);
      FailureEndsTheListing(ask, made + 1, from, LeftEnd(from, to));
      FailureEndsTheListing(ask, made + 1 + |left.asked|, LeftEnd(from, to) + 1, to);
      if left.result.None? {
        TwoParts(ask, made, Window(from, to), left.asked);
      } else {
        ThreeParts(ask, made, Window(from, to), left.asked, right.asked, right.result.None?);
      }
    } else {
      NotSplit(ask, made, from, to);
    }
  }

  lemma NotSplit<T>(ask: (nat, int, int) -> Reply<T>, made: nat, from: int, to: int)
    requires !Splits(ask, made, Window(from, to))
    ensures var o := ListMeetings(ask, made, from, to); FirstFailureEnds(ask, made, o.asked, o.result.None?)
  {
    assert ListMeetings(ask, made, from, to).asked == [Window(from, to)];
  }

  lemma TwoParts<T>(ask: (nat, int, int) -> Reply<T>, made: nat, here: Window, left: seq<Window>)
    requires !FailsFor(ask, made, here) && FirstFailureEnds(ask, made + 1, left, true)
    ensures FirstFailureEnds(ask, made, [here] + left + [], true)
  {
    AskedJoin(ask, made, [here], left, true);
    assert [here] + left + [] == [here] + left;
  }

  lemma ThreeParts<T>(ask: (nat, int, int) -> Reply<T>, made: nat, here: Window, left: seq<Window>,
                      right: seq<Window>, failed: bool)
    requires !FailsFor(ask, made, here) && FirstFailureEnds(ask, made + 1, left, false)
    requires FirstFailureEnds(ask, made + 1 + |left|, right, failed)
    ensures FirstFailureEnds(ask, made, [here] + left + right, failed)
  {
    AskedJoin(ask, made, [here], left, false);
    AskedJoin(ask, made, [here] + left, right, failed);
  }

  lemma AskedJoin<T>(ask: (nat, int, int) -> Reply<T>, made: nat, a: seq<Window>, b: seq<Window>, failed: bool)
    requires FirstFailureEnds(ask, made, a, false) && FirstFailureEnds(ask, made + |a|, b, failed)
    ensures FirstFailureEnds(ask, made, a + b, failed)
  {
    forall i | 0 <= i < |a + b| ensures FailsFor(ask, made + i, (a + b)[i]) <==> failed && i == |a + b| - 1 {
      if i >= |a| { assert (a + b)[i] == b[i - |a|] && made + i == made + |a| + (i - |a|); }
    }
  }
}
