/** Cutting a range of dates into chunks of months: splitDateRange (src/gemeenteoplossingen/extractor.ts)
    and dateChunks (scripts/enqueue_full_history.ts). Dates are day numbers, months are numbered on
    from January of year 0, and months have their real lengths. A number of months may be any number:
    it is added to the month of the year, and the sum is cut off towards zero. */
module DateChunks {
  import opened Basics

  datatype Chunk = Chunk(from: int, to: int)

  // ----- the calendar -----

  predicate IsLeap(year: int) { year % 4 == 0 && (year % 100 != 0 || year % 400 == 0) }

  /** Days in month number `m`. */
  function Length(m: int): (n: nat)
    ensures 28 <= n <= 31
  {
    var month := m % 12;
    if month == 1 then if IsLeap(m / 12) then 29 else 28
    else if month in {3, 5, 8, 10} then 30
    else 31
  }

  /** The day number of the first of month `m`. */
  function First(m: int): int
    decreases if m < 0 then -m else m
  {
    if m == 0 then 0 else if m > 0 then First(m - 1) + Length(m - 1) else First(m + 1) - Length(m)
  }

  lemma NextFirst(m: int)
    ensures First(m + 1) == First(m) + Length(m)
  {
  }

  /** The days before a year, counted from year 0: 365 a year, one more every fourth, less every
      hundredth, one more every four hundredth. */
  function YearStart(y: int): int { 365 * y + (y + 3) / 4 - (y + 99) / 100 + (y + 399) / 400 }

  /** The days of a common year before a month of it. */
  const BEFORE: seq<int> := [0, 31, 59, 90, 120, 151, 181, 212, 243, 273, 304, 334, 365]

  function LeapDay(y: int): int { if y % 4 == 0 && (y % 100 != 0 || y % 400 == 0) then 1 else 0 }

  lemma EveryFourth(y: int)
    ensures (y + 4) / 4 == (y + 3) / 4 + if y % 4 == 0 then 1 else 0
  {
  }

  lemma EveryHundredth(y: int)
    ensures (y + 100) / 100 == (y + 99) / 100 + if y % 100 == 0 then 1 else 0
  {
  }

  lemma EveryFourHundredth(y: int)
    ensures (y + 400) / 400 == (y + 399) / 400 + if y % 400 == 0 then 1 else 0
  {
  }

  lemma Nested(y: int)
    ensures (y % 400 == 0 ==> y % 100 == 0) && (y % 100 == 0 ==> y % 4 == 0)
  {
  }

  lemma YearIs(y: int)
    ensures YearStart(y + 1) == YearStart(y) + 365 + LeapDay(y)
  {
    EveryFourth(y);
    EveryHundredth(y);
    EveryFourHundredth(y);
    Nested(y);
    YearParts(y);
  }

  lemma YearParts(y: int)
    ensures YearStart(y + 1) == 365 * y + 365 + (y + 4) / 4 - (y + 100) / 100 + (y + 400) / 400
  {
  }

  /** The Gregorian calendar in closed form. */
  ghost predicate DatesRight(y: int, k: int) {
    0 <= k <= 12 ==> First(12 * y + k) == YearStart(y) + BEFORE[k] + if k >= 2 then LeapDay(y) else 0
  }

  lemma MonthOfYear(y: int, k: int)
    requires 0 <= k < 12
    ensures Length(12 * y + k) == BEFORE[k + 1] - BEFORE[k] + if k == 1 then LeapDay(y) else 0
  {
    assert (12 * y + k) % 12 == k && (12 * y + k) / 12 == y;
  }

  lemma {:induction false} MonthsOfYear(y: int, k: int)
    requires First(12 * y) == YearStart(y) && 0 <= k <= 12
    ensures DatesRight(y, k)
    decreases k
  {
    if k > 0 {
      MonthsOfYear(y, k - 1);
      MonthOn(y, k - 1);
    }
  }

  lemma MonthOn(y: int, k: int)
    requires 0 <= k < 12
    ensures DatesRight(y, k) <==> DatesRight(y, k + 1)
  {
    MonthOfYear(y, k);
    NextFirst(12 * y + k);
  }

  lemma {:induction false} MonthsBack(y: int, k: int)
    requires First(12 * y + 12) == YearStart(y + 1) && 0 <= k <= 12
    ensures DatesRight(y, k)
    decreases 12 - k
  {
    YearIs(y);
    if k < 12 {
      MonthsBack(y, k + 1);
      MonthOn(y, k);
    }
  }

  lemma {:induction false} YearsRight(y: int)
    ensures First(12 * y) == YearStart(y)
    decreases if y < 0 then -y else y
  {
    if y > 0 {
      YearsRight(y - 1);
      YearForth(y - 1);
    } else if y < 0 {
      YearsRight(y + 1);
      YearBack(y);
    }
  }

  lemma YearForth(y: int)
    requires First(12 * y) == YearStart(y)
    ensures First(12 * (y + 1)) == YearStart(y + 1)
  {
    MonthsOfYear(y, 12);
    YearIs(y);
    assert 12 * (y + 1) == 12 * y + 12;
  }

  lemma YearBack(y: int)
    requires First(12 * (y + 1)) == YearStart(y + 1)
    ensures First(12 * y) == YearStart(y)
  {
    assert 12 * (y + 1) == 12 * y + 12;
    MonthsBack(y, 0);
  }

  /** The first of a month is where the Gregorian calendar has it, for every year before or after 0. */
  lemma CalendarIs(y: int, k: int)
    requires 0 <= k < 12
    ensures First(12 * y + k) == 365 * y + (y + 3) / 4 - (y + 99) / 100 + (y + 399) / 400
        + [0, 31, 59, 90, 120, 151, 181, 212, 243, 273, 304, 334][k]
        + if k >= 2 && y % 4 == 0 && (y % 100 != 0 || y % 400 == 0) then 1 else 0
  {
    YearsRight(y);
    MonthsOfYear(y, k);
  }

  lemma {:induction false} FirstsAscend(m: int, n: int)
    requires m <= n
    ensures First(n) - First(m) >= 28 * (n - m)
    decreases n - m
  {
    if m < n {
      FirstsAscend(m, n - 1);
      NextFirst(n - 1);
    }
  }

  predicate InMonth(day: int, m: int) { First(m) <= day < First(m + 1) }

  /** The month a day lies in, looked for from month `m`. */
  function MonthFrom(m: int, day: int): (n: int)
    ensures InMonth(day, n)
    decreases if InMonth(day, m) then 0 else 1 + if day < First(m) then First(m) - day else day - First(m)
  {
    NextFirst(m);
    NextFirst(m - 1);
    NextFirst(m + 1);
    if day < First(m) then MonthFrom(m - 1, day)
    else if day >= First(m + 1) then MonthFrom(m + 1, day)
    else m
  }

  function MonthOf(day: int): (m: int)
    ensures InMonth(day, m)
  {
    MonthFrom(0, day)
  }

  lemma MonthIsOne(day: int, m: int, n: int)
    requires InMonth(day, m) && InMonth(day, n)
    ensures m == n
  {
    if m < n { FirstsAscend(m + 1, n); }
    if n < m { FirstsAscend(n + 1, m); }
  }

  function DayOfMonth(day: int): (d: int)
    ensures 1 <= d <= Length(MonthOf(day))
  {
    NextFirst(MonthOf(day));
    day - First(MonthOf(day)) + 1
  }

  /** Date.setUTCMonth: the same day of the month that many months on; a day that month does not
      have runs over into the next. */
  function AddMonths(day: int, months: int): int { First(MonthOf(day) + months) + DayOfMonth(day) - 1 }

  /** It keeps the day of the month exactly when the target month has it, and otherwise lands in the
      month after, as many days in as were missing. */
  lemma AddMonthsIs(day: int, months: int)
    ensures var m, d, there := MonthOf(day) + months, DayOfMonth(day), AddMonths(day, months);
      && (d <= Length(m) <==> MonthOf(there) == m)
      && (d <= Length(m) ==> DayOfMonth(there) == d)
      && (d > Length(m) ==> MonthOf(there) == m + 1 && DayOfMonth(there) == d - Length(m))
  {
    var m, d, there := MonthOf(day) + months, DayOfMonth(day), AddMonths(day, months);
    NextFirst(m);
    NextFirst(m + 1);
    if d <= Length(m) {
      MonthIsOne(there, MonthOf(there), m);
    } else {
      MonthIsOne(there, MonthOf(there), m + 1);
    }
  }

  lemma AddMonthsMoves(day: int, months: int)
    ensures months >= 1 ==> AddMonths(day, months) > day
    ensures months <= -1 ==> AddMonths(day, months) < day
  {
    var m := MonthOf(day);
    if months >= 1 { FirstsAscend(m, m + months); }
    if months <= -1 { FirstsAscend(m + months, m); }
  }

  lemma MoreMonthsLater(day: int, a: int, b: int)
    requires a <= b
    ensures AddMonths(day, a) <= AddMonths(day, b)
  {
    FirstsAscend(MonthOf(day) + a, MonthOf(day) + b);
  }

  // ----- a number of months that need not be whole -----

  /** Cut off towards zero. */
  function Truncate(x: real): int { if x >= 0.0 then x.Floor else Ceiling(x) }

  /** How many months a date really moves. */
  function WholeMonths(day: int, months: real): int {
    var month := MonthOf(day) % 12;
    Truncate(month as real + months) - month
  }

  /** setUTCMonth(getUTCMonth() + months). */
  function Shift(day: int, months: real): int { AddMonths(day, WholeMonths(day, months)) }

  lemma WholeMonthsForward(day: int, months: real)
    requires months >= 0.0
    ensures WholeMonths(day, months) == months.Floor
  {
    FloorOfSum(MonthOf(day) % 12, months);
  }

  lemma FloorOfSum(n: int, x: real)
    ensures (n as real + x).Floor == n + x.Floor
  {
    var a, b := (n as real + x).Floor, n + x.Floor;
    assert a as real <= n as real + x < a as real + 1.0;
    assert b as real <= n as real + x < b as real + 1.0;
  }

  /** Going back within the year a fraction counts as a whole month; going back past January it is
      dropped. */
  lemma WholeMonthsBack(day: int, months: real)
    requires months >= 0.0
    ensures WholeMonths(day, -months) == MonthsBackFrom(MonthOf(day) % 12, months)
    ensures months >= 1.0 ==> -Ceiling(months) <= WholeMonths(day, -months) <= -1
  {
    var month := MonthOf(day) % 12;
    FloorOfSum(month, -months);
    FloorOfSum(-month, months);
    assert month as real - months == month as real + -months;
    assert -(month as real - months) == (-month) as real + months;
  }

  function MonthsBackFrom(month: nat, months: real): int {
    if months <= month as real then (-months).Floor else -months.Floor
  }

  /** The cursor moves on exactly when the number of months is at least one; a smaller one leaves it
      where it is. */
  lemma CursorMovesIff(day: int, months: real)
    requires months > 0.0
    ensures Shift(day, months) > day <==> months >= 1.0
    ensures months < 1.0 ==> Shift(day, months) == day
  {
    WholeMonthsForward(day, months);
    AddMonthsMoves(day, months.Floor);
  }

  // ----- inclusive chunks, oldest first -----

  /** The chunks cover [from, to] day by day, each less than `months` months long. */
  ghost predicate Partitions(chunks: seq<Chunk>, from: int, to: int, months: int) {
    && chunks != [] && chunks[0].from == from && chunks[|chunks| - 1].to == to
    && (forall i | 0 <= i < |chunks| :: chunks[i].from <= chunks[i].to < AddMonths(chunks[i].from, months))
    && (forall i | 0 < i < |chunks| :: chunks[i].from == chunks[i - 1].to + 1)
  }

  /** Every day of the range lies in one chunk and every chunk lies in the range. */
  lemma PartitionHolds(chunks: seq<Chunk>, from: int, to: int, months: int, day: int)
    requires Partitions(chunks, from, to, months)
    ensures from <= day <= to <==> exists i :: InChunk(chunks, day, i)
    ensures forall i, j | InChunk(chunks, day, i) && InChunk(chunks, day, j) :: i == j
  {
    if from <= day <= to { var i := ChunkOf(chunks, from, to, months, day); }
    if i :| InChunk(chunks, day, i) {
      ChunksApart(chunks, from, to, months, 0, i);
      ChunksApart(chunks, from, to, months, i, |chunks| - 1);
    }
    forall i, j | InChunk(chunks, day, i) && InChunk(chunks, day, j) ensures i == j {
      ChunksApart(chunks, from, to, months, Min(i, j), Max(i, j));
    }
  }

  /** A later chunk starts after an earlier one has ended. */
  lemma {:induction false} ChunksApart(chunks: seq<Chunk>, from: int, to: int, months: int, i: int, j: int)
    requires Partitions(chunks, from, to, months) && 0 <= i <= j < |chunks|
    ensures chunks[i].from <= chunks[j].from && chunks[i].to <= chunks[j].to
    ensures i < j ==> chunks[i].to < chunks[j].from
    decreases j
  {
    if i < j { ChunksApart(chunks, from, to, months, i, j - 1); }
  }

  lemma ChunkOf(chunks: seq<Chunk>, from: int, to: int, months: int, day: int) returns (i: nat)
    requires Partitions(chunks, from, to, months) && from <= day <= to
    ensures InChunk(chunks, day, i)
  {
    i := 0;
    while chunks[i].to < day
      invariant i < |chunks| && chunks[i].from <= day
      decreases |chunks| - i
    {
      i := i + 1;
    }
  }

  ghost predicate InChunk(chunks: seq<Chunk>, day: int, i: int) {
    0 <= i < |chunks| && chunks[i].from <= day <= chunks[i].to
  }

  lemma PartitionGrows(chunks: seq<Chunk>, from: int, cursor: int, end: int, months: int)
    requires if chunks == [] then cursor == from else Partitions(chunks, from, cursor - 1, months)
    requires cursor <= end < AddMonths(cursor, months)
    ensures Partitions(chunks + [Chunk(cursor, end)], from, end, months)
  {
    var t := chunks + [Chunk(cursor, end)];
    assert forall i | 0 <= i < |chunks| :: t[i] == chunks[i];
  }

  /** Every chunk is that many months long or ends with the range. */
  ghost predicate CutAt(chunks: seq<Chunk>, to: int, months: int) {
    forall x | x in chunks :: x.to == Min(to, AddMonths(x.from, months) - 1)
  }

  lemma CutGrows(chunks: seq<Chunk>, to: int, cursor: int, end: int, months: int)
    requires CutAt(chunks, to, months) && end == Min(to, AddMonths(cursor, months) - 1)
    ensures CutAt(chunks + [Chunk(cursor, end)], to, months)
  {
  }

  /** Where the loop stands: the days before the cursor are covered, or all of them. */
  ghost predicate Covered(chunks: seq<Chunk>, from: int, to: int, cursor: int, months: int) {
    if chunks == [] then cursor == from
    else Partitions(chunks, from, if cursor <= to then cursor - 1 else to, months)
  }

  /** Where the loop's cursor is after `n` turns. */
  function CursorAfter(from: int, months: real, n: nat): int {
    if n == 0 then from else Shift(CursorAfter(from, months, n - 1), months)
  }

  /** The call returns: it does not loop, or after some number of turns the cursor is past the end. */
  ghost predicate Ends(from: int, to: int, months: real) {
    months <= 0.0 || exists n: nat :: CursorAfter(from, months, n) > to
  }

  lemma {:induction false} CursorStays(from: int, months: real, n: nat)
    requires 0.0 < months < 1.0
    ensures CursorAfter(from, months, n) == from
  {
    if n > 0 {
      CursorStays(from, months, n - 1);
      CursorMovesIff(from, months);
    }
  }

  lemma {:induction false} CursorAdvances(from: int, months: real, n: nat)
    requires months >= 1.0
    ensures CursorAfter(from, months, n) >= from + n
  {
    if n > 0 {
      CursorAdvances(from, months, n - 1);
      CursorMovesIff(CursorAfter(from, months, n - 1), months);
    }
  }

  /** The call returns exactly when there is nothing to loop over or the number of months is not a
      fraction between zero and one. */
  lemma EndsIff(from: int, to: int, months: real)
    ensures Ends(from, to, months) <==> months <= 0.0 || months >= 1.0 || from > to
  {
    if from > to { assert CursorAfter(from, months, 0) > to; }
    if months >= 1.0 && from <= to {
      CursorAdvances(from, months, to - from + 1);
      assert CursorAfter(from, months, to - from + 1) > to;
    }
    if n: nat :| CursorAfter(from, months, n) > to {
      if 0.0 < months < 1.0 { CursorStays(from, months, n); }
    }
  }

  /** Half a month over a single day never returns. */
  lemma HalfAMonthNeverEnds(day: int)
    ensures !Ends(day, day, 0.5)
  {
    EndsIff(day, day, 0.5);
  }

  /** The first `turns` turns of the loop, and whether it ended in them. When it ends the chunks
      partition the range into pieces of at most that many whole months; it has ended once there were
      more turns than days, unless the number of months is a fraction below one, when every turn adds
      an empty chunk at the start and it never does. */
  method SplitDateRange(dateFrom: int, dateTo: int, chunkMonths: real, turns: nat)
    returns (chunks: seq<Chunk>, ended: bool)
    ensures chunkMonths <= 0.0 ==> ended && chunks == [Chunk(dateFrom, dateTo)]
    ensures chunkMonths > 0.0 && dateFrom > dateTo ==> ended && chunks == []
    ensures chunkMonths >= 1.0 && turns > dateTo - dateFrom ==> ended
    ensures ended && chunkMonths > 0.0 && dateFrom <= dateTo ==>
              chunkMonths >= 1.0 && Partitions(chunks, dateFrom, dateTo, chunkMonths.Floor)
    ensures chunkMonths >= 1.0 ==> CutAt(chunks, dateTo, chunkMonths.Floor)
    ensures 0.0 < chunkMonths < 1.0 && dateFrom <= dateTo ==>
              !ended && |chunks| == turns && forall i | 0 <= i < turns :: chunks[i] == Chunk(dateFrom, dateFrom - 1)
  {
    if chunkMonths <= 0.0 {
      return [Chunk(dateFrom, dateTo)], true;
    }
    chunks := [];
    var cursor := dateFrom;
    var turn := 0;
    while turn < turns && cursor <= dateTo
      invariant turn <= turns && Turned(chunks, dateFrom, dateTo, chunkMonths, cursor, turn)
    {
      var nextCursor := Shift(cursor, chunkMonths);
      var chunkEnd := if nextCursor > dateTo then dateTo else nextCursor - 1;
      TurnKeeps(chunks, dateFrom, dateTo, chunkMonths, cursor, turn);
      chunks := chunks + [Chunk(cursor, chunkEnd)];
      cursor, turn := nextCursor, turn + 1;
    }
    ended := cursor > dateTo;
  }

  /** What holds after a number of turns of the loop. */
  ghost predicate Turned(chunks: seq<Chunk>, from: int, to: int, months: real, cursor: int, turn: nat) {
    && (chunks == [] <==> turn == 0) && cursor == CursorAfter(from, months, turn) && (from > to ==> chunks == [])
    && (months >= 1.0 ==>
          && Covered(chunks, from, to, cursor, months.Floor) && cursor >= from + turn
          && CutAt(chunks, to, months.Floor))
    && (months < 1.0 ==>
          cursor == from && |chunks| == turn && forall i | 0 <= i < turn :: chunks[i] == Chunk(from, from - 1))
  }

  lemma TurnKeeps(chunks: seq<Chunk>, from: int, to: int, months: real, cursor: int, turn: nat)
    requires months > 0.0 && cursor <= to && Turned(chunks, from, to, months, cursor, turn)
    ensures var next := Shift(cursor, months);
      Turned(chunks + [Chunk(cursor, if next > to then to else next - 1)], from, to, months, next, turn + 1)
  {
    CursorMovesIff(cursor, months);
    WholeMonthsForward(cursor, months);
    if months >= 1.0 { LongTurn(chunks, from, to, months, cursor); }
  }

  lemma LongTurn(chunks: seq<Chunk>, from: int, to: int, months: real, cursor: int)
    requires months >= 1.0 && cursor <= to && Covered(chunks, from, to, cursor, months.Floor)
    requires CutAt(chunks, to, months.Floor)
    ensures var next := AddMonths(cursor, months.Floor);
      var more := chunks + [Chunk(cursor, if next > to then to else next - 1)];
      Covered(more, from, to, next, months.Floor) && CutAt(more, to, months.Floor)
  {
    var next := AddMonths(cursor, months.Floor);
    AddMonthsMoves(cursor, months.Floor);
    var end := if next > to then to else next - 1;
    PartitionGrows(chunks, from, cursor, end, months.Floor);
    CutGrows(chunks, to, cursor, end, months.Floor);
  }

  // ----- half-open chunks, newest first -----

  /** From `to` back to `from`, each chunk starting where the next one ends, none longer than
      `months` months. */
  ghost predicate RunsBack(chunks: seq<Chunk>, from: int, to: int, months: int) {
    && chunks != [] && chunks[0].to == to && chunks[|chunks| - 1].from == from
    && (forall i | 0 <= i < |chunks| ::
          chunks[i].from < chunks[i].to && AddMonths(chunks[i].to, -months) <= chunks[i].from)
    && (forall i | 0 < i < |chunks| :: chunks[i].to == chunks[i - 1].from)
  }

  lemma RunGrows(chunks: seq<Chunk>, start: int, end: int, to: int, months: int)
    requires if chunks == [] then end == to else RunsBack(chunks, end, to, months)
    requires start < end && AddMonths(end, -months) <= start
    ensures RunsBack(chunks + [Chunk(start, end)], start, to, months)
  {
    var t := chunks + [Chunk(start, end)];
    assert forall i | 0 <= i < |chunks| :: t[i] == chunks[i];
  }

  /** dateChunks, whose caller asks for at least one month. */
  method SplitBackwards(from: int, to: int, months: real) returns (chunks: seq<Chunk>)
    requires months >= 1.0
    ensures from >= to ==> chunks == []
    ensures from < to ==> RunsBack(chunks, from, to, Ceiling(months))
    ensures forall x | x in chunks ::
              x.from == Max(from, AddMonths(x.to, MonthsBackFrom(MonthOf(x.to) % 12, months)))
  {
    chunks := [];
    var end := to;
    while end > from
      invariant if chunks == [] then end == to
                else from < to && from <= end && RunsBack(chunks, end, to, Ceiling(months))
      invariant forall x | x in chunks ::
          x.from == Max(from, AddMonths(x.to, MonthsBackFrom(MonthOf(x.to) % 12, months)))
      decreases end - from
    {
      var start := Shift(end, -months);
      WholeMonthsBack(end, months);
      AddMonthsMoves(end, WholeMonths(end, -months));
      MoreMonthsLater(end, -Ceiling(months), WholeMonths(end, -months));
      var chunkStart := if start > from then start else from;
      RunGrows(chunks, chunkStart, end, to, Ceiling(months));
      chunks := chunks + [Chunk(chunkStart, end)];
      end := chunkStart;
    }
  }
}
