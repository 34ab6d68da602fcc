/** The worker pool of src/util/map_limit.ts as a state machine: workers take the next index of a
    shared counter, await its task, and store the result at that index. */
module MapLimit {
  import opened Basics

  datatype Worker = Ready | Busy(item: nat) | Finished

  /** `started` lists the items whose task was called, in order. */
  datatype Pool<T> = Pool(size: nat, index: nat, workers: seq<Worker>, results: seq<Option<T>>, started: seq<nat>)

  function Workers(limit: int, size: nat): nat {
    var m := if limit <= size then limit else size;
    if m < 1 then 1 else m
  }

  function Open<T>(size: nat, limit: int): Pool<T> {
    Pool(size, 0, seq(Workers(limit, size), i => Ready), seq(size, i => None), [])
  }

  predicate MayTake<T>(p: Pool<T>, w: nat) { w < |p.workers| && p.workers[w].Ready? }
  predicate MayComplete<T>(p: Pool<T>, w: nat) {
    w < |p.workers| && p.workers[w].Busy? && p.workers[w].item < |p.results|
  }

  function Take<T>(p: Pool<T>, w: nat): Pool<T>
    requires MayTake(p, w)
  {
    if p.index >= p.size then p.(index := p.index + 1, workers := p.workers[w := Finished])
    else p.(index := p.index + 1, workers := p.workers[w := Busy(p.index)], started := p.started + [p.index])
  }

  function Complete<T>(p: Pool<T>, w: nat, result: T): Pool<T>
    requires MayComplete(p, w)
  {
    p.(results := p.results[p.workers[w].item := Some(result)], workers := p.workers[w := Ready])
  }

  predicate IsFinished<T>(p: Pool<T>) { forall w | 0 <= w < |p.workers| :: p.workers[w].Finished? }

  // ----- the invariant -----

  ghost predicate WorkingOn<T>(p: Pool<T>, i: nat) {
    exists w :: 0 <= w < |p.workers| && p.workers[w] == Busy(i)
  }

  /** Items started and not in flight are the ones with a result; nothing is in flight twice. */
  ghost predicate Inv<T>(p: Pool<T>) {
    && |p.results| == p.size && |p.workers| > 0
    && (forall w | 0 <= w < |p.workers| && p.workers[w].Busy? ::
          p.workers[w].item < p.index && p.workers[w].item < p.size)
    && (forall v, w | 0 <= v < w < |p.workers| && p.workers[v].Busy? :: p.workers[v] != p.workers[w])
    && (forall i | 0 <= i < p.size :: p.results[i].Some? <==> i < p.index && !WorkingOn(p, i))
    && (forall w | 0 <= w < |p.workers| && p.workers[w].Finished? :: p.index > p.size)
    && |p.started| == (if p.index < p.size then p.index else p.size)
    && (forall i | 0 <= i < |p.started| :: p.started[i] == i)
  }

  lemma OpenHoldsInv<T>(size: nat, limit: int)
    ensures Inv(Open<T>(size, limit))
  {
  }

  lemma WorkerChanges<T>(p: Pool<T>, q: Pool<T>, w: nat, i: nat)
    requires w < |p.workers| == |q.workers| && q.workers == p.workers[w := q.workers[w]]
    ensures WorkingOn(q, i) <==>
        q.workers[w] == Busy(i) || exists v :: 0 <= v < |p.workers| && v != w && p.workers[v] == Busy(i)
  {
    if v :| 0 <= v < |p.workers| && v != w && p.workers[v] == Busy(i) { assert q.workers[v] == Busy(i); }
    if WorkingOn(q, i) {
      var v :| 0 <= v < |q.workers| && q.workers[v] == Busy(i);
      assert v != w ==> p.workers[v] == Busy(i);
    }
  }

  lemma TakeKeepsInv<T>(p: Pool<T>, w: nat)
    requires Inv(p) && MayTake(p, w)
    ensures Inv(Take(p, w))
  {
    var q := Take(p, w);
    forall i | 0 <= i < q.size ensures q.results[i].Some? <==> i < q.index && !WorkingOn(q, i) {
      WorkerChanges(p, q, w, i);
      assert WorkingOn(p, i) <==> exists v :: 0 <= v < |p.workers| && v != w && p.workers[v] == Busy(i);
    }
  }

  lemma CompleteKeepsInv<T>(p: Pool<T>, w: nat, result: T)
    requires Inv(p) && MayComplete(p, w)
    ensures Inv(Complete(p, w, result))
  {
    var q, item := Complete(p, w, result), p.workers[w].item;
    forall i | 0 <= i < q.size ensures q.results[i].Some? <==> i < q.index && !WorkingOn(q, i) {
      WorkerChanges(p, q, w, i);
      if i != item {
        assert WorkingOn(p, i) <==> exists v :: 0 <= v < |p.workers| && v != w && p.workers[v] == Busy(i);
      }
    }
  }

  // ----- whole runs, with each task's result fixed by its item -----

  datatype Action = DoTake(w: nat) | DoComplete(w: nat)

  predicate Enabled<T>(p: Pool<T>, a: Action) {
    match a
    case DoTake(w) => MayTake(p, w)
    case DoComplete(w) => MayComplete(p, w)
  }

  function Step<T>(p: Pool<T>, a: Action, task: nat -> T): Pool<T>
    requires Enabled(p, a)
  {
    match a
    case DoTake(w) => Take(p, w)
    case DoComplete(w) => Complete(p, w, task(p.workers[w].item))
  }

  /** Run a schedule; an action that is not enabled does nothing. */
  function Exec<T>(p: Pool<T>, actions: seq<Action>, task: nat -> T): Pool<T>
    decreases |actions|
  {
    if actions == [] then p
    else Exec(if Enabled(p, actions[0]) then Step(p, actions[0], task) else p, actions[1..], task)
  }

  ghost predicate ResultsAre<T>(p: Pool<T>, task: nat -> T) {
    forall i | 0 <= i < |p.results| && p.results[i].Some? :: p.results[i].value == task(i)
  }

  lemma {:induction false} ExecKeepsInv<T>(p: Pool<T>, actions: seq<Action>, task: nat -> T)
    requires Inv(p) && ResultsAre(p, task)
    ensures var q := Exec(p, actions, task);
      Inv(q) && ResultsAre(q, task) && |q.workers| == |p.workers| && q.size == p.size
    decreases |actions|
  {
    if actions != [] {
      var a := actions[0];
      if Enabled(p, a) {
        if a.DoTake? { TakeKeepsInv(p, a.w); } else { CompleteKeepsInv(p, a.w, task(p.workers[a.w].item)); }
      }
      ExecKeepsInv(if Enabled(p, a) then Step(p, a, task) else p, actions[1..], task);
    }
  }

  /** Whatever order the tasks finish in: items are started once each, in order, at most
      max(1, min(limit, size)) workers exist to have one in flight, and once every worker has
      stopped each item's result stands at its own position. */
  lemma EachItemOnce<T>(size: nat, limit: int, actions: seq<Action>, task: nat -> T)
    ensures var p := Exec(Open(size, limit), actions, task);
      && |p.workers| == Max(1, Min(limit, size)) && |p.results| == size
      && |p.started| <= size && (forall i | 0 <= i < |p.started| :: p.started[i] == i)
      && (IsFinished(p) ==> |p.started| == size && forall i | 0 <= i < size :: p.results[i] == Some(task(i)))
  {
    OpenHoldsInv<T>(size, limit);
    ExecKeepsInv(Open(size, limit), actions, task);
    var p := Exec(Open(size, limit), actions, task);
    if IsFinished(p) { FinishedIsComplete(p); }
  }

  lemma FinishedIsComplete<T>(p: Pool<T>)
    requires Inv(p) && IsFinished(p)
    ensures p.index > p.size && forall i | 0 <= i < p.size :: p.results[i].Some?
  {
    assert p.workers[0].Finished?;
    forall i | 0 <= i < p.size ensures !WorkingOn(p, i) { }
  }

  // ----- how long a run can be -----

  function Weight(w: Worker): nat {
    match w
    case Ready => 1
    case Busy(_) => 2
    case Finished => 0
  }

  function Weights(workers: seq<Worker>): seq<nat> {
    seq(|workers|, w requires 0 <= w < |workers| => Weight(workers[w]))
  }

  /** The actions still to come. */
  function ToGo<T>(p: Pool<T>): nat { Sum(Weights(p.workers)) + if p.index < p.size then 2 * (p.size - p.index) else 0 }

  lemma EachStepIsOne<T>(p: Pool<T>, a: Action, task: nat -> T)
    requires Enabled(p, a)
    ensures ToGo(Step(p, a, task)) == ToGo(p) - 1
  {
    var q := Step(p, a, task);
    SumUpdate(Weights(p.workers), a.w, Weight(q.workers[a.w]));
    assert Weights(q.workers) == Weights(p.workers)[a.w := Weight(q.workers[a.w])];
  }

  /** Every action of the schedule is enabled when it comes. */
  predicate Runs<T>(p: Pool<T>, actions: seq<Action>, task: nat -> T)
    decreases |actions|
  {
    actions == [] || (Enabled(p, actions[0]) && Runs(Step(p, actions[0], task), actions[1..], task))
  }

  lemma {:induction false} RunCounts<T>(p: Pool<T>, actions: seq<Action>, task: nat -> T)
    requires Runs(p, actions, task)
    ensures |actions| + ToGo(Exec(p, actions, task)) == ToGo(p)
    decreases |actions|
  {
    if actions != [] {
      EachStepIsOne(p, actions[0], task);
      RunCounts(Step(p, actions[0], task), actions[1..], task);
    }
  }

  lemma FinishedIffNothingToGo<T>(p: Pool<T>)
    requires Inv(p)
    ensures IsFinished(p) <==> ToGo(p) == 0
  {
    if IsFinished(p) {
      FinishedIsComplete(p);
      SumOfSame(Weights(p.workers), 0);
    }
    if ToGo(p) == 0 {
      forall w | 0 <= w < |p.workers| ensures p.workers[w].Finished? {
        SumUpdate(Weights(p.workers), w, 0);
        assert Weights(p.workers)[w] == Weight(p.workers[w]);
      }
    }
  }

  /** Every run ends: it has at most two actions for each item and one for each worker, it is over
      exactly when it has them all, and until then some worker can go on. */
  lemma EveryRunEnds<T>(size: nat, limit: int, actions: seq<Action>, task: nat -> T)
    requires Runs(Open(size, limit), actions, task)
    ensures var p := Exec(Open(size, limit), actions, task);
      && |actions| <= 2 * size + Max(1, Min(limit, size))
      && (IsFinished(p) <==> |actions| == 2 * size + Max(1, Min(limit, size)))
      && (!IsFinished(p) <==> exists a :: Enabled(p, a))
  {
    var p := Exec(Open(size, limit), actions, task);
    OpenHoldsInv<T>(size, limit);
    ExecKeepsInv(Open(size, limit), actions, task);
    RunCounts(Open(size, limit), actions, task);
    AllToGo<T>(size, limit);
    FinishedIffNothingToGo(p);
    GoesOnIff(p);
  }

  lemma AllToGo<T>(size: nat, limit: int)
    ensures ToGo(Open<T>(size, limit)) == 2 * size + Workers(limit, size)
  {
    var ws := Weights(Open<T>(size, limit).workers);
    assert |ws| == Workers(limit, size) && forall w | 0 <= w < |ws| :: ws[w] == 1;
    SumOfSame(ws, 1);
  }

  lemma GoesOnIff<T>(p: Pool<T>)
    requires Inv(p)
    ensures !IsFinished(p) <==> exists a :: Enabled(p, a)
  {
    if !IsFinished(p) { var a := NeverStuck(p); }
  }

  /** Until every worker has stopped, one of them can go on. */
  lemma NeverStuck<T>(p: Pool<T>) returns (a: Action)
    requires Inv(p) && !IsFinished(p)
    ensures Enabled(p, a)
  {
    var w :| 0 <= w < |p.workers| && !p.workers[w].Finished?;
    a := if p.workers[w].Ready? then DoTake(w) else DoComplete(w);
  }
}
