/**
 * mapWithConcurrency as an interleaving: workers share one counter, each claims the next
 * index, waits for the mapper's call on that item, stores its result and loops. The event
 * loop may complete any pending call next, so a schedule is a sequence of worker numbers.
 */
module WorkerPool {
  import opened Common

  datatype Worker = Awaiting(index: int) | Finished

  /** `calls` logs the indices on which the mapper was called, in call order. */
  datatype Pool<R> = Pool(nextIndex: int, workers: seq<Worker>, results: seq<Option<R>>, calls: seq<int>)

  function Fresh<R>(n: nat): Pool<R> {
    Pool(0, [], seq(n, i => None), [])
  }

  /** A worker at the head of its loop: it claims the next index and calls the mapper, or finishes. */
  function LoopHead<R>(p: Pool<R>, w: int): Pool<R>
    requires 0 <= w < |p.workers|
  {
    if p.nextIndex < |p.results| then
      Pool(p.nextIndex + 1, p.workers[w := Awaiting(p.nextIndex)], p.results, p.calls + [p.nextIndex])
    else p.(workers := p.workers[w := Finished])
  }

  /** A new worker runs at once up to its first await. */
  function Start<R>(p: Pool<R>): Pool<R> {
    LoopHead(p.(workers := p.workers + [Finished]), |p.workers|)
  }

  /** The call of worker w completes: its result is stored and the worker loops. */
  function Complete<R>(p: Pool<R>, w: int, value: R): Pool<R>
    requires 0 <= w < |p.workers| && p.workers[w].Awaiting? && 0 <= p.workers[w].index < |p.results|
  {
    LoopHead(p.(results := p.results[p.workers[w].index := Some(value)]), w)
  }

  function WorkerCount(concurrency: int, n: nat): nat {
    if concurrency <= 0 then 0 else if concurrency <= n then concurrency else n
  }

  /** The pool once Array.from has created the first k workers. */
  function Started<R>(k: nat, n: nat): Pool<R> {
    if k == 0 then Fresh(n) else Start(Started(k - 1, n))
  }

  // ------------------------------------------------------------------ schedules

  ghost predicate Awaited<R>(p: Pool<R>, i: int) {
    exists w :: 0 <= w < |p.workers| && p.workers[w] == Awaiting(i)
  }

  /** Calls were made in index order, and each call not yet settled is awaited by one worker. */
  ghost predicate CallsOk<R>(p: Pool<R>) {
    && 0 <= p.nextIndex <= |p.results|
    && p.calls == seq(p.nextIndex, i => i)
    && (forall w | 0 <= w < |p.workers| && p.workers[w].Awaiting? ::
          0 <= p.workers[w].index < p.nextIndex && p.results[p.workers[w].index].None?)
    && (forall v, w | 0 <= v < w < |p.workers| && p.workers[v].Awaiting? && p.workers[w].Awaiting? ::
          p.workers[v].index != p.workers[w].index)
    && (forall i | 0 <= i < p.nextIndex :: p.results[i].Some? || Awaited(p, i))
  }

  /** The mapper's result on item i is `outcome[i]`. */
  ghost predicate ResultsOk<R>(p: Pool<R>, outcome: seq<R>) {
    && |p.results| == |outcome|
    && forall i | 0 <= i < |outcome| :: p.results[i] == None || (i < p.nextIndex && p.results[i] == Some(outcome[i]))
  }

  /** While indices are left, no worker but the exempted one is idle. */
  ghost predicate BusyExcept<R>(p: Pool<R>, exempt: int) {
    p.nextIndex < |p.results| ==> forall w | 0 <= w < |p.workers| && w != exempt :: p.workers[w].Awaiting?
  }

  ghost predicate Inv<R>(p: Pool<R>, outcome: seq<R>) {
    CallsOk(p) && ResultsOk(p, outcome) && BusyExcept(p, -1)
  }

  ghost predicate CanComplete<R>(p: Pool<R>, w: int) {
    0 <= w < |p.workers| && p.workers[w].Awaiting?
  }

  /** The pool after the calls of the scheduled workers completed in that order. */
  ghost function Completed<R>(p: Pool<R>, schedule: seq<int>, outcome: seq<R>): Option<Pool<R>> {
    if schedule == [] then Some(p)
    else
      var before := Completed(p, schedule[..|schedule| - 1], outcome);
      var w := schedule[|schedule| - 1];
      if before.Some? && CanComplete(before.value, w) &&
         0 <= before.value.workers[w].index < |before.value.results| == |outcome|
      then Some(Complete(before.value, w, outcome[before.value.workers[w].index]))
      else None
  }

  /** How many results are stored. */
  function Settled<R>(results: seq<Option<R>>): nat {
    if results == [] then 0 else Settled(results[1..]) + if results[0].Some? then 1 else 0
  }

  lemma {:induction false} SettleOne<R>(results: seq<Option<R>>, i: int, value: R)
    requires 0 <= i < |results| && results[i].None?
    ensures Settled(results[i := Some(value)]) == Settled(results) + 1
  {
    if i == 0 {
      assert results[i := Some(value)][1..] == results[1..];
    } else {
      assert results[i := Some(value)][1..] == results[1..][i - 1 := Some(value)];
      SettleOne(results[1..], i - 1, value);
    }
  }

  lemma {:induction false} SettledBound<R>(results: seq<Option<R>>)
    ensures Settled(results) <= |results|
    ensures Settled(results) == |results| <==> forall i | 0 <= i < |results| :: results[i].Some?
    ensures (forall i | 0 <= i < |results| :: results[i].None?) ==> Settled(results) == 0
  {
    if results != [] {
      SettledBound(results[1..]);
      assert forall i | 1 <= i < |results| :: results[i] == results[1..][i - 1];
    }
  }

  /** An idle worker that claims the next index, or finishes when there is none left. */
  lemma LoopHeadKeepsInv<R>(p: Pool<R>, w: int, outcome: seq<R>)
    requires 0 <= w < |p.workers| && p.workers[w] == Finished
    requires CallsOk(p) && ResultsOk(p, outcome) && BusyExcept(p, w)
    ensures Inv(LoopHead(p, w), outcome)
  {
    var q := LoopHead(p, w);
    forall i | 0 <= i < q.nextIndex ensures q.results[i].Some? || Awaited(q, i) {
      if i == p.nextIndex {
        assert q.workers[w] == Awaiting(i);
      } else if Awaited(p, i) {
        var v :| 0 <= v < |p.workers| && p.workers[v] == Awaiting(i);
        assert q.workers[v] == Awaiting(i);
      }
    }
  }

  lemma StartKeepsInv<R>(p: Pool<R>, outcome: seq<R>)
    requires Inv(p, outcome)
    ensures Inv(Start(p), outcome)
  {
    var q := p.(workers := p.workers + [Finished]);
    forall i | 0 <= i < q.nextIndex ensures q.results[i].Some? || Awaited(q, i) {
      if Awaited(p, i) {
        var v :| 0 <= v < |p.workers| && p.workers[v] == Awaiting(i);
        assert q.workers[v] == Awaiting(i);
      }
    }
    LoopHeadKeepsInv(q, |p.workers|, outcome);
  }

  /** Storing the result of a completed call leaves its worker idle. */
  lemma StoreKeepsCalls<R>(p: Pool<R>, w: int, value: R)
    requires CallsOk(p) && CanComplete(p, w)
    ensures CallsOk(p.(results := p.results[p.workers[w].index := Some(value)], workers := p.workers[w := Finished]))
  {
    var q := p.(results := p.results[p.workers[w].index := Some(value)], workers := p.workers[w := Finished]);
    forall i | 0 <= i < q.nextIndex ensures q.results[i].Some? || Awaited(q, i) {
      if i != p.workers[w].index && Awaited(p, i) {
        var v :| 0 <= v < |p.workers| && p.workers[v] == Awaiting(i);
        assert q.workers[v] == Awaiting(i);
      }
    }
  }

  lemma CompleteKeepsInv<R>(p: Pool<R>, w: int, outcome: seq<R>)
    requires Inv(p, outcome) && CanComplete(p, w)
    ensures var q := Complete(p, w, outcome[p.workers[w].index]);
            && Inv(q, outcome) && |q.workers| == |p.workers|
            && Settled(q.results) == Settled(p.results) + 1
  {
    var i := p.workers[w].index;
    SettleOne(p.results, i, outcome[i]);
    StoreKeepsCalls(p, w, outcome[i]);
    var idle := p.(results := p.results[i := Some(outcome[i])], workers := p.workers[w := Finished]);
    LoopHeadKeepsInv(idle, w, outcome);
    assert LoopHead(idle, w) == Complete(p, w, outcome[i]);
  }

  /** When no call is pending, every claimed index is settled, and with a worker at all, every index is. */
  lemma StoppedIsSettled<R>(p: Pool<R>, outcome: seq<R>)
    requires Inv(p, outcome) && forall w :: !CanComplete(p, w)
    ensures forall i | 0 <= i < p.nextIndex :: p.results[i] == Some(outcome[i])
    ensures p.workers != [] ==> p.nextIndex == |outcome|
  {
    forall i | 0 <= i < p.nextIndex ensures !Awaited(p, i) {
      assert forall w | 0 <= w < |p.workers| :: !CanComplete(p, w) && p.workers[w] != Awaiting(i);
    }
    if p.workers != [] {
      assert !CanComplete(p, 0);
    }
  }

  lemma {:induction false} StartedKeepsInv<R>(k: nat, outcome: seq<R>)
    requires k <= |outcome|
    ensures Inv(Started<R>(k, |outcome|), outcome)
    ensures |Started<R>(k, |outcome|).workers| == k && Settled(Started<R>(k, |outcome|).results) == 0
  {
    if k == 0 {
      SettledBound(Fresh<R>(|outcome|).results);
    } else {
      StartedKeepsInv(k - 1, outcome);
      StartKeepsInv(Started<R>(k - 1, |outcome|), outcome);
    }
  }

  lemma {:induction false} ScheduleKeepsInv<R>(concurrency: int, outcome: seq<R>, schedule: seq<int>)
    requires Completed(Started(WorkerCount(concurrency, |outcome|), |outcome|), schedule, outcome).Some?
    ensures var p := Completed(Started(WorkerCount(concurrency, |outcome|), |outcome|), schedule, outcome).value;
            && Inv(p, outcome) && |p.workers| == WorkerCount(concurrency, |outcome|)
            && Settled(p.results) == |schedule|
  {
    var k := WorkerCount(concurrency, |outcome|);
    StartedKeepsInv(k, outcome);
    if schedule != [] {
      ScheduleKeepsInv(concurrency, outcome, schedule[..|schedule| - 1]);
      var before := Completed(Started(k, |outcome|), schedule[..|schedule| - 1], outcome).value;
      CompleteKeepsInv(before, schedule[|schedule| - 1], outcome);
    }
  }

  /**
   * Under every schedule: the mapper was called on the indices 0, 1, 2, ... in order and on
   * each once; at most min(concurrency, n) calls are in flight, each on another index; no
   * schedule is longer than n; and every stored result is the mapper's result for that item.
   */
  lemma BoundedAndOrdered<R>(concurrency: int, outcome: seq<R>, schedule: seq<int>)
    requires Completed(Started(WorkerCount(concurrency, |outcome|), |outcome|), schedule, outcome).Some?
    ensures var p := Completed(Started(WorkerCount(concurrency, |outcome|), |outcome|), schedule, outcome).value;
            && p.calls == seq(|p.calls|, i => i) && |p.calls| <= |outcome|
            && |set w | 0 <= w < |p.workers| && p.workers[w].Awaiting?| <= WorkerCount(concurrency, |outcome|)
            && |schedule| <= |outcome|
            && |p.results| == |outcome|
            && (forall i | 0 <= i < |outcome| && p.results[i].Some? :: p.results[i].value == outcome[i])
  {
    ScheduleKeepsInv(concurrency, outcome, schedule);
    var p := Completed(Started(WorkerCount(concurrency, |outcome|), |outcome|), schedule, outcome).value;
    SettledBound(p.results);
    SubrangeSize(set w | 0 <= w < |p.workers| && p.workers[w].Awaiting?, |p.workers|);
  }

  /**
   * While items are left to call, exactly min(concurrency, n) calls are in flight, none for a
   * concurrency below 1; each completion is answered by at most one call, the next index.
   */
  lemma {:induction false} WorkersStayBusy<R>(concurrency: int, outcome: seq<R>, schedule: seq<int>)
    requires Completed(Started(WorkerCount(concurrency, |outcome|), |outcome|), schedule, outcome).Some?
    ensures var p := Completed(Started(WorkerCount(concurrency, |outcome|), |outcome|), schedule, outcome).value;
            var workers := if concurrency < 0 then 0 else if concurrency < |outcome| then concurrency else |outcome|;
            && (|p.calls| < |outcome| ==> |set w | 0 <= w < |p.workers| && p.workers[w].Awaiting?| == workers)
            && |p.calls| == if |schedule| + workers < |outcome| then |schedule| + workers else if workers == 0 then 0 else |outcome|
  {
    ScheduleKeepsInv(concurrency, outcome, schedule);
    CallsMade(concurrency, outcome, schedule);
    var p := Completed(Started(WorkerCount(concurrency, |outcome|), |outcome|), schedule, outcome).value;
    if |p.calls| < |outcome| {
      WholeRangeSize((set w | 0 <= w < |p.workers| && p.workers[w].Awaiting?), |p.workers|);
    }
  }

  lemma {:induction false} WholeRangeSize(s: set<int>, n: nat)
    requires forall w :: w in s <==> 0 <= w < n
    ensures |s| == n
  {
    if n == 0 {
      assert (exists w :: w in s) || s == {};
    } else {
      WholeRangeSize(s - {n - 1}, n - 1);
    }
  }

  lemma {:induction false} StartedCalls<R>(k: nat, n: nat)
    requires k <= n
    ensures var p := Started<R>(k, n); |p.calls| == p.nextIndex == k && |p.results| == n
  {
    if k > 0 { StartedCalls<R>(k - 1, n); }
  }

  lemma {:induction false} CallsMade<R>(concurrency: int, outcome: seq<R>, schedule: seq<int>)
    requires Completed(Started(WorkerCount(concurrency, |outcome|), |outcome|), schedule, outcome).Some?
    ensures var k := WorkerCount(concurrency, |outcome|); var p := Completed(Started(k, |outcome|), schedule, outcome).value;
            && |p.calls| == p.nextIndex && |p.results| == |outcome|
            && p.nextIndex == if |schedule| + k < |outcome| then |schedule| + k else if k == 0 then 0 else |outcome|
  {
    var k := WorkerCount(concurrency, |outcome|);
    StartedCalls<R>(k, |outcome|);
    if schedule == [] {
      assert Completed(Started(k, |outcome|), schedule, outcome).value == Started(k, |outcome|);
    } else {
      CallsMade(concurrency, outcome, schedule[..|schedule| - 1]);
      if k == 0 { NoWorkersNoProgress(outcome, schedule); }
      hide WorkerCount, Started;
    }
  }

  lemma {:induction false} SubrangeSize(s: set<int>, n: nat)
    requires forall w <- s :: 0 <= w < n
    ensures |s| <= n
  {
    if n == 0 {
      assert (exists w :: w in s) || s == {};
    } else {
      SubrangeSize(s - {n - 1}, n - 1);
    }
  }

  lemma {:induction false} NoWorkersNoProgress<R>(outcome: seq<R>, schedule: seq<int>)
    requires Completed(Started(0, |outcome|), schedule, outcome).Some?
    ensures schedule == []
  {
    if schedule != [] {
      NoWorkersNoProgress(outcome, schedule[..|schedule| - 1]);
    }
  }

  lemma StoppedIffAllSettled<R>(p: Pool<R>, outcome: seq<R>)
    requires Inv(p, outcome) && (p.workers != [] || outcome == [])
    ensures (forall w :: !CanComplete(p, w)) <==> Settled(p.results) == |outcome|
  {
    SettledBound(p.results);
    if forall w :: !CanComplete(p, w) {
      StoppedIsSettled(p, outcome);
    } else {
      var w :| CanComplete(p, w);
      assert p.results[p.workers[w].index].None?;
    }
  }

  /** With a worker, or with nothing to do, the run stops after exactly n completions and never gets stuck before. */
  lemma {:induction false} StopsAfterAll<R>(concurrency: int, outcome: seq<R>, schedule: seq<int>)
    requires concurrency >= 1 || outcome == []
    requires Completed(Started(WorkerCount(concurrency, |outcome|), |outcome|), schedule, outcome).Some?
    ensures var p := Completed(Started(WorkerCount(concurrency, |outcome|), |outcome|), schedule, outcome).value;
            (forall w :: !CanComplete(p, w)) <==> |schedule| == |outcome|
  {
    ScheduleKeepsInv(concurrency, outcome, schedule);
    StoppedIffAllSettled(Completed(Started(WorkerCount(concurrency, |outcome|), |outcome|), schedule, outcome).value, outcome);
    hide Inv, CanComplete, Completed, Started;
  }

  /** When the run stops, every item has its result in place exactly if a worker was allowed or there was nothing to do. */
  lemma CompletesExactlyWhen<R>(concurrency: int, outcome: seq<R>, schedule: seq<int>)
    requires Completed(Started(WorkerCount(concurrency, |outcome|), |outcome|), schedule, outcome).Some?
    requires forall w :: !CanComplete(Completed(Started(WorkerCount(concurrency, |outcome|), |outcome|), schedule, outcome).value, w)
    ensures var p := Completed(Started(WorkerCount(concurrency, |outcome|), |outcome|), schedule, outcome).value;
            (forall i | 0 <= i < |outcome| :: i < |p.results| && p.results[i] == Some(outcome[i])) <==>
            concurrency >= 1 || outcome == []
  {
    ScheduleKeepsInv(concurrency, outcome, schedule);
    var p := Completed(Started(WorkerCount(concurrency, |outcome|), |outcome|), schedule, outcome).value;
    StoppedIsSettled(p, outcome);
    if concurrency <= 0 && outcome != [] {
      NoWorkersNoProgress(outcome, schedule);
      assert p.results[0] == None;
    }
  }

  /**
   * The algorithm with its shared counter and results, run by an event loop that completes
   * an arbitrary pending call at each turn.
   */
  method MapWithConcurrency<T, R>(items: seq<T>, concurrency: int, mapper: (int, T) -> R)
    returns (results: seq<Option<R>>, calls: seq<int>)
    ensures |results| == |items|
    ensures concurrency >= 1 ==> forall i | 0 <= i < |items| :: results[i] == Some(mapper(i, items[i]))
    ensures concurrency >= 1 ==> calls == seq(|items|, i => i)
    ensures concurrency <= 0 ==> calls == [] && forall i | 0 <= i < |items| :: results[i] == None
  {
    var n := |items|;
    ghost var outcome := seq(n, i requires 0 <= i < n => mapper(i, items[i]));
    var pool: Pool<R> := Fresh(n);
    var started := 0;
    SettledBound(pool.results);
    while started < WorkerCount(concurrency, n)
      invariant 0 <= started <= WorkerCount(concurrency, n)
      invariant Inv(pool, outcome) && |pool.workers| == started && Settled(pool.results) == 0
      invariant started == 0 ==> pool.calls == []
    {
      StartKeepsInv(pool, outcome);
      pool := Start(pool);
      started := started + 1;
    }
    while exists w :: 0 <= w < |pool.workers| && pool.workers[w].Awaiting?
      invariant Inv(pool, outcome) && |pool.workers| == started
      invariant started == 0 ==> pool.calls == [] && Settled(pool.results) == 0
      decreases n - Settled(pool.results)
    {
      var w :| 0 <= w < |pool.workers| && pool.workers[w].Awaiting?;
      assert CanComplete(pool, w);
      CompleteKeepsInv(pool, w, outcome);
      var index := pool.workers[w].index;
      pool := Complete(pool, w, mapper(index, items[index]));
      SettledBound(pool.results);
    }
    assert forall w :: !CanComplete(pool, w);
    StoppedIsSettled(pool, outcome);
    SettledBound(pool.results);
    return pool.results, pool.calls;
  }
}
