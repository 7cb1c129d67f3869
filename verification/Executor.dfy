/** The bounded executors: admission, workers and a shutdown that drains the queue. */
module Executor {

  type Task = int

  datatype Worker = Waiting | Running(task: Task) | Gone

  datatype Pool = Pool(
    queue: seq<Task>, accepted: nat, rejected: nat, completed: nat, stopping: bool,
    workers: map<nat, Worker>)

  /** The shared state under the executor's mutex. The bodies of tasks run outside of it. */
  class BoundedExecutor {
    const capacity: nat
    var queue: seq<Task>
    var accepted: nat
    var rejected: nat
    var completed: nat
    var stopping: bool

    constructor (queueCapacity: nat)
      ensures capacity == (if queueCapacity < 1 then 1 else queueCapacity)
      ensures queue == [] && accepted == 0 && rejected == 0 && completed == 0 && !stopping
    {
      capacity := if queueCapacity < 1 then 1 else queueCapacity;
      queue, accepted, rejected, completed, stopping := [], 0, 0, 0, false;
    }

    ghost function Shared(workers: map<nat, Worker>): Pool
      reads this
    {
      Pool(queue, accepted, rejected, completed, stopping, workers)
    }

    method Submit(task: Task) returns (ok: bool)
      modifies this`queue, this`accepted, this`rejected
      ensures ok <==> !stopping && |old(queue)| < capacity
      ensures queue == if ok then old(queue) + [task] else old(queue)
      ensures (accepted, rejected) == old(if ok then (accepted + 1, rejected) else (accepted, rejected + 1))
      ensures forall ws :: Shared(ws) == Step(capacity, old(Shared(ws)), DoSubmit(task))
    {
      ok := !stopping && |queue| < capacity;
      if ok {
        queue := queue + [task];
        accepted := accepted + 1;
      } else {
        rejected := rejected + 1;
      }
    }

    /** What a woken worker finds: nothing to do yet, a task, or the order to leave. */
    method Next() returns (w: Worker)
      modifies this`queue
      ensures old(queue) != [] ==> w == Running(old(queue)[0]) && queue == old(queue)[1..]
      ensures old(queue) == [] ==> w == (if stopping then Gone else Waiting) && queue == []
      ensures forall ws, n :: Shared(ws[n := w]) == Step(capacity, old(Shared(ws)), Wake(n))
    {
      if queue == [] {
        return if stopping then Gone else Waiting;
      }
      w := Running(queue[0]);
      queue := queue[1..];
    }

    /** A worker is done with its task, however that ended. */
    method Complete()
      modifies this`completed
      ensures completed == old(completed) + 1
      ensures forall ws, n :: Shared(ws[n := Waiting]) == Step(capacity, old(Shared(ws)), Finish(n))
    {
      completed := completed + 1;
    }

    method Shutdown()
      modifies this`stopping
      ensures stopping
      ensures forall ws :: Shared(ws) == Step(capacity, old(Shared(ws)), Stop)
    {
      stopping := true;
    }
  }

  function NextFor(queue: seq<Task>, stopping: bool): Worker {
    if queue != [] then Running(queue[0]) else if stopping then Gone else Waiting
  }

  datatype Op = DoSubmit(task: Task) | Wake(worker: nat) | Finish(worker: nat) | Stop

  predicate Possible(p: Pool, op: Op) {
    match op
    case Wake(w) => w in p.workers && p.workers[w] == Waiting
    case Finish(w) => w in p.workers && p.workers[w].Running?
    case _ => true
  }

  function Step(capacity: nat, p: Pool, op: Op): Pool {
    match op
    case DoSubmit(task) =>
      if !p.stopping && |p.queue| < capacity then p.(queue := p.queue + [task], accepted := p.accepted + 1)
      else p.(rejected := p.rejected + 1)
    case Wake(w) =>
      var next := NextFor(p.queue, p.stopping);
      p.(workers := p.workers[w := next], queue := if next.Running? then p.queue[1..] else p.queue)
    case Finish(w) => p.(workers := p.workers[w := Waiting], completed := p.completed + 1)
    case Stop => p.(stopping := true)
  }

  /** Ghost history: what was accepted and what was begun, in order. */
  datatype Trace = Trace(submitted: nat, taken: seq<Task>, begun: seq<Task>)

  function Observe(capacity: nat, p: Pool, t: Trace, op: Op): Trace {
    match op
    case DoSubmit(task) =>
      if !p.stopping && |p.queue| < capacity then t.(submitted := t.submitted + 1, taken := t.taken + [task])
      else t.(submitted := t.submitted + 1)
    case Wake(_) => if p.queue != [] then t.(begun := t.begun + [p.queue[0]]) else t
    case _ => t
  }

  function Busy(workers: map<nat, Worker>): set<nat> {
    set w | w in workers && workers[w].Running?
  }

  /** Every accepted task is waiting, running or completed; they begin in the order they were accepted, each once; no
      worker leaves before the queue has drained after a stop. */
  predicate Accounted(capacity: nat, p: Pool, t: Trace) {
    && |p.queue| <= capacity
    && t.begun + p.queue == t.taken
    && p.accepted == |t.taken| && t.submitted == p.accepted + p.rejected
    && |t.begun| == p.completed + |Busy(p.workers)|
    && ((exists w :: w in p.workers && p.workers[w] == Gone) ==> p.stopping && p.queue == [])
  }

  lemma BusySplit(workers: map<nat, Worker>, w: nat)
    requires w in workers
    ensures |Busy(workers)| == |Busy(workers - {w})| + if workers[w].Running? then 1 else 0
  {
    assert Busy(workers - {w}) == Busy(workers) - {w};
  }

  lemma BusyChange(workers: map<nat, Worker>, w: nat, next: Worker)
    requires w in workers
    ensures |Busy(workers[w := next])| ==
      |Busy(workers)| + (if next.Running? then 1 else 0) - (if workers[w].Running? then 1 else 0)
  {
    BusySplit(workers, w);
    BusySplit(workers[w := next], w);
    assert workers[w := next] - {w} == workers - {w};
  }

  lemma StepAccounts(capacity: nat, p: Pool, t: Trace, op: Op)
    requires Accounted(capacity, p, t) && Possible(p, op)
    ensures Accounted(capacity, Step(capacity, p, op), Observe(capacity, p, t, op))
  {
    if op.Wake? { BusyChange(p.workers, op.worker, NextFor(p.queue, p.stopping)); }
    if op.Finish? { BusyChange(p.workers, op.worker, Waiting); }
  }

  lemma {:induction false} ExecutorAccounts(capacity: nat, ps: seq<Pool>, ts: seq<Trace>, ops: seq<Op>, i: nat)
    requires |ps| == |ops| + 1 == |ts| && i < |ps|
    requires ps[0].(workers := map[]) == Pool([], 0, 0, 0, false, map[]) && ts[0] == Trace(0, [], [])
    requires forall w :: w in ps[0].workers ==> ps[0].workers[w] == Waiting
    requires forall k :: 0 <= k < |ops| ==>
      Possible(ps[k], ops[k]) && ps[k + 1] == Step(capacity, ps[k], ops[k])
        && ts[k + 1] == Observe(capacity, ps[k], ts[k], ops[k])
    ensures Accounted(capacity, ps[i], ts[i])
  {
    if i > 0 {
      ExecutorAccounts(capacity, ps, ts, ops, i - 1);
      assert ps[i - 1 + 1] == Step(capacity, ps[i - 1], ops[i - 1]);
      StepAccounts(capacity, ps[i - 1], ts[i - 1], ops[i - 1]);
    }
  }

  /** Shutdown drains: once every worker has left, each accepted task has run to completion exactly once, in the
      order accepted, and no further one can be accepted. */
  lemma ShutdownDrains(capacity: nat, p: Pool, t: Trace, task: Task)
    requires Accounted(capacity, p, t) && p.workers.Keys != {} && forall w :: w in p.workers ==> p.workers[w] == Gone
    ensures t.begun == t.taken && p.completed == p.accepted
    ensures Step(capacity, p, DoSubmit(task)) == p.(rejected := p.rejected + 1)
  {
    var w :| w in p.workers.Keys;
    assert p.workers[w] == Gone;
    assert Busy(p.workers) == {};
    assert t.begun + [] == t.begun;
  }
}
