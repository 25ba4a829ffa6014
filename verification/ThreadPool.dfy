/** The task queue of src/base/ThreadPool.cpp: workers, one mutex, one condition variable.
    A step is one critical section or one action outside the lock; spurious wakeups are
    allowed, and any interleaving of the steps is a run. */
module ThreadPools {

  type Task = nat

  /** A worker of runInThread: about to test running_, about to look at the queue with the
      lock, blocked in wait, woken but not yet holding the lock again, running a task, or
      gone. */
  datatype Worker = AtTest | AtQueue | Waiting | Woken | Busy(task: Task) | Gone

  /** `added` records every push, `taken` every pop and `ran` every task run to its end, in order;
      `running` is cleared by stop(), and `lastTasks` counts the pops since then. */
  datatype Pool = Pool(running: bool, queue: seq<Task>, workers: seq<Worker>,
                       added: seq<Task>, taken: seq<Task>, ran: seq<Task>, lastTasks: nat)

  /** start() with n worker threads. */
  function Started(n: nat): Pool {
    Pool(true, [], seq(n, _ => AtTest), [], [], [], 0)
  }

  datatype Step =
    | AddTask(task: Task, notified: nat)
    | Stop
    | Test(w: nat)
    | Look(w: nat)
    | SpuriousWakeup(w: nat)
    | FinishTask(w: nat)

  /** addTask with no worker runs the task in the caller, so it is not a step here. The
      notification goes to some waiting worker, if there is one. */
  predicate Enabled(p: Pool, s: Step) {
    match s
    case AddTask(_, notified) =>
      && p.workers != []
      && (Waiting in p.workers ==> notified < |p.workers| && p.workers[notified] == Waiting)
    case Stop => true
    case Test(w) => w < |p.workers| && p.workers[w] == AtTest
    case Look(w) => w < |p.workers| && p.workers[w] in {AtQueue, Woken}
    case SpuriousWakeup(w) => w < |p.workers| && p.workers[w] == Waiting
    case FinishTask(w) => w < |p.workers| && p.workers[w].Busy?
  }

  function WakeAll(ws: seq<Worker>): seq<Worker> {
    seq(|ws|, i requires 0 <= i < |ws| => if ws[i] == Waiting then Woken else ws[i])
  }

  function Apply(p: Pool, s: Step): Pool
    requires Enabled(p, s)
  {
    match s
    case AddTask(task, notified) =>
      p.(queue := p.queue + [task], added := p.added + [task],
      workers := if Waiting in p.workers then p.workers[notified := Woken] else p.workers)
    case Stop => p.(running := false, workers := WakeAll(p.workers))
    case Test(w) => p.(workers := p.workers[w := if p.running then AtQueue else Gone])
    case Look(w) =>
      if p.queue == [] then p.(workers := p.workers[w := if p.running then Waiting else Gone])
      else p.(workers := p.workers[w := Busy(p.queue[0])], queue := p.queue[1..],
           taken := p.taken + [p.queue[0]],
           lastTasks := if p.running then p.lastTasks else p.lastTasks + 1)
    case SpuriousWakeup(w) => p.(workers := p.workers[w := Woken])
    case FinishTask(w) => p.(workers := p.workers[w := AtTest], ran := p.ran + [p.workers[w].task])
  }

  ghost predicate Leads(p: Pool, steps: seq<Step>, q: Pool)
    decreases |steps|
  {
    if steps == [] then q == p
    else Enabled(p, steps[0]) && Leads(Apply(p, steps[0]), steps[1..], q)
  }

  // ----- the invariant -----

  function Count(ws: seq<Worker>, w: Worker): nat {
    multiset(ws)[w]
  }

  /** Nothing is lost or taken twice. */
  ghost predicate Conserved(p: Pool) {
    p.taken + p.queue == p.added
  }

  /** While running, a worker left waiting means that every queued task has a woken worker
      on its way. */
  ghost predicate NotificationsSuffice(p: Pool) {
    p.running && Waiting in p.workers ==> |p.queue| <= Count(p.workers, Woken)
  }

  /** Workers that may still take a task although the pool has been stopped. */
  predicate MayTake(w: Worker) {
    w.AtQueue? || w.Woken?
  }

  function Takers(ws: seq<Worker>): nat {
    if ws == [] then 0 else (if MayTake(ws[0]) then 1 else 0) + Takers(ws[1..])
  }

  ghost predicate StopIsFinal(p: Pool) {
    && (!p.running ==> Waiting !in p.workers && p.lastTasks + Takers(p.workers) <= |p.workers|)
    && (p.running ==> p.lastTasks == 0)
  }

  ghost predicate Inv(p: Pool) {
    Conserved(p) && NotificationsSuffice(p) && StopIsFinal(p)
  }

  lemma CountUpdate(ws: seq<Worker>, w: nat, v: Worker, x: Worker)
    requires w < |ws|
    ensures Count(ws[w := v], x)
            == Count(ws, x) + (if x == v then 1 else 0) - (if x == ws[w] then 1 else 0)
  {
    assert ws == ws[..w] + [ws[w]] + ws[w + 1..];
    assert ws[w := v] == ws[..w] + [v] + ws[w + 1..];
  }

  lemma {:induction false} TakersUpdate(ws: seq<Worker>, w: nat, v: Worker)
    requires w < |ws|
    ensures Takers(ws[w := v])
            == Takers(ws) + (if MayTake(v) then 1 else 0) - (if MayTake(ws[w]) then 1 else 0)
    decreases |ws|
  {
    if w == 0 {
      assert ws[0 := v][1..] == ws[1..];
    } else {
      assert ws[w := v][1..] == ws[1..][w - 1 := v];
      TakersUpdate(ws[1..], w - 1, v);
    }
  }

  lemma {:induction false} TakersBound(ws: seq<Worker>)
    ensures Takers(ws) <= |ws|
    decreases |ws|
  {
    if ws != [] {
      TakersBound(ws[1..]);
    }
  }

  lemma MembersAfter(ws: seq<Worker>, w: nat, v: Worker)
    requires w < |ws| && v != Waiting
    ensures Waiting in ws[w := v] ==> Waiting in ws
  {
  }

  lemma AddTaskKeeps(p: Pool, task: Task, notified: nat)
    requires Inv(p) && Enabled(p, AddTask(task, notified))
    ensures Inv(Apply(p, AddTask(task, notified)))
  {
    if Waiting in p.workers {
      CountUpdate(p.workers, notified, Woken, Woken);
      TakersUpdate(p.workers, notified, Woken);
    }
  }

  lemma StopKeeps(p: Pool)
    requires Inv(p)
    ensures Inv(Apply(p, Stop))
  {
    TakersBound(WakeAll(p.workers));
    if !p.running {
      assert WakeAll(p.workers) == p.workers;
    }
  }

  lemma TestKeeps(p: Pool, w: nat)
    requires Inv(p) && Enabled(p, Test(w))
    ensures Inv(Apply(p, Test(w)))
  {
    var v := if p.running then AtQueue else Gone;
    CountUpdate(p.workers, w, v, Woken);
    TakersUpdate(p.workers, w, v);
    MembersAfter(p.workers, w, v);
  }

  lemma LookKeeps(p: Pool, w: nat)
    requires Inv(p) && Enabled(p, Look(w))
    ensures Inv(Apply(p, Look(w)))
  {
    var v := if p.queue != [] then Busy(p.queue[0]) else if p.running then Waiting else Gone;
    CountUpdate(p.workers, w, v, Woken);
    TakersUpdate(p.workers, w, v);
    if v != Waiting {
      MembersAfter(p.workers, w, v);
    }
    assert p.queue != [] ==> p.queue == [p.queue[0]] + p.queue[1..];
  }

  lemma WakeupKeeps(p: Pool, w: nat)
    requires Inv(p) && Enabled(p, SpuriousWakeup(w))
    ensures Inv(Apply(p, SpuriousWakeup(w)))
  {
    CountUpdate(p.workers, w, Woken, Woken);
    TakersUpdate(p.workers, w, Woken);
    MembersAfter(p.workers, w, Woken);
  }

  lemma FinishKeeps(p: Pool, w: nat)
    requires Inv(p) && Enabled(p, FinishTask(w))
    ensures Inv(Apply(p, FinishTask(w)))
  {
    CountUpdate(p.workers, w, AtTest, Woken);
    TakersUpdate(p.workers, w, AtTest);
    MembersAfter(p.workers, w, AtTest);
  }

  lemma StepKeeps(p: Pool, s: Step)
    requires Inv(p) && Enabled(p, s)
    ensures Inv(Apply(p, s))
  {
    match s
    case AddTask(task, notified) => AddTaskKeeps(p, task, notified);
    case Stop => StopKeeps(p);
    case Test(w) => TestKeeps(p, w);
    case Look(w) => LookKeeps(p, w);
    case SpuriousWakeup(w) => WakeupKeeps(p, w);
    case FinishTask(w) => FinishKeeps(p, w);
  }

  lemma {:induction false} RunKeeps(p: Pool, steps: seq<Step>, q: Pool)
    requires Inv(p) && Leads(p, steps, q)
    ensures Inv(q) && |q.workers| == |p.workers|
    decreases |steps|
  {
    if steps != [] {
      StepKeeps(p, steps[0]);
      RunKeeps(Apply(p, steps[0]), steps[1..], q);
    }
  }

  // ----- every task taken is run -----

  lemma {:induction false} WakingKeepsWork(ws: seq<Worker>, task: Task)
    ensures Count(WakeAll(ws), Busy(task)) == Count(ws, Busy(task))
    decreases |ws|
  {
    if ws != [] {
      var one := if ws[0] == Waiting then Woken else ws[0];
      WakingKeepsWork(ws[1..], task);
      assert ws == [ws[0]] + ws[1..];
      assert WakeAll(ws) == [one] + WakeAll(ws[1..]);
    } else {
      assert WakeAll(ws) == ws;
    }
  }

  /** This task has been taken as often as it has been run or a worker is at it. */
  ghost predicate Run(p: Pool, task: Task) {
    multiset(p.taken)[task] == multiset(p.ran)[task] + Count(p.workers, Busy(task))
  }

  lemma StepRuns(p: Pool, s: Step, task: Task)
    requires Run(p, task) && Enabled(p, s)
    ensures Run(Apply(p, s), task)
  {
    match s
    case AddTask(_, notified) =>
      if Waiting in p.workers {
        CountUpdate(p.workers, notified, Woken, Busy(task));
      }
    case Stop => WakingKeepsWork(p.workers, task);
    case Test(w) => CountUpdate(p.workers, w, if p.running then AtQueue else Gone, Busy(task));
    case Look(w) =>
      var v := if p.queue != [] then Busy(p.queue[0]) else if p.running then Waiting else Gone;
      CountUpdate(p.workers, w, v, Busy(task));
    case SpuriousWakeup(w) => CountUpdate(p.workers, w, Woken, Busy(task));
    case FinishTask(w) => CountUpdate(p.workers, w, AtTest, Busy(task));
  }

  lemma {:induction false} RunsAll(p: Pool, steps: seq<Step>, q: Pool, task: Task)
    requires Run(p, task) && Leads(p, steps, q)
    ensures Run(q, task)
    decreases |steps|
  {
    if steps != [] {
      StepRuns(p, steps[0], task);
      RunsAll(Apply(p, steps[0]), steps[1..], q, task);
    }
  }

  /** Over every interleaving, every task taken is run once for each time it was taken: it has
      been run to its end so often, or that many workers are still at it. */
  lemma TakenTasksAreRun(n: nat, steps: seq<Step>, p: Pool, task: Task)
    requires Leads(Started(n), steps, p)
    ensures multiset(p.taken)[task] == multiset(p.ran)[task] + Count(p.workers, Busy(task))
  {
    assert Busy(task) !in Started(n).workers;
    RunsAll(Started(n), steps, p, task);
  }

  // ----- main results -----

  /** Work conservation, over every interleaving: the tasks taken followed by the queue are
      the tasks added, in order; each push is popped at most once. */
  lemma WorkConserved(n: nat, steps: seq<Step>, p: Pool)
    requires Leads(Started(n), steps, p)
    ensures p.taken + p.queue == p.added
  {
    RunKeeps(Started(n), steps, p);
  }

  /** No lost notification: while running, a worker left waiting implies at least as many
      woken workers as queued tasks. So work never sits in the queue with every worker
      asleep, and a woken worker that looks takes it. */
  lemma NoLostNotification(n: nat, steps: seq<Step>, p: Pool)
    requires Leads(Started(n), steps, p) && p.running
    ensures Waiting in p.workers ==> |p.queue| <= Count(p.workers, Woken)
    ensures p.queue != [] && Waiting in p.workers ==>
              exists w :: 0 <= w < |p.workers| && p.workers[w] == Woken && Enabled(p, Look(w))
                          && Apply(p, Look(w)).taken == p.taken + [p.queue[0]]
  {
    RunKeeps(Started(n), steps, p);
    if p.queue != [] && Waiting in p.workers {
      assert Woken in multiset(p.workers);
      var w :| 0 <= w < |p.workers| && p.workers[w] == Woken;
      assert Enabled(p, Look(w));
    }
  }

  /** After stop() no worker is left in a wait, now or later, and the workers together take
      at most one more task each; the rest stays in the queue. */
  lemma StoppedPoolEnds(n: nat, steps: seq<Step>, p: Pool)
    requires Leads(Started(n), steps, p) && !p.running
    ensures Waiting !in p.workers
    ensures p.lastTasks <= n
    ensures forall w :: 0 <= w < |p.workers| && p.workers[w] in {AtQueue, Woken} && p.queue == [] ==>
              Apply(p, Look(w)).workers[w] == Gone
  {
    RunKeeps(Started(n), steps, p);
  }

  /** What one step means to one worker: it goes for good only once the pool has been stopped, it
      starts to wait only while the pool runs and has nothing queued, and it is woken by stop(),
      by a notification meant for it, or spuriously. */
  lemma WorkerMoves(p: Pool, s: Step, v: nat)
    requires Enabled(p, s) && v < |p.workers|
    ensures var before, after := p.workers[v], Apply(p, s).workers;
            && |after| == |p.workers|
            && (after[v] == Gone <==>
                  before == Gone || (!p.running && (s == Test(v) || (s == Look(v) && p.queue == []))))
            && (after[v] == Waiting && before != Waiting <==> s == Look(v) && p.running && p.queue == [])
            && (after[v] == Woken && before != Woken <==>
                  before == Waiting && (s == Stop || s == SpuriousWakeup(v) || (s.AddTask? && s.notified == v)))
            && (after[v].Busy? && before != after[v] <==> s == Look(v) && p.queue != [])
  {
    assert Waiting in p.workers <==> exists w :: 0 <= w < |p.workers| && p.workers[w] == Waiting;
  }

  lemma {:induction false} NobodyLeaves(p: Pool, steps: seq<Step>, q: Pool)
    requires (p.running ==> Gone !in p.workers) && Leads(p, steps, q)
    ensures q.running ==> Gone !in q.workers && p.running && Stop !in steps
    decreases |steps|
  {
    if steps != [] {
      var r := Apply(p, steps[0]);
      forall v | 0 <= v < |r.workers| && r.running ensures r.workers[v] != Gone {
        assert |r.workers| == |p.workers|;
        WorkerMoves(p, steps[0], v);
      }
      NobodyLeaves(r, steps[1..], q);
      assert steps == [steps[0]] + steps[1..];
    }
  }

  /** Over every interleaving, the pool runs until stop() is called, and no worker leaves before
      that. */
  lemma WorkersStay(n: nat, steps: seq<Step>, p: Pool)
    requires Leads(Started(n), steps, p) && p.running
    ensures Stop !in steps && Gone !in p.workers
  {
    NobodyLeaves(Started(n), steps, p);
  }

  // ----- the pool object -----

  /** The members of the pool and the positions of its threads. Each method is one critical
      section or one action outside the lock, for the given worker. */
  class ThreadPool {
    var running: bool
    var queue: seq<Task>
    var workers: seq<Worker>
    /** Tasks run by the caller of addTask because there is no worker. */
    var inlined: seq<Task>
    ghost var added: seq<Task>
    ghost var taken: seq<Task>
    ghost var ran: seq<Task>
    ghost var lastTasks: nat

    ghost function View(): Pool
      reads this
    {
      Pool(running, queue, workers, added, taken, ran, lastTasks)
    }

    constructor (threadSize: nat)
      ensures View() == Started(threadSize) && inlined == []
    {
      running, queue, workers, inlined := true, [], seq(threadSize, _ => AtTest), [];
      added, taken, ran, lastTasks := [], [], [], 0;
    }

    /** cond_.notify_one: some waiting worker, if there is one. */
    method NotifyOne() returns (notified: nat)
      modifies this`workers
      ensures Waiting in old(workers) ==>
                notified < |old(workers)| && old(workers)[notified] == Waiting
                && workers == old(workers)[notified := Woken]
      ensures Waiting !in old(workers) ==> workers == old(workers)
    {
      notified := 0;
      if Waiting in workers {
        var w :| 0 <= w < |workers| && workers[w] == Waiting;
        notified := w;
        workers := workers[w := Woken];
      }
    }

    method AddTask(task: Task) returns (ghost notified: nat)
      modifies this
      ensures workers == [] ==> inlined == old(inlined) + [task] && View() == old(View())
      ensures old(workers) != [] ==>
                && inlined == old(inlined)
                && Enabled(old(View()), Step.AddTask(task, notified))
                && View() == Apply(old(View()), Step.AddTask(task, notified))
    {
      notified := 0;
      if workers == [] {
        inlined := inlined + [task];
      } else {
        queue := queue + [task];
        added := added + [task];
        notified := NotifyOne();
      }
    }

    method Stop()
      modifies this
      ensures View() == Apply(old(View()), Step.Stop) && inlined == old(inlined)
    {
      running := false;
      workers := WakeAll(workers);
    }

    /** The test of the outer while loop of runInThread. */
    method TestRunning(w: nat)
      requires w < |workers| && workers[w] == AtTest
      modifies this`workers
      ensures View() == Apply(old(View()), Test(w))
    {
      if running {
        workers := workers[w := AtQueue];
      } else {
        workers := workers[w := Gone];
      }
    }

    /** One pass of the inner loop with the lock held: wait, leave, or take the front task. */
    method LookAtQueue(w: nat)
      requires w < |workers| && workers[w] in {AtQueue, Woken}
      modifies this
      ensures View() == Apply(old(View()), Look(w)) && inlined == old(inlined)
    {
      if queue == [] {
        if !running {
          workers := workers[w := Gone];
        } else {
          workers := workers[w := Waiting];
        }
      } else {
        var task := queue[0];
        queue := queue[1..];
        workers := workers[w := Busy(task)];
        taken := taken + [task];
        lastTasks := if running then lastTasks else lastTasks + 1;
      }
    }

    /** The task a worker has taken returns. */
    method FinishTask(w: nat)
      requires w < |workers| && workers[w].Busy?
      modifies this`workers, this`ran
      ensures View() == Apply(old(View()), Step.FinishTask(w)) && inlined == old(inlined)
    {
      ran := ran + [workers[w].task];
      workers := workers[w := AtTest];
    }
  }
}
