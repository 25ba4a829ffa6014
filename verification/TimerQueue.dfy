/** The timer queue object with its timers on the heap (src/time/TimerQueue.cpp,
    src/time/Timer.{h,cpp}). Its methods are proved to be runs of TimerSpec. */
module TimerQueues {
  import opened Clocks
  import opened Strings
  import T = TimerSpec
  import R = TimerReads

  class Timer {
    const id: nat
    var expiration: int
    const interval: nat
    const repeat: bool
    ghost var restartedAt: Option<int>

    ghost function View(): T.Timer
      reads this
    {
      T.Timer(id, expiration, interval, repeat, restartedAt)
    }

    constructor (id: nat, when: int, interval: nat, repeat: bool)
      ensures View() == T.Timer(id, when, interval, repeat, None)
    {
      this.id := id;
      expiration := when;
      this.interval := interval;
      this.repeat := repeat;
      restartedAt := None;
    }

    method Restart(now: int)
      modifies this
      ensures View() == T.Restart(old(View()), now)
    {
      if repeat {
        expiration := now + interval;
        restartedAt := Some(now);
      } else {
        expiration := 0;
      }
    }
  }

  datatype Pair = Pair(when: int, timer: Timer)

  function EntryOf(p: Pair): T.Entry {
    T.Entry(p.when, p.timer.id)
  }

  function Entries(ts: seq<Pair>): seq<T.Entry> {
    seq(|ts|, i requires 0 <= i < |ts| => EntryOf(ts[i]))
  }

  lemma EntriesSplit(ts: seq<Pair>, n: nat)
    requires n <= |ts|
    ensures Entries(ts[..n]) == Entries(ts)[..n] && Entries(ts[n..]) == Entries(ts)[n..]
  {
  }

  /** std::set::insert. */
  function InsertPair(ts: seq<Pair>, p: Pair): seq<Pair> {
    if ts == [] || T.Before(EntryOf(p), EntryOf(ts[0])) then [p] + ts
    else [ts[0]] + InsertPair(ts[1..], p)
  }

  lemma {:induction false} InsertPairEntries(ts: seq<Pair>, p: Pair)
    ensures Entries(InsertPair(ts, p)) == T.InsertEntry(Entries(ts), EntryOf(p))
    ensures forall x :: x in InsertPair(ts, p) <==> x == p || x in ts
    decreases |ts|
  {
    if ts == [] || T.Before(EntryOf(p), EntryOf(ts[0])) {
      assert Entries([p] + ts) == [EntryOf(p)] + Entries(ts);
    } else {
      InsertPairEntries(ts[1..], p);
      assert Entries(ts)[1..] == Entries(ts[1..]);
      assert Entries(InsertPair(ts, p)) == [EntryOf(ts[0])] + Entries(InsertPair(ts[1..], p));
    }
  }

  lemma {:induction false} SomeUnused(used: set<nat>) returns (bound: nat)
    ensures forall id :: id in used ==> id < bound
    decreases |used|
  {
    if used == {} {
      bound := 0;
    } else {
      var one :| one in used;
      var rest := SomeUnused(used - {one});
      bound := if rest <= one then one + 1 else rest;
      assert forall id :: id in used ==> id == one || id in used - {one};
    }
  }

  datatype Timespec = Timespec(sec: int, nsec: int)

  /** The itimerspec of resetTimerfd. */
  function TimespecFor(expiration: int, now: int): Timespec {
    var microseconds := if expiration - now < T.MIN_DELAY then T.MIN_DELAY else expiration - now;
    Timespec(microseconds / T.PER_SECOND, microseconds % T.PER_SECOND * 1000)
  }

  /** The timespec is normalised, is not zero (which would disarm the timerfd), and stands
      for exactly max(100 microseconds, time left). */
  lemma TimespecIsExact(expiration: int, now: int)
    ensures var ts := TimespecFor(expiration, now);
            && ts.sec >= 0 && 0 <= ts.nsec < 1_000_000_000
            && (ts.sec > 0 || ts.nsec > 0)
            && ts.sec * 1_000_000_000 + ts.nsec
               == 1000 * (if expiration - now < 100 then 100 else expiration - now)
  {
    var m := T.Delay(expiration, now);
    assert m == m / T.PER_SECOND * T.PER_SECOND + m % T.PER_SECOND;
  }

  class TimerQueue {
    var timers: seq<Pair>
    /** The kernel's side of timerfd_. */
    var timerfd: Option<T.Armed>
    const clock: Clock
    /** The timers that have been allocated and not deleted. */
    ghost var live: set<Timer>
    /** What they hold. */
    ghost var heap: map<nat, T.Timer>
    ghost var phase: T.Phase
    ghost var batch: seq<T.Entry>
    ghost var batchNow: int
    /** The addresses handed out so far. */
    var used: set<nat>
    ghost var log: seq<T.Ran>

    /** Ownership: live timers have distinct names, all of them used; the set's entries
        point to live timers and carry their expirations. */
    ghost predicate Valid()
      reads this, live
    {
      && heap.Keys <= used
      && (forall t :: t in live ==> t.id in heap && heap[t.id] == t.View())
      && (forall t, u :: t in live && u in live && t.id == u.id ==> t == u)
      && (forall p :: p in timers ==> p.timer in live && p.when == p.timer.expiration)
    }

    ghost function View(): T.Queue
      reads this, clock
    {
      T.Queue(Entries(timers), heap, phase, batch, batchNow, timerfd, clock.last, used, log)
    }

    constructor ()
      ensures Valid() && fresh(clock) && live == {}
      ensures View() == T.EMPTY
    {
      timers, timerfd := [], None;
      clock := new Clock();
      live, heap, phase, batch, batchNow, used, log := {}, map[], T.Idle, [], 0, {}, [];
      new;
      assert View() == T.EMPTY;
    }

    method ResetTimerfd(expiration: int)
      modifies this`timerfd, clock
      ensures clock.last >= old(clock.last)
      ensures timerfd == Some(T.Armed(clock.last, clock.last + T.Delay(expiration, clock.last)))
    {
      var now := clock.Now();
      var ts := TimespecFor(expiration, now);
      TimespecIsExact(expiration, now);
      timerfd := Some(T.Armed(now, now + (ts.sec * 1_000_000_000 + ts.nsec) / 1000));
    }

    /** Returns whether the earliest expiration changed. */
    method Insert(timer: Timer) returns (earliestChanged: bool)
      modifies this`timers
      ensures earliestChanged == T.EarliestChanges(old(Entries(timers)), timer.expiration)
      ensures Entries(timers)
              == T.InsertEntry(old(Entries(timers)), T.Entry(timer.expiration, timer.id))
      ensures forall p :: p in timers ==> p == Pair(timer.expiration, timer) || p in old(timers)
    {
      earliestChanged := false;
      var when := timer.expiration;
      if timers == [] || when < timers[0].when {
        earliestChanged := true;
      }
      InsertPairEntries(timers, Pair(when, timer));
      timers := InsertPair(timers, Pair(when, timer));
    }

    /** A timer no one else refers to enters the queue. */
    method AddTimerInLoop(timer: Timer)
      requires Valid() && timer.id !in used
      requires timer.restartedAt == None && (!timer.repeat ==> timer.interval == 0)
      requires phase == T.Idle || phase.Running?
      modifies this`timers, this`timerfd, this`live, this`heap, this`used, clock
      ensures Valid() && live == old(live) + {timer}
      ensures clock.last >= old(clock.last)
      ensures View() == T.AddTimer(old(View()), timer.View(), clock.last)
    {
      ghost var q := View();
      ghost var t := timer.View();
      var earliestChanged := Insert(timer);
      live := live + {timer};
      used := used + {timer.id};
      heap := heap[timer.id := t];
      if earliestChanged {
        ResetTimerfd(timer.expiration);
      }
    }

    /** The batch in hand is the one in the model. */
    ghost predicate Holds(expired: seq<Pair>)
      reads this
    {
      batch == Entries(expired) && (forall p :: p in expired ==> p.timer in live)
    }

    /** Takes the expired prefix out of the set; it becomes the batch. */
    method GetExpired(now: int) returns (expired: seq<Pair>)
      requires Valid()
      modifies this`timers, this`batch
      ensures Valid() && Holds(expired)
      ensures var n := T.ExpiredCount(old(Entries(timers)), now);
              batch == old(Entries(timers))[..n] && Entries(timers) == old(Entries(timers))[n..]
    {
      ghost var all := timers;
      var end := T.ExpiredCount(Entries(timers), now);
      EntriesSplit(all, end);
      expired := timers[..end];
      timers := timers[end..];
      batch := Entries(expired);
      assert forall p :: p in expired || p in timers ==> p in all;
    }

    /** handleRead up to the callbacks: read the clock, clear the timerfd, take the batch. */
    method BeginRead() returns (expired: seq<Pair>)
      requires Valid()
      modifies this`timers, this`timerfd, this`batch, this`batchNow, this`phase, clock
      ensures Valid() && Holds(expired)
      ensures clock.last >= old(clock.last)
      ensures live == old(live)
      ensures View() == T.Begin(old(View()), clock.last)
    {
      var now := clock.Now();
      timerfd := None;
      expired := GetExpired(now);
      batchNow, phase := now, T.Running(0);
    }

    /** The callback of the k-th timer of the batch starts. */
    method EnterCallback(expired: seq<Pair>, ghost k: nat)
      requires Valid() && Holds(expired) && phase == T.Running(k) && k < |expired|
      modifies this`log, this`phase
      ensures Valid() && phase == T.Running(k + 1)
      ensures T.Enabled(old(View()), T.RunCallback)
      ensures View() == T.RunNext(old(View()))
    {
      ghost var q := View();
      ghost var timer := expired[k].timer;
      assert timer in live && timer.id == batch[k].id;
      log := log + [T.Ran(timer.View(), batchNow)];
      phase := T.Running(k + 1);
    }

    /** addTimer on the loop thread: a new timer at some free address. */
    method AddTimer(n: R.NewTimer) returns (ghost step: T.Step)
      requires Valid() && (phase == T.Idle || phase.Running?)
      modifies this`timers, this`timerfd, this`live, this`heap, this`used, clock
      ensures Valid() && old(live) <= live
      ensures step.Add? && R.EventOf(step) == [R.Asked(R.Made(n))]
      ensures T.Enabled(old(View()), step) && View() == T.Apply(old(View()), step)
    {
      ghost var bound := SomeUnused(used);
      assert bound !in used;
      var id: nat :| id !in used;
      var timer := new Timer(id, n.when, if n.repeat then n.interval else 0, n.repeat);
      AddTimerInLoop(timer);
      step := T.Add(timer.View(), clock.last);
    }

    /** addTimer called for each of these, in order. */
    method AddTimers(news: seq<R.NewTimer>) returns (ghost steps: seq<T.Step>)
      requires Valid() && (phase == T.Idle || phase.Running?)
      modifies this`timers, this`timerfd, this`live, this`heap, this`used, clock
      ensures Valid() && old(live) <= live
      ensures T.Leads(old(View()), steps, View())
      ensures R.CallSteps(steps) && R.Trace(steps) == R.Asks(news)
    {
      ghost var q := View();
      steps := [];
      var i := 0;
      while i < |news|
        invariant 0 <= i <= |news| && Valid() && old(live) <= live
        invariant T.Leads(q, steps, View())
        invariant R.CallSteps(steps) && R.Trace(steps) == R.Asks(news[..i])
      {
        ghost var before := View();
        ghost var step := AddTimer(news[i]);
        T.LeadsSnoc(q, steps, before, step);
        R.TraceSnoc(steps, step);
        R.AsksSnoc(news[..i], news[i]);
        assert news[..i + 1] == news[..i] + [news[i]];
        steps := steps + [step];
        i := i + 1;
      }
      assert news[..i] == news;
    }

    /** reset() for one timer of the batch: a repeating one is restarted and re-inserted, a
        one-shot is deleted. */
    method ResetOne(expired: seq<Pair>, k: nat)
      requires Valid() && k < |expired| && phase == T.Resetting(k)
      requires batch == Entries(expired) && expired[k].timer in live
      requires forall p :: p in timers ==> p.timer != expired[k].timer
      modifies this`timers, this`live, this`heap, this`phase, expired[k].timer, clock
      ensures Valid() && clock.last >= old(clock.last)
      ensures T.Enabled(old(View()), T.ResetOne(clock.last))
      ensures View() == T.ResetNext(old(View()), clock.last)
      ensures live == if expired[k].timer.repeat then old(live) else old(live) - {expired[k].timer}
    {
      var timer := expired[k].timer;
      assert batch[k].id == timer.id;
      if timer.repeat {
        var now := clock.Now();
        timer.Restart(now);
        heap := heap[timer.id := timer.View()];
        var earliestChanged := Insert(timer);
      } else {
        live := live - {timer};
        heap := heap - {timer.id};
      }
      phase := T.Resetting(k + 1);
    }

    /** The end of reset(): the timerfd is set for the earliest remaining timer. */
    method FinishReset()
      requires Valid()
      modifies this`timerfd, this`phase, this`batch, clock
      ensures Valid() && clock.last >= old(clock.last)
      ensures View() == T.Finish(old(View()), clock.last)
    {
      if timers != [] {
        assert timers[0] in timers;
        ResetTimerfd(timers[0].timer.expiration);
      }
      phase, batch := T.Idle, [];
    }

    /** No entry of the set points to the timer the batch restarts next. */
    lemma NextIsOutside(expired: seq<Pair>, k: nat)
      requires Valid() && T.Inv(View()) && phase == T.Resetting(k) && k < |expired|
      requires batch == Entries(expired)
      ensures forall p :: p in timers ==> p.timer != expired[k].timer
      ensures forall j :: k < j < |expired| ==> expired[j].timer != expired[k].timer
    {
      T.DroppedEntries(View());
      forall p | p in timers ensures p.timer != expired[k].timer {
        var i :| 0 <= i < |timers| && timers[i] == p;
        assert Entries(timers)[i] in Entries(timers);
      }
      forall j | k < j < |expired| ensures expired[j].timer != expired[k].timer {
        assert batch[k].id != batch[j].id;
      }
    }

    /** Where reset() stands before the k-th timer of the batch. */
    ghost predicate AtReset(expired: seq<Pair>, k: nat)
      reads this, live, clock
    {
      && Valid() && T.Inv(View())
      && phase == T.Resetting(k) && k <= |expired| && batch == Entries(expired)
      && (forall j :: k <= j < |expired| ==> expired[j].timer in live)
    }

    method ResetTurn(expired: seq<Pair>, k: nat) returns (ghost step: T.Step)
      requires AtReset(expired, k) && k < |expired|
      modifies this`timers, this`live, this`heap, this`phase, expired[k].timer, clock
      ensures AtReset(expired, k + 1) && step.ResetOne?
      ensures T.Enabled(old(View()), step) && View() == T.Apply(old(View()), step)
    {
      NextIsOutside(expired, k);
      ghost var before := View();
      ResetOne(expired, k);
      step := T.ResetOne(clock.last);
      T.StepKeeps(before, step);
    }

    /** The loop of reset(). */
    method ResetAll(expired: seq<Pair>) returns (ghost resets: seq<T.Step>)
      requires AtReset(expired, 0)
      modifies this`timers, this`live, this`heap, this`phase, clock, set p | p in expired :: p.timer
      ensures AtReset(expired, |expired|) && R.ResetSteps(resets)
      ensures T.Leads(old(View()), resets, View())
    {
      ghost var q := View();
      resets := [];
      var k := 0;
      while k < |expired|
        invariant 0 <= k <= |expired| && AtReset(expired, k)
        invariant T.Leads(q, resets, View()) && R.ResetSteps(resets)
      {
        ghost var before := View();
        assert expired[k] in expired;
        ghost var step := ResetTurn(expired, k);
        T.LeadsSnoc(q, resets, before, step);
        resets := resets + [step];
        k := k + 1;
      }
    }

    /** reset(): all timers of the batch, then the timerfd. */
    method Reset(expired: seq<Pair>) returns (ghost resets: seq<T.Step>, ghost end: int)
      requires AtReset(expired, 0)
      modifies this, clock, set p | p in expired :: p.timer
      ensures Valid() && phase == T.Idle && R.ResetSteps(resets)
      ensures T.Leads(old(View()), resets + [T.FinishRead(end)], View())
    {
      ghost var q := View();
      resets := ResetAll(expired);
      ghost var before := View();
      FinishReset();
      end := clock.last;
      T.LeadsSnoc(q, resets, before, T.FinishRead(end));
    }

    /** Where handleRead stands before the k-th callback. */
    ghost predicate AtCallback(expired: seq<Pair>, k: nat)
      reads this, live, clock
    {
      Valid() && Holds(expired) && phase == T.Running(k) && k <= |expired|
    }

    /** One callback of the batch and the timers it adds. */
    method CallbackTurn(expired: seq<Pair>, k: nat, adds: seq<R.NewTimer>) returns (ghost steps: seq<T.Step>)
      requires AtCallback(expired, k) && k < |expired|
      modifies this`timers, this`timerfd, this`live, this`heap, this`used, this`log, this`phase, clock
      ensures AtCallback(expired, k + 1) && T.Leads(old(View()), steps, View())
      ensures R.CallSteps(steps) && R.Trace(steps) == [R.Called] + R.Asks(adds)
    {
      ghost var before := View();
      EnterCallback(expired, k);
      T.LeadsSnoc(before, [], before, T.RunCallback);
      ghost var middle := View();
      ghost var more := AddTimers(adds);
      steps := [] + [T.RunCallback] + more;
      T.LeadsTrans(before, [] + [T.RunCallback], middle, more, View());
      assert steps[1..] == more;
    }

    /** The first k callbacks, with what they add, have led here from `start`. */
    ghost predicate CalledBack(expired: seq<Pair>, k: nat, adds: nat -> seq<R.NewTimer>,
                               start: T.Queue, calls: seq<T.Step>)
      reads this, live, clock
    {
      && AtCallback(expired, k) && T.Leads(start, calls, View())
      && R.CallSteps(calls) && R.Trace(calls) == R.Requests(adds, k)
    }

    method CallbackNext(expired: seq<Pair>, k: nat, adds: nat -> seq<R.NewTimer>,
                        ghost start: T.Queue, ghost calls: seq<T.Step>) returns (ghost more: seq<T.Step>)
      requires CalledBack(expired, k, adds, start, calls) && k < |expired|
      modifies this`timers, this`timerfd, this`live, this`heap, this`used, this`log, this`phase, clock
      ensures CalledBack(expired, k + 1, adds, start, more)
    {
      ghost var before := View();
      ghost var turn := CallbackTurn(expired, k, adds(k));
      T.LeadsTrans(start, calls, before, turn, View());
      R.TraceAppend(calls, turn);
      more := calls + turn;
    }

    /** The callbacks of the batch in order; the k-th one adds the timers adds(k). */
    method RunCallbacks(expired: seq<Pair>, adds: nat -> seq<R.NewTimer>) returns (ghost calls: seq<T.Step>)
      requires AtCallback(expired, 0)
      modifies this`timers, this`timerfd, this`live, this`heap, this`used, this`log, this`phase, clock
      ensures CalledBack(expired, |expired|, adds, old(View()), calls)
    {
      calls := [];
      var k := 0;
      while k < |expired|
        invariant 0 <= k <= |expired| && CalledBack(expired, k, adds, old(View()), calls)
      {
        calls := CallbackNext(expired, k, adds, old(View()), calls);
        k := k + 1;
      }
    }

    /** handleRead up to reset(). */
    method RunExpired(adds: nat -> seq<R.NewTimer>)
      returns (expired: seq<Pair>, ghost now: int, ghost calls: seq<T.Step>)
      requires Valid() && phase == T.Idle
      modifies this, clock
      ensures AtCallback(expired, |expired|)
      ensures T.Leads(old(View()), [T.BeginRead(now)] + calls, View())
      ensures R.CallSteps(calls) && R.Trace(calls) == R.Requests(adds, |expired|)
      ensures |expired| == T.ExpiredCount(old(Entries(timers)), now)
      ensures forall p :: p in expired ==> p.timer in old(live)
    {
      ghost var q := View();
      expired := BeginRead();
      now := clock.last;
      T.LeadsSnoc(q, [], q, T.BeginRead(now));
      ghost var s1 := View();
      assert [] + [T.BeginRead(now)] == [T.BeginRead(now)];
      calls := RunCallbacks(expired, adds);
      T.LeadsTrans(q, [T.BeginRead(now)], s1, calls, View());
    }

    /** The callbacks are over. */
    ghost method EndCallbacks(expired: seq<Pair>)
      requires AtCallback(expired, |expired|) && T.Inv(View())
      modifies this`phase
      ensures AtReset(expired, 0) && T.Enabled(old(View()), T.EndCallbacks)
      ensures View() == T.Apply(old(View()), T.EndCallbacks)
    {
      ghost var q := View();
      phase := T.Resetting(0);
      T.StepKeeps(q, T.EndCallbacks);
      assert forall j :: 0 <= j < |expired| ==> expired[j] in expired;
    }

    /** handleRead, for any clock readings; the k-th callback adds the timers adds(k). It reads
        the timerfd, calls back exactly the timers due, in order, each followed by its own
        additions, restarts or deletes exactly those timers, and arms the timerfd. */
    method HandleRead(adds: nat -> seq<R.NewTimer>)
      returns (ghost now: int, ghost calls: seq<T.Step>, ghost resets: seq<T.Step>, ghost end: int)
      requires Valid() && T.Inv(View()) && phase == T.Idle
      modifies this, clock, live
      ensures Valid() && phase == T.Idle && T.Inv(View())
      ensures T.Leads(old(View()), R.ReadSteps(now, calls, resets, end), View())
      ensures R.CallSteps(calls) && R.ResetSteps(resets)
      ensures R.Trace(calls) == R.Requests(adds, T.ExpiredCount(old(Entries(timers)), now))
      ensures forall e :: e in T.Begin(old(View()), now).batch ==> e.id in old(heap)
      ensures log == old(log) + R.Calls(T.Begin(old(View()), now).batch, old(heap), now)
      ensures R.TimersServed(old(View()), now, View())
    {
      ghost var q := View();
      var expired;
      expired, now, calls := RunExpired(adds);
      ghost var t := View();
      T.LeadsKeeps(q, [T.BeginRead(now)] + calls, t);
      EndCallbacks(expired);
      resets, end := Reset(expired);
      R.Assemble(q, now, calls, t, resets, end, View());
      R.ReadServes(q, now, calls, resets, end, View());
    }
  }
}
