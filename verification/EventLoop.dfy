/** One event loop, its functor queue and its eventfd, with any number of other threads
    (src/net/EventLoop.cpp). The queue is under a mutex; the wakeup is a separate step, so
    the question is whether a wakeup can be lost and whether functors keep their order. */
module EventLoops {

  type Functor = nat

  /** Where the loop thread is. `wake` says the poll reported the eventfd. */
  datatype Pc = AtTest | AtPoll | Dispatching(wake: bool) | Swapping | Executing | Exited

  /** Another thread: idle, or between its push (or its set of quit_) and its wakeup. */
  datatype Other = Idle | MustWake

  /** `batch[next..]` is the rest of the swapped-out vector. `selfCheck` is set while the
      loop thread itself is between its push and the test of callingPendingFunctors_.
      `queued` and `executed` record every push and every call, in order. */
  datatype Loop = Loop(pc: Pc, quit: bool, calling: bool, selfCheck: bool, counter: nat,
                       pending: seq<Functor>, batch: seq<Functor>, next: nat,
                       others: seq<Other>, queued: seq<Functor>, executed: seq<Functor>)

  /** The state in which the while loop of loop() is entered: quit_ has just been cleared;
      `early` was queued before, `counter` is what earlier wakeups left in the eventfd, and some
      of the other threads may be about to write it. An owner thread that queues before loop()
      makes no wakeup. */
  function Entered(others: seq<Other>, early: seq<Functor>, counter: nat): Loop {
    Loop(AtTest, false, false, false, counter, early, [], 0, others, early, [])
  }

  /** What was queued before has been announced, or is about to be. */
  predicate AnnouncedBefore(others: seq<Other>, early: seq<Functor>, counter: nat) {
    early == [] || counter > 0 || MustWake in others
  }

  datatype Step =
    | Test
    | PollReturn(wake: bool)
    | ReadWakeup
    | BeginFunctors
    | Swap
    | Execute
    | EndFunctors
    | SelfQueue(f: Functor)
    | SelfCheck
    | SelfQuit
    | OtherQueue(t: nat, f: Functor)
    | OtherQuit(t: nat)
    | OtherWakeup(t: nat)

  /** User code on the loop thread: an event callback or a functor being executed. */
  predicate InCallback(s: Loop) {
    !s.selfCheck && (s.pc.Dispatching? || s.pc.Executing?)
  }

  predicate Enabled(s: Loop, step: Step) {
    match step
    case Test => s.pc == AtTest
    case PollReturn(wake) => s.pc == AtPoll && (wake ==> s.counter > 0)
    case ReadWakeup => s.pc == Dispatching(true) && !s.selfCheck
    case BeginFunctors => s.pc == Dispatching(false) && !s.selfCheck
    case Swap => s.pc == Swapping
    case Execute => s.pc == Executing && !s.selfCheck && s.next < |s.batch|
    case EndFunctors => s.pc == Executing && !s.selfCheck && s.next == |s.batch|
    case SelfQueue(_) => InCallback(s)
    case SelfCheck => s.selfCheck
    case SelfQuit => InCallback(s)
    case OtherQueue(t, _) => t < |s.others| && s.others[t] == Idle
    case OtherQuit(t) => t < |s.others| && s.others[t] == Idle
    case OtherWakeup(t) => t < |s.others| && s.others[t] == MustWake
  }

  function Apply(s: Loop, step: Step): Loop
    requires Enabled(s, step)
  {
    match step
    case Test => s.(pc := if s.quit then Exited else AtPoll)
    case PollReturn(wake) => s.(pc := Dispatching(wake))
    case ReadWakeup => s.(pc := Dispatching(false), counter := 0)
    case BeginFunctors => s.(pc := Swapping, calling := true)
    case Swap => s.(pc := Executing, batch := s.pending, next := 0, pending := [])
    case Execute => s.(next := s.next + 1, executed := s.executed + [s.batch[s.next]])
    case EndFunctors => s.(pc := AtTest, calling := false, batch := [], next := 0)
    case SelfQueue(f) => s.(pending := s.pending + [f], queued := s.queued + [f], selfCheck := true)
    case SelfCheck => s.(selfCheck := false, counter := if s.calling then s.counter + 1 else s.counter)
    case SelfQuit => s.(quit := true)
    case OtherQueue(t, f) =>
      s.(pending := s.pending + [f], queued := s.queued + [f], others := s.others[t := MustWake])
    case OtherQuit(t) => s.(quit := true, others := s.others[t := MustWake])
    case OtherWakeup(t) => s.(counter := s.counter + 1, others := s.others[t := Idle])
  }

  ghost predicate Leads(s: Loop, steps: seq<Step>, t: Loop)
    decreases |steps|
  {
    if steps == [] then t == s
    else Enabled(s, steps[0]) && Leads(Apply(s, steps[0]), steps[1..], t)
  }

  ghost predicate CanReach(s: Loop, t: Loop) {
    exists steps :: Leads(s, steps, t)
  }

  lemma {:induction false} LeadsSnoc(s: Loop, steps: seq<Step>, t: Loop, step: Step)
    requires Leads(s, steps, t) && Enabled(t, step)
    ensures Leads(s, steps + [step], Apply(t, step))
    decreases |steps|
  {
    if steps == [] {
      assert ([] + [step])[1..] == [];
    } else {
      assert (steps + [step])[1..] == steps[1..] + [step];
      LeadsSnoc(Apply(s, steps[0]), steps[1..], t, step);
    }
  }

  // ----- the invariant -----

  /** Somebody is committed to a wakeup, or it is already in the eventfd. */
  predicate WakeupDue(s: Loop) {
    s.counter > 0 || MustWake in s.others
  }

  predicate Fifo(s: Loop) {
    s.next <= |s.batch| && s.executed + s.batch[s.next..] + s.pending == s.queued
  }

  predicate Orderly(s: Loop) {
    && Fifo(s)
    && (s.calling <==> s.pc == Swapping || s.pc == Executing)
    && (s.pc != Executing ==> s.batch == [])
    && (s.selfCheck ==> s.pc.Dispatching? || s.pc.Executing?)
  }

  /** Work that waits at the test, at poll or behind the running batch has been announced. */
  predicate Announced(s: Loop) {
    && (s.pc in {AtTest, AtPoll, Executing} && s.pending != [] ==> WakeupDue(s) || s.selfCheck)
    && (s.pc == AtPoll && s.quit ==> WakeupDue(s))
  }

  predicate Inv(s: Loop) {
    Orderly(s) && Announced(s)
  }

  /** The order of functors does not depend on wakeups. */
  lemma OrderlyStep(s: Loop, step: Step)
    requires Orderly(s) && Enabled(s, step)
    ensures Orderly(Apply(s, step))
  {
    if step == Execute {
      assert s.batch[s.next..] == [s.batch[s.next]] + s.batch[s.next + 1..];
    }
  }

  lemma WakeupStays(s: Loop, step: Step)
    requires Enabled(s, step) && !step.ReadWakeup?
    ensures WakeupDue(s) || step.OtherQueue? || step.OtherQuit? ==> WakeupDue(Apply(s, step))
  {
    var t := Apply(s, step);
    match step
    case OtherWakeup(i) => assert t.counter > 0;
    case OtherQueue(i, f) => assert t.others[i] == MustWake;
    case OtherQuit(i) => assert t.others[i] == MustWake;
    case _ =>
  }

  lemma AnnouncedStep(s: Loop, step: Step)
    requires Orderly(s) && Announced(s) && Enabled(s, step)
    ensures Announced(Apply(s, step))
  {
    if !step.ReadWakeup? {
      WakeupStays(s, step);
    }
  }

  lemma StepKeeps(s: Loop, step: Step)
    requires Inv(s) && Enabled(s, step)
    ensures Inv(Apply(s, step))
  {
    OrderlyStep(s, step);
    AnnouncedStep(s, step);
  }

  lemma {:induction false} RunKeeps(s: Loop, steps: seq<Step>, t: Loop)
    requires Inv(s) && Leads(s, steps, t)
    ensures Inv(t)
    decreases |steps|
  {
    if steps != [] {
      StepKeeps(s, steps[0]);
      RunKeeps(Apply(s, steps[0]), steps[1..], t);
    }
  }

  lemma {:induction false} OrderlyRun(s: Loop, steps: seq<Step>, t: Loop)
    requires Orderly(s) && Leads(s, steps, t)
    ensures Orderly(t)
    decreases |steps|
  {
    if steps != [] {
      OrderlyStep(s, steps[0]);
      OrderlyRun(Apply(s, steps[0]), steps[1..], t);
    }
  }

  // ----- main results -----

  /** Poll may block although work is waiting and nobody is about to write the eventfd. */
  ghost predicate Stuck(s: Loop) {
    s.pc == AtPoll && (s.pending != [] || s.quit) && !WakeupDue(s)
  }

  /** No wakeup is lost, over every interleaving: a loop thread at poll with work queued or
      quit_ set finds the eventfd readable, or some thread has yet to write it; once the
      other threads are done, poll cannot block. */
  lemma NoLostWakeup(others: seq<Other>, early: seq<Functor>, counter: nat, steps: seq<Step>, s: Loop)
    requires AnnouncedBefore(others, early, counter)
    requires Leads(Entered(others, early, counter), steps, s)
    requires s.pc == AtPoll && (s.pending != [] || s.quit)
    ensures s.counter > 0 || MustWake in s.others
    ensures MustWake !in s.others ==> Enabled(s, PollReturn(true))
  {
    EnteredKeeps(others, early, counter, steps, s);
  }

  lemma EnteredKeeps(others: seq<Other>, early: seq<Functor>, counter: nat, steps: seq<Step>, s: Loop)
    requires AnnouncedBefore(others, early, counter)
    requires Leads(Entered(others, early, counter), steps, s)
    ensures Inv(s)
  {
    assert [] + [] + early == early;
    RunKeeps(Entered(others, early, counter), steps, s);
  }

  /** Over every run, the eventfd is written exactly when a functor queued by the loop thread
      would otherwise wait for the next poll, as functors are being executed, and by other
      threads; and a read takes all of it. */
  lemma WakeupsAreExact(others: seq<Other>, early: seq<Functor>, counter: nat, steps: seq<Step>, s: Loop, step: Step)
    requires Leads(Entered(others, early, counter), steps, s) && Enabled(s, step)
    ensures Apply(s, step).counter
            == if step == ReadWakeup then 0
               else s.counter + if step.OtherWakeup? || (step == SelfCheck && s.pc == Executing) then 1 else 0
  {
    assert [] + [] + early == early;
    OrderlyRun(Entered(others, early, counter), steps, s);
  }

  /** What was queued before loop() matters: no run can get stuck if and only if the loop
      is entered with an empty queue, with the eventfd already written, or with some thread
      about to write it. */
  lemma StuckIffQueuedSilentlyBefore(others: seq<Other>, early: seq<Functor>, counter: nat)
    ensures (forall s :: CanReach(Entered(others, early, counter), s) ==> !Stuck(s))
            <==> early == [] || counter > 0 || MustWake in others
  {
    var e := Entered(others, early, counter);
    if AnnouncedBefore(others, early, counter) {
      forall s | CanReach(e, s) ensures !Stuck(s) {
        var steps :| Leads(e, steps, s);
        EnteredKeeps(others, early, counter, steps, s);
      }
    } else {
      LeadsSnoc(e, [], e, Test);
      var t := Apply(e, Test);
      assert Leads(e, [] + [Test], t);
      assert CanReach(e, t) && Stuck(t);
    }
  }

  /** Every functor is executed at most once and in queueing order, in every state: what
      was executed, the rest of the batch and the queue make up everything queued. */
  lemma FifoExactlyOnce(others: seq<Other>, early: seq<Functor>, counter: nat, steps: seq<Step>, s: Loop)
    requires Leads(Entered(others, early, counter), steps, s)
    ensures s.next <= |s.batch|
    ensures s.executed + s.batch[s.next..] + s.pending == s.queued
    ensures s.pc in {AtTest, AtPoll} ==> s.executed + s.pending == s.queued
  {
    assert [] + [] + early == early;
    OrderlyRun(Entered(others, early, counter), steps, s);
    if s.pc in {AtTest, AtPoll} {
      assert s.executed + s.batch[s.next..] == s.executed;
    }
  }

  lemma {:induction false} BatchRuns(s: Loop) returns (steps: seq<Step>, t: Loop)
    requires s.pc == Executing && !s.selfCheck && s.next <= |s.batch|
    ensures Leads(s, steps, t)
    ensures t == s.(next := |s.batch|, executed := s.executed + s.batch[s.next..])
    decreases |s.batch| - s.next
  {
    if s.next == |s.batch| {
      steps, t := [], s;
      assert s.executed + [] == s.executed;
    } else {
      var u := Apply(s, Execute);
      var rest;
      rest, t := BatchRuns(u);
      steps := [Execute] + rest;
      assert steps[1..] == rest;
      assert s.batch[s.next..] == [s.batch[s.next]] + s.batch[u.next..];
    }
  }

  lemma {:induction false} LeadsTrans(s: Loop, first: seq<Step>, t: Loop, second: seq<Step>, u: Loop)
    requires Leads(s, first, t) && Leads(t, second, u)
    ensures Leads(s, first + second, u)
    decreases |first|
  {
    if first == [] {
      assert first + second == second;
    } else {
      assert (first + second)[1..] == first[1..] + second;
      LeadsTrans(Apply(s, first[0]), first[1..], t, second, u);
    }
  }

  /** A wakeup is enough: from poll with the eventfd readable, one iteration of the loop
      thread alone executes everything queued so far, in order, and is back at the test. */
  lemma WakeupDelivers(others: seq<Other>, early: seq<Functor>, counter: nat, steps: seq<Step>, s: Loop)
    returns (more: seq<Step>, t: Loop)
    requires Leads(Entered(others, early, counter), steps, s) && s.pc == AtPoll && s.counter > 0
    ensures Leads(s, more, t)
    ensures t.pc == AtTest && t.executed == s.queued && t.pending == [] && t.quit == s.quit
    ensures t.counter == 0
  {
    assert [] + [] + early == early;
    OrderlyRun(Entered(others, early, counter), steps, s);
    var s1 := Apply(s, PollReturn(true));
    var s2 := Apply(s1, ReadWakeup);
    var s3 := Apply(s2, BeginFunctors);
    var s4 := Apply(s3, Swap);
    LeadsSnoc(s, [], s, PollReturn(true));
    var front := [] + [PollReturn(true)];
    LeadsSnoc(s, front, s1, ReadWakeup);
    front := front + [ReadWakeup];
    LeadsSnoc(s, front, s2, BeginFunctors);
    front := front + [BeginFunctors];
    LeadsSnoc(s, front, s3, Swap);
    front := front + [Swap];
    var middle, s5 := BatchRuns(s4);
    LeadsTrans(s, front, s4, middle, s5);
    LeadsSnoc(s, front + middle, s5, EndFunctors);
    more, t := front + middle + [EndFunctors], Apply(s5, EndFunctors);
    assert s.executed + s.batch[s.next..] == s.executed;
    assert s4.batch[0..] == s.pending;
  }

  // ----- quitting -----

  /** quit() is called, by the loop thread or by another one. */
  predicate Quits(step: Step) {
    step.SelfQuit? || step.OtherQuit?
  }

  predicate QuitCalled(steps: seq<Step>) {
    exists i :: 0 <= i < |steps| && Quits(steps[i])
  }

  lemma QuitCalledCons(steps: seq<Step>)
    requires steps != []
    ensures QuitCalled(steps) <==> Quits(steps[0]) || QuitCalled(steps[1..])
  {
    if QuitCalled(steps[1..]) {
      var i :| 0 <= i < |steps[1..]| && Quits(steps[1..][i]);
      assert Quits(steps[i + 1]);
    }
    if QuitCalled(steps) && !Quits(steps[0]) {
      var i :| 0 <= i < |steps| && Quits(steps[i]);
      assert Quits(steps[1..][i - 1]);
    }
  }

  lemma {:induction false} QuitRun(s: Loop, steps: seq<Step>, t: Loop)
    requires Leads(s, steps, t) && (s.pc == Exited ==> s.quit)
    ensures t.quit <==> s.quit || QuitCalled(steps)
    ensures t.pc == Exited ==> t.quit
    decreases |steps|
  {
    if steps != [] {
      QuitCalledCons(steps);
      QuitRun(Apply(s, steps[0]), steps[1..], t);
    }
  }

  /** Over every run, quit_ is set if and only if quit() has been called; the loop ends only
      then; and its next test ends it if and only if that is so. */
  lemma EndsIffQuit(others: seq<Other>, early: seq<Functor>, counter: nat, steps: seq<Step>, s: Loop)
    requires Leads(Entered(others, early, counter), steps, s)
    ensures s.quit <==> exists i :: 0 <= i < |steps| && (steps[i].SelfQuit? || steps[i].OtherQuit?)
    ensures s.pc == Exited ==> s.quit
    ensures s.pc == AtTest ==>
              Enabled(s, Test) && Apply(s, Test).pc == if QuitCalled(steps) then Exited else AtPoll
  {
    QuitRun(Entered(others, early, counter), steps, s);
    assert QuitCalled(steps) <==> exists i :: 0 <= i < |steps| && Quits(steps[i]);
  }

  /** Once quit() has been called, one iteration of the loop thread alone from a poll with the
      eventfd readable executes everything queued so far and ends the loop. */
  lemma QuitEnds(others: seq<Other>, early: seq<Functor>, counter: nat, steps: seq<Step>, s: Loop)
    returns (more: seq<Step>, t: Loop)
    requires Leads(Entered(others, early, counter), steps, s) && s.pc == AtPoll && s.counter > 0
    requires QuitCalled(steps)
    ensures Leads(s, more, t) && t.pc == Exited && t.executed == s.queued
  {
    var u;
    more, u := WakeupDelivers(others, early, counter, steps, s);
    QuitRun(Entered(others, early, counter), steps, s);
    LeadsSnoc(s, more, u, Test);
    more, t := more + [Test], Apply(u, Test);
  }

  // ----- the loop thread's code -----

  /** All these functors, in order. */
  function Concat(calls: seq<seq<Functor>>): seq<Functor> {
    if calls == [] then [] else Concat(calls[..|calls| - 1]) + calls[|calls| - 1]
  }

  lemma ConcatSnoc(calls: seq<seq<Functor>>, i: nat)
    requires i < |calls|
    ensures Concat(calls[..i + 1]) == Concat(calls[..i]) + calls[i]
  {
    assert calls[..i + 1][..i] == calls[..i];
  }

  /** The object, with its code run by the loop thread; pushes of other threads can come
      between any two of these calls, as the steps above. */
  class EventLoop {
    var quit: bool
    var callingPendingFunctors: bool
    var pendingFunctors: seq<Functor>
    /** The eventfd's value. */
    var wakeupCount: nat
    ghost var queued: seq<Functor>
    ghost var executed: seq<Functor>
    ghost var others: seq<Other>

    /** The machine state while the loop thread is at `pc`, outside doPendingFunctors. */
    ghost function At(pc: Pc, batch: seq<Functor>, next: nat): Loop
      reads this
    {
      Loop(pc, quit, callingPendingFunctors, false, wakeupCount, pendingFunctors, batch, next,
           others, queued, executed)
    }

    method Wakeup()
      modifies this`wakeupCount
      ensures wakeupCount == old(wakeupCount) + 1
    {
      wakeupCount := wakeupCount + 1;
    }

    method HandleRead()
      modifies this`wakeupCount
      ensures wakeupCount == 0
    {
      wakeupCount := 0;
    }

    /** quit(): a caller on another thread also wakes the loop. */
    method Quit(inLoopThread: bool)
      modifies this`quit, this`wakeupCount
      ensures quit && wakeupCount == old(wakeupCount) + if inLoopThread then 0 else 1
    {
      quit := true;
      if !inLoopThread {
        Wakeup();
      }
    }

    /** queueInLoop. A caller on the loop thread that is in a callback makes the two steps of
        the machine; before loop() it makes no wakeup. For a caller on another thread the push
        and the wakeup are the machine's OtherQueue and OtherWakeup. */
    method QueueInLoop(cb: Functor, inLoopThread: bool, ghost pc: Pc, ghost batch: seq<Functor>, ghost next: nat)
      modifies this`pendingFunctors, this`queued, this`wakeupCount
      ensures pendingFunctors == old(pendingFunctors) + [cb] && queued == old(queued) + [cb]
      ensures wakeupCount
              == old(wakeupCount) + if !inLoopThread || callingPendingFunctors then 1 else 0
      ensures inLoopThread && (pc.Dispatching? || pc.Executing?) ==>
                Leads(old(At(pc, batch, next)), [SelfQueue(cb), SelfCheck], At(pc, batch, next))
    {
      ghost var s := At(pc, batch, next);
      pendingFunctors := pendingFunctors + [cb];
      queued := queued + [cb];
      if !inLoopThread || callingPendingFunctors {
        Wakeup();
      }
      if inLoopThread && (pc.Dispatching? || pc.Executing?) {
        LeadsSnoc(s, [], s, SelfQueue(cb));
        LeadsSnoc(s, [] + [SelfQueue(cb)], Apply(s, SelfQueue(cb)), SelfCheck);
        assert [] + [SelfQueue(cb)] + [SelfCheck] == [SelfQueue(cb), SelfCheck];
      }
    }

    /** The functors one functor queues while it runs. */
    method QueueAll(calls: seq<Functor>, ghost start: Loop, ghost before: seq<Step>,
                    ghost batch: seq<Functor>, ghost next: nat) returns (ghost steps: seq<Step>)
      requires callingPendingFunctors && Leads(start, before, At(Executing, batch, next))
      modifies this`pendingFunctors, this`queued, this`wakeupCount
      ensures Leads(start, steps, At(Executing, batch, next))
      ensures pendingFunctors == old(pendingFunctors) + calls && queued == old(queued) + calls
      ensures wakeupCount == old(wakeupCount) + |calls|
    {
      steps := before;
      var j := 0;
      while j < |calls|
        invariant 0 <= j <= |calls| && callingPendingFunctors
        invariant Leads(start, steps, At(Executing, batch, next))
        invariant pendingFunctors == old(pendingFunctors) + calls[..j] && queued == old(queued) + calls[..j]
        invariant wakeupCount == old(wakeupCount) + j
      {
        ghost var s := At(Executing, batch, next);
        QueueInLoop(calls[j], true, Executing, batch, next);
        LeadsTrans(start, steps, s, [SelfQueue(calls[j]), SelfCheck], At(Executing, batch, next));
        steps := steps + [SelfQueue(calls[j]), SelfCheck];
        assert calls[..j + 1] == calls[..j] + [calls[j]];
        j := j + 1;
      }
      assert calls[..j] == calls;
    }

    /** doPendingFunctors up to its loop. */
    method SwapFunctors() returns (functors: seq<Functor>, ghost steps: seq<Step>)
      requires !callingPendingFunctors
      modifies this`callingPendingFunctors, this`pendingFunctors
      ensures functors == old(pendingFunctors) && pendingFunctors == [] && callingPendingFunctors
      ensures Leads(old(At(Dispatching(false), [], 0)), steps, At(Executing, functors, 0))
    {
      ghost var s := At(Dispatching(false), [], 0);
      callingPendingFunctors := true;
      LeadsSnoc(s, [], s, BeginFunctors);
      steps := [] + [BeginFunctors];
      functors := pendingFunctors;
      LeadsSnoc(s, steps, At(Swapping, [], 0), Swap);
      steps := steps + [Swap];
      pendingFunctors := [];
    }

    /** The i-th functor of the batch is called. */
    ghost method Call(functors: seq<Functor>, i: nat, start: Loop, before: seq<Step>)
      requires i < |functors| && Leads(start, before, At(Executing, functors, i))
      modifies this`executed
      ensures executed == old(executed) + [functors[i]]
      ensures Leads(start, before + [Execute], At(Executing, functors, i + 1))
    {
      LeadsSnoc(start, before, At(Executing, functors, i), Execute);
      executed := executed + [functors[i]];
    }

    /** One functor and what it queues. */
    method FunctorTurn(functors: seq<Functor>, i: nat, calls: seq<Functor>, ghost start: Loop, ghost before: seq<Step>)
      returns (ghost steps: seq<Step>)
      requires callingPendingFunctors && i < |functors| && Leads(start, before, At(Executing, functors, i))
      modifies this`executed, this`pendingFunctors, this`queued, this`wakeupCount
      ensures Leads(start, steps, At(Executing, functors, i + 1))
      ensures executed == old(executed) + [functors[i]]
      ensures pendingFunctors == old(pendingFunctors) + calls && queued == old(queued) + calls
      ensures wakeupCount == old(wakeupCount) + |calls|
    {
      Call(functors, i, start, before);
      steps := QueueAll(calls, start, before + [Execute], functors, i + 1);
    }

    /** The loop of doPendingFunctors. */
    method RunBatch(functors: seq<Functor>, calls: seq<seq<Functor>>, ghost start: Loop, ghost before: seq<Step>)
      returns (ghost steps: seq<Step>)
      requires callingPendingFunctors && |calls| == |functors| && pendingFunctors == []
      requires Leads(start, before, At(Executing, functors, 0))
      modifies this`executed, this`pendingFunctors, this`queued, this`wakeupCount
      ensures Leads(start, steps, At(Executing, functors, |functors|))
      ensures executed == old(executed) + functors
      ensures pendingFunctors == Concat(calls) && queued == old(queued) + Concat(calls)
      ensures wakeupCount == old(wakeupCount) + |Concat(calls)|
    {
      steps := before;
      var i := 0;
      while i < |functors|
        invariant 0 <= i <= |functors| && callingPendingFunctors
        invariant Leads(start, steps, At(Executing, functors, i))
        invariant executed == old(executed) + functors[..i]
        invariant pendingFunctors == Concat(calls[..i]) && queued == old(queued) + Concat(calls[..i])
        invariant wakeupCount == old(wakeupCount) + |Concat(calls[..i])|
      {
        ConcatSnoc(calls, i);
        steps := FunctorTurn(functors, i, calls[i], start, steps);
        assert functors[..i + 1] == functors[..i] + [functors[i]];
        assert old(queued) + Concat(calls[..i]) + calls[i] == old(queued) + Concat(calls[..i + 1]);
        i := i + 1;
      }
      assert functors[..i] == functors && calls[..i] == calls;
    }

    /** Runs the swapped-out batch; `calls[i]` are the functors the i-th one queues while
        it runs. The code is a run of the machine, executes the batch in order, and leaves
        exactly what was queued meanwhile for the next iteration, each announced on the
        eventfd. */
    method DoPendingFunctors(calls: seq<seq<Functor>>) returns (ghost steps: seq<Step>)
      requires !callingPendingFunctors && |calls| == |pendingFunctors|
      modifies this
      ensures Leads(old(At(Dispatching(false), [], 0)), steps, At(AtTest, [], 0))
      ensures executed == old(executed) + old(pendingFunctors)
      ensures pendingFunctors == Concat(calls) && queued == old(queued) + Concat(calls)
      ensures wakeupCount == old(wakeupCount) + |Concat(calls)|
      ensures !callingPendingFunctors
    {
      ghost var s := At(Dispatching(false), [], 0);
      var functors;
      functors, steps := SwapFunctors();
      steps := RunBatch(functors, calls, s, steps);
      LeadsSnoc(s, steps, At(Executing, functors, |functors|), EndFunctors);
      steps := steps + [EndFunctors];
      callingPendingFunctors := false;
    }
  }
}
