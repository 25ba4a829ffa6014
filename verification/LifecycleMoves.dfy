/** What each step of the loops does to a connection, stated on what can be observed: its
    milestones, its interest, its state and its life (src/net/TcpConnection.cpp,
    src/net/Channel.cpp, src/net/TcpServer.cpp). Together with Lifecycle, which says where a
    connection may be, this says when it gets there. */
module LifecycleMoves {
  import opened Common
  import opened Lifecycle

  /** The frame of loop l is handling an event of connection c. */
  predicate Handles(s: Sys, l: LoopId, c: ConnId) {
    l < |s.loops| && s.loops[l].frame.Frame? && s.loops[l].frame.c == c
  }

  /** The mask closes at once: a hang-up with nothing to read. */
  predicate HangsUp(m: Mask) {
    m.hup && !m.pollIn
  }

  predicate Reads(m: Mask) {
    m.pollIn || m.pri
  }

  /** The functor loop l runs next. */
  predicate RunsNext(s: Sys, l: LoopId, f: Functor) {
    l < |s.loops| && s.loops[l].next < |s.loops[l].batch| && s.loops[l].batch[s.loops[l].next] == f
  }

  /** The milestone a step is due to bring to connection c, if any. */
  function Due(s: Sys, step: Step, c: ConnId): seq<Milestone> {
    match step
    case RunFunctor(l) =>
      if RunsNext(s, l, Established(c)) then [Up]
      else if RunsNext(s, l, RemoveInLoop(c)) then [Erased]
      else if RunsNext(s, l, Destroyed(c)) then [Removed]
      else []
    case OnHangup(l) => if Handles(s, l, c) && HangsUp(s.loops[l].frame.mask) then [Down] else []
    case OnReadable(l, eof) => if Handles(s, l, c) && Reads(s.loops[l].frame.mask) && eof then [Down] else []
    case CloseCallback(l) => if Handles(s, l, c) && l == BASE then [Erased] else []
    case _ => []
  }

  lemma HangupDue(s: Sys, l: LoopId, c: ConnId)
    requires Inv(s) && Enabled(s, OnHangup(l)) && c < |s.conns|
    ensures Apply(s, OnHangup(l)).conns[c].history == s.conns[c].history + Due(s, OnHangup(l), c)
  {
    assert s.conns[c].history + [] == s.conns[c].history;
  }

  lemma ReadableDue(s: Sys, l: LoopId, eof: bool, c: ConnId)
    requires Inv(s) && Enabled(s, OnReadable(l, eof)) && c < |s.conns|
    ensures Apply(s, OnReadable(l, eof)).conns[c].history
            == s.conns[c].history + Due(s, OnReadable(l, eof), c)
  {
    assert s.conns[c].history + [] == s.conns[c].history;
  }

  lemma CloseCallbackDue(s: Sys, l: LoopId, c: ConnId)
    requires Inv(s) && Enabled(s, CloseCallback(l)) && c < |s.conns|
    ensures Apply(s, CloseCallback(l)).conns[c].history
            == s.conns[c].history + Due(s, CloseCallback(l), c)
  {
    assert s.conns[c].history + [] == s.conns[c].history;
  }

  lemma FunctorDue(s: Sys, l: LoopId, c: ConnId)
    requires Inv(s) && Enabled(s, RunFunctor(l)) && c < |s.conns|
    ensures Apply(s, RunFunctor(l)).conns[c].history == s.conns[c].history + Due(s, RunFunctor(l), c)
  {
    NextFunctorFits(s, l);
    assert ConnOk(s, c);
    assert s.conns[c].history + [] == s.conns[c].history;
  }

  lemma StepDue(s: Sys, step: Step, c: ConnId)
    requires Inv(s) && Enabled(s, step) && c < |s.conns|
    ensures |Apply(s, step).conns| == |s.conns| + if step.Accept? then 1 else 0
    ensures Apply(s, step).conns[c].history == s.conns[c].history + Due(s, step, c)
  {
    match step
    case OnHangup(l) => HangupDue(s, l, c);
    case OnReadable(l, eof) => ReadableDue(s, l, eof, c);
    case CloseCallback(l) => CloseCallbackDue(s, l, c);
    case RunFunctor(l) => FunctorDue(s, l, c);
    case _ => assert s.conns[c].history + [] == s.conns[c].history;
  }

  // ----- main results -----

  /** In every reachable state, each step brings each connection exactly the milestone due: UP
      when connectEstablished runs, DOWN for a hang-up with nothing to read and for an end of
      file, erasure when removeConnectionInLoop runs, removal when connectDestroyed does; and
      no other step moves a connection. */
  lemma MilestonesAreDue(n: nat, s: Sys, step: Step, c: ConnId)
    requires Reachable(n, s) && Enabled(s, step) && c < |s.conns|
    ensures |Apply(s, step).conns| == |s.conns| + if step.Accept? then 1 else 0
    ensures Apply(s, step).conns[c].history == s.conns[c].history + Due(s, step, c)
  {
    ReachableInv(n, s);
    StepDue(s, step, c);
  }

  /** End of file closes: a read event on a connection that is up takes it DOWN, with no state
      but kDisconnected and no interest left, if and only if the mask has readable or urgent
      data and read finds the end; otherwise the connection is as it was. */
  lemma EofCloses(n: nat, s: Sys, l: LoopId, eof: bool)
    requires Reachable(n, s) && Enabled(s, OnReadable(l, eof))
    ensures var c, mask := s.loops[l].frame.c, s.loops[l].frame.mask;
            var v, w := s.conns[c], Apply(s, OnReadable(l, eof)).conns[c];
            && ((mask.pollIn || mask.pri) ==> v.history == [Up])
            && (if (mask.pollIn || mask.pri) && eof
                then w.history == [Up, Down] && w.state == Disconnected && !w.read && !w.write
                else w == v)
  {
    ReachableInv(n, s);
    var c := s.loops[l].frame.c;
    assert LoopOk(s, l) && ConnOk(s, c);
    assert SCRIPT[..1] == [Up];
  }

  /** The same for a hang-up. */
  lemma HangupCloses(n: nat, s: Sys, l: LoopId)
    requires Reachable(n, s) && Enabled(s, OnHangup(l))
    ensures var c, mask := s.loops[l].frame.c, s.loops[l].frame.mask;
            var v, w := s.conns[c], Apply(s, OnHangup(l)).conns[c];
            && v.history == [Up]
            && (if mask.hup && !mask.pollIn
                then w.history == [Up, Down] && w.state == Disconnected && !w.read && !w.write
                else w == v)
  {
    ReachableInv(n, s);
    var c := s.loops[l].frame.c;
    assert LoopOk(s, l) && ConnOk(s, c);
    assert SCRIPT[..1] == [Up];
  }

  /** From the report of the poller to the end of the read callback: the first active channel's
      connection goes DOWN if and only if its mask is a hang-up with nothing to read, or has
      readable or urgent data and read finds the end. */
  lemma EventCloses(n: nat, s: Sys, l: LoopId, mask: Mask, eof: bool)
    requires Reachable(n, s) && Enabled(s, BeginEvent(l, mask))
    ensures var c := s.loops[l].active[0];
            var s1 := Apply(s, BeginEvent(l, mask));
            && Enabled(s1, OnHangup(l))
            && var s2 := Apply(s1, OnHangup(l));
               if mask.hup && !mask.pollIn then s2.conns[c].history == [Up, Down]
               else
                 && Enabled(s2, OnReadable(l, eof))
                 && Apply(s2, OnReadable(l, eof)).conns[c].history
                    == if (mask.pollIn || mask.pri) && eof then [Up, Down] else [Up]
  {
    var c := s.loops[l].active[0];
    DispatchIsSafe(n, s, l, c);
    var s1 := Apply(s, BeginEvent(l, mask));
    Goes(n, s, BeginEvent(l, mask));
    HangupCloses(n, s1, l);
    var s2 := Apply(s1, OnHangup(l));
    Goes(n, s1, OnHangup(l));
    if !(mask.hup && !mask.pollIn) {
      EofCloses(n, s2, l, eof);
    }
  }

  lemma Goes(n: nat, s: Sys, step: Step)
    requires Reachable(n, s) && Enabled(s, step)
    ensures Reachable(n, Apply(s, step))
  {
    ReachableStep(n, s, step);
  }

  /** kDisconnecting is entered by shutdown() of a connected connection, and by nothing else. */
  lemma DisconnectingIffShutdown(n: nat, s: Sys, step: Step, c: ConnId)
    requires Reachable(n, s) && Enabled(s, step) && c < |s.conns| && c < |Apply(s, step).conns|
    requires s.conns[c].state != Disconnecting
    ensures Apply(s, step).conns[c].state == Disconnecting <==>
            step == Shutdown(c) && s.conns[c].state == Connected
  {
    ReachableInv(n, s);
    if step.RunFunctor? {
      NextFunctorFits(s, step.l);
    }
  }

  /** Write interest comes from a send that blocks, and goes when the pending bytes have
      drained or the connection goes DOWN; nothing else touches it. */
  lemma WriteInterestMoves(n: nat, s: Sys, step: Step, c: ConnId)
    requires Reachable(n, s) && Enabled(s, step) && c < |s.conns| && c < |Apply(s, step).conns|
    ensures InterestMoved(s, step, c, Apply(s, step).conns[c].write)
  {
    ReachableInv(n, s);
    if step.RunFunctor? {
      FunctorInterest(s, step.l, c);
    } else {
      OtherInterest(s, step, c);
    }
  }

  /** `now` is right as the write interest of c after the step. */
  predicate InterestMoved(s: Sys, step: Step, c: ConnId, now: bool)
    requires c < |s.conns|
  {
    if !s.conns[c].write then
      now <==> step.SendInLoop? && step.c == c && step.blocked && s.conns[c].state != Disconnected
    else
      !now <==> Due(s, step, c) == [Down]
                || (step.OnWritable? && Handles(s, step.l, c)
                    && s.loops[step.l].frame.mask.out && step.drained)
  }

  lemma FunctorInterest(s: Sys, l: LoopId, c: ConnId)
    requires Inv(s) && Enabled(s, RunFunctor(l)) && c < |s.conns|
    ensures InterestMoved(s, RunFunctor(l), c, Apply(s, RunFunctor(l)).conns[c].write)
  {
    NextFunctorFits(s, l);
    assert ConnOk(s, c);
  }

  lemma OtherInterest(s: Sys, step: Step, c: ConnId)
    requires Enabled(s, step) && !step.RunFunctor? && c < |s.conns| && c < |Apply(s, step).conns|
    ensures InterestMoved(s, step, c, Apply(s, step).conns[c].write)
  {
  }

  /** Only its destruction ends a connection's life, and nothing gives it back. */
  lemma LifeEndsByDestruction(s: Sys, step: Step, c: ConnId)
    requires Enabled(s, step) && c < |s.conns| && c < |Apply(s, step).conns|
    ensures Apply(s, step).conns[c].alive <==> s.conns[c].alive && step != Destruct(c)
  {
  }

  /** An accepted connection is in the map, on its loop with its descriptor, UP at once on the
      base loop and otherwise waiting for connectEstablished. */
  lemma AcceptMakes(n: nat, s: Sys, io: LoopId, fd: int)
    requires Reachable(n, s) && Enabled(s, Accept(io, fd))
    ensures var t, c := Apply(s, Accept(io, fd)), |s.conns|;
            && t.registry == s.registry + {c} && |t.conns| == c + 1
            && t.conns[c].io == io && t.conns[c].fd == fd && t.conns[c].alive
            && t.conns[c].history == if io == BASE then [Up] else []
  {
  }

  // ----- events and functors keep their order -----

  /** What poll reports is dispatched: the report becomes the active list, each event begins
      with the front of it and its own mask (the connection is alive, see DispatchIsSafe), and
      nothing else takes from it. */
  lemma EventsInOrder(s: Sys, step: Step, l: LoopId)
    requires Enabled(s, step) && l < |s.loops| && l < |Apply(s, step).loops|
    ensures var v, w := s.loops[l], Apply(s, step).loops[l];
            if step.PollReturn? && step.l == l then w.active == step.ready
            else if step.BeginEvent? && step.l == l then
              && v.active != [] && w.active == v.active[1..]
              && (s.conns[v.active[0]].alive ==> w.frame == Frame(v.active[0], step.mask, 0, false))
            else w.active == v.active
  {
  }

  /** A loop thread goes round: poll, dispatch, functors, poll. */
  lemma LoopsGoRound(s: Sys, step: Step, l: LoopId)
    requires Enabled(s, step) && l < |s.loops| && l < |Apply(s, step).loops|
    ensures Apply(s, step).loops[l].pc
            == (if step == SwapFunctors(l) then Running
                else if step == EndFunctors(l) then Polling
                else if step.PollReturn? && step.l == l then Dispatching
                else s.loops[l].pc)
  {
  }

  /** Within an event: the close callback, the read callback, the write callback, the end. */
  lemma EventsGoOn(s: Sys, step: Step, l: LoopId)
    requires Enabled(s, step) && l < |s.loops| && l < |Apply(s, step).loops| && s.loops[l].frame.Frame?
    ensures var f, g := s.loops[l].frame, Apply(s, step).loops[l].frame;
            if step == EndEvent(l) then g.NoFrame?
            else
              && g.Frame? && g.c == f.c && g.mask == f.mask
              && g.stage == f.stage
                 + if (step.OnHangup? || step.OnReadable? || step.OnWritable?) && step.l == l then 1 else 0
  {
  }

  /** What a step puts at the end of loop l's functor queue. */
  ghost function Pushed(s: Sys, step: Step, l: LoopId): seq<Functor>
    requires Enabled(s, step)
  {
    match step
    case Accept(io, _) => if io == l && io != BASE then [Established(|s.conns|)] else []
    case Post(k) => if k == l then [Task] else []
    case CloseCallback(k) =>
      var c := s.loops[k].frame.c;
      if k == BASE && s.conns[c].io == l then [Destroyed(c)]
      else if k != BASE && l == BASE then [RemoveInLoop(c)]
      else []
    case RunFunctor(k) =>
      var f := s.loops[k].batch[s.loops[k].next];
      if f.RemoveInLoop? && s.conns[f.c].io == l then [Destroyed(f.c)] else []
    case OnWritable(k, drained, notify) =>
      var f := s.loops[k].frame;
      if k == l && f.mask.out && s.conns[f.c].write && drained && notify then [Callback(f.c)] else []
    case SendInLoop(c, _, notify) =>
      if s.conns[c].io == l && s.conns[c].state != Disconnected && notify then [Callback(c)] else []
    case _ => []
  }

  lemma PushedTodo(s: Sys, l: LoopId, f: Functor, k: LoopId)
    requires l < |s.loops| && k < |s.loops|
    ensures Todo(Push(s, l, f).loops[k]) == Todo(s.loops[k]) + if k == l then [f] else []
  {
    if k == l {
      CountPush(s.loops[l], f, f);
    } else {
      assert Todo(s.loops[k]) + [] == Todo(s.loops[k]);
    }
  }

  /** The front functor is taken. */
  lemma TakenTodo(s: Sys, k: LoopId, l: LoopId)
    requires k < |s.loops| && l < |s.loops| && s.loops[k].next < |s.loops[k].batch|
    ensures k == l ==> Todo(s.loops[l]) != []
    ensures Todo(Taken(s, k).loops[l]) == if k == l then Todo(s.loops[l])[1..] else Todo(s.loops[l])
  {
    CountNext(s.loops[k], Task);
  }

  /** And run. */
  lemma RunOneTodo(s: Sys, k: LoopId, f: Functor, l: LoopId)
    requires k < |s.loops| && l < |s.loops|
    requires f.Task? || (f.c < |s.conns| && s.conns[f.c].io < |s.loops|)
    ensures |RunOne(s, k, f).loops| == |s.loops|
    ensures Todo(RunOne(s, k, f).loops[l])
            == Todo(s.loops[l]) + if f.RemoveInLoop? && s.conns[f.c].io == l then [Destroyed(f.c)] else []
  {
    if f.RemoveInLoop? {
      var io := s.conns[f.c].io;
      PushedTodo(s, io, Destroyed(f.c), l);
      assert RunOne(s, k, f).loops == Push(s, io, Destroyed(f.c)).loops;
    } else {
      assert RunOne(s, k, f).loops == s.loops;
      assert Todo(s.loops[l]) + [] == Todo(s.loops[l]);
    }
  }

  lemma RunFunctorTodo(s: Sys, k: LoopId, l: LoopId)
    requires Enabled(s, RunFunctor(k)) && l < |s.loops|
    ensures |Apply(s, RunFunctor(k)).loops| == |s.loops|
    ensures k == l ==> Todo(s.loops[l]) != []
    ensures Todo(Apply(s, RunFunctor(k)).loops[l])
            == (if k == l then Todo(s.loops[l])[1..] else Todo(s.loops[l])) + Pushed(s, RunFunctor(k), l)
  {
    TakenTodo(s, k, l);
    RunOneTodo(Taken(s, k), k, s.loops[k].batch[s.loops[k].next], l);
  }

  lemma CloseCallbackTodo(s: Sys, k: LoopId, l: LoopId)
    requires Inv(s) && Enabled(s, CloseCallback(k)) && l < |s.loops|
    ensures |Apply(s, CloseCallback(k)).loops| == |s.loops|
    ensures Todo(Apply(s, CloseCallback(k)).loops[l]) == Todo(s.loops[l]) + Pushed(s, CloseCallback(k), l)
  {
    var c := s.loops[k].frame.c;
    var s1 := Unflagged(s, k);
    assert Todo(s1.loops[l]) == Todo(s.loops[l]);
    var io := if k == BASE then s.conns[c].io else BASE;
    var f := if k == BASE then Destroyed(c) else RemoveInLoop(c);
    PushedTodo(s1, io, f, l);
    assert Apply(s, CloseCallback(k)).loops == Push(s1, io, f).loops;
  }

  lemma WritableTodo(s: Sys, k: LoopId, drained: bool, notify: bool, l: LoopId)
    requires Inv(s) && Enabled(s, OnWritable(k, drained, notify)) && l < |s.loops|
    ensures |Apply(s, OnWritable(k, drained, notify)).loops| == |s.loops|
    ensures Todo(Apply(s, OnWritable(k, drained, notify)).loops[l])
            == Todo(s.loops[l]) + Pushed(s, OnWritable(k, drained, notify), l)
  {
    var c := s.loops[k].frame.c;
    var s1 := Advance(s, k);
    assert Todo(s1.loops[l]) == Todo(s.loops[l]);
    PushedTodo(s1, k, Callback(c), l);
    assert Todo(s.loops[l]) + [] == Todo(s.loops[l]);
  }

  lemma SendTodo(s: Sys, c: ConnId, blocked: bool, notify: bool, l: LoopId)
    requires Enabled(s, SendInLoop(c, blocked, notify)) && l < |s.loops|
    ensures |Apply(s, SendInLoop(c, blocked, notify)).loops| == |s.loops|
    ensures Todo(Apply(s, SendInLoop(c, blocked, notify)).loops[l])
            == Todo(s.loops[l]) + Pushed(s, SendInLoop(c, blocked, notify), l)
  {
    PushedTodo(s, s.conns[c].io, Callback(c), l);
    assert Todo(s.loops[l]) + [] == Todo(s.loops[l]);
  }

  /** Steps that queue nothing. */
  lemma QuietTodo(s: Sys, step: Step, l: LoopId)
    requires Inv(s) && Enabled(s, step) && l < |s.loops|
    requires step.PollReturn? || step.BeginEvent? || step.OnHangup? || step.OnReadable? || step.EndEvent?
             || step.Shutdown? || step.SwapFunctors? || step.EndFunctors? || step.Destruct?
    ensures |Apply(s, step).loops| == |s.loops|
    ensures Todo(Apply(s, step).loops[l]) == Todo(s.loops[l])
  {
    assert LoopOk(s, l);
  }

  /** Functors are run in the order queued: a loop's work is what it was, without its front if
      that is what runs, and with what the step puts behind it. */
  lemma FunctorsInOrder(n: nat, s: Sys, step: Step, l: LoopId)
    requires Reachable(n, s) && Enabled(s, step) && l < |s.loops|
    ensures l < |Apply(s, step).loops|
    ensures step == RunFunctor(l) ==> Todo(s.loops[l]) != []
    ensures Todo(Apply(s, step).loops[l])
            == (if step == RunFunctor(l) then Todo(s.loops[l])[1..] else Todo(s.loops[l])) + Pushed(s, step, l)
  {
    ReachableInv(n, s);
    match step
    case RunFunctor(k) => RunFunctorTodo(s, k, l);
    case CloseCallback(k) => CloseCallbackTodo(s, k, l);
    case OnWritable(k, drained, notify) => WritableTodo(s, k, drained, notify, l);
    case SendInLoop(c, blocked, notify) => SendTodo(s, c, blocked, notify, l);
    case Accept(io, fd) =>
      PushedTodo(Accepted(s, io, fd), io, Established(|s.conns|), l);
      assert Todo(s.loops[l]) + [] == Todo(s.loops[l]);
    case Post(k) => PushedTodo(s, k, Task, l);
    case _ =>
      QuietTodo(s, step, l);
      assert Todo(s.loops[l]) + [] == Todo(s.loops[l]);
  }
}
