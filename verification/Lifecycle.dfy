/** The life of a connection across event loops: TcpServer, TcpConnection, Channel and
    EventLoop together (src/net/TcpServer.cpp, TcpConnection.cpp, Channel.cpp,
    EventLoop.cpp). Loop 0 is the base loop with the acceptor and `connections_`; every
    connection belongs to one I/O loop, possibly the base loop. A run is any interleaving
    of the steps of the loop threads, of other threads and of the kernel. */
module Lifecycle {
  import opened Common

  type LoopId = nat
  type ConnId = nat
  const BASE: LoopId := 0

  /** What is observable of a connection, in order of occurrence. */
  datatype Milestone = Up | Down | Erased | Removed
  const SCRIPT: seq<Milestone> := [Up, Down, Erased, Removed]

  datatype Conn = Conn(io: LoopId, fd: int, state: ConnState, read: bool, write: bool,
                       index: Index, alive: bool, history: seq<Milestone>)

  /** Functors in a loop's queue. All but `Task` hold a strong reference. */
  datatype Functor =
    | Established(c: ConnId)
    | RemoveInLoop(c: ConnId)
    | Destroyed(c: ConnId)
    | Callback(c: ConnId)
    | Task

  datatype Mask = Mask(hup: bool, pollIn: bool, pri: bool, out: bool)

  /** The stack of a loop thread inside Channel::handleEvent: the guard's connection, the
      reported mask, the branches already passed, and whether handleClose has called the
      DOWN callback but not closeCallback_ yet. */
  datatype Frame = NoFrame | Frame(c: ConnId, mask: Mask, stage: nat, closing: bool)

  datatype Pc = Polling | Dispatching | Running

  /** `batch` is the vector swapped out by doPendingFunctors, run up to `next`. */
  datatype Loop = Loop(pc: Pc, active: seq<ConnId>, frame: Frame,
                       pending: seq<Functor>, batch: seq<Functor>, next: nat)

  /** `registry` is connections_; connection names are unique (nextConnId_). */
  datatype Sys = Sys(loops: seq<Loop>, conns: seq<Conn>, registry: set<ConnId>)

  function Idle(): Loop {
    Loop(Polling, [], NoFrame, [], [], 0)
  }

  function Init(loopCount: nat): Sys {
    Sys(seq(loopCount, _ => Idle()), [], {})
  }

  // ----- the steps -----

  datatype Step =
    | Accept(io: LoopId, fd: int)
    | PollReturn(l: LoopId, ready: seq<ConnId>)
    | BeginEvent(l: LoopId, mask: Mask)
    | OnHangup(l: LoopId)
    | OnReadable(l: LoopId, eof: bool)
    | OnWritable(l: LoopId, drained: bool, notify: bool)
    | CloseCallback(l: LoopId)
    | EndEvent(l: LoopId)
    | SendInLoop(c: ConnId, blocked: bool, notify: bool)
    | Shutdown(c: ConnId)
    | Post(l: LoopId)
    | SwapFunctors(l: LoopId)
    | RunFunctor(l: LoopId)
    | EndFunctors(l: LoopId)
    | Destruct(c: ConnId)

  /** EPollPoller::updateChannel on the channel's index. */
  function Updated(c: Conn): Conn {
    c.(index := NextIndex(c.index, !c.read && !c.write))
  }

  function Establish(c: Conn): Conn {
    Updated(c.(state := Connected, read := true)).(history := c.history + [Up])
  }

  /** handleClose up to and including the DOWN callback. */
  function Close(c: Conn): Conn {
    Updated(c.(state := Disconnected, read := false, write := false))
      .(history := c.history + [Down])
  }

  /** connectDestroyed: the kConnected branch, then Channel::remove. */
  function Destroy(c: Conn): Conn {
    var d := if c.state == Connected then Close(c) else c;
    d.(index := New, history := d.history + [Removed])
  }

  function SetConn(s: Sys, c: ConnId, v: Conn): Sys
    requires c < |s.conns|
  {
    s.(conns := s.conns[c := v])
  }

  function SetLoop(s: Sys, l: LoopId, v: Loop): Sys
    requires l < |s.loops|
  {
    s.(loops := s.loops[l := v])
  }

  function Push(s: Sys, l: LoopId, f: Functor): Sys
    requires l < |s.loops|
  {
    SetLoop(s, l, s.loops[l].(pending := s.loops[l].pending + [f]))
  }

  /** removeConnectionInLoop, on the base loop. */
  function EraseConn(s: Sys, c: ConnId): Sys
    requires c < |s.conns| && s.conns[c].io < |s.loops|
  {
    var s := s.(registry := s.registry - {c});
    var s := SetConn(s, c, s.conns[c].(history := s.conns[c].history + [Erased]));
    Push(s, s.conns[c].io, Destroyed(c))
  }

  predicate Holds(f: Functor, c: ConnId) {
    !f.Task? && f.c == c
  }

  /** A strong owner: the map entry, a functor not yet destroyed, or a stack guard. */
  ghost predicate Owned(s: Sys, c: ConnId) {
    || c in s.registry
    || (exists l, i :: 0 <= l < |s.loops| && 0 <= i < |s.loops[l].pending|
                       && Holds(s.loops[l].pending[i], c))
    || (exists l, i :: 0 <= l < |s.loops| && 0 <= i < |s.loops[l].batch|
                       && Holds(s.loops[l].batch[i], c))
    || (exists l :: 0 <= l < |s.loops| && s.loops[l].frame.Frame? && s.loops[l].frame.c == c)
  }

  predicate FrameAt(s: Sys, l: LoopId, stage: nat) {
    l < |s.loops| && s.loops[l].frame.Frame? && s.loops[l].frame.stage == stage
    && !s.loops[l].frame.closing && s.loops[l].frame.c < |s.conns|
  }

  predicate Distinct(q: seq<ConnId>) {
    forall i, j :: 0 <= i < j < |q| ==> q[i] != q[j]
  }

  /** The kernel reports registered channels only, each once; a hang-up with urgent data
      always comes with readable data. The kernel hands out descriptors that are not open. */
  ghost predicate Enabled(s: Sys, step: Step) {
    match step
    case Accept(io, fd) =>
      && |s.loops| > 0 && io < |s.loops|
      && s.loops[BASE].pc == Dispatching && s.loops[BASE].frame.NoFrame?
      && (forall c :: 0 <= c < |s.conns| && s.conns[c].alive ==> s.conns[c].fd != fd)
    case PollReturn(l, ready) =>
      && l < |s.loops| && s.loops[l].pc == Polling && Distinct(ready)
      && (forall i :: 0 <= i < |ready| ==>
            ready[i] < |s.conns| && s.conns[ready[i]].io == l && s.conns[ready[i]].index == Added)
    case BeginEvent(l, mask) =>
      && l < |s.loops| && s.loops[l].pc == Dispatching && s.loops[l].frame.NoFrame?
      && s.loops[l].active != [] && s.loops[l].active[0] < |s.conns|
      && (mask.hup && mask.pri ==> mask.pollIn)
    case OnHangup(l) => FrameAt(s, l, 0)
    case OnReadable(l, _) => FrameAt(s, l, 1)
    case OnWritable(l, _, _) => FrameAt(s, l, 2)
    case CloseCallback(l) =>
      && l < |s.loops| && s.loops[l].frame.Frame? && s.loops[l].frame.closing
      && s.loops[l].frame.c < |s.conns| && s.conns[s.loops[l].frame.c].io < |s.loops|
    case EndEvent(l) => FrameAt(s, l, 3)
    case SendInLoop(c, _, _) =>
      && c < |s.conns| && s.conns[c].alive && s.conns[c].state != Connecting
      && s.conns[c].io < |s.loops| && s.loops[s.conns[c].io].pc != Polling
    case Shutdown(c) => c < |s.conns| && s.conns[c].alive
    case Post(l) => l < |s.loops|
    case SwapFunctors(l) =>
      && l < |s.loops| && s.loops[l].pc == Dispatching
      && s.loops[l].frame.NoFrame? && s.loops[l].active == []
    case RunFunctor(l) =>
      && l < |s.loops| && s.loops[l].pc == Running && s.loops[l].next < |s.loops[l].batch|
      && var f := s.loops[l].batch[s.loops[l].next];
         (f.Task? || (f.c < |s.conns| && s.conns[f.c].io < |s.loops|))
    case EndFunctors(l) =>
      l < |s.loops| && s.loops[l].pc == Running && s.loops[l].next == |s.loops[l].batch|
    case Destruct(c) => c < |s.conns| && s.conns[c].alive && !Owned(s, c)
  }

  function RunOne(s: Sys, l: LoopId, f: Functor): Sys
    requires l < |s.loops|
    requires f.Task? || (f.c < |s.conns| && s.conns[f.c].io < |s.loops|)
  {
    match f
    case Established(c) => SetConn(s, c, Establish(s.conns[c]))
    case RemoveInLoop(c) => EraseConn(s, c)
    case Destroyed(c) => SetConn(s, c, Destroy(s.conns[c]))
    case _ => s
  }

  function BeginClose(s: Sys, l: LoopId): Sys
    requires l < |s.loops| && s.loops[l].frame.Frame? && s.loops[l].frame.c < |s.conns|
  {
    var f := s.loops[l].frame;
    SetConn(SetLoop(s, l, s.loops[l].(frame := f.(closing := true))), f.c, Close(s.conns[f.c]))
  }

  function Advance(s: Sys, l: LoopId): Sys
    requires l < |s.loops| && s.loops[l].frame.Frame?
  {
    var f := s.loops[l].frame;
    SetLoop(s, l, s.loops[l].(frame := f.(stage := f.stage + 1)))
  }

  /** newConnection before connectEstablished: the map holds the new connection. */
  function Accepted(s: Sys, io: LoopId, fd: int): Sys {
    s.(conns := s.conns + [Conn(io, fd, Connecting, false, false, New, true, [])],
    registry := s.registry + {|s.conns|})
  }

  /** The state after the loop has taken its next functor f, before running it. */
  function Taken(s: Sys, l: LoopId): Sys
    requires l < |s.loops|
  {
    SetLoop(s, l, s.loops[l].(next := s.loops[l].next + 1))
  }

  ghost function Apply(s: Sys, step: Step): Sys
    requires Enabled(s, step)
  {
    match step
    case Accept(io, fd) =>
      var c := |s.conns|;
      var s := Accepted(s, io, fd);
      if io == BASE then SetConn(s, c, Establish(s.conns[c])) else Push(s, io, Established(c))
    case PollReturn(l, ready) =>
      SetLoop(s, l, s.loops[l].(pc := Dispatching, active := ready))
    case BeginEvent(l, mask) =>
      var c := s.loops[l].active[0];
      var frame := if s.conns[c].alive then Frame(c, mask, 0, false) else NoFrame;
      SetLoop(s, l, s.loops[l].(frame := frame, active := s.loops[l].active[1..]))
    case OnHangup(l) =>
      var f := s.loops[l].frame;
      var s := Advance(s, l);
      if f.mask.hup && !f.mask.pollIn then BeginClose(s, l) else s
    case OnReadable(l, eof) =>
      var f := s.loops[l].frame;
      var s := Advance(s, l);
      if (f.mask.pollIn || f.mask.pri) && eof then BeginClose(s, l) else s
    case OnWritable(l, drained, notify) =>
      var f := s.loops[l].frame;
      var s := Advance(s, l);
      if f.mask.out && s.conns[f.c].write && drained then
        var t := if notify then Push(s, l, Callback(f.c)) else s;
        SetConn(t, f.c, Updated(s.conns[f.c].(write := false)))
      else s
    case CloseCallback(l) =>
      var c := s.loops[l].frame.c;
      var s := Unflagged(s, l);
      if l == BASE then EraseConn(s, c) else Push(s, BASE, RemoveInLoop(c))
    case EndEvent(l) => SetLoop(s, l, s.loops[l].(frame := NoFrame))
    case SendInLoop(c, blocked, notify) =>
      if s.conns[c].state == Disconnected then s
      else
        var t := if notify then Push(s, s.conns[c].io, Callback(c)) else s;
        if blocked && !s.conns[c].write
        then SetConn(t, c, Updated(s.conns[c].(write := true)))
        else t
    case Shutdown(c) =>
      if s.conns[c].state == Connected then SetConn(s, c, s.conns[c].(state := Disconnecting)) else s
    case Post(l) => Push(s, l, Task)
    case SwapFunctors(l) =>
      SetLoop(s, l, s.loops[l].(pc := Running, batch := s.loops[l].pending, next := 0, pending := []))
    case RunFunctor(l) =>
      var f := s.loops[l].batch[s.loops[l].next];
      RunOne(Taken(s, l), l, f)
    case EndFunctors(l) => SetLoop(s, l, s.loops[l].(pc := Polling, batch := [], next := 0))
    case Destruct(c) => SetConn(s, c, s.conns[c].(alive := false))
  }

  // ----- the invariant -----

  /** Functors still to run, in order. */
  function Todo(l: Loop): seq<Functor> {
    (if l.next <= |l.batch| then l.batch[l.next..] else []) + l.pending
  }

  function Count(l: Loop, f: Functor): nat {
    multiset(Todo(l))[f]
  }

  predicate Closing(s: Sys, c: ConnId)
    requires c < |s.conns|
  {
    s.conns[c].io < |s.loops|
    && var f := s.loops[s.conns[c].io].frame;
       f.Frame? && f.c == c && f.closing
  }

  /** Everything about a connection follows from how far it is in the script. */
  predicate ConnOk(s: Sys, c: ConnId)
    requires c < |s.conns|
  {
    var v := s.conns[c];
    var h := |v.history|;
    && h <= 4 && v.history == SCRIPT[..h]
    && v.io < |s.loops|
    && (c in s.registry <==> h < 3)
    && (v.state == Connecting <==> h == 0)
    && (v.state == Disconnected <==> h >= 2)
    && v.index == (if h == 1 then Added else if h == 2 || h == 3 then Deleted else New)
    && (v.read <==> h == 1) && (v.write ==> h == 1)
    && (h < 4 ==> v.alive)
  }

  /** Functors that are still to run are exactly those the script owes. */
  predicate TokensOk(s: Sys, l: LoopId, c: ConnId)
    requires l < |s.loops| && c < |s.conns|
  {
    var h := |s.conns[c].history|;
    && Count(s.loops[l], Established(c)) == (if h == 0 && l == s.conns[c].io then 1 else 0)
    && Count(s.loops[l], RemoveInLoop(c)) == (if h == 2 && !Closing(s, c) && l == BASE then 1 else 0)
    && Count(s.loops[l], Destroyed(c)) == (if h == 3 && l == s.conns[c].io then 1 else 0)
  }

  /** A connection about to get an event, on its own loop and still up. */
  predicate UpOn(s: Sys, c: ConnId, l: LoopId) {
    c < |s.conns| && s.conns[c].io == l && |s.conns[c].history| == 1
  }

  predicate FrameOk(s: Sys, l: LoopId, f: Frame) {
    f.Frame? ==>
      && f.c < |s.conns| && s.conns[f.c].io == l && 1 <= |s.conns[f.c].history| <= 3
      && (f.mask.hup && f.mask.pri ==> f.mask.pollIn)
      && (f.closing ==> |s.conns[f.c].history| == 2)
      && (f.stage == 0 ==> UpOn(s, f.c, l) && !f.closing)
      && (f.stage == 1 && !(f.mask.hup && !f.mask.pollIn) ==> UpOn(s, f.c, l) && !f.closing)
  }

  predicate LoopOk(s: Sys, l: LoopId)
    requires l < |s.loops|
  {
    var v := s.loops[l];
    && v.next <= |v.batch|
    && (v.pc != Running ==> v.batch == [])
    && (v.pc != Dispatching ==> v.active == [] && v.frame.NoFrame?)
    && Distinct(v.active)
    && (forall i :: 0 <= i < |v.active| ==> UpOn(s, v.active[i], l))
    && FrameOk(s, l, v.frame)
    && (v.frame.Frame? ==> v.frame.c !in v.active)
    && (forall i :: 0 <= i < |Todo(v)| ==> Todo(v)[i].Task? || Todo(v)[i].c < |s.conns|)
  }

  ghost predicate FdsOk(s: Sys) {
    forall a, b :: 0 <= a < b < |s.conns| && s.conns[a].alive && s.conns[b].alive ==>
      s.conns[a].fd != s.conns[b].fd
  }

  ghost predicate Core(s: Sys) {
    && |s.loops| > 0
    && (forall c :: 0 <= c < |s.conns| ==> ConnOk(s, c))
    && (forall c :: c in s.registry ==> c < |s.conns|)
    && (forall l :: 0 <= l < |s.loops| ==> LoopOk(s, l))
    && FdsOk(s)
  }

  ghost predicate Inv(s: Sys) {
    Core(s) && forall l, c :: 0 <= l < |s.loops| && 0 <= c < |s.conns| ==> TokensOk(s, l, c)
  }

  // ----- counting functors -----

  lemma CountPush(v: Loop, f: Functor, g: Functor)
    ensures Count(v.(pending := v.pending + [f]), g) == Count(v, g) + if g == f then 1 else 0
    ensures Todo(v.(pending := v.pending + [f])) == Todo(v) + [f]
  {
    assert Todo(v.(pending := v.pending + [f])) == Todo(v) + [f];
  }

  lemma CountNext(v: Loop, g: Functor)
    requires v.next < |v.batch|
    ensures Todo(v) == [v.batch[v.next]] + Todo(v.(next := v.next + 1))
    ensures Count(v.(next := v.next + 1), g) == Count(v, g) - if g == v.batch[v.next] then 1 else 0
  {
    assert Todo(v) == [v.batch[v.next]] + Todo(v.(next := v.next + 1));
  }

  /** The two states owe and hold the same functors. */
  ghost predicate SameTokens(s: Sys, t: Sys) {
    && |t.loops| == |s.loops| && |t.conns| == |s.conns|
    && (forall l :: 0 <= l < |s.loops| ==> Todo(t.loops[l]) == Todo(s.loops[l]))
    && (forall c :: 0 <= c < |s.conns| ==>
          && t.conns[c].io == s.conns[c].io
          && |t.conns[c].history| == |s.conns[c].history|
          && Closing(t, c) == Closing(s, c))
  }

  lemma TokensFrame(s: Sys, t: Sys)
    requires Inv(s) && SameTokens(s, t)
    ensures forall l, c :: 0 <= l < |t.loops| && 0 <= c < |t.conns| ==> TokensOk(t, l, c)
  {
    forall l, c | 0 <= l < |t.loops| && 0 <= c < |t.conns| ensures TokensOk(t, l, c) {
      assert TokensOk(s, l, c);
      assert Closing(t, c) == Closing(s, c);
    }
  }

  // ----- every step keeps the invariant -----

  /** The close in progress on a loop, if any. */
  function ClosingOn(v: Loop): seq<ConnId> {
    if v.frame.Frame? && v.frame.closing then [v.frame.c] else []
  }

  lemma SetLoopOthers(s: Sys, l: LoopId, v: Loop)
    requires Core(s) && l < |s.loops|
    ensures forall k :: 0 <= k < |s.loops| && k != l ==> LoopOk(SetLoop(s, l, v), k)
    ensures forall c :: 0 <= c < |s.conns| ==> ConnOk(SetLoop(s, l, v), c)
  {
    var t := SetLoop(s, l, v);
    forall k | 0 <= k < |t.loops| && k != l ensures LoopOk(t, k) {
      assert LoopOk(s, k);
    }
    forall c | 0 <= c < |t.conns| ensures ConnOk(t, c) {
      assert ConnOk(s, c);
    }
  }

  /** Changing a loop that owes and closes the same as before. */
  lemma SetLoopKeeps(s: Sys, l: LoopId, v: Loop)
    requires Inv(s) && l < |s.loops|
    requires Todo(v) == Todo(s.loops[l]) && ClosingOn(v) == ClosingOn(s.loops[l])
    requires LoopOk(SetLoop(s, l, v), l)
    ensures Inv(SetLoop(s, l, v))
  {
    var t := SetLoop(s, l, v);
    SetLoopOthers(s, l, v);
    forall c | 0 <= c < |s.conns| ensures Closing(t, c) == Closing(s, c) {
      assert Closing(s, c) && s.conns[c].io == l ==> ClosingOn(s.loops[l])[0] == c;
      assert Closing(t, c) && s.conns[c].io == l ==> ClosingOn(v)[0] == c;
    }
    TokensFrame(s, t);
  }

  lemma PollReturnKeeps(s: Sys, l: LoopId, ready: seq<ConnId>)
    requires Inv(s) && Enabled(s, PollReturn(l, ready))
    ensures Inv(Apply(s, PollReturn(l, ready)))
  {
    assert LoopOk(s, l);
    forall i | 0 <= i < |ready| ensures UpOn(s, ready[i], l) {
      assert ConnOk(s, ready[i]);
    }
    SetLoopKeeps(s, l, s.loops[l].(pc := Dispatching, active := ready));
  }

  lemma BeginEventKeeps(s: Sys, l: LoopId, mask: Mask)
    requires Inv(s) && Enabled(s, BeginEvent(l, mask))
    ensures Inv(Apply(s, BeginEvent(l, mask)))
  {
    assert LoopOk(s, l);
    var c := s.loops[l].active[0];
    assert UpOn(s, c, l) && ConnOk(s, c);
    SetLoopKeeps(s, l, s.loops[l].(frame := Frame(c, mask, 0, false), active := s.loops[l].active[1..]));
  }

  lemma EndEventKeeps(s: Sys, l: LoopId)
    requires Inv(s) && Enabled(s, EndEvent(l))
    ensures Inv(Apply(s, EndEvent(l)))
  {
    assert LoopOk(s, l);
    SetLoopKeeps(s, l, s.loops[l].(frame := NoFrame));
  }

  lemma SwapFunctorsKeeps(s: Sys, l: LoopId)
    requires Inv(s) && Enabled(s, SwapFunctors(l))
    ensures Inv(Apply(s, SwapFunctors(l)))
  {
    assert LoopOk(s, l);
    var v := s.loops[l].(pc := Running, batch := s.loops[l].pending, next := 0, pending := []);
    assert Todo(v) == Todo(s.loops[l]);
    SetLoopKeeps(s, l, v);
  }

  lemma EndFunctorsKeeps(s: Sys, l: LoopId)
    requires Inv(s) && Enabled(s, EndFunctors(l))
    ensures Inv(Apply(s, EndFunctors(l)))
  {
    assert LoopOk(s, l);
    var v := s.loops[l].(pc := Polling, batch := [], next := 0);
    assert Todo(v) == Todo(s.loops[l]);
    SetLoopKeeps(s, l, v);
  }

  lemma SetConnLoop(s: Sys, c: ConnId, v: Conn, k: LoopId)
    requires c < |s.conns| && k < |s.loops| && LoopOk(s, k)
    requires v.io == s.conns[c].io && v.history == s.conns[c].history
    requires ConnOk(s, c) && ConnOk(SetConn(s, c, v), c)
    ensures LoopOk(SetConn(s, c, v), k)
  {
  }

  /** Changing a connection without moving it along the script. */
  lemma SetConnKeeps(s: Sys, c: ConnId, v: Conn)
    requires Inv(s) && c < |s.conns|
    requires v.io == s.conns[c].io && v.fd == s.conns[c].fd && v.history == s.conns[c].history
    requires v.alive ==> s.conns[c].alive
    requires ConnOk(SetConn(s, c, v), c)
    ensures Inv(SetConn(s, c, v))
  {
    var t := SetConn(s, c, v);
    TokensFrame(s, t);
    forall k | 0 <= k < |t.loops| ensures LoopOk(t, k) {
      SetConnLoop(s, c, v, k);
    }
    forall d | 0 <= d < |t.conns| ensures ConnOk(t, d) {
      assert ConnOk(s, d);
    }
  }

  lemma ShutdownKeeps(s: Sys, c: ConnId)
    requires Inv(s) && Enabled(s, Shutdown(c))
    ensures Inv(Apply(s, Shutdown(c)))
  {
    assert ConnOk(s, c);
    if s.conns[c].state == Connected {
      SetConnKeeps(s, c, s.conns[c].(state := Disconnecting));
    }
  }

  lemma QueuedIsOwned(s: Sys, l: LoopId, f: Functor, c: ConnId)
    requires l < |s.loops| && f in Todo(s.loops[l]) && Holds(f, c)
    ensures Owned(s, c)
  {
    var v := s.loops[l];
    var i :| 0 <= i < |Todo(v)| && Todo(v)[i] == f;
    var n := |Todo(v)| - |v.pending|;
    if i < n {
      assert Holds(v.batch[v.next + i], c);
    } else {
      assert Holds(v.pending[i - n], c);
    }
  }

  /** Until it has been removed from its loop a connection has a strong owner. */
  lemma LiveIsOwned(s: Sys, c: ConnId)
    requires Inv(s) && c < |s.conns| && |s.conns[c].history| < 4
    ensures Owned(s, c)
  {
    assert ConnOk(s, c);
    if |s.conns[c].history| == 3 {
      var l := s.conns[c].io;
      assert TokensOk(s, l, c);
      assert Destroyed(c) in multiset(Todo(s.loops[l]));
      QueuedIsOwned(s, l, Destroyed(c), c);
    }
  }

  lemma DestructKeeps(s: Sys, c: ConnId)
    requires Inv(s) && Enabled(s, Destruct(c))
    ensures Inv(Apply(s, Destruct(c)))
  {
    assert ConnOk(s, c);
    if |s.conns[c].history| < 4 {
      LiveIsOwned(s, c);
    }
    SetConnKeeps(s, c, s.conns[c].(alive := false));
  }

  /** Queueing one functor: the other loops and the connections are as before. */
  lemma PushLoopOk(s: Sys, l: LoopId, f: Functor, k: LoopId)
    requires l < |s.loops| && k < |s.loops| && LoopOk(s, k) && (f.Task? || f.c < |s.conns|)
    ensures LoopOk(Push(s, l, f), k)
  {
    var t := Push(s, l, f);
    var v, w := s.loops[k], t.loops[k];
    if k == l {
      CountPush(v, f, f);
    }
    assert Todo(w) == Todo(v) + if k == l then [f] else [];
    forall i | 0 <= i < |w.active| ensures UpOn(t, w.active[i], k) {
      assert UpOn(s, v.active[i], k);
    }
    assert FrameOk(t, k, w.frame);
  }

  lemma PushLoopsOk(s: Sys, l: LoopId, f: Functor)
    requires (forall k :: 0 <= k < |s.loops| ==> LoopOk(s, k))
    requires l < |s.loops| && (f.Task? || f.c < |s.conns|)
    ensures forall k :: 0 <= k < |s.loops| ==> LoopOk(Push(s, l, f), k)
  {
    var t := Push(s, l, f);
    forall k | 0 <= k < |t.loops| ensures LoopOk(t, k) {
      PushLoopOk(s, l, f, k);
    }
  }

  lemma PushCounts(s: Sys, l: LoopId, f: Functor)
    requires l < |s.loops|
    ensures forall k, g :: 0 <= k < |s.loops| ==>
              Count(Push(s, l, f).loops[k], g)
              == Count(s.loops[k], g) + if k == l && g == f then 1 else 0
  {
    forall g ensures Count(Push(s, l, f).loops[l], g)
                     == Count(s.loops[l], g) + if g == f then 1 else 0 {
      CountPush(s.loops[l], f, g);
    }
  }

  /** Queueing a functor that owes nothing to the script. */
  lemma PushKeeps(s: Sys, l: LoopId, f: Functor)
    requires Inv(s) && l < |s.loops| && (f.Task? || (f.Callback? && f.c < |s.conns|))
    ensures Inv(Push(s, l, f))
  {
    var t := Push(s, l, f);
    PushLoopsOk(s, l, f);
    PushCounts(s, l, f);
    forall k, c | 0 <= k < |t.loops| && 0 <= c < |t.conns| ensures TokensOk(t, k, c) {
      assert TokensOk(s, k, c);
      assert Closing(t, c) == Closing(s, c);
    }
    assert forall c :: 0 <= c < |t.conns| ==> ConnOk(s, c) ==> ConnOk(t, c);
  }

  lemma PostKeeps(s: Sys, l: LoopId)
    requires Inv(s) && Enabled(s, Post(l))
    ensures Inv(Apply(s, Post(l)))
  {
    PushKeeps(s, l, Task);
  }

  lemma SendInLoopKeeps(s: Sys, c: ConnId, blocked: bool, notify: bool)
    requires Inv(s) && Enabled(s, SendInLoop(c, blocked, notify))
    ensures Inv(Apply(s, SendInLoop(c, blocked, notify)))
  {
    assert ConnOk(s, c);
    if s.conns[c].state != Disconnected {
      if notify {
        PushKeeps(s, s.conns[c].io, Callback(c));
      }
      var t := if notify then Push(s, s.conns[c].io, Callback(c)) else s;
      if blocked && !s.conns[c].write {
        SetConnKeeps(t, c, Updated(t.conns[c].(write := true)));
      }
    }
  }

  lemma AdvanceKeeps(s: Sys, l: LoopId, stage: nat)
    requires Inv(s) && FrameAt(s, l, stage)
    ensures Inv(Advance(s, l))
  {
    var t := Advance(s, l);
    TokensFrame(s, t);
    forall k | 0 <= k < |t.loops| ensures LoopOk(t, k) {
      assert LoopOk(s, k);
    }
    assert forall c :: 0 <= c < |t.conns| ==> ConnOk(s, c) ==> ConnOk(t, c);
  }

  /** handleClose may begin: the frame's connection is up. */
  ghost predicate MayClose(s: Sys, l: LoopId) {
    && l < |s.loops| && s.loops[l].frame.Frame?
    && var f := s.loops[l].frame;
       && UpOn(s, f.c, l) && !f.closing && f.stage > 0
       && (f.stage == 1 ==> f.mask.hup && !f.mask.pollIn)
  }

  lemma BeginCloseCore(s: Sys, l: LoopId)
    requires Core(s) && MayClose(s, l)
    ensures Core(BeginClose(s, l))
  {
    var t := BeginClose(s, l);
    var c := s.loops[l].frame.c;
    assert LoopOk(s, l) && ConnOk(s, c);
    assert SCRIPT[..1] + [Down] == SCRIPT[..2];
    forall k | 0 <= k < |t.loops| ensures LoopOk(t, k) {
      assert LoopOk(s, k) && Todo(t.loops[k]) == Todo(s.loops[k]);
    }
    forall d | 0 <= d < |t.conns| ensures ConnOk(t, d) {
      assert ConnOk(s, d);
    }
  }

  lemma BeginCloseKeeps(s: Sys, l: LoopId)
    requires Inv(s) && MayClose(s, l)
    ensures Inv(BeginClose(s, l))
  {
    var t := BeginClose(s, l);
    var c := s.loops[l].frame.c;
    BeginCloseCore(s, l);
    forall k, d | 0 <= k < |t.loops| && 0 <= d < |t.conns| ensures TokensOk(t, k, d) {
      assert TokensOk(s, k, d) && ConnOk(s, c);
      assert Todo(t.loops[k]) == Todo(s.loops[k]);
      assert d != c ==> Closing(t, d) == Closing(s, d);
    }
  }

  lemma OnHangupKeeps(s: Sys, l: LoopId)
    requires Inv(s) && Enabled(s, OnHangup(l))
    ensures Inv(Apply(s, OnHangup(l)))
  {
    assert LoopOk(s, l);
    AdvanceKeeps(s, l, 0);
    var f := s.loops[l].frame;
    if f.mask.hup && !f.mask.pollIn {
      assert UpOn(Advance(s, l), f.c, l);
      BeginCloseKeeps(Advance(s, l), l);
    }
  }

  lemma OnReadableKeeps(s: Sys, l: LoopId, eof: bool)
    requires Inv(s) && Enabled(s, OnReadable(l, eof))
    ensures Inv(Apply(s, OnReadable(l, eof)))
  {
    assert LoopOk(s, l);
    AdvanceKeeps(s, l, 1);
    var f := s.loops[l].frame;
    if (f.mask.pollIn || f.mask.pri) && eof {
      assert UpOn(Advance(s, l), f.c, l);
      BeginCloseKeeps(Advance(s, l), l);
    }
  }

  lemma OnWritableKeeps(s: Sys, l: LoopId, drained: bool, notify: bool)
    requires Inv(s) && Enabled(s, OnWritable(l, drained, notify))
    ensures Inv(Apply(s, OnWritable(l, drained, notify)))
  {
    assert LoopOk(s, l);
    AdvanceKeeps(s, l, 2);
    var f := s.loops[l].frame;
    var t := Advance(s, l);
    if f.mask.out && s.conns[f.c].write && drained {
      assert ConnOk(s, f.c);
      if notify {
        PushKeeps(t, l, Callback(f.c));
        t := Push(t, l, Callback(f.c));
      }
      SetConnKeeps(t, f.c, Updated(t.conns[f.c].(write := false)));
    }
  }

  // ----- the steps that move a connection along the script -----

  /** Moving one connection from milestone h to h + 1, nothing else changed. */
  lemma MoveCore(s: Sys, c: ConnId, v: Conn)
    requires Core(s) && c < |s.conns| && |s.conns[c].history| in {0, 3}
    requires |v.history| == |s.conns[c].history| + 1
    requires v.io == s.conns[c].io && v.fd == s.conns[c].fd && v.alive == s.conns[c].alive
    requires ConnOk(SetConn(s, c, v), c)
    requires s.conns[c].history != [] ==> v.io < |s.loops| && s.loops[v.io].frame.NoFrame?
    ensures Core(SetConn(s, c, v))
  {
    var t := SetConn(s, c, v);
    forall k | 0 <= k < |t.loops| ensures LoopOk(t, k) {
      assert LoopOk(s, k);
    }
    forall d | 0 <= d < |t.conns| ensures ConnOk(t, d) {
      assert ConnOk(s, d);
    }
  }

  lemma EstablishCore(s: Sys, c: ConnId)
    requires Core(s) && c < |s.conns| && s.conns[c].history == []
    ensures Core(SetConn(s, c, Establish(s.conns[c])))
  {
    assert ConnOk(s, c);
    assert [] + [Up] == SCRIPT[..1];
    MoveCore(s, c, Establish(s.conns[c]));
  }

  lemma DestroyCore(s: Sys, c: ConnId)
    requires Core(s) && c < |s.conns| && |s.conns[c].history| == 3
    requires s.conns[c].io < |s.loops| && s.loops[s.conns[c].io].frame.NoFrame?
    ensures Core(SetConn(s, c, Destroy(s.conns[c])))
  {
    assert ConnOk(s, c);
    assert SCRIPT[..3] + [Removed] == SCRIPT[..4];
    MoveCore(s, c, Destroy(s.conns[c]));
  }

  lemma EraseCore(s: Sys, c: ConnId)
    requires Core(s) && c < |s.conns| && s.conns[c].io < |s.loops|
    requires |s.conns[c].history| == 2 && !Closing(s, c)
    ensures Core(EraseConn(s, c))
  {
    assert ConnOk(s, c);
    assert SCRIPT[..2] + [Erased] == SCRIPT[..3];
    var t := SetConn(s.(registry := s.registry - {c}), c,
                     s.conns[c].(history := s.conns[c].history + [Erased]));
    forall k | 0 <= k < |t.loops| ensures LoopOk(t, k) {
      assert LoopOk(s, k);
    }
    PushLoopsOk(t, s.conns[c].io, Destroyed(c));
    var u := EraseConn(s, c);
    forall d | 0 <= d < |u.conns| ensures ConnOk(u, d) {
      assert ConnOk(s, d);
    }
  }

  /** closeCallback_ is about to run: only the frame's flag has changed. */
  function Unflagged(s: Sys, l: LoopId): Sys
    requires l < |s.loops| && s.loops[l].frame.Frame?
  {
    var f := s.loops[l].frame;
    SetLoop(s, l, s.loops[l].(frame := f.(closing := false)))
  }

  lemma UnflaggedCore(s: Sys, l: LoopId)
    requires Core(s) && l < |s.loops| && s.loops[l].frame.Frame?
    ensures Core(Unflagged(s, l))
    ensures forall k :: 0 <= k < |s.loops| ==> Todo(Unflagged(s, l).loops[k]) == Todo(s.loops[k])
  {
    var t := Unflagged(s, l);
    forall k | 0 <= k < |t.loops| ensures LoopOk(t, k) && Todo(t.loops[k]) == Todo(s.loops[k]) {
      assert LoopOk(s, k) && Todo(t.loops[k]) == Todo(s.loops[k]);
    }
    forall d | 0 <= d < |t.conns| ensures ConnOk(t, d) {
      assert ConnOk(s, d);
    }
  }

  lemma CloseCallbackCore(s: Sys, l: LoopId)
    requires Inv(s) && Enabled(s, CloseCallback(l))
    ensures Core(Apply(s, CloseCallback(l)))
  {
    var c := s.loops[l].frame.c;
    assert LoopOk(s, l) && ConnOk(s, c);
    var s1 := Unflagged(s, l);
    UnflaggedCore(s, l);
    if l == BASE {
      EraseCore(s1, c);
    } else {
      PushLoopsOk(s1, BASE, RemoveInLoop(c));
      var t := Push(s1, BASE, RemoveInLoop(c));
      assert forall d :: 0 <= d < |t.conns| ==> ConnOk(s1, d) ==> ConnOk(t, d);
    }
  }

  lemma CloseCallbackCounts(s: Sys, l: LoopId, k: LoopId, g: Functor)
    requires Inv(s) && Enabled(s, CloseCallback(l)) && k < |s.loops|
    ensures var c := s.loops[l].frame.c;
            var t := Apply(s, CloseCallback(l));
            && |t.loops| == |s.loops|
            && Count(t.loops[k], g) == Count(s.loops[k], g)
               + if k == BASE && g == (if l == BASE then Destroyed(c) else RemoveInLoop(c)) then 1 else 0
  {
    var c := s.loops[l].frame.c;
    assert LoopOk(s, l);
    var s1 := Unflagged(s, l);
    UnflaggedCore(s, l);
    var t := Apply(s, CloseCallback(l));
    var f := if l == BASE then Destroyed(c) else RemoveInLoop(c);
    PushCounts(s1, BASE, f);
    assert t.loops == Push(s1, BASE, f).loops;
  }

  lemma CloseCallbackConns(s: Sys, l: LoopId, d: ConnId)
    requires Inv(s) && Enabled(s, CloseCallback(l)) && d < |s.conns|
    ensures var c := s.loops[l].frame.c;
            var t := Apply(s, CloseCallback(l));
            && |t.conns| == |s.conns| && t.conns[d].io == s.conns[d].io
            && Closing(s, c) && !Closing(t, c) && (d != c ==> Closing(t, d) == Closing(s, d))
            && |s.conns[c].history| == 2 && s.conns[c].io == l
            && |t.conns[d].history| == |s.conns[d].history| + if d == c && l == BASE then 1 else 0
  {
    assert LoopOk(s, l);
  }

  lemma CloseCallbackTokens(s: Sys, l: LoopId, k: LoopId, d: ConnId)
    requires Inv(s) && Enabled(s, CloseCallback(l))
    requires k < |s.loops| && d < |s.conns|
    ensures TokensOk(Apply(s, CloseCallback(l)), k, d)
  {
    assert TokensOk(s, k, d);
    CloseCallbackConns(s, l, d);
    CloseCallbackCounts(s, l, k, Established(d));
    CloseCallbackCounts(s, l, k, RemoveInLoop(d));
    CloseCallbackCounts(s, l, k, Destroyed(d));
  }

  lemma CloseCallbackKeeps(s: Sys, l: LoopId)
    requires Inv(s) && Enabled(s, CloseCallback(l))
    ensures Inv(Apply(s, CloseCallback(l)))
  {
    CloseCallbackCore(s, l);
    var t := Apply(s, CloseCallback(l));
    forall k, d | 0 <= k < |t.loops| && 0 <= d < |t.conns| ensures TokensOk(t, k, d) {
      CloseCallbackTokens(s, l, k, d);
    }
  }

  lemma TakenCounts(s: Sys, l: LoopId)
    requires l < |s.loops| && s.loops[l].next < |s.loops[l].batch|
    ensures var f := s.loops[l].batch[s.loops[l].next];
            forall k, g :: 0 <= k < |s.loops| ==>
              Count(Taken(s, l).loops[k], g)
              == Count(s.loops[k], g) - if k == l && g == f then 1 else 0
  {
    forall k, g | 0 <= k < |s.loops|
      ensures Count(Taken(s, l).loops[k], g) == Count(s.loops[k], g)
              - if k == l && g == s.loops[l].batch[s.loops[l].next] then 1 else 0 {
      if k == l {
        CountNext(s.loops[l], g);
      }
    }
  }

  lemma TakenCore(s: Sys, l: LoopId)
    requires Core(s) && l < |s.loops|
    requires s.loops[l].pc == Running && s.loops[l].next < |s.loops[l].batch|
    ensures Core(Taken(s, l))
  {
    var t := Taken(s, l);
    assert LoopOk(s, l);
    CountNext(s.loops[l], Task);
    forall i | 0 <= i < |Todo(t.loops[l])|
      ensures Todo(t.loops[l])[i].Task? || Todo(t.loops[l])[i].c < |s.conns| {
      assert Todo(t.loops[l])[i] == Todo(s.loops[l])[i + 1];
    }
    forall k | 0 <= k < |t.loops| ensures LoopOk(t, k) {
      assert LoopOk(s, k);
    }
    forall d | 0 <= d < |t.conns| ensures ConnOk(t, d) {
      assert ConnOk(s, d);
    }
  }

  /** Which point of the script the next functor belongs to. */
  lemma NextFunctorFits(s: Sys, l: LoopId)
    requires Inv(s) && Enabled(s, RunFunctor(l))
    ensures var f := s.loops[l].batch[s.loops[l].next];
            && (f.Established? ==> |s.conns[f.c].history| == 0 && s.conns[f.c].io == l)
            && (f.RemoveInLoop? ==> |s.conns[f.c].history| == 2 && !Closing(s, f.c) && l == BASE)
            && (f.Destroyed? ==> |s.conns[f.c].history| == 3 && s.conns[f.c].io == l)
  {
    var f := s.loops[l].batch[s.loops[l].next];
    CountNext(s.loops[l], f);
    if !f.Task? {
      assert TokensOk(s, l, f.c);
    }
  }

  lemma RunFunctorCore(s: Sys, l: LoopId)
    requires Inv(s) && Enabled(s, RunFunctor(l))
    ensures Core(Apply(s, RunFunctor(l)))
  {
    var f := s.loops[l].batch[s.loops[l].next];
    NextFunctorFits(s, l);
    TakenCore(s, l);
    assert LoopOk(s, l);
    var t := Taken(s, l);
    match f
    case Established(c) => EstablishCore(t, c);
    case RemoveInLoop(c) => EraseCore(t, c);
    case Destroyed(c) => DestroyCore(t, c);
    case _ =>
  }

  /** The functor that moves d along the script is f. */
  predicate Moves(f: Functor, d: ConnId) {
    f in {Established(d), RemoveInLoop(d), Destroyed(d)}
  }

  /** What running f on loop l does to the tokens and the script of d, seen from loop k. */
  lemma TokensAfter(s: Sys, t: Sys, l: LoopId, f: Functor, k: LoopId, d: ConnId)
    requires k < |s.loops| == |t.loops| && d < |s.conns| == |t.conns|
    requires TokensOk(s, k, d) && Closing(t, d) == Closing(s, d)
    requires var h := |s.conns[d].history|;
             && (f == Established(d) ==> h == 0 && s.conns[d].io == l)
             && (f == RemoveInLoop(d) ==> h == 2 && !Closing(s, d) && l == BASE)
             && (f == Destroyed(d) ==> h == 3 && s.conns[d].io == l)
    requires t.conns[d].io == s.conns[d].io
    requires |t.conns[d].history| == |s.conns[d].history| + if Moves(f, d) then 1 else 0
    requires Count(t.loops[k], Established(d))
             == Count(s.loops[k], Established(d)) - if k == l && f == Established(d) then 1 else 0
    requires Count(t.loops[k], RemoveInLoop(d))
             == Count(s.loops[k], RemoveInLoop(d)) - if k == l && f == RemoveInLoop(d) then 1 else 0
    requires Count(t.loops[k], Destroyed(d))
             == Count(s.loops[k], Destroyed(d)) - (if k == l && f == Destroyed(d) then 1 else 0)
                + (if k == s.conns[d].io && f == RemoveInLoop(d) then 1 else 0)
    ensures TokensOk(t, k, d)
  {
  }

  /** removeConnectionInLoop queues connectDestroyed. */
  lemma EraseCounts(s: Sys, c: ConnId, k: LoopId, g: Functor)
    requires c < |s.conns| && s.conns[c].io < |s.loops| && k < |s.loops|
    ensures |EraseConn(s, c).loops| == |s.loops|
    ensures Count(EraseConn(s, c).loops[k], g)
            == Count(s.loops[k], g) + if k == s.conns[c].io && g == Destroyed(c) then 1 else 0
  {
    var io := s.conns[c].io;
    PushCounts(s, io, Destroyed(c));
    assert EraseConn(s, c).loops == Push(s, io, Destroyed(c)).loops;
  }

  lemma RunFunctorCounts(s: Sys, l: LoopId, k: LoopId, g: Functor)
    requires Enabled(s, RunFunctor(l)) && k < |s.loops|
    ensures var f := s.loops[l].batch[s.loops[l].next];
            var t := Apply(s, RunFunctor(l));
            && |t.loops| == |s.loops|
            && Count(t.loops[k], g)
               == Count(s.loops[k], g) - (if k == l && g == f then 1 else 0)
                  + (if f.RemoveInLoop? && k == s.conns[f.c].io && g == Destroyed(f.c) then 1 else 0)
  {
    var f := s.loops[l].batch[s.loops[l].next];
    var s1 := Taken(s, l);
    TakenCounts(s, l);
    assert Count(s1.loops[k], g) == Count(s.loops[k], g) - if k == l && g == f then 1 else 0;
    if f.RemoveInLoop? {
      EraseCounts(s1, f.c, k, g);
    } else {
      assert Apply(s, RunFunctor(l)).loops == s1.loops;
    }
  }

  lemma RunFunctorConns(s: Sys, l: LoopId, d: ConnId)
    requires Inv(s) && Enabled(s, RunFunctor(l)) && d < |s.conns|
    ensures var f := s.loops[l].batch[s.loops[l].next];
            var t := Apply(s, RunFunctor(l));
            && |t.conns| == |s.conns| && t.conns[d].io == s.conns[d].io
            && Closing(t, d) == Closing(s, d)
            && |t.conns[d].history| == |s.conns[d].history| + if Moves(f, d) then 1 else 0
  {
    NextFunctorFits(s, l);
    assert ConnOk(s, d);
  }

  lemma RunFunctorTokens(s: Sys, l: LoopId, k: LoopId, d: ConnId)
    requires Inv(s) && Enabled(s, RunFunctor(l))
    requires k < |s.loops| && d < |s.conns|
    ensures TokensOk(Apply(s, RunFunctor(l)), k, d)
  {
    var t := Apply(s, RunFunctor(l));
    NextFunctorFits(s, l);
    RunFunctorConns(s, l, d);
    RunFunctorCounts(s, l, k, Established(d));
    RunFunctorCounts(s, l, k, RemoveInLoop(d));
    RunFunctorCounts(s, l, k, Destroyed(d));
    assert TokensOk(s, k, d);
    TokensAfter(s, t, l, s.loops[l].batch[s.loops[l].next], k, d);
  }

  lemma RunFunctorKeeps(s: Sys, l: LoopId)
    requires Inv(s) && Enabled(s, RunFunctor(l))
    ensures Inv(Apply(s, RunFunctor(l)))
  {
    RunFunctorCore(s, l);
    var t := Apply(s, RunFunctor(l));
    forall k, d | 0 <= k < |t.loops| && 0 <= d < |t.conns| ensures TokensOk(t, k, d) {
      RunFunctorTokens(s, l, k, d);
    }
  }

  lemma AcceptedCore(s: Sys, io: LoopId, fd: int)
    requires Inv(s) && Enabled(s, Accept(io, fd))
    ensures Core(Accepted(s, io, fd))
  {
    var t := Accepted(s, io, fd);
    forall k | 0 <= k < |t.loops| ensures LoopOk(t, k) {
      assert LoopOk(s, k);
    }
    forall d | 0 <= d < |t.conns| ensures ConnOk(t, d) {
      if d < |s.conns| {
        assert ConnOk(s, d);
      }
    }
  }

  lemma NoTokensYet(s: Sys, k: LoopId, g: Functor)
    requires Inv(s) && k < |s.loops| && Holds(g, |s.conns|)
    ensures Count(s.loops[k], g) == 0
  {
    assert LoopOk(s, k);
  }

  lemma AcceptTokens(s: Sys, io: LoopId, fd: int, k: LoopId, d: ConnId)
    requires Inv(s) && Enabled(s, Accept(io, fd))
    requires k < |s.loops| && d <= |s.conns|
    ensures TokensOk(Apply(s, Accept(io, fd)), k, d)
  {
    var t := Apply(s, Accept(io, fd));
    var s1 := Accepted(s, io, fd);
    PushCounts(s1, io, Established(|s.conns|));
    assert t.loops == if io == BASE then s.loops else Push(s1, io, Established(|s.conns|)).loops;
    if d < |s.conns| {
      assert TokensOk(s, k, d);
      assert Closing(t, d) == Closing(s, d);
    } else {
      NoTokensYet(s, k, Established(d));
      NoTokensYet(s, k, RemoveInLoop(d));
      NoTokensYet(s, k, Destroyed(d));
    }
  }

  lemma AcceptKeeps(s: Sys, io: LoopId, fd: int)
    requires Inv(s) && Enabled(s, Accept(io, fd))
    ensures Inv(Apply(s, Accept(io, fd)))
  {
    var c := |s.conns|;
    var s1 := Accepted(s, io, fd);
    var t := Apply(s, Accept(io, fd));
    AcceptedCore(s, io, fd);
    if io == BASE {
      EstablishCore(s1, c);
    } else {
      PushLoopsOk(s1, io, Established(c));
      assert forall d :: 0 <= d < |t.conns| ==> ConnOk(s1, d) ==> ConnOk(t, d);
    }
    forall k, d | 0 <= k < |t.loops| && 0 <= d < |t.conns| ensures TokensOk(t, k, d) {
      AcceptTokens(s, io, fd, k, d);
    }
  }

  lemma StepKeeps(s: Sys, step: Step)
    requires Inv(s) && Enabled(s, step)
    ensures Inv(Apply(s, step))
  {
    match step
    case Accept(io, fd) => AcceptKeeps(s, io, fd);
    case PollReturn(l, ready) => PollReturnKeeps(s, l, ready);
    case BeginEvent(l, mask) => BeginEventKeeps(s, l, mask);
    case OnHangup(l) => OnHangupKeeps(s, l);
    case OnReadable(l, eof) => OnReadableKeeps(s, l, eof);
    case OnWritable(l, drained, notify) => OnWritableKeeps(s, l, drained, notify);
    case CloseCallback(l) => CloseCallbackKeeps(s, l);
    case EndEvent(l) => EndEventKeeps(s, l);
    case SendInLoop(c, blocked, notify) => SendInLoopKeeps(s, c, blocked, notify);
    case Shutdown(c) => ShutdownKeeps(s, c);
    case Post(l) => PostKeeps(s, l);
    case SwapFunctors(l) => SwapFunctorsKeeps(s, l);
    case RunFunctor(l) => RunFunctorKeeps(s, l);
    case EndFunctors(l) => EndFunctorsKeeps(s, l);
    case Destruct(c) => DestructKeeps(s, c);
  }

  // ----- runs -----

  /** t is reached from s by the steps, in order. */
  ghost predicate Leads(s: Sys, steps: seq<Step>, t: Sys)
    decreases |steps|
  {
    if steps == [] then t == s
    else Enabled(s, steps[0]) && Leads(Apply(s, steps[0]), steps[1..], t)
  }

  lemma {:induction false} LeadsSnoc(s: Sys, steps: seq<Step>, t: Sys, step: Step)
    requires Leads(s, steps, t) && Enabled(t, step)
    ensures Leads(s, steps + [step], Apply(t, step))
    decreases |steps|
  {
    if steps == [] {
      assert ([] + [step])[1..] == [];
    } else {
      assert (steps + [step])[1..] == steps[1..] + [step];
      LeadsSnoc(Apply(s, steps[0]), steps[1..], t, step);
    }
  }

  lemma {:induction false} RunKeeps(s: Sys, steps: seq<Step>, t: Sys)
    requires Inv(s) && Leads(s, steps, t)
    ensures Inv(t)
    decreases |steps|
  {
    if steps != [] {
      StepKeeps(s, steps[0]);
      RunKeeps(Apply(s, steps[0]), steps[1..], t);
    }
  }

  /** Some interleaving of any length leads from a fresh server with n loops to s. */
  ghost predicate Reachable(n: nat, s: Sys) {
    n > 0 && exists steps :: Leads(Init(n), steps, s)
  }

  lemma ReachableInv(n: nat, s: Sys)
    requires Reachable(n, s)
    ensures Inv(s)
  {
    var steps :| Leads(Init(n), steps, s);
    RunKeeps(Init(n), steps, s);
  }

  // ----- main results -----

  /** Every connection lives through UP, DOWN, erasure from connections_ and removal from
      its loop, each at most once and in this order; its state, its poller index, its map
      entry and its event interest are determined by how far it is. */
  lemma ConnectionScript(n: nat, s: Sys, c: ConnId)
    requires Reachable(n, s) && c < |s.conns|
    ensures s.conns[c].history <= SCRIPT
    ensures var v := s.conns[c]; var h := |v.history|;
            && (h == 0 <==> v.state == Connecting)
            && (h >= 2 <==> v.state == Disconnected)
            && (h < 3 <==> c in s.registry)
            && (v.index == Added <==> h == 1)
            && (v.index == Deleted <==> 2 <= h <= 3)
            && (v.read || v.write ==> h == 1)
  {
    ReachableInv(n, s);
    assert ConnOk(s, c);
  }

  /** Whenever a queued connectDestroyed runs, the connection is DOWN and erased, has no
      event interest (the assert in Channel::remove holds, the kConnected branch is dead),
      its loop is not dispatching, and no event is waiting to be delivered to it. */
  lemma DestroyedOnlyWhenDone(n: nat, s: Sys, l: LoopId, c: ConnId)
    requires Reachable(n, s) && Enabled(s, RunFunctor(l))
    requires s.loops[l].batch[s.loops[l].next] == Destroyed(c)
    ensures s.conns[c].history == [Up, Down, Erased] && s.conns[c].io == l
    ensures s.conns[c].state == Disconnected && !s.conns[c].read && !s.conns[c].write
    ensures c !in s.registry
    ensures s.loops[l].pc == Running && s.loops[l].frame.NoFrame?
    ensures forall k :: 0 <= k < |s.loops| ==> c !in s.loops[k].active
  {
    ReachableInv(n, s);
    NextFunctorFits(s, l);
    assert ConnOk(s, c) && LoopOk(s, l);
    assert SCRIPT[..3] == [Up, Down, Erased];
    forall k | 0 <= k < |s.loops| ensures c !in s.loops[k].active {
      assert LoopOk(s, k);
      assert forall i :: 0 <= i < |s.loops[k].active| ==> UpOn(s, s.loops[k].active[i], k);
    }
  }

  /** Between poll and dispatch every pointer in activeChannels_ stays registered and its
      connection alive, so the guard of Channel::handleEvent always locks; the connection
      being handled stays alive and in the poller's map until its event ends. */
  lemma DispatchIsSafe(n: nat, s: Sys, l: LoopId, c: ConnId)
    requires Reachable(n, s) && l < |s.loops|
    requires c in s.loops[l].active || (s.loops[l].frame.Frame? && s.loops[l].frame.c == c)
    ensures c < |s.conns| && s.conns[c].alive && s.conns[c].io == l && s.conns[c].index != New
    ensures c in s.loops[l].active ==> s.conns[c].index == Added && Owned(s, c)
  {
    ReachableInv(n, s);
    assert LoopOk(s, l);
    if c in s.loops[l].active {
      var i :| 0 <= i < |s.loops[l].active| && s.loops[l].active[i] == c;
      assert UpOn(s, s.loops[l].active[i], l);
    }
    assert ConnOk(s, c);
  }

  /** Lifetime: a connection whose channel is registered has a strong owner; so it is
      destroyed only after it left its poller, having gone through the whole script. */
  lemma DestructionIsLast(n: nat, s: Sys, c: ConnId)
    requires Reachable(n, s) && c < |s.conns|
    ensures s.conns[c].index != New ==> s.conns[c].alive && Owned(s, c)
    ensures Enabled(s, Destruct(c)) ==> s.conns[c].index == New && s.conns[c].history == SCRIPT
    ensures !s.conns[c].alive ==> s.conns[c].history == SCRIPT
  {
    ReachableInv(n, s);
    assert ConnOk(s, c);
    assert SCRIPT[..4] == SCRIPT;
    if |s.conns[c].history| < 4 {
      LiveIsOwned(s, c);
    }
  }

  /** No two registered channels share a descriptor, on whichever loops they are. */
  lemma RegisteredFdsDiffer(n: nat, s: Sys, a: ConnId, b: ConnId)
    requires Reachable(n, s) && a < |s.conns| && b < |s.conns| && a != b
    requires s.conns[a].index != New && s.conns[b].index != New
    ensures s.conns[a].fd != s.conns[b].fd
  {
    ReachableInv(n, s);
    assert ConnOk(s, a) && ConnOk(s, b);
  }

  /** A connection that no loop owes anything is up or torn down. */
  lemma SettledConn(s: Sys, c: ConnId)
    requires Inv(s) && c < |s.conns|
    requires forall l :: 0 <= l < |s.loops| ==> s.loops[l].pc == Polling && s.loops[l].pending == []
    ensures |s.conns[c].history| == if c in s.registry then 1 else 4
  {
    assert ConnOk(s, c);
    var io := s.conns[c].io;
    assert LoopOk(s, io) && LoopOk(s, BASE);
    assert Todo(s.loops[io]) == [] && Todo(s.loops[BASE]) == [];
    assert TokensOk(s, io, c) && TokensOk(s, BASE, c);
    assert !Closing(s, c);
  }

  /** Nobody holds a connection that is out of the map once all loops are idle. */
  lemma SettledIsUnowned(s: Sys, c: ConnId)
    requires Inv(s) && c < |s.conns| && c !in s.registry
    requires forall l :: 0 <= l < |s.loops| ==> s.loops[l].pc == Polling && s.loops[l].pending == []
    ensures !Owned(s, c)
  {
    forall l | 0 <= l < |s.loops|
      ensures s.loops[l].batch == [] && s.loops[l].pending == [] && s.loops[l].frame.NoFrame? {
      assert LoopOk(s, l);
    }
  }

  /** Nothing leaks: once every loop is polling with an empty queue, each connection is
      either up and in connections_, or completely torn down and destroyed or free to be. */
  lemma QuiescentMeansSettled(n: nat, s: Sys)
    requires Reachable(n, s)
    requires forall l :: 0 <= l < |s.loops| ==> s.loops[l].pc == Polling && s.loops[l].pending == []
    ensures forall c :: 0 <= c < |s.conns| ==>
              if c in s.registry then s.conns[c].history == [Up] && s.conns[c].index == Added
              else s.conns[c].history == SCRIPT && s.conns[c].index == New
                   && (!s.conns[c].alive || Enabled(s, Destruct(c)))
  {
    ReachableInv(n, s);
    assert SCRIPT[..1] == [Up] && SCRIPT[..4] == SCRIPT;
    forall c | 0 <= c < |s.conns|
      ensures if c in s.registry then s.conns[c].history == [Up] && s.conns[c].index == Added
              else s.conns[c].history == SCRIPT && s.conns[c].index == New
                   && (!s.conns[c].alive || Enabled(s, Destruct(c)))
    {
      SettledConn(s, c);
      assert ConnOk(s, c);
      if c !in s.registry {
        SettledIsUnowned(s, c);
      }
    }
  }

  // ----- a whole life -----

  lemma ReachableStep(n: nat, s: Sys, step: Step)
    requires Reachable(n, s) && Enabled(s, step)
    ensures Reachable(n, Apply(s, step))
  {
    var steps :| Leads(Init(n), steps, s);
    LeadsSnoc(Init(n), steps, s, step);
  }

  /** A server with a base loop, one I/O loop and one connection on the latter. */
  function Pair(base: Loop, io: Loop, c: Conn, registry: set<ConnId>): Sys {
    Sys([base, io], [c], registry)
  }

  /** The loop has returned from poll with nothing to dispatch and is about to swap. */
  function Awake(pending: seq<Functor>): Loop {
    Loop(Dispatching, [], NoFrame, pending, [], 0)
  }

  /** One functor goes through its loop: swapped out, run, and the loop polls again. */
  lemma IoTurn(n: nat, s: Sys, f: Functor, c: Conn)
    requires Reachable(n, s) && |s.loops| == 2 && |s.conns| == 1
    requires s.loops[1] == Awake([f]) && s.conns[0] == c && c.io == 1
    requires f in {Established(0), Destroyed(0)}
    ensures var d := if f == Established(0) then Establish(c) else Destroy(c);
            Reachable(n, Pair(s.loops[0], Idle(), d, s.registry))
  {
    var base, d := s.loops[0], if f == Established(0) then Establish(c) else Destroy(c);
    assert s == Pair(base, Awake([f]), c, s.registry);
    ReachableStep(n, s, SwapFunctors(1));
    var s1 := Pair(base, Loop(Running, [], NoFrame, [], [f], 0), c, s.registry);
    assert Apply(s, SwapFunctors(1)) == s1;
    ReachableStep(n, s1, RunFunctor(1));
    var s2 := Pair(base, Loop(Running, [], NoFrame, [], [f], 1), d, s.registry);
    assert Apply(s1, RunFunctor(1)) == s2;
    ReachableStep(n, s2, EndFunctors(1));
    assert Apply(s2, EndFunctors(1)) == Pair(base, Idle(), d, s.registry);
  }

  /** One step of a run, with the state it leads to. */
  lemma Hop(n: nat, s: Sys, step: Step, t: Sys)
    requires Reachable(n, s) && Enabled(s, step) && Apply(s, step) == t
    ensures Reachable(n, t)
  {
    ReachableStep(n, s, step);
  }

  lemma WakeHappens() returns (s: Sys)
    ensures Reachable(2, s) && s == Sys([Awake([]), Idle()], [], {})
  {
    var s0 := Init(2);
    s := Sys([Awake([]), Idle()], [], {});
    assert Leads(s0, [], s0);
    assert Apply(s0, PollReturn(BASE, [])).loops == s.loops;
    Hop(2, s0, PollReturn(BASE, []), s);
  }

  lemma AcceptHappens() returns (s: Sys)
    ensures Reachable(2, s)
    ensures s == Pair(Awake([]), Idle().(pending := [Established(0)]),
                      Conn(1, 7, Connecting, false, false, New, true, []), {0})
  {
    var s1 := WakeHappens();
    var c := Conn(1, 7, Connecting, false, false, New, true, []);
    s := Pair(Awake([]), Idle().(pending := [Established(0)]), c, {0});
    assert [] + [Established(0)] == [Established(0)] && [] + [c] == [c];
    assert Apply(s1, Accept(1, 7)).loops == s.loops;
    Hop(2, s1, Accept(1, 7), s);
  }

  /** The first half: accepted, handed to its loop, UP. */
  lemma UpHappens() returns (s: Sys)
    ensures Reachable(2, s)
    ensures s == Pair(Awake([]), Idle(), Establish(Conn(1, 7, Connecting, false, false, New, true, [])), {0})
  {
    var s0 := AcceptHappens();
    var c := Conn(1, 7, Connecting, false, false, New, true, []);
    var s1 := Pair(Awake([]), Awake([Established(0)]), c, {0});
    Hop(2, s0, PollReturn(1, []), s1);
    IoTurn(2, s1, Established(0), c);
    s := Pair(Awake([]), Idle(), Establish(c), {0});
  }

  function Handling(c: ConnId, stage: nat, closing: bool): Loop {
    Awake([]).(frame := Frame(c, Mask(false, true, false, false), stage, closing))
  }

  lemma EventHappens(c: Conn)
    requires Reachable(2, Pair(Awake([]), Idle(), c, {0}))
    requires c.io == 1 && c.index == Added && c.alive
    ensures Reachable(2, Pair(Awake([]), Handling(0, 0, false), c, {0}))
  {
    var s := Pair(Awake([]), Idle(), c, {0});
    var t := Pair(Awake([]), Awake([]).(active := [0]), c, {0});
    Hop(2, s, PollReturn(1, [0]), t);
    var u := Pair(Awake([]), Handling(0, 0, false), c, {0});
    var step := BeginEvent(1, Mask(false, true, false, false));
    assert t.loops[1].active[1..] == [];
    assert Apply(t, step).loops == u.loops;
    Hop(2, t, step, u);
  }

  lemma EofHappens(c: Conn)
    requires Reachable(2, Pair(Awake([]), Handling(0, 0, false), c, {0})) && c.io == 1
    ensures Reachable(2, Pair(Awake([]), Handling(0, 2, true), Close(c), {0}))
  {
    var s := Pair(Awake([]), Handling(0, 0, false), c, {0});
    var t := Pair(Awake([]), Handling(0, 1, false), c, {0});
    Hop(2, s, OnHangup(1), t);
    Hop(2, t, OnReadable(1, true), Pair(Awake([]), Handling(0, 2, true), Close(c), {0}));
  }

  lemma CloseReachesBase(c: Conn)
    requires Reachable(2, Pair(Awake([]), Handling(0, 2, true), c, {0})) && c.io == 1
    ensures Reachable(2, Pair(Awake([RemoveInLoop(0)]), Handling(0, 3, false), c, {0}))
  {
    var base := Awake([RemoveInLoop(0)]);
    var s := Pair(Awake([]), Handling(0, 2, true), c, {0});
    var t := Pair(base, Handling(0, 2, false), c, {0});
    assert [] + [RemoveInLoop(0)] == [RemoveInLoop(0)];
    assert Apply(s, CloseCallback(1)).loops == t.loops;
    Hop(2, s, CloseCallback(1), t);
    Hop(2, t, OnWritable(1, false, false), Pair(base, Handling(0, 3, false), c, {0}));
  }

  lemma ErasureBegins(c: Conn)
    requires Reachable(2, Pair(Awake([RemoveInLoop(0)]), Handling(0, 3, false), c, {0})) && c.io == 1
    ensures Reachable(2, Pair(Loop(Running, [], NoFrame, [], [RemoveInLoop(0)], 0), Awake([]), c, {0}))
  {
    var s := Pair(Awake([RemoveInLoop(0)]), Handling(0, 3, false), c, {0});
    var t := Pair(Awake([RemoveInLoop(0)]), Awake([]), c, {0});
    Hop(2, s, EndEvent(1), t);
    Hop(2, t, SwapFunctors(BASE), Pair(Loop(Running, [], NoFrame, [], [RemoveInLoop(0)], 0), Awake([]), c, {0}));
  }

  lemma ErasureHappens(c: Conn)
    requires Reachable(2, Pair(Loop(Running, [], NoFrame, [], [RemoveInLoop(0)], 0), Awake([]), c, {0}))
    requires c.io == 1
    ensures Reachable(2, Pair(Idle(), Awake([Destroyed(0)]), c.(history := c.history + [Erased]), {}))
  {
    var e := c.(history := c.history + [Erased]);
    var s := Pair(Loop(Running, [], NoFrame, [], [RemoveInLoop(0)], 0), Awake([]), c, {0});
    var t := Pair(Loop(Running, [], NoFrame, [], [RemoveInLoop(0)], 1), Awake([Destroyed(0)]), e, {});
    assert {0} - {0} == {} && [] + [Destroyed(0)] == [Destroyed(0)];
    assert Apply(s, RunFunctor(BASE)).loops == t.loops;
    Hop(2, s, RunFunctor(BASE), t);
    Hop(2, t, EndFunctors(BASE), Pair(Idle(), Awake([Destroyed(0)]), e, {}));
  }

  lemma DestructionHappens(c: Conn)
    requires Reachable(2, Pair(Idle(), Idle(), c, {})) && c.alive
    ensures Reachable(2, Pair(Idle(), Idle(), c.(alive := false), {}))
  {
    Hop(2, Pair(Idle(), Idle(), c, {}), Destruct(0), Pair(Idle(), Idle(), c.(alive := false), {}));
  }

  /** The whole script does happen: some run takes a connection from accept to destruction. */
  lemma WholeLifeHappens() returns (s: Sys)
    ensures Reachable(2, s) && |s.conns| == 1
    ensures s.conns[0].history == SCRIPT && !s.conns[0].alive
  {
    var up := UpHappens();
    var c := up.conns[0];
    EventHappens(c);
    EofHappens(c);
    CloseReachesBase(Close(c));
    ErasureBegins(Close(c));
    ErasureHappens(Close(c));
    var e := Close(c).(history := Close(c).history + [Erased]);
    IoTurn(2, Pair(Idle(), Awake([Destroyed(0)]), e, {}), Destroyed(0), e);
    DestructionHappens(Destroy(e));
    s := Pair(Idle(), Idle(), Destroy(e).(alive := false), {});
  }
}
