/** When a half-close waits for the messages sent before it: exactly which calls of shutdown()
    make it (src/net/TcpConnection.cpp). */
module HalfClose {
  import opened Common
  import opened NetBuffer
  import opened OutputPath

  /** No half-close so far has left a message behind, in the queue or in flight to it. */
  ghost predicate Clean(c: Conn) {
    forall k :: k in c.cuts && k.state == Disconnecting ==>
      Sends(k.queue) == [] && k.inFlight == multiset{}
  }

  /** None does, however the run goes on. */
  ghost predicate AlwaysClean(c: Conn) {
    forall ops, d :: Leads(c, ops, d) ==> Clean(d)
  }

  // ----- before shutdown() -----

  /** A connection that has not been shut down has not half-closed and is not about to. */
  ghost predicate NotYetShut(c: Conn) {
    c.state in {Connecting, Connected} ==> c.cuts == [] && ShutdownTask !in c.queue && !c.shutting
  }

  lemma NotYetShutTask(c: Conn, res: WriteResult)
    requires NotYetShut(c) && Enabled(c, OpRunTask(res))
    ensures NotYetShut(RunTask(c, res))
  {
    var t := c.queue[0];
    assert t in c.queue;
    if t.SendTask? {
      SendInLoopFrame(c.(queue := c.queue[1..]), t.msg, res);
    }
  }

  lemma NotYetShutKeeps(c: Conn, op: Op)
    requires NotYetShut(c) && Enabled(c, op)
    ensures NotYetShut(Apply(c, op))
  {
    if op.OpRunTask? {
      NotYetShutTask(c, op.res);
    }
  }

  lemma {:induction false} NotYetShutRun(start: Conn, ops: seq<Op>, c: Conn)
    requires NotYetShut(start) && Leads(start, ops, c)
    ensures NotYetShut(c)
    decreases |ops|
  {
    if ops != [] {
      NotYetShutKeeps(start, ops[0]);
      NotYetShutRun(Apply(start, ops[0]), ops[1..], c);
    }
  }

  // ----- calls that wait -----

  /** In front of a queued message there is nothing but empty messages: running the queue up to
      it neither blocks nor half-closes. */
  predicate Paced(queue: seq<Task>) {
    forall i, j :: 0 <= i < j < |queue| && queue[j].SendTask? ==> queue[i] == SendTask("")
  }

  lemma {:induction false} SendsIff(queue: seq<Task>)
    ensures Sends(queue) != [] <==> exists j :: 0 <= j < |queue| && queue[j].SendTask?
    decreases |queue|
  {
    if queue != [] {
      SendsIff(queue[1..]);
      if j :| 0 <= j < |queue| && queue[j].SendTask? {
        assert j > 0 ==> queue[1..][j - 1].SendTask?;
      }
    }
  }

  /** Shut down, with nothing in flight, and no half-close can come before the last message. */
  ghost predicate Waits(c: Conn) {
    && c.state in {Disconnecting, Disconnected} && Clean(c) && c.inFlight == multiset{}
    && (Sends(c.queue) == []
        || (Paced(c.queue) && !c.writing && c.output == "" && c.loop in {Free, InSend("")}))
  }

  lemma PacedTail(queue: seq<Task>)
    requires Paced(queue) && Sends(queue) != []
    ensures queue != [] && queue[0].SendTask? && Paced(queue[1..])
    ensures queue[0].msg == "" || Sends(queue[1..]) == []
  {
    SendsIff(queue);
    SendsIff(queue[1..]);
    var j :| 0 <= j < |queue| && queue[j].SendTask?;
    assert j > 0 ==> queue[0] == SendTask("");
    if Sends(queue[1..]) != [] {
      var k :| 0 <= k < |queue[1..]| && queue[1..][k].SendTask?;
      assert queue[k + 1].SendTask?;
    }
  }

  lemma WaitsTask(c: Conn, res: WriteResult)
    requires Waits(c) && Enabled(c, OpRunTask(res))
    ensures Waits(RunTask(c, res))
  {
    if Sends(c.queue) == [] {
      assert !c.queue[0].SendTask?;
    } else {
      PacedTail(c.queue);
    }
  }

  lemma WaitsLand(c: Conn)
    requires Waits(c) && c.shutting
    ensures Waits(LandShutdown(c))
  {
    SendsSnoc(c.queue, ShutdownTask);
    assert Sends(c.queue) + [] == Sends(c.queue);
  }

  lemma WaitsSend(c: Conn, res: WriteResult)
    requires Waits(c) && Enabled(c, OpSendRest(res))
    ensures Waits(SendRest(c, res))
  {
    SendInLoopFrame(c.(loop := Free), c.loop.msg, res);
  }

  lemma WaitsDrain(c: Conn, res: WriteResult)
    requires Waits(c)
    ensures Enabled(c, OpWriteReady(res)) ==> Waits(HandleWriteTest(c, res))
    ensures Enabled(c, OpWriteRest) ==> Waits(HandleWriteRest(c))
  {
  }

  lemma WaitsKeeps(c: Conn, op: Op)
    requires Waits(c) && Enabled(c, op)
    ensures Waits(Apply(c, op))
  {
    match op
    case OpRunTask(res) => WaitsTask(c, res);
    case OpLandShutdown => WaitsLand(c);
    case OpSendRest(res) => WaitsSend(c, res);
    case OpWriteReady(res) => WaitsDrain(c, res);
    case OpWriteRest => WaitsDrain(c, WouldBlock);
    case _ =>
  }

  lemma {:induction false} WaitsRun(start: Conn, ops: seq<Op>, c: Conn)
    requires Waits(start) && Leads(start, ops, c)
    ensures Clean(c)
    decreases |ops|
  {
    if ops != [] {
      WaitsKeeps(start, ops[0]);
      WaitsRun(Apply(start, ops[0]), ops[1..], c);
    }
  }

  // ----- calls that do not -----

  /** A message is in the queue or in flight. */
  predicate Waiting(c: Conn) {
    Sends(c.queue) != [] || c.inFlight != multiset{}
  }

  /** The loop thread, having emptied the output buffer, finds the connection shut down. */
  lemma TestLeavesBehind(c: Conn) returns (ops: seq<Op>, d: Conn)
    requires c.state == Disconnecting && c.loop == InDrain && !c.writing && Waiting(c)
    ensures Leads(c, ops, d) && !Clean(d)
  {
    d := HandleWriteRest(c);
    ops := [] + [OpWriteRest];
    OutputPath.LeadsSnoc(c, [], c, OpWriteRest);
    assert d.cuts[|d.cuts| - 1] in d.cuts;
  }

  /** Pending bytes drain and the half-close follows. */
  lemma DrainLeavesBehind(c: Conn) returns (ops: seq<Op>, d: Conn)
    requires c.state == Disconnecting && c.loop == Free && c.writing && c.output != "" && Waiting(c)
    ensures Leads(c, ops, d) && !Clean(d)
  {
    var op := OpWriteReady(Wrote(|c.output|));
    var more;
    more, d := TestLeavesBehind(Apply(c, op));
    ops := [op] + more;
    assert ops[1..] == more;
  }

  /** Messages and then the half-close, in the queue. */
  predicate EndsInShutdown(queue: seq<Task>) {
    queue != [] && forall i :: 0 <= i < |queue| ==> (queue[i] == ShutdownTask <==> i == |queue| - 1)
  }

  /** Running the queue out: a message with bytes blocks and then drains ahead of another one,
      or the half-close is reached with a message still in flight. */
  lemma {:induction false} QueueLeavesBehind(c: Conn) returns (ops: seq<Op>, d: Conn)
    requires c.state == Disconnecting && c.loop == Free && !c.writing && c.output == ""
    requires EndsInShutdown(c.queue)
    requires !Paced(c.queue) || c.inFlight != multiset{}
    ensures Leads(c, ops, d) && !Clean(d)
    decreases |c.queue|
  {
    var rest := c.queue[1..];
    var op := OpRunTask(WouldBlock);
    var u := Apply(c, op);
    var more;
    if c.queue[0] == ShutdownTask {
      assert c.queue == [ShutdownTask];
      more, d := [], u;
      assert d.cuts[|d.cuts| - 1] in d.cuts;
    } else if c.queue[0].msg == "" {
      PacedCons(c.queue);
      more, d := QueueLeavesBehind(u);
    } else {
      SendsIff(rest);
      assert !Paced(c.queue) ==> Sends(rest) != [] by {
        NotPaced(c.queue);
      }
      more, d := DrainLeavesBehind(u);
    }
    ops := [op] + more;
    assert ops[1..] == more;
  }

  /** An empty message in front changes nothing. */
  lemma PacedCons(queue: seq<Task>)
    requires queue != [] && queue[0] == SendTask("")
    ensures Paced(queue[1..]) ==> Paced(queue)
  {
    if Paced(queue[1..]) {
      forall i, j | 0 <= i < j < |queue| && queue[j].SendTask? ensures queue[i] == SendTask("") {
        assert queue[1..][j - 1] == queue[j];
        assert i > 0 ==> queue[1..][i - 1] == queue[i];
      }
    }
  }

  lemma NotPaced(queue: seq<Task>)
    requires queue != []
    ensures !Paced(queue) ==> exists j :: 0 <= j < |queue[1..]| && queue[1..][j].SendTask?
  {
    if !Paced(queue) {
      var i, j :| 0 <= i < j < |queue| && queue[j].SendTask? && queue[i] != SendTask("");
      assert queue[1..][j - 1].SendTask?;
    }
  }

  // ----- the exact condition -----

  /** The queue at the call, for a connection that is still connected: every message but the
      last one is empty. */
  predicate OnlyLastHasBytes(queue: seq<Task>) {
    forall i :: 0 <= i < |queue| - 1 ==> queue[i] == SendTask("")
  }

  lemma PacedIff(queue: seq<Task>)
    requires ShutdownTask !in queue
    ensures Paced(queue) <==> OnlyLastHasBytes(queue)
    ensures Paced(queue + [ShutdownTask]) <==> Paced(queue)
    ensures EndsInShutdown(queue + [ShutdownTask])
    ensures Sends(queue) == [] <==> queue == []
  {
    assert forall i :: 0 <= i < |queue| ==> queue[i] in queue;
    SendsIff(queue);
    if Paced(queue) && queue != [] {
      assert queue[|queue| - 1].SendTask?;
    }
    var longer := queue + [ShutdownTask];
    assert forall i :: 0 <= i < |queue| ==> longer[i] == queue[i];
  }

  /** No send() of another thread is between its test and its push; and no message is queued,
      or else the call comes from another thread while no bytes are pending or about to be, the
      loop thread is not about to test state_, and at most the last queued message has bytes. */
  predicate CallWaits(c: Conn, onLoop: bool) {
    && c.inFlight == multiset{}
    && (c.queue == []
        || (!onLoop && !c.writing && c.loop in {Free, InSend("")} && OnlyLastHasBytes(c.queue)))
  }

  /** A free loop thread and a half-close on its way to the queue. */
  lemma FreeLeavesBehind(c: Conn) returns (ops: seq<Op>, d: Conn)
    requires c.state == Disconnecting && c.loop == Free && c.shutting && (c.writing <==> c.output != "")
    requires ShutdownTask !in c.queue && Waiting(c)
    requires c.writing || c.inFlight != multiset{} || !OnlyLastHasBytes(c.queue)
    ensures Leads(c, ops, d) && !Clean(d)
  {
    if c.writing {
      ops, d := DrainLeavesBehind(c);
    } else {
      var more;
      PacedIff(c.queue);
      more, d := QueueLeavesBehind(LandShutdown(c));
      ops := [OpLandShutdown] + more;
      assert ops[1..] == more;
    }
  }

  /** The loop thread ends the send() it is in, on a blocked socket. */
  lemma SendEnds(c: Conn)
    requires c.state == Disconnecting && c.loop.InSend? && (c.writing <==> c.output != "")
    ensures var d := SendRest(c, WouldBlock);
            && d == c.(loop := Free, writing := d.writing, output := d.output, notices := d.notices,
                       accepted := d.accepted)
            && (d.writing <==> d.output != "") && (d.writing <==> c.writing || c.loop.msg != "")
  {
  }

  /** A shutdown() of another thread has just set the state. */
  lemma ForeignLeavesBehind(c: Conn) returns (ops: seq<Op>, d: Conn)
    requires c.state == Disconnecting && c.shutting && (c.writing <==> c.output != "")
    requires c.loop == InDrain ==> !c.writing
    requires ShutdownTask !in c.queue && !CallWaits(c, false)
    ensures Leads(c, ops, d) && !Clean(d)
  {
    PacedIff(c.queue);
    match c.loop
    case InDrain => ops, d := TestLeavesBehind(c);
    case Free => ops, d := FreeLeavesBehind(c);
    case InSend(_) =>
      var more;
      SendEnds(c);
      more, d := FreeLeavesBehind(SendRest(c, WouldBlock));
      ops := [OpSendRest(WouldBlock)] + more;
      assert ops[1..] == more;
  }

  /** Any other call can leave a message behind, and how. */
  lemma ShutdownLeavesBehind(c: Conn, onLoop: bool) returns (ops: seq<Op>, d: Conn)
    requires Inv(c) && NotYetShut(c) && c.state == Connected && (onLoop ==> c.loop == Free)
    requires !CallWaits(c, onLoop)
    ensures Leads(Shutdown(c, onLoop), ops, d) && !Clean(d)
  {
    var u := Shutdown(c, onLoop);
    PacedIff(c.queue);
    if !onLoop {
      ops, d := ForeignLeavesBehind(u);
    } else if c.writing {
      ops, d := DrainLeavesBehind(u);
    } else {
      ops, d := [], u;
      assert d.cuts[0] in d.cuts;
    }
  }

  lemma ShutdownWaits(c: Conn, onLoop: bool)
    requires Inv(c) && NotYetShut(c) && c.state == Connected && CallWaits(c, onLoop)
    ensures Waits(Shutdown(c, onLoop))
  {
    PacedIff(c.queue);
  }

  /** When shutdown() is called on a connected connection, no half-close will ever leave a
      message behind that send() has let through, whatever happens afterwards, if and only if
      no send() of another thread is between its test of state_ and its push, and moreover no
      message is queued, or the call comes from another thread, finds no bytes pending or about
      to be, does not find the loop thread about to test state_ after a drain, and at most the
      last queued message has bytes. */
  lemma ShutdownWaitsIff(config: Config, ops: seq<Op>, c: Conn, onLoop: bool)
    requires Leads(Fresh(config), ops, c) && c.state == Connected && Enabled(c, OpShutdown(onLoop))
    ensures AlwaysClean(Shutdown(c, onLoop)) <==>
            && c.inFlight == multiset{}
            && (c.queue == []
                || (!onLoop && !c.writing && c.loop in {Free, InSend("")} && OnlyLastHasBytes(c.queue)))
  {
    OutputPath.RunKeeps(Fresh(config), ops, c);
    NotYetShutRun(Fresh(config), ops, c);
    if CallWaits(c, onLoop) {
      ShutdownWaits(c, onLoop);
      forall more, d | Leads(Shutdown(c, onLoop), more, d) ensures Clean(d) {
        WaitsRun(Shutdown(c, onLoop), more, d);
      }
    } else {
      var more, d := ShutdownLeavesBehind(c, onLoop);
    }
  }
}
