/** What each operation of a connection does, stated on what can be observed: the bytes on the
    wire, the callbacks made and the half-closes (src/net/TcpConnection.cpp). Together with
    OutputPath, which says what every operation keeps, this says what each of them is for. */
module OutputEffects {
  import opened Common
  import opened Strings
  import opened NetBuffer
  import opened OutputPath

  // ----- sendInLoop -----

  /** The bytes a direct ::write takes: only a connection with nothing pending makes one. */
  lemma SendMovesBytes(c: Conn, msg: string, res: WriteResult)
    requires Fits(res, |msg|) && c.state != Disconnected
    ensures var d := SendInLoop(c, msg, res);
            && |d.wire| == |c.wire| + (if !c.writing && c.output == "" && res.Wrote? then res.n else 0)
            && c.wire <= d.wire
            && (!res.PeerGone? || c.writing || c.output != "" ==>
                  d.wire + d.output == c.wire + c.output + msg)
  {
    if !GivesUp(c, res) {
      SendInLoopBytes(c, msg, res);
      SplitMessage(c.wire, c.output, msg, DirectBytes(c, res));
    }
  }

  /** A message is given up if and only if the connection is disconnected, or its direct ::write
      finds the peer gone; then nothing of it goes anywhere. */
  lemma RefusedIff(c: Conn, msg: string, res: WriteResult)
    requires Fits(res, |msg|)
    ensures var d := SendInLoop(c, msg, res);
            && (d.refused == c.refused + [msg] <==>
                  c.state == Disconnected || (!c.writing && c.output == "" && res.PeerGone?))
            && (d.refused == c.refused <==> d.accepted == c.accepted + [msg])
            && (d.refused != c.refused ==> d == c.(refused := c.refused + [msg]))
  {
    assert c.refused + [msg] != c.refused;
    assert c.accepted + [msg] != c.accepted;
  }

  /** One more write-complete callback has been queued. */
  ghost predicate Completes(c: Conn, d: Conn) {
    |d.notices| > |c.notices| && d.notices[|c.notices|] == WriteComplete
  }

  /** sendInLoop queues the write-complete callback if and only if it is wanted and the kernel
      took the whole message at once. */
  lemma SendCompletesIff(c: Conn, msg: string, res: WriteResult)
    requires Fits(res, |msg|) && c.state != Disconnected
    ensures var d := SendInLoop(c, msg, res);
            Completes(c, d) <==>
            c.config.writeComplete && !c.writing && c.output == "" && res.Wrote? && d.wire == c.wire + msg
  {
    var d := SendInLoop(c, msg, res);
    if !GivesUp(c, res) {
      SendInLoopBytes(c, msg, res);
      if Direct(c) && res.Wrote? {
        assert d.wire == c.wire + msg[..res.n];
        assert res.n == |msg| ==> msg[..res.n] == msg;
        assert d.wire == c.wire + msg ==> |d.wire| == |c.wire| + |msg|;
      }
    }
  }

  /** The high-water callback is queued if and only if it is wanted and the pending bytes go from
      below the mark to the mark or above, with their new number. */
  lemma SendHighWaterIff(c: Conn, msg: string, res: WriteResult, n: nat)
    requires Fits(res, |msg|)
    ensures var d := SendInLoop(c, msg, res);
            (exists i :: |c.notices| <= i < |d.notices| && d.notices[i] == HighWater(n)) <==>
            c.config.highWater && |c.output| < c.config.highWaterMark <= |d.output| == n
  {
    var d := SendInLoop(c, msg, res);
    if d.notices != c.notices {
      assert d.notices[|c.notices|] in d.notices;
    }
  }

  /** sendInLoop queues nothing else, and takes nothing back. */
  lemma SendNotices(c: Conn, msg: string, res: WriteResult)
    requires Fits(res, |msg|)
    ensures var d := SendInLoop(c, msg, res);
            c.notices <= d.notices && |d.notices| <= |c.notices| + 1
  {
  }

  /** send() lets a message through if and only if the connection is connected: not before UP, and
      not after shutdown(). */
  lemma SentIff(c: Conn, op: Op)
    requires Enabled(c, op)
    ensures Apply(c, op).sent == c.sent + if op.OpSend? && c.state == Connected then [op.msg] else []
  {
    assert c.sent + [] == c.sent;
    if op.OpRunTask? && c.queue[0].SendTask? {
      SendInLoopFrame(c.(queue := c.queue[1..]), c.queue[0].msg, op.res);
    } else if op.OpSendRest? {
      SendInLoopFrame(c.(loop := Free), c.loop.msg, op.res);
    }
  }

  // ----- handleWrite -----

  /** A write-ready event moves what the kernel takes from the front of the output buffer to the
      end of the wire, if write interest is on; and queues the write-complete callback if and
      only if it is wanted and the last pending bytes have gone. */
  lemma DrainEffect(c: Conn, res: WriteResult)
    requires Fits(res, |c.output|)
    ensures var d := HandleWriteTest(c, res);
            && |d.wire| == |c.wire| + (if c.writing && res.Wrote? then res.n else 0)
            && d.wire + d.output == c.wire + c.output && c.wire <= d.wire
            && (d.notices == c.notices + [WriteComplete] <==>
                  c.config.writeComplete && c.writing && res.Wrote? && res.n > 0 && d.output == "")
            && (d.notices == c.notices + [WriteComplete] || d.notices == c.notices)
            && d.input == c.input && d.events == c.events && d.state == c.state && d.cuts == c.cuts
  {
    if res.Wrote? {
      assert c.output == c.output[..res.n] + c.output[res.n..];
      Regroup3(c.wire, c.output[..res.n], c.output[res.n..]);
    }
    assert c.notices + [] == c.notices && c.notices + [WriteComplete] != c.notices;
  }

  // ----- half-closes -----

  /** An operation half-closes if and only if it is shutdown() on the loop thread or a queued
      shutdown, or the test of a connection that is shut down after a drain; each with write
      interest off, and shutdown() only when connected. It does so once. */
  ghost predicate CutsNow(c: Conn, op: Op) {
    && !c.writing
    && ((op == OpShutdown(true) && c.state == Connected)
        || (op.OpRunTask? && c.queue != [] && c.queue[0] == ShutdownTask)
        || (op == OpWriteRest && c.state == Disconnecting))
  }

  lemma CutsIff(c: Conn, op: Op)
    requires Enabled(c, op)
    ensures |Apply(c, op).cuts| == |c.cuts| + if CutsNow(c, op) then 1 else 0
    ensures c.cuts <= Apply(c, op).cuts
  {
    if op.OpRunTask? && c.queue[0].SendTask? {
      SendInLoopFrame(c.(queue := c.queue[1..]), c.queue[0].msg, op.res);
    } else if op.OpSendRest? {
      SendInLoopFrame(c.(loop := Free), c.loop.msg, op.res);
    }
  }

  /** A connection that is shut down and has not half-closed is about to: bytes are pending, or
      have just drained, or the half-close is queued or on its way to the queue. */
  ghost predicate Owed(c: Conn) {
    && (c.state == Disconnecting && c.cuts == [] ==>
          c.writing || c.loop == InDrain || c.shutting || ShutdownTask in c.queue)
    && (c.loop.InSend? && c.state == Disconnecting && c.cuts == [] ==>
          c.writing || c.shutting || ShutdownTask in c.queue)
  }

  lemma OwedTask(c: Conn, res: WriteResult)
    requires Owed(c) && Enabled(c, OpRunTask(res))
    ensures Owed(RunTask(c, res))
  {
    var t := c.queue[0];
    assert c.queue == [t] + c.queue[1..];
    if t.SendTask? {
      SendKeepsInterest(c.(queue := c.queue[1..]), t.msg, res);
      SendInLoopFrame(c.(queue := c.queue[1..]), t.msg, res);
    }
  }

  lemma SendKeepsInterest(c: Conn, msg: string, res: WriteResult)
    requires Fits(res, |msg|)
    ensures c.writing ==> SendInLoop(c, msg, res).writing
  {
  }

  lemma OwedKeeps(c: Conn, op: Op)
    requires Owed(c) && Enabled(c, op)
    ensures Owed(Apply(c, op))
  {
    match op
    case OpRunTask(res) => OwedTask(c, res);
    case OpSendRest(res) =>
      SendKeepsInterest(c.(loop := Free), c.loop.msg, res);
      SendInLoopFrame(c.(loop := Free), c.loop.msg, res);
    case _ =>
  }

  lemma {:induction false} OwedRun(start: Conn, ops: seq<Op>, c: Conn)
    requires Owed(start) && Leads(start, ops, c)
    ensures Owed(c)
    decreases |ops|
  {
    if ops != [] {
      OwedKeeps(start, ops[0]);
      OwedRun(Apply(start, ops[0]), ops[1..], c);
    }
  }

  /** Over every run, whichever thread called shutdown(), a connection in kDisconnecting has
      half-closed, or is about to. */
  lemma HalfCloseIsOwed(config: Config, ops: seq<Op>, c: Conn)
    requires Leads(Fresh(config), ops, c) && c.state == Disconnecting && c.cuts == []
    ensures c.writing || c.loop == InDrain || c.shutting || ShutdownTask in c.queue
  {
    OwedRun(Fresh(config), ops, c);
  }

  // ----- input and connection callbacks -----

  /** What operations have received. */
  function Received(ops: seq<Op>): seq<string> {
    if ops == [] then []
    else (if ops[0].OpRead? && ops[0].read.Received? then [ops[0].read.bytes] else []) + Received(ops[1..])
  }

  /** What one operation calls back, and what it receives. */
  lemma CallbacksMade(c: Conn, op: Op)
    requires Enabled(c, op)
    ensures var d := Apply(c, op);
            && d.events == c.events
               + (if op.OpEstablish? then [Up]
                  else if op.OpClose? || op == OpRead(ReadResult.Received("")) then [Down, CloseCallback]
                  else if op.OpRead? && op.read.Received? then [Message]
                  else if op.OpDestroy? && c.state == Connected then [Down]
                  else [])
            && d.input == c.input + if op.OpRead? && op.read.Received? then op.read.bytes else ""
  {
    assert c.events + [] == c.events && c.input + "" == c.input;
    if op.OpRunTask? && c.queue[0].SendTask? {
      SendKeepsInput(c.(queue := c.queue[1..]), c.queue[0].msg, op.res);
    } else if op.OpSendRest? {
      SendKeepsInput(c.(loop := Free), c.loop.msg, op.res);
    }
  }

  lemma SendKeepsInput(c: Conn, msg: string, res: WriteResult)
    requires Fits(res, |msg|)
    ensures var d := SendInLoop(c, msg, res);
            d.input == c.input && d.events == c.events && d.reading == c.reading
  {
  }

  lemma {:induction false} InputGrows(start: Conn, ops: seq<Op>, c: Conn)
    requires Leads(start, ops, c)
    ensures c.input == start.input + Flatten(Received(ops))
    decreases |ops|
  {
    if ops == [] {
      assert start.input + "" == start.input;
    } else {
      CallbacksMade(start, ops[0]);
      InputGrows(Apply(start, ops[0]), ops[1..], c);
      FlattenAppend(if ops[0].OpRead? && ops[0].read.Received? then [ops[0].read.bytes] else [], Received(ops[1..]));
      if ops[0].OpRead? && ops[0].read.Received? {
        FlattenSnoc([], ops[0].read.bytes);
        assert [] + [ops[0].read.bytes] == [ops[0].read.bytes];
        Regroup3(start.input, ops[0].read.bytes, Flatten(Received(ops[1..])));
      } else {
        assert start.input + "" == start.input;
      }
    }
  }

  /** The callbacks of a connection over its life: UP, then messages, then DOWN. */
  ghost predicate LifeScript(c: Conn) {
    && (c.state == Connecting <==> c.events == [])
    && (c.events != [] ==> c.events[0] == Up && forall i :: 0 < i < |c.events| ==> c.events[i] != Up)
    && (c.reading ==> Down !in c.events && c.events != [])
    && (c.state in {Connected, Disconnecting} ==> c.reading)
    && (c.state in {Connecting, Disconnected} ==> !c.reading)
    && (c.state == Disconnected ==> !c.writing)
    && (forall i, j :: 0 <= i < j < |c.events| && c.events[i] == Down ==> c.events[j] == CloseCallback)
  }

  /** What one operation does to the state and to read interest; and a connection that goes down
      has no write interest, nor gets it later. */
  lemma LifeMoves(c: Conn, op: Op)
    requires Enabled(c, op)
    ensures var d := Apply(c, op);
            && d.reading == (if op.OpEstablish? then true
                             else if op.OpClose? || op == OpRead(ReadResult.Received(""))
                                     || (op.OpDestroy? && c.state == Connected) then false
                             else c.reading)
            && (if op.OpEstablish? then d.state == Connected
                else if op.OpClose? || op == OpRead(ReadResult.Received(""))
                        || (op.OpDestroy? && c.state == Connected) then d.state == Disconnected
                else d.state == if op.OpShutdown? && c.state == Connected then Disconnecting else c.state)
            && (d.state == Disconnected && d.writing ==> c.state == Disconnected && c.writing)
  {
    if op.OpRunTask? && c.queue[0].SendTask? {
      SendInLoopFrame(c.(queue := c.queue[1..]), c.queue[0].msg, op.res);
      SendKeepsInput(c.(queue := c.queue[1..]), c.queue[0].msg, op.res);
    } else if op.OpSendRest? {
      SendInLoopFrame(c.(loop := Free), c.loop.msg, op.res);
      SendKeepsInput(c.(loop := Free), c.loop.msg, op.res);
    }
  }

  /** The script only looks at state, read interest and callbacks. */
  lemma ScriptMoves(c: Conn, d: Conn, more: seq<Event>)
    requires LifeScript(c) && d.events == c.events + more
    requires || (more == [] && d.reading == c.reading
                 && (d.state == c.state || (c.state == Connected && d.state == Disconnecting)))
             || (more == [Up] && c.state == Connecting && d.state == Connected && d.reading)
             || (more == [Message] && c.reading && d.reading && d.state == c.state)
             || (more in {[Down], [Down, CloseCallback]} && c.reading && !d.reading && d.state == Disconnected)
    requires d.state == Disconnected && d.writing ==> c.state == Disconnected && c.writing
    ensures LifeScript(d)
  {
  }

  lemma LifeScriptKeeps(c: Conn, op: Op)
    requires LifeScript(c) && Enabled(c, op)
    ensures LifeScript(Apply(c, op))
  {
    CallbacksMade(c, op);
    LifeMoves(c, op);
    var more := if op.OpEstablish? then [Up]
                else if op.OpClose? || op == OpRead(ReadResult.Received("")) then [Down, CloseCallback]
                else if op.OpRead? && op.read.Received? then [Message]
                else if op.OpDestroy? && c.state == Connected then [Down]
                else [];
    ScriptMoves(c, Apply(c, op), more);
  }

  lemma {:induction false} LifeScriptRun(start: Conn, ops: seq<Op>, c: Conn)
    requires LifeScript(start) && Leads(start, ops, c)
    ensures LifeScript(c)
    decreases |ops|
  {
    if ops != [] {
      LifeScriptKeeps(start, ops[0]);
      LifeScriptRun(Apply(start, ops[0]), ops[1..], c);
    }
  }

  /** Over every run, the input buffer holds everything received, in order; the first callback is
      UP and there is no other; nothing but the close callback follows DOWN; a connection reads
      if and only if it is up, and one that is down has no interest left. */
  lemma InputAndLife(config: Config, ops: seq<Op>, c: Conn)
    requires Leads(Fresh(config), ops, c)
    ensures c.input == Flatten(Received(ops))
    ensures c.state == Connecting <==> c.events == []
    ensures c.events != [] ==> c.events[0] == Up && forall i :: 0 < i < |c.events| ==> c.events[i] != Up
    ensures forall i, j :: 0 <= i < j < |c.events| && c.events[i] == Down ==> c.events[j] == CloseCallback
    ensures c.reading <==> c.state in {Connected, Disconnecting}
    ensures c.reading ==> Down !in c.events
    ensures c.state == Disconnected ==> !c.writing
  {
    InputGrows(Fresh(config), ops, c);
    assert "" + Flatten(Received(ops)) == Flatten(Received(ops));
    LifeScriptRun(Fresh(config), ops, c);
  }
}
