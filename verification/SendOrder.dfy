/** For callers on the loop thread: the order of the messages sent is the order on the wire
    (src/net/TcpConnection.cpp). */
module SendOrder {
  import opened Common
  import opened Strings
  import opened NetBuffer
  import opened OutputPath

  /** `sent` is `accepted` and `refused` merged, each keeping its order. */
  ghost predicate Merges(sent: seq<string>, accepted: seq<string>, refused: seq<string>)
    decreases |sent|
  {
    if sent == [] then accepted == [] && refused == []
    else
      var n, a, r := |sent| - 1, |accepted| - 1, |refused| - 1;
      || (a >= 0 && accepted[a] == sent[n] && Merges(sent[..n], accepted[..a], refused))
      || (r >= 0 && refused[r] == sent[n] && Merges(sent[..n], accepted, refused[..r]))
  }

  lemma MergesSnoc(sent: seq<string>, accepted: seq<string>, refused: seq<string>, msg: string)
    requires Merges(sent, accepted, refused)
    ensures Merges(sent + [msg], accepted + [msg], refused)
    ensures Merges(sent + [msg], accepted, refused + [msg])
  {
    assert (sent + [msg])[..|sent|] == sent;
    assert (accepted + [msg])[..|accepted|] == accepted;
    assert (refused + [msg])[..|refused|] == refused;
  }

  lemma {:induction false} NothingRefused(sent: seq<string>, accepted: seq<string>)
    requires Merges(sent, accepted, [])
    ensures accepted == sent
    decreases |sent|
  {
    if sent != [] {
      var n := |sent| - 1;
      NothingRefused(sent[..n], accepted[..|accepted| - 1]);
      assert sent == sent[..n] + [sent[n]];
    }
  }

  /** The messages sent, without the one the loop thread is sending just now. */
  function Dealt(c: Conn): seq<string> {
    if c.loop.InSend? && c.sent != [] then c.sent[..|c.sent| - 1] else c.sent
  }

  ghost predicate InOrder(c: Conn) {
    && c.queue == [] && c.inFlight == multiset{} && !c.shutting
    && (c.loop.InSend? ==> c.sent != [] && c.sent[|c.sent| - 1] == c.loop.msg)
    && Merges(Dealt(c), c.accepted, c.refused)
  }

  lemma SendEndsInOrder(c: Conn, res: WriteResult)
    requires InOrder(c) && Enabled(c, OpSendRest(res))
    ensures InOrder(SendRest(c, res))
  {
    var before, msg := Dealt(c), c.loop.msg;
    var d := SendRest(c, res);
    SendInLoopFrame(c.(loop := Free), msg, res);
    assert d.sent == before + [msg] && Dealt(d) == d.sent;
    if GivesUp(c.(loop := Free), res) {
      MergesSnoc(before, c.accepted, c.refused, msg);
      assert Merges(before + [msg], c.accepted, c.refused + [msg]);
    } else {
      MergesSnoc(before, c.accepted, c.refused, msg);
      assert Merges(before + [msg], c.accepted + [msg], c.refused);
    }
  }

  lemma StepKeepsOrder(c: Conn, op: Op)
    requires InOrder(c) && Enabled(c, op)
    requires op.OpSend? || op.OpShutdown? ==> op.onLoop
    ensures InOrder(Apply(c, op))
  {
    if op.OpSendRest? {
      SendEndsInOrder(c, op.res);
    } else if op.OpSend? {
      assert (c.sent + [op.msg])[..|c.sent|] == c.sent;
    }
  }

  lemma {:induction false} RunKeepsOrder(start: Conn, ops: seq<Op>, c: Conn)
    requires InOrder(start) && Leads(start, ops, c) && LoopThreadOnly(ops)
    ensures InOrder(c)
    decreases |ops|
  {
    if ops != [] {
      StepKeepsOrder(start, ops[0]);
      RunKeepsOrder(Apply(start, ops[0]), ops[1..], c);
    }
  }

  /** Over every run with callers on the loop thread, the accepted messages are the sent ones
      without the refused ones, in the order sent, once the loop thread has left send(); so with
      nothing refused, the wire followed by the output buffer is everything sent, in order. */
  lemma SentInOrder(config: Config, ops: seq<Op>, c: Conn)
    requires Leads(Fresh(config), ops, c) && LoopThreadOnly(ops)
    ensures Merges(Dealt(c), c.accepted, c.refused)
    ensures !c.loop.InSend? ==> Dealt(c) == c.sent
    ensures c.loop.InSend? ==> c.sent == Dealt(c) + [c.loop.msg]
    ensures c.refused == [] ==> c.wire + c.output == Flatten(Dealt(c))
  {
    RunKeepsOrder(Fresh(config), ops, c);
    OutputPath.RunKeeps(Fresh(config), ops, c);
    if c.refused == [] {
      NothingRefused(Dealt(c), c.accepted);
    }
  }
}
