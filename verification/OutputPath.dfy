/** The output path of a TCP connection as a value: write directly or queue, drain on
    write-ready events, and close the sending half only when nothing is pending
    (src/net/TcpConnection.cpp). Kernel results and the calling thread are inputs, so a
    list of operations is one interleaving of callers, loop and kernel. */
module OutputPath {
  import opened Common
  import opened Strings
  import opened NetBuffer

  /** Work other threads queued on the connection's loop, oldest first. */
  datatype Task = SendTask(msg: string) | ShutdownTask

  /** Callbacks handed to the loop. */
  datatype Notice = WriteComplete | HighWater(size: nat)

  datatype Event = Up | Down | CloseCallback | Message

  /** The connection at the moment of one ::shutdown(SHUT_WR). */
  datatype Cut = Cut(state: ConnState, wire: string, output: string, sent: seq<string>,
                     accepted: seq<string>, refused: seq<string>, queue: seq<Task>,
                     inFlight: multiset<string>)

  /** Where the loop thread is: between two calls into this connection; in send(), past its
      test of state_; or in handleWrite, having emptied the output buffer, before its test of
      state_. Other threads may change state_ just there. */
  datatype LoopAt = Free | InSend(msg: string) | InDrain

  datatype Config = Config(writeComplete: bool, highWater: bool, highWaterMark: nat)

  /** `inFlight` are the messages of send() calls of other threads that are past their test of
      state_ but have yet to push to the queue, in any order; `shutting` says the same of a
      shutdown() call, past its check and set. `wire` is what the kernel took, in order; `sent`
      are the messages `send` let through, `accepted` the ones `sendInLoop` took on and `refused`
      the ones it gave up (disconnected, or the peer is gone). */
  datatype Conn = Conn(config: Config, state: ConnState, reading: bool, writing: bool,
                       input: string, output: string, wire: string,
                       queue: seq<Task>, inFlight: multiset<string>, shutting: bool, loop: LoopAt,
                       notices: seq<Notice>, events: seq<Event>,
                       sent: seq<string>, accepted: seq<string>, refused: seq<string>,
                       cuts: seq<Cut>)

  function Fresh(config: Config): Conn {
    Conn(config, Connecting, false, false, "", "", "", [], multiset{}, false, Free, [], [], [], [], [], [])
  }

  function CutOf(c: Conn): Cut {
    Cut(c.state, c.wire, c.output, c.sent, c.accepted, c.refused, c.queue, c.inFlight)
  }

  // ----- the operations -----

  /** The kernel never takes more bytes than it was offered. */
  predicate Fits(res: WriteResult, offered: nat) {
    res.Wrote? ==> res.n <= offered
  }

  /** sendInLoop tries ::write itself only when nothing is pending. */
  predicate Direct(c: Conn) {
    !c.writing && c.output == ""
  }

  predicate GivesUp(c: Conn, res: WriteResult) {
    c.state == Disconnected || (Direct(c) && res.PeerGone?)
  }

  function DirectBytes(c: Conn, res: WriteResult): nat {
    if Direct(c) && res.Wrote? then res.n else 0
  }

  function WriteDirectly(c: Conn, msg: string, res: WriteResult): Conn
    requires Fits(res, |msg|)
  {
    if !Direct(c) || !res.Wrote? then c
    else
      var done := res.n == |msg| && c.config.writeComplete;
      c.(wire := c.wire + msg[..res.n],
      notices := if done then c.notices + [WriteComplete] else c.notices)
  }

  function QueueRest(c: Conn, rest: string): Conn {
    var total := |c.output| + |rest|;
    var high := total >= c.config.highWaterMark && |c.output| < c.config.highWaterMark
                && c.config.highWater;
    c.(output := c.output + rest, writing := true,
    notices := if high then c.notices + [HighWater(total)] else c.notices)
  }

  /** `res` is the answer to the direct ::write, used only when one is made. */
  function SendInLoop(c: Conn, msg: string, res: WriteResult): Conn
    requires Fits(res, |msg|)
  {
    if GivesUp(c, res) then c.(refused := c.refused + [msg])
    else AcceptRest(WriteDirectly(c, msg, res), msg, DirectBytes(c, res))
  }

  /** The message is accepted; its first n bytes have been written. */
  function AcceptRest(c: Conn, msg: string, n: nat): Conn
    requires n <= |msg|
  {
    var d := c.(accepted := c.accepted + [msg]);
    if n == |msg| then d else QueueRest(d, msg[n..])
  }

  function ShutdownInLoop(c: Conn): Conn {
    if c.writing then c else c.(cuts := c.cuts + [CutOf(c)])
  }

  /** On the loop thread the whole of send(), when nothing comes between; on another one the
      part up to the push. */
  function Send(c: Conn, msg: string, onLoop: bool, res: WriteResult): Conn
    requires Fits(res, |msg|)
  {
    if c.state != Connected then c
    else
      var c := c.(sent := c.sent + [msg]);
      if onLoop then SendInLoop(c, msg, res) else c.(inFlight := c.inFlight + multiset{msg})
  }

  /** The test of send() on the loop thread, and the rest of it. */
  function SendTest(c: Conn, msg: string): Conn {
    if c.state != Connected then c else c.(sent := c.sent + [msg], loop := InSend(msg))
  }

  function SendRest(c: Conn, res: WriteResult): Conn
    requires c.loop.InSend? && Fits(res, |c.loop.msg|)
  {
    SendInLoop(c.(loop := Free), c.loop.msg, res)
  }

  /** Likewise for shutdown(), whose check and set of state_ are one step. */
  function Shutdown(c: Conn, onLoop: bool): Conn {
    if c.state != Connected then c
    else
      var c := c.(state := Disconnecting);
      if onLoop then ShutdownInLoop(c) else c.(shutting := true)
  }

  /** A send() in flight pushes to the queue, whatever the state is by then. */
  function LandSend(c: Conn, msg: string): Conn {
    c.(queue := c.queue + [SendTask(msg)], inFlight := c.inFlight - multiset{msg})
  }

  function LandShutdown(c: Conn): Conn {
    c.(queue := c.queue + [ShutdownTask], shutting := false)
  }

  function RunTask(c: Conn, res: WriteResult): Conn
    requires c.queue != []
    requires c.queue[0].SendTask? ==> Fits(res, |c.queue[0].msg|)
  {
    var t := c.queue[0];
    var c := c.(queue := c.queue[1..]);
    if t.SendTask? then SendInLoop(c, t.msg, res) else ShutdownInLoop(c)
  }

  /** handleWrite, when nothing comes between. */
  function HandleWrite(c: Conn, res: WriteResult): Conn
    requires Fits(res, |c.output|)
  {
    if !c.writing || !res.Wrote? || res.n == 0 then c
    else
      var c := c.(wire := c.wire + c.output[..res.n], output := c.output[res.n..]);
      if c.output != "" then c else Emptied(c)
  }

  /** The output buffer has just been drained. */
  function Emptied(c: Conn): Conn {
    var c := c.(writing := false,
             notices := c.notices + if c.config.writeComplete then [WriteComplete] else []);
    if c.state == Disconnecting then ShutdownInLoop(c) else c
  }

  /** handleWrite up to its test of state_, and the rest of it. */
  function HandleWriteTest(c: Conn, res: WriteResult): Conn
    requires Fits(res, |c.output|)
  {
    if !c.writing || !res.Wrote? || res.n == 0 then c
    else
      var c := c.(wire := c.wire + c.output[..res.n], output := c.output[res.n..]);
      if c.output != "" then c
      else c.(writing := false, loop := InDrain,
           notices := c.notices + if c.config.writeComplete then [WriteComplete] else [])
  }

  function HandleWriteRest(c: Conn): Conn {
    var c := c.(loop := Free);
    if c.state == Disconnecting then ShutdownInLoop(c) else c
  }

  function HandleClose(c: Conn): Conn {
    c.(state := Disconnected, reading := false, writing := false,
    events := c.events + [Down, CloseCallback])
  }

  function HandleRead(c: Conn, res: ReadResult): Conn {
    match res
    case ReadError => c
    case Received(bytes) =>
      if bytes == "" then HandleClose(c)
      else c.(input := c.input + bytes, events := c.events + [Message])
  }

  function ConnectEstablished(c: Conn): Conn {
    c.(state := Connected, reading := true, events := c.events + [Up])
  }

  function ConnectDestroyed(c: Conn): Conn {
    if c.state == Connected
    then c.(state := Disconnected, reading := false, writing := false, events := c.events + [Down])
    else c
  }

  // ----- runs -----

  datatype Op =
    | OpEstablish
    | OpSend(msg: string, onLoop: bool)
    | OpSendRest(res: WriteResult)
    | OpShutdown(onLoop: bool)
    | OpLandSend(msg: string)
    | OpLandShutdown
    | OpRunTask(res: WriteResult)
    | OpWriteReady(res: WriteResult)
    | OpWriteRest
    | OpRead(read: ReadResult)
    | OpClose
    | OpDestroy

  /** What the loop thread does begins when it is free; other threads do not wait for it. */
  predicate Enabled(c: Conn, op: Op) {
    match op
    case OpEstablish => c.loop == Free && c.state == Connecting
    case OpSend(_, onLoop) => onLoop ==> c.loop == Free
    case OpSendRest(res) => c.loop.InSend? && Fits(res, |c.loop.msg|)
    case OpShutdown(onLoop) => onLoop ==> c.loop == Free
    case OpLandSend(msg) => msg in c.inFlight
    case OpLandShutdown => c.shutting
    case OpRunTask(res) =>
      c.loop == Free && c.queue != [] && (c.queue[0].SendTask? ==> Fits(res, |c.queue[0].msg|))
    case OpWriteReady(res) => c.loop == Free && Fits(res, |c.output|)
    case OpWriteRest => c.loop == InDrain
    case OpRead(_) => c.loop == Free && c.reading
    case OpClose => c.loop == Free && c.reading
    case OpDestroy => c.loop == Free
  }

  function Apply(c: Conn, op: Op): Conn
    requires Enabled(c, op)
  {
    match op
    case OpEstablish => ConnectEstablished(c)
    case OpSend(msg, onLoop) => if onLoop then SendTest(c, msg) else Send(c, msg, false, WouldBlock)
    case OpSendRest(res) => SendRest(c, res)
    case OpShutdown(onLoop) => Shutdown(c, onLoop)
    case OpLandSend(msg) => LandSend(c, msg)
    case OpLandShutdown => LandShutdown(c)
    case OpRunTask(res) => RunTask(c, res)
    case OpWriteReady(res) => HandleWriteTest(c, res)
    case OpWriteRest => HandleWriteRest(c)
    case OpRead(res) => HandleRead(c, res)
    case OpClose => HandleClose(c)
    case OpDestroy => ConnectDestroyed(c)
  }

  /** With nothing in between, the two halves are the whole. */
  lemma HalvesMakeWhole(c: Conn, msg: string, res: WriteResult)
    requires c.loop == Free
    ensures Fits(res, |msg|) && c.state == Connected ==>
              SendRest(SendTest(c, msg), res) == Send(c, msg, true, res)
    ensures Fits(res, |c.output|) ==>
              var d := HandleWriteTest(c, res);
              HandleWrite(c, res) == if d.loop == InDrain then HandleWriteRest(d) else d
  {
    if c.state == Connected {
      assert SendTest(c, msg).(loop := Free) == c.(sent := c.sent + [msg]);
    }
    if Fits(res, |c.output|) && c.writing && res.Wrote? && res.n > 0 && c.output[res.n..] == "" {
      var d := c.(wire := c.wire + c.output[..res.n], output := c.output[res.n..]);
      assert HandleWriteTest(c, res).(loop := Free)
          == d.(writing := false, notices := d.notices + if d.config.writeComplete then [WriteComplete] else []);
    }
  }

  /** `c` is what the operations lead to from a new connection. */
  ghost predicate Leads(start: Conn, ops: seq<Op>, c: Conn)
    decreases |ops|
  {
    if ops == [] then c == start
    else Enabled(start, ops[0]) && Leads(Apply(start, ops[0]), ops[1..], c)
  }

  // ----- what every operation keeps -----

  function Payload(t: Task): seq<string> {
    match t
    case SendTask(msg) => [msg]
    case ShutdownTask => []
  }

  function Sends(queue: seq<Task>): seq<string> {
    if queue == [] then [] else Payload(queue[0]) + Sends(queue[1..])
  }

  lemma {:induction false} SendsSnoc(queue: seq<Task>, t: Task)
    ensures Sends(queue + [t]) == Sends(queue) + Payload(t)
  {
    if queue == [] {
      assert queue + [t] == [t];
    } else {
      var rest := queue[1..];
      assert (queue + [t])[1..] == rest + [t];
      SendsSnoc(rest, t);
      assert Payload(queue[0]) + (Sends(rest) + Payload(t)) == Sends(queue) + Payload(t);
    }
  }

  /** No accepted byte is lost, duplicated or reordered. */
  ghost predicate Conserved(c: Conn) {
    c.wire + c.output == Flatten(c.accepted)
  }

  /** Write interest is on exactly while bytes are pending. */
  ghost predicate InterestMatches(c: Conn) {
    c.state != Disconnected ==> (c.writing <==> c.output != "")
  }

  /** The message the loop thread is sending. */
  function Busy(c: Conn): multiset<string> {
    if c.loop.InSend? then multiset{c.loop.msg} else multiset{}
  }

  /** Every message let through by `send` is accepted, refused, queued, in flight or just being
      sent, once. */
  ghost predicate Accounted(c: Conn) {
    multiset(c.sent) == multiset(c.accepted) + multiset(c.refused)
                        + multiset(Sends(c.queue)) + c.inFlight + Busy(c)
  }

  /** A half-close on a live connection happens with nothing pending: all accepted bytes
      are on the wire. */
  ghost predicate CleanCut(k: Cut) {
    k.state != Disconnected ==> k.output == "" && k.wire == Flatten(k.accepted)
  }

  ghost predicate Inv(c: Conn) {
    && Conserved(c) && InterestMatches(c) && Accounted(c)
    && (c.loop == InDrain ==> !c.writing && c.output == "")
    && (c.state == Connecting ==> c.sent == [] && c.queue == [] && c.inFlight == multiset{}
                                  && !c.shutting && c.loop == Free && c.cuts == [])
    && (forall k :: k in c.cuts ==> CleanCut(k))
  }

  /** Where the bytes of an accepted message go. */
  lemma SendInLoopBytes(c: Conn, msg: string, res: WriteResult)
    requires Fits(res, |msg|) && !GivesUp(c, res)
    ensures var n := DirectBytes(c, res);
            var d := SendInLoop(c, msg, res);
            && d.accepted == c.accepted + [msg]
            && d.wire == (if n == 0 then c.wire else c.wire + msg[..n])
            && d.output == (if n == 0 then c.output + msg else msg[n..])
            && (n > 0 ==> c.output == "")
  {
    var n := DirectBytes(c, res);
    if n == 0 {
      assert msg[n..] == msg && c.wire + msg[..n] == c.wire;
      assert c.output + msg == (if msg == "" then c.output else c.output + msg);
    } else {
      assert c.output + msg[n..] == msg[n..];
    }
  }

  lemma SplitMessage(wire: string, output: string, msg: string, n: nat)
    requires n <= |msg| && (n > 0 ==> output == "")
    ensures n == 0 ==> wire + (output + msg) == wire + output + msg
    ensures n > 0 ==> wire + msg[..n] + msg[n..] == wire + output + msg
  {
    assert msg == msg[..n] + msg[n..];
    assert wire + "" == wire;
  }

  lemma SendInLoopConserves(c: Conn, msg: string, res: WriteResult)
    requires Fits(res, |msg|) && Conserved(c)
    ensures Conserved(SendInLoop(c, msg, res))
  {
    if !GivesUp(c, res) {
      FlattenSnoc(c.accepted, msg);
      SendInLoopBytes(c, msg, res);
      SplitMessage(c.wire, c.output, msg, DirectBytes(c, res));
    }
  }

  lemma SendInLoopInterest(c: Conn, msg: string, res: WriteResult)
    requires Fits(res, |msg|) && InterestMatches(c)
    ensures InterestMatches(SendInLoop(c, msg, res))
  {
  }

  lemma SendInLoopFrame(c: Conn, msg: string, res: WriteResult)
    requires Fits(res, |msg|)
    ensures var d := SendInLoop(c, msg, res);
            && d.state == c.state && d.sent == c.sent && d.queue == c.queue && d.cuts == c.cuts
            && d.inFlight == c.inFlight && d.shutting == c.shutting && d.loop == c.loop
            && d.accepted == (if GivesUp(c, res) then c.accepted else c.accepted + [msg])
            && d.refused == (if GivesUp(c, res) then c.refused + [msg] else c.refused)
  {
  }

  lemma SendInLoopKeeps(c: Conn, msg: string, res: WriteResult)
    requires Fits(res, |msg|) && Conserved(c) && InterestMatches(c)
    ensures var d := SendInLoop(c, msg, res);
            && Conserved(d) && InterestMatches(d)
            && d.state == c.state && d.sent == c.sent && d.queue == c.queue && d.cuts == c.cuts
            && d.inFlight == c.inFlight && d.shutting == c.shutting && d.loop == c.loop
            && multiset(d.accepted) + multiset(d.refused)
               == multiset(c.accepted) + multiset(c.refused) + multiset{msg}
  {
    SendInLoopConserves(c, msg, res);
    SendInLoopInterest(c, msg, res);
    SendInLoopFrame(c, msg, res);
  }

  lemma ShutdownInLoopKeeps(c: Conn)
    requires Inv(c) && c.state != Connecting
    ensures Inv(ShutdownInLoop(c))
  {
    var k := CutOf(c);
    if !c.writing && c.state != Disconnected {
      assert c.wire + "" == c.wire;
      assert CleanCut(k);
    }
  }

  lemma DrainConserves(c: Conn, res: WriteResult)
    requires Conserved(c) && Fits(res, |c.output|)
    ensures Conserved(HandleWriteTest(c, res))
  {
    if res.Wrote? {
      assert c.output == c.output[..res.n] + c.output[res.n..];
      Regroup3(c.wire, c.output[..res.n], c.output[res.n..]);
    }
  }

  lemma HandleWriteKeeps(c: Conn, res: WriteResult)
    requires Inv(c) && c.loop == Free && Fits(res, |c.output|)
    ensures Inv(HandleWriteTest(c, res))
  {
    DrainConserves(c, res);
  }

  lemma WriteRestKeeps(c: Conn)
    requires Inv(c) && c.loop == InDrain
    ensures Inv(HandleWriteRest(c))
  {
    var d := c.(loop := Free);
    if c.state == Disconnecting {
      ShutdownInLoopKeeps(d);
    }
  }

  lemma RunSendKeeps(c: Conn, res: WriteResult)
    requires Inv(c) && Enabled(c, OpRunTask(res)) && c.queue[0].SendTask?
    ensures Inv(RunTask(c, res))
  {
    var t := c.queue[0];
    var d := c.(queue := c.queue[1..]);
    SendInLoopConserves(d, t.msg, res);
    SendInLoopInterest(d, t.msg, res);
    SendInLoopFrame(d, t.msg, res);
    assert Accounted(RunTask(c, res)) by {
      assert multiset(Sends(c.queue)) == multiset{t.msg} + multiset(Sends(d.queue));
    }
  }

  lemma RunTaskKeeps(c: Conn, res: WriteResult)
    requires Inv(c) && Enabled(c, OpRunTask(res))
    ensures Inv(RunTask(c, res))
  {
    if c.queue[0].SendTask? {
      RunSendKeeps(c, res);
    } else {
      assert Sends(c.queue) == Sends(c.queue[1..]);
      ShutdownInLoopKeeps(c.(queue := c.queue[1..]));
    }
  }

  lemma SendTestKeeps(c: Conn, msg: string)
    requires Inv(c) && c.loop == Free
    ensures Inv(SendTest(c, msg))
  {
    assert multiset(c.sent + [msg]) == multiset(c.sent) + multiset{msg};
  }

  lemma SendRestKeeps(c: Conn, res: WriteResult)
    requires Inv(c) && Enabled(c, OpSendRest(res))
    ensures Inv(SendRest(c, res))
  {
    SendInLoopKeeps(c.(loop := Free), c.loop.msg, res);
  }

  lemma OneMore(whole: multiset<string>, rest: multiset<string>, flight: multiset<string>,
                busy: multiset<string>, msg: string)
    requires whole == rest + flight + busy
    ensures whole + multiset{msg} == rest + (flight + multiset{msg}) + busy
  {
  }

  lemma MovedOver(rest: multiset<string>, queued: multiset<string>, flight: multiset<string>, msg: string)
    requires msg in flight
    ensures rest + (queued + multiset{msg}) + (flight - multiset{msg}) == rest + queued + flight
  {
  }

  lemma SendLaterKeeps(c: Conn, msg: string)
    requires Inv(c)
    ensures Inv(Send(c, msg, false, WouldBlock))
  {
    assert multiset(c.sent + [msg]) == multiset(c.sent) + multiset{msg};
    OneMore(multiset(c.sent), multiset(c.accepted) + multiset(c.refused) + multiset(Sends(c.queue)),
            c.inFlight, Busy(c), msg);
  }

  /** Also when it comes after a shutdown or a close. */
  lemma LandSendKeeps(c: Conn, msg: string)
    requires Inv(c) && msg in c.inFlight
    ensures Inv(LandSend(c, msg))
  {
    SendsSnoc(c.queue, SendTask(msg));
    assert multiset(Sends(c.queue) + [msg]) == multiset(Sends(c.queue)) + multiset{msg};
    MovedOver(multiset(c.accepted) + multiset(c.refused), multiset(Sends(c.queue)), c.inFlight, msg);
  }

  lemma LandShutdownKeeps(c: Conn)
    requires Inv(c) && c.shutting
    ensures Inv(LandShutdown(c))
  {
    SendsSnoc(c.queue, ShutdownTask);
    assert Sends(c.queue) + [] == Sends(c.queue);
  }

  lemma ShutdownKeeps(c: Conn, onLoop: bool)
    requires Inv(c) && (onLoop ==> c.loop == Free)
    ensures Inv(Shutdown(c, onLoop))
  {
    if c.state == Connected {
      var d := c.(state := Disconnecting);
      if onLoop {
        ShutdownInLoopKeeps(d);
      }
    }
  }

  lemma EstablishKeeps(c: Conn)
    requires Inv(c) && c.state == Connecting && c.loop == Free
    ensures Inv(ConnectEstablished(c))
  {
  }

  lemma CloseKeeps(c: Conn)
    requires Inv(c)
    ensures Inv(HandleClose(c)) && Inv(ConnectDestroyed(c))
  {
  }

  lemma ReadKeeps(c: Conn, res: ReadResult)
    requires Inv(c)
    ensures Inv(HandleRead(c, res))
  {
    CloseKeeps(c);
  }

  lemma {:induction false} StepKeeps(c: Conn, op: Op)
    requires Inv(c) && Enabled(c, op)
    ensures Inv(Apply(c, op))
  {
    match op
    case OpSend(msg, onLoop) =>
      if onLoop {
        SendTestKeeps(c, msg);
      } else {
        SendLaterKeeps(c, msg);
      }
    case OpSendRest(res) => SendRestKeeps(c, res);
    case OpShutdown(onLoop) => ShutdownKeeps(c, onLoop);
    case OpLandSend(msg) => LandSendKeeps(c, msg);
    case OpLandShutdown => LandShutdownKeeps(c);
    case OpRunTask(res) => RunTaskKeeps(c, res);
    case OpWriteReady(res) => HandleWriteKeeps(c, res);
    case OpWriteRest => WriteRestKeeps(c);
    case OpRead(res) => ReadKeeps(c, res);
    case OpEstablish => EstablishKeeps(c);
    case OpClose => CloseKeeps(c);
    case OpDestroy => CloseKeeps(c);
  }

  lemma {:induction false} RunKeeps(start: Conn, ops: seq<Op>, c: Conn)
    requires Inv(start) && Leads(start, ops, c)
    ensures Inv(c)
    decreases |ops|
  {
    if ops != [] {
      StepKeeps(start, ops[0]);
      RunKeeps(Apply(start, ops[0]), ops[1..], c);
    }
  }

  // ----- main results -----

  /** Output stream conservation, over every run: bytes on the wire followed by the bytes
      still queued are the accepted messages in order; and no send is lost or repeated. */
  lemma OutputConserved(config: Config, ops: seq<Op>, c: Conn)
    requires Leads(Fresh(config), ops, c)
    ensures c.wire + c.output == Flatten(c.accepted)
    ensures multiset(c.sent) == multiset(c.accepted) + multiset(c.refused)
                                + multiset(Sends(c.queue)) + c.inFlight + Busy(c)
    ensures c.state != Disconnected ==> (c.writing <==> c.output != "")
  {
    RunKeeps(Fresh(config), ops, c);
  }

  /** Over every run, each half-close made while not yet disconnected finds the output
      buffer empty and all accepted bytes on the wire. */
  lemma HalfCloseIsClean(config: Config, ops: seq<Op>, c: Conn, i: nat)
    requires Leads(Fresh(config), ops, c) && i < |c.cuts| && c.cuts[i].state != Disconnected
    ensures c.cuts[i].output == "" && c.cuts[i].wire == Flatten(c.cuts[i].accepted)
  {
    RunKeeps(Fresh(config), ops, c);
    assert CleanCut(c.cuts[i]);
  }

  /** Every caller is the loop thread, which then never has work queued or in flight. */
  predicate LoopThreadOnly(ops: seq<Op>) {
    forall i :: 0 <= i < |ops| ==>
      (ops[i].OpSend? || ops[i].OpShutdown? ==> ops[i].onLoop)
  }

  ghost predicate LoopInv(c: Conn) {
    && Inv(c) && c.queue == [] && c.inFlight == multiset{} && !c.shutting
    && (c.state in {Connecting, Connected} ==> c.cuts == [])
    && (c.state == Disconnecting && c.cuts == [] ==> c.writing || c.loop == InDrain)
    && (c.loop.InSend? ==> c.state == Connected)
    && (c.cuts != [] ==>
          && |c.cuts| == 1 && c.cuts[0].state == Disconnecting
          && c.output == "" && !c.writing && c.loop == Free
          && c.cuts[0] == CutOf(c).(state := Disconnecting))
  }

  lemma LoopSendKeeps(c: Conn, msg: string)
    requires LoopInv(c) && c.loop == Free
    ensures LoopInv(SendTest(c, msg))
  {
    SendTestKeeps(c, msg);
  }

  lemma LoopSendRestKeeps(c: Conn, res: WriteResult)
    requires LoopInv(c) && Enabled(c, OpSendRest(res))
    ensures LoopInv(SendRest(c, res))
  {
    SendRestKeeps(c, res);
    SendInLoopFrame(c.(loop := Free), c.loop.msg, res);
  }

  lemma LoopShutdownKeeps(c: Conn)
    requires LoopInv(c) && c.loop == Free
    ensures LoopInv(Shutdown(c, true))
  {
    ShutdownKeeps(c, true);
  }

  lemma LoopWriteKeeps(c: Conn, res: WriteResult)
    requires LoopInv(c) && c.loop == Free && Fits(res, |c.output|)
    ensures LoopInv(HandleWriteTest(c, res))
  {
    HandleWriteKeeps(c, res);
  }

  lemma LoopWriteRestKeeps(c: Conn)
    requires LoopInv(c) && c.loop == InDrain
    ensures LoopInv(HandleWriteRest(c))
  {
    WriteRestKeeps(c);
  }

  lemma LoopCloseKeeps(c: Conn)
    requires LoopInv(c) && c.loop == Free
    ensures LoopInv(HandleClose(c)) && LoopInv(ConnectDestroyed(c))
  {
    CloseKeeps(c);
  }

  lemma LoopReadKeeps(c: Conn, res: ReadResult)
    requires LoopInv(c) && c.loop == Free
    ensures LoopInv(HandleRead(c, res))
    ensures c.state == Connecting ==> LoopInv(ConnectEstablished(c))
  {
    LoopCloseKeeps(c);
  }

  lemma LoopStepKeeps(c: Conn, op: Op)
    requires LoopInv(c) && Enabled(c, op)
    requires op.OpSend? || op.OpShutdown? ==> op.onLoop
    ensures LoopInv(Apply(c, op))
  {
    match op
    case OpSend(msg, _) => LoopSendKeeps(c, msg);
    case OpSendRest(res) => LoopSendRestKeeps(c, res);
    case OpShutdown(_) => LoopShutdownKeeps(c);
    case OpWriteReady(res) => LoopWriteKeeps(c, res);
    case OpWriteRest => LoopWriteRestKeeps(c);
    case OpRead(res) => LoopReadKeeps(c, res);
    case OpEstablish => LoopReadKeeps(c, ReadError);
    case OpClose => LoopCloseKeeps(c);
    case OpDestroy => LoopCloseKeeps(c);
    case _ =>
  }

  lemma {:induction false} LoopRunKeeps(start: Conn, ops: seq<Op>, c: Conn)
    requires LoopInv(start) && Leads(start, ops, c) && LoopThreadOnly(ops)
    ensures LoopInv(c)
    decreases |ops|
  {
    if ops != [] {
      LoopStepKeeps(start, ops[0]);
      LoopRunKeeps(Apply(start, ops[0]), ops[1..], c);
    }
  }

  /** Deferred half-close for loop-thread callers: a shut-down connection that has not
      half-closed yet still drains, or has just drained and is about to; it half-closes at most
      once, with every message sent before it accepted or refused, all accepted bytes on the
      wire, and nothing sent, accepted or written afterwards. */
  lemma DeferredHalfClose(config: Config, ops: seq<Op>, c: Conn)
    requires Leads(Fresh(config), ops, c) && LoopThreadOnly(ops)
    ensures |c.cuts| <= 1
    ensures c.state == Disconnecting && c.cuts == [] ==> (c.writing && c.output != "") || c.loop == InDrain
    ensures c.cuts != [] ==>
              && c.wire == c.cuts[0].wire == Flatten(c.accepted)
              && c.accepted == c.cuts[0].accepted && c.sent == c.cuts[0].sent
              && multiset(c.sent) == multiset(c.accepted) + multiset(c.refused)
  {
    LoopRunKeeps(Fresh(config), ops, c);
    if c.cuts != [] {
      assert c.wire + "" == c.wire;
    }
  }

  /** The run so far, one operation longer. */
  lemma Then(config: Config, ops: seq<Op>, c: Conn, op: Op, d: Conn) returns (more: seq<Op>)
    requires Leads(Fresh(config), ops, c) && Enabled(c, op) && d == Apply(c, op)
    ensures Leads(Fresh(config), more, d)
  {
    LeadsSnoc(Fresh(config), ops, c, op);
    more := ops + [op];
  }

  /** "x" is pending behind a blocked socket. */
  lemma SendBlocks(config: Config) returns (ops: seq<Op>, c: Conn)
    ensures Leads(Fresh(config), ops, c)
    ensures c.output == "x" && c.writing && c.state == Connected && c.wire == "" && c.loop == Free
    ensures c.cuts == [] && c.queue == [] && c.sent == ["x"] && c.inFlight == multiset{}
  {
    var c1 := ConnectEstablished(Fresh(config));
    ops := Then(config, [], Fresh(config), OpEstablish, c1);
    var c2 := SendTest(c1, "x");
    ops := Then(config, ops, c1, OpSend("x", true), c2);
    c := SendRest(c2, WouldBlock);
    ops := Then(config, ops, c2, OpSendRest(WouldBlock), c);
    assert "x"[0..] == "x" && "" + "x" == "x";
  }

  lemma LastByteCuts(c: Conn)
    requires c.output == "x" && c.writing && c.state == Disconnecting && c.wire == "" && c.cuts == []
    ensures var d := HandleWriteTest(c, Wrote(1));
            && d.loop == InDrain && |HandleWriteRest(d).cuts| == 1
            && var k := HandleWriteRest(d).cuts[0];
               k.state == Disconnecting && k.sent == c.sent && k.wire == "x"
               && k.queue == c.queue && k.inFlight == c.inFlight
  {
    assert c.output[1..] == "" && "" + c.output[..1] == "x";
  }

  /** With a caller on another thread the half-close can overtake a message, queued or not:
      the connection half-closes with "y" sent and never put on the wire. If the push comes
      before shutdown(), "y" is in the queue; if not, shutdown() even finds the queue empty. */
  lemma ForeignSendOvertaken(config: Config, landed: bool) returns (ops: seq<Op>, c: Conn)
    ensures Leads(Fresh(config), ops, c)
    ensures |c.cuts| == 1 && c.cuts[0].state == Disconnecting
    ensures c.cuts[0].sent == ["x", "y"] && c.cuts[0].wire == "x"
    ensures c.cuts[0].queue == if landed then [SendTask("y")] else []
    ensures c.cuts[0].inFlight == if landed then multiset{} else multiset{"y"}
  {
    var c1, c3;
    ops, c1 := SendBlocks(config);
    var c2 := Send(c1, "y", false, WouldBlock);
    ops := Then(config, ops, c1, OpSend("y", false), c2);
    if landed {
      c3 := LandSend(c2, "y");
      ops := Then(config, ops, c2, OpLandSend("y"), c3);
    } else {
      c3 := c2;
    }
    var c4 := Shutdown(c3, true);
    ops := Then(config, ops, c3, OpShutdown(true), c4);
    LastByteCuts(c4);
    var c5 := HandleWriteTest(c4, Wrote(1));
    ops := Then(config, ops, c4, OpWriteReady(Wrote(1)), c5);
    c := HandleWriteRest(c5);
    ops := Then(config, ops, c5, OpWriteRest, c);
  }

  lemma {:induction false} LeadsSnoc(start: Conn, ops: seq<Op>, c: Conn, op: Op)
    requires Leads(start, ops, c) && Enabled(c, op)
    ensures Leads(start, ops + [op], Apply(c, op))
    decreases |ops|
  {
    if ops == [] {
      assert ([] + [op])[1..] == [];
    } else {
      assert (ops + [op])[1..] == ops[1..] + [op];
      LeadsSnoc(Apply(start, ops[0]), ops[1..], c, op);
    }
  }
}
