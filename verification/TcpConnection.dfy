/** The connection object of src/net/TcpConnection.cpp over two real buffers. Each method
    is proved to take the view of the object through the matching step of OutputPath, so
    the results there about all runs are about sequences of calls here. */
module TcpConnections {
  import opened Common
  import opened NetBuffer
  import P = OutputPath
  import A = AsWritten

  class TcpConnection {
    const config: P.Config
    var state: ConnState
    /** Interest of channel_. */
    var reading: bool
    var writing: bool
    const inputBuffer: Buffer
    const outputBuffer: Buffer
    /** The peer's side of the socket, the loop's queue and the callbacks made. */
    var wire: string
    var queue: seq<P.Task>
    var inFlight: multiset<string>
    var shutting: bool
    var notices: seq<P.Notice>
    var events: seq<P.Event>
    ghost var sent: seq<string>
    ghost var accepted: seq<string>
    ghost var refused: seq<string>
    ghost var cuts: seq<P.Cut>

    ghost function Repr(): set<object>
      reads this, inputBuffer, outputBuffer
    {
      {this, inputBuffer, outputBuffer, inputBuffer.buffer, outputBuffer.buffer}
    }

    ghost predicate Valid()
      reads Repr()
    {
      && inputBuffer != outputBuffer && inputBuffer.buffer != outputBuffer.buffer
      && inputBuffer.Valid() && outputBuffer.Valid()
    }

    ghost function View(): P.Conn
      requires Valid()
      reads Repr()
    {
      P.Conn(config, state, reading, writing, inputBuffer.Contents(), outputBuffer.Contents(), wire,
             queue, inFlight, shutting, P.Free, notices, events, sent, accepted, refused, cuts)
    }

    constructor (config: P.Config)
      ensures Valid() && fresh(Repr()) && View() == P.Fresh(config)
    {
      this.config := config;
      state := Connecting;
      reading, writing := false, false;
      inputBuffer := new Buffer();
      outputBuffer := new Buffer();
      wire, queue, inFlight, shutting, notices, events := "", [], multiset{}, false, [], [];
      sent, accepted, refused, cuts := [], [], [], [];
    }

    /** The direct ::write of sendInLoop, made when nothing is pending. */
    method WriteDirectly(message: string, res: WriteResult) returns (nwrote: nat, faultError: bool)
      requires Valid() && P.Fits(res, |message|) && state != Disconnected
      modifies this`wire, this`notices
      ensures View() == P.WriteDirectly(old(View()), message, res)
      ensures nwrote == P.DirectBytes(old(View()), res)
      ensures faultError == P.GivesUp(old(View()), res)
    {
      nwrote, faultError := 0, false;
      if !writing && outputBuffer.ReadableBytes() == 0 {
        if res.Wrote? {
          nwrote := res.n;
          wire := wire + message[..nwrote];
          var remaining := |message| - nwrote;
          if remaining == 0 && config.writeComplete {
            notices := notices + [P.WriteComplete];
          }
        } else if res.PeerGone? {
          faultError := true;
        }
      }
    }

    /** The second half of sendInLoop: what the kernel did not take waits for write-ready. */
    method QueueRest(rest: string)
      requires Valid()
      modifies this`notices, this`writing, outputBuffer, outputBuffer.buffer
      ensures Valid() && fresh(Repr() - old(Repr()))
      ensures View() == P.QueueRest(old(View()), rest)
    {
      var oldLen := outputBuffer.ReadableBytes();
      if oldLen + |rest| >= config.highWaterMark && oldLen < config.highWaterMark
         && config.highWater {
        notices := notices + [P.HighWater(oldLen + |rest|)];
      }
      outputBuffer.Append(rest);
      if !writing {
        writing := true;
      }
    }

    method SendInLoop(message: string, res: WriteResult)
      requires Valid() && P.Fits(res, |message|)
      modifies this, outputBuffer, outputBuffer.buffer
      ensures Valid() && fresh(Repr() - old(Repr()))
      ensures View() == P.SendInLoop(old(View()), message, res)
    {
      if state == Disconnected {
        refused := refused + [message];
        return;
      }
      var nwrote, faultError := WriteDirectly(message, res);
      if faultError {
        refused := refused + [message];
      } else {
        AcceptRest(message, nwrote);
      }
    }

    /** The end of sendInLoop when there was no fault. */
    method AcceptRest(message: string, nwrote: nat)
      requires Valid() && nwrote <= |message|
      modifies this, outputBuffer, outputBuffer.buffer
      ensures Valid() && fresh(Repr() - old(Repr()))
      ensures View() == P.AcceptRest(old(View()), message, nwrote)
    {
      accepted := accepted + [message];
      var remaining := |message| - nwrote;
      if remaining > 0 {
        QueueRest(message[nwrote..]);
      }
    }

    /** A caller on the loop thread writes at once; another one has its push ahead, LandSend. */
    method Send(message: string, onLoop: bool, res: WriteResult)
      requires Valid() && P.Fits(res, |message|)
      modifies this, outputBuffer, outputBuffer.buffer
      ensures Valid() && fresh(Repr() - old(Repr()))
      ensures View() == P.Send(old(View()), message, onLoop, res)
    {
      if state == Connected {
        sent := sent + [message];
        if onLoop {
          SendInLoop(message, res);
        } else {
          inFlight := inFlight + multiset{message};
        }
      }
    }

    /** The half of send(Buffer*) for callers on other threads. */
    method QueueBuffer(message: Buffer)
      requires Valid() && message.Valid() && {message, message.buffer} !! Repr()
      modifies this`sent, this`inFlight, message
      ensures Valid() && Repr() == old(Repr()) && message.Valid() && message.Contents() == ""
      ensures View() == old(View()).(sent := old(sent) + [old(message.Contents())],
                        inFlight := old(inFlight) + multiset{old(message.Contents())})
    {
      var text := message.RetrieveAllAsString();
      sent := sent + [text];
      inFlight := inFlight + multiset{text};
    }

    /** The other half, for the bytes found. */
    method SendAndEmpty(message: Buffer, text: string, res: WriteResult)
      requires Valid() && message.Valid() && {message, message.buffer} !! Repr()
      requires P.Fits(res, |text|)
      modifies this, outputBuffer, outputBuffer.buffer, message
      ensures Valid() && fresh(Repr() - old(Repr())) && message.Valid() && message.Contents() == ""
      ensures View() == P.Send(old(View()), text, true, res)
    {
      Send(text, true, res);
      message.RetrieveAll();
    }

    /** send(Buffer*) when `seen` are the bytes the loop thread would pass on. */
    method SendSeen(message: Buffer, seen: string, onLoop: bool, res: WriteResult)
      requires Valid() && message.Valid() && {message, message.buffer} !! Repr()
      requires |seen| == |message.Contents()| && P.Fits(res, |seen|)
      modifies this, outputBuffer, outputBuffer.buffer, message
      ensures Valid() && fresh(Repr() - old(Repr())) && message.Valid()
      ensures View() == P.Send(old(View()), if onLoop then seen else old(message.Contents()), onLoop, res)
      ensures message.Contents() == if old(state) == Connected then "" else old(message.Contents())
    {
      if state == Connected {
        if onLoop {
          SendAndEmpty(message, seen, res);
        } else {
          QueueBuffer(message);
        }
      }
    }

    /** Sends all unread bytes of a caller's buffer, from beginRead(), and empties it. */
    method SendBuffer(message: Buffer, onLoop: bool, res: WriteResult)
      requires Valid() && message.Valid() && {message, message.buffer} !! Repr()
      requires P.Fits(res, |message.Contents()|)
      modifies this, outputBuffer, outputBuffer.buffer, message
      ensures Valid() && fresh(Repr() - old(Repr())) && message.Valid()
      ensures View() == P.Send(old(View()), old(message.Contents()), onLoop, res)
      ensures message.Contents() == if old(state) == Connected then "" else old(message.Contents())
    {
      var seen := message.buffer[message.readerIndex..message.writerIndex];
      SendSeen(message, seen, onLoop, res);
    }

    /** The array of a buffer with what lies behind it. */
    static ghost function MemoryOf(b: Buffer, beyond: string): A.Memory
      requires b.Valid()
      reads b, b.buffer
    {
      A.Memory(b.buffer[..] + beyond, b.readerIndex, b.writerIndex)
    }

    static lemma UnreadIsContents(b: Buffer, beyond: string)
      requires b.Valid() && A.InMemory(MemoryOf(b, beyond))
      ensures A.Unread(MemoryOf(b, beyond)) == b.Contents()
    {
    }

    /** As many bytes from beginWrite() on as are unread. */
    static method BehindBytes(b: Buffer, beyond: string) returns (seen: string)
      requires b.Valid() && A.InMemory(MemoryOf(b, beyond))
      ensures seen == A.Behind(MemoryOf(b, beyond)) && |seen| == |b.Contents()|
    {
      seen := b.PeekBehind(b.ReadableBytes(), beyond);
    }

    /** `send(Buffer*)` as the source has it: on the loop thread the bytes are taken from
        beginWrite() on. `beyond` is what lies behind the buffer's array. */
    method SendBufferAsWritten(message: Buffer, onLoop: bool, res: WriteResult, beyond: string)
      requires Valid() && message.Valid() && {message, message.buffer} !! Repr()
      requires A.InMemory(MemoryOf(message, beyond)) && P.Fits(res, |message.Contents()|)
      modifies this, outputBuffer, outputBuffer.buffer, message
      ensures Valid() && fresh(Repr() - old(Repr())) && message.Valid()
      ensures P.Fits(res, |A.Unread(old(MemoryOf(message, beyond)))|)
      ensures View() == A.SendBufferAsWritten(old(View()), old(MemoryOf(message, beyond)), onLoop, res)
      ensures message.Contents() == if old(state) == Connected then "" else old(message.Contents())
    {
      UnreadIsContents(message, beyond);
      var seen := BehindBytes(message, beyond);
      SendSeen(message, seen, onLoop, res);
    }

    method ShutdownInLoop()
      requires Valid()
      modifies this
      ensures Valid() && Repr() == old(Repr())
      ensures View() == P.ShutdownInLoop(old(View()))
    {
      if !writing {
        cuts := cuts + [P.CutOf(View())];
      }
    }

    /** The check and the set of `state` are taken as one step. */
    method Shutdown(onLoop: bool)
      requires Valid()
      modifies this
      ensures Valid() && Repr() == old(Repr())
      ensures View() == P.Shutdown(old(View()), onLoop)
    {
      if state == Connected {
        state := Disconnecting;
        if onLoop {
          ShutdownInLoop();
        } else {
          shutting := true;
        }
      }
    }

    /** The end of a send() on another thread: the push to the queue. */
    method LandSend(message: string)
      requires Valid() && message in inFlight
      modifies this`queue, this`inFlight
      ensures Valid() && Repr() == old(Repr())
      ensures View() == P.LandSend(old(View()), message)
    {
      queue := queue + [P.SendTask(message)];
      inFlight := inFlight - multiset{message};
    }

    /** The end of a shutdown() on another thread. */
    method LandShutdown()
      requires Valid() && shutting
      modifies this`queue, this`shutting
      ensures Valid() && Repr() == old(Repr())
      ensures View() == P.LandShutdown(old(View()))
    {
      queue := queue + [P.ShutdownTask];
      shutting := false;
    }

    /** The loop runs the oldest queued functor of this connection. */
    method RunTask(res: WriteResult)
      requires Valid() && queue != []
      requires queue[0].SendTask? ==> P.Fits(res, |queue[0].msg|)
      modifies Repr()
      ensures Valid() && fresh(Repr() - old(Repr()))
      ensures View() == P.RunTask(old(View()), res)
    {
      var task := queue[0];
      queue := queue[1..];
      match task
      case SendTask(msg) => SendInLoop(msg, res);
      case ShutdownTask => ShutdownInLoop();
    }

    /** The kernel took n bytes from beginRead() on. */
    method WriteOut(n: nat)
      requires Valid() && n <= |outputBuffer.Contents()|
      modifies this`wire, outputBuffer
      ensures Valid() && Repr() == old(Repr())
      ensures View() == old(View()).(wire := old(wire) + old(outputBuffer.Contents())[..n],
                        output := old(outputBuffer.Contents())[n..])
    {
      var out := outputBuffer.Peek(n);
      wire := wire + out;
      outputBuffer.Retrieve(n);
    }

    method HandleWrite(res: WriteResult)
      requires Valid() && P.Fits(res, |outputBuffer.Contents()|)
      modifies this, outputBuffer
      ensures Valid() && Repr() == old(Repr())
      ensures View() == P.HandleWrite(old(View()), res)
    {
      if writing {
        if res.Wrote? && res.n > 0 {
          WriteOut(res.n);
          if outputBuffer.ReadableBytes() == 0 {
            Emptied();
          }
        }
      }
    }

    /** `handleWrite` as the source has it: ::write is given the bytes from beginWrite() on,
        and as many are dropped from the front of the unread ones. */
    method HandleWriteAsWritten(res: WriteResult, beyond: string)
      requires Valid() && P.Fits(res, |outputBuffer.Contents()|)
      requires A.InMemory(MemoryOf(outputBuffer, beyond))
      modifies this, outputBuffer
      ensures Valid() && Repr() == old(Repr())
      ensures View() == A.HandleWriteAsWritten(old(View()), A.Behind(old(MemoryOf(outputBuffer, beyond))), res)
    {
      if writing {
        if res.Wrote? && res.n > 0 {
          WriteOutAsWritten(res.n, beyond);
          if outputBuffer.ReadableBytes() == 0 {
            Emptied();
          }
        }
      }
    }

    /** The kernel took n bytes from beginWrite() on. */
    method WriteOutAsWritten(n: nat, beyond: string)
      requires Valid() && n <= |outputBuffer.Contents()|
      requires A.InMemory(MemoryOf(outputBuffer, beyond))
      modifies this`wire, outputBuffer
      ensures Valid() && Repr() == old(Repr())
      ensures View() == old(View()).(wire := old(wire) + A.Behind(old(MemoryOf(outputBuffer, beyond)))[..n],
                        output := old(outputBuffer.Contents())[n..])
    {
      var seen := BehindBytes(outputBuffer, beyond);
      wire := wire + seen[..n];
      outputBuffer.Retrieve(n);
    }

    /** The output buffer has just been drained. */
    method Emptied()
      requires Valid()
      modifies this
      ensures Valid() && Repr() == old(Repr())
      ensures View() == P.Emptied(old(View()))
    {
      writing := false;
      if config.writeComplete {
        notices := notices + [P.WriteComplete];
      }
      if state == Disconnecting {
        ShutdownInLoop();
      }
    }

    method HandleClose()
      requires Valid()
      modifies this`state, this`reading, this`writing, this`events
      ensures Valid() && Repr() == old(Repr())
      ensures View() == P.HandleClose(old(View()))
    {
      state := Disconnected;
      reading, writing := false, false;
      events := events + [P.Down];
      events := events + [P.CloseCallback];
      assert events == old(events) + [P.Down, P.CloseCallback];
    }

    method HandleRead(res: ReadResult)
      requires Valid() && (res.Received? ==> |res.bytes| <= inputBuffer.ReadvCapacity())
      modifies Repr()
      ensures Valid() && fresh(Repr() - old(Repr()))
      ensures View() == P.HandleRead(old(View()), res)
    {
      var n := inputBuffer.ReadFd(res);
      if n > 0 {
        events := events + [P.Message];
      } else if n == 0 {
        assert inputBuffer.Contents() == old(inputBuffer.Contents());
        HandleClose();
      }
    }

    method ConnectEstablished()
      requires Valid()
      modifies this
      ensures Valid() && Repr() == old(Repr())
      ensures View() == P.ConnectEstablished(old(View()))
    {
      state := Connected;
      reading := true;
      events := events + [P.Up];
    }

    /** Only the channel's interest and the callback; removal from the poller is Poller's. */
    method ConnectDestroyed()
      requires Valid()
      modifies this
      ensures Valid() && Repr() == old(Repr())
      ensures View() == P.ConnectDestroyed(old(View()))
    {
      if state == Connected {
        state := Disconnected;
        reading, writing := false, false;
        events := events + [P.Down];
      }
    }
  }
}
