/** What `send(Buffer*)` and `handleWrite` do as written: they hand beginWrite() to the kernel
    where the unread bytes begin at beginRead() (src/net/TcpConnection.cpp:77 and :221). */
module AsWritten {
  import opened Common
  import opened NetBuffer
  import opened OutputPath

  /** A Buffer's array from its start on, with whatever lies behind its end, and its indices. */
  datatype Memory = Memory(bytes: string, reader: nat, writer: nat)

  /** As many bytes can be seen behind the unread ones as are unread. */
  predicate InMemory(m: Memory) {
    m.reader <= m.writer && m.writer + (m.writer - m.reader) <= |m.bytes|
  }

  function Unread(m: Memory): string
    requires InMemory(m)
  {
    m.bytes[m.reader..m.writer]
  }

  /** What is read from beginWrite() on. */
  function Behind(m: Memory): string
    requires InMemory(m)
  {
    m.bytes[m.writer..m.writer + (m.writer - m.reader)]
  }

  /** `send(Buffer*)` as it is meant. */
  function SendBuffer(c: Conn, m: Memory, onLoop: bool, res: WriteResult): Conn
    requires InMemory(m) && Fits(res, |Unread(m)|)
  {
    Send(c, Unread(m), onLoop, res)
  }

  /** The loop thread takes the bytes from beginWrite(); another one copies the right ones. */
  function SendBufferAsWritten(c: Conn, m: Memory, onLoop: bool, res: WriteResult): Conn
    requires InMemory(m) && Fits(res, |Unread(m)|)
  {
    Send(c, if onLoop then Behind(m) else Unread(m), onLoop, res)
  }

  /** `behind` is what lies behind the unread bytes of the output buffer. */
  function HandleWriteAsWritten(c: Conn, behind: string, res: WriteResult): Conn
    requires |behind| >= |c.output| && Fits(res, |c.output|)
  {
    if !c.writing || !res.Wrote? || res.n == 0 then c
    else
      var c := c.(wire := c.wire + behind[..res.n], output := c.output[res.n..]);
      if c.output != "" then c else Emptied(c)
  }

  /** What is or will be on the wire of the bytes handed over so far. */
  function Committed(c: Conn): string {
    c.wire + c.output
  }

  // ----- the number of bytes is right -----

  /** All that sendInLoop does, but for which bytes it moves, depends on their number only. */
  lemma LengthDecides(c: Conn, d: Conn, a: string, b: string, res: WriteResult)
    requires Fits(res, |a|) && |a| == |b| && d == c.(sent := d.sent)
    ensures var x, y := SendInLoop(c, a, res), SendInLoop(d, b, res);
            && |x.wire| == |y.wire| && |x.output| == |y.output|
            && x.state == y.state && x.writing == y.writing && x.notices == y.notices
  {
    if !GivesUp(c, res) {
      var n := DirectBytes(c, res);
      assert |a[n..]| == |b[n..]| && |a[..n]| == |b[..n]|;
    }
  }

  lemma CountsSurvive(c: Conn, m: Memory, onLoop: bool, res: WriteResult)
    requires InMemory(m) && Fits(res, |Unread(m)|)
    ensures var d, e := SendBuffer(c, m, onLoop, res), SendBufferAsWritten(c, m, onLoop, res);
            && |d.wire| == |e.wire| && |d.output| == |e.output|
            && d.state == e.state && d.writing == e.writing && d.notices == e.notices
  {
    if c.state == Connected && onLoop {
      LengthDecides(c.(sent := c.sent + [Unread(m)]), c.(sent := c.sent + [Behind(m)]), Unread(m), Behind(m), res);
    }
  }

  lemma DrainCountsSurvive(c: Conn, behind: string, res: WriteResult)
    requires |behind| >= |c.output| && Fits(res, |c.output|)
    ensures var d, e := HandleWrite(c, res), HandleWriteAsWritten(c, behind, res);
            && |d.wire| == |e.wire| && d.output == e.output
            && d.state == e.state && d.writing == e.writing && d.notices == e.notices
            && |d.cuts| == |e.cuts|
  {
  }

  // ----- the bytes are right exactly when there are none -----

  /** An array that tells its unread bytes from those behind them. */
  function Telltale(reader: nat, writer: nat): Memory
    requires reader <= writer
  {
    Memory(seq(writer + (writer - reader), i => if i < writer then 'u' else 's'), reader, writer)
  }

  lemma SendDiffers(c: Conn, reader: nat, writer: nat)
    requires reader < writer && c.state == Connected
    ensures var m := Telltale(reader, writer);
            Committed(SendBufferAsWritten(c, m, true, WouldBlock)) != Committed(SendBuffer(c, m, true, WouldBlock))
  {
    var m := Telltale(reader, writer);
    var d := SendBuffer(c, m, true, WouldBlock);
    var e := SendBufferAsWritten(c, m, true, WouldBlock);
    assert d.wire == c.wire && d.output == c.output + Unread(m);
    assert e.wire == c.wire && e.output == c.output + Behind(m);
    var k := |Committed(c)|;
    assert Committed(d)[k] == Unread(m)[0] == 'u';
    assert Committed(e)[k] == Behind(m)[0] == 's';
  }

  /** send(Buffer*) as written commits the bytes of its argument, whatever memory holds and
      whatever the kernel answers, if and only if the call comes from another thread, finds
      the connection not connected, or is given a buffer without unread bytes. */
  lemma SendBufferRightIff(c: Conn, reader: nat, writer: nat, onLoop: bool)
    requires reader <= writer
    ensures (forall bytes: string, res: WriteResult |
               InMemory(Memory(bytes, reader, writer)) && Fits(res, writer - reader) ::
               Committed(SendBufferAsWritten(c, Memory(bytes, reader, writer), onLoop, res))
               == Committed(SendBuffer(c, Memory(bytes, reader, writer), onLoop, res)))
            <==> !onLoop || c.state != Connected || reader == writer
  {
    if onLoop && c.state == Connected && reader < writer {
      SendDiffers(c, reader, writer);
      assert InMemory(Memory(Telltale(reader, writer).bytes, reader, writer)) && Fits(WouldBlock, writer - reader);
    }
  }

  /** handleWrite as written puts the right bytes on the wire, whatever memory holds and
      whatever the kernel answers, if and only if write interest is off or the output buffer
      is empty. */
  lemma HandleWriteRightIff(c: Conn)
    ensures (forall behind: string, res: WriteResult |
               |behind| >= |c.output| && Fits(res, |c.output|) ::
               HandleWriteAsWritten(c, behind, res).wire == HandleWrite(c, res).wire)
            <==> !c.writing || c.output == ""
  {
    if c.writing && c.output != "" {
      var wrong := if c.output[0] == 's' then 'u' else 's';
      var behind := seq(|c.output|, _ => wrong);
      var d, e := HandleWrite(c, Wrote(1)), HandleWriteAsWritten(c, behind, Wrote(1));
      assert d.wire == c.wire + c.output[..1] && e.wire == c.wire + behind[..1];
      assert d.wire[|c.wire|] != e.wire[|c.wire|];
      assert |behind| >= |c.output| && Fits(Wrote(1), |c.output|);
    }
  }

  /** One reachable connection and a buffer holding "u" with "s" behind it, on a blocked
      socket: nothing is written by the call, and either error alone puts a wrong byte on
      the wire at the next write-ready event. */
  lemma WrongByteOnTheWire(config: Config) returns (c: Conn)
    ensures Leads(Fresh(config), [OpEstablish], c)
    ensures var m := Memory("us", 0, 1);
            var meant, written := SendBuffer(c, m, true, WouldBlock), SendBufferAsWritten(c, m, true, WouldBlock);
            && Unread(m) == "u" && meant.wire == written.wire == ""
            && meant.output == "u" && written.output == "s"
            && HandleWrite(meant, Wrote(1)).wire == "u"
            && HandleWrite(written, Wrote(1)).wire == "s"
            && HandleWriteAsWritten(meant, "t", Wrote(1)).wire == "t"
  {
    c := Apply(Fresh(config), OpEstablish);
    OutputPath.LeadsSnoc(Fresh(config), [], Fresh(config), OpEstablish);
    assert [] + [OpEstablish] == [OpEstablish];
    assert "us"[0..1] == "u" && "us"[1..2] == "s";
    assert "u"[0..] == "u" && "s"[0..] == "s" && "u"[..1] == "u" && "s"[..1] == "s" && "t"[..1] == "t";
    assert "" + "u" == "u" && "" + "s" == "s" && "" + "t" == "t";
  }
}
