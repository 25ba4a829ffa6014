/** Channels, the epoll poller and the kernel's interest set
    (src/net/poller/EpollPoller.cpp, src/net/Channel.{h,cpp}). */
module Poller {

  import opened Common

  /** kReadEvent is EPOLLIN | EPOLLPRI as one unit, kWriteEvent is EPOLLOUT. */
  datatype Interest = Interest(read: bool, write: bool)
  const NONE := Interest(false, false)

  datatype Revents = Revents(hup: bool, err: bool, pollIn: bool, pri: bool, out: bool)

  datatype Call = CloseCall | ErrorCall | ReadCall | WriteCall

  datatype CtlOp = CtlAdd | CtlMod | CtlDel

  class Channel {
    const fd: int
    var events: Interest
    var revents: Revents
    var index: Index

    constructor (fd: int)
      ensures this.fd == fd && events == NONE && index == New
    {
      this.fd := fd;
      events := NONE;
      revents := Revents(false, false, false, false, false);
      index := New;
    }

    predicate IsNoneEvent()
      reads this
    {
      events == NONE
    }

    method EnableReading(poller: EPollPoller)
      requires poller.Valid() && poller.MayUpdate(this)
      modifies this`events, this`index, poller
      ensures poller.Valid() && poller.Follows(old(poller.known), this)
      ensures events == old(events).(read := true) && poller.rejected == old(poller.rejected)
    {
      events := events.(read := true);
      poller.UpdateChannel(this, old(events));
    }

    method DisableReading(poller: EPollPoller)
      requires poller.Valid() && poller.MayUpdate(this)
      modifies this`events, this`index, poller
      ensures poller.Valid() && poller.Follows(old(poller.known), this)
      ensures events == old(events).(read := false) && poller.rejected == old(poller.rejected)
    {
      events := events.(read := false);
      poller.UpdateChannel(this, old(events));
    }

    method EnableWriting(poller: EPollPoller)
      requires poller.Valid() && poller.MayUpdate(this)
      modifies this`events, this`index, poller
      ensures poller.Valid() && poller.Follows(old(poller.known), this)
      ensures events == old(events).(write := true) && poller.rejected == old(poller.rejected)
    {
      events := events.(write := true);
      poller.UpdateChannel(this, old(events));
    }

    method DisableWriting(poller: EPollPoller)
      requires poller.Valid() && poller.MayUpdate(this)
      modifies this`events, this`index, poller
      ensures poller.Valid() && poller.Follows(old(poller.known), this)
      ensures events == old(events).(write := false) && poller.rejected == old(poller.rejected)
    {
      events := events.(write := false);
      poller.UpdateChannel(this, old(events));
    }

    method DisableAll(poller: EPollPoller)
      requires poller.Valid() && poller.MayUpdate(this)
      modifies this`events, this`index, poller
      ensures poller.Valid() && poller.Follows(old(poller.known), this)
      ensures events == NONE && poller.rejected == old(poller.rejected)
    {
      events := NONE;
      poller.UpdateChannel(this, old(events));
    }

    /** Channel::remove: only without interest, as its assert demands. */
    method Remove(poller: EPollPoller)
      requires poller.Valid() && this in poller.known && IsNoneEvent()
      modifies this`index, poller
      ensures poller.Valid() && poller.known == old(poller.known) - {this}
      ensures index == New && poller.rejected == old(poller.rejected)
      ensures this !in poller.channels.Values
    {
      poller.RemoveChannel(this);
      assert forall fd :: fd in poller.channels ==> poller.channels[fd] in poller.known;
    }

    /** The callbacks handleEventWithGuard makes, in order. */
    method HandleEventWithGuard() returns (calls: seq<Call>)
      ensures calls == CallsFor(revents)
    {
      calls := [];
      if revents.hup && !revents.pollIn {
        calls := calls + [CloseCall];
      }
      if revents.err {
        calls := calls + [ErrorCall];
      }
      if revents.pollIn || revents.pri {
        calls := calls + [ReadCall];
      }
      if revents.out {
        calls := calls + [WriteCall];
      }
    }
  }

  function CallsFor(r: Revents): seq<Call> {
    (if r.hup && !r.pollIn then [CloseCall] else [])
    + (if r.err then [ErrorCall] else [])
    + (if r.pollIn || r.pri then [ReadCall] else [])
    + (if r.out then [WriteCall] else [])
  }

  /** The order in which handleEventWithGuard comes to its callbacks. */
  function Place(c: Call): nat {
    match c
    case CloseCall => 0
    case ErrorCall => 1
    case ReadCall => 2
    case WriteCall => 3
  }

  /** Each callback is made if and only if its condition on the mask holds, once, and in order:
      close on a hang-up with nothing to read, error, read on readable or urgent data, write. */
  lemma CallsAreExact(r: Revents)
    ensures CloseCall in CallsFor(r) <==> r.hup && !r.pollIn
    ensures ErrorCall in CallsFor(r) <==> r.err
    ensures ReadCall in CallsFor(r) <==> r.pollIn || r.pri
    ensures WriteCall in CallsFor(r) <==> r.out
    ensures forall i, j :: 0 <= i < j < |CallsFor(r)| ==> Place(CallsFor(r)[i]) < Place(CallsFor(r)[j])
  {
  }

  /** How often these callbacks run TcpConnection::handleClose: once per close callback, and
      once per read callback that finds end of file. */
  function Closes(calls: seq<Call>, eof: bool): nat {
    if calls == [] then 0
    else (if calls[0] == CloseCall || (calls[0] == ReadCall && eof) then 1 else 0)
         + Closes(calls[1..], eof)
  }

  lemma {:induction false} ClosesAppend(a: seq<Call>, b: seq<Call>, eof: bool)
    ensures Closes(a + b, eof) == Closes(a, eof) + Closes(b, eof)
  {
    if a == [] {
      assert a + b == b;
    } else {
      assert (a + b)[1..] == a[1..] + b;
      ClosesAppend(a[1..], b, eof);
    }
  }

  /** One event closes its connection at most once, whatever the read finds, if and only if
      the kernel does not report a hang-up with urgent data but no readable data. */
  lemma ClosesOnceIff(r: Revents)
    ensures (forall eof :: Closes(CallsFor(r), eof) <= 1) <==> !(r.hup && r.pri && !r.pollIn)
  {
    forall eof ensures Closes(CallsFor(r), eof)
                       == (if r.hup && !r.pollIn then 1 else 0)
                          + (if (r.pollIn || r.pri) && eof then 1 else 0)
    {
      var a := if r.hup && !r.pollIn then [CloseCall] else [];
      var b := if r.err then [ErrorCall] else [];
      var c := if r.pollIn || r.pri then [ReadCall] else [];
      var d := if r.out then [WriteCall] else [];
      ClosesAppend(a + b + c, d, eof);
      ClosesAppend(a + b, c, eof);
      ClosesAppend(a, b, eof);
    }
    if r.hup && r.pri && !r.pollIn {
      assert Closes(CallsFor(r), true) == 2;
    }
  }

  class EPollPoller {
    var channels: map<int, Channel>
    /** The epoll instance: the pointer and mask stored for each descriptor, and the number
        of epoll_ctl calls it refused. */
    var kernel: map<int, (Channel, Interest)>
    var rejected: nat
    /** The channels this poller has been told about and not told to forget. */
    ghost var known: set<Channel>

    constructor ()
      ensures Valid() && known == {} && rejected == 0
    {
      channels, kernel, rejected, known := map[], map[], 0, {};
    }

    /** Agreement for one channel whose kernel mask is `mask`. */
    ghost predicate Agrees(ch: Channel, mask: Interest)
      reads this, ch
    {
      && ch.index != New
      && ch.fd in channels && channels[ch.fd] == ch
      && (ch.index == Added ==> ch.fd in kernel && kernel[ch.fd] == (ch, mask))
      && (ch.index == Deleted ==> ch.fd !in kernel && mask == NONE)
    }

    ghost predicate Valid()
      reads this, known
    {
      && (forall ch :: ch in known ==> Agrees(ch, ch.events))
      && (forall fd :: fd in channels ==> channels[fd] in known && channels[fd].fd == fd)
      && (forall fd :: fd in kernel ==> fd in channels && kernel[fd].0 == channels[fd])
    }

    /** What a channel's owner guarantees: a channel this poller does not know is new, and
        no registered channel has its descriptor. */
    ghost predicate MayUpdate(ch: Channel)
      reads this, ch
    {
      ch in known || (ch.index == New && ch.fd !in channels)
    }

    ghost predicate Follows(before: set<Channel>, ch: Channel)
      reads this
    {
      known == before + {ch}
    }

    /** epoll_ctl, which refuses to add what is present and to change what is absent. */
    method Update(op: CtlOp, channel: Channel)
      modifies this`kernel, this`rejected
      ensures var fd := channel.fd;
              var legal := if op == CtlAdd then fd !in old(kernel) else fd in old(kernel);
              && rejected == (if legal then old(rejected) else old(rejected) + 1)
              && kernel == (if !legal then old(kernel)
                            else if op == CtlDel then old(kernel) - {fd}
                            else old(kernel)[fd := (channel, channel.events)])
    {
      var fd := channel.fd;
      if (op == CtlAdd) == (fd in kernel) {
        rejected := rejected + 1;
      } else if op == CtlDel {
        kernel := kernel - {fd};
      } else {
        kernel := kernel[fd := (channel, channel.events)];
      }
    }

    /** The agreement, but for a channel that has just changed its events from `was`. */
    ghost predicate AgreesBut(channel: Channel, was: Interest)
      reads this, known, channel
    {
      && MayUpdate(channel)
      && (forall ch :: ch in known ==> Agrees(ch, if ch == channel then was else ch.events))
      && (forall fd :: fd in channels ==> channels[fd] in known && channels[fd].fd == fd)
      && (forall fd :: fd in kernel ==> fd in channels && kernel[fd].0 == channels[fd])
    }

    /** Called right after the channel changed its events from `was`. Every epoll_ctl made
        is accepted, and the agreement holds again with the new mask. */
    method UpdateChannel(channel: Channel, ghost was: Interest)
      requires AgreesBut(channel, was)
      modifies this, channel`index
      ensures Valid() && known == old(known) + {channel}
      ensures channel.index == NextIndex(old(channel.index), channel.events == NONE)
      ensures rejected == old(rejected)
    {
      if channel.index == New || channel.index == Deleted {
        Register(channel, was);
      } else {
        Change(channel, was);
      }
    }

    /** The branch for a channel that is not in the kernel's set. */
    method Register(channel: Channel, ghost was: Interest)
      requires AgreesBut(channel, was) && channel.index != Added
      modifies this, channel`index
      ensures Valid() && known == old(known) + {channel}
      ensures channel.index == Added && rejected == old(rejected)
    {
      var fd := channel.fd;
      if channel.index == New {
        channels := channels[fd := channel];
      } else {
        assert fd in channels;
        assert channels[fd] == channel;
      }
      channel.index := Added;
      Update(CtlAdd, channel);
      known := known + {channel};
    }

    /** The branch for one that is. */
    method Change(channel: Channel, ghost was: Interest)
      requires AgreesBut(channel, was) && channel.index == Added
      modifies this, channel`index
      ensures Valid() && known == old(known) + {channel}
      ensures channel.index == NextIndex(Added, channel.events == NONE)
      ensures rejected == old(rejected)
    {
      if channel.IsNoneEvent() {
        Update(CtlDel, channel);
        channel.index := Deleted;
      } else {
        Update(CtlMod, channel);
      }
    }

    method RemoveChannel(channel: Channel)
      requires Valid() && channel in known
      modifies this, channel`index
      ensures Valid() && known == old(known) - {channel}
      ensures channel.index == New && rejected == old(rejected)
      ensures channels == old(channels) - {channel.fd} && kernel == old(kernel) - {channel.fd}
    {
      var fd := channel.fd;
      channels := channels - {fd};
      if channel.index == Added {
        Update(CtlDel, channel);
      }
      channel.index := New;
      known := known - {channel};
    }

    predicate HasChannel(channel: Channel)
      reads this
    {
      channel.fd in channels && channels[channel.fd] == channel
    }

    /** epoll_wait reported these descriptors with these masks; their channels become the
        active list, in order. */
    method FillActiveChannels(ready: seq<(int, Revents)>) returns (active: seq<Channel>)
      requires Valid()
      requires forall i :: 0 <= i < |ready| ==> ready[i].0 in kernel
      requires forall i, j :: 0 <= i < j < |ready| ==> ready[i].0 != ready[j].0
      modifies known`revents
      ensures Valid() && |active| == |ready|
      ensures forall i :: 0 <= i < |ready| ==>
                && active[i] in known && active[i].fd == ready[i].0
                && active[i].index == Added && active[i].revents == ready[i].1
      ensures forall i, j :: 0 <= i < j < |active| ==> active[i] != active[j]
    {
      active := [];
      var i := 0;
      while i < |ready|
        invariant 0 <= i <= |ready| && |active| == i && Valid()
        invariant kernel == old(kernel) && channels == old(channels) && known == old(known)
        invariant forall k :: 0 <= k < i ==>
                    && active[k] in known && active[k].fd == ready[k].0
                    && active[k].index == Added && active[k].revents == ready[k].1
        modifies known`revents
      {
        var fd := ready[i].0;
        assert fd in kernel;
        assert fd in channels && kernel[fd].0 == channels[fd];
        var channel := kernel[fd].0;
        channel.revents := ready[i].1;
        active := active + [channel];
        i := i + 1;
      }
    }

    /** The three states of a channel tell exactly where it is registered. */
    lemma AgreementIsExact(ch: Channel)
      requires Valid() && (ch in known || (ch.index == New && ch !in channels.Values))
      ensures ch.index == Added <==>
              ch.fd in kernel && kernel[ch.fd] == (ch, ch.events)
      ensures ch.index == Deleted <==> HasChannel(ch) && ch.fd !in kernel
      ensures ch.index == New <==> !HasChannel(ch) && (ch.fd in kernel ==> kernel[ch.fd].0 != ch)
      ensures ch.index == Deleted ==> ch.events == NONE
    {
      if ch !in known {
        assert forall fd :: fd in channels ==> channels[fd] in channels.Values;
      }
    }
  }
}
