/** One whole handleRead, from the state before it to the state after it: which callbacks it
    makes and what becomes of every timer (src/time/TimerQueue.cpp). */
module TimerReads {
  import opened TimerSpec

  /** What addTimer is called with. */
  datatype NewTimer = NewTimer(when: int, interval: nat, repeat: bool)

  /** What happens between the reading of the timerfd and reset(). */
  datatype Event = Called | Asked(timer: NewTimer)

  function EventOf(s: Step): seq<Event> {
    match s
    case RunCallback => [Called]
    case Add(t, _) => [Asked(NewTimer(t.expiration, t.interval, t.repeat))]
    case _ => []
  }

  function Trace(steps: seq<Step>): seq<Event> {
    if steps == [] then [] else EventOf(steps[0]) + Trace(steps[1..])
  }

  lemma {:induction false} TraceAppend(a: seq<Step>, b: seq<Step>)
    ensures Trace(a + b) == Trace(a) + Trace(b)
    decreases |a|
  {
    if a == [] {
      assert a + b == b;
    } else {
      assert (a + b)[1..] == a[1..] + b;
      TraceAppend(a[1..], b);
    }
  }

  lemma TraceSnoc(steps: seq<Step>, s: Step)
    ensures Trace(steps + [s]) == Trace(steps) + EventOf(s)
  {
    TraceAppend(steps, [s]);
    assert [s][1..] == [];
  }

  /** The timer made for a request: a one-shot has no interval. */
  function Made(n: NewTimer): NewTimer {
    if n.repeat then n else n.(interval := 0)
  }

  function Asks(news: seq<NewTimer>): seq<Event> {
    if news == [] then [] else [Asked(Made(news[0]))] + Asks(news[1..])
  }

  lemma {:induction false} AsksSnoc(news: seq<NewTimer>, n: NewTimer)
    ensures Asks(news + [n]) == Asks(news) + [Asked(Made(n))]
    decreases |news|
  {
    if news == [] {
      assert news + [n] == [n];
    } else {
      assert (news + [n])[1..] == news[1..] + [n];
      AsksSnoc(news[1..], n);
    }
  }

  /** n callbacks in order, the k-th of which adds the timers adds(k). */
  function Requests(adds: nat -> seq<NewTimer>, n: nat): seq<Event> {
    if n == 0 then [] else Requests(adds, n - 1) + ([Called] + Asks(adds(n - 1)))
  }

  /** Steps of callbacks: calls, and the timers they add. */
  predicate CallSteps(steps: seq<Step>) {
    forall i :: 0 <= i < |steps| ==> steps[i].RunCallback? || steps[i].Add?
  }

  predicate ResetSteps(steps: seq<Step>) {
    forall i :: 0 <= i < |steps| ==> steps[i].ResetOne?
  }

  /** The steps of one handleRead. */
  function ReadSteps(now: int, calls: seq<Step>, resets: seq<Step>, end: int): seq<Step> {
    [BeginRead(now)] + calls + [EndCallbacks] + resets + [FinishRead(end)]
  }

  // ----- the callbacks -----

  /** The callbacks of a batch, in order, each for the timer as it is in `live`. */
  function Calls(batch: seq<Entry>, live: map<nat, Timer>, now: int): seq<Ran>
    requires forall e :: e in batch ==> e.id in live
  {
    seq(|batch|, i requires 0 <= i < |batch| => Ran(live[batch[i].id], now))
  }

  /** Where the callbacks of the batch that b has taken stand in t. */
  ghost predicate During(b: Queue, t: Queue) {
    && (forall e :: e in b.batch ==> e.id in b.live && e.id in b.used)
    && t.phase.Running? && t.phase.k <= |b.batch|
    && t.batch == b.batch && t.batchNow == b.batchNow && b.used <= t.used && b.clock <= t.clock
    && (forall id :: id in b.live && id in b.used ==> id in t.live && t.live[id] == b.live[id])
    && t.log == b.log + Calls(b.batch, b.live, b.batchNow)[..t.phase.k]
  }

  lemma DuringKeeps(b: Queue, t: Queue, s: Step)
    requires During(b, t) && Enabled(t, s) && (s.RunCallback? || s.Add?)
    ensures During(b, Apply(t, s))
  {
    if s.RunCallback? {
      var all := Calls(b.batch, b.live, b.batchNow);
      var k := t.phase.k;
      assert t.batch[k] in b.batch;
      assert all[..k + 1] == all[..k] + [all[k]];
    }
  }

  lemma {:induction false} DuringRun(b: Queue, t: Queue, steps: seq<Step>, u: Queue)
    requires During(b, t) && CallSteps(steps) && Leads(t, steps, u)
    ensures During(b, u)
    decreases |steps|
  {
    if steps != [] {
      DuringKeeps(b, t, steps[0]);
      DuringRun(b, Apply(t, steps[0]), steps[1..], u);
    }
  }

  lemma BeginDuring(q: Queue, now: int)
    requires Inv(q) && Enabled(q, BeginRead(now))
    ensures During(Begin(q, now), Begin(q, now))
  {
    var b := Begin(q, now);
    BeginMembers(q, now);
    forall e | e in b.batch ensures e.id in b.live && e.id in b.used {
      assert KeyOk(q, e);
    }
  }

  /** From the reading of the timerfd to the end of the callbacks, with any timers added
      meanwhile, the callbacks made are those of exactly the timers due, once each, in order
      of expiration. */
  lemma BatchIsRun(q: Queue, now: int, calls: seq<Step>, t: Queue)
    requires Inv(q) && Enabled(q, BeginRead(now))
    requires CallSteps(calls) && Leads(Begin(q, now), calls, t) && Enabled(t, EndCallbacks)
    ensures var b := Begin(q, now);
            && (forall e :: e in b.batch <==> e in q.timers && e.when <= now)
            && (forall e :: e in b.batch ==> e.id in q.live && q.live[e.id].expiration == e.when)
            && (forall i, j :: 0 <= i < j < |b.batch| ==>
                  b.batch[i].id != b.batch[j].id && b.batch[i].when <= b.batch[j].when)
            && t.log == q.log + Calls(b.batch, q.live, now)
  {
    var b := Begin(q, now);
    BeginSplits(q, now);
    BeginDuring(q, now);
    BeginBatch(q, now);
    DuringRun(b, b, calls, t);
    forall e | e in b.batch ensures e.id in q.live && q.live[e.id].expiration == e.when {
      assert KeyOk(q, e);
    }
    var all := Calls(b.batch, q.live, now);
    assert all[..|b.batch|] == all;
  }

  /** A timer added by a callback is there when the callbacks are over. */
  lemma {:induction false} AddedStay(b: Queue, t: Queue, steps: seq<Step>, u: Queue)
    requires During(b, t) && CallSteps(steps) && Leads(t, steps, u)
    ensures forall id :: id in t.live && id in t.used ==> id in u.live && u.live[id] == t.live[id]
    ensures forall i :: 0 <= i < |steps| && steps[i].Add? ==>
              && steps[i].t.id !in b.used
              && steps[i].t.id in u.live && u.live[steps[i].t.id] == steps[i].t
    decreases |steps|
  {
    if steps != [] {
      var v := Apply(t, steps[0]);
      DuringKeeps(b, t, steps[0]);
      AddedStay(b, v, steps[1..], u);
      forall i | 0 <= i < |steps| && steps[i].Add?
        ensures steps[i].t.id !in b.used
        ensures steps[i].t.id in u.live && u.live[steps[i].t.id] == steps[i].t {
        if i == 0 {
          assert steps[0].t.id in v.live && steps[0].t.id in v.used;
        } else {
          assert steps[i] == steps[1..][i - 1];
        }
      }
    }
  }

  // ----- what becomes of the timers -----

  /** A timer of the batch after reset(): restarted no earlier than `from`, or gone. */
  ghost predicate Settled(t: Timer, live: map<nat, Timer>, from: int) {
    if t.repeat then
      t.id in live && live[t.id].restartedAt.Some?
      && live[t.id].restartedAt.value >= from
      && live[t.id] == Restart(t, live[t.id].restartedAt.value)
    else t.id !in live
  }

  /** Where reset(), begun in m, stands in t. */
  ghost predicate Resets(m: Queue, t: Queue) {
    && t.phase.Resetting? && t.phase.k <= |m.batch| && t.batch == m.batch
    && t.log == m.log && m.clock <= t.clock
    && (forall i :: 0 <= i < |m.batch| ==> m.batch[i].id in m.live && m.live[m.batch[i].id].id == m.batch[i].id)
    && (forall i :: 0 <= i < t.phase.k ==> Settled(m.live[m.batch[i].id], t.live, m.clock))
    && (forall id :: id in m.live && !HasId(m.batch[..t.phase.k], id) ==>
          id in t.live && t.live[id] == m.live[id])
    && (forall id :: id in t.live ==> id in m.live)
  }

  lemma HasIdMore(batch: seq<Entry>, k: nat, id: nat)
    requires k < |batch|
    ensures HasId(batch[..k], id) ==> HasId(batch[..k + 1], id)
  {
    if HasId(batch[..k], id) {
      var i :| 0 <= i < k && batch[..k][i].id == id;
      assert batch[..k + 1][i].id == id;
    }
  }

  lemma ResetEffect(t: Queue, now: int, id: nat)
    requires Enabled(t, ResetOne(now)) && id == t.batch[t.phase.k].id && t.live[id].id == id
    ensures var u := ResetNext(t, now);
            && u.live == (if t.live[id].repeat then t.live[id := Restart(t.live[id], now)] else t.live - {id})
            && u.phase == Resetting(t.phase.k + 1) && u.batch == t.batch && u.log == t.log
            && u.clock >= t.clock && (t.live[id].repeat ==> u.clock == now >= t.clock)
  {
  }

  /** The timers whose turn was before or is now. */
  lemma ResetsSettle(m: Queue, t: Queue, now: int)
    requires Resets(m, t) && Enabled(t, ResetOne(now))
    requires forall i, j :: 0 <= i < j < |m.batch| ==> m.batch[i].id != m.batch[j].id
    ensures forall i :: 0 <= i < t.phase.k + 1 ==> Settled(m.live[m.batch[i].id], ResetNext(t, now).live, m.clock)
  {
    var k := t.phase.k;
    var id := m.batch[k].id;
    assert !HasId(m.batch[..k], id);
    assert t.live[id] == m.live[id];
    ResetEffect(t, now, id);
    forall i | 0 <= i < k + 1 ensures Settled(m.live[m.batch[i].id], ResetNext(t, now).live, m.clock) {
      if i < k {
        assert m.batch[i].id != id;
        assert Settled(m.live[m.batch[i].id], t.live, m.clock);
      }
    }
  }

  lemma ResetsKeeps(m: Queue, t: Queue, now: int)
    requires Resets(m, t) && Enabled(t, ResetOne(now))
    requires forall i, j :: 0 <= i < j < |m.batch| ==> m.batch[i].id != m.batch[j].id
    ensures Resets(m, ResetNext(t, now))
  {
    var k := t.phase.k;
    var id := m.batch[k].id;
    assert !HasId(m.batch[..k], id);
    ResetEffect(t, now, id);
    ResetsSettle(m, t, now);
    assert m.batch[..k + 1][k].id == id;
    forall other | other in m.live && !HasId(m.batch[..k + 1], other)
      ensures other in ResetNext(t, now).live && ResetNext(t, now).live[other] == m.live[other] {
      HasIdMore(m.batch, k, other);
    }
  }

  lemma {:induction false} ResetsRun(m: Queue, t: Queue, steps: seq<Step>, u: Queue)
    requires Resets(m, t) && ResetSteps(steps) && Leads(t, steps, u)
    requires forall i, j :: 0 <= i < j < |m.batch| ==> m.batch[i].id != m.batch[j].id
    ensures Resets(m, u)
    decreases |steps|
  {
    if steps != [] {
      ResetsKeeps(m, t, steps[0].now);
      ResetsRun(m, Apply(t, steps[0]), steps[1..], u);
    }
  }

  // ----- the whole of handleRead -----

  lemma {:induction false} LeadsSplit(q: Queue, a: seq<Step>, b: seq<Step>, r: Queue) returns (m: Queue)
    requires Leads(q, a + b, r)
    ensures Leads(q, a, m) && Leads(m, b, r)
    decreases |a|
  {
    if a == [] {
      assert a + b == b;
      m := q;
    } else {
      assert (a + b)[0] == a[0] && (a + b)[1..] == a[1..] + b;
      m := LeadsSplit(Apply(q, a[0]), a[1..], b, r);
    }
  }

  /** The states between the parts of a handleRead. */
  lemma Parts(q: Queue, now: int, calls: seq<Step>, resets: seq<Step>, end: int, r: Queue)
    returns (t: Queue, u: Queue)
    requires Leads(q, ReadSteps(now, calls, resets, end), r)
    ensures Enabled(q, BeginRead(now)) && Leads(Begin(q, now), calls, t)
    ensures Enabled(t, EndCallbacks) && Leads(t.(phase := Resetting(0)), resets, u)
    ensures Enabled(u, FinishRead(end)) && r == Finish(u, end)
  {
    var all := ReadSteps(now, calls, resets, end);
    var tail := [EndCallbacks] + resets + [FinishRead(end)];
    assert all == [BeginRead(now)] + (calls + tail);
    assert all[1..] == calls + tail;
    t := LeadsSplit(Begin(q, now), calls, tail, r);
    assert tail[1..] == resets + [FinishRead(end)];
    u := LeadsSplit(t.(phase := Resetting(0)), resets, [FinishRead(end)], r);
    assert [FinishRead(end)][1..] == [];
  }

  lemma ResetsBegin(q: Queue, now: int, t: Queue)
    requires Inv(q) && Enabled(q, BeginRead(now)) && During(Begin(q, now), t) && Enabled(t, EndCallbacks)
    ensures Resets(t.(phase := Resetting(0)), t.(phase := Resetting(0)))
  {
    var m := t.(phase := Resetting(0));
    BeginMembers(q, now);
    forall i | 0 <= i < |m.batch| ensures m.batch[i].id in m.live && m.live[m.batch[i].id].id == m.batch[i].id {
      assert m.batch[i] in Begin(q, now).batch;
      assert KeyOk(q, m.batch[i]);
    }
    assert m.batch[..0] == [];
  }

  /** The parts put together. */
  lemma Assemble(q: Queue, now: int, calls: seq<Step>, t: Queue, resets: seq<Step>, end: int, r: Queue)
    requires Inv(q) && Leads(q, [BeginRead(now)] + calls, t) && Enabled(t, EndCallbacks)
    requires Leads(Apply(t, EndCallbacks), resets + [FinishRead(end)], r)
    ensures Leads(q, ReadSteps(now, calls, resets, end), r) && Inv(r)
  {
    var head := [BeginRead(now)] + calls;
    TimerSpec.LeadsSnoc(q, head, t, EndCallbacks);
    TimerSpec.LeadsTrans(q, head + [EndCallbacks], Apply(t, EndCallbacks), resets + [FinishRead(end)], r);
    assert head + [EndCallbacks] + (resets + [FinishRead(end)]) == ReadSteps(now, calls, resets, end);
    TimerSpec.LeadsKeeps(q, ReadSteps(now, calls, resets, end), r);
  }

  /** What a handleRead does to the timers that were there: those of the batch are restarted
      or gone, the others are as they were. */
  ghost predicate TimersServed(q: Queue, now: int, r: Queue) {
    var batch := Begin(q, now).batch;
    && (forall e :: e in batch ==> e.id in q.live && Settled(q.live[e.id], r.live, now))
    && (forall id :: id in q.live && !HasId(batch, id) ==> id in r.live && r.live[id] == q.live[id])
  }

  /** The states between the parts, and what holds there. */
  lemma PartsOk(q: Queue, now: int, calls: seq<Step>, resets: seq<Step>, end: int, r: Queue)
    returns (t: Queue, u: Queue)
    requires Inv(q) && CallSteps(calls) && ResetSteps(resets)
    requires Leads(q, ReadSteps(now, calls, resets, end), r)
    ensures Enabled(q, BeginRead(now)) && Leads(Begin(q, now), calls, t)
    ensures Enabled(t, EndCallbacks) && During(Begin(q, now), t)
    ensures Resets(t.(phase := Resetting(0)), u) && u.phase == Resetting(|u.batch|)
    ensures r.live == u.live && r.log == u.log && r.phase == Idle
  {
    t, u := Parts(q, now, calls, resets, end, r);
    BeginDuring(q, now);
    BeginBatch(q, now);
    DuringRun(Begin(q, now), Begin(q, now), calls, t);
    var m := t.(phase := Resetting(0));
    ResetsBegin(q, now, t);
    assert m.batch == Begin(q, now).batch;
    ResetsRun(m, m, resets, u);
  }

  /** handleRead, from idle to idle: it calls back exactly the timers due, restarts or deletes
      exactly those, leaves the others alone, and the timers its callbacks add are there. */
  lemma ReadServes(q: Queue, now: int, calls: seq<Step>, resets: seq<Step>, end: int, r: Queue)
    requires Inv(q) && CallSteps(calls) && ResetSteps(resets)
    requires Leads(q, ReadSteps(now, calls, resets, end), r)
    ensures forall e :: e in Begin(q, now).batch ==> e.id in q.live
    ensures r.phase == Idle && r.log == q.log + Calls(Begin(q, now).batch, q.live, now)
    ensures TimersServed(q, now, r)
    ensures forall i :: 0 <= i < |calls| && calls[i].Add? ==>
              calls[i].t.id in r.live && r.live[calls[i].t.id] == calls[i].t
  {
    var t, u := PartsOk(q, now, calls, resets, end, r);
    BatchIsRun(q, now, calls, t);
    ServedAt(q, now, t, u, r);
    AddedServed(q, now, calls, t, u);
  }

  lemma AddedServed(q: Queue, now: int, calls: seq<Step>, t: Queue, u: Queue)
    requires Inv(q) && Enabled(q, BeginRead(now)) && CallSteps(calls)
    requires Leads(Begin(q, now), calls, t) && During(Begin(q, now), t)
    requires Resets(t.(phase := Resetting(0)), u) && u.phase == Resetting(|u.batch|)
    ensures forall i :: 0 <= i < |calls| && calls[i].Add? ==>
              calls[i].t.id in u.live && u.live[calls[i].t.id] == calls[i].t
  {
    var b := Begin(q, now);
    BeginDuring(q, now);
    AddedStay(b, b, calls, t);
    assert t.batch[..u.phase.k] == b.batch;
    forall i | 0 <= i < |calls| && calls[i].Add?
      ensures calls[i].t.id in u.live && u.live[calls[i].t.id] == calls[i].t {
      NotInBatch(b, calls[i].t.id);
    }
  }

  lemma NotInBatch(b: Queue, id: nat)
    requires During(b, b) && id !in b.used
    ensures !HasId(b.batch, id)
  {
  }

  lemma ServedAt(q: Queue, now: int, t: Queue, u: Queue, r: Queue)
    requires Inv(q) && Enabled(q, BeginRead(now)) && During(Begin(q, now), t)
    requires Resets(t.(phase := Resetting(0)), u) && u.phase == Resetting(|u.batch|)
    requires r.live == u.live
    ensures TimersServed(q, now, r)
  {
    var b := Begin(q, now);
    var m := t.(phase := Resetting(0));
    assert m.batch[..u.phase.k] == b.batch;
    forall e | e in b.batch ensures e.id in q.live && Settled(q.live[e.id], r.live, now) {
      var i :| 0 <= i < |b.batch| && b.batch[i] == e;
      assert m.live[e.id] == q.live[e.id];
      assert Settled(m.live[m.batch[i].id], u.live, m.clock);
    }
    forall id | id in q.live && !HasId(b.batch, id) ensures id in r.live && r.live[id] == q.live[id] {
      assert TimerOk(q, id) && id in q.used;
      assert m.live[id] == q.live[id];
    }
  }
}
