/** The timer queue as a value: an ordered set of entries, the timers they point to, the
    batch being executed and one timerfd (src/time/TimerQueue.cpp, src/time/Timer.cpp,
    src/base/TimeStamp.h). Times are microseconds of one clock that never goes back;
    intervals are already truncated to microseconds. */
module TimerSpec {
  import opened Common
  import opened Strings

  /** `id` stands for the timer's address; addresses of earlier timers are not reused, so
      it also names the timer. `restartedAt` is the clock reading of the last restart. */
  datatype Timer = Timer(id: nat, expiration: int, interval: nat, repeat: bool,
                         restartedAt: Option<int>)

  datatype Entry = Entry(when: int, id: nat)

  /** The armed timerfd: when timerfd_settime was called and the absolute time it fires. */
  datatype Armed = Armed(at: int, deadline: int)

  /** One callback made: the timer as it was, and the `now` of its batch. */
  datatype Ran = Ran(timer: Timer, now: int)

  datatype Phase = Idle | Running(k: nat) | Resetting(k: nat)

  datatype Queue = Queue(timers: seq<Entry>, live: map<nat, Timer>, phase: Phase,
                         batch: seq<Entry>, batchNow: int, fd: Option<Armed>, clock: int,
                         used: set<nat>, log: seq<Ran>)

  const EMPTY := Queue([], map[], Idle, [], 0, None, 0, {}, [])

  // ----- the ordered set -----

  /** std::pair's order on (TimeStamp, Timer*). */
  predicate Before(a: Entry, b: Entry) {
    a.when < b.when || (a.when == b.when && a.id < b.id)
  }

  ghost predicate Sorted(ts: seq<Entry>) {
    forall i, j :: 0 <= i < j < |ts| ==> Before(ts[i], ts[j])
  }

  function InsertEntry(ts: seq<Entry>, e: Entry): seq<Entry> {
    if ts == [] || Before(e, ts[0]) then [e] + ts else [ts[0]] + InsertEntry(ts[1..], e)
  }

  /** lower_bound of (now, largest address): the length of the expired prefix. */
  function ExpiredCount(ts: seq<Entry>, now: int): (n: nat)
    ensures n <= |ts|
    ensures forall i :: 0 <= i < n ==> ts[i].when <= now
    ensures n < |ts| ==> now < ts[n].when
  {
    if ts == [] || now < ts[0].when then 0 else 1 + ExpiredCount(ts[1..], now)
  }

  predicate EarliestChanges(ts: seq<Entry>, when: int) {
    ts == [] || when < ts[0].when
  }

  // ----- the timerfd -----

  const MIN_DELAY: int := 100
  const PER_SECOND: int := 1_000_000

  /** The relative delay resetTimerfd asks for. */
  function Delay(expiration: int, now: int): int {
    Max(MIN_DELAY, expiration - now)
  }

  function Arm(q: Queue, expiration: int, now: int): Queue {
    q.(fd := Some(Armed(now, now + Delay(expiration, now))))
  }

  // ----- the operations -----

  function Insert(q: Queue, t: Timer): Queue {
    q.(timers := InsertEntry(q.timers, Entry(t.expiration, t.id)), live := q.live[t.id := t])
  }

  function AddTimer(q: Queue, t: Timer, now: int): Queue {
    var changed := EarliestChanges(q.timers, t.expiration);
    var q := Insert(q.(used := q.used + {t.id}, clock := now), t);
    if changed then Arm(q, t.expiration, now) else q
  }

  function Begin(q: Queue, now: int): Queue {
    var n := ExpiredCount(q.timers, now);
    q.(fd := None, clock := now, batchNow := now, phase := Running(0),
    batch := q.timers[..n], timers := q.timers[n..])
  }

  function RunNext(q: Queue): Queue
    requires q.phase.Running? && q.phase.k < |q.batch| && q.batch[q.phase.k].id in q.live
  {
    q.(log := q.log + [Ran(q.live[q.batch[q.phase.k].id], q.batchNow)], phase := Running(q.phase.k + 1))
  }

  /** Timer::restart. */
  function Restart(t: Timer, now: int): Timer {
    if t.repeat then t.(expiration := now + t.interval, restartedAt := Some(now))
    else t.(expiration := 0)
  }

  function ResetNext(q: Queue, now: int): Queue
    requires q.phase.Resetting? && q.phase.k < |q.batch| && q.batch[q.phase.k].id in q.live
  {
    var t := q.live[q.batch[q.phase.k].id];
    var q := q.(phase := Resetting(q.phase.k + 1));
    if t.repeat then Insert(q.(clock := now), Restart(t, now)) else q.(live := q.live - {t.id})
  }

  function Finish(q: Queue, now: int): Queue {
    var q := q.(phase := Idle, batch := []);
    if q.timers == [] then q else Arm(q.(clock := now), q.timers[0].when, now)
  }

  datatype Step =
    | Add(t: Timer, now: int)
    | BeginRead(now: int)
    | RunCallback
    | EndCallbacks
    | ResetOne(now: int)
    | FinishRead(now: int)

  /** Timers are added from outside or by a running callback; the clock never goes back. */
  predicate Enabled(q: Queue, s: Step) {
    match s
    case Add(t, now) =>
      && t.id !in q.used && now >= q.clock && t.restartedAt == None
      && (!t.repeat ==> t.interval == 0)
      && (q.phase == Idle || q.phase.Running?)
    case BeginRead(now) => q.phase == Idle && now >= q.clock
    case RunCallback => q.phase.Running? && q.phase.k < |q.batch| && q.batch[q.phase.k].id in q.live
    case EndCallbacks => q.phase == Running(|q.batch|)
    case ResetOne(now) =>
      now >= q.clock && q.phase.Resetting? && q.phase.k < |q.batch| && q.batch[q.phase.k].id in q.live
    case FinishRead(now) => now >= q.clock && q.phase == Resetting(|q.batch|)
  }

  function Apply(q: Queue, s: Step): Queue
    requires Enabled(q, s)
  {
    match s
    case Add(t, now) => AddTimer(q, t, now)
    case BeginRead(now) => Begin(q, now)
    case RunCallback => RunNext(q)
    case EndCallbacks => q.(phase := Resetting(0))
    case ResetOne(now) => ResetNext(q, now)
    case FinishRead(now) => Finish(q, now)
  }

  ghost predicate Leads(q: Queue, steps: seq<Step>, r: Queue)
    decreases |steps|
  {
    if steps == [] then r == q
    else Enabled(q, steps[0]) && Leads(Apply(q, steps[0]), steps[1..], r)
  }

  lemma {:induction false} LeadsSnoc(q: Queue, steps: seq<Step>, r: Queue, s: Step)
    requires Leads(q, steps, r) && Enabled(r, s)
    ensures Leads(q, steps + [s], Apply(r, s))
    decreases |steps|
  {
    if steps == [] {
      assert ([] + [s])[1..] == [];
    } else {
      assert (steps + [s])[1..] == steps[1..] + [s];
      LeadsSnoc(Apply(q, steps[0]), steps[1..], r, s);
    }
  }

  lemma {:induction false} LeadsTrans(q: Queue, first: seq<Step>, r: Queue, second: seq<Step>, u: Queue)
    requires Leads(q, first, r) && Leads(r, second, u)
    ensures Leads(q, first + second, u)
    decreases |first|
  {
    if first == [] {
      assert first + second == second;
    } else {
      assert (first + second)[1..] == first[1..] + second;
      LeadsTrans(Apply(q, first[0]), first[1..], r, second, u);
    }
  }

  // ----- the ordered set keeps its order -----

  ghost predicate HasId(ts: seq<Entry>, id: nat) {
    exists i :: 0 <= i < |ts| && ts[i].id == id
  }

  lemma {:induction false} InsertMembers(ts: seq<Entry>, e: Entry, x: Entry)
    ensures x in InsertEntry(ts, e) <==> x == e || x in ts
  {
    if ts != [] && !Before(e, ts[0]) {
      InsertMembers(ts[1..], e, x);
    }
  }

  lemma {:induction false} InsertSorted(ts: seq<Entry>, e: Entry)
    requires Sorted(ts) && forall i :: 0 <= i < |ts| ==> ts[i].id != e.id
    ensures Sorted(InsertEntry(ts, e))
    decreases |ts|
  {
    if ts != [] && !Before(e, ts[0]) {
      var rest := InsertEntry(ts[1..], e);
      InsertSorted(ts[1..], e);
      forall j | 0 <= j < |rest| ensures Before(ts[0], rest[j]) {
        InsertMembers(ts[1..], e, rest[j]);
        assert Before(ts[0], e);
        if rest[j] in ts[1..] {
          var i :| 0 <= i < |ts[1..]| && ts[1..][i] == rest[j];
          assert Before(ts[0], ts[i + 1]);
        }
      }
    }
  }

  lemma InsertHead(ts: seq<Entry>, e: Entry)
    requires Sorted(ts)
    ensures InsertEntry(ts, e) != []
    ensures InsertEntry(ts, e)[0].when == if EarliestChanges(ts, e.when) then e.when else ts[0].when
  {
  }

  // ----- the invariant -----

  /** The part of the batch whose timers have not been restarted or deleted yet. */
  function Unreset(q: Queue): seq<Entry> {
    match q.phase
    case Idle => []
    case Running(_) => q.batch
    case Resetting(k) => if k <= |q.batch| then q.batch[k..] else []
  }

  /** An entry's key is its timer's expiration. */
  ghost predicate KeyOk(q: Queue, e: Entry) {
    e.id in q.live && q.live[e.id].expiration == e.when && q.live[e.id].id == e.id
  }

  /** A timer that has been restarted expires one interval after that. */
  ghost predicate TimerOk(q: Queue, id: nat)
    requires id in q.live
  {
    var t := q.live[id];
    && t.id == id
    && (t.restartedAt.Some? ==> t.repeat && t.expiration == t.restartedAt.value + t.interval)
    && (t.restartedAt.None? && !t.repeat ==> t.interval == 0)
  }

  /** Live timers are those in the set plus those of the unfinished batch, each once. */
  ghost predicate LiveOk(q: Queue) {
    && (forall e :: e in q.timers ==> KeyOk(q, e))
    && (forall e :: e in Unreset(q) ==> KeyOk(q, e))
    && (forall id :: id in q.live ==>
          TimerOk(q, id) && id in q.used
          && (Entry(q.live[id].expiration, id) in q.timers || Entry(q.live[id].expiration, id) in Unreset(q)))
    && (forall e, f :: e in q.timers && f in Unreset(q) ==> e.id != f.id)
  }

  ghost predicate BatchOk(q: Queue) {
    && Sorted(q.timers) && Sorted(q.batch)
    && (q.phase == Idle ==> q.batch == [])
    && (forall e :: e in q.batch ==> e.when <= q.batchNow)
    && (forall i, j :: 0 <= i < j < |q.batch| ==> q.batch[i].id != q.batch[j].id)
    && (q.phase.Running? ==> q.phase.k <= |q.batch|)
    && (q.phase.Resetting? ==> q.phase.k <= |q.batch|)
  }

  /** Outside handleRead a non-empty queue has its timerfd set to fire at the earliest
      expiration, or 100 microseconds after it was armed if that is later. */
  ghost predicate ArmedOk(q: Queue) {
    && (q.timers == [] ==> q.fd.None?)
    && (q.phase == Idle && q.timers != [] ==>
      q.fd.Some? && q.fd.value.deadline == Max(q.timers[0].when, q.fd.value.at + MIN_DELAY))
  }

  /** Timers whose callback was made in this batch already. */
  ghost predicate DoneInBatch(q: Queue, id: nat) {
    exists i :: 0 <= i < |q.batch| && q.batch[i].id == id && (q.phase.Running? ==> i < q.phase.k)
                && (q.phase.Resetting? ==> q.phase.k <= i)
  }

  /** Callbacks were made only when due; one-shots once, and never again. */
  ghost predicate LogOk(q: Queue) {
    && (forall r :: r in q.log ==>
          && r.timer.id in q.used && r.timer.expiration <= r.now
          && (r.timer.restartedAt.Some? ==> r.now >= r.timer.restartedAt.value + r.timer.interval)
          && (r.timer.id in q.live ==>
                q.live[r.timer.id].repeat == r.timer.repeat
                && (!r.timer.repeat ==> DoneInBatch(q, r.timer.id))))
    && (forall i, j :: 0 <= i < j < |q.log| && q.log[i].timer.id == q.log[j].timer.id ==>
          q.log[i].timer.repeat && q.log[j].timer.repeat)
  }

  ghost predicate Inv(q: Queue) {
    LiveOk(q) && BatchOk(q) && ArmedOk(q) && LogOk(q)
  }

  // ----- every operation keeps the invariant -----

  /** Inserting a timer that is in neither part of the queue. */
  lemma InsertLive(q: Queue, t: Timer)
    requires LiveOk(q) && BatchOk(q)
    requires forall e :: e in q.timers || e in Unreset(q) ==> e.id != t.id
    requires t.id in q.used && TimerOk(q.(live := q.live[t.id := t]), t.id)
    ensures LiveOk(Insert(q, t)) && BatchOk(Insert(q, t))
  {
    var r := Insert(q, t);
    var e := Entry(t.expiration, t.id);
    forall x ensures x in r.timers <==> x == e || x in q.timers {
      InsertMembers(q.timers, e, x);
    }
    assert Unreset(r) == Unreset(q);
    InsertSorted(q.timers, e);
    forall id | id in r.live
      ensures TimerOk(r, id) && id in r.used
              && (Entry(r.live[id].expiration, id) in r.timers || Entry(r.live[id].expiration, id) in Unreset(r))
    {
      if id != t.id {
        assert TimerOk(q, id);
      }
    }
    forall x | x in r.timers ensures KeyOk(r, x) {
      if x != e {
        assert KeyOk(q, x);
      }
    }
    forall x | x in Unreset(r) ensures KeyOk(r, x) {
      assert KeyOk(q, x);
    }
  }

  /** The clock, the timerfd, the log and more used names do not matter to LiveOk. */
  lemma LiveFrame(q: Queue, r: Queue)
    requires LiveOk(q) && BatchOk(q)
    requires r.timers == q.timers && r.live == q.live && r.phase == q.phase
    requires r.batch == q.batch && r.batchNow == q.batchNow && q.used <= r.used
    ensures LiveOk(r) && BatchOk(r)
  {
    assert Unreset(r) == Unreset(q);
    forall x | x in r.timers || x in Unreset(r) ensures KeyOk(r, x) {
      assert KeyOk(q, x);
    }
    forall id | id in r.live ensures TimerOk(r, id) {
      assert TimerOk(q, id);
    }
  }

  lemma NewTimerIsNew(q: Queue, t: Timer)
    requires LiveOk(q) && t.id !in q.used
    ensures t.id !in q.live
    ensures forall x :: x in q.timers || x in Unreset(q) ==> x.id != t.id
  {
    forall x | x in q.timers || x in Unreset(q) ensures x.id != t.id {
      assert KeyOk(q, x);
    }
  }

  lemma AddLive(q: Queue, t: Timer, now: int)
    requires LiveOk(q) && BatchOk(q) && Enabled(q, Add(t, now))
    ensures LiveOk(AddTimer(q, t, now)) && BatchOk(AddTimer(q, t, now))
  {
    var q1 := q.(used := q.used + {t.id}, clock := now);
    NewTimerIsNew(q, t);
    LiveFrame(q, q1);
    assert Unreset(q1) == Unreset(q);
    InsertLive(q1, t);
    LiveFrame(Insert(q1, t), AddTimer(q, t, now));
  }

  lemma AddKeeps(q: Queue, t: Timer, now: int)
    requires Inv(q) && Enabled(q, Add(t, now))
    ensures Inv(AddTimer(q, t, now))
  {
    var r := AddTimer(q, t, now);
    AddLive(q, t, now);
    NewTimerIsNew(q, t);
    InsertHead(q.timers, Entry(t.expiration, t.id));
    assert ArmedOk(r);
    assert LogOk(r) by {
      assert forall id :: DoneInBatch(q, id) ==> DoneInBatch(r, id);
      assert r.log == q.log && forall l :: l in q.log ==> l.timer.id != t.id;
    }
  }

  lemma EntriesDiffer(q: Queue, i: nat, j: nat)
    requires LiveOk(q) && BatchOk(q) && i < j < |q.timers|
    ensures q.timers[i].id != q.timers[j].id
  {
    assert KeyOk(q, q.timers[i]) && KeyOk(q, q.timers[j]);
    assert Before(q.timers[i], q.timers[j]);
  }

  lemma BeginBatch(q: Queue, now: int)
    requires LiveOk(q) && BatchOk(q) && q.phase == Idle
    ensures BatchOk(Begin(q, now))
  {
    var r := Begin(q, now);
    var n := ExpiredCount(q.timers, now);
    forall i, j | 0 <= i < j < |r.batch| ensures r.batch[i].id != r.batch[j].id {
      EntriesDiffer(q, i, j);
    }
  }

  lemma BeginMembers(q: Queue, now: int)
    ensures forall e :: e in q.timers <==> e in Begin(q, now).timers || e in Begin(q, now).batch
  {
    var r := Begin(q, now);
    assert q.timers == r.batch + r.timers;
  }

  lemma BeginApart(q: Queue, now: int)
    requires LiveOk(q) && BatchOk(q)
    ensures forall x, y :: x in Begin(q, now).timers && y in Begin(q, now).batch ==> x.id != y.id
  {
    var r := Begin(q, now);
    var n := ExpiredCount(q.timers, now);
    forall x, y | x in r.timers && y in r.batch ensures x.id != y.id {
      var i :| 0 <= i < |r.timers| && r.timers[i] == x;
      var j :| 0 <= j < |r.batch| && r.batch[j] == y;
      EntriesDiffer(q, j, n + i);
    }
  }

  lemma BeginLive(q: Queue, now: int)
    requires LiveOk(q) && BatchOk(q) && q.phase == Idle
    ensures LiveOk(Begin(q, now))
  {
    var r := Begin(q, now);
    BeginMembers(q, now);
    BeginApart(q, now);
    assert Unreset(r) == r.batch;
    forall x | x in r.timers || x in Unreset(r) ensures KeyOk(r, x) {
      assert KeyOk(q, x);
    }
    forall id | id in r.live
      ensures TimerOk(r, id) && id in r.used
              && (Entry(r.live[id].expiration, id) in r.timers || Entry(r.live[id].expiration, id) in Unreset(r))
    {
      assert TimerOk(q, id);
    }
  }

  /** Timers that may still run in this batch have not run in it. */
  lemma NotDoneYet(q: Queue, id: nat)
    requires BatchOk(q)
    requires || q.phase == Idle
             || (q.phase.Running? && q.phase.k < |q.batch| && id == q.batch[q.phase.k].id)
             || q.phase == Resetting(|q.batch|)
    ensures !DoneInBatch(q, id)
  {
  }

  lemma BeginKeeps(q: Queue, now: int)
    requires Inv(q) && Enabled(q, BeginRead(now))
    ensures Inv(Begin(q, now))
  {
    BeginBatch(q, now);
    BeginLive(q, now);
    forall l | l in q.log && l.timer.id in q.live ensures l.timer.repeat {
      NotDoneYet(q, l.timer.id);
    }
  }

  lemma RunLive(q: Queue)
    requires LiveOk(q) && BatchOk(q) && Enabled(q, RunCallback)
    ensures LiveOk(RunNext(q)) && BatchOk(RunNext(q))
  {
    var r := RunNext(q);
    assert Unreset(r) == Unreset(q);
    assert forall x :: KeyOk(q, x) ==> KeyOk(r, x);
    assert forall id :: id in q.live ==> TimerOk(q, id) ==> TimerOk(r, id);
  }

  lemma RunKeeps(q: Queue)
    requires Inv(q) && Enabled(q, RunCallback)
    ensures Inv(RunNext(q))
  {
    RunLive(q);
    RunLog(q);
  }

  lemma RunLog(q: Queue)
    requires Inv(q) && Enabled(q, RunCallback)
    ensures LogOk(RunNext(q))
  {
    var r := RunNext(q);
    var k := q.phase.k;
    var e := q.batch[k];
    assert e in Unreset(q) && KeyOk(q, e) && TimerOk(q, e.id);
    assert DoneInBatch(r, e.id);
    NotDoneYet(q, e.id);
    forall id | DoneInBatch(q, id) ensures DoneInBatch(r, id) {
      var i :| 0 <= i < |q.batch| && q.batch[i].id == id && i < k;
    }
  }

  lemma EndCallbacksKeeps(q: Queue)
    requires Inv(q) && Enabled(q, EndCallbacks)
    ensures Inv(Apply(q, EndCallbacks))
  {
    var r := Apply(q, EndCallbacks);
    assert Unreset(r) == q.batch[0..] == q.batch;
    assert forall x :: KeyOk(q, x) ==> KeyOk(r, x);
    assert forall id :: id in q.live ==> TimerOk(q, id) ==> TimerOk(r, id);
    forall id | DoneInBatch(q, id) ensures DoneInBatch(r, id) {
      var i :| 0 <= i < |q.batch| && q.batch[i].id == id && i < |q.batch|;
    }
  }

  /** The state once the k-th timer of the batch has left it, before it is re-inserted. */
  function Dropped(q: Queue): Queue
    requires q.phase.Resetting? && q.phase.k < |q.batch|
  {
    q.(phase := Resetting(q.phase.k + 1), live := q.live - {q.batch[q.phase.k].id})
  }

  lemma DroppedApart(q: Queue)
    requires BatchOk(q) && q.phase.Resetting? && q.phase.k < |q.batch|
    ensures var e := q.batch[q.phase.k];
            && Unreset(q) == [e] + Unreset(Dropped(q))
            && forall x :: x in Unreset(Dropped(q)) ==> x.id != e.id
  {
    var rest := Unreset(Dropped(q));
    var k := q.phase.k;
    assert Unreset(q) == [q.batch[k]] + rest;
    forall x | x in rest ensures x.id != q.batch[k].id {
      var i :| 0 <= i < |rest| && rest[i] == x;
      assert q.batch[k + 1 + i] == x;
    }
  }

  lemma DroppedEntries(q: Queue)
    requires LiveOk(q) && BatchOk(q) && q.phase.Resetting? && q.phase.k < |q.batch|
    ensures var e := q.batch[q.phase.k];
            && Unreset(q) == [e] + Unreset(Dropped(q)) && KeyOk(q, e)
            && forall x :: x in q.timers || x in Unreset(Dropped(q)) ==> x.id != e.id
  {
    DroppedApart(q);
    assert q.batch[q.phase.k] in Unreset(q);
  }

  lemma DroppedKeeps(q: Queue)
    requires LiveOk(q) && BatchOk(q) && q.phase.Resetting? && q.phase.k < |q.batch|
    ensures LiveOk(Dropped(q)) && BatchOk(Dropped(q))
  {
    var r := Dropped(q);
    var e := q.batch[q.phase.k];
    DroppedEntries(q);
    forall x | x in r.timers || x in Unreset(r) ensures KeyOk(r, x) {
      assert KeyOk(q, x);
    }
    forall id | id in r.live
      ensures TimerOk(r, id)
              && (Entry(r.live[id].expiration, id) in r.timers || Entry(r.live[id].expiration, id) in Unreset(r))
    {
      assert TimerOk(q, id);
    }
  }

  /** Restarting is dropping and inserting again. */
  lemma RestartIsInsert(q: Queue, now: int)
    requires LiveOk(q) && BatchOk(q) && Enabled(q, ResetOne(now))
    requires q.live[q.batch[q.phase.k].id].repeat
    ensures var t := q.live[q.batch[q.phase.k].id];
            && t.id == q.batch[q.phase.k].id && t.id in q.used
            && ResetNext(q, now) == Insert(Dropped(q).(clock := now), Restart(t, now))
  {
    DroppedEntries(q);
    var t := q.live[q.batch[q.phase.k].id];
    assert TimerOk(q, t.id);
    assert (q.live - {t.id})[t.id := Restart(t, now)] == q.live[t.id := Restart(t, now)];
  }

  lemma RestartLive(q: Queue, now: int)
    requires LiveOk(q) && BatchOk(q) && Enabled(q, ResetOne(now))
    requires q.live[q.batch[q.phase.k].id].repeat
    ensures LiveOk(ResetNext(q, now)) && BatchOk(ResetNext(q, now))
  {
    RestartIsInsert(q, now);
    DroppedEntries(q);
    DroppedKeeps(q);
    var t := Restart(q.live[q.batch[q.phase.k].id], now);
    var d := Dropped(q).(clock := now);
    LiveFrame(Dropped(q), d);
    assert Unreset(d) == Unreset(Dropped(q));
    assert TimerOk(d.(live := d.live[t.id := t]), t.id);
    InsertLive(d, t);
  }

  lemma ResetLive(q: Queue, now: int)
    requires LiveOk(q) && BatchOk(q) && Enabled(q, ResetOne(now))
    ensures LiveOk(ResetNext(q, now)) && BatchOk(ResetNext(q, now))
  {
    DroppedEntries(q);
    if q.live[q.batch[q.phase.k].id].repeat {
      RestartLive(q, now);
    } else {
      DroppedKeeps(q);
    }
  }

  lemma ResetDone(q: Queue, now: int, id: nat)
    requires LiveOk(q) && BatchOk(q) && Enabled(q, ResetOne(now))
    requires DoneInBatch(q, id) && id != q.batch[q.phase.k].id
    ensures DoneInBatch(ResetNext(q, now), id)
  {
    var i :| 0 <= i < |q.batch| && q.batch[i].id == id && q.phase.k <= i;
    assert ResetNext(q, now).batch[i].id == id;
  }

  lemma ResetKeeps(q: Queue, now: int)
    requires Inv(q) && Enabled(q, ResetOne(now))
    ensures Inv(ResetNext(q, now))
  {
    ResetLive(q, now);
    ResetLog(q, now);
  }

  lemma ResetLog(q: Queue, now: int)
    requires Inv(q) && Enabled(q, ResetOne(now))
    ensures LogOk(ResetNext(q, now))
  {
    DroppedEntries(q);
    var r := ResetNext(q, now);
    var id := q.batch[q.phase.k].id;
    assert r.log == q.log && r.used == q.used;
    assert forall j :: j in r.live && j != id ==> j in q.live && r.live[j] == q.live[j];
    assert id in r.live ==> q.live[id].repeat && r.live[id].repeat;
    forall l | l in r.log && l.timer.id in r.live
      ensures r.live[l.timer.id].repeat == l.timer.repeat
      ensures !l.timer.repeat ==> DoneInBatch(r, l.timer.id)
    {
      if l.timer.id != id && !l.timer.repeat {
        ResetDone(q, now, l.timer.id);
      }
    }
  }

  lemma FinishKeeps(q: Queue, now: int)
    requires Inv(q) && Enabled(q, FinishRead(now))
    ensures Inv(Finish(q, now))
  {
    var r := Finish(q, now);
    assert Unreset(q) == [] && Unreset(r) == [];
    assert forall x :: KeyOk(q, x) ==> KeyOk(r, x);
    assert forall id :: id in q.live ==> TimerOk(q, id) ==> TimerOk(r, id);
    forall l | l in q.log && l.timer.id in q.live ensures l.timer.repeat {
      NotDoneYet(q, l.timer.id);
    }
  }

  lemma StepKeeps(q: Queue, s: Step)
    requires Inv(q) && Enabled(q, s)
    ensures Inv(Apply(q, s))
  {
    match s
    case Add(t, now) => AddKeeps(q, t, now);
    case BeginRead(now) => BeginKeeps(q, now);
    case RunCallback => RunKeeps(q);
    case EndCallbacks => EndCallbacksKeeps(q);
    case ResetOne(now) => ResetKeeps(q, now);
    case FinishRead(now) => FinishKeeps(q, now);
  }

  lemma {:induction false} LeadsKeeps(q: Queue, steps: seq<Step>, r: Queue)
    requires Inv(q) && Leads(q, steps, r)
    ensures Inv(r)
    decreases |steps|
  {
    if steps != [] {
      StepKeeps(q, steps[0]);
      LeadsKeeps(Apply(q, steps[0]), steps[1..], r);
    }
  }

  // ----- main results -----

  /** Over every run: each entry's key is its timer's expiration, and the live timers are
      exactly those in the set and those of the unfinished batch. */
  lemma LiveIsQueued(steps: seq<Step>, q: Queue, id: nat)
    requires Leads(EMPTY, steps, q)
    ensures id in q.live <==> HasId(q.timers, id) || HasId(Unreset(q), id)
    ensures forall e :: e in q.timers ==> e.id in q.live && q.live[e.id].expiration == e.when
    ensures Sorted(q.timers)
  {
    LeadsKeeps(EMPTY, steps, q);
    if id in q.live {
      var e := Entry(q.live[id].expiration, id);
      if e in q.timers {
        var i :| 0 <= i < |q.timers| && q.timers[i] == e;
      } else {
        var i :| 0 <= i < |Unreset(q)| && Unreset(q)[i] == e;
      }
    }
    forall e | e in q.timers || e in Unreset(q) ensures e.id in q.live {
      assert KeyOk(q, e);
    }
    forall e | e in q.timers ensures e.id in q.live && q.live[e.id].expiration == e.when {
      assert KeyOk(q, e);
    }
  }

  /** lower_bound on a sorted set: what is before it is due, what is behind it is not. */
  lemma SplitAtNow(timers: seq<Entry>, now: int)
    requires Sorted(timers)
    ensures var n := ExpiredCount(timers, now);
            && (forall e :: e in timers[..n] ==> e.when <= now)
            && (forall e :: e in timers[n..] ==> e.when > now)
            && (forall i, j :: 0 <= i < j < n ==> timers[i].when <= timers[j].when)
  {
    var n := ExpiredCount(timers, now);
    forall e | e in timers[n..] ensures e.when > now {
      var i :| 0 <= i < |timers| - n && timers[n..][i] == e;
      if i > 0 {
        assert Before(timers[n], timers[n + i]);
      }
    }
    forall i, j | 0 <= i < j < n ensures timers[i].when <= timers[j].when {
      assert Before(timers[i], timers[j]);
    }
  }

  lemma BeginSplits(q: Queue, now: int)
    requires Sorted(q.timers)
    ensures var r := Begin(q, now);
            && r.batch + r.timers == q.timers
            && (forall e :: e in r.batch <==> e in q.timers && e.when <= now)
            && (forall i, j :: 0 <= i < j < |r.batch| ==> r.batch[i].when <= r.batch[j].when)
  {
    SplitAtNow(q.timers, now);
    assert q.timers == Begin(q, now).batch + Begin(q, now).timers;
  }

  /** A batch is exactly the timers due by its `now`, in nondecreasing expiration order. */
  lemma BatchIsTheDue(steps: seq<Step>, q: Queue, now: int)
    requires Leads(EMPTY, steps, q) && Enabled(q, BeginRead(now))
    ensures var r := Begin(q, now);
            && r.batch + r.timers == q.timers
            && (forall e :: e in r.batch <==> e in q.timers && e.when <= now)
            && (forall i, j :: 0 <= i < j < |r.batch| ==> r.batch[i].when <= r.batch[j].when)
  {
    LeadsKeeps(EMPTY, steps, q);
    BeginSplits(q, now);
  }

  /** Every callback made was due; one-shot timers run at most once and are gone after
      their batch; a restarted timer runs again no earlier than one interval after its
      previous restart. */
  lemma CallbacksAreDue(steps: seq<Step>, q: Queue, i: nat)
    requires Leads(EMPTY, steps, q) && i < |q.log|
    ensures var r := q.log[i];
            && r.timer.expiration <= r.now
            && (r.timer.restartedAt.Some? ==> r.now >= r.timer.restartedAt.value + r.timer.interval)
            && (!r.timer.repeat ==> forall j :: 0 <= j < |q.log| && j != i ==> q.log[j].timer.id != r.timer.id)
            && (!r.timer.repeat && q.phase == Idle ==> r.timer.id !in q.live)
  {
    LeadsKeeps(EMPTY, steps, q);
    var r := q.log[i];
    assert r in q.log;
    if q.phase == Idle {
      NotDoneYet(q, r.timer.id);
    }
  }

  /** Over every run, an armed timerfd has a timer to fire for: with none in the set, it is not
      armed, as each handleRead has cleared it. */
  lemma DisarmedWhenEmpty(steps: seq<Step>, q: Queue)
    requires Leads(EMPTY, steps, q) && q.timers == []
    ensures q.fd.None?
  {
    LeadsKeeps(EMPTY, steps, q);
  }

  lemma BeforeAllIff(ts: seq<Entry>, when: int)
    requires Sorted(ts)
    ensures ts == [] || when < ts[0].when <==> forall e :: e in ts ==> when < e.when
    ensures ts != [] ==> forall e :: e in ts ==> ts[0].when <= e.when
  {
    if ts != [] {
      assert ts[0] in ts;
      forall e | e in ts ensures ts[0].when <= e.when {
        var i :| 0 <= i < |ts| && ts[i] == e;
        assert i > 0 ==> Before(ts[0], ts[i]);
      }
    }
  }

  /** A new timer arms the timerfd if and only if it comes strictly before all others, for its
      expiration or 100 microseconds ahead if that is later. */
  lemma AddArmsIff(steps: seq<Step>, q: Queue, t: Timer, now: int)
    requires Leads(EMPTY, steps, q) && Enabled(q, Add(t, now))
    ensures Apply(q, Add(t, now)).fd
            == if forall e :: e in q.timers ==> t.expiration < e.when
               then Some(Armed(now, if t.expiration > now + 100 then t.expiration else now + 100))
               else q.fd
  {
    LeadsKeeps(EMPTY, steps, q);
    BeforeAllIff(q.timers, t.expiration);
  }

  /** Timer arming, over every run: outside handleRead a non-empty queue has its deadline set to
      exactly the earliest expiration, or 100 microseconds after arming if that is later. */
  lemma ArmedInTime(steps: seq<Step>, q: Queue)
    requires Leads(EMPTY, steps, q) && q.phase == Idle && q.timers != []
    ensures q.fd.Some?
    ensures var at, earliest := q.fd.value.at, q.timers[0].when;
            q.fd.value.deadline == if earliest > at + 100 then earliest else at + 100
    ensures forall e :: e in q.timers ==> q.timers[0].when <= e.when
  {
    LeadsKeeps(EMPTY, steps, q);
    BeforeAllIff(q.timers, q.timers[0].when);
  }
}
