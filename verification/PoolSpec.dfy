/** The connection pool as a value (src/mysql/ConnectionPool.cpp). Every critical section
    under mtx_ is one step, so a list of steps is one interleaving of the producer, the
    recycler and any number of clients. */
module PoolSpec {

  datatype Conn = Conn(id: nat, lastActive: int)

  /** `current` is currentSize_, which is in static storage and starts at 0; `created` counts
      the connections ever made, which are numbered in that order. */
  datatype Pool = Pool(minSize: nat, maxSize: int, maxIdle: int, idle: seq<Conn>, lent: set<nat>,
                       current: int, created: nat, clock: int)

  /** addConnection, which itself counts the connection. */
  function AddConnection(p: Pool, now: int): Pool {
    p.(idle := p.idle + [Conn(p.created, now)], current := p.current + 1,
    created := p.created + 1, clock := now)
  }

  /** A connection is made and counted a second time by the caller. */
  function AddAndCount(p: Pool, now: int): Pool {
    var q := AddConnection(p, now);
    q.(current := q.current + 1)
  }

  /** What the producer does once it finds the queue empty. */
  function Produce(p: Pool, now: int): Pool {
    if p.current < p.maxSize then AddAndCount(p, now) else p
  }

  /** The recycler deletes the connection that has been idle longest. */
  function RecycleFront(p: Pool, now: int): Pool
    requires p.idle != []
  {
    p.(idle := p.idle[1..], current := p.current - 1, clock := now)
  }

  function Get(p: Pool): Pool
    requires p.idle != []
  {
    p.(idle := p.idle[1..], lent := p.lent + {p.idle[0].id})
  }

  /** The deleter of the shared_ptr handed out. */
  function GiveBack(p: Pool, id: nat, now: int): Pool {
    p.(idle := p.idle + [Conn(id, now)], lent := p.lent - {id}, clock := now)
  }

  datatype Step =
    | StepInit(now: int)
    | StepProduce(now: int)
    | StepRecycle(now: int)
    | StepGet
    | StepGiveBack(id: nat, now: int)

  /** The constructor's loop runs first, before any other thread exists. */
  predicate Enabled(p: Pool, s: Step) {
    match s
    case StepInit(now) => now >= p.clock && p.created < p.minSize
    case StepProduce(now) => now >= p.clock && p.created >= p.minSize && p.idle == []
    case StepRecycle(now) =>
      now >= p.clock && p.created >= p.minSize && |p.idle| > p.minSize
      && now - p.idle[0].lastActive >= p.maxIdle
    case StepGet => p.created >= p.minSize && p.idle != []
    case StepGiveBack(id, now) => now >= p.clock && p.created >= p.minSize && id in p.lent
  }

  function Apply(p: Pool, s: Step): Pool
    requires Enabled(p, s)
  {
    match s
    case StepInit(now) => AddAndCount(p, now)
    case StepProduce(now) => Produce(p, now)
    case StepRecycle(now) => RecycleFront(p, now)
    case StepGet => Get(p)
    case StepGiveBack(id, now) => GiveBack(p, id, now)
  }

  function Empty(minSize: nat, maxSize: int, maxIdle: int): Pool {
    Pool(minSize, maxSize, maxIdle, [], {}, 0, 0, 0)
  }

  ghost predicate Leads(p: Pool, steps: seq<Step>, q: Pool)
    decreases |steps|
  {
    if steps == [] then q == p
    else Enabled(p, steps[0]) && Leads(Apply(p, steps[0]), steps[1..], q)
  }

  lemma {:induction false} LeadsSnoc(p: Pool, steps: seq<Step>, q: Pool, s: Step)
    requires Leads(p, steps, q) && Enabled(q, s)
    ensures Leads(p, steps + [s], Apply(q, s))
    decreases |steps|
  {
    if steps == [] {
      assert ([] + [s])[1..] == [];
    } else {
      assert (steps + [s])[1..] == steps[1..] + [s];
      LeadsSnoc(Apply(p, steps[0]), steps[1..], q, s);
    }
  }

  // ----- the invariant -----

  function Live(p: Pool): nat {
    |p.idle| + |p.lent|
  }

  /** Each connection is idle at one place or lent, never both. */
  ghost predicate Partitioned(p: Pool) {
    && (forall i, j :: 0 <= i < j < |p.idle| ==> p.idle[i].id != p.idle[j].id)
    && (forall i :: 0 <= i < |p.idle| ==> p.idle[i].id < p.created && p.idle[i].id !in p.lent)
    && (forall id :: id in p.lent ==> id < p.created)
  }

  ghost predicate SortedByTime(p: Pool) {
    && (forall i, j :: 0 <= i < j < |p.idle| ==> p.idle[i].lastActive <= p.idle[j].lastActive)
    && (forall i :: 0 <= i < |p.idle| ==> p.idle[i].lastActive <= p.clock)
  }

  /** The counter as the code keeps it: every creation counts twice. */
  ghost predicate Counted(p: Pool) {
    p.current == Live(p) + p.created
  }

  ghost predicate Bounded(p: Pool) {
    p.created <= (if p.maxSize < p.minSize then p.minSize else p.maxSize) && Live(p) <= p.created
  }

  ghost predicate Inv(p: Pool) {
    Partitioned(p) && SortedByTime(p) && Counted(p) && Bounded(p)
  }

  lemma AddKeeps(p: Pool, now: int)
    requires Inv(p) && now >= p.clock && (p.created < p.minSize || p.current < p.maxSize)
    ensures Inv(AddAndCount(p, now))
  {
  }

  lemma RecycleKeeps(p: Pool, now: int)
    requires Inv(p) && p.idle != [] && now >= p.clock
    ensures Inv(RecycleFront(p, now))
  {
    assert p.idle == [p.idle[0]] + p.idle[1..];
  }

  lemma GetKeeps(p: Pool)
    requires Inv(p) && p.idle != []
    ensures Inv(Get(p))
  {
    assert p.idle == [p.idle[0]] + p.idle[1..];
    assert p.idle[0].id !in p.lent;
  }

  lemma GiveBackKeeps(p: Pool, id: nat, now: int)
    requires Inv(p) && id in p.lent && now >= p.clock
    ensures Inv(GiveBack(p, id, now))
  {
    assert p.lent == (p.lent - {id}) + {id};
  }

  lemma StepKeeps(p: Pool, s: Step)
    requires Inv(p) && Enabled(p, s)
    ensures Inv(Apply(p, s))
  {
    match s
    case StepInit(now) => AddKeeps(p, now);
    case StepProduce(now) =>
      if p.current < p.maxSize {
        AddKeeps(p, now);
      }
    case StepRecycle(now) => RecycleKeeps(p, now);
    case StepGet => GetKeeps(p);
    case StepGiveBack(id, now) => GiveBackKeeps(p, id, now);
  }

  lemma {:induction false} RunKeeps(p: Pool, steps: seq<Step>, q: Pool)
    requires Inv(p) && Leads(p, steps, q)
    ensures Inv(q)
    ensures q.minSize == p.minSize && q.maxSize == p.maxSize && q.maxIdle == p.maxIdle
    decreases |steps|
  {
    if steps != [] {
      StepKeeps(p, steps[0]);
      RunKeeps(Apply(p, steps[0]), steps[1..], q);
    }
  }

  // ----- main results -----

  /** A client gets, and the recycler deletes, a connection that no other one has been idle
      longer than; and of the recycler's, that is at least the idle time allowed, with more than
      minSize_ idle. */
  lemma OldestFirst(minSize: nat, maxSize: int, maxIdle: int, steps: seq<Step>, p: Pool, s: Step)
    requires Leads(Empty(minSize, maxSize, maxIdle), steps, p) && Enabled(p, s)
    requires s.StepGet? || s.StepRecycle?
    ensures p.idle != [] && Apply(p, s).idle == p.idle[1..]
    ensures forall i :: 0 <= i < |p.idle| ==> p.idle[0].lastActive <= p.idle[i].lastActive
    ensures s.StepGet? ==> Apply(p, s).lent == p.lent + {p.idle[0].id}
    ensures s.StepRecycle? ==> Apply(p, s).lent == p.lent && |p.idle| > minSize
                               && p.idle[0].lastActive + maxIdle <= s.now
  {
    RunKeeps(Empty(minSize, maxSize, maxIdle), steps, p);
  }

  /** A connection that is made or comes back joins the end of the queue, with the present time,
      and none there was active later. */
  lemma NewestLast(minSize: nat, maxSize: int, maxIdle: int, steps: seq<Step>, p: Pool, s: Step)
    requires Leads(Empty(minSize, maxSize, maxIdle), steps, p) && Enabled(p, s)
    requires s.StepInit? || s.StepGiveBack?
    ensures Apply(p, s).idle == p.idle + [Conn(if s.StepGiveBack? then s.id else p.created, s.now)]
    ensures forall i :: 0 <= i < |p.idle| ==> p.idle[i].lastActive <= s.now
    ensures Apply(p, s).lent == if s.StepGiveBack? then p.lent - {s.id} else p.lent
  {
    RunKeeps(Empty(minSize, maxSize, maxIdle), steps, p);
  }

  /** Over every interleaving, with minSize_ <= maxSize_: a connection is idle at one place
      or lent, never both; there are never more than maxSize_, not even over the whole
      lifetime of the pool; idle connections are sorted by last activity. */
  lemma PoolIsSound(minSize: nat, maxSize: int, maxIdle: int, steps: seq<Step>, p: Pool)
    requires minSize <= maxSize && Leads(Empty(minSize, maxSize, maxIdle), steps, p)
    ensures forall i, j :: 0 <= i < j < |p.idle| ==>
              p.idle[i].id != p.idle[j].id && p.idle[i].lastActive <= p.idle[j].lastActive
    ensures forall i :: 0 <= i < |p.idle| ==> p.idle[i].id !in p.lent
    ensures |p.idle| + |p.lent| <= p.created <= maxSize
  {
    RunKeeps(Empty(minSize, maxSize, maxIdle), steps, p);
  }

  /** currentSize_ is what its name says, the number of live connections, if and only if
      none was ever created; it is that number plus the number ever created. */
  lemma CounterIsExactIff(minSize: nat, maxSize: int, maxIdle: int, steps: seq<Step>, p: Pool)
    requires Leads(Empty(minSize, maxSize, maxIdle), steps, p)
    ensures p.current == |p.idle| + |p.lent| + p.created
    ensures p.current == |p.idle| + |p.lent| <==> p.created == 0
  {
    RunKeeps(Empty(minSize, maxSize, maxIdle), steps, p);
  }

  /** The producer, on finding no idle connection, makes one if and only if the lent ones
      plus all ever created are fewer than maxSize_. */
  lemma ProducesIff(minSize: nat, maxSize: int, maxIdle: int, steps: seq<Step>, p: Pool, now: int)
    requires Leads(Empty(minSize, maxSize, maxIdle), steps, p) && Enabled(p, StepProduce(now))
    ensures Produce(p, now).idle != [] <==> |p.lent| + p.created < maxSize
  {
    RunKeeps(Empty(minSize, maxSize, maxIdle), steps, p);
  }

  /** A pool allowed to grow to at most twice its initial size never grows at all, however
      many clients wait: the double count has used up the allowance. */
  lemma PoolNeverGrows(minSize: nat, maxSize: int, maxIdle: int, steps: seq<Step>, p: Pool)
    requires maxSize <= 2 * minSize && Leads(Empty(minSize, maxSize, maxIdle), steps, p)
    ensures |p.idle| + |p.lent| == p.created <= minSize
  {
    NeverGrows(Empty(minSize, maxSize, maxIdle), steps, p);
    RunKeeps(Empty(minSize, maxSize, maxIdle), steps, p);
  }

  lemma {:induction false} NeverGrows(p: Pool, steps: seq<Step>, q: Pool)
    requires Leads(p, steps, q) && Inv(p)
    requires p.maxSize <= 2 * p.minSize && Live(p) == p.created <= p.minSize
    ensures Live(q) == q.created <= q.minSize
    decreases |steps|
  {
    if steps != [] {
      var r := Apply(p, steps[0]);
      StepKeeps(p, steps[0]);
      if steps[0].StepGiveBack? {
        assert p.lent == r.lent + {steps[0].id};
      } else if steps[0].StepGet? {
        assert p.idle[0].id !in p.lent;
      }
      NeverGrows(r, steps[1..], q);
    }
  }
}
