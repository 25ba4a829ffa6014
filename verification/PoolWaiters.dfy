/** Clients that wait for a connection (src/mysql/ConnectionPool.cpp): the deleter that returns
    a connection does not notify, so a waiting client may sleep on although one is idle. */
module PoolWaiters {
  import opened PoolSpec

  /** `asleep` clients are blocked in wait_for; `awake` ones have been notified, have timed out
      or have been woken spuriously, and have yet to look at the queue again. */
  datatype State = State(pool: Pool, asleep: nat, awake: nat)

  /** A client arrives, looks again, or wakes alone (by its timeout or spuriously); or the
      producer, the recycler or a deleter runs its section. */
  datatype Move =
    | Arrive
    | Look
    | WakeAlone
    | Other(step: Step)

  predicate CanMove(s: State, m: Move) {
    match m
    case Arrive => s.pool.created >= s.pool.minSize
    case Look => s.pool.created >= s.pool.minSize && s.awake > 0
    case WakeAlone => s.asleep > 0
    case Other(step) => step != StepGet && Enabled(s.pool, step)
  }

  function NotifyAll(s: State): State {
    s.(asleep := 0, awake := s.awake + s.asleep)
  }

  /** getConnection with the lock held: wait, or take the front and notify. */
  function Try(s: State): State {
    if s.pool.idle == [] then s.(asleep := s.asleep + 1)
    else NotifyAll(s.(pool := Get(s.pool)))
  }

  /** Of the other sections only a producer that makes a connection notifies. */
  function Moved(s: State, m: Move): State
    requires CanMove(s, m)
  {
    match m
    case Arrive => Try(s)
    case Look => Try(s.(awake := s.awake - 1))
    case WakeAlone => s.(asleep := s.asleep - 1, awake := s.awake + 1)
    case Other(step) =>
      var t := s.(pool := Apply(s.pool, step));
      if step.StepProduce? && s.pool.current < s.pool.maxSize then NotifyAll(t) else t
  }

  ghost predicate Goes(s: State, moves: seq<Move>, t: State)
    decreases |moves|
  {
    if moves == [] then t == s
    else CanMove(s, moves[0]) && Goes(Moved(s, moves[0]), moves[1..], t)
  }

  /** A client sleeps, a connection is idle, and nobody is about to look. */
  predicate Stranded(s: State) {
    s.asleep > 0 && s.awake == 0 && s.pool.idle != []
  }

  /** Clients exist only once the constructor is done. */
  predicate Opened(s: State) {
    s.asleep + s.awake > 0 ==> s.pool.created >= s.pool.minSize
  }

  lemma {:induction false} OpenedRun(s: State, moves: seq<Move>, t: State)
    requires Opened(s) && Goes(s, moves, t)
    ensures Opened(t)
    decreases |moves|
  {
    if moves != [] {
      OpenedRun(Moved(s, moves[0]), moves[1..], t);
    }
  }

  /** Over every run, the one thing that strands clients is the return of a connection, and it
      does so if and only if there are sleeping clients and none is awake. */
  lemma StrandsIff(minSize: nat, maxSize: int, maxIdle: int, moves: seq<Move>, s: State, m: Move)
    requires Goes(State(Empty(minSize, maxSize, maxIdle), 0, 0), moves, s) && !Stranded(s) && CanMove(s, m)
    ensures Stranded(Moved(s, m)) <==>
            m.Other? && m.step.StepGiveBack? && s.asleep > 0 && s.awake == 0
  {
    OpenedRun(State(Empty(minSize, maxSize, maxIdle), 0, 0), moves, s);
  }

  /** The clients of a pool that keeps at least one connection stay stranded for as long as
      none of them times out or is woken spuriously, and no new client arrives, whatever the
      producer, the recycler and returning clients do. */
  lemma {:induction false} StrandedUntilWoken(s: State, moves: seq<Move>, t: State)
    requires Stranded(s) && s.pool.minSize > 0 && Goes(s, moves, t)
    requires forall i :: 0 <= i < |moves| ==> moves[i] != WakeAlone && moves[i] != Arrive
    ensures Stranded(t) && t.asleep == s.asleep
    decreases |moves|
  {
    if moves != [] {
      StrandedUntilWoken(Moved(s, moves[0]), moves[1..], t);
    }
  }

  lemma {:induction false} GoesSnoc(s: State, moves: seq<Move>, t: State, m: Move)
    requires Goes(s, moves, t) && CanMove(t, m)
    ensures Goes(s, moves + [m], Moved(t, m))
    decreases |moves|
  {
    if moves == [] {
      assert ([] + [m])[1..] == [];
    } else {
      assert (moves + [m])[1..] == moves[1..] + [m];
      GoesSnoc(Moved(s, moves[0]), moves[1..], t, m);
    }
  }

  /** A state of a pool of exactly one connection. */
  ghost predicate Arises(s: State) {
    exists moves :: Goes(State(Empty(1, 1, 0), 0, 0), moves, s)
  }

  lemma Hop(s: State, m: Move, t: State)
    requires Arises(s) && CanMove(s, m) && t == Moved(s, m)
    ensures Arises(t)
  {
    var moves :| Goes(State(Empty(1, 1, 0), 0, 0), moves, s);
    GoesSnoc(State(Empty(1, 1, 0), 0, 0), moves, s, m);
  }

  /** The pool with its connection idle or lent. */
  function Only(idle: bool, asleep: nat): State {
    State(Pool(1, 1, 0, if idle then [Conn(0, 0)] else [], if idle then {} else {0}, 2, 1, 0), asleep, 0)
  }

  lemma EmptyArises()
    ensures Arises(State(Empty(1, 1, 0), 0, 0))
  {
    assert Goes(State(Empty(1, 1, 0), 0, 0), [], State(Empty(1, 1, 0), 0, 0));
  }

  lemma OneIsIdle()
    ensures Arises(Only(true, 0))
  {
    var e := State(Empty(1, 1, 0), 0, 0);
    var m := Other(StepInit(0));
    EmptyArises();
    var p := AddAndCount(e.pool, 0);
    assert p.idle == [Conn(0, 0)];
    assert Moved(e, m) == Only(true, 0);
    Hop(e, m, Only(true, 0));
  }

  lemma OneIsLent()
    ensures Arises(Only(false, 0))
  {
    OneIsIdle();
    var p := Get(Only(true, 0).pool);
    assert p.idle == [] && p.lent == {0};
    assert Moved(Only(true, 0), Arrive) == Only(false, 0);
    Hop(Only(true, 0), Arrive, Only(false, 0));
  }

  /** It happens: the only connection is lent, a second client waits, and the first one
      returns the connection. */
  lemma ClientIsStranded() returns (s: State)
    ensures Arises(s) && Stranded(s)
  {
    OneIsLent();
    Hop(Only(false, 0), Arrive, Only(false, 1));
    s := Only(true, 1);
    assert [] + [Conn(0, 0)] == [Conn(0, 0)] && {0} - {0} == {};
    Hop(Only(false, 1), Other(StepGiveBack(0, 0)), s);
  }
}
