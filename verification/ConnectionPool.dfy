/** The connection pool object (src/mysql/ConnectionPool.cpp). A method is one critical
    section; waiting on the condition variable is left to the caller, who calls the section
    when its guard holds. Every section is proved to be a run of PoolSpec. */
module ConnectionPools {
  import opened Clocks
  import S = PoolSpec

  class MysqlConn {
    const id: nat
    var lastActiveTime: int

    constructor (id: nat, now: int)
      ensures this.id == id && lastActiveTime == now
    {
      this.id := id;
      lastActiveTime := now;
    }

    method RefreshAliveTime(clock: Clock)
      modifies this`lastActiveTime, clock
      ensures lastActiveTime == clock.last >= old(clock.last)
    {
      lastActiveTime := clock.Now();
    }

    method GetAliveTime(clock: Clock) returns (ms: int)
      modifies clock
      ensures ms == clock.last - lastActiveTime && clock.last >= old(clock.last)
    {
      var now := clock.Now();
      ms := now - lastActiveTime;
    }
  }

  class ConnectionPool {
    const minSize: nat
    const maxSize: int
    const maxIdleTime: int
    const clock: Clock
    var connQueue: seq<MysqlConn>
    var currentSize: int
    /** The connections clients hold, and how many were ever made. */
    ghost var lent: set<MysqlConn>
    var created: nat

    ghost predicate Valid()
      reads this, connQueue, lent
    {
      && (forall c :: c in connQueue ==> c !in lent)
      && (forall c, d :: c in lent && d in lent && c.id == d.id ==> c == d)
      && (forall c, d :: c in connQueue && d in lent ==> c.id != d.id)
      && (forall i, j :: 0 <= i < j < |connQueue| ==> connQueue[i].id != connQueue[j].id)
      && (forall c :: c in connQueue ==> c.id < created)
      && (forall c :: c in lent ==> c.id < created)
    }

    ghost function IdleView(): seq<S.Conn>
      reads this, connQueue
    {
      seq(|connQueue|, i requires 0 <= i < |connQueue| reads this, connQueue =>
          S.Conn(connQueue[i].id, connQueue[i].lastActiveTime))
    }

    ghost function View(): S.Pool
      reads this, connQueue, lent, clock
    {
      S.Pool(minSize, maxSize, maxIdleTime, IdleView(), set c | c in lent :: c.id,
             currentSize, created, clock.last)
    }

    method AddConnection()
      requires Valid()
      modifies this, clock
      ensures Valid() && lent == old(lent)
      ensures clock.last >= old(clock.last) && View() == S.AddConnection(old(View()), clock.last)
      ensures fresh(set c | c in connQueue && c !in old(connQueue))
    {
      var now := clock.Now();
      var conn := new MysqlConn(created, now);
      ghost var before := IdleView();
      connQueue := connQueue + [conn];
      currentSize := currentSize + 1;
      created := created + 1;
      assert IdleView() == before + [S.Conn(conn.id, now)];
    }

    /** The constructor fills the pool to minSize, counting every connection twice. */
    constructor (minSize: nat, maxSize: int, maxIdleTime: int)
      ensures Valid() && fresh(clock)
      ensures created == minSize == |connQueue| && lent == {} && currentSize == 2 * minSize
      ensures this.minSize == minSize && this.maxSize == maxSize && this.maxIdleTime == maxIdleTime
      ensures exists steps :: S.Leads(S.Empty(minSize, maxSize, maxIdleTime), steps, View())
    {
      this.minSize, this.maxSize, this.maxIdleTime := minSize, maxSize, maxIdleTime;
      clock := new Clock();
      connQueue, currentSize, lent, created := [], 0, {}, 0;
      new;
      ghost var e := S.Empty(minSize, maxSize, maxIdleTime);
      ghost var steps: seq<S.Step> := [];
      assert View() == e;
      var i := 0;
      while i < minSize
        invariant 0 <= i <= minSize && Valid() && lent == {} && created == i == |connQueue|
        invariant currentSize == 2 * i && fresh(connQueue) && fresh(clock)
        invariant S.Leads(e, steps, View())
      {
        ghost var before := View();
        AddConnection();
        currentSize := currentSize + 1;
        assert View() == S.AddAndCount(before, clock.last);
        S.LeadsSnoc(e, steps, before, S.StepInit(clock.last));
        steps := steps + [S.StepInit(clock.last)];
        i := i + 1;
      }
      assert S.Leads(e, steps, View());
    }

    /** The producer's section, entered with an empty queue. */
    method ProduceConnection()
      requires Valid() && connQueue == [] && created >= minSize
      modifies this, clock
      ensures Valid() && lent == old(lent) && clock.last >= old(clock.last)
      ensures S.Enabled(old(View()), S.StepProduce(clock.last))
      ensures View() == S.Produce(old(View()), clock.last)
    {
      if currentSize < maxSize {
        AddConnection();
        currentSize := currentSize + 1;
      }
    }

    /** One deletion by the recycler. */
    method RecycleOne() returns (done: bool)
      requires Valid() && |connQueue| > minSize && created >= minSize
      modifies this`connQueue, this`currentSize, clock
      ensures Valid() && lent == old(lent) && clock.last >= old(clock.last)
      ensures done ==> connQueue == old(connQueue) && currentSize == old(currentSize)
                       && clock.last - connQueue[0].lastActiveTime < maxIdleTime
      ensures !done ==> clock.last - old(connQueue)[0].lastActiveTime >= maxIdleTime
      ensures !done ==> S.Enabled(old(View()), S.StepRecycle(clock.last))
                        && View() == S.RecycleFront(old(View()), clock.last)
                        && connQueue == old(connQueue)[1..]
    {
      var conn := connQueue[0];
      var idle := conn.GetAliveTime(clock);
      done := idle < maxIdleTime;
      if !done {
        ghost var before := IdleView();
        connQueue := connQueue[1..];
        currentSize := currentSize - 1;
        assert IdleView() == before[1..];
      }
    }

    /** What has gone from the queue since it was `before`: from its front, connections that have
        been idle for too long, and never so many that fewer than minSize are left. */
    ghost predicate Recycled(before: seq<MysqlConn>)
      reads this, clock, before
    {
      && |connQueue| <= |before| && connQueue == before[|before| - |connQueue|..]
      && (|connQueue| < |before| ==> |connQueue| >= minSize)
      && (forall i :: 0 <= i < |before| - |connQueue| ==> clock.last - before[i].lastActiveTime >= maxIdleTime)
    }

    /** The recycler's section: it stops with at most minSize idle connections or with no
        over-age one, as the queue is sorted. */
    method RecycleConnection() returns (ghost steps: seq<S.Step>)
      requires Valid() && created >= minSize && S.SortedByTime(View())
      modifies this`connQueue, this`currentSize, clock
      ensures Valid() && lent == old(lent) && created == old(created)
      ensures |connQueue| <= minSize ||
              forall c :: c in connQueue ==> clock.last - c.lastActiveTime < maxIdleTime
      ensures Recycled(old(connQueue))
      ensures exists q :: S.Leads(old(View()), steps, q) && View() == q.(clock := clock.last)
    {
      ghost var before, p := connQueue, View();
      ghost var q := p;
      assert before == before[0..];
      steps := [];
      var done := false;
      while |connQueue| > minSize && !done
        invariant lent == old(lent) && created == old(created)
        invariant Recycling(before, p, steps, q)
        invariant done ==> connQueue != [] && clock.last - connQueue[0].lastActiveTime < maxIdleTime
        decreases |connQueue|, !done
      {
        done, steps, q := RecycleNext(before, p, steps, q);
      }
      if done {
        forall c | c in connQueue ensures clock.last - c.lastActiveTime < maxIdleTime {
          var i :| 0 <= i < |connQueue| && connQueue[i] == c;
          assert IdleView()[0].lastActive <= IdleView()[i].lastActive;
        }
      }
      assert S.Leads(p, steps, q) && View() == q.(clock := clock.last);
    }

    /** Where the recycler's loop stands: the steps so far lead from p to q, the present view but
        for the clock. */
    ghost predicate Recycling(before: seq<MysqlConn>, p: S.Pool, steps: seq<S.Step>, q: S.Pool)
      reads this, clock, connQueue, lent, before
    {
      && Valid() && created >= minSize && S.SortedByTime(View()) && Recycled(before)
      && S.Leads(p, steps, q) && q.clock <= clock.last && View() == q.(clock := clock.last)
    }

    /** One turn of the recycler's loop. */
    method RecycleNext(ghost before: seq<MysqlConn>, ghost p: S.Pool, ghost steps: seq<S.Step>, ghost q: S.Pool)
      returns (done: bool, ghost more: seq<S.Step>, ghost r: S.Pool)
      requires Recycling(before, p, steps, q) && |connQueue| > minSize
      modifies this`connQueue, this`currentSize, clock
      ensures Recycling(before, p, more, r) && lent == old(lent) && created == old(created)
      ensures done ==> |connQueue| == |old(connQueue)| > 0
                       && clock.last - connQueue[0].lastActiveTime < maxIdleTime
      ensures !done ==> |connQueue| == |old(connQueue)| - 1
    {
      ghost var v := View();
      ghost var gone := |before| - |connQueue|;
      done := RecycleOne();
      more, r := steps, q;
      if done {
        assert IdleView() == v.idle;
      } else {
        assert before[gone..][1..] == before[gone + 1..];
        S.LeadsSnoc(p, steps, q, S.StepRecycle(clock.last));
        more, r := steps + [S.StepRecycle(clock.last)], S.RecycleFront(q, clock.last);
      }
    }

    /** getConnection's section, entered with a non-empty queue. */
    method GetConnection() returns (conn: MysqlConn)
      requires Valid() && connQueue != [] && created >= minSize
      modifies this`connQueue, this`lent
      ensures Valid() && conn == old(connQueue)[0] && connQueue == old(connQueue)[1..]
      ensures lent == old(lent) + {conn} && conn !in old(lent)
      ensures S.Enabled(old(View()), S.StepGet) && View() == S.Get(old(View()))
    {
      ghost var p := View();
      conn := connQueue[0];
      connQueue := connQueue[1..];
      lent := lent + {conn};
      assert IdleView() == p.idle[1..];
      assert View().lent == p.lent + {conn.id};
    }

    /** The deleter of a lent connection. */
    method GiveBack(conn: MysqlConn)
      requires Valid() && conn in lent && created >= minSize
      modifies this`connQueue, this`lent, conn`lastActiveTime, clock
      ensures Valid() && connQueue == old(connQueue) + [conn] && lent == old(lent) - {conn}
      ensures clock.last >= old(clock.last) && conn.lastActiveTime == clock.last
      ensures S.Enabled(old(View()), S.StepGiveBack(conn.id, clock.last))
      ensures View() == S.GiveBack(old(View()), conn.id, clock.last)
    {
      ghost var p := View();
      assert conn.id in p.lent;
      conn.RefreshAliveTime(clock);
      connQueue := connQueue + [conn];
      lent := lent - {conn};
      assert IdleView() == p.idle + [S.Conn(conn.id, clock.last)];
      assert View().lent == p.lent - {conn.id};
    }
  }
}
