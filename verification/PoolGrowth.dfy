/** How far the connection pool really grows, given that each creation is counted twice
    (src/mysql/ConnectionPool.cpp). */
module PoolGrowth {
  import opened Common
  import opened PoolSpec

  /** The most connections that ever live at once. */
  function Ceiling(minSize: nat, maxSize: int): int {
    Max(minSize, (maxSize + 1) / 2)
  }

  ghost predicate Within(p: Pool) {
    Live(p) <= Ceiling(p.minSize, p.maxSize)
  }

  lemma StepWithin(p: Pool, s: Step)
    requires Inv(p) && Within(p) && Enabled(p, s)
    ensures Within(Apply(p, s))
  {
    StepKeeps(p, s);
  }

  lemma {:induction false} RunWithin(p: Pool, steps: seq<Step>, q: Pool)
    requires Inv(p) && Within(p) && Leads(p, steps, q)
    ensures Within(q)
    decreases |steps|
  {
    if steps != [] {
      StepKeeps(p, steps[0]);
      StepWithin(p, steps[0]);
      RunWithin(Apply(p, steps[0]), steps[1..], q);
    }
  }

  // ----- a run that reaches the ceiling -----

  /** A run from the empty pool. */
  ghost predicate Reaches(minSize: nat, maxSize: int, maxIdle: int, p: Pool) {
    && p.minSize == minSize && p.maxSize == maxSize && p.maxIdle == maxIdle && Inv(p)
    && exists steps :: Leads(Empty(minSize, maxSize, maxIdle), steps, p)
  }

  lemma Onwards(minSize: nat, maxSize: int, maxIdle: int, p: Pool, s: Step)
    requires Reaches(minSize, maxSize, maxIdle, p) && Enabled(p, s)
    ensures Reaches(minSize, maxSize, maxIdle, Apply(p, s))
  {
    var steps :| Leads(Empty(minSize, maxSize, maxIdle), steps, p);
    StepKeeps(p, s);
    LeadsSnoc(Empty(minSize, maxSize, maxIdle), steps, p, s);
  }

  /** The constructor's first k connections. */
  lemma {:induction false} Filled(minSize: nat, maxSize: int, maxIdle: int, k: nat) returns (p: Pool)
    requires k <= minSize
    ensures Reaches(minSize, maxSize, maxIdle, p) && |p.idle| == k == p.created && p.lent == {}
    decreases k
  {
    if k == 0 {
      p := Empty(minSize, maxSize, maxIdle);
      assert Leads(p, [], p);
    } else {
      var q := Filled(minSize, maxSize, maxIdle, k - 1);
      Onwards(minSize, maxSize, maxIdle, q, StepInit(q.clock));
      p := Apply(q, StepInit(q.clock));
    }
  }

  /** Clients take every idle connection. */
  lemma {:induction false} LendAll(minSize: nat, maxSize: int, maxIdle: int, p: Pool) returns (q: Pool)
    requires Reaches(minSize, maxSize, maxIdle, p) && p.created >= minSize
    ensures Reaches(minSize, maxSize, maxIdle, q) && q.idle == []
    ensures q.created == p.created && Live(q) == Live(p)
    decreases |p.idle|
  {
    if p.idle == [] {
      q := p;
    } else {
      Onwards(minSize, maxSize, maxIdle, p, StepGet);
      q := LendAll(minSize, maxSize, maxIdle, Apply(p, StepGet));
    }
  }

  /** n connections, all lent. */
  lemma {:induction false} GrowTo(minSize: nat, maxSize: int, maxIdle: int, n: nat) returns (p: Pool)
    requires minSize <= n <= Ceiling(minSize, maxSize)
    ensures Reaches(minSize, maxSize, maxIdle, p) && p.idle == [] && Live(p) == n == p.created
    decreases n
  {
    if n == minSize {
      var filled := Filled(minSize, maxSize, maxIdle, minSize);
      p := LendAll(minSize, maxSize, maxIdle, filled);
    } else {
      var q := GrowTo(minSize, maxSize, maxIdle, n - 1);
      assert q.current < maxSize;
      var step := StepProduce(q.clock);
      Onwards(minSize, maxSize, maxIdle, q, step);
      p := LendAll(minSize, maxSize, maxIdle, Apply(q, step));
    }
  }

  // ----- main results -----

  /** The bound on live connections that the code keeps is max(minSize_, (maxSize_ + 1) / 2),
      over every interleaving; and some run reaches it. */
  lemma CeilingIsExact(minSize: nat, maxSize: int, maxIdle: int)
    ensures forall steps, p :: Leads(Empty(minSize, maxSize, maxIdle), steps, p) ==>
              |p.idle| + |p.lent| <= Ceiling(minSize, maxSize)
    ensures exists steps, p :: Leads(Empty(minSize, maxSize, maxIdle), steps, p)
                               && |p.idle| + |p.lent| == Ceiling(minSize, maxSize)
  {
    var e := Empty(minSize, maxSize, maxIdle);
    forall steps, p | Leads(e, steps, p) ensures |p.idle| + |p.lent| <= Ceiling(minSize, maxSize) {
      RunWithin(e, steps, p);
      RunKeeps(e, steps, p);
    }
    var p := GrowTo(minSize, maxSize, maxIdle, Ceiling(minSize, maxSize));
    var steps :| Leads(e, steps, p);
    assert Leads(e, steps, p) && |p.idle| + |p.lent| == Ceiling(minSize, maxSize);
  }

  /** The pool never grows beyond its initial size, however many clients wait, if and only if
      maxSize_ is at most twice minSize_: the double count has used up the allowance. */
  lemma NeverGrowsIff(minSize: nat, maxSize: int, maxIdle: int)
    ensures (forall steps, p :: Leads(Empty(minSize, maxSize, maxIdle), steps, p) ==>
               |p.idle| + |p.lent| <= minSize)
            <==> maxSize <= 2 * minSize
  {
    CeilingIsExact(minSize, maxSize, maxIdle);
  }
}
