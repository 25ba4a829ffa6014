/** Runs of the logger: what its back end does in each round, and what a stop leaves behind
    (src/log/AsyncLogging.cpp). */
module LogRuns {
  import opened Strings
  import opened LogSpec
  import F = LogFiles

  /** What happens during one round of the back end: the lines appended by front ends before
      and during its wait, before the i-th write, and after the last; and the readings of the
      clock taken by the i-th write. */
  datatype Round = Round(early: seq<Line>, during: nat -> seq<Line>, late: seq<Line>,
                         at: nat -> F.Readings)

  function Appends(lines: seq<Line>): seq<Step> {
    if lines == [] then [] else [StepAppend(lines[0])] + Appends(lines[1..])
  }

  /** The writes of a round, each after the lines that come before it; `rolls` says for each
      whether it starts a new file. */
  function WriteSteps(during: nat -> seq<Line>, rolls: seq<bool>): seq<Step> {
    if rolls == [] then []
    else
      var n := |rolls| - 1;
      WriteSteps(during, rolls[..n]) + (Appends(during(n)) + [StepWrite(rolls[n])])
  }

  function RoundSteps(round: Round, rolls: seq<bool>): seq<Step> {
    Appends(round.early) + [StepSwap] + WriteSteps(round.during, rolls) + Appends(round.late) + [StepRecycle]
  }

  /** The steps of the rounds in order. */
  function RunSteps(rounds: seq<Round>, rolls: seq<seq<bool>>): seq<Step>
    requires |rolls| == |rounds|
  {
    if rounds == [] then []
    else
      var n := |rounds| - 1;
      RunSteps(rounds[..n], rolls[..n]) + RoundSteps(rounds[n], rolls[n])
  }

  // ----- the lines of a run -----

  function WriteLines(during: nat -> seq<Line>, n: nat): seq<Line> {
    if n == 0 then [] else WriteLines(during, n - 1) + during(n - 1)
  }

  /** The lines of a round with n writes. */
  function RoundLines(round: Round, n: nat): seq<Line> {
    round.early + WriteLines(round.during, n) + round.late
  }

  function RunLines(rounds: seq<Round>, rolls: seq<seq<bool>>): seq<Line>
    requires |rolls| == |rounds|
  {
    if rounds == [] then []
    else
      var n := |rounds| - 1;
      RunLines(rounds[..n], rolls[..n]) + RoundLines(rounds[n], |rolls[n]|)
  }

  lemma {:induction false} AppendedAppend(a: seq<Step>, b: seq<Step>)
    ensures Appended(a + b) == Appended(a) + Appended(b)
    decreases |a|
  {
    if a == [] {
      assert a + b == b;
    } else {
      assert (a + b)[1..] == a[1..] + b;
      AppendedAppend(a[1..], b);
    }
  }

  lemma AppendedOne(s: Step)
    ensures Appended([s]) == Offered(s)
  {
    assert [s][1..] == [];
  }

  lemma {:induction false} AppendsLines(lines: seq<Line>)
    ensures Appended(Appends(lines)) == lines
    decreases |lines|
  {
    if lines != [] {
      AppendsLines(lines[1..]);
      assert Appends(lines)[1..] == Appends(lines[1..]);
    }
  }

  lemma {:induction false} AppendsSnoc(lines: seq<Line>, line: Line)
    ensures Appends(lines + [line]) == Appends(lines) + [StepAppend(line)]
    decreases |lines|
  {
    if lines == [] {
      assert lines + [line] == [line];
    } else {
      assert (lines + [line])[1..] == lines[1..] + [line];
      AppendsSnoc(lines[1..], line);
    }
  }

  lemma {:induction false} WriteStepsLines(during: nat -> seq<Line>, rolls: seq<bool>)
    ensures Appended(WriteSteps(during, rolls)) == WriteLines(during, |rolls|)
    decreases |rolls|
  {
    if rolls != [] {
      var n := |rolls| - 1;
      WriteStepsLines(during, rolls[..n]);
      AppendedAppend(WriteSteps(during, rolls[..n]), Appends(during(n)) + [StepWrite(rolls[n])]);
      AppendedAppend(Appends(during(n)), [StepWrite(rolls[n])]);
      AppendsLines(during(n));
      AppendedOne(StepWrite(rolls[n]));
      assert during(n) + [] == during(n);
    }
  }

  lemma RoundStepsLines(round: Round, rolls: seq<bool>)
    ensures Appended(RoundSteps(round, rolls)) == RoundLines(round, |rolls|)
  {
    var a, w, z := Appends(round.early), WriteSteps(round.during, rolls), Appends(round.late);
    AppendedAppend(a + [StepSwap] + w + z, [StepRecycle]);
    AppendedAppend(a + [StepSwap] + w, z);
    AppendedAppend(a + [StepSwap], w);
    AppendedAppend(a, [StepSwap]);
    AppendsLines(round.early);
    AppendsLines(round.late);
    WriteStepsLines(round.during, rolls);
    AppendedOne(StepSwap);
    AppendedOne(StepRecycle);
    assert round.early + [] == round.early;
    assert RoundLines(round, |rolls|) + [] == RoundLines(round, |rolls|);
  }

  /** The lines appended in the course of these rounds are those of the rounds, in order. */
  lemma {:induction false} RunStepsLines(rounds: seq<Round>, rolls: seq<seq<bool>>)
    requires |rolls| == |rounds|
    ensures Appended(RunSteps(rounds, rolls)) == RunLines(rounds, rolls)
    decreases |rounds|
  {
    if rounds != [] {
      var n := |rounds| - 1;
      RunStepsLines(rounds[..n], rolls[..n]);
      RoundStepsLines(rounds[n], rolls[n]);
      AppendedAppend(RunSteps(rounds[..n], rolls[..n]), RoundSteps(rounds[n], rolls[n]));
    }
  }

  /** A round behind the steps of a run, regrouped. */
  lemma RoundBehind(before: seq<Step>, round: Round, rolls: seq<bool>)
    ensures before + Appends(round.early) + [StepSwap] + WriteSteps(round.during, rolls)
            + Appends(round.late) + [StepRecycle]
            == before + RoundSteps(round, rolls)
  {
  }

  // ----- what a stop leaves behind -----

  /** The part of a run after the back end's last critical section. */
  function SinceSwap(steps: seq<Step>): seq<Step> {
    if steps == [] then []
    else
      var n := |steps| - 1;
      if steps[n] == StepSwap then [] else SinceSwap(steps[..n]) + [steps[n]]
  }

  lemma {:induction false} LastStep(s: Log, steps: seq<Step>, t: Log) returns (u: Log)
    requires steps != [] && Leads(s, steps, t)
    ensures Leads(s, steps[..|steps| - 1], u)
    ensures Enabled(u, steps[|steps| - 1]) && t == Apply(u, steps[|steps| - 1])
    decreases |steps|
  {
    if |steps| == 1 {
      assert steps[1..] == [];
      u := s;
    } else {
      u := LastStep(Apply(s, steps[0]), steps[1..], t);
      assert steps[1..][..|steps| - 2] == steps[..|steps| - 1][1..];
    }
  }

  /** What the front end holds. */
  function Held(s: Log): seq<Line> {
    Lines(s.buffers) + s.current
  }

  lemma StepHolds(s: Log, step: Step)
    requires Enabled(s, step)
    ensures Apply(s, step).capacity == s.capacity
    ensures Held(Apply(s, step)) == if step == StepSwap then []
                                    else Held(s) + Sift(Offered(step), s.capacity, true)
  {
    if step.StepAppend? {
      AppendHolds(s, step.line);
    }
    assert Held(s) + [] == Held(s);
  }

  lemma AppendHolds(s: Log, line: Line)
    ensures Held(Append(s, line)) == Held(s) + Sift([line], s.capacity, true)
  {
    SetAsideHolds(s);
    assert [line][1..] == [];
    PutHolds(if Fits(s.capacity, s.current, line) then s else SetAside(s), line);
  }

  lemma SetAsideHolds(s: Log)
    ensures Held(SetAside(s)) == Held(s)
  {
    LinesSnoc(s.buffers, s.current);
    assert Held(s) + [] == Held(s);
  }

  lemma PutHolds(s: Log, line: Line)
    ensures Held(Put(s, line)) == Held(s) + if Fits(s.capacity, s.current, line) then [line] else []
  {
    assert Lines(s.buffers) + s.current + [line] == Lines(s.buffers) + (s.current + [line]);
    assert Held(s) + [] == Held(s);
  }

  /** Over every run, the full buffers and the current one hold exactly the lines shorter than
      a buffer that were appended since the back end's last critical section. */
  lemma {:induction false} HeldSinceSwap(capacity: nat, steps: seq<Step>, s: Log)
    requires Leads(Started(capacity), steps, s)
    ensures s.capacity == capacity
    ensures Lines(s.buffers) + s.current == Sift(Appended(SinceSwap(steps)), capacity, true)
    decreases |steps|
  {
    if steps != [] {
      var n := |steps| - 1;
      var u := LastStep(Started(capacity), steps, s);
      HeldSinceSwap(capacity, steps[..n], u);
      StepHolds(u, steps[n]);
      if steps[n] != StepSwap {
        AppendedAppend(SinceSwap(steps[..n]), [steps[n]]);
        AppendedOne(steps[n]);
        SiftAppend(Appended(SinceSwap(steps[..n])), Offered(steps[n]), capacity, true);
      }
    }
  }

  lemma {:induction false} SiftsNothing(lines: seq<Line>, capacity: nat)
    ensures Sift(lines, capacity, true) == [] <==> forall i :: 0 <= i < |lines| ==> |lines[i]| >= capacity
    decreases |lines|
  {
    if lines != [] {
      SiftsNothing(lines[1..], capacity);
      assert forall i :: 0 < i < |lines| ==> lines[i] == lines[1..][i - 1];
    }
  }

  /** The back end does not drain when it stops: what has been accepted and is in no file are
      the lines shorter than a buffer appended since its last critical section. So a stop
      loses nothing if and only if no such line was appended since. */
  lemma LeftBehindAtStop(capacity: nat, steps: seq<Step>, s: Log)
    requires capacity > 0 && Leads(Started(capacity), steps, s) && s.phase == Top
    ensures s.accepted == Lines(s.files) + Sift(Appended(SinceSwap(steps)), capacity, true)
    ensures Lines(s.files) == s.accepted <==>
            forall i :: 0 <= i < |Appended(SinceSwap(steps))| ==> |Appended(SinceSwap(steps))[i]| >= capacity
  {
    AcceptedAtTop(capacity, steps, s);
    HeldSinceSwap(capacity, steps, s);
    SiftsNothing(Appended(SinceSwap(steps)), capacity);
  }

  lemma {:induction false} AcceptedAtTop(capacity: nat, steps: seq<Step>, s: Log)
    requires capacity > 0 && Leads(Started(capacity), steps, s) && s.phase == Top
    ensures s.accepted == Lines(s.files) + Held(s)
  {
    NothingLost(capacity, steps, s);
    assert Unwritten(s) == [] && Lines([]) == [];
    assert Lines(s.files) + [] + Lines(s.buffers) + s.current == Lines(s.files) + Held(s);
  }

  /** A run of one round that stops with a line in no file: it was appended while the back
      end wrote. */
  lemma LineLeftBehind(capacity: nat) returns (steps: seq<Step>, s: Log)
    requires capacity > 1
    ensures steps == RoundSteps(Round([], _ => [], ["x"], _ => F.Readings(0, 0)), [false])
    ensures Leads(Started(capacity), steps, s) && s.phase == Top
    ensures s.accepted == ["x"] && Lines(s.files) == []
  {
    var s0 := Started(capacity);
    var s1 := Swap(s0);
    assert s1.toWrite == [[]];
    var s2 := WriteNext(s1, false);
    assert Flatten([]) == "" && Fits(capacity, [], "x");
    var s3 := Append(s2, "x");
    s := Recycle(s3);
    LeadsSnoc(s0, [], s0, StepSwap);
    LeadsSnoc(s0, [] + [StepSwap], s1, StepWrite(false));
    steps := [] + [StepSwap] + [StepWrite(false)];
    LeadsSnoc(s0, steps, s2, StepAppend("x"));
    steps := steps + [StepAppend("x")];
    LeadsSnoc(s0, steps, s3, StepRecycle);
    steps := steps + [StepRecycle];
    assert Appends(["x"]) == [StepAppend("x")] + Appends([]);
    assert WriteSteps(_ => [], [false]) == WriteSteps(_ => [], []) + (Appends([]) + [StepWrite(false)]);
  }
}
