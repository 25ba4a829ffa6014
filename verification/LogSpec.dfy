/** Double-buffered logging as a value: what is in which buffer, line by line, and what has
    been written to which file (src/log/AsyncLogging.cpp, src/log/LogFile.cpp). Front-end
    appends and the back end's critical section exclude each other through the mutex; the
    back end writes and recycles outside it. */
module LogSpec {
  import opened Strings

  type Line = string
  type Buf = seq<Line>

  /** Where the back end is: at the top of its loop, or writing toWrite[i..]. */
  datatype Phase = Top | Writing(i: nat)

  /** `next`, `new1` and `new2` say whether nextBuffer_, newBuffer1 and newBuffer2 are
      non-null; such a spare buffer is empty. A file is the list of lines written to it. */
  datatype Log = Log(capacity: nat, current: Buf, next: bool, buffers: seq<Buf>,
                     phase: Phase, new1: bool, new2: bool, toWrite: seq<Buf>,
                     files: seq<Buf>, accepted: seq<Line>, dropped: seq<Line>)

  function Started(capacity: nat): Log {
    Log(capacity, [], true, [], Top, true, true, [], [[]], [], [])
  }

  function Size(b: Buf): nat {
    |Flatten(b)|
  }

  /** FixedBuffer::append keeps at least one byte free, and otherwise drops the line. */
  predicate Fits(capacity: nat, b: Buf, line: Line) {
    Size(b) + |line| < capacity
  }

  /** The current buffer is queued, and the spare buffer (or a new one) takes its place. */
  function SetAside(s: Log): Log {
    s.(buffers := s.buffers + [s.current], current := [], next := false)
  }

  /** The line joins the current buffer, if it fits. */
  function Put(s: Log, line: Line): Log {
    if Fits(s.capacity, s.current, line)
    then s.(current := s.current + [line], accepted := s.accepted + [line])
    else s.(dropped := s.dropped + [line])
  }

  /** AsyncLogging::append, under the mutex. */
  function Append(s: Log, line: Line): Log {
    Put(if Fits(s.capacity, s.current, line) then s else SetAside(s), line)
  }

  /** The back end's critical section. */
  function Swap(s: Log): Log {
    s.(toWrite := s.buffers + [s.current], buffers := [], current := [], phase := Writing(0),
    new1 := false, next := true, new2 := s.new2 && s.next)
  }

  /** One LogFile::append: a whole buffer goes to the current file, and then possibly a new
      file is started. */
  function WriteTo(files: seq<Buf>, b: Buf, rolls: bool): seq<Buf>
    requires files != []
  {
    files[|files| - 1 := files[|files| - 1] + b] + if rolls then [[]] else []
  }

  function WriteNext(s: Log, rolls: bool): Log
    requires s.phase.Writing? && s.phase.i < |s.toWrite| && s.files != []
  {
    s.(files := WriteTo(s.files, s.toWrite[s.phase.i], rolls), phase := Writing(s.phase.i + 1))
  }

  /** How many written buffers are available for recycling, and how many are needed. */
  function Spare(s: Log): nat {
    if |s.toWrite| > 2 then 2 else |s.toWrite|
  }

  function Needed(s: Log): nat {
    (if s.new1 then 0 else 1) + (if s.new2 then 0 else 1)
  }

  function Recycle(s: Log): Log {
    s.(new1 := true, new2 := true, toWrite := [], phase := Top)
  }

  datatype Step = StepAppend(line: Line) | StepSwap | StepWrite(rolls: bool) | StepRecycle

  predicate Enabled(s: Log, step: Step) {
    match step
    case StepAppend(_) => true
    case StepSwap => s.phase == Top
    case StepWrite(_) => s.phase.Writing? && s.phase.i < |s.toWrite| && s.files != []
    case StepRecycle => s.phase == Writing(|s.toWrite|)
  }

  function Apply(s: Log, step: Step): Log
    requires Enabled(s, step)
  {
    match step
    case StepAppend(line) => Append(s, line)
    case StepSwap => Swap(s)
    case StepWrite(rolls) => WriteNext(s, rolls)
    case StepRecycle => Recycle(s)
  }

  ghost predicate Leads(s: Log, steps: seq<Step>, t: Log)
    decreases |steps|
  {
    if steps == [] then t == s
    else Enabled(s, steps[0]) && Leads(Apply(s, steps[0]), steps[1..], t)
  }

  lemma {:induction false} LeadsTrans(s: Log, first: seq<Step>, t: Log, rest: seq<Step>, u: Log)
    requires Leads(s, first, t) && Leads(t, rest, u)
    ensures Leads(s, first + rest, u)
    decreases |first|
  {
    if first == [] {
      assert first + rest == rest;
    } else {
      LeadsTrans(Apply(s, first[0]), first[1..], t, rest, u);
      assert (first + rest)[1..] == first[1..] + rest;
    }
  }

  lemma LeadsSnoc(s: Log, steps: seq<Step>, t: Log, step: Step)
    requires Leads(s, steps, t) && Enabled(t, step)
    ensures Leads(s, steps + [step], Apply(t, step))
  {
    assert Leads(Apply(t, step), [step][1..], Apply(t, step));
    LeadsTrans(s, steps, t, [step], Apply(t, step));
  }

  // ----- the invariant -----

  /** All lines of a list of buffers, in order. */
  function Lines(bs: seq<Buf>): seq<Line> {
    if bs == [] then [] else bs[0] + Lines(bs[1..])
  }

  lemma {:induction false} LinesAppend(a: seq<Buf>, b: seq<Buf>)
    ensures Lines(a + b) == Lines(a) + Lines(b)
    decreases |a|
  {
    if a == [] {
      assert a + b == b;
    } else {
      assert (a + b)[1..] == a[1..] + b;
      LinesAppend(a[1..], b);
    }
  }

  lemma LinesSnoc(a: seq<Buf>, b: Buf)
    ensures Lines(a + [b]) == Lines(a) + b
  {
    LinesAppend(a, [b]);
    assert Lines([b]) == b + Lines([]);
  }

  /** What the back end holds and has not written yet. */
  function Unwritten(s: Log): seq<Buf> {
    match s.phase
    case Top => []
    case Writing(i) => if i <= |s.toWrite| then s.toWrite[i..] else []
  }

  ghost predicate Conserved(s: Log) {
    Lines(s.files) + Lines(Unwritten(s)) + Lines(s.buffers) + s.current == s.accepted
  }

  /** The asserts of threadFunc, and why they hold: a null nextBuffer_ means that a full
      buffer is queued, so the back end gets two buffers to recycle whenever it needs two. */
  ghost predicate SparesOk(s: Log) {
    && s.files != []
    && (!s.next ==> s.buffers != [])
    && (s.phase == Top ==> s.new1 && s.new2 && s.toWrite == [])
    && (s.phase.Writing? ==>
          s.phase.i <= |s.toWrite| && s.toWrite != [] && !s.new1 && (!s.new2 ==> |s.toWrite| >= 2))
  }

  /** No buffer is ever overfull. */
  ghost predicate SizesOk(s: Log) {
    && s.capacity > 0 && Size(s.current) < s.capacity
    && (forall b :: b in s.buffers || b in s.toWrite ==> Size(b) < s.capacity)
  }

  ghost predicate Inv(s: Log) {
    Conserved(s) && SparesOk(s) && SizesOk(s)
  }

  lemma PutKeeps(s: Log, line: Line)
    requires Inv(s)
    ensures Inv(Put(s, line))
  {
    FlattenSnoc(s.current, line);
    var front := Lines(s.files) + Lines(Unwritten(s)) + Lines(s.buffers);
    var t := Put(s, line);
    assert Unwritten(t) == Unwritten(s);
    assert front + s.current + [line] == front + (s.current + [line]);
    assert Conserved(t);
  }

  lemma SetAsideKeeps(s: Log)
    requires Inv(s)
    ensures Inv(SetAside(s))
  {
    LinesSnoc(s.buffers, s.current);
    var front := Lines(s.files) + Lines(Unwritten(s));
    assert front + Lines(s.buffers) + s.current == front + (Lines(s.buffers) + s.current) + [];
  }

  lemma AppendKeeps(s: Log, line: Line)
    requires Inv(s)
    ensures Inv(Append(s, line))
  {
    SetAsideKeeps(s);
    PutKeeps(if Fits(s.capacity, s.current, line) then s else SetAside(s), line);
  }

  lemma SwapKeeps(s: Log)
    requires Inv(s) && s.phase == Top
    ensures Inv(Swap(s))
  {
    var t := Swap(s);
    LinesSnoc(s.buffers, s.current);
    assert Unwritten(t) == t.toWrite;
  }

  lemma WriteToLines(files: seq<Buf>, b: Buf, rolls: bool)
    requires files != []
    ensures Lines(WriteTo(files, b, rolls)) == Lines(files) + b
  {
    var n := |files| - 1;
    var front := files[..n];
    var written := front + [files[n] + b];
    assert files == front + [files[n]];
    LinesSnoc(front, files[n]);
    LinesSnoc(front, files[n] + b);
    assert Lines(written) == Lines(files) + b;
    assert files[n := files[n] + b] == written;
    if rolls {
      LinesSnoc(written, []);
      assert Lines(written) + [] == Lines(written);
    } else {
      assert written + [] == written;
    }
  }

  /** The text of every file. */
  function Texts(files: seq<Buf>): (texts: seq<string>)
    ensures |texts| == |files|
  {
    if files == [] then [] else [Flatten(files[0])] + Texts(files[1..])
  }

  lemma {:induction false} TextsSnoc(files: seq<Buf>, b: Buf)
    ensures Texts(files + [b]) == Texts(files) + [Flatten(b)]
    decreases |files|
  {
    if files != [] {
      TextsSnoc(files[1..], b);
      assert (files + [b])[1..] == files[1..] + [b];
    } else {
      assert files + [b] == [b];
    }
  }

  lemma {:induction false} TextsAt(files: seq<Buf>, i: nat)
    requires i < |files|
    ensures Texts(files)[i] == Flatten(files[i])
    decreases |files|
  {
    if i > 0 {
      TextsAt(files[1..], i - 1);
    } else if |files| > 1 {
      TextsAt(files[1..], 0);
    }
  }

  lemma TextsWrite(files: seq<Buf>, b: Buf, rolls: bool)
    requires files != []
    ensures Texts(WriteTo(files, b, rolls))
            == Texts(files)[|files| - 1 := Texts(files)[|files| - 1] + Flatten(b)]
             + if rolls then [""] else []
  {
    var n := |files| - 1;
    var front := files[..n];
    var written := front + [files[n] + b];
    assert files == front + [files[n]];
    TextsSnoc(front, files[n]);
    TextsSnoc(front, files[n] + b);
    FlattenAppend(files[n], b);
    TextsSnoc(written, []);
    assert files[n := files[n] + b] == written;
    assert written + [] == written;
  }

  lemma WriteKeeps(s: Log, rolls: bool)
    requires Inv(s) && Enabled(s, StepWrite(rolls))
    ensures Inv(WriteNext(s, rolls))
  {
    var t := WriteNext(s, rolls);
    var b := s.toWrite[s.phase.i];
    assert Unwritten(s) == [b] + Unwritten(t);
    assert Lines(Unwritten(s)) == b + Lines(Unwritten(t));
    assert Conserved(t) by {
      WriteToLines(s.files, b, rolls);
      assert Lines(s.files) + (b + Lines(Unwritten(t))) == Lines(t.files) + Lines(Unwritten(t));
    }
  }

  lemma RecycleKeeps(s: Log)
    requires Inv(s) && Enabled(s, StepRecycle)
    ensures Inv(Recycle(s))
  {
    assert Unwritten(s) == [];
  }

  lemma StepKeeps(s: Log, step: Step)
    requires Inv(s) && Enabled(s, step)
    ensures Inv(Apply(s, step))
  {
    match step
    case StepAppend(line) => AppendKeeps(s, line);
    case StepSwap => SwapKeeps(s);
    case StepWrite(rolls) => WriteKeeps(s, rolls);
    case StepRecycle => RecycleKeeps(s);
  }

  lemma {:induction false} RunKeeps(s: Log, steps: seq<Step>, t: Log)
    requires Inv(s) && Leads(s, steps, t)
    ensures Inv(t) && t.capacity == s.capacity
    decreases |steps|
  {
    if steps != [] {
      StepKeeps(s, steps[0]);
      RunKeeps(Apply(s, steps[0]), steps[1..], t);
    }
  }

  // ----- main results -----

  lemma StartedOk(capacity: nat)
    requires capacity > 0
    ensures Inv(Started(capacity))
  {
    assert Lines([[]]) == [] + Lines([]);
  }

  lemma {:induction false} TextsFlatten(bs: seq<Buf>)
    ensures Flatten(Texts(bs)) == Flatten(Lines(bs))
    decreases |bs|
  {
    if bs != [] {
      TextsFlatten(bs[1..]);
      FlattenAppend(bs[0], Lines(bs[1..]));
      assert Texts(bs)[1..] == Texts(bs[1..]);
    }
  }

  /** Conservation in bytes. */
  lemma BytesConserved(s: Log)
    requires Inv(s)
    ensures Flatten(Texts(s.files)) + Flatten(Texts(Unwritten(s))) + Flatten(Texts(s.buffers))
            + Flatten(s.current) == Flatten(s.accepted)
  {
    FlattenAppend(Lines(s.files) + Lines(Unwritten(s)) + Lines(s.buffers), s.current);
    FlattenAppend(Lines(s.files) + Lines(Unwritten(s)), Lines(s.buffers));
    FlattenAppend(Lines(s.files), Lines(Unwritten(s)));
    TextsFlatten(s.files);
    TextsFlatten(Unwritten(s));
    TextsFlatten(s.buffers);
  }

  /** Conservation, under any interleaving: the lines in the files, in the buffers being
      written, in the full buffers and in the current one are the accepted lines, in the
      order they were accepted; and so are their bytes. */
  lemma NothingLost(capacity: nat, steps: seq<Step>, s: Log)
    requires capacity > 0 && Leads(Started(capacity), steps, s)
    ensures Lines(s.files) + Lines(Unwritten(s)) + Lines(s.buffers) + s.current == s.accepted
    ensures Flatten(Texts(s.files)) + Flatten(Texts(Unwritten(s))) + Flatten(Texts(s.buffers))
            + Flatten(s.current) == Flatten(s.accepted)
  {
    StartedOk(capacity);
    RunKeeps(Started(capacity), steps, s);
    BytesConserved(s);
  }

  function Offered(step: Step): seq<Line> {
    if step.StepAppend? then [step.line] else []
  }

  /** The lines front ends append in the course of a run. */
  function Appended(steps: seq<Step>): seq<Line> {
    if steps == [] then [] else Offered(steps[0]) + Appended(steps[1..])
  }

  /** Those shorter than the capacity, or the others, in order. */
  function Sift(lines: seq<Line>, capacity: nat, short: bool): seq<Line> {
    if lines == [] then []
    else (if (|lines[0]| < capacity) == short then [lines[0]] else []) + Sift(lines[1..], capacity, short)
  }

  lemma {:induction false} SiftAppend(a: seq<Line>, b: seq<Line>, capacity: nat, short: bool)
    ensures Sift(a + b, capacity, short) == Sift(a, capacity, short) + Sift(b, capacity, short)
    decreases |a|
  {
    if a == [] {
      assert a + b == b;
    } else {
      assert (a + b)[1..] == a[1..] + b;
      SiftAppend(a[1..], b, capacity, short);
    }
  }

  lemma SiftCons(before: seq<Line>, steps: seq<Step>, capacity: nat, short: bool)
    requires steps != []
    ensures before + Sift(Offered(steps[0]), capacity, short) + Sift(Appended(steps[1..]), capacity, short)
            == before + Sift(Appended(steps), capacity, short)
  {
    var x, y := Sift(Offered(steps[0]), capacity, short), Sift(Appended(steps[1..]), capacity, short);
    SiftAppend(Offered(steps[0]), Appended(steps[1..]), capacity, short);
    assert before + x + y == before + (x + y);
  }

  lemma StepSifts(s: Log, step: Step)
    requires Enabled(s, step)
    ensures var t := Apply(s, step);
            && t.capacity == s.capacity
            && t.accepted == s.accepted + Sift(Offered(step), s.capacity, true)
            && t.dropped == s.dropped + Sift(Offered(step), s.capacity, false)
  {
    if step.StepAppend? {
      assert [step.line][1..] == [];
    } else {
      assert s.accepted + [] == s.accepted && s.dropped + [] == s.dropped;
    }
  }

  lemma {:induction false} RunSifts(s: Log, steps: seq<Step>, t: Log)
    requires Leads(s, steps, t)
    ensures t.accepted == s.accepted + Sift(Appended(steps), s.capacity, true)
    ensures t.dropped == s.dropped + Sift(Appended(steps), s.capacity, false)
    decreases |steps|
  {
    if steps == [] {
      assert s.accepted + [] == s.accepted && s.dropped + [] == s.dropped;
    } else {
      StepSifts(s, steps[0]);
      RunSifts(Apply(s, steps[0]), steps[1..], t);
      SiftCons(s.accepted, steps, s.capacity, true);
      SiftCons(s.dropped, steps, s.capacity, false);
    }
  }

  /** Over every run, a line is accepted if and only if it is shorter than a buffer, whatever
      the buffers held, in the order of the calls; the others are dropped. */
  lemma DroppedIffTooLong(capacity: nat, steps: seq<Step>, s: Log)
    requires Leads(Started(capacity), steps, s)
    ensures s.accepted == Sift(Appended(steps), capacity, true)
    ensures s.dropped == Sift(Appended(steps), capacity, false)
  {
    RunSifts(Started(capacity), steps, s);
  }

  /** The asserts of the back end hold on every iteration, under any interleaving: at the
      top both spares are there and nothing is left to write; a swap yields something to
      write; and enough written buffers are at hand to refill both spares. */
  lemma BackendAssertsHold(capacity: nat, steps: seq<Step>, s: Log)
    requires capacity > 0 && Leads(Started(capacity), steps, s)
    ensures s.phase == Top ==> s.new1 && s.new2 && s.toWrite == []
    ensures s.phase == Top ==> Swap(s).toWrite != [] && Needed(Swap(s)) <= Spare(Swap(s))
    ensures s.phase == Writing(|s.toWrite|) ==> Needed(s) <= Spare(s)
    ensures !s.next ==> s.buffers != []
  {
    StartedOk(capacity);
    RunKeeps(Started(capacity), steps, s);
  }
}
