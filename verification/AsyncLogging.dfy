/** The double-buffered logger (src/log/AsyncLogging.cpp over src/base/FixedBuffer.h and
    src/log/LogFile.cpp). Each method is one critical section, or one step of the back end
    outside it, and moves LogSpec's model by that step. */
module AsyncLoggings {
  import opened Strings
  import opened LogStreams
  import F = LogFiles
  import L = LogSpec
  import R = LogRuns

  /** The bytes in a large FixedBuffer. A buffer is held by one unique_ptr at any time, so it
      is modelled as a value that moves, and a null pointer as None. */
  type Buffer = string

  function IfNone(b: Option<Buffer>): nat {
    if b.None? then 1 else 0
  }

  class AsyncLogging {
    var currentBuffer: Buffer
    var nextBuffer: Option<Buffer>
    var buffers: seq<Buffer>
    // Local to the back end's thread.
    var newBuffer1: Option<Buffer>
    var newBuffer2: Option<Buffer>
    var buffersToWrite: seq<Buffer>
    const output: F.LogFile
    ghost var model: L.Log

    static ghost predicate SpareOk(b: Option<Buffer>, present: bool) {
      b.Some? == present && (b.Some? ==> b.value == "")
    }

    ghost predicate TextsOk()
      reads this
    {
      && model.capacity == LARGE_BUFFER && currentBuffer == Flatten(model.current)
      && SpareOk(nextBuffer, model.next)
      && SpareOk(newBuffer1, model.new1) && SpareOk(newBuffer2, model.new2)
      && buffers == L.Texts(model.buffers)
      && buffersToWrite == L.Texts(model.toWrite)
    }

    ghost predicate FilesOk()
      reads this, output
    {
      && output.Valid() && output.files == L.Texts(model.files)
      && (model.phase == L.Top ==> output.flushed == |F.Open(output.Model())|)
    }

    ghost predicate Valid()
      reads this, output
    {
      TextsOk() && FilesOk()
    }

    /** The front end's two buffers, and what threadFunc sets up before its loop. It passes
        `false` as the flush interval of the log file. */
    constructor (rollSize: nat, now: nat)
      requires now > 0
      ensures Valid() && fresh(output) && model == L.Started(LARGE_BUFFER)
      ensures output.rollSize == rollSize && output.flushInterval == 0 && output.checkEveryN == 1024
    {
      currentBuffer := "";
      nextBuffer, newBuffer1, newBuffer2 := Some(""), Some(""), Some("");
      buffers, buffersToWrite := [], [];
      output := new F.LogFile(rollSize, 0, 1024, now);
      model := L.Started(LARGE_BUFFER);
      new;
      assert L.Texts([[]]) == [""] + L.Texts([]);
    }

    /** At the top of the loop: the files, then the full buffers, then the current one hold
        the bytes of all accepted lines in order, and all that was written has been flushed. */
    lemma AllBytesAccountedFor()
      requires Valid() && L.Inv(model) && model.phase == L.Top
      ensures Flatten(output.files) + Flatten(buffers) + currentBuffer == Flatten(model.accepted)
      ensures output.flushed == |output.files[|output.files| - 1]|
    {
      L.BytesConserved(model);
      assert Flatten(output.files) + "" == Flatten(output.files);
    }

    /** The current buffer goes to the full ones; the spare or a new one replaces it. */
    method Rotate()
      requires Valid()
      modifies this
      ensures Valid() && model == L.SetAside(old(model))
    {
      L.TextsSnoc(model.buffers, model.current);
      buffers := buffers + [currentBuffer];
      if nextBuffer.Some? {
        currentBuffer, nextBuffer := nextBuffer.value, None;
      } else {
        currentBuffer := "";
      }
      model := L.SetAside(model);
    }

    method PutLine(line: L.Line)
      requires Valid()
      modifies this`currentBuffer, this`model
      ensures Valid() && model == L.Put(old(model), line)
    {
      FlattenSnoc(model.current, line);
      currentBuffer := Appended(LARGE_BUFFER, currentBuffer, line);
      model := L.Put(model, line);
    }

    method Append(line: L.Line)
      requires Valid()
      modifies this
      ensures Valid() && model == L.Append(old(model), line)
    {
      if LARGE_BUFFER - |currentBuffer| > |line| {
        PutLine(line);
      } else {
        Rotate();
        PutLine(line);
      }
    }

    /** The back end's critical section. */
    method TakeBuffers()
      requires Valid() && L.SparesOk(model) && model.phase == L.Top
      modifies this
      ensures Valid() && model == L.Swap(old(model))
    {
      L.TextsSnoc(model.buffers, model.current);
      buffers := buffers + [currentBuffer];
      currentBuffer, newBuffer1 := newBuffer1.value, None;
      buffersToWrite, buffers := buffers, buffersToWrite;
      if nextBuffer.None? {
        nextBuffer, newBuffer2 := newBuffer2, None;
      }
      model := L.Swap(model);
    }

    /** One buffer goes to the log file. */
    method WriteOne(i: nat, r: F.Readings) returns (ghost rolls: bool)
      requires Valid() && model.phase == L.Writing(i) && i < |buffersToWrite|
      modifies this`model, output
      ensures Valid() && model == L.WriteNext(old(model), rolls)
      ensures output.Model() == F.Append(old(output.Model()), buffersToWrite[i], r)
      ensures rolls == F.Rolls(old(output.Model()), buffersToWrite[i], r)
    {
      var data := buffersToWrite[i];
      rolls := F.Rolls(output.Model(), data, r);
      F.AppendIsWhole(output.Model(), data, r);
      L.TextsWrite(model.files, model.toWrite[i], rolls);
      L.TextsAt(model.toWrite, i);
      output.AppendInLock(data, r);
      model := L.WriteNext(model, rolls);
    }

    /** The written buffers refill the spares, and the rest are freed. */
    method Refill()
      requires |buffersToWrite| >= IfNone(newBuffer1) + IfNone(newBuffer2)
      requires SpareOk(newBuffer1, newBuffer1.Some?) && SpareOk(newBuffer2, newBuffer2.Some?)
      modifies this`newBuffer1, this`newBuffer2, this`buffersToWrite
      ensures SpareOk(newBuffer1, true) && SpareOk(newBuffer2, true) && buffersToWrite == []
    {
      if |buffersToWrite| > 2 {
        buffersToWrite := buffersToWrite[..2];
      }
      if newBuffer1.None? {
        assert buffersToWrite != [];
        newBuffer1 := Some(buffersToWrite[|buffersToWrite| - 1]);
        buffersToWrite := buffersToWrite[..|buffersToWrite| - 1];
        newBuffer1 := Some("");
      }
      if newBuffer2.None? {
        assert buffersToWrite != [];
        newBuffer2 := Some(buffersToWrite[|buffersToWrite| - 1]);
        buffersToWrite := buffersToWrite[..|buffersToWrite| - 1];
        newBuffer2 := Some("");
      }
      buffersToWrite := [];
    }

    /** After the writes: recycling, and a flush of the log file. */
    method Recycle()
      requires Valid() && L.SparesOk(model) && model.phase == L.Writing(|buffersToWrite|)
      modifies this, output
      ensures Valid() && model == L.Recycle(old(model))
    {
      Refill();
      output.FlushFile();
      model := L.Recycle(model);
    }

    /** One more line at the end of a run of the model. */
    method AppendTurn(line: L.Line, ghost start: L.Log, ghost steps: seq<L.Step>)
      requires Valid() && L.Leads(start, steps, model)
      modifies this
      ensures Valid() && L.Leads(start, steps + [L.StepAppend(line)], model)
      ensures model.phase == old(model.phase) && model.toWrite == old(model.toWrite)
    {
      L.LeadsSnoc(start, steps, model, L.StepAppend(line));
      Append(line);
    }

    /** Front ends append these lines, in this order, at the end of a run of the model. */
    method AppendAll(lines: seq<L.Line>, ghost start: L.Log, ghost before: seq<L.Step>)
      requires Valid() && L.Leads(start, before, model)
      modifies this
      ensures Valid() && L.Leads(start, before + R.Appends(lines), model)
      ensures model.phase == old(model.phase) && model.toWrite == old(model.toWrite)
    {
      assert before + R.Appends([]) == before;
      var i := 0;
      while i < |lines|
        invariant 0 <= i <= |lines|
        invariant Valid() && L.Leads(start, before + R.Appends(lines[..i]), model)
        invariant model.phase == old(model.phase) && model.toWrite == old(model.toWrite)
      {
        R.AppendsSnoc(lines[..i], lines[i]);
        assert lines[..i + 1] == lines[..i] + [lines[i]];
        assert before + R.Appends(lines[..i + 1]) == before + R.Appends(lines[..i]) + [L.StepAppend(lines[i])];
        AppendTurn(lines[i], start, before + R.Appends(lines[..i]));
        i := i + 1;
      }
      assert lines[..i] == lines;
    }

    /** Lines arrive, then the i-th buffer is written. */
    method WriteTurn(i: nat, lines: seq<L.Line>, r: F.Readings, ghost start: L.Log, ghost before: seq<L.Step>)
      returns (ghost rolls: bool)
      requires Valid() && model.phase == L.Writing(i) && i < |buffersToWrite|
      requires L.Leads(start, before, model)
      modifies this, output
      ensures Valid() && L.Leads(start, before + (R.Appends(lines) + [L.StepWrite(rolls)]), model)
      ensures model.phase == L.Writing(i + 1) && model.toWrite == old(model.toWrite)
    {
      AppendAll(lines, start, before);
      ghost var middle := model;
      rolls := WriteOne(i, r);
      L.LeadsSnoc(start, before + R.Appends(lines), middle, L.StepWrite(rolls));
      assert before + R.Appends(lines) + [L.StepWrite(rolls)] == before + (R.Appends(lines) + [L.StepWrite(rolls)]);
    }

    /** The write loop: every buffer is written, in order, each after the lines that arrive
        before it. */
    method WriteAll(during: nat -> seq<L.Line>, at: nat -> F.Readings, ghost start: L.Log, ghost before: seq<L.Step>)
      returns (ghost rolls: seq<bool>)
      requires Valid() && model.phase == L.Writing(0) && L.Leads(start, before, model)
      modifies this, output
      ensures Valid() && L.Leads(start, before + R.WriteSteps(during, rolls), model)
      ensures |rolls| == |old(model.toWrite)| && model.phase == L.Writing(|model.toWrite|)
    {
      rolls := [];
      assert before + R.WriteSteps(during, []) == before;
      var i := 0;
      while i < |buffersToWrite|
        invariant i == |rolls| <= |model.toWrite| && model.toWrite == old(model.toWrite)
        invariant Valid() && L.Leads(start, before + R.WriteSteps(during, rolls), model)
        invariant model.phase == L.Writing(i)
        decreases |old(model).toWrite| - i
      {
        ghost var done := before + R.WriteSteps(during, rolls);
        ghost var rolled := WriteTurn(i, during(i), at(i), start, done);
        assert (rolls + [rolled])[..i] == rolls;
        assert before + R.WriteSteps(during, rolls + [rolled]) == done + (R.Appends(during(i)) + [L.StepWrite(rolled)]);
        rolls := rolls + [rolled];
        i := i + 1;
      }
    }

    /** The first half of a round: wait, swap and write. */
    method SwapAndWrite(round: R.Round, ghost start: L.Log, ghost before: seq<L.Step>)
      returns (ghost rolls: seq<bool>)
      requires Valid() && L.Inv(start) && L.Leads(start, before, model) && model.phase == L.Top
      modifies this, output
      ensures Valid() && model.phase == L.Writing(|model.toWrite|)
      ensures L.Leads(start, before + R.Appends(round.early) + [L.StepSwap]
                             + R.WriteSteps(round.during, rolls), model)
    {
      L.RunKeeps(start, before, model);
      assert newBuffer1.Some? && newBuffer1.value == "";
      assert newBuffer2.Some? && newBuffer2.value == "";
      assert buffersToWrite == [];
      AppendAll(round.early, start, before);
      ghost var waited := before + R.Appends(round.early);
      L.RunKeeps(start, waited, model);
      L.LeadsSnoc(start, waited, model, L.StepSwap);
      TakeBuffers();
      assert buffersToWrite != [];
      rolls := WriteAll(round.during, round.at, start, waited + [L.StepSwap]);
    }

    /** The second half: lines arrive while the last write ends, then recycling. */
    method FinishRound(lines: seq<L.Line>, ghost start: L.Log, ghost before: seq<L.Step>)
      requires Valid() && L.Inv(start) && L.Leads(start, before, model)
      requires model.phase == L.Writing(|model.toWrite|)
      modifies this, output
      ensures Valid() && model.phase == L.Top
      ensures L.Leads(start, before + R.Appends(lines) + [L.StepRecycle], model)
    {
      AppendAll(lines, start, before);
      L.RunKeeps(start, before + R.Appends(lines), model);
      L.LeadsSnoc(start, before + R.Appends(lines), model, L.StepRecycle);
      Recycle();
    }

    /** One round of threadFunc's loop, for any lines that front ends append meanwhile and any
        readings of the clock: its appends, its swap, its writes and its recycling, in order,
        are the next steps of the run. */
    method OneRound(round: R.Round, ghost start: L.Log, ghost before: seq<L.Step>)
      returns (ghost rolls: seq<bool>)
      requires Valid() && L.Inv(start) && L.Leads(start, before, model) && model.phase == L.Top
      modifies this, output
      ensures Valid() && model.phase == L.Top
      ensures L.Leads(start, before + R.RoundSteps(round, rolls), model)
    {
      rolls := SwapAndWrite(round, start, before);
      ghost var written := before + R.Appends(round.early) + [L.StepSwap] + R.WriteSteps(round.during, rolls);
      FinishRound(round.late, start, written);
      R.RoundBehind(before, round, rolls);
    }

    /** threadFunc: rounds until running_ is cleared, for any front-end activity and any clock.
        The steps of the run are exactly those of the rounds, so all their lines were appended
        in this order; at the end the open file is flushed, and nothing more. */
    method ThreadFunc(rounds: seq<R.Round>) returns (ghost rolls: seq<seq<bool>>)
      requires Valid() && L.Inv(model) && model.phase == L.Top
      modifies this, output
      ensures Valid() && model.phase == L.Top && |rolls| == |rounds|
      ensures L.Leads(old(model), R.RunSteps(rounds, rolls), model)
      ensures L.Appended(R.RunSteps(rounds, rolls)) == R.RunLines(rounds, rolls)
    {
      rolls := [];
      var i := 0;
      while i < |rounds|
        invariant i == |rolls| <= |rounds|
        invariant Valid() && model.phase == L.Top
        invariant L.Leads(old(model), R.RunSteps(rounds[..i], rolls), model)
      {
        ghost var done := R.RunSteps(rounds[..i], rolls);
        ghost var rolled := OneRound(rounds[i], old(model), done);
        assert rounds[..i + 1][..i] == rounds[..i] && (rolls + [rolled])[..i] == rolls;
        assert R.RunSteps(rounds[..i + 1], rolls + [rolled]) == done + R.RoundSteps(rounds[i], rolled);
        rolls := rolls + [rolled];
        i := i + 1;
      }
      assert rounds[..i] == rounds;
      output.FlushFile();
      R.RunStepsLines(rounds, rolls);
    }
  }
}
