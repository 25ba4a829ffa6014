/** The rolling log file (src/log/LogFile.cpp over src/log/FileUtil.cpp). Readings of time()
    are arbitrary: the clock may stand still or go back. */
module LogFiles {
  import opened Strings

  const ROLL_PER_SECONDS: nat := 60 * 60 * 24

  /** The start of the day (in UTC) that a reading belongs to. */
  function Period(now: nat): nat {
    now / ROLL_PER_SECONDS * ROLL_PER_SECONDS
  }

  /** `files` is the text of every file opened so far, the last one still open; the first
      `flushed` bytes of the open file have left the stdio buffer. */
  datatype View = View(rollSize: nat, flushInterval: nat, checkEveryN: nat, files: seq<string>,
                       flushed: nat, count: nat, startOfPeriod: nat, lastRoll: nat, lastFlush: nat)

  /** The readings one append may take: its own, and that of a roll it decides on. */
  datatype Readings = Readings(now: nat, rollNow: nat)

  function Open(v: View): string
    requires v.files != []
  {
    v.files[|v.files| - 1]
  }

  /** rollFile: a new file, but at most one for each second. */
  function Roll(v: View, now: nat): View {
    if now > v.lastRoll
    then v.(lastRoll := now, lastFlush := now, startOfPeriod := Period(now),
         files := v.files + [""], flushed := 0)
    else v
  }

  function Flush(v: View): View
    requires v.files != []
  {
    v.(flushed := |Open(v)|)
  }

  function Write(v: View, data: string): View
    requires v.files != []
  {
    v.(files := v.files[|v.files| - 1 := Open(v) + data])
  }

  /** What appendInLock does once the bytes are written: roll, check the time, or count. */
  function Check(v: View, r: Readings): View
    requires v.files != []
  {
    if |Open(v)| > v.rollSize then Roll(v, r.rollNow)
    else if v.count + 1 < v.checkEveryN then v.(count := v.count + 1)
    else
      var v := v.(count := 0);
      if Period(r.now) != v.startOfPeriod then Roll(v, r.rollNow)
      else if r.now - v.lastFlush > v.flushInterval then Flush(v.(lastFlush := r.now))
      else v
  }

  function Append(v: View, data: string, r: Readings): View
    requires v.files != []
  {
    Check(Write(v, data), r)
  }

  /** When an append starts a new file. */
  predicate Rolls(v: View, data: string, r: Readings)
    requires v.files != []
  {
    && r.rollNow > v.lastRoll
    && (|Open(v)| + |data| > v.rollSize
        || (v.count + 1 >= v.checkEveryN && Period(r.now) != v.startOfPeriod))
  }

  ghost predicate Inv(v: View) {
    && v.files != [] && v.flushed <= |Open(v)|
    && v.startOfPeriod == Period(v.lastRoll) && 0 < v.lastRoll <= v.lastFlush
    && (v.count == 0 || v.count < v.checkEveryN)
  }

  /** The data lands whole at the end of the open file; only then may a new file start. */
  lemma AppendIsWhole(v: View, data: string, r: Readings)
    requires v.files != []
    ensures Append(v, data, r).files
            == v.files[|v.files| - 1 := Open(v) + data] + if Rolls(v, data, r) then [""] else []
  {
    var written := v.files[|v.files| - 1 := Open(v) + data];
    assert written + [] == written;
  }

  lemma AppendKeeps(v: View, data: string, r: Readings)
    requires Inv(v)
    ensures Inv(Append(v, data, r))
  {
  }

  datatype Op = Op(data: string, at: Readings)

  function AppendAll(v: View, ops: seq<Op>): View
    requires Inv(v)
    decreases |ops|
  {
    if ops == [] then v
    else
      AppendKeeps(v, ops[0].data, ops[0].at);
      AppendAll(Append(v, ops[0].data, ops[0].at), ops[1..])
  }

  function Payload(ops: seq<Op>): string {
    if ops == [] then "" else ops[0].data + Payload(ops[1..])
  }

  lemma AppendFlattens(v: View, data: string, r: Readings)
    requires v.files != []
    ensures Flatten(Append(v, data, r).files) == Flatten(v.files) + data
  {
    AppendIsWhole(v, data, r);
    var front := v.files[..|v.files| - 1];
    var written := front + [Open(v) + data];
    assert v.files == front + [Open(v)];
    FlattenSnoc(front, Open(v));
    FlattenSnoc(front, Open(v) + data);
    assert v.files[|v.files| - 1 := Open(v) + data] == written;
    assert Flatten(written) == Flatten(v.files) + data;
    if Rolls(v, data, r) {
      FlattenSnoc(written, "");
      assert Flatten(written) + "" == Flatten(written);
    } else {
      assert written + [] == written;
    }
  }

  /** Rolling neither loses nor repeats a byte, whatever the clock does. */
  lemma {:induction false} RollingConserves(v: View, ops: seq<Op>)
    requires Inv(v)
    ensures Inv(AppendAll(v, ops))
    ensures Flatten(AppendAll(v, ops).files) == Flatten(v.files) + Payload(ops)
    decreases |ops|
  {
    if ops != [] {
      var op := ops[0];
      AppendKeeps(v, op.data, op.at);
      AppendFlattens(v, op.data, op.at);
      RollingConserves(Append(v, op.data, op.at), ops[1..]);
      assert Flatten(v.files) + op.data + Payload(ops[1..])
          == Flatten(v.files) + (op.data + Payload(ops[1..]));
    }
  }

  /** The open file is within the roll size after every one of these appends. */
  ghost predicate AllWithin(v: View, ops: seq<Op>)
    requires Inv(v)
    decreases |ops|
  {
    ops != [] ==>
      (AppendKeeps(v, ops[0].data, ops[0].at);
       var w := Append(v, ops[0].data, ops[0].at);
       |Open(w)| <= v.rollSize && AllWithin(w, ops[1..]))
  }

  /** Each append that fills the file beyond the roll size finds the clock past the second in
      which that file was opened. */
  ghost predicate RollsWhenFull(v: View, ops: seq<Op>)
    requires Inv(v)
    decreases |ops|
  {
    ops != [] ==>
      && (|Open(v)| + |ops[0].data| > v.rollSize ==> ops[0].at.rollNow > v.lastRoll)
      && (AppendKeeps(v, ops[0].data, ops[0].at);
          RollsWhenFull(Append(v, ops[0].data, ops[0].at), ops[1..]))
  }

  lemma OpenAfter(v: View, data: string, r: Readings)
    requires v.files != []
    ensures Append(v, data, r).files != []
    ensures Open(Append(v, data, r)) == if Rolls(v, data, r) then "" else Open(v) + data
  {
    AppendIsWhole(v, data, r);
  }

  /** The size bound of the open file fails exactly by filling it twice in one second. */
  lemma {:induction false} WithinSizeIff(v: View, ops: seq<Op>)
    requires Inv(v) && |Open(v)| <= v.rollSize
    ensures AllWithin(v, ops) <==> RollsWhenFull(v, ops)
    decreases |ops|
  {
    if ops != [] {
      var op := ops[0];
      var w := Append(v, op.data, op.at);
      AppendKeeps(v, op.data, op.at);
      OpenAfter(v, op.data, op.at);
      if |Open(w)| <= w.rollSize {
        WithinSizeIff(w, ops[1..]);
      }
    }
  }

  /** The open file is within the roll size, and a closed one exceeds it by less than the
      append that made it roll. */
  ghost predicate WithinSize(v: View, largest: nat)
    requires v.files != []
  {
    && |Open(v)| <= v.rollSize
    && (forall f :: f in v.files ==> |f| <= v.rollSize + largest)
  }

  /** The size bound of all files, under the same condition. */
  lemma {:induction false} FilesStaySmall(v: View, ops: seq<Op>, largest: nat)
    requires Inv(v) && WithinSize(v, largest) && RollsWhenFull(v, ops)
    requires forall i :: 0 <= i < |ops| ==> |ops[i].data| <= largest
    ensures AppendAll(v, ops).files != [] && WithinSize(AppendAll(v, ops), largest)
    decreases |ops|
  {
    if ops != [] {
      var op := ops[0];
      AppendKeeps(v, op.data, op.at);
      AppendIsWhole(v, op.data, op.at);
      FilesStaySmall(Append(v, op.data, op.at), ops[1..], largest);
    }
  }

  /** While the clock stays at or before the second of the last roll, the open file grows
      without bound: it takes everything. */
  lemma {:induction false} SameSecondNeverRolls(v: View, ops: seq<Op>)
    requires Inv(v) && forall i :: 0 <= i < |ops| ==> ops[i].at.rollNow <= v.lastRoll
    ensures Inv(AppendAll(v, ops))
    ensures |AppendAll(v, ops).files| == |v.files|
    ensures Open(AppendAll(v, ops)) == Open(v) + Payload(ops)
    decreases |ops|
  {
    if ops != [] {
      var op := ops[0];
      var w := Append(v, op.data, op.at);
      AppendKeeps(v, op.data, op.at);
      AppendIsWhole(v, op.data, op.at);
      SameSecondNeverRolls(w, ops[1..]);
      assert Open(w) == Open(v) + op.data;
      assert Open(v) + op.data + Payload(ops[1..]) == Open(v) + (op.data + Payload(ops[1..]));
    }
  }

  /** An append that checks the time leaves an open file of the day of the one or the other
      reading it took, provided the second one is past the last roll; and a file that was not
      opened just now has been flushed within the flush interval. */
  lemma CheckedFileIsOfToday(v: View, data: string, r: Readings)
    requires Inv(v) && v.count + 1 >= v.checkEveryN && r.rollNow > v.lastRoll
    ensures var w := Append(v, data, r);
            if Rolls(v, data, r) then w.startOfPeriod == Period(r.rollNow) && w.lastFlush == r.rollNow
            else w.startOfPeriod == Period(r.now) && r.now - w.lastFlush <= v.flushInterval
  {
  }

  /** Two readings have the same period if and only if they are of the same day. */
  lemma SamePeriodIff(a: nat, b: nat)
    ensures Period(a) == Period(b) <==> a / 86400 == b / 86400
    ensures Period(a) % 86400 == 0 && Period(a) <= a < Period(a) + 86400
  {
  }

  /** What an append does to the flushed part and to the counter: a new file starts with nothing
      in it; of the appends that do not fill the file, one out of checkEveryN looks at the time,
      and flushes everything if it stays in the file and the last flush is too long ago. */
  lemma FlushesIff(v: View, data: string, r: Readings)
    requires v.files != []
    ensures var w := Append(v, data, r);
            var full := |Open(v)| + |data| > v.rollSize;
            var looks := !full && v.count + 1 >= v.checkEveryN;
            && w.files != []
            && w.count == (if full then v.count else if looks then 0 else v.count + 1)
            && (if |w.files| > |v.files| then w.flushed == 0 && Open(w) == ""
                else if looks && r.now / 86400 * 86400 == v.startOfPeriod && r.now - v.lastFlush > v.flushInterval
                then w.flushed == |Open(v)| + |data| && w.lastFlush == r.now
                else w.flushed == v.flushed && w.lastFlush == v.lastFlush)
  {
    AppendIsWhole(v, data, r);
  }

  class LogFile {
    const rollSize: nat
    const flushInterval: nat
    const checkEveryN: nat
    var files: seq<string>
    var flushed: nat
    var writtenBytes: nat
    var count: nat
    var startOfPeriod: nat
    var lastRoll: nat
    var lastFlush: nat

    ghost function Model(): View
      reads this
    {
      View(rollSize, flushInterval, checkEveryN, files, flushed, count, startOfPeriod,
           lastRoll, lastFlush)
    }

    ghost predicate Valid()
      reads this
    {
      Inv(Model()) && writtenBytes == |Open(Model())|
    }

    /** time() is past the epoch, so that the first file does get opened. */
    constructor (rollSize: nat, flushInterval: nat, checkEveryN: nat, now: nat)
      requires now > 0
      ensures Valid()
      ensures Model() == View(rollSize, flushInterval, checkEveryN, [""], 0, 0, Period(now), now, now)
    {
      this.rollSize, this.flushInterval, this.checkEveryN := rollSize, flushInterval, checkEveryN;
      files, flushed, writtenBytes, count := [], 0, 0, 0;
      startOfPeriod, lastRoll, lastFlush := 0, 0, 0;
      new;
      var rolled := RollFile(now);
    }

    method RollFile(now: nat) returns (rolled: bool)
      modifies this
      ensures rolled == (now > old(lastRoll))
      ensures Model() == Roll(old(Model()), now)
      ensures writtenBytes == if rolled then 0 else old(writtenBytes)
    {
      var start := now / ROLL_PER_SECONDS * ROLL_PER_SECONDS;
      if now > lastRoll {
        lastRoll := now;
        lastFlush := now;
        startOfPeriod := start;
        files, flushed, writtenBytes := files + [""], 0, 0;
        rolled := true;
      } else {
        rolled := false;
      }
    }

    method FlushFile()
      requires Valid()
      modifies this`flushed
      ensures Valid() && Model() == Flush(old(Model()))
    {
      flushed := writtenBytes;
    }

    /** FileUtil::append. */
    method WriteFile(data: string)
      requires Valid()
      modifies this`files, this`writtenBytes
      ensures Valid() && Model() == Write(old(Model()), data)
    {
      files := files[|files| - 1 := files[|files| - 1] + data];
      writtenBytes := writtenBytes + |data|;
    }

    method AppendInLock(data: string, r: Readings)
      requires Valid()
      modifies this
      ensures Valid() && Model() == Append(old(Model()), data, r)
    {
      AppendKeeps(Model(), data, r);
      WriteFile(data);
      if writtenBytes > rollSize {
        var rolled := RollFile(r.rollNow);
      } else {
        count := count + 1;
        if count >= checkEveryN {
          count := 0;
          var thisPeriod := r.now / ROLL_PER_SECONDS * ROLL_PER_SECONDS;
          if thisPeriod != startOfPeriod {
            var rolled := RollFile(r.rollNow);
          } else if r.now - lastFlush > flushInterval {
            lastFlush := r.now;
            FlushFile();
          }
        }
      }
    }
  }
}
