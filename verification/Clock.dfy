/** Readings of a monotone clock. */
module Clocks {

  /** A clock that never goes back; every reading may be later than the last one. */
  class Clock {
    var last: int

    constructor ()
      ensures last == 0
    {
      last := 0;
    }

    method Now() returns (now: int)
      modifies this
      ensures now == last && last >= old(last)
    {
      var elapsed: int := *;
      if elapsed > 0 {
        last := last + elapsed;
      }
      now := last;
    }
  }
}
