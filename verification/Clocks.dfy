/** A monotone clock, in milliseconds; a sleep lasts at least as long as asked. */
module Clocks {

  class Clock {
    var now: int
    /** How long the program has asked to sleep, each time. */
    ghost var slept: seq<nat>

    method Elapse()
      modifies this
      ensures old(now) <= now && slept == old(slept)
    {
    }

    method Sleep(ms: nat)
      modifies this
      ensures old(now) + ms <= now && slept == old(slept) + [ms]
    {
      now, slept := now + ms, slept + [ms];
    }
  }
}
