/** Hybrid logical clocks: the order on stamps, and the clock that issues them. */
module Hlc {
  datatype HLC = HLC(ts: int, ctr: int)

  const ZERO := HLC(0, 0)

  function Compare(a: HLC, b: HLC): int {
    if a.ts != b.ts then (if a.ts < b.ts then -1 else 1)
    else if a.ctr == b.ctr then 0
    else if a.ctr < b.ctr then -1
    else 1
  }

  predicate After(a: HLC, b: HLC) {
    Compare(a, b) > 0
  }

  /** Timestamps decide, and counters within one timestamp. */
  lemma AfterExactly(a: HLC, b: HLC)
    ensures After(a, b) <==> a.ts > b.ts || (a.ts == b.ts && a.ctr > b.ctr)
  {
  }

  function Max(a: HLC, b: HLC): (m: HLC)
    ensures m == a || m == b
    ensures !After(a, m) && !After(b, m)
  {
    if After(b, a) then b else a
  }

  /** The clock value after a tick that reads the wall clock as `now`. */
  function TickFrom(c: HLC, now: int): (h: HLC)
    ensures After(h, c)
    ensures h.ts >= now
    ensures h.ts == c.ts || h.ts == now
    ensures !After(ZERO, c) ==> After(h, ZERO)
  {
    if now > c.ts then HLC(now, 0) else HLC(c.ts, c.ctr + 1)
  }

  /** A tick is the least stamp above the clock that is not behind the wall:
      no stamp with counter 0 or more fits in between. */
  lemma TickIsLeast(c: HLC, now: int, x: HLC)
    requires After(x, c) && x.ts >= now && x.ctr >= 0
    ensures !After(TickFrom(c, now), x)
  {
  }

  class Clock {
    var ts: int
    var ctr: int

    function Value(): HLC
      reads this
    {
      HLC(ts, ctr)
    }

    constructor ()
      ensures Value() == ZERO
    {
      ts, ctr := 0, 0;
    }

    method Tick(now: int) returns (h: HLC)
      modifies this
      ensures h == Value() == TickFrom(old(Value()), now)
      ensures After(h, old(Value())) && h.ts >= now
    {
      if now > ts {
        ts := now;
        ctr := 0;
      } else {
        ctr := ctr + 1;
      }
      h := HLC(ts, ctr);
    }

    method Update(o: HLC)
      modifies this
      ensures Value() == Max(old(Value()), o)
    {
      if o.ts > ts {
        ts := o.ts;
        ctr := o.ctr;
      } else if o.ts == ts && o.ctr > ctr {
        ctr := o.ctr;
      }
    }
  }
}
