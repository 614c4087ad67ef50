/**
 * The DotStar status LED, modelled as the colour each tick writes to it.
 */
module Indicator {
  import opened Common

  datatype Rgb = Rgb(r: int, g: int, b: int)

  predicate IsColor(c: Rgb) {
    0 <= c.r <= 255 && 0 <= c.g <= 255 && 0 <= c.b <= 255
  }

  /** 2**23: `monotonic_ns() >> 23` is the nanosecond clock divided by this. */
  const PULSE_DIVISOR: nat := 0x80_0000

  /** The pulsing red of the unarmed states: `((monotonic_ns() >> 23) % 256, 0, 0)`. */
  function Pulse(ns: nat): (c: Rgb)
    ensures IsColor(c) && c.g == 0 && c.b == 0
  {
    Rgb((ns / PULSE_DIVISOR) % 256, 0, 0)
  }

  const Green := Rgb(0, 255, 0)
  const Blue := Rgb(0, 0, 255)
  const Black := Rgb(0, 0, 0)

  /** The red channel advances by one every 2**23 ns (about 8.4 ms) and wraps after 256 steps. */
  lemma PulsePeriodic(ns: nat)
    ensures Pulse(ns + 256 * PULSE_DIVISOR) == Pulse(ns)
    ensures Pulse(ns + PULSE_DIVISOR).r == (Pulse(ns).r + 1) % 256
  {
    var q := ns / PULSE_DIVISOR;
    assert (ns + 256 * PULSE_DIVISOR) / PULSE_DIVISOR == q + 256;
    assert (ns + PULSE_DIVISOR) / PULSE_DIVISOR == q + 1;
  }
}
