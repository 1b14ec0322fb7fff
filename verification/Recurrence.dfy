/** The next due time of a recurring schedule, computed three ways: with a
    remainder in memory, with a floor in the Redis completion script and with a
    clamped floor in the NATS store. Arithmetic is exact, so the fall-backs for
    results that rounding did not move past the clock have no counterpart. */
module Recurrence {

  type Interval = i: real | i > 0.0 witness 1.0

  /** C's `fmod` for a non-negative numerator: it truncates toward zero. */
  function Fmod(x: real, y: Interval): real {
    x - (x / y).Floor as real * y
  }

  function MemoryNextDue(previous: real, interval: Interval, now: real): real {
    var next := previous + interval;
    if next <= now then
      var elapsed := now - previous;
      var remainder := Fmod(elapsed, interval);
      now + (interval - remainder)
    else next
  }

  function RedisNextDue(previous: real, interval: Interval, now: real): real {
    var next := previous + interval;
    if next <= now then
      var elapsed := now - previous;
      previous + ((elapsed / interval).Floor + 1) as real * interval
    else next
  }

  function NatsNextDue(previous: real, interval: Interval, now: real): real {
    var elapsed := (now - previous) / interval;
    var missed := if elapsed.Floor + 1 > 0 then elapsed.Floor + 1 else 0;
    previous + (if missed > 1 then missed else 1) as real * interval
  }

  /** The k-th occurrence after the previous one. */
  function Occurrence(previous: real, interval: Interval, k: int): real {
    previous + k as real * interval
  }

  /** How many intervals lead past `now`, at least one. */
  function Skipped(previous: real, interval: Interval, now: real): (k: nat)
    ensures k >= 1
  {
    var f := ((now - previous) / interval).Floor;
    if f < 1 then 1 else f + 1
  }

  lemma ScaleUp(a: real, b: real, i: Interval)
    ensures a < b <==> a * i < b * i
  {
    if a < b { assert (b - a) * i > 0.0; }
    if a > b { assert (a - b) * i > 0.0; }
  }

  lemma FirstAfter(previous: real, interval: Interval, now: real)
    ensures var k := Skipped(previous, interval, now);
            && Occurrence(previous, interval, k) > now
            && forall j :: j >= 1 && Occurrence(previous, interval, j) > now ==> j >= k
  {
    var q := (now - previous) / interval;
    assert q * interval == now - previous;
    var k := Skipped(previous, interval, now);
    ScaleUp(q, k as real, interval);
    forall j: int | j >= 1 && Occurrence(previous, interval, j) > now ensures j >= k {
      ScaleUp(q, j as real, interval);
    }
  }

  /** All three formulas give the first occurrence strictly after the clock, and
      never the previous one again. */
  lemma NextDueIsFirstOccurrenceAfterNow(previous: real, interval: Interval, now: real)
    ensures MemoryNextDue(previous, interval, now) == RedisNextDue(previous, interval, now) ==
            NatsNextDue(previous, interval, now)
    ensures exists k: int {:trigger Occurrence(previous, interval, k)} ::
              && k >= 1
              && MemoryNextDue(previous, interval, now) == Occurrence(previous, interval, k) > now
              && forall j :: j >= 1 && Occurrence(previous, interval, j) > now ==> j >= k
  {
    FirstAfter(previous, interval, now);
    FormulasAgree(previous, interval, now);
  }

  lemma Divided(x: real, i: Interval)
    ensures x / i * i == x
    ensures x / i >= 1.0 <==> x >= i
  {
    var q := x / i;
    assert q * i == x;
    ScaleUp(q, 1.0, i);
  }

  lemma OneMore(f: int, i: Interval)
    ensures (f + 1) as real * i == f as real * i + i
  {
    assert (f + 1) as real == f as real + 1.0;
  }

  lemma FormulasAgree(previous: real, interval: Interval, now: real)
    ensures var next := Occurrence(previous, interval, Skipped(previous, interval, now));
            MemoryNextDue(previous, interval, now) == next && RedisNextDue(previous, interval, now) == next &&
            NatsNextDue(previous, interval, now) == next
  {
    var f := ((now - previous) / interval).Floor;
    Divided(now - previous, interval);
    OneMore(f, interval);
    OneMore(0, interval);
  }
}
