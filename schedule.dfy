/**
 * The minute-aligned schedule: the first refresh waits until the next
 * minute boundary of the wall clock, then a fixed one-minute interval repeats.
 * Times are in milliseconds; the clock reading is a parameter.
 */
module Schedule {

  /** The period of the repeating refresh. */
  const UpdateInterval: int := 60000

  const MillisPerMinute: int := 60000

  /** The wait from a reading of second and millisecond to the next minute boundary. */
  function TimeToNextMinute(seconds: int, milliseconds: int): (delay: int)
    ensures seconds * 1000 + milliseconds + delay == MillisPerMinute
    ensures 0 <= seconds <= 59 && 0 <= milliseconds <= 999 ==> 1 <= delay <= MillisPerMinute
  {
    (60 - seconds) * 1000 - milliseconds
  }

  /** The second (0..59) and millisecond (0..999) of an instant counted in milliseconds. */
  function SecondOf(t: nat): (s: int)
    ensures 0 <= s <= 59
  {
    (t / 1000) % 60
  }

  function MillisecondOf(t: nat): (ms: int)
    ensures 0 <= ms <= 999
  {
    t % 1000
  }

  /** When the k-th refresh (k = 0 for the first) fires, for a schedule armed at instant t. */
  function FireTime(t: nat, k: nat): int
  {
    t + TimeToNextMinute(SecondOf(t), MillisecondOf(t)) + k * UpdateInterval
  }

  /** Whole minutes and the rest of an instant, through the second count. */
  lemma SplitInstant(t: nat)
    ensures t == MillisPerMinute * (t / MillisPerMinute) + 1000 * SecondOf(t) + MillisecondOf(t)
  {
    var q, r := t / MillisPerMinute, t % MillisPerMinute;
    assert t == 60000 * q + r && 0 <= r < 60000;
    var rs, rm := r / 1000, r % 1000;
    assert r == 1000 * rs + rm && 0 <= rs < 60 && 0 <= rm < 1000;
    assert t == 1000 * (60 * q + rs) + rm;
    assert t / 1000 == 60 * q + rs;
    assert t % 1000 == rm;
    assert (60 * q + rs) % 60 == rs;
  }

  /**
   * Armed at any instant t, the k-th refresh fires exactly on the (k+1)-th
   * minute boundary after t: the first one within a minute of t, and never
   * past a boundary that follows t.
   */
  lemma {:induction false} FiresOnMinuteBoundaries(t: nat, k: nat)
    ensures FireTime(t, k) == MillisPerMinute * (t / MillisPerMinute + 1 + k)
    ensures FireTime(t, k) % MillisPerMinute == 0
    ensures t < FireTime(t, 0) <= t + MillisPerMinute
    ensures forall b: nat :: t < b * MillisPerMinute ==> FireTime(t, 0) <= b * MillisPerMinute
  {
    SplitInstant(t);
    var q := t / MillisPerMinute;
    assert FireTime(t, k) == MillisPerMinute * (q + 1 + k);
    forall b: nat | t < b * MillisPerMinute ensures FireTime(t, 0) <= b * MillisPerMinute {
      assert MillisPerMinute * q <= t;
      assert q < b;
    }
  }

  /** The reading worked through in the comment of `scheduleNextUpdate`, and the last and first millisecond of a minute. */
  lemma TimeToNextMinuteExamples()
    ensures TimeToNextMinute(45, 300) == 14700
    ensures TimeToNextMinute(59, 500) == 500
    ensures TimeToNextMinute(0, 0) == 60000
  {
  }
}
