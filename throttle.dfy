/** The integer throttle used three times by the mod: the registration re-check and the
    instruction message of a frozen player, and the periodic server status. A throttle keeps
    the `long` time of its last firing; a tick at `now` fires when `now - last` is at least
    the interval, and a firing sets `last` to `now`. */
module Throttle {
  import opened JavaLang

  /** `seconds * 1000L`: an `int` widened to `long` before the multiplication, so it is exact. */
  function IntervalMillis(seconds: Int32): Long {
    seconds * 1000
  }

  datatype Step = Step(fired: bool, last: Long)

  /** One tick at `now`: the subtraction `now - last` is a `long` subtraction. */
  function Tick(last: Long, now: Millis, interval: Long): (s: Step)
    ensures s.fired ==> s.last == now
    ensures !s.fired ==> s.last == last
    ensures last >= 0 ==> (s.fired <==> now - last >= interval)
  {
    if WrapLong(now - last) >= interval then Step(true, now) else Step(false, last)
  }

  /** The times at which a throttle that last fired at `last` fires over a run of ticks. */
  function Firings(last: Millis, clock: seq<Millis>, interval: Long): seq<Millis>
    decreases |clock|
  {
    if clock == [] then []
    else
      var s := Tick(last, clock[0], interval);
      if s.fired then [clock[0]] + Firings(clock[0], clock[1..], interval)
      else Firings(last, clock[1..], interval)
  }

  /** Whatever the clock does, two consecutive firings (and the previous firing and the first
      new one) are at least one interval apart. */
  lemma {:induction false} FiringsSpaced(last: Millis, clock: seq<Millis>, interval: Long)
    ensures var f := Firings(last, clock, interval);
      (|f| > 0 ==> f[0] - last >= interval) &&
      forall i | 0 < i < |f| :: f[i] - f[i - 1] >= interval
    decreases |clock|
  {
    if clock != [] {
      var s := Tick(last, clock[0], interval);
      if s.fired {
        FiringsSpaced(clock[0], clock[1..], interval);
      } else {
        FiringsSpaced(last, clock[1..], interval);
      }
    }
  }

  /** Every firing is one of the ticks. */
  lemma {:induction false} FiringsAreTicks(last: Millis, clock: seq<Millis>, interval: Long)
    ensures forall i | 0 <= i < |Firings(last, clock, interval)| :: Firings(last, clock, interval)[i] in clock
    decreases |clock|
  {
    if clock != [] {
      var s := Tick(last, clock[0], interval);
      if s.fired {
        FiringsAreTicks(clock[0], clock[1..], interval);
      } else {
        FiringsAreTicks(last, clock[1..], interval);
      }
    }
  }

  /** A throttle whose interval is not positive fires on every tick. */
  lemma {:induction false} NonPositiveIntervalAlwaysFires(last: Millis, clock: seq<Millis>, interval: Long)
    requires interval <= 0
    requires forall i | 0 <= i < |clock| :: last <= clock[i]
    requires forall i, j | 0 <= i < j < |clock| :: clock[i] <= clock[j]
    ensures Firings(last, clock, interval) == clock
    decreases |clock|
  {
    if clock != [] {
      NonPositiveIntervalAlwaysFires(clock[0], clock[1..], interval);
    }
  }
}
