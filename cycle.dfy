/**
  The time arithmetic at the end of one fetch cycle. Go `time.Duration`
  values are int64 nanosecond counts. When the completion signal wins the
  race the driver sleeps `FetchInterval*time.Second - elapsed`, and
  `time.Sleep` returns at once for a duration that is zero or negative; when
  the timer wins, the wait was the whole interval.
 */
module Cycle {
  const MinInt64: int := -0x8000_0000_0000_0000
  const MaxInt64: int := 0x7fff_ffff_ffff_ffff

  /** A `time.Duration`: a signed 64-bit count of nanoseconds. */
  type Duration = x: int | MinInt64 <= x <= MaxInt64

  /** A duration measured on the monotonic clock, as `time.Since` returns it. */
  type Elapsed = x: Duration | 0 <= x

  const Second: Duration := 1_000_000_000
  const FetchInterval: int := 5

  /** `FetchInterval * time.Second`, the cadence between cycle starts. */
  const Cadence: Elapsed := FetchInterval * Second

  /** Which case of the `select` fired: the completion channel, with the time since the cycle began, or the timer. */
  datatype Race = Completed(elapsed: Elapsed) | TimedOut

  /**
    The pause `time.Sleep(x)` asks for: `x` when it is positive and none
    otherwise, that is, the larger of zero and `x`. Go sleeps at least this
    long; the model takes the pause to be exactly this long.
   */
  function EffectiveSleep(x: Duration): (pause: Elapsed)
    ensures pause >= x
    ensures pause == 0 || pause == x
  {
    if x <= 0 then 0 else x
  }

  /**
    The pause after an early completion: `time.Sleep(cadence - elapsed)`. The
    subtraction cannot leave the int64 range, and the pause is the larger of
    zero and the residue.
   */
  function ResidualSleep(cadence: Elapsed, elapsed: Elapsed): (pause: Elapsed)
    ensures pause >= cadence - elapsed
    ensures pause == 0 || pause == cadence - elapsed
    ensures elapsed <= cadence ==> elapsed + pause == cadence
    ensures elapsed >= cadence ==> pause == 0
  {
    EffectiveSleep(cadence - elapsed)
  }

  /** Time from the cycle's recorded start until the driver begins the next one, on an idealised clock. */
  function CycleLength(cadence: Elapsed, race: Race): (length: int)
    ensures length >= cadence
    ensures race.TimedOut? ==> length == cadence
    ensures race.Completed? && race.elapsed <= cadence ==> length == cadence
    ensures race.Completed? && race.elapsed > cadence ==> length == race.elapsed
  {
    match race
    case Completed(elapsed) => elapsed + ResidualSleep(cadence, elapsed)
    case TimedOut => cadence
  }

  /** A race outcome in which the batch finished within the cadence, or the timer fired. */
  predicate OnTime(cadence: Elapsed, race: Race) {
    race.TimedOut? || race.elapsed <= cadence
  }

  /** Offset of the start of cycle `|races|` from the start of the first, for the outcomes of the cycles before it. */
  function StartOffset(cadence: Elapsed, races: seq<Race>): (offset: int)
    ensures offset >= |races| * cadence
    decreases |races|
  {
    if races == [] then 0
    else
      assert |races| * cadence == (|races| - 1) * cadence + cadence;
      StartOffset(cadence, races[..|races| - 1]) + CycleLength(cadence, races[|races| - 1])
  }

  /**
    The driver never starts a cycle early: after n cycles at least n cadences
    have passed, and exactly n when every cycle ended on time.
   */
  lemma {:induction false} NeverEarly(cadence: Elapsed, races: seq<Race>)
    ensures StartOffset(cadence, races) >= |races| * cadence
    ensures (forall k :: 0 <= k < |races| ==> OnTime(cadence, races[k]))
        ==> StartOffset(cadence, races) == |races| * cadence
    decreases |races|
  {
    if races != [] {
      var n := |races| - 1;
      var prefix := races[..n];
      NeverEarly(cadence, prefix);
      assert |races| * cadence == n * cadence + cadence;
      if forall k :: 0 <= k < |races| ==> OnTime(cadence, races[k]) {
        assert forall k :: 0 <= k < n ==> prefix[k] == races[k];
        assert OnTime(cadence, races[n]);
      }
    }
  }

  /** With the configured five-second cadence, every cycle lasts at least 5_000_000_000 ns. */
  lemma ConfiguredCadence(race: Race)
    ensures Cadence == 5_000_000_000
    ensures CycleLength(Cadence, race) >= 5_000_000_000
  {
  }
}
