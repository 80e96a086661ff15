/**
 * Counter resolution (`determineCounter`) and what repeated daily runs make
 * of it: the stored counter is the length of the current streak.
 */
module Counter {
  import opened Wrappers

  /** The stored counter as `determineCounter` reads it: an absent value reads as 0. */
  function StoredValue(stored: Option<nat>): (n: nat)
    ensures stored.None? ==> n == 0
    ensures stored.Some? ==> n == stored.value
  {
    stored.GetOr(0)
  }

  /**
   * `determineCounter`. A manual override wins over everything; then a RESET
   * restarts at 1, even on a day that also has a SKIP; then a SKIP keeps the
   * stored value; otherwise the stored value goes up by one.
   */
  function DetermineCounter(manual: Option<nat>, reset: bool, skip: bool, stored: Option<nat>): (count: nat)
    ensures manual.Some? ==> count == manual.value
    ensures manual.None? && reset ==> count == 1
    ensures manual.None? && !reset && skip ==> count == StoredValue(stored)
    ensures manual.None? && !reset && !skip ==> count == StoredValue(stored) + 1
  {
    if manual.Some? then manual.value
    else if reset then 1
    else if skip then StoredValue(stored)
    else StoredValue(stored) + 1
  }

  /** Without an override the counter moves by at most one step, and reaches 0 only by SKIP from 0. */
  lemma CounterStep(reset: bool, skip: bool, stored: Option<nat>)
    ensures DetermineCounter(None, reset, skip, stored) <= StoredValue(stored) + 1
    ensures DetermineCounter(None, reset, skip, stored) == 0 <==> !reset && skip && StoredValue(stored) == 0
  {
  }

  /** The control signals one daily run saw. */
  datatype Signals = Signals(reset: bool, skip: bool)

  /** The stored counter after a run per day with the given signals, starting from `stored`, without override. */
  function CounterAfter(stored: Option<nat>, days: seq<Signals>): nat {
    if |days| == 0 then StoredValue(stored)
    else
      var last := days[|days| - 1];
      DetermineCounter(None, last.reset, last.skip, Some(CounterAfter(stored, days[..|days| - 1])))
  }

  /** The number of days that were not skipped. */
  function CountedDays(days: seq<Signals>): (n: nat)
    ensures n <= |days|
  {
    if |days| == 0 then 0
    else CountedDays(days[..|days| - 1]) + (if days[|days| - 1].skip then 0 else 1)
  }

  /** The index of the last day with a RESET, if any. */
  function LastReset(days: seq<Signals>): (r: Option<nat>)
    ensures r.Some? ==> r.value < |days| && days[r.value].reset
    ensures r.Some? ==> forall i | r.value < i < |days| :: !days[i].reset
    ensures r.None? ==> forall i | 0 <= i < |days| :: !days[i].reset
  {
    if |days| == 0 then None
    else if days[|days| - 1].reset then Some(|days| - 1)
    else LastReset(days[..|days| - 1])
  }

  /**
   * The streak the tracker is meant to count: the RESET day counts as 1, and
   * every later day counts unless it was skipped. Without any RESET every
   * non-skipped day counts.
   */
  function StreakLength(days: seq<Signals>): nat {
    match LastReset(days)
    case None => CountedDays(days)
    case Some(k) => 1 + CountedDays(days[k + 1..])
  }

  /** Starting with no stored counter, the daily runs store exactly the streak length. */
  lemma {:induction false} CounterIsStreakLength(days: seq<Signals>)
    ensures CounterAfter(None, days) == StreakLength(days)
  {
    if |days| > 0 {
      var prefix := days[..|days| - 1];
      var last := days[|days| - 1];
      CounterIsStreakLength(prefix);
      if !last.reset {
        assert LastReset(days) == LastReset(prefix);
        match LastReset(prefix)
        case None =>
        case Some(k) =>
          assert days[k + 1..][..|days[k + 1..]| - 1] == prefix[k + 1..];
      }
    }
  }

  /** Hence, from no stored counter, the counter never exceeds the number of runs. */
  lemma StreakAtMostRuns(days: seq<Signals>)
    ensures CounterAfter(None, days) <= |days|
  {
    CounterIsStreakLength(days);
    match LastReset(days)
    case None =>
    case Some(k) =>
      assert CountedDays(days[k + 1..]) <= |days| - k - 1;
  }
}
