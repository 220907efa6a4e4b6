/** The time gate shared by the headset inputs: an action passes only when
    at least `gap` milliseconds separate it from the last action that passed,
    and a pass re-stamps the gate. Replaying a run of polls through the gate
    shows that no two passes are closer than `gap`, however densely the polls
    arrive: one held gesture yields one step per window. */
module Cooldown {

  /** `now - last < gap` blocks; anything else passes. */
  predicate Open(now: int, last: int, gap: int) {
    now - last >= gap
  }

  /** Which of the polls at `times` pass a gate last stamped at `last`. */
  function Replay(last: int, times: seq<int>, gap: int): (passed: seq<bool>)
    ensures |passed| == |times|
    decreases |times|
  {
    if |times| == 0 then []
    else if Open(times[0], last, gap) then [true] + Replay(times[0], times[1..], gap)
    else [false] + Replay(last, times[1..], gap)
  }

  /** Every poll that passes is at least `gap` after the initial stamp. */
  lemma {:induction false} PassIsAfterStamp(last: int, times: seq<int>, gap: nat, j: nat)
    requires j < |times| && Replay(last, times, gap)[j]
    ensures times[j] - last >= gap
    decreases |times|
  {
    if j > 0 {
      if Open(times[0], last, gap) {
        PassIsAfterStamp(times[0], times[1..], gap, j - 1);
      } else {
        PassIsAfterStamp(last, times[1..], gap, j - 1);
      }
    }
  }

  /** Two polls that both pass are at least `gap` apart. */
  lemma {:induction false} PassesAreSpaced(last: int, times: seq<int>, gap: nat, i: nat, j: nat)
    requires i < j < |times|
    requires Replay(last, times, gap)[i] && Replay(last, times, gap)[j]
    ensures times[j] - times[i] >= gap
    decreases |times|
  {
    if i == 0 {
      assert Open(times[0], last, gap);
      PassIsAfterStamp(times[0], times[1..], gap, j - 1);
    } else if Open(times[0], last, gap) {
      PassesAreSpaced(times[0], times[1..], gap, i - 1, j - 1);
    } else {
      PassesAreSpaced(last, times[1..], gap, i - 1, j - 1);
    }
  }

  /** Polls closer together than `gap` can never both pass. */
  lemma OnePassPerWindow(last: int, times: seq<int>, gap: nat, i: nat, j: nat)
    requires i < j < |times| && times[j] - times[i] < gap
    ensures !(Replay(last, times, gap)[i] && Replay(last, times, gap)[j])
  {
    if Replay(last, times, gap)[i] && Replay(last, times, gap)[j] {
      PassesAreSpaced(last, times, gap, i, j);
    }
  }
}
