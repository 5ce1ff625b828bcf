/** Heartbeat hysteresis of a node (probeNode): small counters against the whole history of probes. */
module Heartbeat {
  import opened Types

  /** Thresholds as the configuration leaves them. */
  datatype Thresholds = Thresholds(ready: int, notReady: int)

  predicate ThresholdsOk(t: Thresholds) {
    1 <= t.ready && 1 <= t.notReady
  }

  datatype Health = Health(state: NodeState, successStreak: int, failureStreak: int)

  /** A node that was just registered. */
  const FRESH := Health(Unknown, 0, 0)

  function Probed(t: Thresholds, h: Health, healthy: bool): Health {
    if healthy then
      var streak := if h.successStreak + 1 > t.ready then t.ready else h.successStreak + 1;
      Health(if streak >= t.ready then Ready else h.state, streak, 0)
    else
      Health(if h.failureStreak + 1 >= t.notReady then NotReady else h.state, 0, h.failureStreak + 1)
  }

  function Run(t: Thresholds, history: seq<bool>): Health {
    if history == [] then FRESH else Probed(t, Run(t, history[..|history| - 1]), history[|history| - 1])
  }

  /** The history ends with k results like this one. */
  ghost predicate EndsWith(history: seq<bool>, result: bool, k: int) {
    0 <= k <= |history| && forall j :: |history| - k <= j < |history| ==> history[j] == result
  }

  /** The length of the run of this result at the end. */
  function Trailing(history: seq<bool>, result: bool): nat {
    if history == [] || history[|history| - 1] != result then 0 else 1 + Trailing(history[..|history| - 1], result)
  }

  lemma {:induction false} TrailingIsLongest(history: seq<bool>, result: bool, k: int)
    requires 0 <= k
    ensures EndsWith(history, result, k) <==> k <= Trailing(history, result)
    decreases |history|
  {
    if history != [] && 0 < k {
      var front := history[..|history| - 1];
      TrailingIsLongest(front, result, k - 1);
      if EndsWith(front, result, k - 1) && history[|history| - 1] == result {
        forall j | |history| - k <= j < |history| ensures history[j] == result {
          if j < |front| {
            assert front[j] == result;
          }
        }
      }
      if EndsWith(history, result, k) {
        assert forall j :: |front| - (k - 1) <= j < |front| ==> front[j] == history[j];
      }
    }
  }

  /** A run of k results like this one ended at probe i. */
  ghost predicate RunAt(history: seq<bool>, result: bool, k: int, i: int) {
    0 <= i <= |history| && EndsWith(history[..i], result, k)
  }

  ghost predicate RunSince(history: seq<bool>, result: bool, k: int, i: int) {
    exists j :: i < j <= |history| && RunAt(history, result, k, j)
  }

  /** The state the history calls for: that of the last completed run, if any. */
  ghost predicate Deserves(t: Thresholds, history: seq<bool>, s: NodeState) {
    match s
    case Ready => exists i :: RunAt(history, true, t.ready, i) && !RunSince(history, false, t.notReady, i)
    case NotReady => exists i :: RunAt(history, false, t.notReady, i) && !RunSince(history, true, t.ready, i)
    case Unknown => !RunSince(history, true, t.ready, -1) && !RunSince(history, false, t.notReady, -1)
  }

  lemma RunsExtend(history: seq<bool>, last: bool, result: bool, k: int, i: int)
    requires 1 <= k
    ensures i <= |history| ==> (RunAt(history + [last], result, k, i) <==> RunAt(history, result, k, i))
    ensures i <= |history| ==>
      (RunSince(history + [last], result, k, i)
       <==> (RunSince(history, result, k, i) || EndsWith(history + [last], result, k)))
  {
    var longer := history + [last];
    assert forall j :: 0 <= j <= |history| ==> longer[..j] == history[..j];
    assert longer[..|longer|] == longer;
    if i <= |history| {
      if RunSince(longer, result, k, i) {
        var j :| i < j <= |longer| && RunAt(longer, result, k, j);
        if j <= |history| {
          assert RunAt(history, result, k, j);
        }
      }
      if RunSince(history, result, k, i) {
        var j :| i < j <= |history| && RunAt(history, result, k, j);
        assert RunAt(longer, result, k, j);
      }
      if EndsWith(longer, result, k) {
        assert RunAt(longer, result, k, |longer|);
      }
    }
  }

  /** A history that deserves a state keeps it until the other run completes. */
  lemma DeservesExtends(t: Thresholds, history: seq<bool>, last: bool, s: NodeState)
    requires ThresholdsOk(t) && Deserves(t, history, s)
    ensures var longer := history + [last];
      Deserves(t, longer, if last && EndsWith(longer, true, t.ready) then Ready else if !last &&
        EndsWith(longer, false, t.notReady) then NotReady else s)
  {
    var longer := history + [last];
    assert EndsWith(longer, true, t.ready) ==> longer[|history|];
    assert EndsWith(longer, false, t.notReady) ==> !longer[|history|];
    assert longer[..|longer|] == longer;
    if last && EndsWith(longer, true, t.ready) {
      assert RunAt(longer, true, t.ready, |longer|);
    } else if !last && EndsWith(longer, false, t.notReady) {
      assert RunAt(longer, false, t.notReady, |longer|);
    } else if s.Unknown? {
      RunsExtend(history, last, true, t.ready, -1);
      RunsExtend(history, last, false, t.notReady, -1);
    } else {
      var good := s.Ready?;
      var k, other := if good then t.ready else t.notReady, if good then t.notReady else t.ready;
      var i :| RunAt(history, good, k, i) && !RunSince(history, !good, other, i);
      RunsExtend(history, last, good, k, i);
      RunsExtend(history, last, !good, other, i);
    }
  }

  /**
    After any probes the state is the one the history deserves and the streaks are the trailing runs, the success one
    capped.
   */
  lemma {:induction false} HealthFollowsHistory(t: Thresholds, history: seq<bool>)
    requires ThresholdsOk(t)
    ensures Deserves(t, history, Run(t, history).state)
    ensures Run(t, history).successStreak == if Trailing(history, true) < t.ready then Trailing(history, true)
      else t.ready
    ensures Run(t, history).failureStreak == Trailing(history, false)
  {
    if history == [] {
      assert !RunSince(history, true, t.ready, -1) && !RunSince(history, false, t.notReady, -1);
    } else {
      var front, last := history[..|history| - 1], history[|history| - 1];
      HealthFollowsHistory(t, front);
      assert history == front + [last];
      TrailingIsLongest(history, true, t.ready);
      TrailingIsLongest(history, false, t.notReady);
      DeservesExtends(t, front, last, Run(t, front).state);
    }
  }

  lemma RunEndsInItsResult(history: seq<bool>, result: bool, k: int, i: int)
    requires 1 <= k && RunAt(history, result, k, i)
    ensures RunSince(history, result, k, -1) && 0 < i <= |history| && history[i - 1] == result
  {
    assert history[..i][i - 1] == history[i - 1];
  }

  /** Exactly one state is deserved. */
  lemma DeservesOne(t: Thresholds, history: seq<bool>, s: NodeState)
    requires ThresholdsOk(t)
    ensures Deserves(t, history, s) <==> s == Run(t, history).state
  {
    HealthFollowsHistory(t, history);
    forall i | RunAt(history, true, t.ready, i)
      ensures RunSince(history, true, t.ready, -1) && 0 < i <= |history| && history[i - 1]
    {
      RunEndsInItsResult(history, true, t.ready, i);
    }
    forall i | RunAt(history, false, t.notReady, i)
      ensures RunSince(history, false, t.notReady, -1) && 0 < i <= |history| && !history[i - 1]
    {
      RunEndsInItsResult(history, false, t.notReady, i);
    }
  }

  /** The node's status row under the heartbeat. */
  class NodeStatus {
    var state: NodeState
    var successStreak: int
    var failureStreak: int
    ghost var history: seq<bool>

    ghost predicate Valid(t: Thresholds)
      reads this
    {
      Health(state, successStreak, failureStreak) == Run(t, history)
    }

    constructor (t: Thresholds)
      ensures Valid(t) && history == []
    {
      state, successStreak, failureStreak, history := Unknown, 0, 0, [];
    }

    method ProbeNode(t: Thresholds, healthy: bool)
      requires Valid(t) && ThresholdsOk(t)
      modifies this
      ensures history == old(history) + [healthy] && Valid(t) && Deserves(t, history, state)
    {
      var nextState, successes, failures := state, successStreak, failureStreak;
      if healthy {
        successes := successes + 1;
        if successes > t.ready {
          successes := t.ready;
        }
        failures := 0;
        if !nextState.Ready? && successes >= t.ready {
          nextState := Ready;
        }
      } else {
        failures := failures + 1;
        successes := 0;
        if failures >= t.notReady {
          nextState := NotReady;
        }
      }
      state, successStreak, failureStreak := nextState, successes, failures;
      history := history + [healthy];
      assert history[..|history| - 1] == old(history);
      HealthFollowsHistory(t, history);
    }
  }
}
