/** The reconcile loop's decisions: two small maps against the whole history of observations of every sandbox. */
module Unhealthy {

  datatype Phase = Creating | Running | Deleting | Error

  datatype Rule = Rule(hits: int, grace: int)

  datatype Observation = Sick(id: string, at: int) | Cleared(id: string)

  /** When this id was seen unhealthy since it was last cleared. */
  function Since(history: seq<Observation>, id: string): seq<int> {
    if history == [] then []
    else
      var last := history[|history| - 1];
      if last.id != id then Since(history[..|history| - 1], id)
      else if last.Cleared? then []
      else Since(history[..|history| - 1], id) + [last.at]
  }

  function AtLeastTwo(hits: int): int {
    if hits < 2 then 2 else hits
  }

  /** Often enough and for long enough. */
  predicate Fires(rule: Rule, seen: seq<int>) {
    AtLeastTwo(rule.hits) <= |seen| && rule.grace <= seen[|seen| - 1] - seen[0]
  }

  predicate TimeOrdered(seen: seq<int>) {
    forall i, j :: 0 <= i < j < |seen| ==> seen[i] <= seen[j]
  }

  /** Once due, a sandbox that stays unhealthy stays due: skipping a finalization that fired only delays it. */
  lemma StaysDue(rule: Rule, seen: seq<int>, more: seq<int>)
    requires TimeOrdered(seen + more) && Fires(rule, seen)
    ensures Fires(rule, seen + more)
  {
    var all := seen + more;
    assert all[0] == seen[0] && all[|seen| - 1] == seen[|seen| - 1];
    assert all[|seen| - 1] <= all[|all| - 1];
  }

  lemma SinceExtended(history: seq<Observation>, o: Observation, id: string)
    ensures Since(history + [o], id) == if o.id != id then Since(history, id) else if o.Cleared? then []
      else Since(history, id) + [o.at]
  {
    assert (history + [o])[..|history|] == history;
  }

  /** The maps hold the first time and the number of the observations since the last clear. */
  ghost predicate Remembers(since: map<string, int>, hits: map<string, int>, history: seq<Observation>) {
    && hits.Keys == since.Keys
    && forall id :: Entry(since, hits, id, Since(history, id))
  }

  predicate Entry(since: map<string, int>, hits: map<string, int>, id: string, seen: seq<int>) {
    && (id in since <==> seen != [])
    && (id in since ==> id in hits && since[id] == seen[0] && hits[id] == |seen|)
  }

  /** One more observation of an id: a first entry, or one more hit. */
  lemma RemembersSick(since: map<string, int>, hits: map<string, int>, history: seq<Observation>, id: string, at: int)
    requires Remembers(since, hits, history)
    ensures id !in since ==> Remembers(since[id := at], hits[id := 1], history + [Sick(id, at)])
    ensures id in since ==> Remembers(since, hits[id := hits[id] + 1], history + [Sick(id, at)])
    ensures Since(history + [Sick(id, at)], id) == Since(history, id) + [at]
  {
    forall k
      ensures Since(history + [Sick(id, at)], k) == if k == id then Since(history, k) + [at] else Since(history, k)
    {
      SinceExtended(history, Sick(id, at), k);
    }
    assert Entry(since, hits, id, Since(history, id));
  }

  lemma RemembersCleared(since: map<string, int>, hits: map<string, int>, history: seq<Observation>, id: string)
    requires Remembers(since, hits, history)
    ensures Remembers(since - {id}, hits - {id}, history + [Cleared(id)])
  {
    forall k ensures Since(history + [Cleared(id)], k) == if k == id then [] else Since(history, k) {
      SinceExtended(history, Cleared(id), k);
    }
  }

  // ---------- One pass of the loop ----------

  /**
    What the loop finds out about one sandbox: age in seconds, whether its pod answers, which containers run, the
    clock.
   */
  datatype Look = Look(id: string, locked: bool, phase: Phase, age: int, podAnswers: bool, running: seq<bool>, now: int)

  datatype Act = Leave | TimeOut | Finalize

  const PROVISIONING_WINDOW := 120

  predicate Skipped(l: Look) {
    l.locked || l.phase.Deleting? || (l.phase.Creating? && l.age < PROVISIONING_WINDOW)
  }

  predicate Overdue(l: Look) {
    !Skipped(l) && l.phase.Creating?
  }

  predicate Judged(l: Look) {
    !Skipped(l) && !Overdue(l)
  }

  predicate Unwell(l: Look) {
    Judged(l) && (!l.podAnswers || false in l.running)
  }

  ghost predicate Due(rule: Rule, history: seq<Observation>, l: Look) {
    Unwell(l) && Fires(rule, Since(history, l.id) + [l.now])
  }

  ghost function ActOn(rule: Rule, history: seq<Observation>, l: Look): Act {
    if Overdue(l) then TimeOut else if Due(rule, history, l) then Finalize else Leave
  }

  ghost function Observed(rule: Rule, history: seq<Observation>, l: Look): seq<Observation> {
    if Due(rule, history, l) then [Sick(l.id, l.now), Cleared(l.id)]
    else if Unwell(l) then [Sick(l.id, l.now)]
    else if Judged(l) then [Cleared(l.id)]
    else []
  }

  ghost function HistoryAfter(rule: Rule, history: seq<Observation>, looks: seq<Look>): seq<Observation> {
    if looks == [] then history
    else
      var h := HistoryAfter(rule, history, looks[..|looks| - 1]);
      h + Observed(rule, h, looks[|looks| - 1])
  }

  ghost function Acts(rule: Rule, history: seq<Observation>, looks: seq<Look>): seq<Act> {
    if looks == [] then []
    else
      Acts(rule, history, looks[..|looks| - 1])
      + [ActOn(rule, HistoryAfter(rule, history, looks[..|looks| - 1]), looks[|looks| - 1])]
  }

  /** Nothing is to be decided: another goroutine has it, it is being deleted, or it is younger than two minutes. */
  predicate Idle(l: Look) {
    l.locked || l.phase == Deleting || (l.phase == Creating && l.age < 120)
  }

  predicate Ill(l: Look) {
    !l.podAnswers || exists i :: 0 <= i < |l.running| && !l.running[i]
  }

  /** Seen twice at least, as often as configured, and the first time long enough ago. */
  predicate LongEnough(rule: Rule, seen: seq<int>)
    requires seen != []
  {
    2 <= |seen| && rule.hits <= |seen| && rule.grace <= seen[|seen| - 1] - seen[0]
  }

  /** What one look leads to, by what was looked at: a timeout, a clear, or one more observation that may be due. */
  lemma LookMeans(rule: Rule, history: seq<Observation>, l: Look)
    ensures Idle(l) ==> ActOn(rule, history, l) == Leave && Observed(rule, history, l) == []
    ensures !Idle(l) && l.phase == Creating ==>
      ActOn(rule, history, l) == TimeOut && Observed(rule, history, l) == []
    ensures !Idle(l) && l.phase != Creating && !Ill(l) ==>
      ActOn(rule, history, l) == Leave && Observed(rule, history, l) == [Cleared(l.id)]
    ensures !Idle(l) && l.phase != Creating && Ill(l) ==>
      if LongEnough(rule, Since(history, l.id) + [l.now]) then
        ActOn(rule, history, l) == Finalize && Observed(rule, history, l) == [Sick(l.id, l.now), Cleared(l.id)]
      else ActOn(rule, history, l) == Leave && Observed(rule, history, l) == [Sick(l.id, l.now)]
  {
    assert Ill(l) <==> !l.podAnswers || false in l.running;
  }

  class Reconciler {
    var unhealthySince: map<string, int>
    var unhealthyHits: map<string, int>
    ghost var history: seq<Observation>

    ghost predicate Valid()
      reads this
    {
      Remembers(unhealthySince, unhealthyHits, history)
    }

    constructor ()
      ensures Valid() && history == []
    {
      unhealthySince, unhealthyHits, history := map[], map[], [];
    }

    /**
      Fires exactly when this id was seen unhealthy at least max(2, hits) times since it was last cleared, the first
      time at least the grace period ago.
     */
    method ShouldFinalizeUnhealthy(rule: Rule, id: string, now: int) returns (finalize: bool)
      requires Valid()
      modifies this
      ensures Valid() && history == old(history) + [Sick(id, now)]
      ensures finalize <==> Fires(rule, Since(history, id))
    {
      assert Entry(unhealthySince, unhealthyHits, id, Since(history, id));
      RemembersSick(unhealthySince, unhealthyHits, history, id, now);
      history := history + [Sick(id, now)];
      if id !in unhealthySince {
        unhealthySince := unhealthySince[id := now];
        unhealthyHits := unhealthyHits[id := 1];
        return false;
      }
      unhealthyHits := unhealthyHits[id := unhealthyHits[id] + 1];
      if now - unhealthySince[id] < rule.grace {
        return false;
      }
      return unhealthyHits[id] >= rule.hits;
    }

    method ClearUnhealthy(id: string)
      requires Valid()
      modifies this
      ensures Valid() && history == old(history) + [Cleared(id)]
    {
      RemembersCleared(unhealthySince, unhealthyHits, history, id);
      history := history + [Cleared(id)];
      unhealthySince := unhealthySince - {id};
      unhealthyHits := unhealthyHits - {id};
    }

    method ReconcileOne(rule: Rule, l: Look) returns (act: Act)
      requires Valid()
      modifies this
      ensures Valid() && history == old(history) + Observed(rule, old(history), l)
      ensures act == ActOn(rule, old(history), l)
    {
      if l.locked || l.phase.Deleting? {
        return Leave;
      }
      if l.phase.Creating? && l.age < PROVISIONING_WINDOW {
        return Leave;
      }
      if l.phase.Creating? {
        return TimeOut;
      }
      var healthy := l.podAnswers;
      if healthy {
        for i := 0 to |l.running|
          invariant healthy && false !in l.running[..i]
        {
          if !l.running[i] {
            healthy := false;
            break;
          }
        }
      }
      if !healthy {
        SinceExtended(history, Sick(l.id, l.now), l.id);
        var finalize := ShouldFinalizeUnhealthy(rule, l.id, l.now);
        if finalize {
          ClearUnhealthy(l.id);
          return Finalize;
        }
        return Leave;
      }
      ClearUnhealthy(l.id);
      return Leave;
    }

    /** A pass over the listing: every decision is a function of what was ever observed, sandbox by sandbox. */
    method ReconcileOnce(rule: Rule, looks: seq<Look>) returns (acts: seq<Act>)
      requires Valid()
      modifies this
      ensures Valid() && history == HistoryAfter(rule, old(history), looks)
      ensures acts == Acts(rule, old(history), looks)
    {
      acts := [];
      for i := 0 to |looks|
        invariant Valid() && history == HistoryAfter(rule, old(history), looks[..i])
        invariant acts == Acts(rule, old(history), looks[..i])
      {
        assert looks[..i + 1][..i] == looks[..i];
        var act := ReconcileOne(rule, looks[i]);
        acts := acts + [act];
      }
      assert looks[..|looks|] == looks;
    }
  }

  // ---------- Whole runs ----------

  ghost predicate Only(looks: seq<Look>, id: string) {
    forall l :: l in looks && l.id == id ==> Unwell(l)
  }

  function TimesOf(looks: seq<Look>, id: string): seq<int> {
    if looks == [] then []
    else
      TimesOf(looks[..|looks| - 1], id) + if looks[|looks| - 1].id == id then [looks[|looks| - 1].now] else []
  }

  /** The times at which this sandbox was looked at so far never made it due. */
  ghost predicate NeverDue(rule: Rule, looks: seq<Look>, id: string) {
    looks == [] || (NeverDue(rule, looks[..|looks| - 1], id) && !Fires(rule, TimesOf(looks, id)))
  }

  /**
    With any other sandboxes in between, what is remembered of a sandbox found unwell at every look and not yet due is
    every time it was looked at.
   */
  lemma {:induction false} AllRemembered(rule: Rule, looks: seq<Look>, id: string)
    requires Only(looks, id) && NeverDue(rule, looks, id)
    ensures Since(HistoryAfter(rule, [], looks), id) == TimesOf(looks, id)
  {
    if looks == [] {
    } else {
      var front, l := looks[..|looks| - 1], looks[|looks| - 1];
      assert l in looks && forall m :: m in front ==> m in looks;
      AllRemembered(rule, front, id);
      SinceAppended(rule, HistoryAfter(rule, [], front), l, id);
    }
  }

  /**
    So a sandbox that is unwell from the start is finalized at the first look that makes the whole of its times due,
    and at none before.
   */
  lemma FirstFinalization(rule: Rule, looks: seq<Look>, l: Look)
    requires Only(looks + [l], l.id) && NeverDue(rule, looks, l.id)
    ensures Acts(rule, [], looks + [l]) ==
      Acts(rule, [], looks) + [if Fires(rule, TimesOf(looks + [l], l.id)) then Finalize else Leave]
  {
    var all := looks + [l];
    assert all[..|all| - 1] == looks && all[|all| - 1] == l;
    assert l in all && forall m :: m in looks ==> m in all;
    AllRemembered(rule, looks, l.id);
  }

  lemma SinceAppended(rule: Rule, h: seq<Observation>, l: Look, id: string)
    ensures Since(h + Observed(rule, h, l), id) ==
      if l.id != id || !Judged(l) then Since(h, id)
      else if Unwell(l) && !Due(rule, h, l) then Since(h, id) + [l.now]
      else []
  {
    if Due(rule, h, l) {
      SinceExtended(h, Sick(l.id, l.now), id);
      SinceExtended(h + [Sick(l.id, l.now)], Cleared(l.id), id);
      assert h + Observed(rule, h, l) == h + [Sick(l.id, l.now)] + [Cleared(l.id)];
    } else if Unwell(l) {
      SinceExtended(h, Sick(l.id, l.now), id);
    } else if Judged(l) {
      SinceExtended(h, Cleared(l.id), id);
    } else {
      assert h + [] == h;
    }
  }
}
