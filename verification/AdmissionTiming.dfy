/**
  Without the timing the admission protocol rests on, a late provisioning revives a sandbox whose share was given
  away.
 */
module AdmissionTiming {
  import opened Numbers
  import opened Admission
  import opened AdmissionRuns
  import opened AdmissionAlone

  const SMALL := Host(1, 1, 100, Mask(24, 32))

  lemma SmallLimits()
    ensures Limit(SMALL, Cpu) == 1 && Limit(SMALL, Mem) == 1 && 6 <= Limit(SMALL, Slots)
  {
    assert Pow2(8) == 2 * Pow2(7) && Pow2(7) == 2 * Pow2(6) && Pow2(6) == 2 * Pow2(5);
  }

  /** A request for one milli-CPU and one byte: all the small host has. */
  function One(id: string): Request {
    Request(id, [Container("main", Parsed(1, 1))])
  }

  lemma OneWeighs(id: string, phase: Phase, d: Dim)
    requires id != ""
    ensures Weight(New(One(id)).(phase := phase), d) == if phase.Deleting? || phase.Error? then 0 else 1
    ensures Valid(One(id)) && Parses(One(id).containers) && Asked(One(id).containers, d) == 1
  {
    var cs := One(id).containers;
    assert cs[..0] == [];
    StoredIsAsked(One(id), d);
  }

  /** Nobody at work, and nothing in the store but what no longer counts. */
  ghost predicate Spent(s: State) {
    Quiet(s) && forall k :: k in s.store ==> s.store[k].phase.Error?
  }

  ghost predicate Small(req: Request) {
    Asks(req) && forall d :: Asked(req.containers, d) == 1
  }

  lemma {:induction false} SpentHoldsNothing(store: Store, ids: set<string>, d: Dim)
    requires forall k :: k in store ==> store[k].phase.Error?
    ensures UsedBy(store, ids, d) == 0
    decreases |ids|
  {
    if ids == {} {
      NothingHeld(store, d);
    } else {
      var k :| k in ids;
      UsedBySplit(store, ids, k, d);
      SpentHoldsNothing(store, ids - {k}, d);
    }
  }

  /** A small request gets in when the store holds nothing that counts. */
  lemma SmallGetsIn(from: Store, steps: seq<Step>, s: State, tid: nat, req: Request)
    returns (all: seq<Step>, to: State)
    requires Reaches(SMALL, from, steps, s) && Spent(s) && Small(req) && req.id !in s.store && tid !in s.provisions
    ensures Reaches(SMALL, from, all, to)
    ensures to == s.(store := s.store[req.id := New(req)],
      provisions := s.provisions[tid := Provision(req.id, Pending)])
  {
    SmallLimits();
    forall d ensures UsedBy(s.store, s.store.Keys - {req.id}, d) + Asked(req.containers, d) <= Limit(SMALL, d) {
      SpentHoldsNothing(s.store, s.store.Keys - {req.id}, d);
    }
    all, to := GetsIn(SMALL, from, steps, s, tid, req);
  }

  lemma OneIsSmall(id: string)
    requires id != "" && id != ADMISSION
    ensures Small(One(id))
  {
    forall d ensures Asked(One(id).containers, d) == 1 {
      OneWeighs(id, Creating, d);
    }
    OneWeighs(id, Creating, Cpu);
  }

  lemma TwoRunning(a: Sandbox, b: Sandbox)
    requires Weight(a, Cpu) == 1 && Weight(b, Cpu) == 1
    ensures Used(map["b" := b]["a" := a], Cpu) == 2
  {
    var empty: Store := map[];
    WriteMoves(empty, Put("b", b), {}, Cpu);
    assert empty["b" := b] == map["b" := b];
    WriteMoves(map["b" := b], Put("a", a), {}, Cpu);
    UsedBySame(empty, empty.Keys, {}, Cpu);
    ReadingEnds(empty, "", Cpu);
  }

  /** From "a" timed out under a pending provisioning and "b" admitted, "a" comes back. */
  lemma ComesBack(from: Store, steps: seq<Step>, s: State, spent: Sandbox, b: Sandbox)
    returns (all: seq<Step>, to: State)
    requires Reaches(SMALL, from, steps, s) && s.locks == map[] && s.store == map["a" := spent]["b" := b]
    requires 0 in s.provisions && s.provisions[0] == Provision("a", Pending)
    ensures Reaches(SMALL, from, all, to) && to.store == map["b" := b]["a" := spent.(phase := Running)]
  {
    var s1 := Next(SMALL, s, ProvisionTake(0));
    Then(SMALL, from, steps, s, ProvisionTake(0), s1);
    to := Next(SMALL, s1, ProvisionDone(0, true));
    all := steps + [ProvisionTake(0)] + [ProvisionDone(0, true)];
    Then(SMALL, from, steps + [ProvisionTake(0)], s1, ProvisionDone(0, true), to);
  }

  /** "a" is admitted and then timed out while its provisioning still waits for the lock. */
  lemma TimedOut() returns (steps: seq<Step>, to: State)
    ensures Reaches(SMALL, map[], steps, to) && Spent(to)
    ensures to.store == map["a" := New(One("a")).(phase := Error)] && to.provisions == map[0 := Provision("a", Pending)]
  {
    var empty: Store := map[];
    var s0 := Start(empty);
    assert Path(SMALL, [s0], [], empty, s0);
    OneIsSmall("a");
    var a1, s1 := SmallGetsIn(empty, [], s0, 0, One("a"));
    var s2 := Next(SMALL, s1, ReconcileList);
    Then(SMALL, empty, a1, s1, ReconcileList, s2);
    to := Next(SMALL, s2, ReconcileTimeout("a"));
    steps := a1 + [ReconcileList] + [ReconcileTimeout("a")];
    Then(SMALL, empty, a1 + [ReconcileList], s2, ReconcileTimeout("a"), to);
  }

  /**
    The run: "a" is admitted; its provisioning has not taken the lock when the reconcile loop times "a" out, so that
    "b" is admitted in its place; then "a" is provisioned after all, and both count on a host with room for one.
   */
  lemma LateProvisioningOvercommits() returns (steps: seq<Step>, to: State)
    ensures Reaches(SMALL, map[], steps, to)
    ensures Used(to.store, Cpu) == 2 && Limit(SMALL, Cpu) == 1
  {
    var spent := New(One("a")).(phase := Error);
    var a3, s3 := TimedOut();
    OneIsSmall("b");
    var a4, s4 := SmallGetsIn(map[], a3, s3, 1, One("b"));
    steps, to := ComesBack(map[], a4, s4, spent, New(One("b")));
    OneWeighs("a", Running, Cpu);
    OneWeighs("b", Creating, Cpu);
    assert New(One("b")).(phase := Creating) == New(One("b"));
    TwoRunning(spent.(phase := Running), New(One("b")));
    SmallLimits();
  }
}
