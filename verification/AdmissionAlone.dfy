/**
  A sandbox that has the node to itself goes all the way: it is admitted whenever there is room, provisioned, and
  deleted
  without a trace. Steps are those of AdmissionRuns, so this also says that the protocol does not block.
 */
module AdmissionAlone {
  import opened Admission
  import opened AdmissionRuns

  ghost predicate Path(h: Host, trace: seq<State>, steps: seq<Step>, store: Store, to: State) {
    IsRun(h, trace, steps) && trace[0].store == store && trace[|steps|] == to
  }

  /** Reachable by these steps, timely or not. */
  ghost predicate Reaches(h: Host, store: Store, steps: seq<Step>, to: State) {
    exists trace :: Path(h, trace, steps, store, to)
  }

  lemma Then(h: Host, store: Store, steps: seq<Step>, s: State, step: Step, to: State)
    requires Reaches(h, store, steps, s) && Enabled(h, s, step) && to == Next(h, s, step)
    ensures Reaches(h, store, steps + [step], to)
  {
    var trace :| Path(h, trace, steps, store, s);
    var longer := trace + [to];
    forall i | 0 <= i < |steps + [step]|
      ensures Enabled(h, longer[i], (steps + [step])[i]) && longer[i + 1] == Next(h, longer[i], (steps + [step])[i])
    {
    }
    assert Path(h, longer, steps + [step], store, to);
  }

  lemma Starts(h: Host, store: Store)
    ensures Reaches(h, store, [], Start(store))
  {
    assert Path(h, [Start(store)], [], store, Start(store));
  }

  /** Nobody holds a lock or is at work, a waiting provisioning aside. */
  ghost predicate Quiet(s: State) {
    s.locks == map[] && s.creators == map[]
  }

  ghost predicate Asks(req: Request) {
    Valid(req) && Parses(req.containers) && req.id != ADMISSION
  }

  /** The lone creator between taking the admission lock and returning. */
  function Inside(s: State, tid: nat, req: Request, pc: Pc): State {
    s.(locks := map[req.id := ByCreator(tid)][ADMISSION := ByAdmission(tid)], creators := map[tid := Creator(req, pc)])
  }

  lemma Enters(h: Host, from: Store, steps: seq<Step>, s: State, tid: nat, req: Request)
    returns (all: seq<Step>, to: State)
    requires Reaches(h, from, steps, s) && Quiet(s) && Asks(req) && req.id !in s.store && tid !in s.provisions
    ensures Reaches(h, from, all, to) && to == Inside(s, tid, req, Reading(Resources, s.store.Keys, Held(0, 0, 0)))
  {
    var s1 := s.(locks := map[req.id := ByCreator(tid)], creators := map[tid := Creator(req, Started)]);
    assert s.locks[req.id := ByCreator(tid)] == s1.locks && s.creators[tid := Creator(req, Started)] == s1.creators;
    Then(h, from, steps, s, Begin(tid, req), s1);
    to := Inside(s, tid, req, Reading(Resources, s.store.Keys, Held(0, 0, 0)));
    assert s1.creators[tid := to.creators[tid]] == to.creators;
    all := steps + [Begin(tid, req)] + [TakeAdmission(tid)];
    Then(h, from, steps + [Begin(tid, req)], s1, TakeAdmission(tid), to);
  }

  /** What the entries under these ids add to a running total. */
  ghost function Plus(acc: Held, store: Store, ids: set<string>): Held {
    Held(acc.cpu + UsedBy(store, ids, Cpu), acc.mem + UsedBy(store, ids, Mem), acc.slots + UsedBy(store, ids, Slots))
  }

  lemma PlusOne(acc: Held, store: Store, ids: set<string>, k: string)
    requires k in ids
    ensures Plus(acc, store, ids) ==
      Plus(Held(acc.cpu + At(store, k, Cpu), acc.mem + At(store, k, Mem), acc.slots + At(store, k, Slots)), store,
        ids - {k})
  {
    UsedBySplit(store, ids, k, Cpu);
    UsedBySplit(store, ids, k, Mem);
    UsedBySplit(store, ids, k, Slots);
  }

  lemma PlusNothing(acc: Held, store: Store)
    ensures Plus(acc, store, {}) == acc
  {
    NothingHeld(store, Cpu);
    NothingHeld(store, Mem);
    NothingHeld(store, Slots);
  }

  /** The running total after one more entry; a creator leaves its own out. */
  ghost function PlusEntry(acc: Held, store: Store, k: string, own: string): Held {
    if k == own then acc
    else Held(acc.cpu + At(store, k, Cpu), acc.mem + At(store, k, Mem), acc.slots + At(store, k, Slots))
  }

  lemma PlusEntryThenRest(acc: Held, store: Store, todo: set<string>, k: string, own: string)
    requires k in todo
    ensures Plus(PlusEntry(acc, store, k, own), store, todo - {k} - {own}) == Plus(acc, store, todo - {own})
  {
    if k == own {
      assert todo - {k} - {own} == todo - {own};
    } else {
      PlusOne(acc, store, todo - {own}, k);
      assert todo - {k} - {own} == todo - {own} - {k};
    }
  }

  lemma ReadsOne(h: Host, from: Store, steps: seq<Step>, s: State, tid: nat, req: Request, check: Check,
      todo: set<string>, acc: Held, k: string)
    requires Reaches(h, from, steps, Inside(s, tid, req, Reading(check, todo, acc))) && k in todo
    ensures Reaches(h, from, steps + [Read(tid, k)],
      Inside(s, tid, req, Reading(check, todo - {k}, PlusEntry(acc, s.store, k, req.id))))
  {
    var before := Inside(s, tid, req, Reading(check, todo, acc));
    var to := Inside(s, tid, req, Reading(check, todo - {k}, PlusEntry(acc, s.store, k, req.id)));
    assert before.creators[tid := to.creators[tid]] == to.creators;
    Then(h, from, steps, before, Read(tid, k), to);
  }

  /** The lone creator reads through a listing and ends with what everybody else holds. */
  lemma {:induction false} ReadsAll(h: Host, from: Store, steps: seq<Step>, s: State, tid: nat, req: Request,
      check: Check, todo: set<string>, acc: Held) returns (all: seq<Step>)
    requires Reaches(h, from, steps, Inside(s, tid, req, Reading(check, todo, acc)))
    ensures Reaches(h, from, all, Inside(s, tid, req, Reading(check, {}, Plus(acc, s.store, todo - {req.id}))))
    decreases |todo|
  {
    if todo == {} {
      all := steps;
      assert todo - {req.id} == {};
      PlusNothing(acc, s.store);
    } else {
      var k :| k in todo;
      ReadsOne(h, from, steps, s, tid, req, check, todo, acc, k);
      PlusEntryThenRest(acc, s.store, todo, k, req.id);
      all := ReadsAll(h, from, steps + [Read(tid, k)], s, tid, req, check, todo - {k},
        PlusEntry(acc, s.store, k, req.id));
    }
  }

  /** One more step of the lone creator, which moves only its program counter. */
  lemma Moves(h: Host, from: Store, steps: seq<Step>, s: State, tid: nat, req: Request, step: Step, pc: Pc, pc': Pc)
    requires Reaches(h, from, steps, Inside(s, tid, req, pc))
    requires (step == ResourcesFit(tid) || step == AddressesFit(tid))
    requires Enabled(h, Inside(s, tid, req, pc), step)
    requires pc' == if step.ResourcesFit? then Reading(Addresses, s.store.Keys, Held(0, 0, 0)) else Cleared
    ensures Reaches(h, from, steps + [step], Inside(s, tid, req, pc'))
  {
    var to := Inside(s, tid, req, pc');
    assert Inside(s, tid, req, pc).creators[tid := Creator(req, pc')] == to.creators;
    Then(h, from, steps, Inside(s, tid, req, pc), step, to);
  }

  lemma Leaves(h: Host, from: Store, steps: seq<Step>, s: State, tid: nat, req: Request)
    returns (all: seq<Step>, to: State)
    requires Reaches(h, from, steps, Inside(s, tid, req, Cleared)) && Quiet(s) && Asks(req)
    ensures Reaches(h, from, all, to)
    ensures to == s.(store := s.store[req.id := New(req)],
      provisions := s.provisions[tid := Provision(req.id, Pending)])
  {
    var s1 := Inside(s.(store := s.store[req.id := New(req)]), tid, req, Saved);
    assert Inside(s, tid, req, Cleared).creators[tid := Creator(req, Saved)] == s1.creators;
    Then(h, from, steps, Inside(s, tid, req, Cleared), Save(tid), s1);
    to := s.(store := s.store[req.id := New(req)], provisions := s.provisions[tid := Provision(req.id, Pending)]);
    assert s1.locks - {req.id, ADMISSION} == map[] && s1.creators - {tid} == map[];
    all := steps + [Save(tid)] + [ReturnAsync(tid)];
    Then(h, from, steps + [Save(tid)], s1, ReturnAsync(tid), to);
  }

  /** There is room for the request beside everything else that counts, and an address. */
  ghost predicate Room(h: Host, store: Store, req: Request) {
    && UsableSubnet(h.subnet)
    && forall d :: UsedBy(store, store.Keys - {req.id}, d) + Asked(req.containers, d) <= Limit(h, d)
  }

  /** A lone creator gets in whenever there is room. */
  lemma GetsIn(h: Host, from: Store, steps: seq<Step>, s: State, tid: nat, req: Request)
    returns (all: seq<Step>, to: State)
    requires Reaches(h, from, steps, s) && Quiet(s) && Asks(req) && req.id !in s.store && tid !in s.provisions
    requires Room(h, s.store, req)
    ensures Reaches(h, from, all, to)
    ensures to == s.(store := s.store[req.id := New(req)],
      provisions := s.provisions[tid := Provision(req.id, Pending)])
  {
    var ids, none := s.store.Keys, Held(0, 0, 0);
    var others := Plus(none, s.store, ids - {req.id});
    var a1, s1 := Enters(h, from, steps, s, tid, req);
    var a2 := ReadsAll(h, from, a1, s, tid, req, Resources, ids, none);
    Moves(h, from, a2, s, tid, req, ResourcesFit(tid), Reading(Resources, {}, others), Reading(Addresses, ids, none));
    var a3 := ReadsAll(h, from, a2 + [ResourcesFit(tid)], s, tid, req, Addresses, ids, none);
    Moves(h, from, a3, s, tid, req, AddressesFit(tid), Reading(Addresses, {}, others), Cleared);
    all, to := Leaves(h, from, a3 + [AddressesFit(tid)], s, tid, req);
  }

  /** A creator that gets as far as saving a new sandbox had room for it, whatever others did meanwhile. */
  lemma SavesOnlyWithRoom(h: Host, s: State, tid: nat)
    requires Inv(h, s) && Enabled(h, s, Save(tid)) && s.creators[tid].req.id !in s.store
    ensures var req := s.creators[tid].req;
      forall d :: UsedBy(s.store, s.store.Keys - {req.id}, d) + Asked(req.containers, d) <= Limit(h, d)
  {
    var req := s.creators[tid].req;
    forall d ensures UsedBy(s.store, s.store.Keys - {req.id}, d) + Asked(req.containers, d) <= Limit(h, d) {
      assert Knows(h, s.store, s.creators[tid], d);
      ReadingStarts(s.store, req.id, d);
    }
  }

  /** Its provisioning, undisturbed, ends Running or in error as the runtime has it. */
  lemma Completes(h: Host, from: Store, steps: seq<Step>, s: State, tid: nat, id: string, ok: bool)
    returns (all: seq<Step>, to: State)
    requires Reaches(h, from, steps, s) && Quiet(s) && tid in s.provisions && id in s.store
    requires s.provisions[tid] == Provision(id, Pending)
    ensures Reaches(h, from, all, to)
    ensures to == s.(store := s.store[id := s.store[id].(phase := if ok then Running else Error)],
      provisions := s.provisions - {tid})
  {
    var s1 := s.(locks := map[id := ByProvisioner(tid)],
      provisions := s.provisions[tid := Provision(id, Holding(s.store[id]))]);
    assert s.locks[id := ByProvisioner(tid)] == s1.locks;
    Then(h, from, steps, s, ProvisionTake(tid), s1);
    to := s.(store := s.store[id := s.store[id].(phase := if ok then Running else Error)],
      provisions := s.provisions - {tid});
    assert s1.locks - {id} == map[] && s1.provisions - {tid} == to.provisions;
    all := steps + [ProvisionTake(tid)] + [ProvisionDone(tid, ok)];
    Then(h, from, steps + [ProvisionTake(tid)], s1, ProvisionDone(tid, ok), to);
  }

  /** A provisioning that never gets its lock leaves the sandbox in error. */
  lemma GivesUpWaiting(h: Host, from: Store, steps: seq<Step>, s: State, tid: nat, id: string)
    returns (all: seq<Step>, to: State)
    requires Reaches(h, from, steps, s) && tid in s.provisions && id in s.store
    requires s.provisions[tid] == Provision(id, Pending)
    ensures Reaches(h, from, all, to)
    ensures to == s.(store := s.store[id := s.store[id].(phase := Error)], provisions := s.provisions - {tid})
  {
    var s1 := s.(provisions := s.provisions[tid := Provision(id, Failing(s.store[id]))]);
    Then(h, from, steps, s, ProvisionGiveUp(tid), s1);
    to := s.(store := s.store[id := s.store[id].(phase := Error)], provisions := s.provisions - {tid});
    assert s1.provisions - {tid} == to.provisions;
    all := steps + [ProvisionGiveUp(tid)] + [ProvisionMark(tid)];
    Then(h, from, steps + [ProvisionGiveUp(tid)], s1, ProvisionMark(tid), to);
  }

  lemma Deleted(h: Host, from: Store, steps: seq<Step>, s: State, id: string) returns (all: seq<Step>, to: State)
    requires Reaches(h, from, steps, s) && Quiet(s) && id in s.store
    ensures Reaches(h, from, all, to) && to == s.(store := s.store - {id})
  {
    var s1 := s.(store := s.store[id := s.store[id].(phase := Deleting)], locks := map[id := ByDeleter]);
    assert s.locks[id := ByDeleter] == s1.locks;
    Then(h, from, steps, s, DeleteMark(id), s1);
    to := s.(store := s.store - {id});
    assert s1.store - {id} == to.store && s1.locks - {id} == map[];
    all := steps + [DeleteMark(id)] + [DeleteRemove(id)];
    Then(h, from, steps + [DeleteMark(id)], s1, DeleteRemove(id), to);
  }

  /**
    From any store with room: the sandbox is admitted, provisioned, and there as it was asked for, Running; deleted
    again, everything is as before.
   */
  lemma ComesAndGoes(h: Host, store: Store, tid: nat, req: Request) returns (there: seq<Step>, back: seq<Step>)
    requires Asks(req) && req.id !in store && Room(h, store, req)
    ensures Reaches(h, store, there, Start(store[req.id := Sandbox(req.id, Running, Named(req.containers))]))
    ensures Reaches(h, store, back, Start(store))
  {
    Starts(h, store);
    var a1, s1 := GetsIn(h, store, [], Start(store), tid, req);
    var s2;
    there, s2 := Completes(h, store, a1, s1, tid, req.id, true);
    var running := Start(store[req.id := Sandbox(req.id, Running, Named(req.containers))]);
    assert s2.store == running.store && s2.provisions == running.provisions;
    var s3;
    back, s3 := Deleted(h, store, there, s2, req.id);
    assert s3.store == store;
  }

  /** The reconcile loop, alone: a sandbox that is still being created times out, and gives up its share. */
  lemma TimesOut(h: Host, store: Store, id: string) returns (steps: seq<Step>, to: State)
    requires id in store && store[id].phase.Creating?
    ensures Reaches(h, store, steps, to) && to.store == store[id := store[id].(phase := Error)]
    ensures forall d :: Used(to.store, d) == Used(store, d) - Weight(store[id], d)
  {
    Starts(h, store);
    var s1 := Start(store).(listing := store);
    Then(h, store, [], Start(store), ReconcileList, s1);
    to := s1.(store := store[id := store[id].(phase := Error)]);
    steps := [] + [ReconcileList] + [ReconcileTimeout(id)];
    Then(h, store, [] + [ReconcileList], s1, ReconcileTimeout(id), to);
    forall d ensures Used(to.store, d) == Used(store, d) - Weight(store[id], d) {
      WriteMoves(store, Put(id, store[id].(phase := Error)), {}, d);
      SpentWeighsNothing(store[id], Error, d);
    }
  }

  /** And one that it finds unwell is taken away with its share. */
  lemma Finalized(h: Host, store: Store, id: string) returns (steps: seq<Step>, to: State)
    requires id in store && (store[id].phase.Running? || store[id].phase.Error?)
    ensures Reaches(h, store, steps, to) && to.store == store - {id}
    ensures forall d :: Used(to.store, d) == Used(store, d) - Weight(store[id], d)
  {
    Starts(h, store);
    var s1 := Start(store).(listing := store);
    Then(h, store, [], Start(store), ReconcileList, s1);
    to := s1.(store := store - {id});
    steps := [] + [ReconcileList] + [ReconcileFinalize(id)];
    Then(h, store, [] + [ReconcileList], s1, ReconcileFinalize(id), to);
    forall d ensures Used(to.store, d) == Used(store, d) - Weight(store[id], d) {
      WriteMoves(store, Drop(id), {}, d);
    }
  }
}
