/**
  The admission protocol: any number of creators, provisioners, deleters and the reconcile loop interleave over one
  store and one table of file locks. A listing is read entry by entry, so the store moves under every check.
 */
module AdmissionRuns {
  import opened Admission

  const ADMISSION := "_admission"

  datatype Owner = ByCreator(tid: nat) | ByAdmission(tid: nat) | ByProvisioner(pid: nat) | ByDeleter

  datatype Held = Held(cpu: int, mem: int, slots: int)

  function Part(h: Held, d: Dim): int {
    match d
    case Cpu => h.cpu
    case Mem => h.mem
    case Slots => h.slots
  }

  datatype Check = Resources | Addresses

  predicate Covers(check: Check, d: Dim) {
    check.Addresses? <==> d.Slots?
  }

  /** Where a creator stands; from Reading on it holds the admission lock as well as its sandbox's. */
  datatype Pc = Started | Reading(check: Check, todo: set<string>, acc: Held) | Cleared | Saved

  datatype Creator = Creator(req: Request, pc: Pc)

  /**
    A background provisioning: waiting for the sandbox lock, at work on what it loaded, or about to record that it
    never got the lock.
   */
  datatype Stage = Pending | Holding(snap: Sandbox) | Failing(snap: Sandbox)

  datatype Provision = Provision(id: string, stage: Stage)

  datatype State = State(
    store: Store, locks: map<string, Owner>, creators: map<nat, Creator>, provisions: map<nat, Provision>,
    listing: Store)

  datatype Step =
    | Begin(tid: nat, req: Request)
    | Abort(tid: nat)
    | TakeAdmission(tid: nat)
    | Read(tid: nat, id: string)
    | ResourcesFit(tid: nat)
    | AddressesFit(tid: nat)
    | Save(tid: nat)
    | ReturnAsync(tid: nat)
    | FinishSync(tid: nat, ok: bool)
    | ProvisionTake(pid: nat)
    | ProvisionDone(pid: nat, ok: bool)
    | ProvisionGiveUp(pid: nat)
    | ProvisionMark(pid: nat)
    | DeleteMark(id: string)
    | DeleteRemove(id: string)
    | ReconcileList
    | ReconcileTimeout(id: string)
    | ReconcileFinalize(id: string)

  ghost predicate Enabled(h: Host, s: State, step: Step) {
    match step
    case Begin(tid, req) => tid !in s.creators && tid !in s.provisions && Valid(req) && req.id !in s.locks &&
      req.id !in s.store
    case Abort(tid) => tid in s.creators && !s.creators[tid].pc.Saved?
    case TakeAdmission(tid) => tid in s.creators && s.creators[tid].pc.Started? && ADMISSION !in s.locks &&
      Parses(s.creators[tid].req.containers)
    case Read(tid, id) => tid in s.creators && s.creators[tid].pc.Reading? && id in s.creators[tid].pc.todo
    case ResourcesFit(tid) =>
      && tid in s.creators && s.creators[tid].pc.Reading? && s.creators[tid].pc.check.Resources? &&
        s.creators[tid].pc.todo == {}
      && var acc := s.creators[tid].pc.acc; var req := s.creators[tid].req;
      acc.cpu + Asked(req.containers, Cpu) <= Limit(h, Cpu) && acc.mem + Asked(req.containers, Mem) <= Limit(h, Mem)
    case AddressesFit(tid) =>
      && tid in s.creators && s.creators[tid].pc.Reading? && s.creators[tid].pc.check.Addresses? &&
        s.creators[tid].pc.todo == {}
      && UsableSubnet(h.subnet) && s.creators[tid].pc.acc.slots < Limit(h, Slots)
    case Save(tid) => tid in s.creators && s.creators[tid].pc.Cleared?
    case ReturnAsync(tid) => tid in s.creators && s.creators[tid].pc.Saved?
    case FinishSync(tid, ok) => tid in s.creators && s.creators[tid].pc.Saved?
    case ProvisionTake(pid) => pid in s.provisions && s.provisions[pid].stage.Pending? &&
      s.provisions[pid].id !in s.locks
    case ProvisionDone(pid, ok) => pid in s.provisions && s.provisions[pid].stage.Holding?
    case ProvisionGiveUp(pid) => pid in s.provisions && s.provisions[pid].stage.Pending?
    case ProvisionMark(pid) => pid in s.provisions && s.provisions[pid].stage.Failing?
    case DeleteMark(id) => id in s.store && id !in s.locks
    case DeleteRemove(id) => id in s.locks && s.locks[id].ByDeleter?
    case ReconcileList => true
    case ReconcileTimeout(id) => id in s.listing && s.listing[id].phase.Creating?
    case ReconcileFinalize(id) => id in s.listing && (s.listing[id].phase.Running? || s.listing[id].phase.Error?)
  }

  predicate Stands(store: Store, id: string) {
    id in store && Counts(store[id])
  }

  /** The guard the protocol leans on: a provisioning that succeeds finds its sandbox still counting. */
  predicate Undisturbed(s: State, step: Step) {
    match step
    case FinishSync(tid, ok) => ok && tid in s.creators ==> Stands(s.store, s.creators[tid].req.id)
    case ProvisionDone(pid, ok) => ok && pid in s.provisions ==> Stands(s.store, s.provisions[pid].id)
    case _ => true
  }

  /**
    The timing that sees to it: a provisioning has its lock, or has given up, before its id is used anew or times out,
    and the lock that the reconcile loop found free is still free when it acts.
   */
  predicate Timely(s: State, step: Step) {
    && (step.Begin? ==> !Provisioned(s, step.req.id))
    && (step.ReconcileTimeout? ==> !Provisioned(s, step.id) && step.id !in s.locks)
    && (step.ReconcileFinalize? ==> step.id !in s.locks)
  }

  /** Some background provisioning of this id has not ended. */
  predicate Provisioned(s: State, id: string) {
    exists p :: p in s.provisions && s.provisions[p].id == id
  }

  datatype Write = Keep | Put(id: string, s: Sandbox) | Drop(id: string)

  function Do(store: Store, w: Write): Store {
    match w
    case Keep => store
    case Put(id, s) => store[id := s]
    case Drop(id) => store - {id}
  }

  function Outcome(s: Sandbox, ok: bool): Sandbox {
    s.(phase := if ok then Running else Error)
  }

  /** The one store write of a step. */
  ghost function Written(h: Host, s: State, step: Step): Write
    requires Enabled(h, s, step)
  {
    match step
    case Save(tid) => Put(s.creators[tid].req.id, New(s.creators[tid].req))
    case FinishSync(tid, ok) => Put(s.creators[tid].req.id, Outcome(New(s.creators[tid].req), ok))
    case ProvisionDone(pid, ok) => Put(s.provisions[pid].id, Outcome(s.provisions[pid].stage.snap, ok))
    case ProvisionMark(pid) => Put(s.provisions[pid].id, s.provisions[pid].stage.snap.(phase := Error))
    case DeleteMark(id) => Put(id, s.store[id].(phase := Deleting))
    case DeleteRemove(id) => Drop(id)
    case ReconcileTimeout(id) => Put(id, s.listing[id].(phase := Error))
    case ReconcileFinalize(id) => Drop(id)
    case _ => Keep
  }

  function WithPc(s: State, tid: nat, pc: Pc): State
    requires tid in s.creators
  {
    s.(creators := s.creators[tid := s.creators[tid].(pc := pc)])
  }

  /** Deferred unlocks: the sandbox's lock and, if taken, the admission lock. */
  function Release(s: State, tid: nat): State
    requires tid in s.creators
  {
    s.(creators := s.creators - {tid},
       locks := s.locks - (if s.creators[tid].pc.Started? then {s.creators[tid].req.id}
         else {s.creators[tid].req.id, ADMISSION}))
  }

  ghost function ReadOne(s: State, tid: nat, id: string): Pc
    requires tid in s.creators && s.creators[tid].pc.Reading?
  {
    var c := s.creators[tid];
    var skip := id == c.req.id;
    c.pc.(todo := c.pc.todo - {id}, acc := Held(
      c.pc.acc.cpu + if skip then 0 else At(s.store, id, Cpu),
      c.pc.acc.mem + if skip then 0 else At(s.store, id, Mem),
      c.pc.acc.slots + if skip then 0 else At(s.store, id, Slots)))
  }

  /** The rest of the state after a step. */
  ghost function Control(h: Host, s: State, step: Step): State
    requires Enabled(h, s, step)
  {
    match step
    case Begin(tid, req) => s.(locks := s.locks[req.id := ByCreator(tid)],
      creators := s.creators[tid := Creator(req, Started)])
    case Abort(tid) => Release(s, tid)
    case TakeAdmission(tid) => WithPc(s.(locks := s.locks[ADMISSION := ByAdmission(tid)]), tid,
      Reading(Resources, s.store.Keys, Held(0, 0, 0)))
    case Read(tid, id) => WithPc(s, tid, ReadOne(s, tid, id))
    case ResourcesFit(tid) => WithPc(s, tid, Reading(Addresses, s.store.Keys, Held(0, 0, 0)))
    case AddressesFit(tid) => WithPc(s, tid, Cleared)
    case Save(tid) => WithPc(s, tid, Saved)
    case ReturnAsync(tid) => Release(s.(provisions := s.provisions[tid := Provision(s.creators[tid].req.id,
      Pending)]), tid)
    case FinishSync(tid, ok) => Release(s, tid)
    case ProvisionTake(pid) =>
      var id := s.provisions[pid].id;
      if id in s.store then
        s.(locks := s.locks[id := ByProvisioner(pid)],
          provisions := s.provisions[pid := Provision(id, Holding(s.store[id]))])
      else s.(provisions := s.provisions - {pid})
    case ProvisionDone(pid, ok) => s.(locks := s.locks - {s.provisions[pid].id}, provisions := s.provisions - {pid})
    case ProvisionGiveUp(pid) =>
      var id := s.provisions[pid].id;
      if id in s.store then s.(provisions := s.provisions[pid := Provision(id, Failing(s.store[id]))])
      else s.(provisions := s.provisions - {pid})
    case ProvisionMark(pid) => s.(provisions := s.provisions - {pid})
    case DeleteMark(id) => s.(locks := s.locks[id := ByDeleter])
    case DeleteRemove(id) => s.(locks := s.locks - {id})
    case ReconcileList => s.(listing := s.store)
    case ReconcileTimeout(id) => s
    case ReconcileFinalize(id) => s
  }

  ghost function Next(h: Host, s: State, step: Step): State
    requires Enabled(h, s, step)
  {
    Control(h, s, step).(store := Do(s.store, Written(h, s, step)))
  }

  // ---------- Usage under one write ----------

  /** What everybody but id holds. */
  ghost function Except(store: Store, id: string, d: Dim): int {
    Used(store, d) - At(store, id, d)
  }

  ghost function Gain(store: Store, w: Write, d: Dim): int {
    match w
    case Keep => 0
    case Put(id, s) => Weight(s, d) - At(store, id, d)
    case Drop(id) => -At(store, id, d)
  }

  predicate Touches(w: Write, ids: set<string>) {
    !w.Keep? && w.id in ids
  }

  lemma WriteMoves(store: Store, w: Write, ids: set<string>, d: Dim)
    ensures UsedBy(Do(store, w), ids, d) == UsedBy(store, ids, d) + if Touches(w, ids) then Gain(store, w, d) else 0
    ensures Used(Do(store, w), d) == Used(store, d) + Gain(store, w, d)
  {
    match w
    case Keep =>
    case Put(id, s) =>
      UsedByPut(store, ids, id, s, d);
      UsedByPut(store, store.Keys + {id}, id, s, d);
      UsedBySame(store, store.Keys, store.Keys + {id}, d);
      UsedBySame(store[id := s], store[id := s].Keys, store.Keys + {id}, d);
    case Drop(id) =>
      UsedByDrop(store, ids, id, d);
      UsedByDrop(store, store.Keys + {id}, id, d);
      UsedBySame(store, store.Keys, store.Keys + {id}, d);
      UsedBySame(store - {id}, (store - {id}).Keys, store.Keys + {id}, d);
  }

  // ---------- What every run keeps ----------

  ghost predicate HasAdmission(s: State, tid: nat) {
    ADMISSION in s.locks && s.locks[ADMISSION] == ByAdmission(tid)
  }

  ghost predicate CreatorLocks(s: State, t: nat)
    requires t in s.creators
  {
    var c := s.creators[t];
    && Valid(c.req)
    && c.req.id in s.locks && s.locks[c.req.id] == ByCreator(t)
    && (!c.pc.Started? ==> HasAdmission(s, t))
  }

  ghost predicate LocksOk(s: State) {
    forall t :: t in s.creators ==> CreatorLocks(s, t)
  }

  /** A provisioning at work holds the lock, and what it loaded is there as it was, or no longer counts. */
  ghost predicate HoldingOk(s: State, pid: nat)
    requires pid in s.provisions
  {
    var p := s.provisions[pid];
    p.stage.Holding? ==>
      && p.id in s.locks && s.locks[p.id] == ByProvisioner(pid)
      && (Stands(s.store, p.id) ==> s.store[p.id] == p.stage.snap)
  }

  ghost predicate HoldingsOk(s: State) {
    forall pid :: pid in s.provisions ==> HoldingOk(s, pid)
  }

  /** What a creator has saved is there as it was, or no longer counts. */
  ghost predicate SavedOk(store: Store, c: Creator) {
    c.pc.Saved? && Stands(store, c.req.id) ==> store[c.req.id] == New(c.req)
  }

  ghost predicate SavesOk(s: State) {
    forall t :: t in s.creators ==> SavedOk(s.store, s.creators[t])
  }

  ghost predicate LooseInv(s: State) {
    LocksOk(s) && HoldingsOk(s) && SavesOk(s)
  }

  ghost predicate Acts(step: Step) {
    step.Begin? || step.Abort? || step.TakeAdmission? || step.Read? || step.ResourcesFit? || step.AddressesFit?
    || step.Save? || step.ReturnAsync? || step.FinishSync?
  }

  /** Under a creator's step, its own or another's. */
  lemma CreatorsKeepLocks(h: Host, s: State, step: Step, t: nat)
    requires LocksOk(s) && Enabled(h, s, step) && Acts(step)
    requires t in s.creators && t in Next(h, s, step).creators
    ensures CreatorLocks(Next(h, s, step), t)
  {
    assert CreatorLocks(s, t);
    assert step.tid in s.creators ==> CreatorLocks(s, step.tid);
  }

  /** Under anybody else's. */
  lemma OthersKeepLocks(h: Host, s: State, step: Step, t: nat)
    requires LocksOk(s) && HoldingsOk(s) && Enabled(h, s, step) && !Acts(step)
    requires t in s.creators && t in Next(h, s, step).creators
    ensures CreatorLocks(Next(h, s, step), t)
  {
    assert CreatorLocks(s, t);
    if step.ProvisionDone? {
      assert HoldingOk(s, step.pid);
    }
  }

  lemma StepKeepsLocks(h: Host, s: State, step: Step)
    requires LooseInv(s) && Enabled(h, s, step)
    ensures LocksOk(Next(h, s, step))
  {
    forall t | t in Next(h, s, step).creators ensures CreatorLocks(Next(h, s, step), t) {
      if t in s.creators && Acts(step) {
        CreatorsKeepLocks(h, s, step, t);
      } else if t in s.creators {
        OthersKeepLocks(h, s, step, t);
      }
    }
  }

  lemma StepKeepsHolding(h: Host, s: State, step: Step, pid: nat)
    requires LooseInv(s) && Enabled(h, s, step) && pid in Next(h, s, step).provisions
    ensures HoldingOk(Next(h, s, step), pid)
  {
    assert pid in s.provisions ==> HoldingOk(s, pid);
    if Acts(step) {
      assert step.tid in s.creators ==> CreatorLocks(s, step.tid);
    } else if step.ProvisionDone? {
      assert HoldingOk(s, step.pid);
    }
  }

  /** While a creator holds its sandbox's lock, another writes that entry only to put an end to it. */
  lemma OwnSandboxOnlySpoiled(h: Host, s: State, step: Step, t: nat)
    requires LocksOk(s) && HoldingsOk(s) && Enabled(h, s, step)
    requires t in s.creators && t in Next(h, s, step).creators && (step.Save? ==> step.tid != t)
    ensures Touches(Written(h, s, step), {s.creators[t].req.id}) ==>
      && (step.ProvisionMark? || step.ReconcileTimeout? || step.ReconcileFinalize?)
      && !Stands(Next(h, s, step).store, s.creators[t].req.id)
  {
    assert CreatorLocks(s, t);
    if Acts(step) {
      assert step.tid in s.creators ==> CreatorLocks(s, step.tid);
    } else if step.ProvisionDone? {
      assert HoldingOk(s, step.pid);
    }
  }

  lemma StepKeepsSaved(h: Host, s: State, step: Step, t: nat)
    requires LooseInv(s) && Enabled(h, s, step) && t in Next(h, s, step).creators
    ensures SavedOk(Next(h, s, step).store, Next(h, s, step).creators[t])
  {
    if t in s.creators && !(step.Save? && step.tid == t) {
      assert SavedOk(s.store, s.creators[t]);
      OwnSandboxOnlySpoiled(h, s, step, t);
    }
  }

  lemma StepKeepsLoose(h: Host, s: State, step: Step)
    requires LooseInv(s) && Enabled(h, s, step)
    ensures LooseInv(Next(h, s, step))
  {
    var n := Next(h, s, step);
    StepKeepsLocks(h, s, step);
    forall pid | pid in n.provisions ensures HoldingOk(n, pid) {
      StepKeepsHolding(h, s, step, pid);
    }
    forall t | t in n.creators ensures SavedOk(n.store, n.creators[t]) {
      StepKeepsSaved(h, s, step, t);
    }
  }

  // ---------- Every step but a save only gives back, unless it is disturbed ----------

  lemma SpentWeighsNothing(s: Sandbox, phase: Phase, d: Dim)
    requires phase.Deleting? || phase.Error?
    ensures Weight(s.(phase := phase), d) == 0
  {
  }

  lemma CompletionGain(store: Store, id: string, snap: Sandbox, ok: bool, d: Dim)
    requires Stands(store, id) ==> store[id].containers == snap.containers
    ensures Gain(store, Put(id, Outcome(snap, ok)), d) ==
      (if ok then Weight(Outcome(snap, true), d) else 0) - At(store, id, d)
    ensures !ok || Stands(store, id) ==> Gain(store, Put(id, Outcome(snap, ok)), d) <= 0
    ensures !Stands(store, id) ==> At(store, id, d) == 0
  {
  }

  lemma FinishRaises(h: Host, s: State, tid: nat, ok: bool, d: Dim)
    requires LooseInv(s) && Enabled(h, s, FinishSync(tid, ok))
    ensures Gain(s.store, Written(h, s, FinishSync(tid, ok)), d) > 0 <==>
      !Undisturbed(s, FinishSync(tid, ok)) && 0 < Weight(Written(h, s, FinishSync(tid, ok)).s, d)
  {
    assert SavedOk(s.store, s.creators[tid]);
    CompletionGain(s.store, s.creators[tid].req.id, New(s.creators[tid].req), ok, d);
  }

  lemma ProvisionRaises(h: Host, s: State, pid: nat, ok: bool, d: Dim)
    requires LooseInv(s) && Enabled(h, s, ProvisionDone(pid, ok))
    ensures Gain(s.store, Written(h, s, ProvisionDone(pid, ok)), d) > 0 <==>
      !Undisturbed(s, ProvisionDone(pid, ok)) && 0 < Weight(Written(h, s, ProvisionDone(pid, ok)).s, d)
  {
    assert HoldingOk(s, pid);
    CompletionGain(s.store, s.provisions[pid].id, s.provisions[pid].stage.snap, ok, d);
  }

  /**
    Over all runs, whatever the timing: a step other than a save raises usage exactly when it completes a provisioning
    whose sandbox no longer counts.
   */
  lemma RaisesExactly(h: Host, s: State, step: Step, d: Dim)
    requires LooseInv(s) && Enabled(h, s, step) && !step.Save?
    ensures Used(Next(h, s, step).store, d) > Used(s.store, d) <==>
      !Undisturbed(s, step) && 0 < Weight(Written(h, s, step).s, d)
  {
    WriteMoves(s.store, Written(h, s, step), {}, d);
    if step.FinishSync? {
      FinishRaises(h, s, step.tid, step.ok, d);
    } else if step.ProvisionDone? {
      ProvisionRaises(h, s, step.pid, step.ok, d);
    } else {
      StepGives(h, s, step, d);
    }
  }

  lemma StepGives(h: Host, s: State, step: Step, d: Dim)
    requires LooseInv(s) && Enabled(h, s, step) && !step.Save? && Undisturbed(s, step)
    ensures Gain(s.store, Written(h, s, step), d) <= 0
  {
    match step
    case FinishSync(tid, ok) =>
      assert SavedOk(s.store, s.creators[tid]);
      CompletionGain(s.store, s.creators[tid].req.id, New(s.creators[tid].req), ok, d);
    case ProvisionDone(pid, ok) =>
      assert HoldingOk(s, pid);
      CompletionGain(s.store, s.provisions[pid].id, s.provisions[pid].stage.snap, ok, d);
    case _ =>
  }

  // ---------- What a creator knows ----------

  ghost predicate Fits(h: Host, store: Store, req: Request, d: Dim) {
    Except(store, req.id, d) + Asked(req.containers, d) <= Limit(h, d)
  }

  /** A reading never undercounts, and a check once passed stays passed. */
  ghost predicate Knows(h: Host, store: Store, c: Creator, d: Dim) {
    match c.pc
    case Started => true
    case Reading(check, todo, acc) =>
      && (Covers(check, d) ==> Except(store, c.req.id, d) <= Part(acc, d) + UsedBy(store, todo - {c.req.id}, d))
      && (check.Addresses? && !d.Slots? ==> Fits(h, store, c.req, d))
    case Cleared => Fits(h, store, c.req, d)
    case Saved => true
  }

  ghost predicate KnowledgeOk(h: Host, s: State) {
    forall t, d :: t in s.creators ==> Knows(h, s.store, s.creators[t], d)
  }

  ghost predicate Inv(h: Host, s: State) {
    LooseInv(s) && KnowledgeOk(h, s)
  }

  lemma SaveFits(h: Host, s: State, tid: nat, d: Dim)
    requires Inv(h, s) && Enabled(h, s, Save(tid))
    ensures Used(Next(h, s, Save(tid)).store, d) <= Limit(h, d)
  {
    var c := s.creators[tid];
    assert Knows(h, s.store, c, d) && CreatorLocks(s, tid);
    StoredIsAsked(c.req, d);
    WriteMoves(s.store, Written(h, s, Save(tid)), {}, d);
  }

  /** A write that gives back keeps what a creator knows. */
  lemma KnowledgeKept(h: Host, store: Store, w: Write, c: Creator, d: Dim)
    requires Knows(h, store, c, d) && Gain(store, w, d) <= 0
    ensures Knows(h, Do(store, w), c, d)
  {
    WriteMoves(store, w, if c.pc.Reading? then c.pc.todo - {c.req.id} else {}, d);
  }

  lemma ReadKeeps(h: Host, s: State, tid: nat, id: string, d: Dim)
    requires Inv(h, s) && Enabled(h, s, Read(tid, id))
    ensures Knows(h, s.store, s.creators[tid].(pc := ReadOne(s, tid, id)), d)
  {
    var c := s.creators[tid];
    assert Knows(h, s.store, c, d);
    UsedBySplit(s.store, c.pc.todo - {c.req.id}, id, d);
    assert c.pc.todo - {id} - {c.req.id} == c.pc.todo - {c.req.id} - {id};
  }

  /** A fresh listing still has everything to read. */
  lemma ReadingStarts(store: Store, id: string, d: Dim)
    ensures Except(store, id, d) == UsedBy(store, store.Keys - {id}, d)
  {
    UsedBySplit(store, store.Keys, id, d);
  }

  lemma ReadingEnds(store: Store, id: string, d: Dim)
    ensures UsedBy(store, {} - {id}, d) == 0
  {
    NothingHeld(store, d);
    assert {} - {id} == {};
  }

  predicate Checks(step: Step) {
    step.TakeAdmission? || step.Read? || step.ResourcesFit? || step.AddressesFit?
  }

  /** The acting creator's own step. */
  lemma OwnStepKnows(h: Host, s: State, step: Step, tid: nat, d: Dim)
    requires Inv(h, s) && Enabled(h, s, step) && Checks(step) && step.tid == tid
    ensures tid in Next(h, s, step).creators && Knows(h, Next(h, s, step).store, Next(h, s, step).creators[tid], d)
  {
    var c := s.creators[tid];
    assert Knows(h, s.store, c, d);
    ReadingStarts(s.store, c.req.id, d);
    ReadingEnds(s.store, c.req.id, d);
    if step.Read? {
      ReadKeeps(h, s, tid, step.id, d);
    }
  }

  lemma OthersKnow(h: Host, s: State, step: Step, t: nat, d: Dim)
    requires Inv(h, s) && Enabled(h, s, step) && Undisturbed(s, step)
    requires t in s.creators && t in Next(h, s, step).creators && Next(h, s, step).creators[t] == s.creators[t]
    requires step.Save? ==> step.tid != t
    ensures Knows(h, Next(h, s, step).store, s.creators[t], d)
  {
    var c := s.creators[t];
    assert Knows(h, s.store, c, d);
    if step.Save? {
      assert CreatorLocks(s, step.tid) && CreatorLocks(s, t);
    } else {
      StepGives(h, s, step, d);
      KnowledgeKept(h, s.store, Written(h, s, step), c, d);
    }
  }

  lemma StepKeepsKnowledge(h: Host, s: State, step: Step)
    requires Inv(h, s) && Enabled(h, s, step) && Undisturbed(s, step)
    ensures KnowledgeOk(h, Next(h, s, step))
  {
    var n := Next(h, s, step);
    forall t, d | t in n.creators ensures Knows(h, n.store, n.creators[t], d) {
      if Checks(step) && step.tid == t {
        OwnStepKnows(h, s, step, t, d);
      } else if t in s.creators && !(step.Save? && step.tid == t) {
        OthersKnow(h, s, step, t, d);
      }
    }
  }

  lemma StepKeepsInv(h: Host, s: State, step: Step)
    requires Inv(h, s) && Enabled(h, s, step) && Undisturbed(s, step)
    ensures Inv(h, Next(h, s, step))
    ensures forall d ::
      Used(Next(h, s, step).store, d) <= Used(s.store, d) ||
        (step.Save? && Used(Next(h, s, step).store, d) <= Limit(h, d))
  {
    var n := Next(h, s, step);
    StepKeepsLoose(h, s, step);
    StepKeepsKnowledge(h, s, step);
    forall d ensures Used(n.store, d) <= Used(s.store, d) || (step.Save? && Used(n.store, d) <= Limit(h, d)) {
      if step.Save? {
        SaveFits(h, s, step.tid, d);
      } else {
        StepGives(h, s, step, d);
        WriteMoves(s.store, Written(h, s, step), {}, d);
      }
    }
  }

  // ---------- Runs ----------

  function Start(store: Store): State {
    State(store, map[], map[], map[], map[])
  }

  ghost predicate IsRun(h: Host, trace: seq<State>, steps: seq<Step>) {
    && |trace| == |steps| + 1 && trace[0] == Start(trace[0].store)
    && forall i :: 0 <= i < |steps| ==> Enabled(h, trace[i], steps[i]) && trace[i + 1] == Next(h, trace[i], steps[i])
  }

  lemma RunFront(h: Host, trace: seq<State>, steps: seq<Step>)
    requires IsRun(h, trace, steps) && steps != []
    ensures var n := |steps| - 1;
      && IsRun(h, trace[..n + 1], steps[..n]) && trace[..n + 1][n] == trace[n] && trace[..n + 1][0] == trace[0]
      && Enabled(h, trace[n], steps[n]) && trace[n + 1] == Next(h, trace[n], steps[n])
  {
  }

  lemma {:induction false} RunKeepsLoose(h: Host, trace: seq<State>, steps: seq<Step>)
    requires IsRun(h, trace, steps)
    ensures LooseInv(trace[|steps|])
    decreases |steps|
  {
    if steps == [] {
    } else {
      var n := |steps| - 1;
      RunFront(h, trace, steps);
      RunKeepsLoose(h, trace[..n + 1], steps[..n]);
      StepKeepsLoose(h, trace[n], steps[n]);
    }
  }

  /**
    On every run a step other than a save that raises usage is the completion of a provisioning whose sandbox no
    longer counts.
   */
  lemma OnlyDisturbedStepsRaise(h: Host, trace: seq<State>, steps: seq<Step>, d: Dim)
    requires IsRun(h, trace, steps) && steps != [] && !steps[|steps| - 1].Save?
    ensures var n := |steps| - 1;
      Used(trace[n + 1].store, d) > Used(trace[n].store, d) <==>
        !Undisturbed(trace[n], steps[n]) && 0 < Weight(Written(h, trace[n], steps[n]).s, d)
  {
    var n := |steps| - 1;
    RunFront(h, trace, steps);
    RunKeepsLoose(h, trace[..n + 1], steps[..n]);
    RaisesExactly(h, trace[n], steps[n], d);
  }

  /**
    On every undisturbed run usage is within the limit in every state, or at least no higher than the store held at
    the start.
   */
  lemma {:induction false} NeverOvercommitted(h: Host, trace: seq<State>, steps: seq<Step>, d: Dim)
    requires IsRun(h, trace, steps) && forall i :: 0 <= i < |steps| ==> Undisturbed(trace[i], steps[i])
    ensures Inv(h, trace[|steps|])
    ensures Used(trace[|steps|].store, d) <= Limit(h, d) || Used(trace[|steps|].store, d) <= Used(trace[0].store, d)
    decreases |steps|
  {
    if steps == [] {
    } else {
      var n := |steps| - 1;
      RunFront(h, trace, steps);
      NeverOvercommitted(h, trace[..n + 1], steps[..n], d);
      StepKeepsInv(h, trace[n], steps[n]);
    }
  }

  // ---------- Timely runs are undisturbed ----------

  ghost predicate PendingOk(s: State, pid: nat)
    requires pid in s.provisions
  {
    var id := s.provisions[pid].id;
    match s.provisions[pid].stage
    case Pending => id in s.store && !s.store[id].phase.Creating? ==> id in s.locks && s.locks[id].ByDeleter?
    case Holding(snap) => snap.phase.Creating? && id in s.store && s.store[id] == snap
    case Failing(snap) => true
  }

  /** No creator shares its id with a provisioning, and what it saved is untouched. */
  ghost predicate AloneOk(s: State, t: nat)
    requires t in s.creators
  {
    var c := s.creators[t];
    !Provisioned(s, c.req.id) && (c.pc.Saved? ==> c.req.id in s.store && s.store[c.req.id] == New(c.req))
  }

  ghost predicate Orderly(s: State) {
    && (forall p :: p in s.provisions ==> PendingOk(s, p))
    && (forall t :: t in s.creators ==> AloneOk(s, t))
    && (forall p, q :: p in s.provisions && q in s.provisions && s.provisions[p].id == s.provisions[q].id ==> p == q)
  }

  /** Whatever leaves a provisioning, its entry and its lock alone. */
  lemma PendingStays(s: State, n: State, pid: nat)
    requires pid in s.provisions && pid in n.provisions && n.provisions[pid] == s.provisions[pid]
    requires var id := s.provisions[pid].id;
      && (id in n.store <==> id in s.store) && (id in s.store ==> n.store[id] == s.store[id])
      && (id in n.locks <==> id in s.locks) && (id in s.locks ==> n.locks[id] == s.locks[id])
    requires PendingOk(s, pid)
    ensures PendingOk(n, pid)
  {
  }

  /** Under the return of a creator, which starts a provisioning. */
  lemma ReturnKeepsPending(h: Host, s: State, tid: nat, pid: nat)
    requires LooseInv(s) && Orderly(s) && Enabled(h, s, ReturnAsync(tid))
    requires pid in Next(h, s, ReturnAsync(tid)).provisions
    ensures PendingOk(Next(h, s, ReturnAsync(tid)), pid)
  {
    assert CreatorLocks(s, tid) && AloneOk(s, tid);
    if pid != tid {
      assert PendingOk(s, pid);
    }
  }

  /** Under any other step of a creator. */
  lemma CreatorsKeepPending(h: Host, s: State, step: Step, pid: nat)
    requires LooseInv(s) && Orderly(s) && Enabled(h, s, step) && Timely(s, step)
    requires Acts(step) && !step.ReturnAsync? && pid in s.provisions
    ensures pid in Next(h, s, step).provisions && PendingOk(Next(h, s, step), pid)
  {
    assert PendingOk(s, pid);
    assert step.tid in s.creators ==> CreatorLocks(s, step.tid) && AloneOk(s, step.tid);
  }

  predicate Provisions(step: Step) {
    step.ProvisionTake? || step.ProvisionDone? || step.ProvisionGiveUp? || step.ProvisionMark?
  }

  /** Under the step of another provisioning. */
  lemma ProvisionsApart(h: Host, s: State, step: Step, pid: nat)
    requires Orderly(s) && Enabled(h, s, step) && Provisions(step) && step.pid != pid && pid in s.provisions
    ensures pid in Next(h, s, step).provisions && PendingOk(Next(h, s, step), pid)
  {
    assert PendingOk(s, pid);
    assert s.provisions[pid].id != s.provisions[step.pid].id;
    PendingStays(s, Next(h, s, step), pid);
  }

  /** Under its own step. */
  lemma ProvisionsKeepPending(h: Host, s: State, step: Step, pid: nat)
    requires LooseInv(s) && Orderly(s) && Enabled(h, s, step) && Provisions(step) && step.pid == pid
    requires pid in Next(h, s, step).provisions
    ensures PendingOk(Next(h, s, step), pid)
  {
    assert PendingOk(s, pid);
  }

  /** Under a deletion's or the reconcile loop's step. */
  lemma OthersKeepPending(h: Host, s: State, step: Step, pid: nat)
    requires LooseInv(s) && Orderly(s) && Enabled(h, s, step) && Timely(s, step) && !Acts(step) && !Provisions(step)
    requires pid in Next(h, s, step).provisions
    ensures PendingOk(Next(h, s, step), pid)
  {
    assert PendingOk(s, pid) && HoldingOk(s, pid);
  }

  lemma StepKeepsPending(h: Host, s: State, step: Step, pid: nat)
    requires LooseInv(s) && Orderly(s) && Enabled(h, s, step) && Timely(s, step) && !step.ReturnAsync?
    requires pid in s.provisions && pid in Next(h, s, step).provisions
    ensures PendingOk(Next(h, s, step), pid)
  {
    if Acts(step) {
      CreatorsKeepPending(h, s, step, pid);
    } else if Provisions(step) {
      if step.pid == pid {
        ProvisionsKeepPending(h, s, step, pid);
      } else {
        ProvisionsApart(h, s, step, pid);
      }
    } else {
      OthersKeepPending(h, s, step, pid);
    }
  }

  lemma CreatorsKeepAlone(h: Host, s: State, step: Step, t: nat)
    requires LooseInv(s) && Orderly(s) && Enabled(h, s, step) && Timely(s, step) && Acts(step)
    requires t in s.creators && t in Next(h, s, step).creators
    ensures AloneOk(Next(h, s, step), t)
  {
    assert AloneOk(s, t) && CreatorLocks(s, t);
    assert step.tid in s.creators ==> CreatorLocks(s, step.tid);
    if !step.Save? || step.tid != t {
      OwnSandboxOnlySpoiled(h, s, step, t);
    }
  }

  lemma OthersKeepAlone(h: Host, s: State, step: Step, t: nat)
    requires LooseInv(s) && Orderly(s) && Enabled(h, s, step) && Timely(s, step) && !Acts(step)
    requires t in s.creators
    ensures AloneOk(Next(h, s, step), t)
  {
    assert AloneOk(s, t) && CreatorLocks(s, t);
    OwnSandboxOnlySpoiled(h, s, step, t);
  }

  /** Provisionings keep their ids; the only new one comes from a creator that returns. */
  lemma ProvisionIds(h: Host, s: State, step: Step, p: nat)
    requires Enabled(h, s, step) && p in Next(h, s, step).provisions
    ensures var id := Next(h, s, step).provisions[p].id;
      || (p in s.provisions && s.provisions[p].id == id && (step.ReturnAsync? ==> p != step.tid))
      || (step.ReturnAsync? && p == step.tid && id == s.creators[p].req.id)
  {
  }

  lemma TimelyKeepsApart(h: Host, s: State, step: Step, p: nat, q: nat)
    requires LooseInv(s) && Orderly(s) && Enabled(h, s, step)
    requires p in Next(h, s, step).provisions && q in Next(h, s, step).provisions
    requires Next(h, s, step).provisions[p].id == Next(h, s, step).provisions[q].id
    ensures p == q
  {
    ProvisionIds(h, s, step, p);
    ProvisionIds(h, s, step, q);
    if step.ReturnAsync? {
      assert AloneOk(s, step.tid);
    }
  }

  lemma OrderlyIsUndisturbed(h: Host, s: State, step: Step)
    requires LooseInv(s) && Orderly(s) && Enabled(h, s, step)
    ensures Undisturbed(s, step)
  {
    if step.FinishSync? {
      assert AloneOk(s, step.tid);
    } else if step.ProvisionDone? {
      assert PendingOk(s, step.pid) && HoldingOk(s, step.pid);
    }
  }

  lemma TimelyKeepsOrderly(h: Host, s: State, step: Step)
    requires LooseInv(s) && Orderly(s) && Enabled(h, s, step) && Timely(s, step)
    ensures Orderly(Next(h, s, step))
  {
    var n := Next(h, s, step);
    forall p | p in n.provisions ensures PendingOk(n, p) {
      if step.ReturnAsync? {
        ReturnKeepsPending(h, s, step.tid, p);
      } else {
        ProvisionIds(h, s, step, p);
        StepKeepsPending(h, s, step, p);
      }
    }
    forall t | t in n.creators ensures AloneOk(n, t) {
      if t in s.creators && Acts(step) {
        CreatorsKeepAlone(h, s, step, t);
      } else if t in s.creators {
        OthersKeepAlone(h, s, step, t);
      }
    }
    forall p, q | p in n.provisions && q in n.provisions && n.provisions[p].id == n.provisions[q].id ensures p == q {
      TimelyKeepsApart(h, s, step, p, q);
    }
  }

  lemma {:induction false} TimelyRunsAreOrderly(h: Host, trace: seq<State>, steps: seq<Step>)
    requires IsRun(h, trace, steps) && forall i :: 0 <= i < |steps| ==> Timely(trace[i], steps[i])
    ensures LooseInv(trace[|steps|]) && Orderly(trace[|steps|])
    decreases |steps|
  {
    if steps == [] {
    } else {
      var n := |steps| - 1;
      RunFront(h, trace, steps);
      TimelyRunsAreOrderly(h, trace[..n + 1], steps[..n]);
      StepKeepsLoose(h, trace[n], steps[n]);
      TimelyKeepsOrderly(h, trace[n], steps[n]);
    }
  }

  lemma RunPrefix(h: Host, trace: seq<State>, steps: seq<Step>, n: nat)
    requires IsRun(h, trace, steps) && n <= |steps|
    ensures IsRun(h, trace[..n + 1], steps[..n]) && trace[..n + 1][n] == trace[n]
  {
  }

  lemma TimelyRunsAreUndisturbed(h: Host, trace: seq<State>, steps: seq<Step>)
    requires IsRun(h, trace, steps) && forall i :: 0 <= i < |steps| ==> Timely(trace[i], steps[i])
    ensures forall i :: 0 <= i < |steps| ==> Undisturbed(trace[i], steps[i])
  {
    forall i | 0 <= i < |steps| ensures Undisturbed(trace[i], steps[i]) {
      RunPrefix(h, trace, steps, i);
      TimelyRunsAreOrderly(h, trace[..i + 1], steps[..i]);
      OrderlyIsUndisturbed(h, trace[i], steps[i]);
    }
  }

  /** Hence: with the timing, no reachable state is overcommitted. */
  lemma TimelyNeverOvercommits(h: Host, trace: seq<State>, steps: seq<Step>, d: Dim)
    requires IsRun(h, trace, steps) && forall i :: 0 <= i < |steps| ==> Timely(trace[i], steps[i])
    ensures Used(trace[|steps|].store, d) <= Limit(h, d) || Used(trace[|steps|].store, d) <= Used(trace[0].store, d)
  {
    TimelyRunsAreUndisturbed(h, trace, steps);
    NeverOvercommitted(h, trace, steps, d);
  }

  // ---------- No admission overwrites a stored sandbox ----------

  /** What a creator is about to save is not there yet. */
  ghost predicate Unstored(s: State) {
    forall t :: t in s.creators && !s.creators[t].pc.Saved? ==> s.creators[t].req.id !in s.store
  }

  /** In good order nobody else writes a creator's entry at all. */
  lemma OrderlyUntouched(h: Host, s: State, step: Step, t: nat)
    requires LooseInv(s) && Orderly(s) && Enabled(h, s, step) && Timely(s, step)
    requires t in s.creators && t in Next(h, s, step).creators && (step.Save? ==> step.tid != t)
    ensures !Touches(Written(h, s, step), {s.creators[t].req.id})
  {
    OwnSandboxOnlySpoiled(h, s, step, t);
    assert AloneOk(s, t) && CreatorLocks(s, t);
  }

  lemma TimelyKeepsUnstored(h: Host, s: State, step: Step)
    requires LooseInv(s) && Orderly(s) && Unstored(s) && Enabled(h, s, step) && Timely(s, step)
    ensures Unstored(Next(h, s, step))
  {
    var n := Next(h, s, step);
    forall t | t in n.creators && !n.creators[t].pc.Saved? ensures n.creators[t].req.id !in n.store {
      if t in s.creators && !(step.Save? && step.tid == t) {
        OrderlyUntouched(h, s, step, t);
      }
    }
  }

  /** On every timely run a save stores a sandbox that was not there, and so never takes another's place. */
  lemma {:induction false} NothingOverwritten(h: Host, trace: seq<State>, steps: seq<Step>)
    requires IsRun(h, trace, steps) && forall i :: 0 <= i < |steps| ==> Timely(trace[i], steps[i])
    ensures Unstored(trace[|steps|])
    decreases |steps|
  {
    if steps == [] {
    } else {
      var n := |steps| - 1;
      RunFront(h, trace, steps);
      NothingOverwritten(h, trace[..n + 1], steps[..n]);
      TimelyRunsAreOrderly(h, trace[..n + 1], steps[..n]);
      TimelyKeepsUnstored(h, trace[n], steps[n]);
    }
  }

  // ---------- The admission lock's name ----------

  ghost predicate NameUnused(s: State) {
    ADMISSION !in s.store && ADMISSION !in s.listing && !Provisioned(s, ADMISSION)
  }

  lemma StepKeepsNameUnused(h: Host, s: State, step: Step)
    requires LocksOk(s) && NameUnused(s) && Enabled(h, s, step)
    ensures NameUnused(Next(h, s, step))
  {
    if step.Save? || step.ReturnAsync? || step.FinishSync? {
      assert CreatorLocks(s, step.tid);
    }
  }

  /** A sandbox cannot be given the admission lock's name: its creator would wait for itself. */
  lemma {:induction false} LockNameNeverStored(h: Host, trace: seq<State>, steps: seq<Step>)
    requires IsRun(h, trace, steps) && ADMISSION !in trace[0].store
    ensures NameUnused(trace[|steps|])
    decreases |steps|
  {
    if steps == [] {
    } else {
      var n := |steps| - 1;
      RunFront(h, trace, steps);
      LockNameNeverStored(h, trace[..n + 1], steps[..n]);
      RunKeepsLoose(h, trace[..n + 1], steps[..n]);
      StepKeepsNameUnused(h, trace[n], steps[n]);
    }
  }

  // ---------- The checks of resources.go are these steps on a store that stands still ----------

  /** Reading these ids one after the other. */
  ghost function ReadThrough(s: State, tid: nat, ids: seq<string>): (pc: Pc)
    requires tid in s.creators && s.creators[tid].pc.Reading?
    ensures pc.Reading? && pc.check == s.creators[tid].pc.check
  {
    if ids == [] then s.creators[tid].pc
    else ReadOne(WithPc(s, tid, ReadThrough(s, tid, ids[..|ids| - 1])), tid, ids[|ids| - 1])
  }

  function IdsOf(all: seq<Sandbox>): seq<string> {
    seq(|all|, i requires 0 <= i < |all| => all[i].id)
  }

  lemma ReadLast(s: State, tid: nat, front: seq<Sandbox>, last: Sandbox)
    requires tid in s.creators && s.creators[tid].pc.Reading?
    ensures ReadThrough(s, tid, IdsOf(front + [last])) ==
      ReadOne(WithPc(s, tid, ReadThrough(s, tid, IdsOf(front))), tid, last.id)
  {
    var ids := IdsOf(front + [last]);
    assert ids[..|ids| - 1] == IdsOf(front) && ids[|ids| - 1] == last.id;
  }

  lemma ReadOneAdds(s: State, tid: nat, pc: Pc, last: Sandbox, d: Dim)
    requires tid in s.creators && pc.Reading? && last.id in s.store && s.store[last.id] == last
    ensures var next, id := ReadOne(WithPc(s, tid, pc), tid, last.id), s.creators[tid].req.id;
      && next.todo == pc.todo - {last.id}
      && Part(next.acc, d) == Part(pc.acc, d) + if last.id == id then 0 else Weight(last, d)
  {
  }

  lemma TotalLast(front: seq<Sandbox>, last: Sandbox, except: string, d: Dim)
    ensures Total(front + [last], except, d) == Total(front, except, d) + if last.id == except then 0
      else Weight(last, d)
  {
    assert (front + [last])[..|front|] == front;
  }

  lemma {:induction false} ReadThroughTotals(s: State, tid: nat, all: seq<Sandbox>, d: Dim)
    requires tid in s.creators && s.creators[tid].pc.Reading?
    requires forall x :: x in all ==> x.id in s.store && s.store[x.id] == x
    ensures Part(ReadThrough(s, tid, IdsOf(all)).acc, d) ==
      Part(s.creators[tid].pc.acc, d) + Total(all, s.creators[tid].req.id, d)
  {
    if all == [] {
    } else {
      var front, last := all[..|all| - 1], all[|all| - 1];
      assert all == front + [last] && last in all && forall x :: x in front ==> x in all;
      ReadThroughTotals(s, tid, front, d);
      ReadLast(s, tid, front, last);
      ReadOneAdds(s, tid, ReadThrough(s, tid, IdsOf(front)), last, d);
      TotalLast(front, last, s.creators[tid].req.id, d);
    }
  }

  lemma {:induction false} ReadThroughTakes(s: State, tid: nat, ids: seq<string>)
    requires tid in s.creators && s.creators[tid].pc.Reading?
    ensures ReadThrough(s, tid, ids).todo == s.creators[tid].pc.todo - set id | id in ids
  {
    if ids == [] {
    } else {
      var front, last := ids[..|ids| - 1], ids[|ids| - 1];
      ReadThroughTakes(s, tid, front);
      assert ids == front + [last];
      assert (set id | id in ids) == (set id | id in front) + {last};
    }
  }

  /** A creator that reads a whole listing of a store that stands still. */
  ghost function AfterReading(s: State, tid: nat, check: Check, all: seq<Sandbox>): State
    requires tid in s.creators
  {
    var begun := WithPc(s, tid, Reading(check, s.store.Keys, Held(0, 0, 0)));
    WithPc(s, tid, ReadThrough(begun, tid, IdsOf(all)))
  }

  lemma AfterReadingTotals(s: State, tid: nat, check: Check, all: seq<Sandbox>, d: Dim)
    requires tid in s.creators && KeyedById(s.store) && Lists(all, s.store)
    ensures var pc := AfterReading(s, tid, check, all).creators[tid].pc; var id := s.creators[tid].req.id;
      pc.Reading? && pc.check == check && pc.todo == {} && Part(pc.acc, d) == UsedBy(s.store, s.store.Keys - {id}, d)
  {
    var begun := WithPc(s, tid, Reading(check, s.store.Keys, Held(0, 0, 0)));
    ReadThroughTotals(begun, tid, all, d);
    ReadThroughTakes(begun, tid, IdsOf(all));
    TotalIsUsed(all, s.store, s.creators[tid].req.id, d);
    StoredIsListed(all, s.store);
    forall k | k in s.store ensures k in IdsOf(all) {
      var i :| 0 <= i < |all| && all[i].id == k;
      assert IdsOf(all)[i] == k;
    }
  }

  /** Then the step is enabled exactly when EnforceAdmission accepts (which also asks that the request parses). */
  lemma ResourcesFitIsEnforceAdmission(h: Host, s: State, tid: nat, all: seq<Sandbox>)
    requires tid in s.creators && KeyedById(s.store) && Lists(all, s.store)
    ensures var req := s.creators[tid].req;
      Enabled(h, AfterReading(s, tid, Resources, all), ResourcesFit(tid)) <==>
        forall d: Dim :: !d.Slots? ==>
          UsedBy(s.store, s.store.Keys - {req.id}, d) + Asked(req.containers, d) <= Limit(h, d)
  {
    AfterReadingTotals(s, tid, Resources, all, Cpu);
    AfterReadingTotals(s, tid, Resources, all, Mem);
    var req := s.creators[tid].req;
    if Enabled(h, AfterReading(s, tid, Resources, all), ResourcesFit(tid)) {
      forall d: Dim | !d.Slots?
        ensures UsedBy(s.store, s.store.Keys - {req.id}, d) + Asked(req.containers, d) <= Limit(h, d)
      {
      }
    }
  }

  /** And exactly when EnsureIPCapacity accepts. */
  lemma AddressesFitIsEnsureIPCapacity(h: Host, s: State, tid: nat, all: seq<Sandbox>)
    requires tid in s.creators && KeyedById(s.store) && Lists(all, s.store)
    ensures var req := s.creators[tid].req;
      Enabled(h, AfterReading(s, tid, Addresses, all), AddressesFit(tid)) <==>
        UsableSubnet(h.subnet) && UsedBy(s.store, s.store.Keys - {req.id}, Slots) + 1 <= Limit(h, Slots)
  {
    AfterReadingTotals(s, tid, Addresses, all, Slots);
  }
}
