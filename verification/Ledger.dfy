/**
  The per-node CPU/memory ledger: what AdjustNodeResourceUsage adds up along a run, against the requests of the
  sandboxes that sit on the node. Runs here contain no resource sync (which overwrites the row) and no node removal.
 */
module Ledger {
  import opened Strings
  import opened Types
  import opened Repo
  import opened StatusSync
  import opened ControlPlane
  import opened ControlPlaneSafety
  import Sums

  datatype Dim = Cpu | Mem

  function At(d: Demand, dim: Dim): int {
    if dim.Cpu? then d.cpu else d.mem
  }

  function Weight(row: Row, node: string, dim: Dim): int {
    if row.status.nodeName == node then At(Need(row.spec), dim) else 0
  }

  function Weights(db: Db, node: string, dim: Dim): map<string, int> {
    map id | id in db.sandboxes :: Weight(db.sandboxes[id], node, dim)
  }

  /** Sum of the requests of the sandboxes whose NodeName is `node`. */
  ghost function Load(db: Db, node: string, dim: Dim): int {
    Sums.Sum(Weights(db, node, dim))
  }

  function Used(db: Db, node: string, dim: Dim): int {
    if node in db.resources then At(db.resources[node].used, dim) else 0
  }

  predicate Quiet(e: Event) {
    !e.RemoveNode? && !e.ResourceSync?
  }

  /** What the service asks the ledger to add at this event. */
  ghost function Asked(cfg: Config, db: Db, e: Event, node: string, dim: Dim): int
    requires Enabled(cfg, db, e)
  {
    if e.Place? && e.reply.created then (if e.node == node then At(Need(db.sandboxes[e.id].spec), dim) else 0)
    else if Removes(e) && e.id !in Apply(cfg, db, e).sandboxes then -Weight(db.sandboxes[e.id], node, dim)
    else 0
  }

  /** Demand placed on the node that the ledger never hears of: its create call failed. */
  ghost function Uncharged(cfg: Config, db: Db, e: Event, node: string, dim: Dim): int
    requires Enabled(cfg, db, e)
  {
    if e.Place? && !e.reply.created && e.node == node then At(Need(db.sandboxes[e.id].spec), dim) else 0
  }

  /** What the clamp at zero adds to a change. */
  function ClampGain(used: int, asked: int): int {
    if used + asked < 0 then -(used + asked) else 0
  }

  lemma LoadUpdate(a: Db, b: Db, id: string, node: string, dim: Dim)
    requires SameElsewhere(a, b, id)
    ensures Load(b, node, dim) == Load(a, node, dim)
      - (if id in a.sandboxes then Weight(a.sandboxes[id], node, dim) else 0)
      + (if id in b.sandboxes then Weight(b.sandboxes[id], node, dim) else 0)
  {
    var wa, wb := Weights(a, node, dim), Weights(b, node, dim);
    if id in b.sandboxes {
      assert wb == wa[id := wb[id]];
      Sums.Put(wa, id, wb[id]);
    } else {
      assert wb == wa - {id};
      Sums.Split(wa, id);
    }
  }

  lemma FinalizeAccounts(db: Db, id: string, spec: SandboxSpec, st: Status, nodeOk: bool, error: string,
      node: string, dim: Dim)
    requires Inv(db) && id in db.sandboxes && db.sandboxes[id].spec == spec && db.sandboxes[id].status == st
    requires st.phase.Deleting?
    requires !Blank(node) && node in db.resources
    ensures var d := FinalizeDelete(db, id, spec, st, nodeOk, error);
      && SameElsewhere(db, d, id) && node in d.resources
      && (id in d.sandboxes ==> d.sandboxes[id].spec == spec && d.sandboxes[id].status.nodeName == st.nodeName)
      && (id in d.sandboxes ==> d.resources == db.resources)
      && (id !in d.sandboxes && st.nodeName == node ==>
        d.resources[node] == Charge(db.resources[node], Demand(-Need(spec).cpu, -Need(spec).mem)))
      && (id !in d.sandboxes && st.nodeName != node ==> d.resources[node] == db.resources[node])
  {
    FinalizeKeeps(db, id, spec, st, nodeOk, error);
    assert RowOk(db, id);
  }

  /** From a to b the ledger moved by the clamped request, the load by the request plus whatever was never charged. */
  ghost predicate Accounted(a: Db, b: Db, asked: int, uncharged: int, node: string, dim: Dim) {
    && node in a.resources && node in b.resources
    && Used(b, node, dim) == Used(a, node, dim) + asked + ClampGain(Used(a, node, dim), asked)
    && Load(b, node, dim) == Load(a, node, dim) + asked + uncharged
    && b.resources[node].alloc == a.resources[node].alloc
    && (b.resources[node] == a.resources[node]
        || At(b.resources[node].avail, dim) == Clamp(At(b.resources[node].alloc, dim) - Used(b, node, dim)))
  }

  lemma PlaceEffects(cfg: Config, db: Db, e: Event)
    requires Inv(db) && Enabled(cfg, db, e) && e.Place?
    ensures var d, need := Apply(cfg, db, e), Need(db.sandboxes[e.id].spec);
      && SameElsewhere(db, d, e.id) && e.id in d.sandboxes
      && d.sandboxes[e.id].spec == db.sandboxes[e.id].spec
      && d.sandboxes[e.id].status.nodeName == e.node && db.sandboxes[e.id].status.nodeName == "" && !Blank(e.node)
      && d.resources == if e.reply.created && e.node in db.resources
        then db.resources[e.node := Charge(db.resources[e.node], need)] else db.resources
  {
    PlaceKeeps(cfg, db, e.id, e.node, e.ports, e.listedExternal, e.external, e.reply);
    assert RowOk(db, e.id);
    var need := Need(db.sandboxes[e.id].spec);
    assert 1 * need.cpu == need.cpu && 1 * need.mem == need.mem;
  }

  lemma PlaceLoads(cfg: Config, db: Db, e: Event, node: string, dim: Dim)
    requires Inv(db) && Enabled(cfg, db, e) && e.Place? && !Blank(node)
    ensures Load(Apply(cfg, db, e), node, dim) ==
      Load(db, node, dim) + if e.node == node then At(Need(db.sandboxes[e.id].spec), dim) else 0
  {
    PlaceEffects(cfg, db, e);
    LoadUpdate(db, Apply(cfg, db, e), e.id, node, dim);
  }

  /** What one charge of the row does to its columns. */
  lemma Charged(r: Resources, d: Demand, dim: Dim)
    requires 0 <= At(r.used, dim)
    ensures var c := Charge(r, d);
      && c.alloc == r.alloc && At(c.used, dim) == At(r.used, dim) + At(d, dim) + ClampGain(At(r.used, dim), At(d, dim))
      && At(c.avail, dim) == Clamp(At(c.alloc, dim) - At(c.used, dim))
  {
  }

  lemma PlaceAccounts(cfg: Config, db: Db, e: Event, node: string, dim: Dim)
    requires Inv(db) && Enabled(cfg, db, e) && e.Place? && !Blank(node) && node in db.resources
    requires 0 <= Used(db, node, dim)
    ensures Accounted(db, Apply(cfg, db, e), Asked(cfg, db, e, node, dim), Uncharged(cfg, db, e, node, dim), node, dim)
  {
    PlaceEffects(cfg, db, e);
    PlaceLoads(cfg, db, e, node, dim);
    Charged(db.resources[node], Need(db.sandboxes[e.id].spec), dim);
  }

  /** A change the ledger does not see may come first. */
  lemma AccountedAfter(a: Db, b: Db, c: Db, asked: int, node: string, dim: Dim)
    requires Accounted(a, b, 0, 0, node, dim) && Accounted(b, c, asked, 0, node, dim) && 0 <= Used(a, node, dim)
    ensures Accounted(a, c, asked, 0, node, dim)
  {
  }

  lemma FinalizedAccounts(db: Db, id: string, st: Status, nodeOk: bool, error: string, node: string, dim: Dim)
    requires Inv(db) && id in db.sandboxes && db.sandboxes[id].status == st && st.phase.Deleting?
    requires !Blank(node) && node in db.resources && 0 <= Used(db, node, dim)
    ensures var d := FinalizeDelete(db, id, db.sandboxes[id].spec, st, nodeOk, error);
      Accounted(db, d, if id in d.sandboxes then 0 else -Weight(db.sandboxes[id], node, dim), 0, node, dim)
  {
    FinalizeAccounts(db, id, db.sandboxes[id].spec, st, nodeOk, error, node, dim);
    LoadUpdate(db, FinalizeDelete(db, id, db.sandboxes[id].spec, st, nodeOk, error), id, node, dim);
  }

  lemma MarkAccounts(db: Db, id: string, st: Status, nodeOk: bool, error: string, node: string, dim: Dim)
    requires Inv(db) && id in db.sandboxes && st.phase.Deleting?
    requires st.nodeName == db.sandboxes[id].status.nodeName
    requires st.assignedPorts == db.sandboxes[id].status.assignedPorts
    requires !Blank(node) && node in db.resources && 0 <= Used(db, node, dim)
    ensures var d := MarkAndFinalize(db, id, st, nodeOk, error);
      Accounted(db, d, if id in d.sandboxes then 0 else -Weight(db.sandboxes[id], node, dim), 0, node, dim)
  {
    StatusAccounts(db, id, st, node, dim);
    PutStatusKeeps(db, id, st);
    var marked := PutStatus(db, id, st);
    assert Used(marked, node, dim) == Used(db, node, dim);
    FinalizedAccounts(marked, id, st, nodeOk, error, node, dim);
    var d := FinalizeDelete(marked, id, marked.sandboxes[id].spec, st, nodeOk, error);
    AccountedAfter(db, marked, d, if id in d.sandboxes then 0 else -Weight(marked.sandboxes[id], node, dim), node, dim);
  }

  lemma StatusAccounts(db: Db, id: string, st: Status, node: string, dim: Dim)
    requires Inv(db) && id in db.sandboxes && node in db.resources && 0 <= Used(db, node, dim)
    requires st.nodeName == db.sandboxes[id].status.nodeName
    requires st.assignedPorts == db.sandboxes[id].status.assignedPorts
    requires st.phase.Pending? ==> st.nodeName == ""
    ensures Accounted(db, PutStatus(db, id, st), 0, 0, node, dim)
  {
    PutStatusKeeps(db, id, st);
    LoadUpdate(db, PutStatus(db, id, st), id, node, dim);
  }

  lemma NothingMoves(db: Db, node: string, dim: Dim)
    requires node in db.resources && 0 <= Used(db, node, dim)
    ensures Accounted(db, db, 0, 0, node, dim)
  {
  }

  lemma RemovedAccounts(db: Db, e: Event, node: string, dim: Dim)
    requires Inv(db) && Removes(e) && e.id in db.sandboxes && !Blank(node) && node in db.resources
    requires 0 <= Used(db, node, dim) && (e.Finalize? ==> db.sandboxes[e.id].status.phase.Deleting?)
    ensures var d := Removed(db, e);
      Accounted(db, d, if e.id in d.sandboxes then 0 else -Weight(db.sandboxes[e.id], node, dim), 0, node, dim)
  {
    var st := db.sandboxes[e.id].status;
    if !st.phase.Deleting? {
      MarkAccounts(db, e.id, MarkedBy(e, st), e.nodeOk, e.error, node, dim);
    } else if e.Delete? {
      NothingMoves(db, node, dim);
    } else {
      FinalizedAccounts(db, e.id, st, e.nodeOk, e.error, node, dim);
    }
  }

  lemma RemovalAccounts(cfg: Config, db: Db, e: Event, node: string, dim: Dim)
    requires Inv(db) && Enabled(cfg, db, e) && Removes(e) && !Blank(node) && node in db.resources
    requires 0 <= Used(db, node, dim)
    ensures Accounted(db, Apply(cfg, db, e), Asked(cfg, db, e, node, dim), 0, node, dim)
  {
    RemovalIs(cfg, db, e);
    RemovedAccounts(db, e, node, dim);
  }

  lemma ReportAccounts(cfg: Config, db: Db, e: Event, node: string, dim: Dim)
    requires Inv(db) && Enabled(cfg, db, e) && Reports(e) && node in db.resources && 0 <= Used(db, node, dim)
    ensures Accounted(db, Apply(cfg, db, e), 0, 0, node, dim)
  {
    var st := db.sandboxes[e.id].status;
    assert RowOk(db, e.id);
    NothingMoves(db, node, dim);
    if e.Sync? {
      SyncKeepsPlacement(st, e.report, e.nodeExternal);
      StatusAccounts(db, e.id, Synced(st, e.report, e.nodeExternal), node, dim);
    } else if e.Lost? {
      StatusAccounts(db, e.id, LostOnNode(st, e.nodeExternal), node, dim);
    } else {
      StatusAccounts(db, e.id, st.(ip := e.ip), node, dim);
    }
  }

  lemma CreateAccounts(cfg: Config, db: Db, e: Event, node: string, dim: Dim)
    requires Inv(db) && Enabled(cfg, db, e) && e.Create? && node in db.resources && 0 <= Used(db, node, dim)
    ensures !Blank(node) ==> Accounted(db, Apply(cfg, db, e), 0, 0, node, dim)
  {
    CreateKeeps(cfg, db, e.id, e.spec, e.now);
    LoadUpdate(db, Apply(cfg, db, e), e.id, node, dim);
  }

  lemma NoPlaceAccounts(cfg: Config, db: Db, e: Event, node: string, dim: Dim)
    requires Inv(db) && Enabled(cfg, db, e) && e.NoPlace? && node in db.resources && 0 <= Used(db, node, dim)
    ensures Accounted(db, Apply(cfg, db, e), 0, 0, node, dim)
  {
    StatusAccounts(db, e.id, db.sandboxes[e.id].status.(phase := Failed, lastError := e.error), node, dim);
  }

  lemma NodeAccounts(cfg: Config, db: Db, e: Event, node: string, dim: Dim)
    requires Enabled(cfg, db, e) && (e.Register? || e.Heartbeat?) && node in db.resources && 0 <= Used(db, node, dim)
    ensures Accounted(db, Apply(cfg, db, e), 0, 0, node, dim)
  {
  }

  lemma StepAccounts(cfg: Config, db: Db, e: Event, node: string, dim: Dim)
    requires Inv(db) && Enabled(cfg, db, e) && Quiet(e) && !Blank(node) && node in db.resources
    requires 0 <= Used(db, node, dim)
    ensures Accounted(db, Apply(cfg, db, e), Asked(cfg, db, e, node, dim), Uncharged(cfg, db, e, node, dim), node, dim)
  {
    if Removes(e) {
      RemovalAccounts(cfg, db, e, node, dim);
    } else if Reports(e) {
      ReportAccounts(cfg, db, e, node, dim);
    } else if e.Place? {
      PlaceAccounts(cfg, db, e, node, dim);
    } else if e.NoPlace? {
      NoPlaceAccounts(cfg, db, e, node, dim);
    } else if e.Create? {
      CreateAccounts(cfg, db, e, node, dim);
    } else {
      NodeAccounts(cfg, db, e, node, dim);
    }
  }

  ghost predicate IsQuietRun(cfg: Config, trace: seq<Db>, es: seq<Event>) {
    IsRun(cfg, trace, es) && forall e :: e in es ==> Quiet(e)
  }

  /** Total over the first n events of what was never charged, and of what clamping added. */
  ghost function TotalUncharged(cfg: Config, trace: seq<Db>, es: seq<Event>, node: string, dim: Dim, n: nat): int
    requires IsQuietRun(cfg, trace, es) && n <= |es|
  {
    if n == 0 then 0
    else TotalUncharged(cfg, trace, es, node, dim, n - 1) + Uncharged(cfg, trace[n - 1], es[n - 1], node, dim)
  }

  ghost function TotalClamp(cfg: Config, trace: seq<Db>, es: seq<Event>, node: string, dim: Dim, n: nat): int
    requires IsQuietRun(cfg, trace, es) && n <= |es|
  {
    if n == 0 then 0
    else
      TotalClamp(cfg, trace, es, node, dim, n - 1)
      + ClampGain(Used(trace[n - 1], node, dim), Asked(cfg, trace[n - 1], es[n - 1], node, dim))
  }

  /**
    Conservation on every quiet run, failing creates included: ledger minus load drifts by exactly the clamping minus
    the uncharged demand. The ledger is therefore exact if and only if those two totals agree.
   */
  lemma {:induction false} RunAccounts(cfg: Config, trace: seq<Db>, es: seq<Event>, node: string, dim: Dim, n: nat)
    requires IsQuietRun(cfg, trace, es) && n <= |es| && Inv(trace[0])
    requires !Blank(node) && node in trace[0].resources && 0 <= Used(trace[0], node, dim)
    ensures node in trace[n].resources && 0 <= Used(trace[n], node, dim) && Inv(trace[n])
    ensures Used(trace[n], node, dim) - Load(trace[n], node, dim) ==
      Used(trace[0], node, dim) - Load(trace[0], node, dim)
      + TotalClamp(cfg, trace, es, node, dim, n) - TotalUncharged(cfg, trace, es, node, dim, n)
    ensures Used(trace[n], node, dim) - Load(trace[n], node, dim) ==
      Used(trace[0], node, dim) - Load(trace[0], node, dim)
      <==> TotalClamp(cfg, trace, es, node, dim, n) == TotalUncharged(cfg, trace, es, node, dim, n)
  {
    if n == 0 {
    } else {
      RunAccounts(cfg, trace, es, node, dim, n - 1);
      StepAccounts(cfg, trace[n - 1], es[n - 1], node, dim);
      StepKeeps(cfg, trace[n - 1], es[n - 1]);
    }
  }

  // ---------- Runs in which every create call succeeds ----------

  predicate Modest(spec: SandboxSpec) {
    0 <= Need(spec).cpu && 0 <= Need(spec).mem
  }

  /** Creates succeed and no request is negative. */
  predicate Smooth(e: Event) {
    Quiet(e) && (e.Place? ==> e.reply.created) && (e.Create? ==> Modest(e.spec))
  }

  ghost predicate AllModest(db: Db) {
    forall id :: id in db.sandboxes ==> Modest(db.sandboxes[id].spec)
  }

  /** The ledger row accounts for at least the load, fits, and its available column agrees. */
  ghost predicate Balanced(db: Db, node: string, dim: Dim) {
    && node in db.resources
    && Load(db, node, dim) <= Used(db, node, dim) <= At(db.resources[node].alloc, dim)
    && At(db.resources[node].avail, dim) == At(db.resources[node].alloc, dim) - Used(db, node, dim)
  }

  lemma LoadCovers(db: Db, id: string, node: string, dim: Dim)
    requires AllModest(db)
    ensures 0 <= Load(db, node, dim)
    ensures id in db.sandboxes ==> Weight(db.sandboxes[id], node, dim) <= Load(db, node, dim)
  {
    var w := Weights(db, node, dim);
    Sums.NonNegative(w);
    Sums.Split(w, id);
    Sums.NonNegative(w - {id});
  }

  lemma ModestStep(cfg: Config, db: Db, e: Event)
    requires Inv(db) && Enabled(cfg, db, e) && Smooth(e) && AllModest(db)
    ensures AllModest(Apply(cfg, db, e))
  {
    var d := Apply(cfg, db, e);
    forall k | k in d.sandboxes ensures Modest(d.sandboxes[k].spec) {
      SpecKept(cfg, db, e, k);
    }
  }

  ghost predicate SpecStays(a: Db, b: Db, e: Event, k: string) {
    k in b.sandboxes ==>
      if k in a.sandboxes then b.sandboxes[k].spec == a.sandboxes[k].spec
      else e.Create? && b.sandboxes[k].spec == e.spec
  }

  lemma RemovalSpecKept(cfg: Config, db: Db, e: Event, k: string)
    requires Enabled(cfg, db, e) && Removes(e)
    ensures SpecStays(db, Apply(cfg, db, e), e, k)
  {
  }

  lemma SpecKept(cfg: Config, db: Db, e: Event, k: string)
    requires Inv(db) && Enabled(cfg, db, e) && Quiet(e)
    ensures SpecStays(db, Apply(cfg, db, e), e, k)
  {
    if e.Place? {
      PlaceEffects(cfg, db, e);
    } else if Removes(e) {
      RemovalSpecKept(cfg, db, e, k);
    }
  }

  /** The removal will go through: a repeated delete request does nothing, and a registered node must agree. */
  predicate GoesThrough(db: Db, e: Event)
    requires Removes(e) && e.id in db.sandboxes
  {
    var st := db.sandboxes[e.id].status;
    !(e.Delete? && st.phase.Deleting?) && (e.nodeOk || st.nodeName == "" || st.nodeName !in db.nodes)
  }

  /**
    The guards of the two places where ledger and load part: a create that fails, and a removal of more than the row
    holds.
   */
  ghost predicate Exact(cfg: Config, db: Db, e: Event, node: string, dim: Dim)
    requires Enabled(cfg, db, e)
  {
    && (e.Place? && !e.reply.created && e.node == node ==> At(Need(db.sandboxes[e.id].spec), dim) == 0)
    && (Removes(e) && GoesThrough(db, e) ==> Weight(db.sandboxes[e.id], node, dim) <= Used(db, node, dim))
  }

  lemma RemovedWhenGoesThrough(cfg: Config, db: Db, e: Event)
    requires Enabled(cfg, db, e) && Removes(e)
    ensures e.id in db.sandboxes && (e.id !in Apply(cfg, db, e).sandboxes <==> GoesThrough(db, e))
  {
    RemovalIs(cfg, db, e);
  }

  /** What the clamp adds and what is not charged, by the guards alone. */
  lemma GuardsAsk(cfg: Config, db: Db, e: Event, node: string, dim: Dim)
    requires Enabled(cfg, db, e) && AllModest(db) && 0 <= Used(db, node, dim)
    ensures Uncharged(cfg, db, e, node, dim) >= 0
    ensures Exact(cfg, db, e, node, dim) <==>
      ClampGain(Used(db, node, dim), Asked(cfg, db, e, node, dim)) == Uncharged(cfg, db, e, node, dim)
  {
    if Removes(e) {
      RemovedWhenGoesThrough(cfg, db, e);
    }
  }

  /** One event keeps the difference of ledger and load exactly when neither happens. */
  lemma StepIsExact(cfg: Config, db: Db, e: Event, node: string, dim: Dim)
    requires Inv(db) && Enabled(cfg, db, e) && Quiet(e) && AllModest(db) && !Blank(node) && node in db.resources
    requires 0 <= Used(db, node, dim)
    ensures Exact(cfg, db, e, node, dim) <==>
      Used(Apply(cfg, db, e), node, dim) - Load(Apply(cfg, db, e), node, dim) ==
        Used(db, node, dim) - Load(db, node, dim)
  {
    StepAccounts(cfg, db, e, node, dim);
    GuardsAsk(cfg, db, e, node, dim);
  }

  /** A smooth event asks for no more than the row can give. */
  lemma SmoothAsks(cfg: Config, db: Db, e: Event, node: string, dim: Dim)
    requires Inv(db) && Enabled(cfg, db, e) && Smooth(e) && AllModest(db) && Balanced(db, node, dim)
    ensures Uncharged(cfg, db, e, node, dim) == 0 && 0 <= Used(db, node, dim)
    ensures 0 <= Used(db, node, dim) + Asked(cfg, db, e, node, dim) <= At(db.resources[node].alloc, dim)
  {
    LoadCovers(db, if Removes(e) then e.id else "", node, dim);
    if e.Place? && e.node == node {
      assert Feasible(cfg, db, db.sandboxes[e.id].spec, node);
    }
  }

  lemma SmoothStep(cfg: Config, db: Db, e: Event, node: string, dim: Dim)
    requires Inv(db) && Enabled(cfg, db, e) && Smooth(e) && AllModest(db) && !Blank(node) && Balanced(db, node, dim)
    ensures Balanced(Apply(cfg, db, e), node, dim)
    ensures Used(Apply(cfg, db, e), node, dim) - Load(Apply(cfg, db, e), node, dim) ==
      Used(db, node, dim) - Load(db, node, dim)
    ensures ClampGain(Used(db, node, dim), Asked(cfg, db, e, node, dim)) == 0
  {
    SmoothAsks(cfg, db, e, node, dim);
    StepAccounts(cfg, db, e, node, dim);
  }

  /**
    When every create succeeds the clamp never fires, the ledger follows the load exactly, and no node is overbooked.
   */
  lemma {:induction false} SmoothRunsAreExact(cfg: Config, trace: seq<Db>, es: seq<Event>, node: string, dim: Dim,
      n: nat)
    requires IsRun(cfg, trace, es) && n <= |es| && Inv(trace[0]) && AllModest(trace[0])
    requires forall e :: e in es ==> Smooth(e)
    requires !Blank(node) && Balanced(trace[0], node, dim)
    ensures Inv(trace[n]) && AllModest(trace[n]) && Balanced(trace[n], node, dim)
    ensures Used(trace[n], node, dim) - Load(trace[n], node, dim) ==
      Used(trace[0], node, dim) - Load(trace[0], node, dim)
    ensures 0 < n ==> ClampGain(Used(trace[n - 1], node, dim), Asked(cfg, trace[n - 1], es[n - 1], node, dim)) == 0
  {
    if n == 0 {
    } else {
      SmoothRunsAreExact(cfg, trace, es, node, dim, n - 1);
      var db, e := trace[n - 1], es[n - 1];
      assert e in es;
      SmoothStep(cfg, db, e, node, dim);
      StepKeeps(cfg, db, e);
      ModestStep(cfg, db, e);
    }
  }

  /** A delete request whose node agrees removes the row at once, and takes its demand off. */
  lemma AgreedDeleteAccounts(cfg: Config, db: Db, id: string, node: string, dim: Dim)
    requires Inv(db) && id in db.sandboxes && !db.sandboxes[id].status.phase.Deleting?
    requires !Blank(node) && node in db.resources && 0 <= Used(db, node, dim)
    ensures Enabled(cfg, db, Delete(id, true, ""))
    ensures var d, w := Apply(cfg, db, Delete(id, true, "")), Weight(db.sandboxes[id], node, dim);
      Load(d, node, dim) == Load(db, node, dim) - w && Used(d, node, dim) == Max(0, Used(db, node, dim) - w)
  {
    var del := Delete(id, true, "");
    RemovalIs(cfg, db, del);
    RemovedAccounts(db, del, node, dim);
  }

  lemma FailedCreate(cfg: Config, db: Db, e: Event, node: string, dim: Dim)
    requires Inv(db) && Enabled(cfg, db, e) && e.Place? && !e.reply.created && e.node == node && !Blank(node)
    ensures var failed := Apply(cfg, db, e);
      && Inv(failed) && e.id in failed.sandboxes && failed.sandboxes[e.id].status.phase.Failed?
      && failed.sandboxes[e.id].status.nodeName == node && failed.sandboxes[e.id].spec == db.sandboxes[e.id].spec
      && failed.resources == db.resources
      && Load(failed, node, dim) == Load(db, node, dim) + At(Need(db.sandboxes[e.id].spec), dim)
  {
    PlaceKeeps(cfg, db, e.id, e.node, e.ports, e.listedExternal, e.external, e.reply);
    PlaceEffects(cfg, db, e);
    PlaceLoads(cfg, db, e, node, dim);
  }

  /**
    Where exactness is lost: a create that fails and the deletion that follows take the demand off a ledger it was
    never put on.
   */
  lemma FailedCreateUndercharges(cfg: Config, db: Db, e: Event, node: string, dim: Dim)
    requires Inv(db) && Enabled(cfg, db, e) && e.Place? && !e.reply.created && e.node == node
    requires !Blank(node) && node in db.resources && 0 <= Used(db, node, dim)
    ensures var failed, del := Apply(cfg, db, e), Delete(e.id, true, "");
      && Enabled(cfg, failed, del)
      && Load(Apply(cfg, failed, del), node, dim) == Load(db, node, dim)
      && Used(Apply(cfg, failed, del), node, dim) ==
        Max(0, Used(db, node, dim) - At(Need(db.sandboxes[e.id].spec), dim))
  {
    var failed := Apply(cfg, db, e);
    FailedCreate(cfg, db, e, node, dim);
    AgreedDeleteAccounts(cfg, failed, e.id, node, dim);
  }

  // ---------- The clamped column in closed form ----------

  function Total(ds: seq<int>): int {
    if ds == [] then 0 else Total(ds[..|ds| - 1]) + ds[|ds| - 1]
  }

  /** The used column after successive AdjustNodeResourceUsage calls. */
  function AdjustAll(db: Db, node: string, ds: seq<Demand>): Db {
    if ds == [] then db else AdjustUsage(AdjustAll(db, node, ds[..|ds| - 1]), node, ds[|ds| - 1])
  }

  function Project(ds: seq<Demand>, dim: Dim): seq<int> {
    seq(|ds|, i requires 0 <= i < |ds| => At(ds[i], dim))
  }

  /** The greatest of u0 plus all changes and every proper suffix of the changes. */
  ghost predicate IsClosedForm(u0: int, ds: seq<int>, used: int) {
    && u0 + Total(ds) <= used
    && (forall k :: 1 <= k <= |ds| ==> Total(ds) - Total(ds[..k]) <= used)
    && (used == u0 + Total(ds) || exists k :: 1 <= k <= |ds| && used == Total(ds) - Total(ds[..k]))
  }

  function Clamped(u0: int, ds: seq<int>): int {
    if ds == [] then u0 else Clamp(Clamped(u0, ds[..|ds| - 1]) + ds[|ds| - 1])
  }

  lemma {:induction false} ClampedClosedForm(u0: int, ds: seq<int>)
    requires 0 <= u0
    ensures IsClosedForm(u0, ds, Clamped(u0, ds)) && 0 <= Clamped(u0, ds)
  {
    if ds == [] {
    } else {
      var n, front := |ds|, ds[..|ds| - 1];
      ClampedClosedForm(u0, front);
      assert ds[..n] == ds;
      assert forall k :: 1 <= k < n ==> front[..k] == ds[..k];
      var used := Clamped(u0, front);
      if 0 < used + ds[n - 1] && used != u0 + Total(front) {
        var k :| 1 <= k < n && used == Total(front) - Total(front[..k]);
        assert Clamped(u0, ds) == Total(ds) - Total(ds[..k]);
      } else {
        assert Clamped(u0, ds) in {u0 + Total(ds), Total(ds) - Total(ds[..n])};
      }
    }
  }

  lemma {:induction false} AdjustAllIsClamped(db: Db, node: string, ds: seq<Demand>, dim: Dim)
    requires node in db.resources
    ensures node in AdjustAll(db, node, ds).resources
    ensures Used(AdjustAll(db, node, ds), node, dim) == Clamped(Used(db, node, dim), Project(ds, dim))
    ensures AdjustAll(db, node, ds).resources[node].alloc == db.resources[node].alloc
  {
    if ds == [] {
    } else {
      AdjustAllIsClamped(db, node, ds[..|ds| - 1], dim);
      assert Project(ds, dim)[..|ds| - 1] == Project(ds[..|ds| - 1], dim);
    }
  }

  /**
    Any number of adjustments from a non-negative column: the closed form, and available is what is left of
    allocatable.
   */
  lemma ClosedForm(db: Db, node: string, ds: seq<Demand>, dim: Dim)
    requires node in db.resources && 0 <= Used(db, node, dim)
    ensures var d := AdjustAll(db, node, ds);
      && node in d.resources
      && IsClosedForm(Used(db, node, dim), Project(ds, dim), Used(d, node, dim))
      && (ds != [] ==>
          At(d.resources[node].avail, dim) == Clamp(At(db.resources[node].alloc, dim) - Used(d, node, dim)))
  {
    AdjustAllIsClamped(db, node, ds, dim);
    ClampedClosedForm(Used(db, node, dim), Project(ds, dim));
    if ds != [] {
      AdjustAllIsClamped(db, node, ds[..|ds| - 1], dim);
    }
  }
}
