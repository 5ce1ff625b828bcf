/** What every run of the control plane keeps, for any replies of the nodes. */
module ControlPlaneSafety {
  import opened Strings
  import opened Types
  import opened Repo
  import opened StatusSync
  import opened ControlPlane

  /** The port table's primary key. */
  ghost predicate PortKeysUnique(db: Db) {
    forall a, b ::
      (a in db.ports && b in db.ports && a.nodeName == b.nodeName && a.port.hostPort == b.port.hostPort) ==> a == b
  }

  /** All or nothing: a sandbox holds no port row, or exactly its assigned ports on its node. */
  ghost predicate RowOk(db: Db, id: string)
    requires id in db.sandboxes
  {
    var st := db.sandboxes[id].status;
    && (RowsOf(db, id) == {} || RowsOf(db, id) == Claim(id, st))
    && DistinctHostPorts(st.assignedPorts)
    && (st.nodeName == "" ==> st.assignedPorts == [])
    && (st.phase.Pending? ==> st.nodeName == "")
    && Request(db.sandboxes[id].spec.containers).Some?
  }

  ghost predicate Inv(db: Db) {
    && PortKeysUnique(db)
    && (forall r :: r in db.ports ==> r.sandboxId in db.sandboxes)
    && (forall id :: id in db.sandboxes ==> RowOk(db, id))
    && (forall n :: n in db.nodes ==> !Blank(n))
  }

  /** Nothing but one sandbox changed, in either table. */
  ghost predicate SameElsewhere(a: Db, b: Db, id: string) {
    && a.nodes == b.nodes
    && forall k :: k != id ==>
        && (k in a.sandboxes <==> k in b.sandboxes)
        && (k in a.sandboxes ==> a.sandboxes[k] == b.sandboxes[k])
        && RowsOf(a, k) == RowsOf(b, k)
  }

  /** A rewrite that keeps the placement, or any rewrite of a sandbox that holds no ports. */
  lemma PutStatusKeeps(db: Db, id: string, st: Status)
    requires Inv(db) && id in db.sandboxes
    requires var before := db.sandboxes[id].status;
      || (st.nodeName == before.nodeName && st.assignedPorts == before.assignedPorts)
      || (RowsOf(db, id) == {} && st.nodeName == "" && st.assignedPorts == [])
    requires st.phase.Pending? ==> st.nodeName == ""
    ensures Inv(PutStatus(db, id, st)) && SameElsewhere(db, PutStatus(db, id, st), id)
    ensures RowsOf(PutStatus(db, id, st), id) == RowsOf(db, id)
  {
    var d := PutStatus(db, id, st);
    forall k ensures RowsOf(d, k) == RowsOf(db, k) {}
    forall k | k in d.sandboxes ensures RowOk(d, k) {
      assert RowOk(db, k);
    }
  }

  lemma ReleaseKeeps(db: Db, id: string)
    requires Inv(db)
    ensures Inv(ReleasePorts(db, id)) && SameElsewhere(db, ReleasePorts(db, id), id)
    ensures RowsOf(ReleasePorts(db, id), id) == {}
  {
    var d := ReleasePorts(db, id);
    forall k | k != id ensures RowsOf(d, k) == RowsOf(db, k) {}
    forall k | k in d.sandboxes ensures RowOk(d, k) {
      assert RowOk(db, k);
    }
  }

  lemma RemoveKeeps(db: Db, id: string)
    requires Inv(db)
    ensures Inv(RemoveSandbox(db, id)) && SameElsewhere(db, RemoveSandbox(db, id), id)
    ensures RowsOf(RemoveSandbox(db, id), id) == {} && id !in RemoveSandbox(db, id).sandboxes
  {
    var d := RemoveSandbox(db, id);
    forall k | k != id ensures RowsOf(d, k) == RowsOf(db, k) {}
    forall k | k in d.sandboxes ensures RowOk(d, k) {
      assert RowOk(db, k);
    }
    forall r | r in d.ports ensures r.sandboxId in d.sandboxes {
      assert r !in RowsOf(db, id);
    }
  }

  lemma AdjustKeeps(db: Db, node: string, spec: SandboxSpec, direction: int, id: string)
    requires Inv(db)
    ensures var d := AdjustForSandbox(db, node, spec, direction);
      && Inv(d) && d.ports == db.ports && d.sandboxes == db.sandboxes && SameElsewhere(db, d, id)
      && forall k :: RowsOf(d, k) == RowsOf(db, k)
  {
    var d := AdjustForSandbox(db, node, spec, direction);
    assert d.ports == db.ports && d.sandboxes == db.sandboxes;
    forall k | k in d.sandboxes ensures RowOk(d, k) {
      assert RowOk(db, k);
      assert RowsOf(d, k) == RowsOf(db, k);
    }
  }

  /** A valid allocation on a registered node can always be reserved, and the sandbox then holds exactly that claim. */
  lemma ReserveKeeps(cfg: Config, db: Db, id: string, node: string, ports: seq<PortAssign>)
    requires Inv(db) && id in db.sandboxes && db.sandboxes[id].status.phase.Pending? && node != ""
    requires AllocationOk(cfg, db.sandboxes[id].spec.ports, UsedPorts(db, node), ports)
    ensures Reserve(db, id, node, ports).Reserved?
    ensures var d := Reserve(db, id, node, ports).db;
      && Inv(d) && SameElsewhere(db, d, id) && id in d.sandboxes
      && d.sandboxes[id].spec == db.sandboxes[id].spec && d.resources == db.resources
      && d.sandboxes[id].status ==
        db.sandboxes[id].status.(nodeName := node, phase := Scheduled, assignedPorts := ports)
      && RowsOf(d, id) == Claim(id, d.sandboxes[id].status)
  {
    assert RowOk(db, id);
    assert RowsOf(db, id) == {} by {
      assert Claim(id, db.sandboxes[id].status) == {};
    }
    forall p | p in ports ensures p.hostPort !in UsedPorts(db, node) {}
    var d := Reserve(db, id, node, ports).db;
    var st := d.sandboxes[id].status;
    assert d.ports == db.ports + Claim(id, st);
    forall k | k != id ensures RowsOf(d, k) == RowsOf(db, k) {}
    forall r ensures r in RowsOf(d, id) <==> r in Claim(id, st) {
      assert r !in RowsOf(db, id);
    }
    forall k | k in d.sandboxes ensures RowOk(d, k) {
      assert k != id ==> RowOk(db, k);
    }
    assert forall r :: r in db.ports && r.nodeName == node ==> r.port.hostPort in UsedPorts(db, node);
  }

  lemma FinalizeKeeps(db: Db, id: string, spec: SandboxSpec, st: Status, nodeOk: bool, error: string)
    requires Inv(db) && id in db.sandboxes && st.phase.Deleting?
    requires st.nodeName == db.sandboxes[id].status.nodeName
    requires st.assignedPorts == db.sandboxes[id].status.assignedPorts
    ensures var d := FinalizeDelete(db, id, spec, st, nodeOk, error);
      && Inv(d) && SameElsewhere(db, d, id)
      && (id in d.sandboxes ==> d.sandboxes[id].status.phase.Deleting?)
  {
    if st.nodeName != "" && st.nodeName in db.nodes && !nodeOk {
      PutStatusKeeps(db, id, st.(lastError := error));
    } else {
      ReleaseKeeps(db, id);
      RemoveKeeps(ReleasePorts(db, id), id);
      AdjustKeeps(RemoveSandbox(ReleasePorts(db, id), id), st.nodeName, spec, -1, id);
    }
  }

  lemma MarkKeeps(db: Db, id: string, st: Status, nodeOk: bool, error: string)
    requires Inv(db) && id in db.sandboxes && st.phase.Deleting?
    requires st.nodeName == db.sandboxes[id].status.nodeName
    requires st.assignedPorts == db.sandboxes[id].status.assignedPorts
    ensures var d := MarkAndFinalize(db, id, st, nodeOk, error);
      && Inv(d) && SameElsewhere(db, d, id)
      && (id in d.sandboxes ==> d.sandboxes[id].status.phase.Deleting?)
  {
    PutStatusKeeps(db, id, st);
    FinalizeKeeps(PutStatus(db, id, st), id, db.sandboxes[id].spec, st, nodeOk, error);
  }

  /** The last write of a placement whose create call succeeded. */
  lemma RunningKeeps(db: Db, id: string, node: string, spec: SandboxSpec, st: Status)
    requires Inv(db) && id in db.sandboxes && st.phase.Running?
    requires st.nodeName == db.sandboxes[id].status.nodeName
    requires st.assignedPorts == db.sandboxes[id].status.assignedPorts
    ensures var d := AdjustForSandbox(PutStatus(db, id, st), node, spec, 1);
      && Inv(d) && SameElsewhere(db, d, id) && id in d.sandboxes
      && d.sandboxes[id].status == st && RowsOf(d, id) == RowsOf(db, id)
  {
    PutStatusKeeps(db, id, st);
    AdjustKeeps(PutStatus(db, id, st), node, spec, 1, id);
  }

  /** The last writes of a placement whose create call failed. */
  lemma FailedKeeps(db: Db, id: string, st: Status)
    requires Inv(db) && id in db.sandboxes && st.phase.Failed?
    requires st.nodeName == db.sandboxes[id].status.nodeName
    requires st.assignedPorts == db.sandboxes[id].status.assignedPorts
    ensures var d := ReleasePorts(PutStatus(db, id, st), id);
      && Inv(d) && SameElsewhere(db, d, id) && id in d.sandboxes
      && d.sandboxes[id].status == st && RowsOf(d, id) == {}
  {
    PutStatusKeeps(db, id, st);
    ReleaseKeeps(PutStatus(db, id, st), id);
  }

  /** A placement from its reservation on. */
  lemma PlaceOnKeeps(db: Db, id: string, node: string, ports: seq<PortAssign>, listed: string, ext: string,
      reply: CreateReply)
    requires id in db.sandboxes && Reserve(db, id, node, ports).Reserved?
    requires var d := Reserve(db, id, node, ports).db;
      Inv(d) && id in d.sandboxes && d.sandboxes[id].status.nodeName == node &&
        d.sandboxes[id].status.assignedPorts == ports
    ensures var reserved, d := Reserve(db, id, node, ports).db, PlaceOn(db, id, node, ports, listed, ext, reply);
      && Inv(d) && SameElsewhere(reserved, d, id) && id in d.sandboxes
      && d.sandboxes[id].status.nodeName == node && d.sandboxes[id].status.assignedPorts == ports
      && d.sandboxes[id].status.phase == (if reply.created then Running else Failed)
      && RowsOf(d, id) == (if reply.created then RowsOf(reserved, id) else {})
  {
    var d := Reserve(db, id, node, ports).db;
    var st := d.sandboxes[id].status.(external := NormExternal(listed));
    if reply.created {
      var ip := if TrimSpace(reply.ip) != "" then TrimSpace(reply.ip) else st.ip;
      var done := st.(external := NormExternal(ext), phase := Running, lastError := "", ip := ip);
      RunningKeeps(d, id, node, db.sandboxes[id].spec, done);
    } else {
      FailedKeeps(d, id, st.(phase := Failed, lastError := reply.error));
    }
  }

  /** The outcome of one placement: Running with exactly the claimed rows, or Failed with none. */
  lemma PlaceKeeps(cfg: Config, db: Db, id: string, node: string, ports: seq<PortAssign>, listed: string,
      ext: string, reply: CreateReply)
    requires Inv(db) && Enabled(cfg, db, Place(id, node, ports, listed, ext, reply))
    ensures Reserve(db, id, node, ports).Reserved?
    ensures var d := PlaceOn(db, id, node, ports, listed, ext, reply);
      && Inv(d) && SameElsewhere(db, d, id) && id in d.sandboxes
      && var st := d.sandboxes[id].status;
      && st.nodeName == node && st.assignedPorts == ports
      && (reply.created ==> st.phase.Running? && RowsOf(d, id) == Claim(id, st))
      && (!reply.created ==> st.phase.Failed? && RowsOf(d, id) == {})
  {
    ReserveKeeps(cfg, db, id, node, ports);
    PlaceOnKeeps(db, id, node, ports, listed, ext, reply);
  }

  /** A sandbox that is being deleted either still is, or has no row left. */
  ghost predicate DeletingOnlyRemoved(a: Db, b: Db) {
    forall id :: id in a.sandboxes && a.sandboxes[id].status.phase.Deleting? && id in b.sandboxes ==>
      b.sandboxes[id].status.phase.Deleting?
  }

  lemma DetachOneKeeps(db: Db, node: string, asks: bool, failing: set<string>, id: string)
    requires Inv(db)
    ensures var d := DetachOne(db, node, asks, failing, id).db;
      Inv(d) && SameElsewhere(db, d, id) && DeletingOnlyRemoved(db, d)
  {
    if id in db.sandboxes && db.sandboxes[id].status.nodeName == node {
      ReleaseKeeps(db, id);
      var d := ReleasePorts(db, id);
      if db.sandboxes[id].status.phase.Deleting? {
        RemoveKeeps(d, id);
      } else {
        PutStatusKeeps(d, id, DetachedStatus(db.sandboxes[id].status));
      }
    }
  }

  lemma {:induction false} DetachAllKeeps(db: Db, node: string, asks: bool, failing: set<string>, order: seq<string>)
    requires Inv(db)
    ensures var d := DetachAll(db, node, asks, failing, order).db; Inv(d) && DeletingOnlyRemoved(db, d)
  {
    if order == [] {
    } else {
      DetachAllKeeps(db, node, asks, failing, order[..|order| - 1]);
      var front := DetachAll(db, node, asks, failing, order[..|order| - 1]);
      if !front.aborted {
        DetachOneKeeps(front.db, node, asks, failing, order[|order| - 1]);
      }
    }
  }

  lemma DropNodeKeeps(db: Db, node: string)
    requires Inv(db)
    ensures Inv(DropNode(db, node)) && DeletingOnlyRemoved(db, DropNode(db, node))
  {
    var d := DropNode(db, node);
    forall k | k in d.sandboxes ensures RowOk(d, k) {
      assert RowOk(db, k);
      if db.sandboxes[k].status.nodeName == node {
        assert RowsOf(d, k) == {} by {
          assert forall r :: r in RowsOf(d, k) ==> r in RowsOf(db, k) && r !in Claim(k, db.sandboxes[k].status);
        }
      } else {
        assert RowsOf(d, k) == RowsOf(db, k);
      }
    }
  }

  lemma CreateKeeps(cfg: Config, db: Db, id: string, spec: SandboxSpec, now: int)
    requires Inv(db) && Enabled(cfg, db, Create(id, spec, now))
    ensures var d := Apply(cfg, db, Create(id, spec, now)); Inv(d) && SameElsewhere(db, d, id) && RowsOf(d, id) == {}
  {
    var d := Apply(cfg, db, Create(id, spec, now));
    forall k ensures RowsOf(d, k) == RowsOf(db, k) {}
    assert RowsOf(db, id) == {};
    forall k | k in d.sandboxes ensures RowOk(d, k) {
      assert k != id ==> RowOk(db, k);
    }
  }

  lemma NodeTablesKeep(db: Db, nodes: map<string, NodeState>, resources: map<string, Resources>)
    requires Inv(db) && forall n :: n in nodes ==> !Blank(n)
    ensures Inv(db.(nodes := nodes, resources := resources))
  {
    var d := db.(nodes := nodes, resources := resources);
    forall k | k in d.sandboxes ensures RowOk(d, k) {
      assert RowOk(db, k);
      assert RowsOf(d, k) == RowsOf(db, k);
    }
  }

  predicate Removes(e: Event) {
    e.Delete? || e.Trigger? || e.Finalize? || e.Expire?
  }

  predicate Reports(e: Event) {
    e.Sync? || e.Lost? || e.RefreshIp?
  }

  predicate Schedules(e: Event) {
    e.Create? || e.NoPlace? || e.Place?
  }

  function MarkedBy(e: Event, st: Status): Status {
    if e.Delete? then st.(phase := Deleting, lastError := "")
    else if e.Expire? then st.(phase := Deleting, lastError := "ttl expired")
    else st.(phase := Deleting)
  }

  /**
    Every removal either finalizes a row that is already marked or marks it first; a repeated delete request does
    nothing.
   */
  function Removed(db: Db, e: Event): Db
    requires Removes(e) && e.id in db.sandboxes
  {
    var row := db.sandboxes[e.id];
    if !row.status.phase.Deleting? then MarkAndFinalize(db, e.id, MarkedBy(e, row.status), e.nodeOk, e.error)
    else if e.Delete? then db
    else FinalizeDelete(db, e.id, row.spec, row.status, e.nodeOk, e.error)
  }

  lemma RemovalIs(cfg: Config, db: Db, e: Event)
    requires Enabled(cfg, db, e) && Removes(e)
    ensures e.id in db.sandboxes && Apply(cfg, db, e) == Removed(db, e)
    ensures e.Finalize? ==> db.sandboxes[e.id].status.phase.Deleting?
  {
  }

  lemma MarkAndFinalizeDeletes(db: Db, id: string, st: Status, nodeOk: bool, error: string)
    requires Inv(db) && id in db.sandboxes && st.phase.Deleting?
    requires st.nodeName == db.sandboxes[id].status.nodeName
    requires st.assignedPorts == db.sandboxes[id].status.assignedPorts
    ensures Inv(MarkAndFinalize(db, id, st, nodeOk, error))
    ensures DeletingOnlyRemoved(db, MarkAndFinalize(db, id, st, nodeOk, error))
  {
    MarkKeeps(db, id, st, nodeOk, error);
  }

  lemma FinalizeDeletes(db: Db, id: string, nodeOk: bool, error: string)
    requires Inv(db) && id in db.sandboxes && db.sandboxes[id].status.phase.Deleting?
    ensures var d := FinalizeDelete(db, id, db.sandboxes[id].spec, db.sandboxes[id].status, nodeOk, error);
      Inv(d) && DeletingOnlyRemoved(db, d)
  {
    FinalizeKeeps(db, id, db.sandboxes[id].spec, db.sandboxes[id].status, nodeOk, error);
  }

  lemma RemovalKeeps(cfg: Config, db: Db, e: Event)
    requires Inv(db) && Enabled(cfg, db, e) && Removes(e)
    ensures Inv(Apply(cfg, db, e)) && DeletingOnlyRemoved(db, Apply(cfg, db, e))
  {
    RemovalIs(cfg, db, e);
    if !db.sandboxes[e.id].status.phase.Deleting? {
      MarkAndFinalizeDeletes(db, e.id, MarkedBy(e, db.sandboxes[e.id].status), e.nodeOk, e.error);
    } else if !e.Delete? {
      FinalizeDeletes(db, e.id, e.nodeOk, e.error);
    }
  }

  /** A status write that leaves placement and deletion alone. */
  lemma StatusKeeps(db: Db, id: string, st: Status)
    requires Inv(db) && id in db.sandboxes
    requires var before := db.sandboxes[id].status;
      && st.nodeName == before.nodeName && st.assignedPorts == before.assignedPorts
      && (st.phase == before.phase || !before.phase.Deleting?) && (st.phase.Pending? ==> st.nodeName == "")
    ensures Inv(PutStatus(db, id, st)) && DeletingOnlyRemoved(db, PutStatus(db, id, st))
  {
    PutStatusKeeps(db, id, st);
  }

  lemma ReportKeeps(cfg: Config, db: Db, e: Event)
    requires Inv(db) && Enabled(cfg, db, e) && Reports(e)
    ensures Inv(Apply(cfg, db, e)) && DeletingOnlyRemoved(db, Apply(cfg, db, e))
  {
    var st := db.sandboxes[e.id].status;
    assert RowOk(db, e.id);
    if e.Sync? {
      SyncKeepsPlacement(st, e.report, e.nodeExternal);
      StatusKeeps(db, e.id, Synced(st, e.report, e.nodeExternal));
    } else if e.Lost? {
      StatusKeeps(db, e.id, LostOnNode(st, e.nodeExternal));
    } else {
      StatusKeeps(db, e.id, st.(ip := e.ip));
    }
  }

  lemma SchedulingKeeps(cfg: Config, db: Db, e: Event)
    requires Inv(db) && Enabled(cfg, db, e) && Schedules(e)
    ensures Inv(Apply(cfg, db, e)) && DeletingOnlyRemoved(db, Apply(cfg, db, e))
  {
    if e.Create? {
      CreateKeeps(cfg, db, e.id, e.spec, e.now);
    } else if e.NoPlace? {
      PutStatusKeeps(db, e.id, db.sandboxes[e.id].status.(phase := Failed, lastError := e.error));
    } else {
      PlaceKeeps(cfg, db, e.id, e.node, e.ports, e.listedExternal, e.external, e.reply);
    }
  }

  lemma NodeEventKeeps(cfg: Config, db: Db, e: Event)
    requires Inv(db) && Enabled(cfg, db, e) && !Removes(e) && !Reports(e) && !Schedules(e)
    ensures Inv(Apply(cfg, db, e)) && DeletingOnlyRemoved(db, Apply(cfg, db, e))
  {
    match e
    case RemoveNode(node, force, order, failing, _) =>
      DetachAllKeeps(db, node, !force, failing, order);
      DropNodeKeeps(DetachAll(db, node, !force, failing, order).db, node);
    case Register(node) => NodeTablesKeep(db, UpsertNode(db, node).nodes, UpsertNode(db, node).resources);
    case Heartbeat(node, state) => NodeTablesKeep(db, db.nodes[node := state], db.resources);
    case ResourceSync(node, res) => NodeTablesKeep(db, db.nodes, db.resources[node := res]);
  }

  /** Every event keeps the tables in step, and Deleting ends only by removal of the row. */
  lemma StepKeeps(cfg: Config, db: Db, e: Event)
    requires Inv(db) && Enabled(cfg, db, e)
    ensures Inv(Apply(cfg, db, e)) && DeletingOnlyRemoved(db, Apply(cfg, db, e))
  {
    if Removes(e) {
      RemovalKeeps(cfg, db, e);
    } else if Reports(e) {
      ReportKeeps(cfg, db, e);
    } else if Schedules(e) {
      SchedulingKeeps(cfg, db, e);
    } else {
      NodeEventKeeps(cfg, db, e);
    }
  }

  /** The main theorem: in every state of every run, for every reply of every node, the tables are in step. */
  lemma {:induction false} RunKeeps(cfg: Config, trace: seq<Db>, es: seq<Event>, n: nat)
    requires IsRun(cfg, trace, es) && Inv(trace[0]) && n <= |es|
    ensures forall i :: 0 <= i <= n ==> Inv(trace[i])
    ensures forall i :: 0 <= i < n ==> DeletingOnlyRemoved(trace[i], trace[i + 1])
  {
    if n == 0 {
    } else {
      RunKeeps(cfg, trace, es, n - 1);
      StepKeeps(cfg, trace[n - 1], es[n - 1]);
    }
  }

  lemma EmptyDbOk()
    ensures Inv(EmptyDb)
  {
  }
}
