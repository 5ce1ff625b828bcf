/**
  What the service's operations do to the tables, said over the two databases and the arguments alone. Nothing here is
  stated with a function that an operation is written with.
 */
module Outcomes {
  import opened Strings
  import opened Types
  import opened Repo
  import opened StatusSync
  import opened ControlPlane
  import opened ControlPlaneSafety

  // ---------- Creation ----------

  /** Requests that are turned down. */
  ghost predicate TurnedDown(rawId: string, spec: SandboxSpec) {
    || Blank(rawId) || spec.containers == [] || spec.ttlSeconds < 0
    || (exists c :: c in spec.containers && (Blank(c.name) || Blank(c.image) || c.cpu.None? || c.mem.None?))
    || (exists p :: p in spec.ports && !(1 <= p.containerPort <= 65535 && KnownProtocol(p.protocol)))
  }

  predicate KnownProtocol(raw: string) {
    Blank(raw) || EqualFold(TrimSpace(raw), "tcp") || EqualFold(TrimSpace(raw), "udp")
  }

  lemma TurnedDownMeans(rawId: string, spec: SandboxSpec)
    ensures TurnedDown(rawId, spec) <==> Blank(rawId) || !ValidSpec(spec)
  {
    RequestMeans(spec.containers);
    forall p | p in spec.ports
      ensures ToLower(TrimSpace(p.protocol)) in {"", "tcp", "udp"} <==> KnownProtocol(p.protocol)
    {
      NormProtoMeans(p.protocol);
    }
  }

  predicate DueByAge(st: Status, t: int) {
    st.expireAt.Some? && st.expireAt.value < t
  }

  /** A new sandbox has its spec, no node, no ports and nothing to report, and is due when its time to live is over. */
  ghost predicate CreatedAs(a: Db, b: Db, id: string, spec: SandboxSpec, now: int) {
    && id !in a.sandboxes && id in b.sandboxes && SameElsewhere(a, b, id)
    && b.ports == a.ports && b.resources == a.resources
    && b.sandboxes[id].spec == spec
    && var st := b.sandboxes[id].status;
    && st.phase == Pending && st.nodeName == "" && st.assignedPorts == []
    && st.external == "" && st.ip == "" && st.lastError == ""
    && forall t :: DueByAge(st, t) <==> 0 < spec.ttlSeconds && now + spec.ttlSeconds < t
  }

  lemma CreateOutcome(cfg: Config, db: Db, id: string, spec: SandboxSpec, now: int)
    requires Enabled(cfg, db, Create(id, spec, now))
    ensures CreatedAs(db, Apply(cfg, db, Create(id, spec, now)), id, spec, now)
  {
    var d := Apply(cfg, db, Create(id, spec, now));
    forall k ensures RowsOf(d, k) == RowsOf(db, k) {}
  }

  // ---------- Reports of nodes ----------

  /** What one pass over these sandboxes makes of one status. */
  ghost predicate Judged(was: Status, now: Status, listed: bool, missing: bool, report: Option<Report>, ext: string) {
    if !listed || was.phase == Deleting then now == was
    else if missing then
      if was.phase == Scheduled then now == was
      else
        && now == was.(phase := Failed, lastError := "deleted on sbxlet node", external := now.external)
        && NamesExternal(now.external, ext, was.external)
    else if report.Some? then Follows(was, now, report.value, ext)
    else now == was
  }

  /** No sandbox comes or goes, and every status is what the node's answer makes of it. */
  ghost predicate PassDone(a: Db, b: Db, ids: seq<string>, missing: set<string>, reports: map<string, Report>,
      ext: string) {
    && a.sandboxes.Keys == b.sandboxes.Keys
    && forall id :: id in a.sandboxes ==>
        && b.sandboxes[id].spec == a.sandboxes[id].spec
        && Judged(a.sandboxes[id].status, b.sandboxes[id].status, id in ids, id in missing,
          if id in reports then Some(reports[id]) else None, ext)
  }

  /** At most the address of one sandbox changed. */
  ghost predicate AddressSet(a: Db, b: Db, id: string, ip: string)
    requires id in a.sandboxes
  {
    && id in b.sandboxes && SameElsewhere(a, b, id) && b.ports == a.ports && b.resources == a.resources
    && b.sandboxes[id].spec == a.sandboxes[id].spec
    && b.sandboxes[id].status == a.sandboxes[id].status.(ip := ip)
  }

  lemma RefreshOutcome(cfg: Config, db: Db, id: string, ip: string)
    requires Enabled(cfg, db, RefreshIp(id, ip))
    ensures id in db.sandboxes && AddressSet(db, Apply(cfg, db, RefreshIp(id, ip)), id, ip)
  {
    var d := Apply(cfg, db, RefreshIp(id, ip));
    forall k ensures RowsOf(d, k) == RowsOf(db, k) {}
  }

  // ---------- Removal ----------

  predicate Refuses(a: Db, id: string, nodeOk: bool)
    requires id in a.sandboxes
  {
    !nodeOk && a.sandboxes[id].status.nodeName in a.nodes
  }

  /** The row stays, marked, with the node's error; nothing else moved. */
  ghost predicate KeptDeleting(a: Db, b: Db, id: string, error: string)
    requires id in a.sandboxes
  {
    && id in b.sandboxes && SameElsewhere(a, b, id) && b.ports == a.ports && b.resources == a.resources
    && b.sandboxes[id].spec == a.sandboxes[id].spec
    && b.sandboxes[id].status == a.sandboxes[id].status.(phase := Deleting, lastError := error)
  }

  function Less0(used: int, asked: int): int {
    if used < asked then 0 else used - asked
  }

  /** The ledger row after a sandbox with these containers gave its share back. */
  predicate GaveBack(a: Resources, b: Resources, cs: seq<ContainerSpec>) {
    && b.alloc == a.alloc
    && b.used == Demand(Less0(a.used.cpu, CpuSum(cs)), Less0(a.used.mem, MemSum(cs)))
    && b.avail == Demand(Less0(a.alloc.cpu, b.used.cpu), Less0(a.alloc.mem, b.used.mem))
  }

  /** The row and its port rows are gone, and its node's ledger got the share back. */
  ghost predicate Gone(a: Db, b: Db, id: string)
    requires id in a.sandboxes
  {
    && id !in b.sandboxes && SameElsewhere(a, b, id) && b.ports == a.ports - RowsOf(a, id)
    && var node := a.sandboxes[id].status.nodeName;
    && b.resources.Keys == a.resources.Keys
    && (forall n :: n in a.resources && (n != node || Blank(node)) ==> b.resources[n] == a.resources[n])
    && (node in a.resources && !Blank(node) ==>
        GaveBack(a.resources[node], b.resources[node], a.sandboxes[id].spec.containers))
  }

  lemma FinalizeOutcome(db: Db, id: string, st: Status, nodeOk: bool, error: string)
    requires Inv(db) && id in db.sandboxes && st.phase.Deleting?
    requires st.nodeName == db.sandboxes[id].status.nodeName
    requires st.assignedPorts == db.sandboxes[id].status.assignedPorts
    ensures var d := FinalizeDelete(db, id, db.sandboxes[id].spec, st, nodeOk, error);
      if Refuses(db, id, nodeOk) then
        && id in d.sandboxes && SameElsewhere(db, d, id) && d.ports == db.ports && d.resources == db.resources
        && d.sandboxes[id].spec == db.sandboxes[id].spec && d.sandboxes[id].status == st.(lastError := error)
      else Gone(db, d, id)
  {
    FinalizeKeeps(db, id, db.sandboxes[id].spec, st, nodeOk, error);
    assert RowOk(db, id);
    EmptyIsBlank();
    RequestMeans(db.sandboxes[id].spec.containers);
    assert (db.ports - RowsOf(db, id)) - RowsOf(ReleasePorts(db, id), id) == db.ports - RowsOf(db, id);
  }

  lemma MarkOutcome(db: Db, id: string, st: Status, nodeOk: bool, error: string)
    requires Inv(db) && id in db.sandboxes
    requires st == db.sandboxes[id].status.(phase := Deleting, lastError := st.lastError)
    ensures var d := MarkAndFinalize(db, id, st, nodeOk, error);
      if Refuses(db, id, nodeOk) then KeptDeleting(db, d, id, error) else Gone(db, d, id)
  {
    PutStatusKeeps(db, id, st);
    var marked := PutStatus(db, id, st);
    FinalizeOutcome(marked, id, st, nodeOk, error);
    assert RowsOf(marked, id) == RowsOf(db, id);
  }

  /** The outcome of one removal; `once` says that a request on a row that is already marked does nothing. */
  ghost predicate RemovedAs(a: Db, b: Db, id: string, once: bool, nodeOk: bool, error: string) {
    id in a.sandboxes &&
    if once && a.sandboxes[id].status.phase == Deleting then b == a
    else if Refuses(a, id, nodeOk) then KeptDeleting(a, b, id, error)
    else Gone(a, b, id)
  }

  /**
    Every removal path: a repeated delete request does nothing; a refusing registered node keeps the row; else gone.
   */
  lemma RemovalOutcome(cfg: Config, db: Db, e: Event)
    requires Inv(db) && Enabled(cfg, db, e) && Removes(e)
    ensures RemovedAs(db, Apply(cfg, db, e), e.id, e.Delete?, e.nodeOk, e.error)
  {
    RemovalIs(cfg, db, e);
    var st := db.sandboxes[e.id].status;
    if !st.phase.Deleting? {
      MarkOutcome(db, e.id, MarkedBy(e, st), e.nodeOk, e.error);
    } else if !e.Delete? {
      FinalizeOutcome(db, e.id, st, e.nodeOk, e.error);
    }
  }

  // ---------- Node removal ----------

  /** What becomes of one sandbox when its node goes. */
  ghost predicate LeftNode(a: Db, b: Db, id: string, node: string)
    requires id in a.sandboxes
  {
    var row := a.sandboxes[id];
    if row.status.nodeName != node then id in b.sandboxes && b.sandboxes[id] == row
    else if row.status.phase == Deleting then id !in b.sandboxes
    else if row.status.phase == Running || row.status.phase == Scheduled then
      && id in b.sandboxes && b.sandboxes[id].spec == row.spec
      && b.sandboxes[id].status ==
        row.status.(phase := Failed, lastError := "node removed", nodeName := "", external := "", assignedPorts := [])
    else id in b.sandboxes && b.sandboxes[id] == row
  }

  ghost predicate OnNode(a: Db, id: string, node: string) {
    id in a.sandboxes && a.sandboxes[id].status.nodeName == node
  }

  /** The node is nowhere any more, its sandboxes left it, and everything else is as it was. */
  ghost predicate NodeGone(a: Db, b: Db, node: string) {
    && b.nodes == a.nodes - {node} && b.resources == a.resources - {node}
    && b.ports == (set r | r in a.ports && r.nodeName != node)
    && b.sandboxes.Keys <= a.sandboxes.Keys
    && forall id :: id in a.sandboxes ==> LeftNode(a, b, id, node)
  }

  /** Some sandbox that the node must be asked to delete, and that it fails to. */
  ghost predicate Stuck(a: Db, node: string, failing: set<string>, id: string) {
    OnNode(a, id, node) && id in failing &&
      (a.sandboxes[id].status.phase == Running || a.sandboxes[id].status.phase == Scheduled)
  }

  /** The tables after the detach loop went through these sandboxes. */
  ghost predicate DetachedThrough(a: Db, b: Db, node: string, order: seq<string>) {
    && b.nodes == a.nodes && b.resources == a.resources && b.sandboxes.Keys <= a.sandboxes.Keys
    && (forall r :: r in b.ports <==> r in a.ports && !(r.sandboxId in order && OnNode(a, r.sandboxId, node)))
    && (forall id :: id in a.sandboxes && id in order ==> LeftNode(a, b, id, node))
    && (forall id :: id in a.sandboxes && id !in order ==> id in b.sandboxes && b.sandboxes[id] == a.sandboxes[id])
  }

  /** One turn of the loop touches one sandbox. */
  ghost predicate TookOne(b: Db, d: Db, node: string, id: string)
    requires id in b.sandboxes
  {
    && d.nodes == b.nodes && d.resources == b.resources && d.sandboxes.Keys <= b.sandboxes.Keys
    && (forall r :: r in d.ports <==> r in b.ports && !(r.sandboxId == id && OnNode(b, id, node)))
    && LeftNode(b, d, id, node)
    && (forall k :: k in b.sandboxes && k != id ==> k in d.sandboxes && d.sandboxes[k] == b.sandboxes[k])
  }

  lemma DetachOneOutcome(b: Db, node: string, asks: bool, failing: set<string>, id: string)
    requires id in b.sandboxes
    ensures var d := DetachOne(b, node, asks, failing, id);
      && (d.aborted <==> asks && Stuck(b, node, failing, id))
      && (!d.aborted ==> TookOne(b, d.db, node, id))
  {
  }

  lemma DetachedOneMore(a: Db, b: Db, d: Db, node: string, order: seq<string>, id: string)
    requires DetachedThrough(a, b, node, order) && id !in order && id in a.sandboxes && id in b.sandboxes
    requires TookOne(b, d, node, id)
    ensures DetachedThrough(a, d, node, order + [id])
  {
    var more := order + [id];
    forall r ensures r in d.ports <==> r in a.ports && !(r.sandboxId in more && OnNode(a, r.sandboxId, node)) {
      assert r.sandboxId in more <==> r.sandboxId in order || r.sandboxId == id;
    }
    forall k | k in a.sandboxes && k in more ensures LeftNode(a, d, k, node) {
      if k != id {
        assert k in order && LeftNode(a, b, k, node);
      }
    }
  }

  lemma {:induction false} DetachAllOutcome(db: Db, node: string, asks: bool, failing: set<string>, order: seq<string>)
    requires (forall i, j :: 0 <= i < j < |order| ==> order[i] != order[j])
    requires forall id :: id in order ==> id in db.sandboxes
    ensures var d := DetachAll(db, node, asks, failing, order);
      && (d.aborted <==> asks && exists id :: id in order && Stuck(db, node, failing, id))
      && (!d.aborted ==> DetachedThrough(db, d.db, node, order))
  {
    if order == [] {
    } else {
      var front, last := order[..|order| - 1], order[|order| - 1];
      assert order == front + [last] && last in order;
      DetachAllOutcome(db, node, asks, failing, front);
      var f := DetachAll(db, node, asks, failing, front);
      if !f.aborted {
        DetachOneOutcome(f.db, node, asks, failing, last);
        if !(asks && Stuck(db, node, failing, last)) {
          DetachedOneMore(db, f.db, DetachOne(f.db, node, asks, failing, last).db, node, front, last);
        }
      }
    }
  }

  /** A gentle removal gives up for an unregistered node, a stuck sandbox or a failing reconcile; a forced one never. */
  lemma GivesUpMeans(db: Db, node: string, force: bool, order: seq<string>, failing: set<string>, reconcileOk: bool)
    requires IsListing(order, db.sandboxes)
    ensures GivesUp(db, node, force, order, failing, reconcileOk) <==>
      !force && (node !in db.nodes || (exists id :: Stuck(db, node, failing, id)) || !reconcileOk)
  {
    DetachAllOutcome(db, node, true, failing, order);
  }

  lemma PortsFollowSandboxes(db: Db, node: string, r: PortRow)
    requires Inv(db) && r in db.ports
    ensures r.nodeName == node <==> OnNode(db, r.sandboxId, node)
  {
    assert RowOk(db, r.sandboxId);
    assert r in RowsOf(db, r.sandboxId);
  }

  lemma DroppedOutcome(db: Db, d: Db, node: string, order: seq<string>)
    requires Inv(db) && DetachedThrough(db, d, node, order) && IsListing(order, db.sandboxes)
    ensures NodeGone(db, DropNode(d, node), node)
  {
    var b := DropNode(d, node);
    forall r ensures r in b.ports <==> r in db.ports && r.nodeName != node {
      if r in db.ports {
        PortsFollowSandboxes(db, node, r);
      }
    }
    forall id | id in db.sandboxes ensures LeftNode(db, b, id, node) {
      assert LeftNode(db, d, id, node);
    }
  }

  lemma NodeRemovalOutcome(cfg: Config, db: Db, e: Event)
    requires Inv(db) && Enabled(cfg, db, e) && e.RemoveNode?
    requires !GivesUp(db, e.node, e.force, e.order, e.failing, e.reconcileOk)
    ensures NodeGone(db, Apply(cfg, db, e), e.node)
  {
    DetachAllOutcome(db, e.node, !e.force, e.failing, e.order);
    var d := DetachAll(db, e.node, !e.force, e.failing, e.order).db;
    DroppedOutcome(db, d, e.node, e.order);
  }

  // ---------- Registration, heartbeats and measurements ----------

  /** Registering again keeps what is known of a node; a new one is Unknown and has nothing. Nobody else notices. */
  lemma RegisterOutcome(cfg: Config, db: Db, node: string)
    requires Enabled(cfg, db, Register(node))
    ensures var d := Apply(cfg, db, Register(node));
      && d.sandboxes == db.sandboxes && d.ports == db.ports
      && d.nodes.Keys == db.nodes.Keys + {node} && d.resources.Keys == db.resources.Keys + {node}
      && (forall n :: n in db.nodes ==> d.nodes[n] == db.nodes[n])
      && (forall n :: n in db.resources ==> d.resources[n] == db.resources[n])
      && (node !in db.nodes ==> d.nodes[node] == Unknown)
      && (node !in db.resources ==>
          d.resources[node].alloc == d.resources[node].used == d.resources[node].avail == Demand(0, 0))
  {
  }

  /** A heartbeat sets one node's state, a measurement one node's resources, and both nothing else. */
  lemma ProbeOutcome(cfg: Config, db: Db, e: Event)
    requires Enabled(cfg, db, e) && (e.Heartbeat? || e.ResourceSync?)
    ensures var d := Apply(cfg, db, e);
      && d.sandboxes == db.sandboxes && d.ports == db.ports
      && (forall n :: n != e.node ==>
          && (n in d.nodes <==> n in db.nodes) && (n in db.nodes ==> d.nodes[n] == db.nodes[n])
          && (n in d.resources <==> n in db.resources) && (n in db.resources ==> d.resources[n] == db.resources[n]))
      && (e.Heartbeat? ==> e.node in d.nodes && d.nodes[e.node] == e.state && d.resources == db.resources)
      && (e.ResourceSync? ==> e.node in d.resources && d.resources[e.node] == e.res && d.nodes == db.nodes)
  {
  }
}
