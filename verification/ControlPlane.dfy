/**
  The orchestrator's control plane as a state machine over the database. An event is one service operation on one
  sandbox, or one node deletion, including its own read of the row; everything the outside world decides (replies of
  nodes, the shuffled choice of host ports, listing orders) is part of the event.
 */
module ControlPlane {
  import opened Strings
  import opened Types
  import opened Repo
  import opened StatusSync

  datatype Config = Config(portMin: int, portMax: int)

  /** A node's answer to a create call; ip is what the following status query returned, "" if it failed. */
  datatype CreateReply = CreateReply(created: bool, error: string, ip: string)

  datatype Event =
    | Create(id: string, spec: SandboxSpec, now: int)
    | NoPlace(id: string, error: string)
    | Place(id: string, node: string, ports: seq<PortAssign>, listedExternal: string, external: string,
      reply: CreateReply)
    | Delete(id: string, nodeOk: bool, error: string)
    | Trigger(id: string, nodeOk: bool, error: string)
    | Finalize(id: string, nodeOk: bool, error: string)
    | Expire(id: string, now: int, nodeOk: bool, error: string)
    | Sync(id: string, report: Report, nodeExternal: string)
    | Lost(id: string, nodeExternal: string)
    | RefreshIp(id: string, ip: string)
    | RemoveNode(node: string, force: bool, order: seq<string>, failing: set<string>, reconcileOk: bool)
    | Register(node: string)
    | Heartbeat(node: string, state: NodeState)
    | ResourceSync(node: string, res: Resources)

  // ---------- Creation ----------

  predicate ValidSpec(spec: SandboxSpec) {
    && spec.containers != []
    && (forall c :: c in spec.containers ==> !Blank(c.name) && !Blank(c.image))
    && 0 <= spec.ttlSeconds
    && Request(spec.containers).Some?
    && (forall p :: p in spec.ports ==>
        1 <= p.containerPort <= 65535 && ToLower(TrimSpace(p.protocol)) in {"", "tcp", "udp"})
  }

  function InitialStatus(spec: SandboxSpec, now: int): Status {
    Status(Pending, "", "", "", [], if 0 < spec.ttlSeconds then Some(now + spec.ttlSeconds) else None, "")
  }

  // ---------- Placement ----------

  function FreePorts(cfg: Config, used: set<int>): set<int> {
    set p: int | cfg.portMin <= p <= cfg.portMax && p !in used
  }

  /** Ports in spec order, inside the range, pairwise distinct and unused. */
  predicate AllocationOk(cfg: Config, spec: seq<PortSpec>, used: set<int>, ports: seq<PortAssign>) {
    && |ports| == |spec|
    && DistinctHostPorts(ports)
    && forall i :: 0 <= i < |spec| ==>
        && ports[i].containerPort == spec[i].containerPort
        && ports[i].protocol == NormProto(spec[i].protocol)
        && cfg.portMin <= ports[i].hostPort <= cfg.portMax
        && ports[i].hostPort !in used
  }

  predicate EnoughPorts(cfg: Config, spec: seq<PortSpec>, used: set<int>) {
    spec == [] || |spec| <= |FreePorts(cfg, used)|
  }

  /** A node without a resources row counts as having nothing. */
  function Avail(db: Db, node: string): Demand {
    if node in db.resources then db.resources[node].avail else Demand(0, 0)
  }

  predicate Feasible(cfg: Config, db: Db, spec: SandboxSpec, node: string) {
    && node in db.nodes && db.nodes[node].Ready?
    && Need(spec).cpu <= Avail(db, node).cpu && Need(spec).mem <= Avail(db, node).mem
    && EnoughPorts(cfg, spec.ports, UsedPorts(db, node))
  }

  predicate Preferred(db: Db, a: string, b: string) {
    Avail(db, b).cpu < Avail(db, a).cpu || (Avail(db, a).cpu == Avail(db, b).cpu && Less(a, b))
  }

  /** The feasible node with the most available CPU, the least id among equals. */
  ghost predicate Chosen(cfg: Config, db: Db, spec: SandboxSpec, node: string) {
    Feasible(cfg, db, spec, node) && forall m :: Feasible(cfg, db, spec, m) && m != node ==> Preferred(db, node, m)
  }

  function NormExternal(raw: string): string {
    if TrimSpace(raw) == "" then "(none)" else TrimSpace(raw)
  }

  function AdjustForSandbox(db: Db, node: string, spec: SandboxSpec, direction: int): Db {
    if Blank(node) || Request(spec.containers).None? then db
    else AdjustUsage(db, node, Demand(direction * Need(spec).cpu, direction * Need(spec).mem))
  }

  /** scheduleOne from the create call on; `st` is the status of the reserved row with the listed external name. */
  function Launched(db: Db, id: string, node: string, spec: SandboxSpec, st: Status, external: string,
      reply: CreateReply): Db {
    if !reply.created then ReleasePorts(PutStatus(db, id, st.(phase := Failed, lastError := reply.error)), id)
    else
      var ip := if TrimSpace(reply.ip) != "" then TrimSpace(reply.ip) else st.ip;
      AdjustForSandbox(
        PutStatus(db, id, st.(external := NormExternal(external), phase := Running, lastError := "", ip := ip)),
        node, spec, 1)
  }

  /** scheduleOne after a node and ports were picked. */
  function PlaceOn(db: Db, id: string, node: string, ports: seq<PortAssign>, listedExternal: string,
      external: string, reply: CreateReply): Db
    requires id in db.sandboxes
  {
    match Reserve(db, id, node, ports)
    case Conflict => db
    case NoSandbox => PutStatus(db, id, db.sandboxes[id].status.(phase := Failed))
    case Reserved(d) =>
      var st := d.sandboxes[id].status.(external := NormExternal(listedExternal));
      Launched(d, id, node, db.sandboxes[id].spec, st, external, reply)
  }

  // ---------- Deletion ----------

  /** finalizeSandboxDelete with the caller's copy of the status; a node that is no longer registered is not asked. */
  function FinalizeDelete(db: Db, id: string, spec: SandboxSpec, st: Status, nodeOk: bool, error: string): Db {
    if st.nodeName != "" && st.nodeName in db.nodes && !nodeOk then PutStatus(db, id, st.(lastError := error))
    else AdjustForSandbox(RemoveSandbox(ReleasePorts(db, id), id), st.nodeName, spec, -1)
  }

  function MarkAndFinalize(db: Db, id: string, st: Status, nodeOk: bool, error: string): Db
    requires id in db.sandboxes
  {
    FinalizeDelete(PutStatus(db, id, st), id, db.sandboxes[id].spec, st, nodeOk, error)
  }

  predicate Expired(st: Status, now: int) {
    !st.phase.Deleting? && st.expireAt.Some? && st.expireAt.value < now
  }

  // ---------- Node removal ----------

  datatype Detached = Detached(db: Db, aborted: bool)

  function DetachedStatus(st: Status): Status {
    st.(phase := Failed, lastError := "node removed", nodeName := "", external := "", assignedPorts := [])
  }

  /**
    One turn of detachNodeSandboxes; `asks` says whether the node is asked to delete, which stops the loop when it
    fails.
   */
  function DetachOne(db: Db, node: string, asks: bool, failing: set<string>, id: string): Detached {
    if id !in db.sandboxes || db.sandboxes[id].status.nodeName != node then Detached(db, false)
    else
      var st := db.sandboxes[id].status;
      var d := ReleasePorts(db, id);
      match st.phase
      case Deleting => Detached(RemoveSandbox(d, id), false)
      case Running | Scheduled =>
        if asks && id in failing then Detached(d, true) else Detached(PutStatus(d, id, DetachedStatus(st)), false)
      case _ => Detached(d, false)
  }

  function DetachAll(db: Db, node: string, asks: bool, failing: set<string>, order: seq<string>): Detached {
    if order == [] then Detached(db, false)
    else
      var front := DetachAll(db, node, asks, failing, order[..|order| - 1]);
      if front.aborted then front else DetachOne(front.db, node, asks, failing, order[|order| - 1])
  }

  /** A gentle removal stops for an unregistered node and at the first call the node fails. */
  predicate GivesUp(db: Db, node: string, force: bool, order: seq<string>, failing: set<string>, reconcileOk: bool) {
    !force && (node !in db.nodes || DetachAll(db, node, true, failing, order).aborted || !reconcileOk)
  }

  function DeleteNodeForce(db: Db, node: string, force: bool, order: seq<string>, failing: set<string>,
      reconcileOk: bool): Db {
    if !force && node !in db.nodes then db
    else
      var d := DetachAll(db, node, !force, failing, order);
      if d.aborted || (!force && !reconcileOk) then d.db else DropNode(d.db, node)
  }

  // ---------- The machine ----------

  ghost predicate Enabled(cfg: Config, db: Db, e: Event) {
    match e
    case Create(id, spec, _) => id != "" && id !in db.sandboxes && ValidSpec(spec)
    case NoPlace(id, _) =>
      && id in db.sandboxes && db.sandboxes[id].status.phase.Pending?
      && forall n :: !Feasible(cfg, db, db.sandboxes[id].spec, n)
    case Place(id, node, ports, _, _, _) =>
      && id in db.sandboxes && db.sandboxes[id].status.phase.Pending?
      && Chosen(cfg, db, db.sandboxes[id].spec, node)
      && AllocationOk(cfg, db.sandboxes[id].spec.ports, UsedPorts(db, node), ports)
    case Delete(id, _, _) => id in db.sandboxes
    case Trigger(id, _, _) => id in db.sandboxes
    case Finalize(id, _, _) => id in db.sandboxes && db.sandboxes[id].status.phase.Deleting?
    case Expire(id, now, _, _) => id in db.sandboxes && Expired(db.sandboxes[id].status, now)
    case Sync(id, _, _) => id in db.sandboxes && !db.sandboxes[id].status.phase.Deleting?
    case Lost(id, _) => id in db.sandboxes && db.sandboxes[id].status.phase !in {Deleting, Scheduled}
    case RefreshIp(id, ip) => id in db.sandboxes && !db.sandboxes[id].status.phase.Deleting?
    case RemoveNode(_, _, order, _, _) => IsListing(order, db.sandboxes)
    case Register(node) => !Blank(node)
    case Heartbeat(node, _) => node in db.nodes
    case ResourceSync(_, _) => true
  }

  ghost function Apply(cfg: Config, db: Db, e: Event): Db
    requires Enabled(cfg, db, e)
  {
    match e
    case Create(id, spec, now) => InsertSandbox(db, id, spec, InitialStatus(spec, now))
    case NoPlace(id, error) => PutStatus(db, id, db.sandboxes[id].status.(phase := Failed, lastError := error))
    case Place(id, node, ports, listed, ext, reply) => PlaceOn(db, id, node, ports, listed, ext, reply)
    case Delete(id, nodeOk, error) =>
      var st := db.sandboxes[id].status;
      if st.phase.Deleting? then db else MarkAndFinalize(db, id, st.(phase := Deleting, lastError := ""), nodeOk, error)
    case Trigger(id, nodeOk, error) =>
      var row := db.sandboxes[id];
      if row.status.phase.Deleting? then FinalizeDelete(db, id, row.spec, row.status, nodeOk, error)
      else MarkAndFinalize(db, id, row.status.(phase := Deleting), nodeOk, error)
    case Finalize(id, nodeOk, error) =>
      FinalizeDelete(db, id, db.sandboxes[id].spec, db.sandboxes[id].status, nodeOk, error)
    case Expire(id, _, nodeOk, error) =>
      MarkAndFinalize(db, id, db.sandboxes[id].status.(phase := Deleting, lastError := "ttl expired"), nodeOk, error)
    case Sync(id, report, ext) =>
      var st := db.sandboxes[id].status;
      var next := Synced(st, report, ext);
      if next == st then db else PutStatusIfUnchanged(db, id, next, db.sandboxes[id].updatedAt)
    case Lost(id, ext) => PutStatusIfUnchanged(db, id, LostOnNode(db.sandboxes[id].status, ext),
      db.sandboxes[id].updatedAt)
    case RefreshIp(id, ip) =>
      var st := db.sandboxes[id].status;
      if st.ip == ip then db else PutStatusIfUnchanged(db, id, st.(ip := ip), db.sandboxes[id].updatedAt)
    case RemoveNode(node, force, order, failing, reconcileOk) =>
      DeleteNodeForce(db, node, force, order, failing, reconcileOk)
    case Register(node) => UpsertNode(db, node)
    case Heartbeat(node, state) => db.(nodes := db.nodes[node := state])
    case ResourceSync(node, res) => db.(resources := db.resources[node := res])
  }

  /** A run: the states it goes through and the events between them. */
  ghost predicate IsRun(cfg: Config, trace: seq<Db>, es: seq<Event>) {
    && |trace| == |es| + 1
    && forall i :: 0 <= i < |es| ==> Enabled(cfg, trace[i], es[i]) && trace[i + 1] == Apply(cfg, trace[i], es[i])
  }
}
