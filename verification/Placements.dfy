/**
  Where a sandbox may go and what it gets there, said over the tables alone: which nodes suit it, which of them is
  best, and what the rows say afterwards.
 */
module Placements {
  import opened Strings
  import opened Types
  import opened Repo
  import opened ControlPlane
  import opened ControlPlaneSafety
  import opened Scheduler

  /** These ports serve the sandbox on this node: in its order, in range, distinct, and with no row yet. */
  ghost predicate Serves(cfg: Config, db: Db, spec: SandboxSpec, node: string, ports: seq<PortAssign>) {
    && |ports| == |spec.ports|
    && (forall i, j :: 0 <= i < j < |ports| ==> ports[i].hostPort != ports[j].hostPort)
    && (forall i :: 0 <= i < |ports| ==>
        && cfg.portMin <= ports[i].hostPort <= cfg.portMax
        && ports[i].containerPort == spec.ports[i].containerPort
        && ports[i].protocol == if Blank(spec.ports[i].protocol) then "tcp"
          else ToLower(TrimSpace(spec.ports[i].protocol)))
    && (forall i, r :: 0 <= i < |ports| && r in db.ports && r.nodeName == node ==>
        r.port.hostPort != ports[i].hostPort)
  }

  function CpuLeft(db: Db, node: string): int {
    if node in db.resources then db.resources[node].avail.cpu else 0
  }

  function MemLeft(db: Db, node: string): int {
    if node in db.resources then db.resources[node].avail.mem else 0
  }

  /** A Ready node with enough CPU, enough memory and some ports that serve. */
  ghost predicate Suits(cfg: Config, db: Db, spec: SandboxSpec, node: string) {
    && node in db.nodes && db.nodes[node] == Ready
    && CpuSum(spec.containers) <= CpuLeft(db, node) && MemSum(spec.containers) <= MemLeft(db, node)
    && exists ports :: Serves(cfg, db, spec, node, ports)
  }

  /** It suits, and any other that suits has less CPU left, or as much and a later name. */
  ghost predicate Best(cfg: Config, db: Db, spec: SandboxSpec, node: string) {
    && Suits(cfg, db, spec, node)
    && forall m :: Suits(cfg, db, spec, m) && m != node ==>
        CpuLeft(db, m) < CpuLeft(db, node) || (CpuLeft(db, m) == CpuLeft(db, node) && Less(node, m))
  }

  lemma ServesMeans(cfg: Config, db: Db, spec: SandboxSpec, node: string, ports: seq<PortAssign>)
    ensures Serves(cfg, db, spec, node, ports) <==> AllocationOk(cfg, spec.ports, UsedPorts(db, node), ports)
  {
    forall i | 0 <= i < |spec.ports|
      ensures NormProto(spec.ports[i].protocol) ==
        if Blank(spec.ports[i].protocol) then "tcp" else ToLower(TrimSpace(spec.ports[i].protocol))
    {
      assert |ToLower(TrimSpace(spec.ports[i].protocol))| == |TrimSpace(spec.ports[i].protocol)|;
    }
    forall h ensures h in UsedPorts(db, node) <==> !PortFree(db.ports, node, h) {
      if r :| r in db.ports && r.nodeName == node && r.port.hostPort == h {
        assert r.port.hostPort in UsedPorts(db, node);
      }
    }
    if AllocationOk(cfg, spec.ports, UsedPorts(db, node), ports) {
      forall i | 0 <= i < |ports| ensures PortFree(db.ports, node, ports[i].hostPort) {}
    }
    if Serves(cfg, db, spec, node, ports) {
      forall i | 0 <= i < |ports| ensures ports[i].hostPort !in UsedPorts(db, node) {
        assert PortFree(db.ports, node, ports[i].hostPort);
      }
    }
  }

  lemma {:induction false} SubsetCount<T>(a: set<T>, b: set<T>)
    requires a <= b
    ensures |a| <= |b|
  {
    if x :| x in a {
      SubsetCount(a - {x}, b - {x});
    }
  }

  lemma {:induction false} SomeOf<T>(free: set<T>, n: nat) returns (ps: seq<T>)
    requires n <= |free|
    ensures |ps| == n && forall i :: 0 <= i < n ==> ps[i] in free
    ensures forall i, j :: 0 <= i < j < n ==> ps[i] != ps[j]
  {
    if n == 0 {
      ps := [];
    } else {
      assert free != {};
      var p :| p in free;
      var rest := SomeOf(free - {p}, n - 1);
      ps := [p] + rest;
    }
  }

  /** Counting free ports is as good as looking for an allocation. */
  lemma EnoughMeans(cfg: Config, spec: seq<PortSpec>, used: set<int>)
    ensures EnoughPorts(cfg, spec, used) <==> exists ports :: AllocationOk(cfg, spec, used, ports)
  {
    var free := FreePorts(cfg, used);
    if EnoughPorts(cfg, spec, used) {
      if spec == [] {
        assert AllocationOk(cfg, spec, used, []);
      } else {
        var ps := SomeOf(free, |spec|);
        var ports := seq(|spec|, i requires 0 <= i < |spec| =>
          PortAssign(ps[i], spec[i].containerPort, NormProto(spec[i].protocol)));
        assert AllocationOk(cfg, spec, used, ports);
      }
    }
    if ports: seq<PortAssign> :| AllocationOk(cfg, spec, used, ports) {
      var hosts := seq(|ports|, i requires 0 <= i < |ports| => ports[i].hostPort);
      DistinctCount(hosts);
      SubsetCount((set h | h in hosts), free);
    }
  }

  lemma SuitsMeans(cfg: Config, db: Db, spec: SandboxSpec, node: string)
    requires Request(spec.containers).Some?
    ensures Suits(cfg, db, spec, node) <==> Feasible(cfg, db, spec, node)
  {
    RequestMeans(spec.containers);
    EnoughMeans(cfg, spec.ports, UsedPorts(db, node));
    forall ports
      ensures Serves(cfg, db, spec, node, ports) <==> AllocationOk(cfg, spec.ports, UsedPorts(db, node), ports)
    {
      ServesMeans(cfg, db, spec, node, ports);
    }
  }

  /** A placement goes to the best node, with ports that serve there. */
  lemma PlaceIsBest(cfg: Config, db: Db, e: Event)
    requires Inv(db) && Enabled(cfg, db, e) && e.Place?
    ensures var spec := db.sandboxes[e.id].spec;
      Best(cfg, db, spec, e.node) && Serves(cfg, db, spec, e.node, e.ports)
  {
    var spec := db.sandboxes[e.id].spec;
    assert RowOk(db, e.id);
    ServesMeans(cfg, db, spec, e.node, e.ports);
    forall m ensures Suits(cfg, db, spec, m) <==> Feasible(cfg, db, spec, m) {
      SuitsMeans(cfg, db, spec, m);
    }
  }

  /** The scheduler gives up on a sandbox exactly when no node suits. */
  lemma NoPlaceMeans(cfg: Config, db: Db, id: string, error: string)
    requires Inv(db) && id in db.sandboxes && db.sandboxes[id].status.phase.Pending?
    ensures Enabled(cfg, db, NoPlace(id, error)) <==> forall n :: !Suits(cfg, db, db.sandboxes[id].spec, n)
  {
    assert RowOk(db, id);
    forall m ensures Suits(cfg, db, db.sandboxes[id].spec, m) <==> Feasible(cfg, db, db.sandboxes[id].spec, m) {
      SuitsMeans(cfg, db, db.sandboxes[id].spec, m);
    }
  }

  predicate Shows(external: string, raw: string) {
    external == if Blank(raw) then "(none)" else TrimSpace(raw)
  }

  /** What the row of a sandbox says once its node was asked. */
  ghost predicate PlacedAs(before: Row, after: Row, e: Event)
    requires e.Place?
  {
    && after.spec == before.spec
    && after.status == before.status.(
      phase := if e.reply.created then Running else Failed, nodeName := e.node, assignedPorts := e.ports,
      external := after.status.external,
      ip := if e.reply.created && !Blank(e.reply.ip) then TrimSpace(e.reply.ip) else before.status.ip,
      lastError := if e.reply.created then "" else e.reply.error)
    && Shows(after.status.external, if e.reply.created then e.external else e.listedExternal)
  }

  /** The rows that stand for these ports. */
  ghost predicate Holds(db: Db, id: string, node: string, ports: seq<PortAssign>) {
    forall r :: r in db.ports && r.sandboxId == id <==> r.sandboxId == id && r.nodeName == node && r.port in ports
  }

  lemma LaunchedRow(db: Db, id: string, node: string, spec: SandboxSpec, st: Status, external: string,
      reply: CreateReply)
    requires id in db.sandboxes
    ensures var d := Launched(db, id, node, spec, st, external, reply);
      && id in d.sandboxes && d.sandboxes[id].spec == db.sandboxes[id].spec
      && var after := d.sandboxes[id].status;
      && after == st.(
        phase := if reply.created then Running else Failed, external := after.external,
        ip := if reply.created && !Blank(reply.ip) then TrimSpace(reply.ip) else st.ip,
        lastError := if reply.created then "" else reply.error)
      && (if reply.created then Shows(after.external, external) else after.external == st.external)
  {
  }

  /** The whole effect of a placement on the sandbox's row and its port rows. */
  lemma PlaceOutcome(cfg: Config, db: Db, e: Event)
    requires Inv(db) && Enabled(cfg, db, e) && e.Place?
    ensures var d := Apply(cfg, db, e);
      && e.id in d.sandboxes && SameElsewhere(db, d, e.id)
      && PlacedAs(db.sandboxes[e.id], d.sandboxes[e.id], e)
      && (if e.reply.created then Holds(d, e.id, e.node, e.ports) else RowsOf(d, e.id) == {})
  {
    PlaceKeeps(cfg, db, e.id, e.node, e.ports, e.listedExternal, e.external, e.reply);
    ReserveKeeps(cfg, db, e.id, e.node, e.ports);
    var r := Reserve(db, e.id, e.node, e.ports).db;
    var st := r.sandboxes[e.id].status.(external := NormExternal(e.listedExternal));
    LaunchedRow(r, e.id, e.node, db.sandboxes[e.id].spec, st, e.external, e.reply);
    var d := Apply(cfg, db, e);
    if e.reply.created {
      ClaimMeans(d, e.id, e.node, e.ports);
    }
  }

  lemma ClaimMeans(d: Db, id: string, node: string, ports: seq<PortAssign>)
    requires id in d.sandboxes && d.sandboxes[id].status.nodeName == node
    requires d.sandboxes[id].status.assignedPorts == ports
    requires RowsOf(d, id) == Claim(id, d.sandboxes[id].status)
    ensures Holds(d, id, node, ports)
  {
    forall r ensures r in d.ports && r.sandboxId == id <==> r.sandboxId == id && r.nodeName == node && r.port in ports {
      assert r in RowsOf(d, id) <==> r in Claim(id, d.sandboxes[id].status);
      assert r == PortRow(r.sandboxId, r.nodeName, r.port);
    }
  }
}
