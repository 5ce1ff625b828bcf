/** The life of one sandbox over whole runs: what it keeps, when it ends, and that it leaves no trace. */
module Lives {
  import opened Strings
  import opened Types
  import opened Repo
  import opened StatusSync
  import opened ControlPlane
  import opened ControlPlaneSafety
  import opened Outcomes
  import opened Placements
  import opened Service

  // ---------- What a row keeps ----------

  /** Spec and expiry never change; the ports of a row change by placement or detachment only. */
  ghost predicate Stays(a: Db, b: Db, id: string, placed: seq<PortAssign>) {
    id in a.sandboxes && id in b.sandboxes ==>
      && b.sandboxes[id].spec == a.sandboxes[id].spec
      && b.sandboxes[id].status.expireAt == a.sandboxes[id].status.expireAt
      && b.sandboxes[id].status.assignedPorts in [a.sandboxes[id].status.assignedPorts, [], placed]
  }

  lemma {:induction false} DetachStays(db: Db, node: string, asks: bool, failing: set<string>, order: seq<string>,
      id: string)
    ensures var d := DetachAll(db, node, asks, failing, order).db;
      Stays(db, d, id, []) && (id in d.sandboxes ==> id in db.sandboxes)
  {
    if order == [] {
    } else {
      DetachStays(db, node, asks, failing, order[..|order| - 1], id);
    }
  }

  lemma ReportStays(cfg: Config, db: Db, e: Event, id: string)
    requires Inv(db) && Enabled(cfg, db, e) && Reports(e)
    ensures Stays(db, Apply(cfg, db, e), id, [])
  {
    var st := db.sandboxes[e.id].status;
    if e.Sync? {
      SyncKeepsPlacement(st, e.report, e.nodeExternal);
    }
  }

  lemma ScheduleStays(cfg: Config, db: Db, e: Event, id: string)
    requires Inv(db) && Enabled(cfg, db, e) && Schedules(e)
    ensures Stays(db, Apply(cfg, db, e), id, if e.Place? && e.id == id then e.ports else [])
  {
    if e.Place? {
      PlaceOutcome(cfg, db, e);
    } else if e.Create? {
      CreateOutcome(cfg, db, e.id, e.spec, e.now);
    }
  }

  lemma RemovalStays(cfg: Config, db: Db, e: Event, id: string)
    requires Inv(db) && Enabled(cfg, db, e) && Removes(e)
    ensures Stays(db, Apply(cfg, db, e), id, [])
  {
    RemovalOutcome(cfg, db, e);
  }

  lemma NodeStays(cfg: Config, db: Db, e: Event, id: string)
    requires Enabled(cfg, db, e) && !Removes(e) && !Reports(e) && !Schedules(e)
    ensures Stays(db, Apply(cfg, db, e), id, [])
  {
    if e.RemoveNode? {
      DetachStays(db, e.node, !e.force, e.failing, e.order, id);
    }
  }

  lemma StepStays(cfg: Config, db: Db, e: Event, id: string)
    requires Inv(db) && Enabled(cfg, db, e)
    ensures Stays(db, Apply(cfg, db, e), id, if e.Place? && e.id == id then e.ports else [])
  {
    if Removes(e) {
      RemovalStays(cfg, db, e, id);
    } else if Reports(e) {
      ReportStays(cfg, db, e, id);
    } else if Schedules(e) {
      ScheduleStays(cfg, db, e, id);
    } else {
      NodeStays(cfg, db, e, id);
    }
  }

  // ---------- Every assigned port is lawful ----------

  /** What the service accepted, and ports as it asked for them. */
  ghost predicate LawfulRow(cfg: Config, row: Row) {
    && (forall p :: p in row.spec.ports ==> 1 <= p.containerPort <= 65535 && KnownProtocol(p.protocol))
    && var ports := row.status.assignedPorts;
    ports == [] || (
      && |ports| == |row.spec.ports|
      && forall i :: 0 <= i < |ports| ==> LawfulPort(cfg, ports[i]) && Answers(ports[i], row.spec.ports[i]))
  }

  /** In the configured range, with a real container port and a real protocol. */
  predicate LawfulPort(cfg: Config, p: PortAssign) {
    && cfg.portMin <= p.hostPort <= cfg.portMax
    && 1 <= p.containerPort <= 65535
    && (p.protocol == "tcp" || p.protocol == "udp")
  }

  predicate Answers(p: PortAssign, asked: PortSpec) {
    p.containerPort == asked.containerPort && (p.protocol == "udp" <==> EqualFold(TrimSpace(asked.protocol), "udp"))
  }

  ghost predicate Lawful(cfg: Config, db: Db) {
    forall id :: id in db.sandboxes ==> LawfulRow(cfg, db.sandboxes[id])
  }

  lemma ServedIsLawful(cfg: Config, db: Db, spec: SandboxSpec, node: string, ports: seq<PortAssign>, i: nat)
    requires Placements.Serves(cfg, db, spec, node, ports) && i < |ports|
    requires 1 <= spec.ports[i].containerPort <= 65535 && KnownProtocol(spec.ports[i].protocol)
    ensures LawfulPort(cfg, ports[i]) && Answers(ports[i], spec.ports[i])
  {
    var raw := spec.ports[i].protocol;
    NormProtoMeans(raw);
    assert ports[i].protocol == NormProto(raw) by {
      assert |ToLower(TrimSpace(raw))| == |TrimSpace(raw)|;
    }
    assert ToLower("udp") == "udp" && ToLower("tcp") == "tcp";
  }

  lemma PlacedIsLawful(cfg: Config, db: Db, e: Event)
    requires Inv(db) && Enabled(cfg, db, e) && e.Place? && LawfulRow(cfg, db.sandboxes[e.id])
    ensures LawfulRow(cfg, Apply(cfg, db, e).sandboxes[e.id])
  {
    PlaceIsBest(cfg, db, e);
    PlaceOutcome(cfg, db, e);
    var spec := db.sandboxes[e.id].spec;
    forall i | 0 <= i < |e.ports| ensures LawfulPort(cfg, e.ports[i]) && Answers(e.ports[i], spec.ports[i]) {
      assert spec.ports[i] in spec.ports;
      ServedIsLawful(cfg, db, spec, e.node, e.ports, i);
    }
  }

  lemma CreatedIsLawful(cfg: Config, db: Db, e: Event)
    requires Enabled(cfg, db, e) && e.Create?
    ensures LawfulRow(cfg, Apply(cfg, db, e).sandboxes[e.id])
  {
    CreateOutcome(cfg, db, e.id, e.spec, e.now);
    TurnedDownMeans("a", e.spec);
    assert TrimSpace("a") == "a";
  }

  /** Nothing but a create event brings a new row. */
  lemma NewRowsAreCreated(cfg: Config, db: Db, e: Event, id: string)
    requires Inv(db) && Enabled(cfg, db, e) && id in Apply(cfg, db, e).sandboxes
    ensures id in db.sandboxes || (e.Create? && e.id == id)
  {
    if Removes(e) {
      RemovalOutcome(cfg, db, e);
    } else if e.Place? {
      PlaceOutcome(cfg, db, e);
    } else if e.RemoveNode? {
      DetachStays(db, e.node, !e.force, e.failing, e.order, id);
    }
  }

  lemma StepKeepsLawful(cfg: Config, db: Db, e: Event)
    requires Inv(db) && Enabled(cfg, db, e) && Lawful(cfg, db)
    ensures Lawful(cfg, Apply(cfg, db, e))
  {
    var d := Apply(cfg, db, e);
    forall id | id in d.sandboxes ensures LawfulRow(cfg, d.sandboxes[id]) {
      NewRowsAreCreated(cfg, db, e, id);
      if id !in db.sandboxes {
        CreatedIsLawful(cfg, db, e);
      } else if e.Place? && e.id == id {
        PlacedIsLawful(cfg, db, e);
      } else {
        StepStays(cfg, db, e, id);
        assert LawfulRow(cfg, db.sandboxes[id]);
      }
    }
  }

  /** In every state of every run: each port row is in range, real, and what the sandbox's spec asked for. */
  lemma {:induction false} RunKeepsLawful(cfg: Config, trace: seq<Db>, es: seq<Event>, n: nat)
    requires IsRun(cfg, trace, es) && Inv(trace[0]) && Lawful(cfg, trace[0]) && n <= |es|
    ensures Inv(trace[n]) && Lawful(cfg, trace[n])
    ensures forall r :: r in trace[n].ports ==>
      && r.sandboxId in trace[n].sandboxes && LawfulPort(cfg, r.port)
      && exists q :: q in trace[n].sandboxes[r.sandboxId].spec.ports && Answers(r.port, q)
  {
    if n == 0 {
    } else {
      RunKeepsLawful(cfg, trace, es, n - 1);
      StepKeeps(cfg, trace[n - 1], es[n - 1]);
      StepKeepsLawful(cfg, trace[n - 1], es[n - 1]);
    }
    forall r | r in trace[n].ports
      ensures r.sandboxId in trace[n].sandboxes && LawfulPort(cfg, r.port)
      ensures exists q :: q in trace[n].sandboxes[r.sandboxId].spec.ports && Answers(r.port, q)
    {
      RowIsLawful(cfg, trace[n], r);
    }
  }

  lemma RowIsLawful(cfg: Config, db: Db, r: PortRow)
    requires Inv(db) && Lawful(cfg, db) && r in db.ports
    ensures r.sandboxId in db.sandboxes && LawfulPort(cfg, r.port)
    ensures exists q :: q in db.sandboxes[r.sandboxId].spec.ports && Answers(r.port, q)
  {
    var row := db.sandboxes[r.sandboxId];
    assert RowOk(db, r.sandboxId) && r in RowsOf(db, r.sandboxId) && LawfulRow(cfg, row);
    assert r in Claim(r.sandboxId, row.status);
    var i :| 0 <= i < |row.status.assignedPorts| && row.status.assignedPorts[i] == r.port;
    assert row.spec.ports[i] in row.spec.ports;
  }

  // ---------- A sandbox lives its time ----------

  /** Stored in all of these states. */
  ghost predicate Lives(trace: seq<Db>, id: string, first: nat, last: nat) {
    forall k :: first <= k <= last && k < |trace| ==> id in trace[k].sandboxes
  }

  lemma InvAt(cfg: Config, trace: seq<Db>, es: seq<Event>, n: nat)
    requires IsRun(cfg, trace, es) && Inv(trace[0]) && n <= |es|
    ensures Inv(trace[n])
  {
    RunKeeps(cfg, trace, es, n);
  }

  /** Spec and expiry of a row that is stored in both states. */
  ghost predicate SameLife(a: Db, b: Db, id: string) {
    && id in a.sandboxes && id in b.sandboxes
    && b.sandboxes[id].spec == a.sandboxes[id].spec
    && b.sandboxes[id].status.expireAt == a.sandboxes[id].status.expireAt
  }

  lemma OneStepLives(cfg: Config, trace: seq<Db>, es: seq<Event>, id: string, k: nat)
    requires IsRun(cfg, trace, es) && Inv(trace[0]) && k < |es|
    requires id in trace[k].sandboxes && id in trace[k + 1].sandboxes
    ensures SameLife(trace[k], trace[k + 1], id)
  {
    InvAt(cfg, trace, es, k);
    StepStays(cfg, trace[k], es[k], id);
  }

  lemma {:induction false} ExpiryKept(cfg: Config, trace: seq<Db>, es: seq<Event>, id: string, first: nat, last: nat)
    requires IsRun(cfg, trace, es) && Inv(trace[0]) && first <= last <= |es| && Lives(trace, id, first, last)
    ensures SameLife(trace[first], trace[last], id)
    decreases last
  {
    if first == last {
    } else {
      ExpiryKept(cfg, trace, es, id, first, last - 1);
      OneStepLives(cfg, trace, es, id, last - 1);
    }
  }

  /**
    A sandbox created at `now`, whatever happens to it in between: a reconciler pass at t leaves its row alone unless
    its
    time to live is over, and takes it when it is and its node does not refuse.
   */
  lemma LivesItsTime(cfg: Config, trace: seq<Db>, es: seq<Event>, n: nat, m: nat, after: Db, t: int,
      nodeOk: string -> bool)
    requires IsRun(cfg, trace, es) && Inv(trace[0]) && n < m <= |es| && es[n].Create?
    requires Lives(trace, es[n].id, n + 1, m) && trace[m].sandboxes[es[n].id].status.phase != Deleting
    requires ReconcileTick(trace[m], after, t, nodeOk)
    ensures var id, ttl := es[n].id, es[n].spec.ttlSeconds;
      if !(0 < ttl && es[n].now + ttl < t) then
        id in after.sandboxes && after.sandboxes[id] == trace[m].sandboxes[id]
      else if Refuses(trace[m], id, nodeOk(id)) then
        id in after.sandboxes && after.sandboxes[id].status.phase == Deleting
      else id !in after.sandboxes
  {
    var id := es[n].id;
    InvAt(cfg, trace, es, m);
    CreateOutcome(cfg, trace[n], id, es[n].spec, es[n].now);
    ExpiryKept(cfg, trace, es, id, n + 1, m);
    assert DueByAge(trace[n + 1].sandboxes[id].status, t) <==> DueByAge(trace[m].sandboxes[id].status, t);
    assert Reaped(trace[m], after, id, t, nodeOk(id));
    EmptyIsBlank();
  }

  // ---------- A sandbox that comes and goes leaves no trace ----------

  /** A ledger row that follows its own arithmetic. */
  predicate RowAddsUp(r: Resources) {
    && 0 <= r.used.cpu && 0 <= r.used.mem
    && r.avail == Demand(Less0(r.alloc.cpu, r.used.cpu), Less0(r.alloc.mem, r.used.mem))
  }

  lemma PlaceCharges(cfg: Config, db: Db, e: Event)
    requires Inv(db) && Enabled(cfg, db, e) && e.Place? && e.reply.created
    ensures var d, cs := Apply(cfg, db, e), db.sandboxes[e.id].spec.containers;
      && d.resources.Keys == db.resources.Keys
      && (forall n :: n in db.resources && n != e.node ==> d.resources[n] == db.resources[n])
      && (e.node in db.resources && 0 <= CpuSum(cs) && 0 <= MemSum(cs) && RowAddsUp(db.resources[e.node]) ==>
          && d.resources[e.node].alloc == db.resources[e.node].alloc
          && d.resources[e.node].used.cpu == db.resources[e.node].used.cpu + CpuSum(cs)
          && d.resources[e.node].used.mem == db.resources[e.node].used.mem + MemSum(cs))
  {
    PlaceKeeps(cfg, db, e.id, e.node, e.ports, e.listedExternal, e.external, e.reply);
    assert RowOk(db, e.id);
    RequestMeans(db.sandboxes[e.id].spec.containers);
  }

  lemma LedgerBack(cfg: Config, db: Db, gone: Db, e: Event)
    requires Inv(db) && Enabled(cfg, db, e) && e.Place? && e.reply.created
    requires e.id in Apply(cfg, db, e).sandboxes && Gone(Apply(cfg, db, e), gone, e.id)
    requires var cs := db.sandboxes[e.id].spec.containers; 0 <= CpuSum(cs) && 0 <= MemSum(cs)
    requires e.node in db.resources ==> RowAddsUp(db.resources[e.node])
    ensures gone.resources == db.resources
  {
    PlaceCharges(cfg, db, e);
    PlacedOn(cfg, db, e);
    assert gone.resources.Keys == db.resources.Keys;
    forall n | n in db.resources ensures gone.resources[n] == db.resources[n] {
      if n == e.node {
        assert gone.resources[n].used == db.resources[n].used && gone.resources[n].avail == db.resources[n].avail;
      }
    }
  }

  lemma PlacedOn(cfg: Config, db: Db, e: Event)
    requires Inv(db) && Enabled(cfg, db, e) && e.Place?
    ensures var d := Apply(cfg, db, e);
      && e.id in d.sandboxes && d.sandboxes[e.id].status.nodeName == e.node && !Blank(e.node)
      && d.sandboxes[e.id].spec == db.sandboxes[e.id].spec && SameElsewhere(db, d, e.id)
  {
    PlaceOutcome(cfg, db, e);
    PlaceIsBest(cfg, db, e);
  }

  /** Two changes to one sandbox, the second of which takes it away. */
  lemma TablesBack(db: Db, placed: Db, gone: Db, id: string)
    requires id in placed.sandboxes && SameElsewhere(db, placed, id) && Gone(placed, gone, id)
    ensures gone.nodes == db.nodes && gone.sandboxes == db.sandboxes - {id} && gone.ports == db.ports - RowsOf(db, id)
  {
    forall k ensures k in gone.sandboxes <==> k in db.sandboxes && k != id {}
    forall r ensures r in gone.ports <==> r in db.ports && r.sandboxId != id {
      assert r in placed.ports <==> r in RowsOf(placed, r.sandboxId);
      assert r in db.ports <==> r in RowsOf(db, r.sandboxId);
    }
  }

  /**
    Creating a sandbox, placing it and deleting it restores every table: no row, no port, no share of the ledger is
    left,
    provided its quantities are not negative and the ledger row was in order.
   */
  lemma ComesAndGoes(cfg: Config, db: Db, create: Event, place: Event)
    requires Inv(db) && Enabled(cfg, db, create) && create.Create?
    requires CpuSum(create.spec.containers) >= 0 && MemSum(create.spec.containers) >= 0
    requires var created := Apply(cfg, db, create);
      Enabled(cfg, created, place) && place.Place? && place.id == create.id && place.reply.created
    requires place.node in db.resources ==> RowAddsUp(db.resources[place.node])
    ensures var placed := Apply(cfg, Apply(cfg, db, create), place);
      && Enabled(cfg, placed, Delete(create.id, true, ""))
      && var gone := Apply(cfg, placed, Delete(create.id, true, ""));
      gone.(clock := 0) == db.(clock := 0)
  {
    var created := Apply(cfg, db, create);
    CreateOutcome(cfg, db, create.id, create.spec, create.now);
    StepKeeps(cfg, db, create);
    CreatedRows(cfg, db, create);
    PlacedAndDeleted(cfg, created, place);
  }

  lemma CreatedRows(cfg: Config, db: Db, create: Event)
    requires Inv(db) && Enabled(cfg, db, create) && create.Create?
    ensures var d := Apply(cfg, db, create);
      && d.sandboxes - {create.id} == db.sandboxes && RowsOf(d, create.id) == {}
  {
    CreateKeeps(cfg, db, create.id, create.spec, create.now);
  }

  /** Placing and deleting takes the sandbox out of the tables and changes nothing else. */
  lemma PlacedAndDeleted(cfg: Config, db: Db, place: Event)
    requires Inv(db) && Enabled(cfg, db, place) && place.Place? && place.reply.created
    requires var cs := db.sandboxes[place.id].spec.containers; 0 <= CpuSum(cs) && 0 <= MemSum(cs)
    requires place.node in db.resources ==> RowAddsUp(db.resources[place.node])
    ensures var placed := Apply(cfg, db, place);
      && Enabled(cfg, placed, Delete(place.id, true, ""))
      && var gone := Apply(cfg, placed, Delete(place.id, true, ""));
      && gone.nodes == db.nodes && gone.resources == db.resources
      && gone.sandboxes == db.sandboxes - {place.id} && gone.ports == db.ports - RowsOf(db, place.id)
  {
    PlacedOn(cfg, db, place);
    var placed := Apply(cfg, db, place);
    PlacedIsLive(cfg, db, place);
    var gone := Apply(cfg, placed, Delete(place.id, true, ""));
    RemovalOutcome(cfg, placed, Delete(place.id, true, ""));
    LedgerBack(cfg, db, gone, place);
    TablesBack(db, placed, gone, place.id);
  }

  lemma PlacedIsLive(cfg: Config, db: Db, place: Event)
    requires Inv(db) && Enabled(cfg, db, place) && place.Place? && place.reply.created
    ensures var d := Apply(cfg, db, place);
      Inv(d) && place.id in d.sandboxes && d.sandboxes[place.id].status.phase == Running
  {
    PlaceKeeps(cfg, db, place.id, place.node, place.ports, place.listedExternal, place.external, place.reply);
  }
}
