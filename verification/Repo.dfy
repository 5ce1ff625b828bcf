/**
  The orchestrator's database (sandboxd-orch/repo). `Db` is the value of all tables, each repository call is a
  function on it, and SqliteRepo is the object that makes the calls. Every call is atomic; `clock` supplies the
  timestamps, so that no two writes share one.
 */
module Repo {
  import opened Types

  datatype Db = Db(
    sandboxes: map<string, Row>, ports: set<PortRow>,
    nodes: map<string, NodeState>, resources: map<string, Resources>, clock: int)

  const EmptyDb := Db(map[], {}, map[], map[], 0)

  function RowsOf(db: Db, id: string): set<PortRow> {
    set r | r in db.ports && r.sandboxId == id
  }

  /** The rows a status lays claim to. */
  function Claim(id: string, st: Status): set<PortRow> {
    set p | p in st.assignedPorts :: PortRow(id, st.nodeName, p)
  }

  function UsedPorts(db: Db, node: string): set<int> {
    set r | r in db.ports && r.nodeName == node :: r.port.hostPort
  }

  predicate DistinctHostPorts(ports: seq<PortAssign>) {
    forall i, j :: 0 <= i < j < |ports| ==> ports[i].hostPort != ports[j].hostPort
  }

  function InsertSandbox(db: Db, id: string, spec: SandboxSpec, st: Status): Db
    requires id !in db.sandboxes
  {
    db.(sandboxes := db.sandboxes[id := Row(spec, st, db.clock)], clock := db.clock + 1)
  }

  function PutStatus(db: Db, id: string, st: Status): Db {
    if id in db.sandboxes then
      db.(sandboxes := db.sandboxes[id := db.sandboxes[id].(status := st, updatedAt := db.clock)],
        clock := db.clock + 1)
    else db.(clock := db.clock + 1)
  }

  /** The compare-and-swap of UpdateSandboxStatusIfUnchanged: does the row still carry the expected timestamp? */
  predicate Unchanged(db: Db, id: string, expected: int) {
    id in db.sandboxes && db.sandboxes[id].updatedAt == expected
  }

  function PutStatusIfUnchanged(db: Db, id: string, st: Status, expected: int): Db {
    if Unchanged(db, id, expected) then PutStatus(db, id, st) else db.(clock := db.clock + 1)
  }

  function ReleasePorts(db: Db, id: string): Db {
    db.(ports := db.ports - RowsOf(db, id))
  }

  function RemoveSandbox(db: Db, id: string): Db {
    db.(ports := db.ports - RowsOf(db, id), sandboxes := db.sandboxes - {id})
  }

  datatype ReserveResult = Conflict | NoSandbox | Reserved(db: Db)

  /** Rows violate the primary key with each other, or the foreign key to sandboxes, or are already taken. */
  predicate ReserveConflicts(db: Db, id: string, node: string, ports: seq<PortAssign>) {
    || (exists p :: p in ports && p.hostPort in UsedPorts(db, node))
    || !DistinctHostPorts(ports)
    || (ports != [] && id !in db.sandboxes)
  }

  predicate PortFree(rows: set<PortRow>, node: string, port: int) {
    forall q :: q in rows && q.nodeName == node ==> q.port.hostPort != port
  }

  lemma AllFree(db: Db, node: string, wanted: seq<PortAssign>)
    ensures (forall k :: 0 <= k < |wanted| ==> PortFree(db.ports, node, wanted[k].hostPort)) <==>
      !exists p :: p in wanted && p.hostPort in UsedPorts(db, node)
  {
    forall p | p in wanted ensures p.hostPort in UsedPorts(db, node) <==> !PortFree(db.ports, node, p.hostPort) {
      if q :| q in db.ports && q.nodeName == node && q.port.hostPort == p.hostPort {
        assert p.hostPort in UsedPorts(db, node);
      }
    }
  }

  /** The port table after these rows were inserted. */
  function Inserted(base: set<PortRow>, id: string, node: string, ports: seq<PortAssign>): set<PortRow> {
    base + set p | p in ports :: PortRow(id, node, p)
  }

  /** One insert violates the primary key exactly when its port was wanted twice, or is in the base table. */
  lemma InsertOne(base: set<PortRow>, id: string, node: string, wanted: seq<PortAssign>, i: nat)
    requires i < |wanted| && DistinctHostPorts(wanted[..i])
    requires PortFree(base, node, wanted[i].hostPort)
    ensures var tx := Inserted(base, id, node, wanted[..i]);
      if exists q :: q in tx && q.nodeName == node && q.port.hostPort == wanted[i].hostPort
        then !DistinctHostPorts(wanted)
      else
        && DistinctHostPorts(wanted[..i + 1])
        && Inserted(base, id, node, wanted[..i + 1]) == tx + {PortRow(id, node, wanted[i])}
  {
    var tx := Inserted(base, id, node, wanted[..i]);
    assert wanted[..i + 1] == wanted[..i] + [wanted[i]];
    if exists q :: q in tx && q.nodeName == node && q.port.hostPort == wanted[i].hostPort {
      var q :| q in tx && q.nodeName == node && q.port.hostPort == wanted[i].hostPort;
      var k :| 0 <= k < i && wanted[k] == q.port;
    } else {
      forall k | 0 <= k < i ensures wanted[k].hostPort != wanted[i].hostPort {
        assert wanted[k] in wanted[..i] && PortRow(id, node, wanted[k]) in tx;
      }
    }
  }

  function Reserve(db: Db, id: string, node: string, ports: seq<PortAssign>): ReserveResult {
    if ReserveConflicts(db, id, node, ports) then Conflict
    else if id !in db.sandboxes then NoSandbox
    else
      var st := db.sandboxes[id].status.(nodeName := node, phase := Scheduled, assignedPorts := ports);
      Reserved(PutStatus(db.(ports := db.ports + Claim(id, st)), id, st))
  }

  function Clamp(x: int): int {
    Max(0, x)
  }

  /** Add to the used columns, never below zero, and recompute the available ones. */
  function Charge(r: Resources, d: Demand): Resources {
    var used := Demand(Clamp(r.used.cpu + d.cpu), Clamp(r.used.mem + d.mem));
    r.(used := used, avail := Demand(Clamp(r.alloc.cpu - used.cpu), Clamp(r.alloc.mem - used.mem)))
  }

  function AdjustUsage(db: Db, node: string, d: Demand): Db {
    if node in db.resources then db.(resources := db.resources[node := Charge(db.resources[node], d)]) else db
  }

  const NoResources := Resources(Demand(0, 0), Demand(0, 0), Demand(0, 0))

  function UpsertNode(db: Db, node: string): Db {
    db.(nodes := if node in db.nodes then db.nodes else db.nodes[node := Unknown],
        resources := if node in db.resources then db.resources else db.resources[node := NoResources])
  }

  function DropNode(db: Db, node: string): Db {
    db.(ports := (set r | r in db.ports && r.nodeName != node), nodes := db.nodes - {node},
      resources := db.resources - {node})
  }

  /** Some order in which ListSandboxes may return the ids. */
  ghost predicate IsListing<T>(ids: seq<string>, m: map<string, T>) {
    && (forall i, j :: 0 <= i < j < |ids| ==> ids[i] != ids[j])
    && (forall id :: id in ids <==> id in m)
  }

  method ListKeys(keys: set<string>) returns (ids: seq<string>)
    ensures forall i, j :: 0 <= i < j < |ids| ==> ids[i] != ids[j]
    ensures forall id :: id in ids <==> id in keys
  {
    ids := [];
    var rest := keys;
    while rest != {}
      invariant rest <= keys
      invariant forall i, j :: 0 <= i < j < |ids| ==> ids[i] != ids[j]
      invariant forall id :: id in ids <==> id in keys - rest
    {
      var id :| id in rest;
      assert forall k :: 0 <= k < |ids| ==> ids[k] in ids;
      rest := rest - {id};
      ids := ids + [id];
    }
  }

  /** The repository object: one field a table. */
  class SqliteRepo {
    var sandboxes: map<string, Row>
    var ports: set<PortRow>
    var nodes: map<string, NodeState>
    var resources: map<string, Resources>
    var clock: int

    ghost function Contents(): Db
      reads this
    {
      Db(sandboxes, ports, nodes, resources, clock)
    }

    constructor ()
      ensures Contents() == EmptyDb
    {
      sandboxes, ports, nodes, resources, clock := map[], {}, map[], map[], 0;
    }

    method ListSandboxes() returns (ids: seq<string>)
      ensures IsListing(ids, sandboxes)
    {
      ids := ListKeys(sandboxes.Keys);
    }

    method ListNodes() returns (ids: seq<string>)
      ensures IsListing(ids, nodes)
    {
      ids := ListKeys(nodes.Keys);
    }

    method CreateSandbox(id: string, spec: SandboxSpec, st: Status) returns (ok: bool)
      modifies this
      ensures ok <==> id !in old(sandboxes)
      ensures Contents() == if ok then InsertSandbox(old(Contents()), id, spec, st) else old(Contents())
    {
      ok := id !in sandboxes;
      if ok {
        sandboxes := sandboxes[id := Row(spec, st, clock)];
        clock := clock + 1;
      }
    }

    method UpdateSandboxStatus(id: string, st: Status)
      modifies this
      ensures Contents() == PutStatus(old(Contents()), id, st)
    {
      if id in sandboxes {
        sandboxes := sandboxes[id := sandboxes[id].(status := st, updatedAt := clock)];
      }
      clock := clock + 1;
    }

    method UpdateSandboxStatusIfUnchanged(id: string, st: Status, expected: int) returns (affected: bool)
      modifies this
      ensures affected <==> Unchanged(old(Contents()), id, expected)
      ensures Contents() == PutStatusIfUnchanged(old(Contents()), id, st, expected)
    {
      affected := id in sandboxes && sandboxes[id].updatedAt == expected;
      if affected {
        sandboxes := sandboxes[id := sandboxes[id].(status := st, updatedAt := clock)];
      }
      clock := clock + 1;
    }

    method ReleaseSandboxPorts(id: string)
      modifies this
      ensures Contents() == ReleasePorts(old(Contents()), id)
    {
      ports := ports - set r | r in ports && r.sandboxId == id;
    }

    method DeleteSandbox(id: string)
      modifies this
      ensures Contents() == RemoveSandbox(old(Contents()), id)
    {
      ports := ports - set r | r in ports && r.sandboxId == id;
      sandboxes := sandboxes - {id};
    }

    method NodeUsedHostPorts(node: string) returns (used: set<int>)
      ensures used == UsedPorts(Contents(), node)
    {
      used := set r | r in ports && r.nodeName == node :: r.port.hostPort;
    }

    /**
      One transaction: check every port, insert every port under the table's keys, then update the row; an error rolls
      back.
     */
    method ReserveSandboxPortsAndSchedule(id: string, node: string, wanted: seq<PortAssign>)
      returns (ghost r: ReserveResult, ok: bool)
      modifies this
      ensures r == Reserve(old(Contents()), id, node, wanted)
      ensures ok <==> r.Reserved?
      ensures Contents() == if r.Reserved? then r.db else old(Contents())
    {
      ghost var db := Contents();
      r, ok := Reserve(db, id, node, wanted), false;
      AllFree(db, node, wanted);
      for i := 0 to |wanted|
        invariant Contents() == db
        invariant forall k :: 0 <= k < i ==> PortFree(db.ports, node, wanted[k].hostPort)
      {
        if exists q :: q in ports && q.nodeName == node && q.port.hostPort == wanted[i].hostPort {
          assert !PortFree(db.ports, node, wanted[i].hostPort);
          return;
        }
      }
      var tx := ports;
      for i := 0 to |wanted|
        invariant Contents() == db
        invariant tx == Inserted(db.ports, id, node, wanted[..i]) && DistinctHostPorts(wanted[..i])
        invariant 0 < i ==> id in sandboxes
      {
        assert PortFree(db.ports, node, wanted[i].hostPort);
        InsertOne(db.ports, id, node, wanted, i);
        var keyTaken := exists q :: q in tx && q.nodeName == node && q.port.hostPort == wanted[i].hostPort;
        if keyTaken || id !in sandboxes {
          assert ReserveConflicts(db, id, node, wanted);
          return;
        }
        tx := tx + {PortRow(id, node, wanted[i])};
      }
      assert wanted[..|wanted|] == wanted;
      if id !in sandboxes {
        return;
      }
      var st := sandboxes[id].status.(nodeName := node, phase := Scheduled, assignedPorts := wanted);
      assert tx == db.ports + Claim(id, st);
      sandboxes := sandboxes[id := sandboxes[id].(status := st, updatedAt := clock)];
      ports, clock, ok := tx, clock + 1, true;
    }

    method AdjustNodeResourceUsage(node: string, cpuDelta: int, memDelta: int)
      modifies this
      ensures Contents() == AdjustUsage(old(Contents()), node, Demand(cpuDelta, memDelta))
    {
      if node in resources {
        var r := resources[node];
        var cpu, mem := Max(0, r.used.cpu + cpuDelta), Max(0, r.used.mem + memDelta);
        resources := resources[node := Resources(r.alloc, Demand(cpu, mem),
          Demand(Max(0, r.alloc.cpu - cpu), Max(0, r.alloc.mem - mem)))];
      }
    }

    method DeleteNode(node: string)
      modifies this
      ensures Contents() == DropNode(old(Contents()), node)
      ensures nodes == old(nodes) - {node} && resources == old(resources) - {node} && sandboxes == old(sandboxes)
      ensures forall r :: r in ports <==> r in old(ports) && r.nodeName != node
    {
      ports := ports - set r | r in ports && r.nodeName == node;
      resources := resources - {node};
      nodes := nodes - {node};
      assert ports == set r | r in old(ports) && r.nodeName != node;
    }
  }
}
