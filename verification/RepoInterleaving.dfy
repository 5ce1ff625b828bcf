/**
  Repository calls of all goroutines in any interleaving. Status-sync and IP-refresh goroutines read a row, compute a
  new status from it and swap it in with UpdateSandboxStatusIfUnchanged; every other writer writes blindly at any time.
 */
module RepoInterleaving {
  import opened Strings
  import opened Types
  import opened Repo
  import opened StatusSync
  import opened ControlPlane
  import opened ControlPlaneSafety

  datatype Snapshot = Snapshot(id: string, row: Row)

  /** What a goroutine computes from the row it read. */
  datatype Intent =
    | FromReport(report: Report, external: string)
    | FromMissing(external: string)
    | FromAddress(ip: string)

  datatype Call =
    | Insert(id: string, spec: SandboxSpec, st: Status)
    | Put(id: string, st: Status)
    | ReservePorts(id: string, node: string, ports: seq<PortAssign>)
    | Release(id: string)
    | Remove(id: string)
    | Drop(node: string)
    | Adjust(node: string, d: Demand)
    | Read(reader: int, id: string)
    | Swap(reader: int, intent: Intent)

  datatype System = System(db: Db, read: map<int, Snapshot>)

  function Computed(intent: Intent, st: Status): Status {
    match intent
    case FromReport(report, ext) => Synced(st, report, ext)
    case FromMissing(ext) => LostOnNode(st, ext)
    case FromAddress(ip) => st.(ip := ip)
  }

  /** The guards between the read and the swap. */
  predicate Attempts(intent: Intent, st: Status) {
    && !st.phase.Deleting?
    && match intent
       case FromReport(report, ext) => Synced(st, report, ext) != st
       case FromMissing(_) => !st.phase.Scheduled?
       case FromAddress(ip) => st.ip != ip
  }

  predicate CanCall(s: System, c: Call) {
    match c
    case Insert(id, _, _) => id !in s.db.sandboxes
    case Read(_, id) => id in s.db.sandboxes
    case Swap(reader, intent) => reader in s.read && Attempts(intent, s.read[reader].row.status)
    case _ => true
  }

  function Perform(s: System, c: Call): System
    requires CanCall(s, c)
  {
    match c
    case Insert(id, spec, st) => s.(db := InsertSandbox(s.db, id, spec, st))
    case Put(id, st) => s.(db := PutStatus(s.db, id, st))
    case ReservePorts(id, node, ports) =>
      var r := Reserve(s.db, id, node, ports);
      if r.Reserved? then s.(db := r.db) else s
    case Release(id) => s.(db := Repo.ReleasePorts(s.db, id))
    case Remove(id) => s.(db := RemoveSandbox(s.db, id))
    case Drop(node) => s.(db := DropNode(s.db, node))
    case Adjust(node, d) => s.(db := AdjustUsage(s.db, node, d))
    case Read(reader, id) => s.(read := s.read[reader := Snapshot(id, s.db.sandboxes[id])])
    case Swap(reader, intent) =>
      var snap := s.read[reader];
      System(PutStatusIfUnchanged(s.db, snap.id, Computed(intent, snap.row.status), snap.row.updatedAt),
        s.read - {reader})
  }

  ghost predicate IsRun(trace: seq<System>, calls: seq<Call>) {
    && |trace| == |calls| + 1
    && forall i :: 0 <= i < |calls| ==> CanCall(trace[i], calls[i]) && trace[i + 1] == Perform(trace[i], calls[i])
  }

  /** Timestamps identify versions: a row that still carries a snapshot's timestamp is that very row. */
  ghost predicate Versioned(s: System) {
    && (forall id :: id in s.db.sandboxes ==> s.db.sandboxes[id].updatedAt < s.db.clock)
    && (forall t :: t in s.read ==> s.read[t].row.updatedAt < s.db.clock)
    && (forall t :: t in s.read && Unchanged(s.db, s.read[t].id, s.read[t].row.updatedAt) ==>
      s.db.sandboxes[s.read[t].id] == s.read[t].row)
  }

  lemma SwapKeepsVersions(s: System, c: Call)
    requires Versioned(s) && CanCall(s, c) && c.Swap?
    ensures Versioned(Perform(s, c))
  {
    var d := Perform(s, c);
    forall t | t in d.read && Unchanged(d.db, d.read[t].id, d.read[t].row.updatedAt)
      ensures d.db.sandboxes[d.read[t].id] == d.read[t].row
    {
      assert t in s.read && d.read[t] == s.read[t];
    }
  }

  lemma CallKeepsVersions(s: System, c: Call)
    requires Versioned(s) && CanCall(s, c)
    ensures Versioned(Perform(s, c))
  {
    if c.Swap? {
      SwapKeepsVersions(s, c);
    } else {
      var d := Perform(s, c);
      forall t | t in d.read && Unchanged(d.db, d.read[t].id, d.read[t].row.updatedAt)
        ensures d.db.sandboxes[d.read[t].id] == d.read[t].row
      {
        assert t in s.read || c.Read?;
      }
    }
  }

  lemma {:induction false} RunKeepsVersions(trace: seq<System>, calls: seq<Call>, n: nat)
    requires IsRun(trace, calls) && n <= |calls| && Versioned(trace[0])
    ensures Versioned(trace[n])
  {
    if n == 0 {
    } else {
      RunKeepsVersions(trace, calls, n - 1);
      CallKeepsVersions(trace[n - 1], calls[n - 1]);
    }
  }

  /** The control-plane event a swap stands for. */
  function Meant(id: string, intent: Intent): Event {
    match intent
    case FromReport(report, ext) => Sync(id, report, ext)
    case FromMissing(ext) => Lost(id, ext)
    case FromAddress(ip) => RefreshIp(id, ip)
  }

  /**
    In every interleaving a swap takes effect exactly when the row is the version it was computed from, and then the
    read, the computation and the write together are one atomic event on the current database; otherwise no row changes.
   */
  lemma SwapIsAtomic(cfg: Config, trace: seq<System>, calls: seq<Call>, n: nat)
    requires IsRun(trace, calls) && n < |calls| && Versioned(trace[0]) && calls[n].Swap?
    ensures var db, d := trace[n].db, trace[n + 1].db; var snap := trace[n].read[calls[n].reader];
      var e := Meant(snap.id, calls[n].intent);
      if snap.id in db.sandboxes && db.sandboxes[snap.id] == snap.row then
        Enabled(cfg, db, e) && d == Apply(cfg, db, e) &&
          d.sandboxes[snap.id].status == Computed(calls[n].intent, db.sandboxes[snap.id].status)
      else d == db.(clock := db.clock + 1)
  {
    RunKeepsVersions(trace, calls, n);
  }

  /** The port table's primary key and its reference to the sandboxes. */
  ghost predicate KeysOk(db: Db) {
    PortKeysUnique(db) && forall r :: r in db.ports ==> r.sandboxId in db.sandboxes
  }

  lemma ReserveKeepsKeys(db: Db, id: string, node: string, ports: seq<PortAssign>)
    requires KeysOk(db) && Reserve(db, id, node, ports).Reserved?
    ensures KeysOk(Reserve(db, id, node, ports).db)
  {
    var d := Reserve(db, id, node, ports).db;
    var claim := Claim(id, d.sandboxes[id].status);
    assert d.ports == db.ports + claim;
    forall a, b | a in d.ports && b in d.ports && a.nodeName == b.nodeName && a.port.hostPort == b.port.hostPort
      ensures a == b
    {
      assert a in db.ports && a.nodeName == node ==> a.port.hostPort in UsedPorts(db, node);
      assert b in db.ports && b.nodeName == node ==> b.port.hostPort in UsedPorts(db, node);
    }
  }

  lemma CallKeepsKeys(s: System, c: Call)
    requires KeysOk(s.db) && CanCall(s, c)
    ensures KeysOk(Perform(s, c).db)
  {
    if c.ReservePorts? && Reserve(s.db, c.id, c.node, c.ports).Reserved? {
      ReserveKeepsKeys(s.db, c.id, c.node, c.ports);
    }
  }

  /** No two port rows share node and port and none lacks its sandbox, in every interleaving of single calls. */
  lemma {:induction false} RunKeepsKeys(trace: seq<System>, calls: seq<Call>, n: nat)
    requires IsRun(trace, calls) && n <= |calls| && KeysOk(trace[0].db)
    ensures KeysOk(trace[n].db)
  {
    if n == 0 {
    } else {
      RunKeepsKeys(trace, calls, n - 1);
      CallKeepsKeys(trace[n - 1], calls[n - 1]);
    }
  }

  predicate IsDeleting(db: Db, id: string) {
    id in db.sandboxes && db.sandboxes[id].status.phase.Deleting?
  }

  /** A call that brings a sandbox out of Deleting without removing its row. */
  predicate Revives(s: System, c: Call, id: string)
    requires CanCall(s, c)
  {
    IsDeleting(s.db, id) && id in Perform(s, c).db.sandboxes && !IsDeleting(Perform(s, c).db, id)
  }

  /**
    Exactly the blind writers can revive: an UpdateSandboxStatus with another phase, or a reservation that goes
    through. No swap does.
   */
  lemma OnlyBlindWritesRevive(trace: seq<System>, calls: seq<Call>, n: nat, id: string)
    requires IsRun(trace, calls) && n < |calls| && Versioned(trace[0])
    ensures Revives(trace[n], calls[n], id) <==>
      && IsDeleting(trace[n].db, id)
      && ((calls[n].Put? && calls[n].id == id && !calls[n].st.phase.Deleting?)
          || (calls[n].ReservePorts? && calls[n].id == id &&
            !ReserveConflicts(trace[n].db, id, calls[n].node, calls[n].ports)))
  {
    RunKeepsVersions(trace, calls, n);
    if calls[n].Swap? {
      SwapKeepsDeleting(trace[n], calls[n], id);
    }
  }

  lemma SwapKeepsDeleting(s: System, c: Call, id: string)
    requires Versioned(s) && c.Swap? && CanCall(s, c)
    ensures IsDeleting(s.db, id) ==> Perform(s, c).db.sandboxes == s.db.sandboxes || s.read[c.reader].id != id
    ensures IsDeleting(s.db, id) ==> IsDeleting(Perform(s, c).db, id)
  {
  }

  const WITNESS_SPEC := SandboxSpec(false, 0, [], [ContainerSpec("c", "i", Some(1), Some(1))])

  lemma WitnessSpecIsValid()
    ensures ValidSpec(WITNESS_SPEC)
  {
    var cs := WITNESS_SPEC.containers;
    assert Request(cs).Some? by {
      assert cs[..0] == [] && Request(cs[..0]) == Some(Demand(0, 0));
    }
    assert TrimSpace("c") == "c" && TrimSpace("i") == "i";
  }

  /** What the scheduler writes last, from the row it read back after the reservation. */
  function LastWrite(reserved: Status): Status {
    reserved.(external := "(none)", phase := Running, lastError := "")
  }

  /**
    The scheduler's last write of a placement can land after a deletion was marked. From the empty database a sandbox is
    created, its ports are reserved, a deletion is marked on the reserved row, and the scheduler writes what it computed
    from that same row: Deleting is lost.
   */
  lemma SchedulerCanRevive() returns (trace: seq<System>, calls: seq<Call>)
    ensures IsRun(trace, calls) && trace[0] == System(EmptyDb, map[]) && |calls| == 4 && ValidSpec(WITNESS_SPEC)
    ensures calls[0] == Insert("a", WITNESS_SPEC, InitialStatus(WITNESS_SPEC, 0))
    ensures calls[1] == ReservePorts("a", "n", [])
    ensures "a" in trace[2].db.sandboxes && trace[2].db.sandboxes["a"].status.phase.Scheduled?
    ensures var reserved := trace[2].db.sandboxes["a"].status;
      calls[2] == Put("a", reserved.(phase := Deleting, lastError := "")) && calls[3] == Put("a", LastWrite(reserved))
    ensures Versioned(trace[0]) && Revives(trace[3], calls[3], "a")
  {
    WitnessSpecIsValid();
    var insert, reserve := Insert("a", WITNESS_SPEC, InitialStatus(WITNESS_SPEC, 0)), ReservePorts("a", "n", []);
    var s0 := System(EmptyDb, map[]);
    var s1 := Perform(s0, insert);
    var s2 := Perform(s1, reserve);
    var reserved := s2.db.sandboxes["a"].status;
    var mark, write := Put("a", reserved.(phase := Deleting, lastError := "")), Put("a", LastWrite(reserved));
    var s3 := Perform(s2, mark);
    calls, trace := [insert, reserve, mark, write], [s0, s1, s2, s3, Perform(s3, write)];
  }
}
