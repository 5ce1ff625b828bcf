/**
  The orchestrator's service object (sandboxd-orch/service). Every operation is proved to perform exactly one event of
  the control plane, so whatever ControlPlaneSafety shows of events holds of it. Replies of nodes are parameters.
 */
module Service {
  import opened Strings
  import opened Types
  import opened Repo
  import opened StatusSync
  import opened ControlPlane
  import opened ControlPlaneSafety
  import opened Outcomes
  import opened Scheduler

  method SandboxResourceRequest(spec: SandboxSpec) returns (r: Option<Demand>)
    ensures r == Request(spec.containers)
  {
    var cpu, mem := 0, 0;
    var cs := spec.containers;
    for i := 0 to |cs|
      invariant Request(cs[..i]) == Some(Demand(cpu, mem))
    {
      assert cs[..i + 1][..i] == cs[..i];
      if cs[i].cpu.None? || cs[i].mem.None? {
        RequestFails(cs, i + 1);
        return None;
      }
      cpu, mem := cpu + cs[i].cpu.value, mem + cs[i].mem.value;
    }
    assert cs[..|cs|] == cs;
    return Some(Demand(cpu, mem));
  }

  lemma {:induction false} RequestFails(cs: seq<ContainerSpec>, n: nat)
    requires n <= |cs| && Request(cs[..n]).None?
    ensures Request(cs).None?
    decreases |cs| - n
  {
    if n < |cs| {
      assert cs[..n + 1][..n] == cs[..n];
      RequestFails(cs, n + 1);
    } else {
      assert cs[..n] == cs;
    }
  }

  /** What a caller of the service is told. */
  datatype Answer = InvalidInput | NotFound | Exists | Aborted | Done

  class Orchestrator {
    const cfg: Config
    const repo: SqliteRepo

    constructor (cfg: Config)
      ensures this.cfg == cfg && fresh(repo) && repo.Contents() == EmptyDb && Inv(repo.Contents())
    {
      var r := new SqliteRepo();
      this.cfg, repo := cfg, r;
      new;
      EmptyDbOk();
    }

    method AdjustNodeUsageForSandbox(node: string, spec: SandboxSpec, direction: int)
      modifies repo
      ensures repo.Contents() == AdjustForSandbox(old(repo.Contents()), node, spec, direction)
    {
      if TrimSpace(node) == "" {
        return;
      }
      var need := SandboxResourceRequest(spec);
      if need.Some? {
        repo.AdjustNodeResourceUsage(node, direction * need.value.cpu, direction * need.value.mem);
      }
    }

    method CreateSandbox(rawId: string, spec: SandboxSpec, now: int) returns (answer: Answer)
      modifies repo
      ensures var e := Create(TrimSpace(rawId), spec, now);
        && (answer.Done? <==> Enabled(cfg, old(repo.Contents()), e))
        && repo.Contents() == if answer.Done? then Apply(cfg, old(repo.Contents()), e) else old(repo.Contents())
      ensures answer.InvalidInput? <==> TurnedDown(rawId, spec)
      ensures answer.Exists? <==> !TurnedDown(rawId, spec) && TrimSpace(rawId) in old(repo.sandboxes)
      ensures answer.Done? ==> CreatedAs(old(repo.Contents()), repo.Contents(), TrimSpace(rawId), spec, now)
    {
      TurnedDownMeans(rawId, spec);
      if TrimSpace(rawId) == "" || !ValidSpec(spec) {
        return InvalidInput;
      }
      if TrimSpace(rawId) !in repo.sandboxes {
        CreateOutcome(cfg, repo.Contents(), TrimSpace(rawId), spec, now);
      }
      var ok := repo.CreateSandbox(TrimSpace(rawId), spec, InitialStatus(spec, now));
      return if ok then Done else Exists;
    }

    /** The end of scheduleOne: the create call was answered, and the outcome is written. */
    method Launch(id: string, node: string, spec: SandboxSpec, placed: Status, external: string, reply: CreateReply)
      modifies repo
      ensures repo.Contents() == Launched(old(repo.Contents()), id, node, spec, placed, external, reply)
    {
      if !reply.created {
        repo.UpdateSandboxStatus(id, placed.(phase := Failed, lastError := reply.error));
        repo.ReleaseSandboxPorts(id);
        return;
      }
      var st := placed.(external := NormExternal(external), phase := Running, lastError := "");
      var ip := TrimSpace(reply.ip);
      if ip != "" {
        st := st.(ip := ip);
      }
      repo.UpdateSandboxStatus(id, st);
      AdjustNodeUsageForSandbox(node, spec, 1);
    }

    /** scheduleOne: the row was just read as Pending; `reply` is what the node will answer, and
        `listed` and `external` are the nodes' external names when listed and when read again. */
    method ScheduleOne(id: string, listed: string -> string, external: string -> string, reply: CreateReply)
      returns (ghost e: Event)
      requires Inv(repo.Contents()) && id in repo.sandboxes && repo.sandboxes[id].status.phase.Pending?
      modifies repo
      ensures Enabled(cfg, old(repo.Contents()), e) && repo.Contents() == Apply(cfg, old(repo.Contents()), e)
      ensures e.NoPlace? || (e.Place? && e.reply == reply)
      ensures e.id == id && (e.NoPlace? ==> e.error == "no feasible node for resources/ports")
    {
      var sbx := repo.sandboxes[id];
      var need := SandboxResourceRequest(sbx.spec);
      assert RowOk(repo.Contents(), id);
      var chosen := PickNode(cfg, repo, sbx.spec, need.value);
      if chosen.None? {
        var error := "no feasible node for resources/ports";
        e := NoPlace(id, error);
        repo.UpdateSandboxStatus(id, sbx.status.(phase := Failed, lastError := error));
        return;
      }
      var c := chosen.value;
      e := Place(id, c.node, c.ports, listed(c.node), external(c.node), reply);
      PlaceKeeps(cfg, repo.Contents(), id, c.node, c.ports, listed(c.node), external(c.node), reply);
      var _, ok := repo.ReserveSandboxPortsAndSchedule(id, c.node, c.ports);
      assert ok;
      var st := repo.sandboxes[id].status.(external := NormExternal(listed(c.node)));
      Launch(id, c.node, sbx.spec, st, external(c.node), reply);
    }

    /** finalizeSandboxDelete, with the caller's copy of the row. */
    method FinalizeSandboxDelete(id: string, spec: SandboxSpec, st: Status, nodeOk: bool, error: string)
      modifies repo
      ensures repo.Contents() == FinalizeDelete(old(repo.Contents()), id, spec, st, nodeOk, error)
    {
      if st.nodeName != "" {
        if st.nodeName in repo.nodes && !nodeOk {
          repo.UpdateSandboxStatus(id, st.(lastError := error));
          return;
        }
      }
      repo.ReleaseSandboxPorts(id);
      repo.DeleteSandbox(id);
      if st.nodeName != "" {
        AdjustNodeUsageForSandbox(st.nodeName, spec, -1);
      }
    }

    method DeleteSandbox(rawId: string, nodeOk: bool, error: string) returns (answer: Answer)
      modifies repo
      ensures var e := Delete(TrimSpace(rawId), nodeOk, error);
        && (answer.InvalidInput? <==> Blank(rawId))
        && (answer.Done? <==> !Blank(rawId) && Enabled(cfg, old(repo.Contents()), e))
        && repo.Contents() == if answer.Done? then Apply(cfg, old(repo.Contents()), e) else old(repo.Contents())
      ensures answer.NotFound? ==> TrimSpace(rawId) !in old(repo.sandboxes)
      ensures Inv(old(repo.Contents())) && answer.Done? ==>
        RemovedAs(old(repo.Contents()), repo.Contents(), TrimSpace(rawId), true, nodeOk, error)
    {
      var id := TrimSpace(rawId);
      if id == "" {
        return InvalidInput;
      }
      if id !in repo.sandboxes {
        return NotFound;
      }
      RemovalSpoken(cfg, repo.Contents(), Delete(id, nodeOk, error));
      answer := Done;
      if repo.sandboxes[id].status.phase.Deleting? {
        return;
      }
      var sbx := repo.sandboxes[id];
      var st := sbx.status.(phase := Deleting, lastError := "");
      repo.UpdateSandboxStatus(id, st);
      FinalizeSandboxDelete(id, sbx.spec, st, nodeOk, error);
    }

    method TriggerSandboxReconcile(rawId: string, nodeOk: bool, error: string) returns (found: bool)
      modifies repo
      ensures found <==> Enabled(cfg, old(repo.Contents()), Trigger(TrimSpace(rawId), nodeOk, error))
      ensures repo.Contents() == if found
        then Apply(cfg, old(repo.Contents()), Trigger(TrimSpace(rawId), nodeOk, error)) else old(repo.Contents())
      ensures Inv(old(repo.Contents())) && found ==>
        RemovedAs(old(repo.Contents()), repo.Contents(), TrimSpace(rawId), false, nodeOk, error)
    {
      var id := TrimSpace(rawId);
      found := id in repo.sandboxes;
      if !found {
        return;
      }
      RemovalSpoken(cfg, repo.Contents(), Trigger(id, nodeOk, error));
      var sbx := repo.sandboxes[id];
      var st := sbx.status;
      if !st.phase.Deleting? {
        st := st.(phase := Deleting);
        repo.UpdateSandboxStatus(id, st);
      }
      FinalizeSandboxDelete(id, sbx.spec, st, nodeOk, error);
    }

    /**
      refreshSandboxIPSoon: `answers` are the node's successive answers, None for a failed call; it asks ten times at
      most.
     */
    method RefreshSandboxIPSoon(id: string, answers: seq<Option<string>>)
      modifies repo
      ensures var db := old(repo.Contents());
        var ip := FirstAddress(if |answers| <= 10 then answers else answers[..10]);
        repo.Contents() ==
          if ip != "" && Enabled(cfg, db, RefreshIp(id, ip)) then Apply(cfg, db, RefreshIp(id, ip)) else db
      ensures AddressTold(old(repo.Contents()), repo.Contents(), id, if |answers| <= 10 then answers else answers[..10])
    {
      TellAddress(cfg, repo.Contents(), id, if |answers| <= 10 then answers else answers[..10]);
      Refresh(id, answers);
    }

    /** The body of that call: one refresh event with the first address, or nothing. */
    method Refresh(id: string, answers: seq<Option<string>>)
      modifies repo
      ensures var db := old(repo.Contents());
        var ip := FirstAddress(if |answers| <= 10 then answers else answers[..10]);
        repo.Contents() ==
          if ip != "" && Enabled(cfg, db, RefreshIp(id, ip)) then Apply(cfg, db, RefreshIp(id, ip)) else db
    {
      var asked := if |answers| <= 10 then answers else answers[..10];
      for i := 0 to |asked|
        invariant repo.Contents() == old(repo.Contents())
        invariant FirstAddress(asked) == FirstAddress(asked[i..])
      {
        if asked[i].None? {
          return;
        }
        var ip := TrimSpace(asked[i].value);
        if ip != "" {
          if id !in repo.sandboxes || repo.sandboxes[id].status.ip == ip || repo.sandboxes[id].status.phase.Deleting? {
            return;
          }
          var latest := repo.sandboxes[id];
          var _ := repo.UpdateSandboxStatusIfUnchanged(id, latest.status.(ip := ip), latest.updatedAt);
          return;
        }
        assert asked[i..][1..] == asked[i + 1..];
      }
      assert asked[|asked|..] == [];
    }

    /** One turn of the delete/TTL reconciler. */
    method ReconcileOne(id: string, now: int, nodeOk: bool, error: string)
      requires id in repo.sandboxes
      modifies repo
      ensures var db := old(repo.Contents()); var st := db.sandboxes[id].status;
        repo.Contents() ==
          if st.phase.Deleting? then Apply(cfg, db, Finalize(id, nodeOk, error))
          else if Expired(st, now) then Apply(cfg, db, Expire(id, now, nodeOk, error))
          else db
      ensures var db := old(repo.Contents()); var st := db.sandboxes[id].status;
        Inv(db) ==>
          if st.phase == Deleting || DueByAge(st, now) then RemovedAs(db, repo.Contents(), id, false, nodeOk, error)
          else repo.Contents() == db
    {
      ReapSpoken(cfg, repo.Contents(), id, now, nodeOk, error);
      var sbx := repo.sandboxes[id];
      if sbx.status.phase.Deleting? {
        FinalizeSandboxDelete(id, sbx.spec, sbx.status, nodeOk, error);
        return;
      }
      if sbx.status.expireAt.Some? && sbx.status.expireAt.value < now {
        var st := sbx.status.(phase := Deleting, lastError := "ttl expired");
        repo.UpdateSandboxStatus(id, st);
        FinalizeSandboxDelete(id, sbx.spec, st, nodeOk, error);
      }
    }

    /** One turn of syncNodeSandboxBatch: re-read the row, compute, compare and swap. */
    method SyncOne(id: string, missing: bool, report: Option<Report>, nodeExternal: string) returns (wrote: bool)
      modifies repo
      ensures OneSynced(cfg, old(repo.Contents()), repo.Contents(), id, missing, report, nodeExternal, wrote)
      ensures OneJudged(old(repo.Contents()), repo.Contents(), id, missing, report, nodeExternal)
    {
      ghost var db := repo.Contents();
      wrote := Sync(id, missing, report, nodeExternal);
      OneSyncedMeans(cfg, db, repo.Contents(), id, missing, report, nodeExternal, wrote);
    }

    /** The body of that turn. */
    method Sync(id: string, missing: bool, report: Option<Report>, nodeExternal: string) returns (wrote: bool)
      modifies repo
      ensures OneSynced(cfg, old(repo.Contents()), repo.Contents(), id, missing, report, nodeExternal, wrote)
    {
      wrote := false;
      if missing {
        if id !in repo.sandboxes || repo.sandboxes[id].status.phase.Deleting? ||
          repo.sandboxes[id].status.phase.Scheduled? {
          return;
        }
        var latest := repo.sandboxes[id];
        var _ := repo.UpdateSandboxStatusIfUnchanged(id, LostOnNode(latest.status, nodeExternal), latest.updatedAt);
        return true;
      }
      if report.None? || id !in repo.sandboxes || repo.sandboxes[id].status.phase.Deleting? {
        return;
      }
      var latest := repo.sandboxes[id];
      var next, changed := SyncStatus(latest.status, report.value, nodeExternal);
      if changed {
        var _ := repo.UpdateSandboxStatusIfUnchanged(id, next, latest.updatedAt);
        wrote := true;
      }
    }

    /** detachNodeSandboxes over the listed rows; any failing call of the node stops a gentle removal. */
    method DetachNodeSandboxes(node: string, force: bool, failing: set<string>, reconcileOk: bool)
      returns (ok: bool, ghost items: seq<string>)
      modifies repo
      ensures IsListing(items, old(repo.sandboxes))
      ensures ok <==> !GivesUp(old(repo.Contents()), node, force, items, failing, reconcileOk)
      ensures repo.Contents() == if !force && node !in old(repo.nodes) then old(repo.Contents())
        else DetachAll(old(repo.Contents()), node, !force, failing, items).db
      ensures force ==> !DetachAll(old(repo.Contents()), node, !force, failing, items).aborted
    {
      ghost var db := repo.Contents();
      var listed := repo.ListSandboxes();
      items := listed;
      if node !in repo.nodes && !force {
        return false, items;
      }
      for i := 0 to |listed|
        invariant DetachAll(db, node, !force, failing, listed[..i]) == Detached(repo.Contents(), false)
      {
        assert listed[..i + 1][..i] == listed[..i];
        var stop := Detach(listed[i], node, !force, failing);
        if stop {
          AbortSticks(db, node, !force, failing, listed, i + 1);
          return false, items;
        }
      }
      assert listed[..|listed|] == listed;
      return force || reconcileOk, items;
    }

    method DeleteNodeForce(rawNode: string, force: bool, failing: set<string>, reconcileOk: bool)
      returns (answer: Answer, ghost e: Event)
      modifies repo
      ensures e.RemoveNode? && e == RemoveNode(TrimSpace(rawNode), force, e.order, failing, reconcileOk)
      ensures Blank(rawNode) ==> answer.InvalidInput? && repo.Contents() == old(repo.Contents())
      ensures var db := old(repo.Contents()); !Blank(rawNode) ==>
        && Enabled(cfg, db, e) && repo.Contents() == Apply(cfg, db, e)
        && (answer.Aborted? || answer.Done?)
        && (answer.Aborted? <==>
            !force && (e.node !in db.nodes || (exists id :: Stuck(db, e.node, failing, id)) || !reconcileOk))
      ensures answer.Done? && Inv(old(repo.Contents())) ==> NodeGone(old(repo.Contents()), repo.Contents(), e.node)
    {
      var node := TrimSpace(rawNode);
      e := RemoveNode(node, force, [], failing, reconcileOk);
      if node == "" {
        return InvalidInput, e;
      }
      var ok, items := DetachNodeSandboxes(node, force, failing, reconcileOk);
      e := RemoveNode(node, force, items, failing, reconcileOk);
      NodeRemovalSpoken(cfg, old(repo.Contents()), e);
      if !ok {
        return Aborted, e;
      }
      repo.DeleteNode(node);
      return Done, e;
    }

    method Detach(id: string, node: string, asks: bool, failing: set<string>) returns (stop: bool)
      modifies repo
      ensures DetachOne(old(repo.Contents()), node, asks, failing, id) == Detached(repo.Contents(), stop)
    {
      stop := false;
      if id !in repo.sandboxes || repo.sandboxes[id].status.nodeName != node {
        return;
      }
      var st := repo.sandboxes[id].status;
      repo.ReleaseSandboxPorts(id);
      match st.phase
      case Deleting => repo.DeleteSandbox(id);
      case Running | Scheduled =>
        if asks && id in failing {
          return true;
        }
        repo.UpdateSandboxStatus(id, DetachedStatus(st));
      case _ =>
    }

    /** runSchedulerOnce: `replies` is what the chosen nodes answer. */
    method RunSchedulerOnce(listed: string -> string, external: string -> string, replies: string -> CreateReply)
      returns (ghost run: Tick)
      requires Inv(repo.Contents())
      modifies repo
      ensures Inv(repo.Contents())
      ensures IsTick(cfg, run, old(repo.Contents()), repo.Contents())
      ensures SchedulerTick(old(repo.Contents()), repo.Contents(), replies, Refused(run.events))
    {
      ghost var db := repo.Contents();
      run := Tick([db], []);
      var items := repo.ListSandboxes();
      for i := 0 to |items|
        invariant IsTick(cfg, run, db, repo.Contents())
        invariant SchedulingTo(db, repo.Contents(), items, i, replies, Refused(run.events))
      {
        var id := items[i];
        ghost var before, refused := repo.Contents(), Refused(run.events);
        SchedulingAt(db, before, items, i, replies, refused);
        if repo.sandboxes[id].status.phase.Pending? {
          var e := ScheduleOne(id, listed, external, replies(id));
          ScheduleSettles(cfg, before, e, replies(id));
          TickExtends(cfg, run, db, before, e, repo.Contents());
          run := Tick(run.trace + [repo.Contents()], run.events + [e]);
        }
        SchedulingStep(db, before, repo.Contents(), items, i, replies, refused, Refused(run.events));
      }
      SchedulingDone(db, repo.Contents(), items, replies, Refused(run.events));
    }

    /** runSandboxReconcileOnce: `nodeOk` is how the nodes answer the delete calls. */
    method RunSandboxReconcileOnce(now: int, nodeOk: string -> bool, error: string)
      requires Inv(repo.Contents())
      modifies repo
      ensures Inv(repo.Contents())
      ensures ReconcileTick(old(repo.Contents()), repo.Contents(), now, nodeOk)
    {
      ghost var db := repo.Contents();
      var items := repo.ListSandboxes();
      for i := 0 to |items|
        invariant ReapingTo(db, repo.Contents(), items, i, now, nodeOk)
      {
        var id := items[i];
        ghost var before := repo.Contents();
        ReapingAt(db, before, items, i, now, nodeOk);
        ReconcileReaps(cfg, before, id, now, nodeOk(id), error);
        ReconcileOne(id, now, nodeOk(id), error);
        ReapingStep(db, before, repo.Contents(), items, i, now, nodeOk);
      }
      ReapingDone(db, repo.Contents(), items, now, nodeOk);
    }

    /** syncNodeSandboxBatch after the node answered. */
    method SyncNodeSandboxBatch(ids: seq<string>, missing: set<string>, reports: map<string, Report>,
        nodeExternal: string)
      modifies repo
      ensures StatusesAfterPass(old(repo.Contents()), repo.Contents(), ids, missing, reports, nodeExternal)
      ensures PassDone(old(repo.Contents()), repo.Contents(), ids, missing, reports, nodeExternal)
      ensures repo.ports == old(repo.ports)
    {
      ghost var db := repo.Contents();
      for i := 0 to |ids|
        invariant StatusesAfterPass(db, repo.Contents(), ids[..i], missing, reports, nodeExternal)
        invariant repo.ports == db.ports
      {
        var id := ids[i];
        ghost var before := repo.Contents();
        var report := if id in reports then Some(reports[id]) else None;
        var wrote := SyncOne(id, id in missing, report, nodeExternal);
        OneSyncedIsPass(cfg, before, repo.Contents(), id, missing, reports, nodeExternal, wrote);
        PassStep(db, before, repo.Contents(), ids, i, missing, reports, nodeExternal);
      }
      assert ids[..|ids|] == ids;
      PassMeans(db, repo.Contents(), ids, missing, reports, nodeExternal);
    }
  }

  /** What a request to remove a sandbox does to the tables. */
  lemma RemovalSpoken(cfg: Config, db: Db, e: Event)
    requires Enabled(cfg, db, e) && Removes(e)
    ensures Inv(db) ==> RemovedAs(db, Apply(cfg, db, e), e.id, e.Delete?, e.nodeOk, e.error)
  {
    if Inv(db) {
      RemovalOutcome(cfg, db, e);
    }
  }

  lemma ReapSpoken(cfg: Config, db: Db, id: string, now: int, nodeOk: bool, error: string)
    requires id in db.sandboxes
    ensures var st := db.sandboxes[id].status;
      var d :=
        if st.phase.Deleting? then Apply(cfg, db, Finalize(id, nodeOk, error))
        else if Expired(st, now) then Apply(cfg, db, Expire(id, now, nodeOk, error))
        else db;
      Inv(db) ==>
        if st.phase == Deleting || DueByAge(st, now) then RemovedAs(db, d, id, false, nodeOk, error) else d == db
  {
    var st := db.sandboxes[id].status;
    if st.phase.Deleting? {
      RemovalSpoken(cfg, db, Finalize(id, nodeOk, error));
    } else if Expired(st, now) {
      RemovalSpoken(cfg, db, Expire(id, now, nodeOk, error));
    }
  }

  /** Which removals are given up, and what the others leave. */
  lemma NodeRemovalSpoken(cfg: Config, db: Db, e: Event)
    requires Enabled(cfg, db, e) && e.RemoveNode?
    ensures GivesUp(db, e.node, e.force, e.order, e.failing, e.reconcileOk) <==>
      !e.force && (e.node !in db.nodes || (exists id :: Stuck(db, e.node, e.failing, id)) || !e.reconcileOk)
    ensures Inv(db) && !GivesUp(db, e.node, e.force, e.order, e.failing, e.reconcileOk) ==>
      NodeGone(db, Apply(cfg, db, e), e.node)
  {
    GivesUpMeans(db, e.node, e.force, e.order, e.failing, e.reconcileOk);
    if Inv(db) && !GivesUp(db, e.node, e.force, e.order, e.failing, e.reconcileOk) {
      NodeRemovalOutcome(cfg, db, e);
    }
  }

  /** The i-th answer is the first that failed or told an address. */
  ghost predicate FirstWord(answers: seq<Option<string>>, i: int) {
    && 0 <= i < |answers| && (answers[i].None? || !Blank(answers[i].value))
    && forall k :: 0 <= k < i ==> answers[k].Some? && Blank(answers[k].value)
  }

  /** An address is found exactly when the first answer that is a failure or an address is an address. */
  lemma {:induction false} FirstAddressMeans(answers: seq<Option<string>>)
    ensures FirstAddress(answers) != "" <==> exists i :: FirstWord(answers, i) && answers[i].Some?
    ensures forall i :: FirstWord(answers, i) && answers[i].Some? ==>
      FirstAddress(answers) == TrimSpace(answers[i].value)
    decreases |answers|
  {
    if answers == [] {
    } else if answers[0].None? || !Blank(answers[0].value) {
      assert FirstWord(answers, 0);
    } else {
      var rest := answers[1..];
      FirstAddressMeans(rest);
      if i :| FirstWord(rest, i) && rest[i].Some? {
        assert FirstWord(answers, i + 1);
      }
      forall i | FirstWord(answers, i) ensures 0 < i && FirstWord(rest, i - 1) && rest[i - 1] == answers[i] {
        assert forall k :: 0 <= k < i - 1 ==> rest[k] == answers[k + 1];
      }
    }
  }

  /** The first answer is an address. */
  ghost predicate Tells(answers: seq<Option<string>>, ip: string) {
    exists i :: FirstWord(answers, i) && answers[i].Some? && TrimSpace(answers[i].value) == ip
  }

  /** A sandbox that is stored and not being deleted gets the address its node tells; otherwise nothing changes. */
  ghost predicate AddressTold(a: Db, b: Db, id: string, answers: seq<Option<string>>) {
    if id in a.sandboxes && a.sandboxes[id].status.phase != Deleting && exists ip :: Tells(answers, ip) then
      exists ip :: Tells(answers, ip) && AddressSet(a, b, id, ip)
    else b == a
  }

  lemma TellAddress(cfg: Config, db: Db, id: string, answers: seq<Option<string>>)
    ensures var ip := FirstAddress(answers);
      AddressTold(db, if ip != "" && Enabled(cfg, db, RefreshIp(id, ip)) then Apply(cfg, db, RefreshIp(id, ip)) else db,
        id, answers)
  {
    FirstAddressMeans(answers);
    var ip := FirstAddress(answers);
    if i :| FirstWord(answers, i) && answers[i].Some? {
      assert Tells(answers, ip);
      if Enabled(cfg, db, RefreshIp(id, ip)) {
        RefreshOutcome(cfg, db, id, ip);
      }
    }
  }

  /** The first address reported before any call fails, "" when there is none. */
  function FirstAddress(answers: seq<Option<string>>): string {
    if answers == [] || answers[0].None? then ""
    else if TrimSpace(answers[0].value) != "" then TrimSpace(answers[0].value)
    else FirstAddress(answers[1..])
  }

  lemma {:induction false} AbortSticks(db: Db, node: string, asks: bool, failing: set<string>, order: seq<string>,
      n: nat)
    requires n <= |order| && DetachAll(db, node, asks, failing, order[..n]).aborted
    ensures DetachAll(db, node, asks, failing, order) == DetachAll(db, node, asks, failing, order[..n])
    decreases |order| - n
  {
    if n < |order| {
      assert order[..n + 1][..n] == order[..n];
      AbortSticks(db, node, asks, failing, order, n + 1);
    } else {
      assert order[..n] == order;
    }
  }

  // ---------- What a whole tick achieves when nothing else runs ----------

  ghost predicate SameRow(a: Db, b: Db, id: string) {
    && id in a.sandboxes && id in b.sandboxes
    && a.sandboxes[id] == b.sandboxes[id] && RowsOf(a, id) == RowsOf(b, id)
  }

  /** The events of a tick and the databases between them. */
  datatype Tick = Tick(trace: seq<Db>, events: seq<Event>)

  ghost predicate IsTick(cfg: Config, run: Tick, a: Db, b: Db) {
    IsRun(cfg, run.trace, run.events) && run.trace[0] == a && run.trace[|run.events|] == b
  }

  /** The sandboxes for which no node was feasible when their turn came: a NoPlace event is enabled only then. */
  ghost function Refused(events: seq<Event>): set<string> {
    set k | 0 <= k < |events| && events[k].NoPlace? :: events[k].id
  }

  lemma TickExtends(cfg: Config, run: Tick, a: Db, b: Db, e: Event, c: Db)
    requires IsTick(cfg, run, a, b) && Enabled(cfg, b, e) && c == Apply(cfg, b, e)
    ensures IsTick(cfg, Tick(run.trace + [c], run.events + [e]), a, c)
    ensures Refused(run.events) <= Refused(run.events + [e]) && (e.NoPlace? ==> e.id in Refused(run.events + [e]))
  {
    var es := run.events + [e];
    assert es[|run.events|] == e;
    forall x | x in Refused(run.events) ensures x in Refused(es) {
      var k :| 0 <= k < |run.events| && run.events[k].NoPlace? && run.events[k].id == x;
      assert es[k] == run.events[k];
    }
  }

  /**
    A sandbox that was Pending holds exactly its assigned ports and runs, or failed and holds none, either because no
    node was feasible or because its node refused. Any other sandbox is untouched.
   */
  ghost predicate Settled(a: Db, b: Db, id: string, reply: CreateReply, refused: set<string>) {
    && id in a.sandboxes && id in b.sandboxes
    && if !a.sandboxes[id].status.phase.Pending? then SameRow(a, b, id)
       else
         var st := b.sandboxes[id].status;
         || (st.phase.Running? && reply.created && st.nodeName in b.nodes && RowsOf(b, id) == Claim(id, st)
             && |st.assignedPorts| == |b.sandboxes[id].spec.ports|)
         || (st.phase.Failed? && RowsOf(b, id) == {} && (if st.nodeName == "" then id in refused else !reply.created))
  }

  ghost predicate SchedulerTick(a: Db, b: Db, replies: string -> CreateReply, refused: set<string>) {
    && a.sandboxes.Keys == b.sandboxes.Keys
    && forall id :: id in a.sandboxes ==> Settled(a, b, id, replies(id), refused)
  }

  ghost predicate SchedulingTo(a: Db, b: Db, items: seq<string>, i: nat, replies: string -> CreateReply,
      refused: set<string>) {
    && i <= |items| && Inv(b) && a.sandboxes.Keys == b.sandboxes.Keys && IsListing(items, a.sandboxes)
    && (forall k :: 0 <= k < i ==> Settled(a, b, items[k], replies(items[k]), refused))
    && (forall k :: i <= k < |items| ==> SameRow(a, b, items[k]))
  }

  lemma SchedulingAt(a: Db, b: Db, items: seq<string>, i: nat, replies: string -> CreateReply, refused: set<string>)
    requires SchedulingTo(a, b, items, i, replies, refused) && i < |items|
    ensures items[i] in b.sandboxes && SameRow(a, b, items[i])
  {
  }

  lemma SchedulingStep(a: Db, b: Db, c: Db, items: seq<string>, i: nat, replies: string -> CreateReply,
      refused: set<string>, refused': set<string>)
    requires SchedulingTo(a, b, items, i, replies, refused) && i < |items| && Inv(c) && refused <= refused'
    requires b.sandboxes.Keys == c.sandboxes.Keys
    requires Settled(b, c, items[i], replies(items[i]), refused') && SameElsewhere(b, c, items[i])
    ensures SchedulingTo(a, c, items, i + 1, replies, refused')
  {
    assert SameRow(a, b, items[i]);
    forall k | 0 <= k < |items| && k != i
      ensures items[k] != items[i] && (k < i ==> Settled(a, c, items[k], replies(items[k]), refused'))
      ensures (i < k ==> SameRow(a, c, items[k]))
    {
      assert items[k] in a.sandboxes;
    }
  }

  lemma SchedulingDone(a: Db, b: Db, items: seq<string>, replies: string -> CreateReply, refused: set<string>)
    requires SchedulingTo(a, b, items, |items|, replies, refused)
    ensures SchedulerTick(a, b, replies, refused)
  {
    forall id | id in a.sandboxes ensures Settled(a, b, id, replies(id), refused) {
      assert id in items;
    }
  }

  lemma PlaceSettles(cfg: Config, db: Db, e: Event)
    requires Inv(db) && Enabled(cfg, db, e) && e.Place?
    ensures var d := Apply(cfg, db, e);
      && Inv(d) && Settled(db, d, e.id, e.reply, {}) && SameElsewhere(db, d, e.id)
      && d.sandboxes.Keys == db.sandboxes.Keys
  {
    PlaceKeeps(cfg, db, e.id, e.node, e.ports, e.listedExternal, e.external, e.reply);
    SameKeys(db, Apply(cfg, db, e), e.id);
  }

  lemma SameKeys(a: Db, b: Db, id: string)
    requires SameElsewhere(a, b, id) && id in a.sandboxes && id in b.sandboxes
    ensures a.sandboxes.Keys == b.sandboxes.Keys
  {
    assert forall k :: k in a.sandboxes.Keys <==> k in b.sandboxes.Keys;
  }

  lemma NoPlaceSettles(cfg: Config, db: Db, e: Event, reply: CreateReply)
    requires Inv(db) && Enabled(cfg, db, e) && e.NoPlace?
    ensures var d := Apply(cfg, db, e);
      && Inv(d) && Settled(db, d, e.id, reply, {e.id}) && SameElsewhere(db, d, e.id)
      && d.sandboxes.Keys == db.sandboxes.Keys
  {
    var st := db.sandboxes[e.id].status;
    assert RowOk(db, e.id) && Claim(e.id, st) == {};
    PutStatusKeeps(db, e.id, st.(phase := Failed, lastError := e.error));
  }

  /** One turn of the scheduler settles its sandbox and leaves every other alone. */
  lemma ScheduleSettles(cfg: Config, db: Db, e: Event, reply: CreateReply)
    requires Inv(db) && Enabled(cfg, db, e) && (e.NoPlace? || (e.Place? && e.reply == reply))
    ensures var d := Apply(cfg, db, e);
      && Inv(d) && Settled(db, d, e.id, reply, if e.NoPlace? then {e.id} else {}) && SameElsewhere(db, d, e.id)
      && d.sandboxes.Keys == db.sandboxes.Keys
  {
    if e.Place? {
      PlaceSettles(cfg, db, e);
    } else {
      NoPlaceSettles(cfg, db, e, reply);
    }
  }

  /**
    What was Deleting or expired is gone, or still Deleting because its registered node refused; any other sandbox is
    untouched.
   */
  ghost predicate Reaped(a: Db, b: Db, id: string, now: int, nodeOk: bool) {
    && id in a.sandboxes
    && var st := a.sandboxes[id].status;
    if st.phase != Deleting && !DueByAge(st, now) then SameRow(a, b, id)
    else if st.nodeName != "" && st.nodeName in a.nodes && !nodeOk then id in b.sandboxes &&
      b.sandboxes[id].status.phase.Deleting?
    else id !in b.sandboxes && RowsOf(b, id) == {}
  }

  ghost predicate ReconcileTick(a: Db, b: Db, now: int, nodeOk: string -> bool) {
    && b.sandboxes.Keys <= a.sandboxes.Keys
    && forall id :: id in a.sandboxes ==> Reaped(a, b, id, now, nodeOk(id))
  }

  ghost predicate ReapingTo(a: Db, b: Db, items: seq<string>, i: nat, now: int, nodeOk: string -> bool) {
    && i <= |items| && Inv(b) && b.sandboxes.Keys <= a.sandboxes.Keys && a.nodes == b.nodes &&
      IsListing(items, a.sandboxes)
    && (forall k :: 0 <= k < i ==> Reaped(a, b, items[k], now, nodeOk(items[k])))
    && (forall k :: i <= k < |items| ==> SameRow(a, b, items[k]))
  }

  lemma ReapingAt(a: Db, b: Db, items: seq<string>, i: nat, now: int, nodeOk: string -> bool)
    requires ReapingTo(a, b, items, i, now, nodeOk) && i < |items|
    ensures items[i] in b.sandboxes && SameRow(a, b, items[i])
  {
  }

  lemma ReapingStep(a: Db, b: Db, c: Db, items: seq<string>, i: nat, now: int, nodeOk: string -> bool)
    requires ReapingTo(a, b, items, i, now, nodeOk) && i < |items| && Inv(c)
    requires Reaped(b, c, items[i], now, nodeOk(items[i])) && SameElsewhere(b, c, items[i])
    ensures ReapingTo(a, c, items, i + 1, now, nodeOk)
  {
    assert SameRow(a, b, items[i]);
    forall k | 0 <= k < |items| && k != i
      ensures items[k] != items[i] && (k < i ==> Reaped(a, c, items[k], now, nodeOk(items[k])))
      ensures (i < k ==> SameRow(a, c, items[k]))
    {
      assert items[k] in a.sandboxes;
    }
  }

  lemma ReapingDone(a: Db, b: Db, items: seq<string>, now: int, nodeOk: string -> bool)
    requires ReapingTo(a, b, items, |items|, now, nodeOk)
    ensures ReconcileTick(a, b, now, nodeOk)
  {
    forall id | id in a.sandboxes ensures Reaped(a, b, id, now, nodeOk(id)) {
      assert id in items;
    }
  }

  lemma ExpireReaps(cfg: Config, db: Db, id: string, now: int, nodeOk: bool, error: string)
    requires Inv(db) && Enabled(cfg, db, Expire(id, now, nodeOk, error))
    ensures var d := Apply(cfg, db, Expire(id, now, nodeOk, error));
      Inv(d) && Reaped(db, d, id, now, nodeOk) && SameElsewhere(db, d, id)
  {
    var st := db.sandboxes[id].status.(phase := Deleting, lastError := "ttl expired");
    PutStatusKeeps(db, id, st);
    FinalizeReaps(PutStatus(db, id, st), id, db.sandboxes[id].spec, st, nodeOk, error);
  }

  lemma ReconcileReaps(cfg: Config, db: Db, id: string, now: int, nodeOk: bool, error: string)
    requires Inv(db) && id in db.sandboxes
    ensures var st := db.sandboxes[id].status;
      var d :=
        if st.phase.Deleting? then Apply(cfg, db, Finalize(id, nodeOk, error))
        else if Expired(st, now) then Apply(cfg, db, Expire(id, now, nodeOk, error))
        else db;
      Inv(d) && Reaped(db, d, id, now, nodeOk) && SameElsewhere(db, d, id)
  {
    var row := db.sandboxes[id];
    if row.status.phase.Deleting? {
      FinalizeReaps(db, id, row.spec, row.status, nodeOk, error);
    } else if Expired(row.status, now) {
      ExpireReaps(cfg, db, id, now, nodeOk, error);
    }
  }

  lemma FinalizeReaps(db: Db, id: string, spec: SandboxSpec, st: Status, nodeOk: bool, error: string)
    requires Inv(db) && id in db.sandboxes && db.sandboxes[id].status == st && st.phase.Deleting?
    ensures var d := FinalizeDelete(db, id, spec, st, nodeOk, error);
      && Inv(d) && SameElsewhere(db, d, id)
      && if st.nodeName != "" && st.nodeName in db.nodes && !nodeOk then id in d.sandboxes &&
        d.sandboxes[id].status.phase.Deleting?
         else id !in d.sandboxes && RowsOf(d, id) == {}
  {
    FinalizeKeeps(db, id, spec, st, nodeOk, error);
    ReleaseKeeps(db, id);
    RemoveKeeps(ReleasePorts(db, id), id);
    AdjustKeeps(RemoveSandbox(ReleasePorts(db, id), id), st.nodeName, spec, -1, id);
  }

  /** Where one sync pass takes a status. */
  function Target(st: Status, id: string, missing: set<string>, reports: map<string, Report>, ext: string): Status {
    if st.phase.Deleting? then st
    else if id in missing then (if st.phase.Scheduled? then st else LostOnNode(st, ext))
    else if id in reports then Synced(st, reports[id], ext)
    else st
  }

  lemma PassMeans(a: Db, b: Db, ids: seq<string>, missing: set<string>, reports: map<string, Report>, ext: string)
    requires StatusesAfterPass(a, b, ids, missing, reports, ext)
    ensures PassDone(a, b, ids, missing, reports, ext)
  {
    forall id | id in a.sandboxes
      ensures Judged(a.sandboxes[id].status, b.sandboxes[id].status, id in ids, id in missing,
        if id in reports then Some(reports[id]) else None, ext)
    {
      LostMeans(a.sandboxes[id].status, ext);
      if id in reports {
        SyncedFollows(a.sandboxes[id].status, reports[id], ext);
      }
    }
  }

  lemma TargetIdempotent(st: Status, id: string, missing: set<string>, reports: map<string, Report>, ext: string)
    ensures var t := Target(st, id, missing, reports, ext); Target(t, id, missing, reports, ext) == t
  {
    if id in missing {
      SyncConverges(st, Report("", "", "", []), ext);
    } else if id in reports {
      SyncConverges(st, reports[id], ext);
      SyncKeepsPlacement(st, reports[id], ext);
    }
  }

  ghost predicate StatusesAfterPass(a: Db, b: Db, ids: seq<string>, missing: set<string>, reports: map<string,
      Report>, ext: string) {
    && a.sandboxes.Keys == b.sandboxes.Keys
    && forall id :: id in a.sandboxes ==>
        && b.sandboxes[id].spec == a.sandboxes[id].spec
        && b.sandboxes[id].status == if id in ids then Target(a.sandboxes[id].status, id, missing, reports, ext)
          else a.sandboxes[id].status
  }

  /**
    One sandbox synced: a write happens exactly when a report changes the status, or when the row may be given up for
    lost.
   */
  ghost predicate OneSynced(cfg: Config, db: Db, d: Db, id: string, missing: bool, report: Option<Report>,
      ext: string, wrote: bool) {
    if missing then
      && (wrote <==> Enabled(cfg, db, Lost(id, ext)))
      && d == if wrote then Apply(cfg, db, Lost(id, ext)) else db
    else if report.Some? && Enabled(cfg, db, Sync(id, report.value, ext)) then
      && d == Apply(cfg, db, Sync(id, report.value, ext))
      && (wrote <==> Synced(db.sandboxes[id].status, report.value, ext) != db.sandboxes[id].status)
    else
      !wrote && d == db
  }

  /** The one status is what the node's answer makes of it, and nothing else changed. */
  ghost predicate OneJudged(a: Db, b: Db, id: string, missing: bool, report: Option<Report>, ext: string) {
    && a.sandboxes.Keys == b.sandboxes.Keys && SameElsewhere(a, b, id) && b.ports == a.ports
    && (id in a.sandboxes ==>
        && b.sandboxes[id].spec == a.sandboxes[id].spec
        && Judged(a.sandboxes[id].status, b.sandboxes[id].status, true, missing, report, ext))
  }

  lemma JudgedPut(db: Db, id: string, st: Status, missing: bool, report: Option<Report>, ext: string)
    requires id in db.sandboxes && Judged(db.sandboxes[id].status, st, true, missing, report, ext)
    ensures OneJudged(db, PutStatus(db, id, st), id, missing, report, ext)
  {
    forall k ensures RowsOf(PutStatus(db, id, st), k) == RowsOf(db, k) {}
  }

  lemma JudgedNothing(db: Db, id: string, missing: bool, report: Option<Report>, ext: string)
    requires id in db.sandboxes ==>
      Judged(db.sandboxes[id].status, db.sandboxes[id].status, true, missing, report, ext)
    ensures OneJudged(db, db, id, missing, report, ext)
  {
  }

  lemma OneSyncedMeans(cfg: Config, db: Db, d: Db, id: string, missing: bool, report: Option<Report>, ext: string,
      wrote: bool)
    requires OneSynced(cfg, db, d, id, missing, report, ext, wrote)
    ensures OneJudged(db, d, id, missing, report, ext)
  {
    if missing && wrote {
      LostMeans(db.sandboxes[id].status, ext);
      JudgedPut(db, id, LostOnNode(db.sandboxes[id].status, ext), missing, report, ext);
    } else if !missing && report.Some? && Enabled(cfg, db, Sync(id, report.value, ext)) {
      SyncedFollows(db.sandboxes[id].status, report.value, ext);
      if wrote {
        JudgedPut(db, id, Synced(db.sandboxes[id].status, report.value, ext), missing, report, ext);
      } else {
        JudgedNothing(db, id, missing, report, ext);
      }
    } else {
      JudgedNothing(db, id, missing, report, ext);
    }
  }

  /** What a pass does to a database when it rewrites one status, or none. */
  lemma PutIsPass(db: Db, d: Db, id: string, missing: set<string>, reports: map<string, Report>, ext: string)
    requires id in db.sandboxes
    requires var t := Target(db.sandboxes[id].status, id, missing, reports, ext);
      d == PutStatus(db, id, t) || (d == db && t == db.sandboxes[id].status)
    ensures StatusesAfterPass(db, d, [id], missing, reports, ext) && d.ports == db.ports
  {
  }

  lemma OneSyncedIsPass(cfg: Config, db: Db, d: Db, id: string, missing: set<string>, reports: map<string, Report>,
      ext: string, wrote: bool)
    requires OneSynced(cfg, db, d, id, id in missing, if id in reports then Some(reports[id]) else None, ext, wrote)
    ensures StatusesAfterPass(db, d, [id], missing, reports, ext) && d.ports == db.ports
  {
    if id in db.sandboxes {
      PutIsPass(db, d, id, missing, reports, ext);
    }
  }

  lemma PassStep(a: Db, b: Db, c: Db, ids: seq<string>, i: nat, missing: set<string>, reports: map<string, Report>,
      ext: string)
    requires i < |ids| && StatusesAfterPass(a, b, ids[..i], missing, reports, ext)
    requires StatusesAfterPass(b, c, [ids[i]], missing, reports, ext)
    ensures StatusesAfterPass(a, c, ids[..i + 1], missing, reports, ext)
  {
    assert ids[..i + 1] == ids[..i] + [ids[i]];
    if ids[i] in a.sandboxes {
      TargetIdempotent(a.sandboxes[ids[i]].status, ids[i], missing, reports, ext);
    }
  }

  /** One pass reaches a fixpoint: a second pass with the same answer of the node changes no status. */
  lemma SecondPassChangesNothing(a: Db, b: Db, c: Db, ids: seq<string>, missing: set<string>, reports: map<string,
      Report>, ext: string)
    requires StatusesAfterPass(a, b, ids, missing, reports, ext) && StatusesAfterPass(b, c, ids, missing, reports, ext)
    ensures b.sandboxes.Keys == c.sandboxes.Keys
    ensures forall id :: id in b.sandboxes ==> c.sandboxes[id].status == b.sandboxes[id].status
  {
    forall id | id in b.sandboxes ensures c.sandboxes[id].status == b.sandboxes[id].status {
      TargetIdempotent(a.sandboxes[id].status, id, missing, reports, ext);
    }
  }
}
