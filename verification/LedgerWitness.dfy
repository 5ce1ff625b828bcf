/** A run from the empty database in which a failed create leaves the ledger short of the load. */
module LedgerWitness {
  import opened Strings
  import opened Types
  import opened Repo
  import opened ControlPlane
  import opened ControlPlaneSafety
  import opened Ledger

  /** Some run starts with no row at all and ends here. */
  ghost predicate Reached(cfg: Config, db: Db) {
    exists trace, es :: IsRun(cfg, trace, es) && trace[0] == EmptyDb && trace[|es|] == db
  }

  lemma RunLonger(cfg: Config, trace: seq<Db>, es: seq<Event>, e: Event, next: Db)
    requires IsRun(cfg, trace, es) && Enabled(cfg, trace[|es|], e) && next == Apply(cfg, trace[|es|], e)
    ensures IsRun(cfg, trace + [next], es + [e])
  {
    var longer, more := trace + [next], es + [e];
    forall i | 0 <= i < |more|
      ensures Enabled(cfg, longer[i], more[i]) && longer[i + 1] == Apply(cfg, longer[i], more[i])
    {
      assert i < |es| ==> longer[i] == trace[i] && longer[i + 1] == trace[i + 1] && more[i] == es[i];
    }
  }

  lemma ReachedNext(cfg: Config, db: Db, e: Event)
    requires Reached(cfg, db) && Enabled(cfg, db, e)
    ensures Reached(cfg, Apply(cfg, db, e))
  {
    var trace, es :| IsRun(cfg, trace, es) && trace[0] == EmptyDb && trace[|es|] == db;
    var longer, more := trace + [Apply(cfg, db, e)], es + [e];
    RunLonger(cfg, trace, es, e, Apply(cfg, db, e));
    assert longer[0] == EmptyDb && longer[|more|] == Apply(cfg, db, e);
  }

  lemma ReachedStart(cfg: Config)
    ensures Reached(cfg, EmptyDb)
  {
    assert IsRun(cfg, [EmptyDb], []);
  }

  /** Half of what the node has. */
  const HALF := SandboxSpec(false, 0, [], [ContainerSpec("c", "i", Some(50), Some(0))])

  function Row100(used: int): Resources {
    Resources(Demand(100, 0), Demand(used, 0), Demand(100 - used, 0))
  }

  lemma HalfNeeds()
    ensures Need(HALF) == Demand(50, 0) && ValidSpec(HALF)
  {
    var cs := HALF.containers;
    assert Request(cs) == Some(Demand(50, 0)) by {
      assert cs[..0] == [] && Request(cs[..0]) == Some(Demand(0, 0));
    }
    assert TrimSpace("c") == "c" && TrimSpace("i") == "i";
  }

  /** One ready node, and a ledger that agrees with the load. */
  ghost predicate OneNode(db: Db, node: string, used: int) {
    && Inv(db) && !Blank(node)
    && db.nodes == map[node := Ready] && db.resources == map[node := Row100(used)]
    && Load(db, node, Cpu) == used
  }

  lemma Registered(cfg: Config, node: string) returns (db: Db)
    requires !Blank(node)
    ensures Reached(cfg, db) && db == EmptyDb.(nodes := map[node := Unknown], resources := map[node := NoResources])
  {
    ReachedStart(cfg);
    db := Apply(cfg, EmptyDb, Register(node));
    ReachedNext(cfg, EmptyDb, Register(node));
  }

  lemma Measured(cfg: Config, node: string) returns (db: Db)
    requires !Blank(node)
    ensures Reached(cfg, db) && db == EmptyDb.(nodes := map[node := Unknown], resources := map[node := Row100(0)])
  {
    var before := Registered(cfg, node);
    db := Apply(cfg, before, ResourceSync(node, Row100(0)));
    ReachedNext(cfg, before, ResourceSync(node, Row100(0)));
  }

  lemma Prepared(cfg: Config, node: string) returns (db: Db)
    requires !Blank(node)
    ensures Reached(cfg, db) && OneNode(db, node, 0) && db.sandboxes == map[]
  {
    var before := Measured(cfg, node);
    db := Apply(cfg, before, Heartbeat(node, Ready));
    ReachedNext(cfg, before, Heartbeat(node, Ready));
    assert Weights(db, node, Cpu) == map[];
  }

  lemma Created(cfg: Config, db: Db, node: string, used: int, id: string) returns (d: Db)
    requires Reached(cfg, db) && OneNode(db, node, used) && id != "" && id !in db.sandboxes
    ensures Reached(cfg, d) && OneNode(d, node, used) && id in d.sandboxes
    ensures d.sandboxes.Keys == db.sandboxes.Keys + {id}
    ensures d.sandboxes[id].spec == HALF && d.sandboxes[id].status.phase.Pending?
  {
    HalfNeeds();
    var e := Create(id, HALF, 0);
    d := Apply(cfg, db, e);
    ReachedNext(cfg, db, e);
    CreateKeeps(cfg, db, id, HALF, 0);
    LoadUpdate(db, d, id, node, Cpu);
  }

  lemma CanPlace(cfg: Config, db: Db, node: string, used: int, e: Event)
    requires OneNode(db, node, used) && used <= 50
    requires e.Place? && e.node == node && e.ports == [] && e.id in db.sandboxes
    requires db.sandboxes[e.id].spec == HALF && db.sandboxes[e.id].status.phase.Pending?
    ensures Enabled(cfg, db, e)
  {
    HalfNeeds();
    assert Feasible(cfg, db, HALF, node);
    assert forall m :: Feasible(cfg, db, HALF, m) ==> m == node;
    assert AllocationOk(cfg, [], UsedPorts(db, node), []);
  }

  lemma PlacedRow(cfg: Config, db: Db, node: string, e: Event)
    requires OneNode(db, node, 0) && Enabled(cfg, db, e)
    requires e.Place? && e.node == node && e.reply.created && db.sandboxes[e.id].spec == HALF
    ensures var d := Apply(cfg, db, e);
      && d.nodes == db.nodes && d.resources == map[node := Row100(50)] && d.sandboxes.Keys == db.sandboxes.Keys
  {
    HalfNeeds();
    PlaceEffects(cfg, db, e);
    var d := Apply(cfg, db, e);
    assert Charge(Row100(0), Demand(50, 0)) == Row100(50);
    assert db.resources[node := Row100(50)] == map[node := Row100(50)];
    assert forall k :: k in d.sandboxes.Keys <==> k in db.sandboxes.Keys;
  }

  lemma PlacedLoad(cfg: Config, db: Db, node: string, e: Event)
    requires OneNode(db, node, 0) && Enabled(cfg, db, e)
    requires e.Place? && e.node == node && e.reply.created && db.sandboxes[e.id].spec == HALF
    ensures Load(Apply(cfg, db, e), node, Cpu) == 50
  {
    HalfNeeds();
    PlaceLoads(cfg, db, e, node, Cpu);
  }

  lemma Placed(cfg: Config, db: Db, node: string, e: Event) returns (d: Db)
    requires Reached(cfg, db) && OneNode(db, node, 0) && Enabled(cfg, db, e)
    requires e.Place? && e.node == node && e.reply.created && db.sandboxes[e.id].spec == HALF
    ensures Reached(cfg, d) && OneNode(d, node, 50) && d.sandboxes.Keys == db.sandboxes.Keys
  {
    d := Apply(cfg, db, e);
    ReachedNext(cfg, db, e);
    StepKeeps(cfg, db, e);
    PlacedRow(cfg, db, node, e);
    PlacedLoad(cfg, db, node, e);
  }

  function PlaceHalf(id: string, node: string, created: bool): Event {
    Place(id, node, [], "", "", CreateReply(created, "", ""))
  }

  lemma FirstPlaced(cfg: Config, node: string) returns (db: Db)
    requires !Blank(node)
    ensures Reached(cfg, db) && OneNode(db, node, 50) && db.sandboxes.Keys == {"a"}
  {
    var empty := Prepared(cfg, node);
    var one := Created(cfg, empty, node, 0, "a");
    CanPlace(cfg, one, node, 0, PlaceHalf("a", node, true));
    db := Placed(cfg, one, node, PlaceHalf("a", node, true));
  }

  /** Both halves are given away and the second create is about to fail. */
  lemma BeforeFailure(cfg: Config, node: string) returns (db: Db)
    requires !Blank(node)
    ensures Reached(cfg, db) && OneNode(db, node, 50) && Enabled(cfg, db, PlaceHalf("b", node, false))
    ensures db.sandboxes["b"].spec == HALF
  {
    var placed := FirstPlaced(cfg, node);
    db := Created(cfg, placed, node, 50, "b");
    CanPlace(cfg, db, node, 50, PlaceHalf("b", node, false));
  }

  /**
    From the empty database: "a" is placed, the create of "b" fails and "b" is deleted; the ledger ends at 0 under
    "a"'s 50.
   */
  lemma UnderchargeWitness(cfg: Config, node: string) returns (db: Db)
    requires !Blank(node)
    ensures var fails, del := PlaceHalf("b", node, false), Delete("b", true, "");
      && Reached(cfg, db) && Used(db, node, Cpu) == Load(db, node, Cpu) == 50
      && Enabled(cfg, db, fails) && Enabled(cfg, Apply(cfg, db, fails), del)
      && var d := Apply(cfg, Apply(cfg, db, fails), del);
      Reached(cfg, d) && Used(d, node, Cpu) == 0 && Load(d, node, Cpu) == 50
  {
    db := BeforeFailure(cfg, node);
    var fails, del := PlaceHalf("b", node, false), Delete("b", true, "");
    HalfNeeds();
    FailedCreateUndercharges(cfg, db, fails, node, Cpu);
    ReachedNext(cfg, db, fails);
    ReachedNext(cfg, Apply(cfg, db, fails), del);
  }
}
