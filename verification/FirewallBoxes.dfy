/** Runs of publishing, withdrawing and restarting, from descriptions of sandboxes to what happens to packets. */
module FirewallBoxes {
  import opened Netfilter
  import opened FirewallRules
  import opened Firewall
  import opened FirewallRuns
  import opened FirewallPolicy
  import opened FirewallHooks
  import opened FirewallLife

  // ---------- Compiled sandboxes meet what the runs ask for ----------

  lemma CompileIsProper(b: Box)
    ensures Proper(Compile(b))
  {
    forall r | r in FwdRules(b) ensures !r.target.Jump? {
      if r in NameserverRules(b.nameservers) {
        NameserverRulesAreDns(b.nameservers, Packet(0, 0, "", "", 0, 0, false, false, false, {}), r);
      }
    }
  }

  lemma CompiledApart(a: Box, b: Box)
    requires a.short != b.short && a.ip != b.ip
    ensures Apart(Compile(a), Compile(b))
  {
    forall r | r in EarlySet(Compile(a)) ensures r !in EarlySet(Compile(b)) {
      assert r.cond.ip == a.ip;
    }
  }

  lemma CompileIsOrdinary(b: Box)
    ensures Ordinary(Compile(b))
  {
    CompileIsProper(b);
    forall r | r in EarlySet(Compile(b)) ensures !Global(r) {
      assert r.cond.DstService?;
    }
  }

  // ---------- Runs ----------

  datatype BoxOp = Publish(b: Box) | Withdraw(b: Box) | Restart(names: seq<string>)

  function PlanOp(op: BoxOp): LifeOp {
    match op
    case Publish(b) => Change(Install(Compile(b)))
    case Withdraw(b) => Change(Uninstall(Compile(b)))
    case Restart(names) => LifeOp.Restart(names)
  }

  function PlanOps(ops: seq<BoxOp>): (r: seq<LifeOp>)
    ensures |r| == |ops|
  {
    seq(|ops|, i requires 0 <= i < |ops| => PlanOp(ops[i]))
  }

  function BoxesAfter(live: seq<Box>, op: BoxOp): seq<Box> {
    match op
    case Publish(b) => live + [b]
    case Withdraw(b) => Removed(live, b)
    case Restart(_) => live
  }

  function BoxesRun(live: seq<Box>, ops: seq<BoxOp>): seq<Box>
    decreases |ops|
  {
    if ops == [] then live else BoxesRun(BoxesAfter(live, ops[0]), ops[1..])
  }

  predicate Distinct(a: Box, b: Box) {
    a.short != b.short && a.ip != b.ip
  }

  ghost predicate AllDistinct(live: seq<Box>) {
    forall i, j :: 0 <= i < j < |live| ==> Distinct(live[i], live[j])
  }

  /**
    A sandbox is published with an address and chains that neither a live one nor the rest of the table has; only a live
    one is withdrawn; a restart may come at any time.
   */
  ghost predicate CanDoBox(base: Table, live: seq<Box>, op: BoxOp) {
    match op
    case Publish(b) => Fresh(base, Compile(b)) && forall c :: c in live ==> Distinct(c, b)
    case Withdraw(b) => b in live
    case Restart(names) => ForeignHooks(names)
  }

  ghost predicate CanRunBoxes(base: Table, live: seq<Box>, ops: seq<BoxOp>)
    decreases |ops|
  {
    ops == [] || (CanDoBox(base, live, ops[0]) && CanRunBoxes(base, BoxesAfter(live, ops[0]), ops[1..]))
  }

  lemma MemberDistinct(live: seq<Box>, c: Box)
    requires AllDistinct(live) && live != [] && c in live[..|live| - 1]
    ensures Distinct(c, live[|live| - 1])
  {
    var i :| 0 <= i < |live| - 1 && live[i] == c;
    assert Distinct(live[i], live[|live| - 1]);
  }

  lemma PublishedPlans(live: seq<Box>, b: Box)
    ensures Plans(live + [b]) == Plans(live) + [Compile(b)]
  {
  }

  lemma {:induction false} RemovedStayDistinct(live: seq<Box>, b: Box)
    requires AllDistinct(live)
    ensures AllDistinct(Removed(live, b)) && forall c :: c in Removed(live, b) ==> c in live
  {
    if live == [] {
    } else {
      var front, last := live[..|live| - 1], live[|live| - 1];
      RemovedStayDistinct(front, b);
      assert live == front + [last];
      if last != b {
        var rest := Removed(front, b);
        forall i | 0 <= i < |rest| ensures Distinct(rest[i], last) {
          assert rest[i] in rest;
          MemberDistinct(live, rest[i]);
        }
      }
    }
  }

  lemma {:induction false} RemovedPlans(live: seq<Box>, b: Box)
    requires AllDistinct(live) && b in live
    ensures Removed(Plans(live), Compile(b)) == Plans(Removed(live, b))
  {
    var front, last := live[..|live| - 1], live[|live| - 1];
    assert live == front + [last];
    PublishedPlans(front, last);
    assert Plans(live)[..|live| - 1] == Plans(front);
    if last != b {
      MemberDistinct(live, b);
      RemovedPlans(front, b);
      PublishedPlans(Removed(front, b), last);
    }
  }

  lemma PublishBox(base: Table, live: seq<Box>, b: Box)
    requires AllDistinct(live) && CanDoBox(base, live, Publish(b))
    ensures CanChange(base, Plans(live), PlanOp(Publish(b))) && AllDistinct(live + [b])
  {
    CompileIsOrdinary(b);
    forall c | c in Plans(live) ensures Apart(c, Compile(b)) {
      var i :| 0 <= i < |live| && Plans(live)[i] == c;
      assert live[i] in live;
      CompiledApart(live[i], b);
    }
    forall i | 0 <= i < |live| ensures Distinct(live[i], b) {
      assert live[i] in live;
    }
  }

  lemma DoBox(base: Table, live: seq<Box>, op: BoxOp)
    requires AllDistinct(live) && CanDoBox(base, live, op)
    ensures CanChange(base, Plans(live), PlanOp(op))
    ensures AllDistinct(BoxesAfter(live, op)) && LiveNext(Plans(live), PlanOp(op)) == Plans(BoxesAfter(live, op))
  {
    match op
    case Publish(b) =>
      PublishBox(base, live, b);
      PublishedPlans(live, b);
    case Withdraw(b) =>
      RemovedStayDistinct(live, b);
      RemovedPlans(live, b);
      var i :| 0 <= i < |live| && live[i] == b;
      assert Plans(live)[i] == Compile(b);
    case Restart(_) =>
  }

  /** A run of sandboxes is a run of their plans. */
  lemma {:induction false} RunBoxes(base: Table, live: seq<Box>, ops: seq<BoxOp>)
    requires AllDistinct(live) && CanRunBoxes(base, live, ops)
    ensures CanLive(base, Plans(live), PlanOps(ops))
    ensures AllDistinct(BoxesRun(live, ops)) && LiveLife(Plans(live), PlanOps(ops)) == Plans(BoxesRun(live, ops))
    decreases |ops|
  {
    if ops == [] {
    } else {
      DoBox(base, live, ops[0]);
      RunBoxes(base, BoxesAfter(live, ops[0]), ops[1..]);
      assert PlanOps(ops)[1..] == PlanOps(ops[1..]) && PlanOps(ops)[0] == PlanOp(ops[0]);
    }
  }

  // ---------- What happens to packets ----------

  /** Every verdict the firewall owes about one packet. */
  ghost predicate Decides(t: Table, boxes: seq<Box>, p: Packet, depth: nat)
    requires Forward in t && Input in t
  {
    forall i :: 0 <= i < |boxes| ==>
      && (p.src == boxes[i].ip ==> Eval(t, t[Forward], p, depth) == Policy(boxes[i], p))
      && (p.src == boxes[i].ip && p.inIf == boxes[i].bridgeIf ==>
        Eval(t, t[Input], p, depth) == HostPolicy(boxes[i], p))
      && (Outside(boxes, p) && PublishedTo(boxes[i], p) ==> Eval(t, t[Forward], p, depth) == Accepted)
  }

  /** From no live sandbox. */
  predicate Outside(boxes: seq<Box>, p: Packet) {
    forall j :: 0 <= j < |boxes| ==> p.src != boxes[j].ip
  }

  lemma ServingDecides(t: Table, boxes: seq<Box>, k: nat, p: Packet, depth: nat)
    requires Serves(t, Plans(boxes), k) && Entered(t) && AllDistinct(boxes) && 2 <= depth
    ensures Decides(t, boxes, p, depth)
  {
    forall i, j | 0 <= i < |boxes| && 0 <= j < |boxes| && i != j ensures boxes[i].ip != boxes[j].ip {
      assert if i < j then Distinct(boxes[i], boxes[j]) else Distinct(boxes[j], boxes[i]);
    }
    forall i | 0 <= i < |boxes| && p.src == boxes[i].ip ensures Eval(t, t[Forward], p, depth) == Policy(boxes[i], p) {
      SandboxTraffic(t, boxes, k, i, p, depth);
    }
    forall i | 0 <= i < |boxes| && p.src == boxes[i].ip && p.inIf == boxes[i].bridgeIf
      ensures Eval(t, t[Input], p, depth) == HostPolicy(boxes[i], p)
    {
      SandboxToHost(t, boxes, k, i, p, depth);
    }
    forall i | 0 <= i < |boxes| && Outside(boxes, p) && PublishedTo(boxes[i], p)
      ensures Eval(t, t[Forward], p, depth) == Accepted
    {
      PublishedIsReachable(t, boxes, k, i, p, depth);
    }
  }

  lemma GoodDecides(t: Table, base: Table, boxes: seq<Box>, p: Packet, depth: nat)
    requires Good(t, base, Plans(boxes)) && AllDistinct(boxes) && 2 <= depth
    ensures Forward in t && Input in t && Decides(t, boxes, p, depth)
  {
    var k :| Serves(t, Plans(boxes), k);
    ServingDecides(t, boxes, k, p, depth);
  }

  /** From bare global chains, after any publications, withdrawals and restarts, for every packet. */
  lemma PolicyAfterAnyRun(base: Table, ops: seq<BoxOp>, p: Packet, depth: nat)
    requires Hooked(base) && Entered(base) && base[SandboxFwd] == [] && base[SandboxIn] == []
    requires CanRunBoxes(base, [], ops) && 2 <= depth
    ensures var t := TableLife(base, PlanOps(ops));
      Forward in t && Input in t && Decides(t, BoxesRun([], ops), p, depth)
  {
    BareIsGood(base);
    assert Plans([]) == [];
    RunBoxes(base, [], ops);
    LifeIsGood(base, base, [], PlanOps(ops));
    GoodDecides(TableLife(base, PlanOps(ops)), base, BoxesRun([], ops), p, depth);
  }

  /**
    The same from a table that has never seen the agent, whatever rules it holds: the first start makes the bare
    chains.
   */
  lemma PolicyFromFirstStart(kernel: Table, names: seq<string>, ops: seq<BoxOp>, p: Packet, depth: nat)
    requires Forward in kernel && Input in kernel && SandboxFwd !in kernel && SandboxIn !in kernel
    requires ForeignHooks(names)
    requires CanRunBoxes(EnsureGlobal(kernel, names), [], ops) && 2 <= depth
    ensures var t := TableLife(EnsureGlobal(kernel, names), PlanOps(ops));
      Forward in t && Input in t && Decides(t, BoxesRun([], ops), p, depth)
  {
    EnsureGlobalStarts(kernel, names);
    PolicyAfterAnyRun(EnsureGlobal(kernel, names), ops, p, depth);
  }

  // ---------- Round trip ----------

  lemma {:induction false} LifeThenOne(t: Table, ops: seq<LifeOp>, op: LifeOp)
    ensures TableLife(t, ops + [op]) == TableNext(TableLife(t, ops), op)
    decreases |ops|
  {
    if ops == [] {
      assert ops + [op] == [op] && [op][1..] == [];
    } else {
      assert (ops + [op])[1..] == ops[1..] + [op];
      LifeThenOne(TableNext(t, ops[0]), ops[1..], op);
    }
  }

  lemma LifeAround(t: Table, b: Plan, ops: seq<LifeOp>)
    ensures TableLife(t, [Change(Install(b))] + (ops + [Change(Uninstall(b))])) ==
      DeleteRules(TableLife(Apply(t, b), ops), b)
  {
    var all := [Change(Install(b))] + (ops + [Change(Uninstall(b))]);
    assert all[0] == Change(Install(b)) && all[1..] == ops + [Change(Uninstall(b))];
    LifeThenOne(Apply(t, b), ops, Change(Uninstall(b)));
  }

  lemma PlanOpsAround(b: Box, ops: seq<BoxOp>)
    ensures PlanOps([Publish(b)] + ops + [Withdraw(b)])
      == [Change(Install(Compile(b)))] + (PlanOps(ops) + [Change(Uninstall(Compile(b)))])
  {
  }

  predicate AboutOthers(ops: seq<BoxOp>, b: Box) {
    forall i :: 0 <= i < |ops| && !ops[i].Restart? ==> ops[i].b.short != b.short
  }

  lemma OthersAvoid(b: Box, ops: seq<BoxOp>)
    requires AboutOthers(ops, b)
    ensures forall o :: o in PlanOps(ops) ==> Avoids(o, Compile(b))
  {
    forall o | o in PlanOps(ops) ensures Avoids(o, Compile(b)) {
      var i :| 0 <= i < |ops| && PlanOps(ops)[i] == o;
      assert !ops[i].Restart? ==> o.op.plan.short == ops[i].b.short;
    }
  }

  lemma FirstThenRest(base: Table, live: seq<Box>, op: BoxOp, ops: seq<BoxOp>)
    requires CanRunBoxes(base, live, [op] + ops)
    ensures CanDoBox(base, live, op) && CanRunBoxes(base, BoxesAfter(live, op), ops)
  {
    assert ([op] + ops)[0] == op && ([op] + ops)[1..] == ops;
  }

  /**
    Publishing a sandbox, any run for others with any restarts, and withdrawing it leaves exactly what the rest alone
    would have left.
   */
  lemma PublishThenWithdraw(t: Table, base: Table, live: seq<Box>, b: Box, ops: seq<BoxOp>)
    requires Good(t, base, Plans(live)) && AllDistinct(live)
    requires CanRunBoxes(base, live, [Publish(b)] + ops) && AboutOthers(ops, b)
    ensures TableLife(t, PlanOps([Publish(b)] + ops + [Withdraw(b)])) == TableLife(t, PlanOps(ops))
  {
    FirstThenRest(base, live, Publish(b), ops);
    DoBox(base, live, Publish(b));
    RunBoxes(base, live + [b], ops);
    PublishedPlans(live, b);
    OthersAvoid(b, ops);
    LifeRoundTrip(t, base, Plans(live), Compile(b), PlanOps(ops));
    PlanOpsAround(b, ops);
    LifeAround(t, Compile(b), PlanOps(ops));
  }
}
