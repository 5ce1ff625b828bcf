/**
  Any run of installing and removing sandboxes: the table is a function of the live ones, and a removal undoes its
  installation.
 */
module FirewallRuns {
  import opened Netfilter
  import opened FirewallRules
  import opened Firewall

  ghost predicate LiveOk(base: Table, live: seq<Plan>) {
    && Hooked(base)
    && (forall i :: 0 <= i < |live| ==> Proper(live[i]) && Fresh(base, live[i]))
    && AllApart(live)
  }

  ghost predicate AllApart(live: seq<Plan>) {
    forall i, j :: 0 <= i < j < |live| ==> Apart(live[i], live[j])
  }

  datatype Op = Install(plan: Plan) | Uninstall(plan: Plan)

  function Removed<T(==)>(live: seq<T>, b: T): seq<T> {
    if live == [] then []
    else if live[|live| - 1] == b then live[..|live| - 1]
    else Removed(live[..|live| - 1], b) + [live[|live| - 1]]
  }

  /** A sandbox is installed with chains and an address nobody else has, and only a live one is removed. */
  ghost predicate CanDo(base: Table, live: seq<Plan>, op: Op) {
    match op
    case Install(b) => Proper(b) && Fresh(base, b) && forall c :: c in live ==> Apart(c, b)
    case Uninstall(b) => b in live
  }

  function LiveAfter(live: seq<Plan>, op: Op): seq<Plan> {
    match op
    case Install(b) => live + [b]
    case Uninstall(b) => Removed(live, b)
  }

  function Perform(t: Table, op: Op): Table {
    match op
    case Install(b) => Apply(t, b)
    case Uninstall(b) => DeleteRules(t, b)
  }

  ghost predicate CanRun(base: Table, live: seq<Plan>, ops: seq<Op>)
    decreases |ops|
  {
    ops == [] || (CanDo(base, live, ops[0]) && CanRun(base, LiveAfter(live, ops[0]), ops[1..]))
  }

  function LiveRun(live: seq<Plan>, ops: seq<Op>): seq<Plan>
    decreases |ops|
  {
    if ops == [] then live else LiveRun(LiveAfter(live, ops[0]), ops[1..])
  }

  function TableRun(t: Table, ops: seq<Op>): Table
    decreases |ops|
  {
    if ops == [] then t else TableRun(Perform(t, ops[0]), ops[1..])
  }

  // ---------- Freshness and tidiness along Canon ----------

  lemma AddedRules(t: Table, c: Plan, k: Chain, r: Rule)
    requires Proper(c) && Hooked(t) && k in Add(t, c) && r in Add(t, c)[k]
    ensures (k in t && r in t[k]) || (k == Forward && r in c.early) || (k == SandboxFwd && r == c.fwdJump)
      || (k == SandboxIn && r == c.inJump) || !r.target.Jump?
  {
    BlockMembers(c.early, r);
    AppendNewMembers([], c.fwd, r);
    AppendNewMembers([], c.inn, r);
    assert r in t[Forward][1..] ==> r in t[Forward];
  }

  lemma FreshAdd(t: Table, b: Plan, c: Plan)
    requires Proper(b) && Proper(c) && Fresh(t, b) && Apart(b, c)
    ensures Fresh(Add(t, c), b)
  {
    var a := Add(t, c);
    forall k: Chain, r: Rule | k in a && r in a[k]
      ensures r.target != Jump(Fwd(b.short)) && r.target != Jump(In(b.short))
    {
      AddedRules(t, c, k, r);
    }
    assert forall r :: r in t[Forward][1..] ==> r in t[Forward];
    forall r | r in EarlySet(b) ensures r !in a[Forward] {
      BlockMembers(c.early, r);
      assert r in c.early ==> r in EarlySet(c);
    }
  }

  lemma {:induction false} FreshCanon(base: Table, live: seq<Plan>, b: Plan)
    requires LiveOk(base, live) && Proper(b) && Fresh(base, b) && forall c :: c in live ==> Apart(c, b)
    ensures Fresh(Canon(base, live), b)
  {
    if live == [] {
    } else {
      var front, last := live[..|live| - 1], live[|live| - 1];
      assert last in live && forall c :: c in front ==> c in live;
      FreshCanon(base, front, b);
      FreshAdd(Canon(base, front), b, last);
    }
  }

  /** Whoever jumps to a sandbox's chains does so from where it belongs. */
  ghost predicate JumpsTidy(t: Table, b: Plan) {
    forall k: Chain, r: Rule :: k in t && r in t[k] ==>
      && (r.target == Jump(Fwd(b.short)) ==> k == SandboxFwd && r == b.fwdJump)
      && (r.target == Jump(In(b.short)) ==> k == SandboxIn && r == b.inJump)
  }

  lemma JumpsTidyNew(t: Table, b: Plan)
    requires Proper(b) && Fresh(t, b)
    ensures JumpsTidy(Add(t, b), b)
  {
    var a := Add(t, b);
    forall k: Chain, r: Rule | k in a && r in a[k]
      ensures r.target == Jump(Fwd(b.short)) ==> k == SandboxFwd && r == b.fwdJump
      ensures r.target == Jump(In(b.short)) ==> k == SandboxIn && r == b.inJump
    {
      AddedRules(t, b, k, r);
    }
  }

  lemma JumpsTidyAdd(t: Table, b: Plan, c: Plan)
    requires Proper(b) && Proper(c) && Hooked(t) && JumpsTidy(t, b) && b.short != c.short
    ensures JumpsTidy(Add(t, c), b)
  {
    var a := Add(t, c);
    forall k: Chain, r: Rule | k in a && r in a[k]
      ensures r.target == Jump(Fwd(b.short)) ==> k == SandboxFwd && r == b.fwdJump
      ensures r.target == Jump(In(b.short)) ==> k == SandboxIn && r == b.inJump
    {
      AddedRules(t, c, k, r);
    }
  }

  /** How often a rule stands in FORWARD after an installation. */
  lemma AddCounts(t: Table, c: Plan, r: Rule)
    requires Hooked(t) && r != FWD_HOOK
    ensures multiset(Add(t, c)[Forward])[r] == multiset(Block(c.early))[r] + multiset(t[Forward])[r]
  {
    assert t[Forward] == [FWD_HOOK] + t[Forward][1..];
    assert Add(t, c)[Forward] == [FWD_HOOK] + Block(c.early) + t[Forward][1..];
  }

  lemma TidyNew(t: Table, b: Plan)
    requires Proper(b) && Fresh(t, b)
    ensures Tidy(Add(t, b), b)
  {
    var a := Add(t, b);
    forall r | r in EarlySet(b) ensures AtMostOnce(a[Forward], r) {
      AddCounts(t, b, r);
      BlockMembers(b.early, r);
    }
    JumpsTidyNew(t, b);
    assert b.fwdJump !in t[SandboxFwd] && b.inJump !in t[SandboxIn];
  }

  lemma TidyAdd(t: Table, b: Plan, c: Plan)
    requires Proper(b) && Proper(c) && Tidy(t, b) && Apart(b, c)
    ensures Tidy(Add(t, c), b)
  {
    var a := Add(t, c);
    forall r | r in EarlySet(b) ensures AtMostOnce(a[Forward], r) {
      AddCounts(t, c, r);
      BlockMembers(c.early, r);
      assert r in c.early ==> r in EarlySet(c);
    }
    JumpsTidyAdd(t, b, c);
  }

  lemma LiveFront(base: Table, live: seq<Plan>)
    requires LiveOk(base, live) && live != []
    ensures var front, last := live[..|live| - 1], live[|live| - 1];
      && LiveOk(base, front) && Proper(last) && Fresh(base, last)
      && (forall c :: c in front ==> Proper(c) && Apart(c, last) && Apart(last, c) && c != last)
  {
    var front, last := live[..|live| - 1], live[|live| - 1];
    forall c | c in front ensures Proper(c) && Apart(c, last) {
      var i :| 0 <= i < |front| && front[i] == c;
      assert live[i] == c;
    }
  }

  lemma {:induction false} TidyCanon(base: Table, live: seq<Plan>, b: Plan)
    requires LiveOk(base, live) && b in live
    ensures Proper(b) && Tidy(Canon(base, live), b)
  {
    var front, last := live[..|live| - 1], live[|live| - 1];
    LiveFront(base, live);
    if b == last {
      FreshCanon(base, front, b);
      TidyNew(Canon(base, front), b);
    } else {
      TidyCanon(base, front, b);
      TidyAdd(Canon(base, front), b, last);
    }
  }

  /** Taking one sandbox out of the table is the table without it. */
  lemma {:induction false} SubCanon(base: Table, live: seq<Plan>, b: Plan)
    requires LiveOk(base, live) && b in live
    ensures Sub(Canon(base, live), b) == Canon(base, Removed(live, b))
  {
    var front, last := live[..|live| - 1], live[|live| - 1];
    LiveFront(base, live);
    if b == last {
      FreshCanon(base, front, b);
      SubAdd(Canon(base, front), b);
    } else {
      SubCanon(base, front, b);
      SubAddOther(Canon(base, front), b, last);
      assert (Removed(front, b) + [last])[..|Removed(front, b)|] == Removed(front, b);
    }
  }

  lemma {:induction false} RemovedMembers(live: seq<Plan>, b: Plan, c: Plan)
    ensures c in Removed(live, b) ==> c in live
    ensures c in live && c != b ==> c in Removed(live, b)
    ensures |Removed(live, b)| <= |live|
  {
    if live == [] {
    } else {
      assert live == live[..|live| - 1] + [live[|live| - 1]];
      RemovedMembers(live[..|live| - 1], b, c);
    }
  }

  lemma ApartFromLast(live: seq<Plan>)
    requires AllApart(live) && live != []
    ensures var front, last := live[..|live| - 1], live[|live| - 1];
      AllApart(front) && forall c :: c in front ==> Apart(c, last)
  {
    var n := |live| - 1;
    forall c | c in live[..n] ensures Apart(c, live[n]) {
      var i :| 0 <= i < n && live[i] == c;
    }
  }

  lemma AllApartAppend(live: seq<Plan>, b: Plan)
    requires AllApart(live) && forall c :: c in live ==> Apart(c, b)
    ensures AllApart(live + [b])
  {
    forall i | 0 <= i < |live| ensures Apart(live[i], b) {
      assert live[i] in live;
    }
  }

  lemma {:induction false} AllApartRemoved(live: seq<Plan>, b: Plan)
    requires AllApart(live)
    ensures AllApart(Removed(live, b))
  {
    if live == [] || live[|live| - 1] == b {
      assert live != [] ==> AllApart(live[..|live| - 1]);
    } else {
      var front, last := live[..|live| - 1], live[|live| - 1];
      ApartFromLast(live);
      AllApartRemoved(front, b);
      forall c | c in Removed(front, b) ensures Apart(c, last) {
        RemovedMembers(front, b, c);
      }
      AllApartAppend(Removed(front, b), last);
    }
  }

  lemma {:induction false} RemovedOnce(live: seq<Plan>, b: Plan)
    requires AllApart(live) && b in live
    ensures b !in Removed(live, b)
  {
    var front, last := live[..|live| - 1], live[|live| - 1];
    assert live == front + [last];
    ApartFromLast(live);
    if last != b {
      RemovedOnce(front, b);
    }
  }

  lemma RemovedOk(base: Table, live: seq<Plan>, b: Plan)
    requires LiveOk(base, live)
    ensures LiveOk(base, Removed(live, b))
  {
    AllApartRemoved(live, b);
    var rest := Removed(live, b);
    forall i | 0 <= i < |rest| ensures Proper(rest[i]) && Fresh(base, rest[i]) {
      RemovedMembers(live, b, rest[i]);
      var j :| 0 <= j < |live| && live[j] == rest[i];
    }
  }

  // ---------- Runs ----------

  lemma LiveOkExtends(base: Table, live: seq<Plan>, b: Plan)
    requires LiveOk(base, live) && CanDo(base, live, Install(b))
    ensures LiveOk(base, live + [b])
  {
    forall i | 0 <= i < |live| ensures Apart(live[i], b) {
      assert live[i] in live;
    }
  }

  lemma InstallIsCanon(base: Table, live: seq<Plan>, b: Plan)
    requires LiveOk(base, live) && CanDo(base, live, Install(b))
    ensures LiveOk(base, live + [b]) && Apply(Canon(base, live), b) == Canon(base, live + [b])
  {
    LiveOkExtends(base, live, b);
    FreshCanon(base, live, b);
    ApplyIsAdd(Canon(base, live), b);
    assert (live + [b])[..|live|] == live;
  }

  lemma UninstallIsCanon(base: Table, live: seq<Plan>, b: Plan)
    requires LiveOk(base, live) && b in live
    ensures LiveOk(base, Removed(live, b)) && DeleteRules(Canon(base, live), b) == Canon(base, Removed(live, b))
  {
    TidyCanon(base, live, b);
    DeleteIsSub(Canon(base, live), b);
    SubCanon(base, live, b);
    RemovedOk(base, live, b);
  }

  lemma StepIsCanon(base: Table, live: seq<Plan>, op: Op)
    requires LiveOk(base, live) && CanDo(base, live, op)
    ensures LiveOk(base, LiveAfter(live, op))
    ensures Perform(Canon(base, live), op) == Canon(base, LiveAfter(live, op))
  {
    match op
    case Install(b) => InstallIsCanon(base, live, b);
    case Uninstall(b) => UninstallIsCanon(base, live, b);
  }

  /** After any run the table is the canonical one of the sandboxes that are live. */
  lemma {:induction false} RunIsCanon(base: Table, live: seq<Plan>, ops: seq<Op>)
    requires LiveOk(base, live) && CanRun(base, live, ops)
    ensures LiveOk(base, LiveRun(live, ops))
    ensures TableRun(Canon(base, live), ops) == Canon(base, LiveRun(live, ops))
    decreases |ops|
  {
    if ops == [] {
    } else {
      StepIsCanon(base, live, ops[0]);
      RunIsCanon(base, LiveAfter(live, ops[0]), ops[1..]);
    }
  }

  predicate Spares(ops: seq<Op>, b: Plan) {
    forall i :: 0 <= i < |ops| ==> ops[i].plan != b
  }

  lemma {:induction false} RemovedSwap(live: seq<Plan>, b: Plan, c: Plan)
    ensures Removed(Removed(live, b), c) == Removed(Removed(live, c), b)
  {
    if live == [] {
    } else {
      var front, last := live[..|live| - 1], live[|live| - 1];
      RemovedSwap(front, b, c);
      assert (Removed(front, b) + [last])[..|Removed(front, b)|] == Removed(front, b);
      assert (Removed(front, c) + [last])[..|Removed(front, c)|] == Removed(front, c);
    }
  }

  lemma StepSwap(base: Table, live: seq<Plan>, op: Op, b: Plan)
    requires CanDo(base, live, op) && op.plan != b
    ensures CanDo(base, Removed(live, b), op)
    ensures Removed(LiveAfter(live, op), b) == LiveAfter(Removed(live, b), op)
    ensures b in live ==> b in LiveAfter(live, op)
  {
    match op
    case Install(c) =>
      assert (live + [c])[..|live|] == live;
      forall d | d in Removed(live, b) ensures Apart(d, c) {
        RemovedMembers(live, b, d);
      }
    case Uninstall(c) =>
      RemovedSwap(live, b, c);
      RemovedMembers(live, b, c);
      RemovedMembers(live, c, b);
  }

  lemma {:induction false} RunSwap(base: Table, live: seq<Plan>, ops: seq<Op>, b: Plan)
    requires CanRun(base, live, ops) && Spares(ops, b) && b in live
    ensures CanRun(base, Removed(live, b), ops)
    ensures Removed(LiveRun(live, ops), b) == LiveRun(Removed(live, b), ops)
    ensures b in LiveRun(live, ops)
    decreases |ops|
  {
    if ops == [] {
    } else {
      StepSwap(base, live, ops[0], b);
      assert forall i :: 0 <= i < |ops| - 1 ==> ops[1..][i] == ops[i + 1];
      RunSwap(base, LiveAfter(live, ops[0]), ops[1..], b);
    }
  }

  /**
    Round trip: install b, let anything happen to other sandboxes, remove b. Every chain is then what it would have been
    without b, rule for rule and in order; with nothing in between, it is what it was before.
   */
  lemma RoundTrip(base: Table, live: seq<Plan>, b: Plan, ops: seq<Op>)
    requires LiveOk(base, live) && CanDo(base, live, Install(b)) && CanRun(base, live + [b], ops) && Spares(ops, b)
    ensures DeleteRules(TableRun(Apply(Canon(base, live), b), ops), b) == TableRun(Canon(base, live), ops)
    ensures DeleteRules(Apply(Canon(base, live), b), b) == Canon(base, live)
  {
    StepIsCanon(base, live, Install(b));
    StepIsCanon(base, live + [b], Uninstall(b));
    assert Removed(live + [b], b) == live by {
      assert (live + [b])[..|live|] == live;
    }
    RunIsCanon(base, live + [b], ops);
    RunSwap(base, live + [b], ops, b);
    RunIsCanon(base, live, ops);
    StepIsCanon(base, LiveRun(live + [b], ops), Uninstall(b));
  }
}
