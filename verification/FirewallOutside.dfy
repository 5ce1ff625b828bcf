/**
  Traffic that is not a sandbox's own, over any run with restarts: what comes in from outside, that nothing else is
  opened, and that every configured hook chain hands sandboxes' packets to their policy.
 */
module FirewallOutside {
  import opened Strings
  import opened Netfilter
  import opened FirewallRules
  import opened Firewall
  import opened FirewallRuns
  import opened FirewallPolicy
  import opened FirewallHooks
  import opened FirewallLife
  import opened FirewallBoxes

  // ---------- The two global accepts stay in front ----------

  /** The k rules behind the hook accept, and the global accepts are among them. */
  ghost predicate Opens(rs: seq<Rule>, k: nat) {
    && 1 + k <= |rs| && rs[0] == FWD_HOOK
    && (forall r :: r in rs[1..1 + k] ==> r.target == Accept)
    && ESTABLISHED in rs[1..1 + k] && MARKED in rs[1..1 + k]
  }

  ghost predicate Welcomes(t: Table) {
    Forward in t && exists k :: Opens(t[Forward], k)
  }

  lemma PrefixBehindBlock(head: Rule, block: seq<Rule>, rs: seq<Rule>, k: nat)
    requires 1 + k <= |rs|
    ensures ([head] + block + rs[1..])[1..1 + |block| + k] == block + rs[1..1 + k]
  {
  }

  lemma AddWelcomes(t: Table, b: Plan)
    requires Hooked(t) && Welcomes(t) && Proper(b)
    ensures Welcomes(Add(t, b))
  {
    var k :| Opens(t[Forward], k);
    var block, tail := Block(b.early), t[Forward][1..];
    var longer := [FWD_HOOK] + block + tail;
    PrefixBehindBlock(FWD_HOOK, block, t[Forward], k);
    BlockAccepts(b);
    assert Opens(longer, |block| + k);
  }

  lemma SubWelcomes(t: Table, b: Plan)
    requires Hooked(t) && Welcomes(t) && Ordinary(b)
    ensures Welcomes(Sub(t, b))
  {
    var k :| Opens(t[Forward], k);
    var k', lead := SubForward(t, b, k);
    SubKeepsHooks(t, b);
    assert Global(ESTABLISHED) && Global(MARKED);
    assert Opens(Sub(t, b)[Forward], k');
  }

  lemma ShapedOpens(rs: seq<Rule>, k: nat)
    requires Shaped(rs, k, {}) && 2 <= k && rs[1..3] == [ESTABLISHED, MARKED]
    ensures Opens(rs, k)
  {
    var front, two := rs[1..1 + k], rs[1..3];
    assert front[0] == two[0] && front[1] == two[1];
  }

  lemma EnsureWelcomes(t: Table, names: seq<string>)
    requires Hooked(t) && Input in t && ForeignHooks(names)
    ensures Welcomes(EnsureGlobal(t, names))
  {
    EnsureGlobalEffect(t, names);
    var k' := GlobalsKeepShape(t[Forward], 0, {});
    ShapedOpens(EnsureGlobal(t, names)[Forward], k');
  }

  lemma ChangeWelcomes(t: Table, base: Table, live: seq<Plan>, op: LifeOp)
    requires Good(t, base, live) && CanChange(base, live, op) && Welcomes(t)
    ensures Welcomes(TableNext(t, op))
  {
    match op
    case Change(Install(b)) =>
      InstallGood(t, base, live, b);
      AddWelcomes(t, b);
    case Change(Uninstall(b)) =>
      UninstallGood(t, base, live, b);
      FamilyMember(live, b, b);
      SubWelcomes(t, b);
    case Restart(names) => EnsureWelcomes(t, names);
  }

  lemma {:induction false} LifeWelcomes(t: Table, base: Table, live: seq<Plan>, ops: seq<LifeOp>)
    requires Good(t, base, live) && CanLive(base, live, ops) && Welcomes(t)
    ensures Welcomes(TableLife(t, ops))
    decreases |ops|
  {
    if ops == [] {
    } else {
      ChangeGood(t, base, live, ops[0]);
      ChangeWelcomes(t, base, live, ops[0]);
      LifeWelcomes(TableNext(t, ops[0]), base, LiveNext(live, ops[0]), ops[1..]);
    }
  }

  // ---------- Packets from no sandbox ----------

  /** From no live sandbox over its own bridge. */
  predicate Elsewhere(boxes: seq<Box>, p: Packet) {
    forall j :: 0 <= j < |boxes| ==> !(p.src == boxes[j].ip && p.inIf == boxes[j].bridgeIf)
  }

  lemma InJumpsNeedSource(boxes: seq<Box>, p: Packet)
    requires Elsewhere(boxes, p)
    ensures forall r :: r in InJumps(Plans(boxes)) ==> !Matches(r.cond, p)
  {
    var jumps := InJumps(Plans(boxes));
    forall r | r in jumps ensures !Matches(r.cond, p) {
      var j :| 0 <= j < |jumps| && jumps[j] == r;
      assert r == InJump(boxes[j]);
    }
  }

  lemma OutsiderPassesInHook(t: Table, boxes: seq<Box>, p: Packet, depth: nat)
    requires SandboxIn in t && t[SandboxIn] == InJumps(Plans(boxes)) && Elsewhere(boxes, p)
    ensures Fire(t, IN_HOOK, p, depth).Continue?
  {
    InJumpsNeedSource(boxes, p);
    if 0 < depth {
      var jumps := t[SandboxIn];
      AllSilent(t, jumps, p, depth - 1);
    }
  }

  lemma NoJumpMatches(t: Table, boxes: seq<Box>, k: nat, p: Packet, depth: nat)
    requires FirewallPolicy.Serves(t, Plans(boxes), k) && Outside(boxes, p)
    ensures Fire(t, FWD_HOOK, p, depth).Continue? && Fire(t, IN_HOOK, p, depth).Continue?
  {
    OutsiderPassesHook(t, boxes, k, p, depth);
    OutsiderPassesInHook(t, boxes, p, depth);
  }

  lemma WelcomesAccepts(t: Table, boxes: seq<Box>, k: nat, p: Packet, depth: nat)
    requires FirewallPolicy.Serves(t, Plans(boxes), k) && Outside(boxes, p) && Welcomes(t)
    requires (p.established || p.marked)
    ensures Eval(t, t[Forward], p, depth) == Accepted
  {
    NoJumpMatches(t, boxes, k, p, depth);
    var n :| Opens(t[Forward], n);
    AcceptedInPrefix(t, t[Forward], n, if p.established then ESTABLISHED else MARKED, p, depth);
  }

  ghost predicate Published(boxes: seq<Box>, p: Packet) {
    exists i :: 0 <= i < |boxes| && PublishedTo(boxes[i], p)
  }

  lemma BroughtIsPublished(boxes: seq<Box>, b: Plan, r: Rule, p: Packet)
    requires b in Plans(boxes) && r in b.early && Matches(r.cond, p)
    ensures Published(boxes, p)
  {
    var i :| 0 <= i < |boxes| && Plans(boxes)[i] == b;
    var m :| 0 <= m < |boxes[i].ports| && EarlyRules(boxes[i])[m] == r;
    SpeaksMeans(boxes[i].ports[m].protocol, p.proto);
    assert boxes[i].ports[m] in boxes[i].ports;
    assert PublishedTo(boxes[i], p);
  }

  /** No rule of the base's FORWARD takes the packet, the global ones aside. */
  ghost predicate BasePasses(base: Table, p: Packet)
  {
    Forward in base ==> forall r :: r in base[Forward] ==> Global(r) || !Matches(r.cond, p)
  }

  lemma KnownRulePasses(t: Table, base: Table, boxes: seq<Box>, r: Rule, p: Packet, depth: nat)
    requires RuleKnown(base, Plans(boxes), Forward, r) && BasePasses(base, p)
    requires Fire(t, FWD_HOOK, p, depth).Continue? && Fire(t, IN_HOOK, p, depth).Continue?
    requires !p.established && !p.marked && !Published(boxes, p)
    ensures Fire(t, r, p, depth).Continue?
  {
    if !Global(r) && Matches(r.cond, p) {
      var b :| b in Plans(boxes) && Brings(b, Forward, r);
      BroughtIsPublished(boxes, b, r, p);
      assert false;
    }
  }

  lemma NothingElseOpens(t: Table, base: Table, boxes: seq<Box>, p: Packet, depth: nat)
    requires Good(t, base, Plans(boxes)) && Outside(boxes, p) && BasePasses(base, p)
    requires !p.established && !p.marked && !Published(boxes, p)
    ensures Eval(t, t[Forward], p, depth) == Continue
  {
    var k :| FirewallPolicy.Serves(t, Plans(boxes), k);
    NoJumpMatches(t, boxes, k, p, depth);
    forall r | r in t[Forward] ensures Fire(t, r, p, depth).Continue? {
      KnownRulePasses(t, base, boxes, r, p, depth);
    }
    AllSilent(t, t[Forward], p, depth);
  }

  /** The verdict on a packet that no sandbox sent, when no rule of others takes it. */
  ghost predicate OutsideVerdict(t: Table, boxes: seq<Box>, p: Packet, depth: nat)
    requires Forward in t
  {
    Eval(t, t[Forward], p, depth) ==
      if p.established || p.marked || Published(boxes, p) then Accepted else Continue
  }

  lemma GoodOutside(t: Table, base: Table, boxes: seq<Box>, p: Packet, depth: nat)
    requires Good(t, base, Plans(boxes)) && Welcomes(t) && Outside(boxes, p) && BasePasses(base, p)
    ensures OutsideVerdict(t, boxes, p, depth)
  {
    var k :| FirewallPolicy.Serves(t, Plans(boxes), k);
    if p.established || p.marked {
      WelcomesAccepts(t, boxes, k, p, depth);
    } else if i :| 0 <= i < |boxes| && PublishedTo(boxes[i], p) {
      PublishedIsReachable(t, boxes, k, i, p, depth);
    } else {
      NothingElseOpens(t, base, boxes, p, depth);
    }
  }

  lemma FirstStartMembers(kernel: Table, names: seq<string>, p: Packet)
    requires Forward in kernel && Input in kernel && SandboxFwd !in kernel && SandboxIn !in kernel
    requires ForeignHooks(names) && forall r :: r in kernel[Forward] ==> !Matches(r.cond, p)
    ensures BasePasses(EnsureGlobal(kernel, names), p) && Welcomes(EnsureGlobal(kernel, names))
  {
    EnsureGlobalEffect(kernel, names);
    EnsureGlobalStarts(kernel, names);
    var t := EnsureGlobal(kernel, names);
    var rs := t[Forward];
    forall r | r in rs ensures r in kernel[Forward] || Global(r) {
      FirstMembers(kernel[Forward], MARKED, r);
      FirstMembers(First(kernel[Forward], MARKED), ESTABLISHED, r);
      FirstMembers(First(First(kernel[Forward], MARKED), ESTABLISHED), FWD_HOOK, r);
    }
    assert rs[1..3] == rs[..3][1..3] && rs[..3][1..3] == [ESTABLISHED, MARKED];
    assert rs[1..1 + 2] == [ESTABLISHED, MARKED] && rs[0] == rs[..3][0];
    assert Opens(rs, 2);
  }

  /**
    From the first start and after any publications, withdrawals and restarts: a packet that no sandbox sent, and that
    no
    foreign rule takes, is accepted if it belongs to a connection, carries the mark or goes to a published port, and is
    otherwise left to whatever FORWARD does by default.
   */
  lemma OutsideAfterAnyRun(kernel: Table, names: seq<string>, ops: seq<BoxOp>, p: Packet, depth: nat)
    requires Forward in kernel && Input in kernel && SandboxFwd !in kernel && SandboxIn !in kernel
    requires ForeignHooks(names) && forall r :: r in kernel[Forward] ==> !Matches(r.cond, p)
    requires CanRunBoxes(EnsureGlobal(kernel, names), [], ops) && Outside(BoxesRun([], ops), p)
    ensures var t := TableLife(EnsureGlobal(kernel, names), PlanOps(ops));
      Forward in t && OutsideVerdict(t, BoxesRun([], ops), p, depth)
  {
    var base := EnsureGlobal(kernel, names);
    EnsureGlobalStarts(kernel, names);
    FirstStartMembers(kernel, names, p);
    BareIsGood(base);
    assert Plans([]) == [];
    RunBoxes(base, [], ops);
    LifeIsGood(base, base, [], PlanOps(ops));
    LifeWelcomes(base, base, [], PlanOps(ops));
    GoodOutside(TableLife(base, PlanOps(ops)), base, BoxesRun([], ops), p, depth);
  }

  /** After any run a packet to the host that no sandbox sent over its bridge meets only what follows the hook. */
  lemma HostAfterAnyRun(base: Table, ops: seq<BoxOp>, p: Packet, depth: nat)
    requires Hooked(base) && Entered(base) && base[SandboxFwd] == [] && base[SandboxIn] == []
    requires CanRunBoxes(base, [], ops) && Elsewhere(BoxesRun([], ops), p)
    ensures var t := TableLife(base, PlanOps(ops));
      Input in t && t[Input] != [] && Eval(t, t[Input], p, depth) == Eval(t, t[Input][1..], p, depth)
  {
    BareIsGood(base);
    assert Plans([]) == [];
    RunBoxes(base, [], ops);
    LifeIsGood(base, base, [], PlanOps(ops));
    var t := TableLife(base, PlanOps(ops));
    OutsiderPassesInHook(t, BoxesRun([], ops), p, depth);
  }

  // ---------- What a sandbox may send, in plain terms ----------

  /** Replies; with egress also name lookups, and whatever is not the host, the bridge or a special-purpose network. */
  predicate MaySend(b: Box, p: Packet) {
    || p.established
    || (b.egress && p.dport == 53 && (p.proto == "udp" || p.proto == "tcp"))
    || (b.egress && !p.localDst && !InCidr(p.dst, b.bridgeCidr) && !Private(p.dst))
  }

  predicate AnswersOn(q: Port, p: Packet) {
    p.sport == q.number && p.proto == if q.protocol == "" then "tcp" else ToLower(q.protocol)
  }

  /** To the host itself: replies, and answers from a published port. */
  predicate MayTellHost(b: Box, p: Packet) {
    p.established || exists q :: q in b.ports && AnswersOn(q, p)
  }

  /** After any run every packet of a live sandbox is accepted exactly if it may be sent, and rejected otherwise. */
  lemma SandboxAfterAnyRun(base: Table, ops: seq<BoxOp>, i: nat, p: Packet, depth: nat)
    requires Hooked(base) && Entered(base) && base[SandboxFwd] == [] && base[SandboxIn] == []
    requires CanRunBoxes(base, [], ops) && 2 <= depth
    requires i < |BoxesRun([], ops)| && p.src == BoxesRun([], ops)[i].ip
    ensures var t, b := TableLife(base, PlanOps(ops)), BoxesRun([], ops)[i];
      && Forward in t && Input in t
      && Eval(t, t[Forward], p, depth) == (if MaySend(b, p) then Accepted else Rejected)
      && (p.inIf == b.bridgeIf ==> Eval(t, t[Input], p, depth) == if MayTellHost(b, p) then Accepted else Rejected)
  {
    PolicyAfterAnyRun(base, ops, p, depth);
    var b := BoxesRun([], ops)[i];
    PolicyInWords(b, p);
  }

  lemma PolicyInWords(b: Box, p: Packet)
    ensures Policy(b, p) == if MaySend(b, p) then Accepted else Rejected
    ensures HostPolicy(b, p) == if MayTellHost(b, p) then Accepted else Rejected
  {
    forall q | q in b.ports ensures AnswersOn(q, p) <==> Speaks(q.protocol, p.proto) && p.sport == q.number {}
  }

  // ---------- The other hook chains ----------

  /** The jump to the sandboxes leads this chain. */
  predicate LedBy(t: Table, c: Chain) {
    c in t && t[c] != [] && t[c][0] == FWD_HOOK
  }

  lemma {:induction false} HookAllKeepsLead(t: Table, names: seq<string>, c: Chain)
    requires Forward in t && ForeignHooks(names) && LedBy(t, c)
    ensures LedBy(HookAll(t, names), c)
  {
    if names == [] {
    } else {
      var front, name := names[..|names| - 1], names[|names| - 1];
      HookAllKeepsLead(t, front, c);
      var u := HookAll(t, front);
      if IsHook(u, name) {
        InsertFirstIs(u, ChainNamed(Normal(name)), FWD_HOOK);
      }
    }
  }

  /** Every listed chain that exists ends up led by the jump. */
  lemma {:induction false} HookAllLeads(t: Table, names: seq<string>, i: nat)
    requires Forward in t && ForeignHooks(names) && i < |names| && IsHook(t, names[i])
    ensures LedBy(HookAll(t, names), ChainNamed(Normal(names[i])))
  {
    var front, name := names[..|names| - 1], names[|names| - 1];
    var u := HookAll(t, front);
    HookAllKeeps(t, front);
    if i == |names| - 1 {
      InsertFirstIs(u, ChainNamed(Normal(name)), FWD_HOOK);
    } else {
      HookAllLeads(t, front, i);
      if IsHook(u, name) {
        InsertFirstIs(u, ChainNamed(Normal(name)), FWD_HOOK);
      }
    }
  }

  /** Chains with a name of their own. */
  predicate OwnName(name: string) {
    name != "" && name !in {"FORWARD", "INPUT", "SANDBOX-FWD", "SANDBOX-IN"}
  }

  /** The table between the global accepts and the hooks. */
  function Accepting(t: Table): Table {
    InsertFirst(InsertFirst(NewChain(NewChain(t, SandboxFwd), SandboxIn), Forward, MARKED), Forward, ESTABLISHED)
  }

  lemma AcceptingKeeps(t: Table, c: Chain)
    requires Forward in t && c.OtherChain? && c in t
    ensures Forward in Accepting(t) && c in Accepting(t) && Accepting(t)[c] == t[c]
    ensures Input in t ==> Input in Accepting(t)
  {
    var t1 := NewChain(NewChain(t, SandboxFwd), SandboxIn);
    InsertFirstIs(t1, Forward, MARKED);
    InsertFirstIs(InsertFirst(t1, Forward, MARKED), Forward, ESTABLISHED);
  }

  lemma InputKeepsLead(t: Table, name: string)
    requires Input in t && LedBy(t, OtherChain(name))
    ensures LedBy(InsertFirst(t, Input, IN_HOOK), OtherChain(name))
  {
    InsertFirstIs(t, Input, IN_HOOK);
  }

  /** Ensuring the global chains puts the jump first in every configured chain that exists, whatever its case. */
  lemma ConfiguredChainsLed(t: Table, names: seq<string>, i: nat, name: string)
    requires Forward in t && Input in t && ForeignHooks(names) && i < |names|
    requires TrimSpace(ToUpper(names[i])) == name && OwnName(name) && OtherChain(name) in t
    ensures LedBy(EnsureGlobal(t, names), OtherChain(name))
  {
    AcceptingKeeps(t, OtherChain(name));
    HookNamesOk(names);
    var u, hooks := Accepting(t), HookNames(names);
    var j := if MentionsForward(names) then i else i + 1;
    assert hooks[j] == names[i];
    HookAllLeads(u, hooks, j);
    HookAllKeeps(u, hooks);
    InputKeepsLead(HookAll(u, hooks), name);
  }

  /** Such a chain hands a live sandbox's packets to its policy. */
  lemma LedChainDecides(t: Table, boxes: seq<Box>, k: nat, i: nat, c: Chain, p: Packet, depth: nat)
    requires FirewallPolicy.Serves(t, Plans(boxes), k) && DistinctIps(boxes) && LedBy(t, c)
    requires i < |boxes| && p.src == boxes[i].ip && 2 <= depth
    ensures Eval(t, t[c], p, depth) == Policy(boxes[i], p)
  {
    SandboxTraffic(t, boxes, k, i, p, depth);
    assert Eval(t, t[Forward], p, depth) == Fire(t, FWD_HOOK, p, depth) by {
      var b, live := boxes[i], Plans(boxes);
      assert live[i] in live;
      OwnChainDecides(t, b, p, depth - 2);
      Dispatch(t, FwdJumps(live), i, Fwd(b.short), p, depth - 1);
    }
  }

  lemma AddKeepsLead(t: Table, b: Plan, name: string)
    requires Hooked(t) && LedBy(t, OtherChain(name))
    ensures LedBy(Add(t, b), OtherChain(name)) && LedBy(Sub(t, b), OtherChain(name))
  {
  }

  lemma EnsureKeepsLead(t: Table, names: seq<string>, name: string)
    requires Hooked(t) && Input in t && ForeignHooks(names) && LedBy(t, OtherChain(name))
    ensures LedBy(EnsureGlobal(t, names), OtherChain(name))
  {
    AcceptingKeeps(t, OtherChain(name));
    HookNamesOk(names);
    HookAllKeepsLead(Accepting(t), HookNames(names), OtherChain(name));
    HookAllKeeps(Accepting(t), HookNames(names));
    InputKeepsLead(HookAll(Accepting(t), HookNames(names)), name);
  }

  lemma {:induction false} LifeKeepsLead(t: Table, base: Table, live: seq<Plan>, ops: seq<LifeOp>, name: string)
    requires Good(t, base, live) && CanLive(base, live, ops) && LedBy(t, OtherChain(name))
    ensures LedBy(TableLife(t, ops), OtherChain(name))
    decreases |ops|
  {
    if ops == [] {
    } else {
      ChangeGood(t, base, live, ops[0]);
      match ops[0] {
        case Change(Install(b)) =>
          InstallGood(t, base, live, b);
          AddKeepsLead(t, b, name);
        case Change(Uninstall(b)) =>
          UninstallGood(t, base, live, b);
          AddKeepsLead(t, b, name);
        case Restart(names) => EnsureKeepsLead(t, names, name);
      }
      LifeKeepsLead(TableNext(t, ops[0]), base, LiveNext(live, ops[0]), ops[1..], name);
    }
  }

  /**
    After any run every configured chain that existed at the start decides a live sandbox's packets as FORWARD does.
   */
  lemma HookChainsAfterAnyRun(kernel: Table, names: seq<string>, h: nat, name: string, ops: seq<BoxOp>, i: nat,
      p: Packet, depth: nat)
    requires Forward in kernel && Input in kernel && SandboxFwd !in kernel && SandboxIn !in kernel
    requires ForeignHooks(names) && h < |names| && TrimSpace(ToUpper(names[h])) == name && OwnName(name)
    requires OtherChain(name) in kernel
    requires CanRunBoxes(EnsureGlobal(kernel, names), [], ops) && 2 <= depth
    requires i < |BoxesRun([], ops)| && p.src == BoxesRun([], ops)[i].ip
    ensures var t := TableLife(EnsureGlobal(kernel, names), PlanOps(ops));
      && OtherChain(name) in t
      && Eval(t, t[OtherChain(name)], p, depth) ==
        if MaySend(BoxesRun([], ops)[i], p) then Accepted else Rejected
  {
    var base, boxes := EnsureGlobal(kernel, names), BoxesRun([], ops);
    EnsureGlobalStarts(kernel, names);
    ConfiguredChainsLed(kernel, names, h, name);
    BareIsGood(base);
    assert Plans([]) == [];
    RunBoxes(base, [], ops);
    LifeIsGood(base, base, [], PlanOps(ops));
    LifeKeepsLead(base, base, [], PlanOps(ops), name);
    var t := TableLife(base, PlanOps(ops));
    var k :| FirewallPolicy.Serves(t, Plans(boxes), k);
    DistinctAddresses(boxes);
    LedChainDecides(t, boxes, k, i, OtherChain(name), p, depth);
    PolicyInWords(boxes[i], p);
  }

  lemma DistinctAddresses(boxes: seq<Box>)
    requires AllDistinct(boxes)
    ensures DistinctIps(boxes)
  {
    forall i, j | 0 <= i < |boxes| && 0 <= j < |boxes| && i != j ensures boxes[i].ip != boxes[j].ip {
      assert if i < j then Distinct(boxes[i], boxes[j]) else Distinct(boxes[j], boxes[i]);
    }
  }
}
