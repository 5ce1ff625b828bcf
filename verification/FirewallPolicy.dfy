/** What the installed rules mean: first-match evaluation against a policy that mentions no rules. */
module FirewallPolicy {
  import opened Numbers
  import opened Strings
  import opened Netfilter
  import opened FirewallRules
  import opened Firewall
  import opened FirewallRuns

  predicate IsDns(p: Packet) {
    p.dport == 53 && (p.proto == "udp" || p.proto == "tcp")
  }

  /** The special-purpose networks, by leading octets. */
  predicate Private(ip: Address) {
    var a, b := ip / 0x100_0000, ip / 0x1_0000 % 0x100;
    || a == 10 || (a == 172 && 16 <= b < 32) || (a == 192 && b == 168)
    || a == 127 || (a == 169 && b == 254) || (a == 100 && 64 <= b < 128)
    || (a == 198 && 18 <= b < 20) || 224 <= a
  }

  /** Destinations no sandbox may open a connection to: the host, its own bridge and the special-purpose networks. */
  predicate Protected(b: Box, p: Packet) {
    p.localDst || InCidr(p.dst, b.bridgeCidr) || Private(p.dst)
  }

  /** A port published without a protocol is a TCP port; names of protocols have no case. */
  predicate Speaks(raw: string, proto: string) {
    proto == if raw == "" then "tcp" else ToLower(raw)
  }

  /** What a sandbox may send. */
  function Policy(b: Box, p: Packet): Verdict {
    if p.established then Accepted
    else if b.egress && IsDns(p) then Accepted
    else if Protected(b, p) then Rejected
    else if b.egress then Accepted
    else Rejected
  }

  predicate PublishedTo(b: Box, p: Packet) {
    p.dst == b.ip && exists q :: q in b.ports && Speaks(q.protocol, p.proto) && p.dport == q.number
  }

  predicate AnswersFrom(b: Box, p: Packet) {
    exists q :: q in b.ports && Speaks(q.protocol, p.proto) && p.sport == q.number
  }

  /** What a sandbox may send to the host itself: replies, and traffic from its published ports. */
  function HostPolicy(b: Box, p: Packet): Verdict {
    if p.established || AnswersFrom(b, p) then Accepted else Rejected
  }

  // ---------- The rejected networks ----------

  lemma TopBlocks(ip: Address)
    ensures InCidr(ip, Cidr(Octets(10, 0, 0, 0), 8)) <==> ip / 0x100_0000 == 10
    ensures InCidr(ip, Cidr(Octets(127, 0, 0, 0), 8)) <==> ip / 0x100_0000 == 127
    ensures InCidr(ip, Cidr(Octets(224, 0, 0, 0), 4)) || InCidr(ip, Cidr(Octets(240, 0, 0, 0), 4)) <==>
      224 <= ip / 0x100_0000
  {
    Pow2Table();
  }

  lemma MiddleBlocks(ip: Address)
    ensures var a, b := ip / 0x100_0000, ip / 0x1_0000 % 0x100;
      && (InCidr(ip, Cidr(Octets(172, 16, 0, 0), 12)) <==> a == 172 && 16 <= b < 32)
      && (InCidr(ip, Cidr(Octets(100, 64, 0, 0), 10)) <==> a == 100 && 64 <= b < 128)
  {
    Pow2Table();
  }

  lemma BenchmarkBlock(ip: Address)
    ensures InCidr(ip, Cidr(Octets(198, 18, 0, 0), 15)) <==>
      ip / 0x100_0000 == 198 && 18 <= ip / 0x1_0000 % 0x100 < 20
  {
    Pow2Table();
  }

  lemma SmallBlocks(ip: Address)
    ensures var a, b := ip / 0x100_0000, ip / 0x1_0000 % 0x100;
      && (InCidr(ip, Cidr(Octets(192, 168, 0, 0), 16)) <==> a == 192 && b == 168)
      && (InCidr(ip, Cidr(Octets(169, 254, 0, 0), 16)) <==> a == 169 && b == 254)
  {
    Pow2Table();
  }

  /** In one of the nine networks that are written out. */
  predicate InWrittenOut(ip: Address) {
    || InCidr(ip, Cidr(Octets(10, 0, 0, 0), 8)) || InCidr(ip, Cidr(Octets(172, 16, 0, 0), 12))
    || InCidr(ip, Cidr(Octets(192, 168, 0, 0), 16)) || InCidr(ip, Cidr(Octets(127, 0, 0, 0), 8))
    || InCidr(ip, Cidr(Octets(169, 254, 0, 0), 16)) || InCidr(ip, Cidr(Octets(100, 64, 0, 0), 10))
    || InCidr(ip, Cidr(Octets(198, 18, 0, 0), 15)) || InCidr(ip, Cidr(Octets(224, 0, 0, 0), 4))
    || InCidr(ip, Cidr(Octets(240, 0, 0, 0), 4))
  }

  lemma WrittenOutIsPrivate(ip: Address)
    ensures InWrittenOut(ip) <==> Private(ip)
  {
    TopBlocks(ip);
    MiddleBlocks(ip);
    BenchmarkBlock(ip);
    SmallBlocks(ip);
  }

  lemma AnyOfTen<T>(s: seq<T>, p: T -> bool)
    requires |s| == 10
    ensures (exists x :: x in s && p(x)) <==>
      p(s[0]) || p(s[1]) || p(s[2]) || p(s[3]) || p(s[4]) || p(s[5]) || p(s[6]) || p(s[7]) || p(s[8]) || p(s[9])
  {
    assert forall i :: 0 <= i < 10 ==> s[i] in s;
  }

  lemma ListIsWrittenOut(bridge: Cidr, ip: Address)
    ensures (exists c :: c in RejectedNetworks(bridge) && InCidr(ip, c)) <==> InCidr(ip, bridge) || InWrittenOut(ip)
  {
    AnyOfTen(RejectedNetworks(bridge), c => InCidr(ip, c));
  }

  /** The compiler's list of networks is the bridge and the private addresses, no more and no less. */
  lemma RejectedMeans(bridge: Cidr, ip: Address)
    ensures (exists c :: c in RejectedNetworks(bridge) && InCidr(ip, c)) <==> InCidr(ip, bridge) || Private(ip)
  {
    ListIsWrittenOut(bridge, ip);
    WrittenOutIsPrivate(ip);
  }

  // ---------- The rules of one sandbox ----------

  lemma {:induction false} NameserverRulesAreDns(ns: seq<int>, p: Packet, r: Rule)
    requires r in NameserverRules(ns)
    ensures r.target == Accept && (Matches(r.cond, p) ==> IsDns(p))
  {
    var n := |ns| - 1;
    if r in NameserverRules(ns[..n]) {
      NameserverRulesAreDns(ns[..n], p, r);
    }
  }

  lemma DnsRulesMean(t: Table, b: Box, p: Packet, depth: nat)
    ensures Eval(t, DnsRules(b), p, depth) == if b.egress && IsDns(p) then Accepted else Continue
  {
    var rs := DnsRules(b);
    forall r | r in rs ensures r.target == Accept && (Matches(r.cond, p) ==> IsDns(p)) {
      if r in NameserverRules(b.nameservers) {
        NameserverRulesAreDns(b.nameservers, p, r);
      }
    }
    Uniform(t, rs, Accept, p, depth);
    if b.egress && IsDns(p) {
      assert Rule(Dport(p.proto, 53), Accept) in rs && Matches(Dport(p.proto, 53), p);
    }
  }

  lemma RejectRulesMean(t: Table, nets: seq<Cidr>, p: Packet, depth: nat)
    ensures Eval(t, RejectRules(nets), p, depth) ==
      if exists c :: c in nets && InCidr(p.dst, c) then Rejected else Continue
  {
    var rs := RejectRules(nets);
    Uniform(t, rs, Reject, p, depth);
    if c :| c in nets && InCidr(p.dst, c) {
      var i :| 0 <= i < |nets| && nets[i] == c;
      assert rs[i] in rs && Matches(rs[i].cond, p);
    }
    if r :| r in rs && Matches(r.cond, p) {
      var i :| 0 <= i < |rs| && rs[i] == r;
      assert nets[i] in nets && InCidr(p.dst, nets[i]);
    }
  }

  lemma FwdRulesMean(t: Table, b: Box, p: Packet, depth: nat)
    ensures Eval(t, FwdRules(b), p, depth) == Policy(b, p)
  {
    var nets := RejectedNetworks(b.bridgeCidr);
    var a, d, l, n, e := [Rule(Established, Accept)], DnsRules(b), [Rule(LocalDst, Reject)], RejectRules(nets),
      [Rule(Always, if b.egress then Accept else Reject)];
    EvalConcat(t, a + d + l + n, e, p, depth);
    EvalConcat(t, a + d + l, n, p, depth);
    EvalConcat(t, a + d, l, p, depth);
    EvalConcat(t, a, d, p, depth);
    DnsRulesMean(t, b, p, depth);
    RejectRulesMean(t, nets, p, depth);
    RejectedMeans(b.bridgeCidr, p.dst);
    Uniform(t, a, Accept, p, depth);
    Uniform(t, l, Reject, p, depth);
    Uniform(t, e, if b.egress then Accept else Reject, p, depth);
    assert a[0] in a && l[0] in l && e[0] in e;
  }

  lemma SpeaksMeans(raw: string, proto: string)
    ensures Speaks(raw, proto) <==> proto == Proto(raw)
  {
    assert |ToLower(raw)| == |raw|;
  }

  lemma SportRulesAnswer(b: Box, p: Packet)
    ensures (exists r :: r in SportRules(b) && Matches(r.cond, p)) <==> AnswersFrom(b, p)
  {
    var rs := SportRules(b);
    forall i | 0 <= i < |b.ports|
      ensures Matches(rs[i].cond, p) <==> Speaks(b.ports[i].protocol, p.proto) && p.sport == b.ports[i].number
    {
      SpeaksMeans(b.ports[i].protocol, p.proto);
    }
    if q :| q in b.ports && Speaks(q.protocol, p.proto) && p.sport == q.number {
      var i :| 0 <= i < |b.ports| && b.ports[i] == q;
      assert rs[i] in rs;
    }
    if r :| r in rs && Matches(r.cond, p) {
      var i :| 0 <= i < |rs| && rs[i] == r;
      assert b.ports[i] in b.ports;
    }
  }

  lemma SportRulesMean(t: Table, b: Box, p: Packet, depth: nat)
    ensures Eval(t, SportRules(b), p, depth) == if AnswersFrom(b, p) then Accepted else Continue
  {
    Uniform(t, SportRules(b), Accept, p, depth);
    SportRulesAnswer(b, p);
  }

  lemma InRulesMean(t: Table, b: Box, p: Packet, depth: nat)
    ensures Eval(t, InRules(b), p, depth) == HostPolicy(b, p)
  {
    var a, s, e := [Rule(Established, Accept)], SportRules(b), [Rule(Always, Reject)];
    EvalConcat(t, a + s, e, p, depth);
    EvalConcat(t, a, s, p, depth);
    SportRulesMean(t, b, p, depth);
    Uniform(t, a, Accept, p, depth);
    Uniform(t, e, Reject, p, depth);
    assert a[0] in a && e[0] in e;
  }

  // ---------- The table as a whole ----------

  function Plans(boxes: seq<Box>): seq<Plan> {
    seq(|boxes|, i requires 0 <= i < |boxes| => Compile(boxes[i]))
  }

  function FwdJumps(live: seq<Plan>): seq<Rule> {
    seq(|live|, i requires 0 <= i < |live| => live[i].fwdJump)
  }

  function InJumps(live: seq<Plan>): seq<Rule> {
    seq(|live|, i requires 0 <= i < |live| => live[i].inJump)
  }

  /**
    The table dispatches each live sandbox to its own chains, and the k rules after the hook accept, among them all
    early rules.
   */
  ghost predicate Serves(t: Table, live: seq<Plan>, k: nat) {
    && Hooked(t) && 1 + k <= |t[Forward]|
    && t[SandboxFwd] == FwdJumps(live) && t[SandboxIn] == InJumps(live)
    && (forall b :: b in live ==>
        && Fwd(b.short) in t && t[Fwd(b.short)] == AppendAll([], b.fwd)
        && In(b.short) in t && t[In(b.short)] == AppendAll([], b.inn))
    && (forall r :: r in t[Forward][1..1 + k] ==> r.target == Accept)
    && (forall b, r :: b in live && r in b.early ==> r in t[Forward][1..1 + k])
  }

  lemma AddServes(t: Table, front: seq<Plan>, b: Plan, k: nat)
    requires Proper(b) && Serves(t, front, k) && forall c :: c in front ==> c.short != b.short
    ensures Serves(Add(t, b), front + [b], |Block(b.early)| + k)
  {
    var a, live, block := Add(t, b), front + [b], Block(b.early);
    assert a[Forward] == [FWD_HOOK] + block + t[Forward][1..];
    var prefix := a[Forward][1..1 + |block| + k];
    assert prefix == block + t[Forward][1..1 + k];
    assert a[SandboxFwd] == FwdJumps(live) && a[SandboxIn] == InJumps(live);
    forall c | c in live
      ensures Fwd(c.short) in a && a[Fwd(c.short)] == AppendAll([], c.fwd)
      ensures In(c.short) in a && a[In(c.short)] == AppendAll([], c.inn)
    {
      assert c in front || c == b;
    }
    BlockAccepts(b);
  }

  lemma BlockAccepts(b: Plan)
    ensures forall r :: r in Block(b.early) <==> r in b.early
  {
    forall r ensures r in Block(b.early) <==> r in b.early {
      BlockMembers(b.early, r);
    }
  }

  lemma HookServes(t: Table)
    requires Hooked(t) && t[SandboxFwd] == [] && t[SandboxIn] == []
    ensures Serves(t, [], 0)
  {
  }

  /** A dispatch list sends a packet to the one chain whose jump matches it. */
  lemma {:induction false} Dispatch(t: Table, jumps: seq<Rule>, i: nat, c: Chain, p: Packet, depth: nat)
    requires i < |jumps| && 0 < depth && c in t && jumps[i].target == Jump(c) && Matches(jumps[i].cond, p)
    requires forall j :: 0 <= j < |jumps| && j != i ==> !Matches(jumps[j].cond, p)
    requires !Eval(t, t[c], p, depth - 1).Continue?
    ensures Eval(t, jumps, p, depth) == Eval(t, t[c], p, depth - 1)
    decreases i
  {
    if 0 < i {
      Dispatch(t, jumps[1..], i - 1, c, p, depth);
    }
  }

  ghost predicate DistinctIps(boxes: seq<Box>) {
    forall i, j :: 0 <= i < |boxes| && 0 <= j < |boxes| && i != j ==> boxes[i].ip != boxes[j].ip
  }

  lemma HookFires(t: Table, p: Packet, depth: nat)
    requires Hooked(t) && 2 <= depth && !Eval(t, t[SandboxFwd], p, depth - 1).Continue?
    ensures Eval(t, t[Forward], p, depth) == Eval(t, t[SandboxFwd], p, depth - 1)
  {
  }

  lemma OwnChainDecides(t: Table, b: Box, p: Packet, depth: nat)
    requires Fwd(b.short) in t && t[Fwd(b.short)] == AppendAll([], FwdRules(b))
    ensures Eval(t, t[Fwd(b.short)], p, depth) == Policy(b, p)
  {
    AppendAllEval(t, [], FwdRules(b), p, depth);
    assert [] + FwdRules(b) == FwdRules(b);
    FwdRulesMean(t, b, p, depth);
  }

  /**
    Every packet from a live sandbox gets exactly the policy's verdict, whatever else is live and whatever follows in
    FORWARD.
   */
  lemma SandboxTraffic(t: Table, boxes: seq<Box>, k: nat, i: nat, p: Packet, depth: nat)
    requires Serves(t, Plans(boxes), k) && DistinctIps(boxes) && i < |boxes| && p.src == boxes[i].ip && 2 <= depth
    ensures Eval(t, t[Forward], p, depth) == Policy(boxes[i], p)
  {
    var b, live := boxes[i], Plans(boxes);
    assert live[i] in live;
    OwnChainDecides(t, b, p, depth - 2);
    Dispatch(t, FwdJumps(live), i, Fwd(b.short), p, depth - 1);
    HookFires(t, p, depth);
  }

  lemma OwnInChainDecides(t: Table, b: Box, p: Packet, depth: nat)
    requires In(b.short) in t && t[In(b.short)] == AppendAll([], InRules(b))
    ensures Eval(t, t[In(b.short)], p, depth) == HostPolicy(b, p)
  {
    AppendAllEval(t, [], InRules(b), p, depth);
    assert [] + InRules(b) == InRules(b);
    InRulesMean(t, b, p, depth);
  }

  /** INPUT begins with the jump to the sandboxes' dispatch list. */
  predicate Entered(t: Table) {
    Input in t && t[Input] != [] && t[Input][0] == IN_HOOK
  }

  lemma InHookFires(t: Table, p: Packet, depth: nat)
    requires Entered(t) && SandboxIn in t && 1 <= depth && !Eval(t, t[SandboxIn], p, depth - 1).Continue?
    ensures Eval(t, t[Input], p, depth) == Eval(t, t[SandboxIn], p, depth - 1)
  {
  }

  /**
    Towards the host, first match over INPUT on a sandbox's packets from its bridge is the host policy, whatever else
    INPUT holds.
   */
  lemma SandboxToHost(t: Table, boxes: seq<Box>, k: nat, i: nat, p: Packet, depth: nat)
    requires Serves(t, Plans(boxes), k) && Entered(t) && DistinctIps(boxes) && i < |boxes|
    requires p.src == boxes[i].ip && p.inIf == boxes[i].bridgeIf && 2 <= depth
    ensures Eval(t, t[Input], p, depth) == HostPolicy(boxes[i], p)
  {
    var b, live := boxes[i], Plans(boxes);
    assert live[i] in live;
    OwnInChainDecides(t, b, p, depth - 2);
    Dispatch(t, InJumps(live), i, In(b.short), p, depth - 1);
    InHookFires(t, p, depth);
  }

  lemma JumpsNeedSource(boxes: seq<Box>, p: Packet)
    requires forall j :: 0 <= j < |boxes| ==> p.src != boxes[j].ip
    ensures forall r :: r in FwdJumps(Plans(boxes)) ==> !Matches(r.cond, p)
  {
    forall r | r in FwdJumps(Plans(boxes)) ensures !Matches(r.cond, p) {
      var j :| 0 <= j < |boxes| && FwdJumps(Plans(boxes))[j] == r;
      assert r == FwdJump(boxes[j]);
    }
  }

  lemma OutsiderPassesHook(t: Table, boxes: seq<Box>, k: nat, p: Packet, depth: nat)
    requires Serves(t, Plans(boxes), k) && forall j :: 0 <= j < |boxes| ==> p.src != boxes[j].ip
    ensures Fire(t, FWD_HOOK, p, depth).Continue?
  {
    if 0 < depth {
      var jumps := t[SandboxFwd];
      JumpsNeedSource(boxes, p);
      AllSilent(t, jumps, p, depth - 1);
    }
  }

  lemma AcceptedInPrefix(t: Table, rs: seq<Rule>, k: nat, r: Rule, p: Packet, depth: nat)
    requires 1 + k <= |rs| && Fire(t, rs[0], p, depth).Continue?
    requires r in rs[1..1 + k] && Matches(r.cond, p) && forall x :: x in rs[1..1 + k] ==> x.target == Accept
    ensures Eval(t, rs, p, depth) == Accepted
  {
    assert rs[1..] == rs[1..1 + k] + rs[1 + k..];
    EvalConcat(t, rs[1..1 + k], rs[1 + k..], p, depth);
    Uniform(t, rs[1..1 + k], Accept, p, depth);
  }

  /** A packet from outside to a published address, protocol and port is accepted. */
  lemma PublishedIsReachable(t: Table, boxes: seq<Box>, k: nat, i: nat, p: Packet, depth: nat)
    requires Serves(t, Plans(boxes), k) && i < |boxes| && PublishedTo(boxes[i], p)
    requires forall j :: 0 <= j < |boxes| ==> p.src != boxes[j].ip
    ensures Eval(t, t[Forward], p, depth) == Accepted
  {
    OutsiderPassesHook(t, boxes, k, p, depth);
    var b, live := boxes[i], Plans(boxes);
    var q :| q in b.ports && Speaks(q.protocol, p.proto) && p.dport == q.number;
    var m :| 0 <= m < |b.ports| && b.ports[m] == q;
    var r := EarlyRules(b)[m];
    assert live[i] in live && r in live[i].early;
    AcceptedInPrefix(t, t[Forward], k, r, p, depth);
  }

  /**
    No sandbox opens a connection to another, published or not: the bridge is a rejected network and is checked before
    the early rules.
   */
  lemma SandboxesAreIsolated(t: Table, boxes: seq<Box>, k: nat, i: nat, p: Packet, depth: nat)
    requires Serves(t, Plans(boxes), k) && DistinctIps(boxes) && i < |boxes| && p.src == boxes[i].ip && 2 <= depth
    requires InCidr(p.dst, boxes[i].bridgeCidr) && !p.established && !(boxes[i].egress && IsDns(p))
    ensures Eval(t, t[Forward], p, depth) == Rejected
  {
    SandboxTraffic(t, boxes, k, i, p, depth);
  }
}
