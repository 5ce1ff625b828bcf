/** Host-port publishing in the nat table: runs, round trip, and where a packet is sent. */
module HostPorts {
  import opened Strings
  import opened Netfilter

  datatype Forward = Forward(hostPort: int, containerPort: int, protocol: string)

  /**
    A publish rule, tagged with its sandbox by the comment; OUTPUT rules are for local destinations only. Foreign is
    any other rule.
   */
  datatype NatRule =
    | Dnat(localOnly: bool, id: string, proto: string, hostPort: int, ip: string, port: int)
    | Foreign(tag: int)

  predicate Owned(r: NatRule, id: string) {
    r.Dnat? && r.id == id
  }

  function RuleOf(localOnly: bool, id: string, ip: string, f: Forward): NatRule {
    Dnat(localOnly, id, NormProto(f.protocol), f.hostPort, ip, f.containerPort)
  }

  /** One sandbox's publication. */
  datatype Publication = Publication(id: string, ip: string, forwards: seq<Forward>)

  function Rules(localOnly: bool, b: Publication): (rs: seq<NatRule>)
    ensures forall r :: r in rs ==> Owned(r, b.id)
  {
    seq(|b.forwards|, i requires 0 <= i < |b.forwards| => RuleOf(localOnly, b.id, b.ip, b.forwards[i]))
  }

  // ---------- A list is its own rules and the others' rules ----------

  /** The rules of id (mine) or all the others (!mine), in order. */
  function Part(rs: seq<NatRule>, id: string, mine: bool): seq<NatRule> {
    if rs == [] then []
    else if Owned(rs[0], id) == mine then [rs[0]] + Part(rs[1..], id, mine)
    else Part(rs[1..], id, mine)
  }

  lemma {:induction false} PartConcat(a: seq<NatRule>, b: seq<NatRule>, id: string, mine: bool)
    ensures Part(a + b, id, mine) == Part(a, id, mine) + Part(b, id, mine)
  {
    if a == [] {
      assert a + b == b;
    } else {
      assert (a + b)[1..] == a[1..] + b;
      PartConcat(a[1..], b, id, mine);
    }
  }

  lemma {:induction false} PartMember(rs: seq<NatRule>, id: string, mine: bool, r: NatRule)
    ensures r in Part(rs, id, mine) <==> r in rs && Owned(r, id) == mine
  {
    if rs == [] {
    } else {
      PartMember(rs[1..], id, mine, r);
    }
  }

  /** A list whose rules are all on one side is that side, and the other side is empty. */
  lemma {:induction false} PartWhole(rs: seq<NatRule>, id: string, mine: bool)
    requires forall r :: r in rs ==> Owned(r, id) == mine
    ensures Part(rs, id, mine) == rs && Part(rs, id, !mine) == []
  {
    if rs == [] {
    } else {
      assert forall r :: r in rs[1..] ==> r in rs;
      PartWhole(rs[1..], id, mine);
    }
  }

  lemma PartAppend(rs: seq<NatRule>, r: NatRule, id: string, mine: bool)
    ensures Part(AppendNew(rs, r), id, mine) == if Owned(r, id) == mine then AppendNew(Part(rs, id, mine), r)
      else Part(rs, id, mine)
  {
    PartMember(rs, id, mine, r);
    PartConcat(rs, [r], id, mine);
    assert [r][1..] == [];
  }

  lemma {:induction false} PartRemove(rs: seq<NatRule>, r: NatRule, id: string, mine: bool)
    ensures Part(RemoveFirst(rs, r), id, mine) ==
      if Owned(r, id) == mine then RemoveFirst(Part(rs, id, mine), r) else Part(rs, id, mine)
  {
    if rs != [] && rs[0] != r {
      PartRemove(rs[1..], r, id, mine);
    }
  }

  lemma {:induction false} PartAppendAll(rs: seq<NatRule>, more: seq<NatRule>, id: string, mine: bool, own: bool)
    requires forall r :: r in more ==> Owned(r, id) == own
    ensures Part(AppendAll(rs, more), id, mine) == if own == mine then AppendAll(Part(rs, id, mine), more)
      else Part(rs, id, mine)
  {
    if more == [] {
    } else {
      assert forall r :: r in more[..|more| - 1] ==> r in more;
      PartAppendAll(rs, more[..|more| - 1], id, mine, own);
      PartAppend(AppendAll(rs, more[..|more| - 1]), more[|more| - 1], id, mine);
    }
  }

  lemma {:induction false} PartRemoveEach(rs: seq<NatRule>, gone: seq<NatRule>, id: string, mine: bool, own: bool)
    requires forall r :: r in gone ==> Owned(r, id) == own
    ensures Part(RemoveEach(rs, gone), id, mine) == if own == mine then RemoveEach(Part(rs, id, mine), gone)
      else Part(rs, id, mine)
  {
    if gone == [] {
    } else {
      assert forall r :: r in gone[..|gone| - 1] ==> r in gone;
      PartRemoveEach(rs, gone[..|gone| - 1], id, mine, own);
      PartRemove(RemoveEach(rs, gone[..|gone| - 1]), gone[|gone| - 1], id, mine);
    }
  }

  lemma {:induction false} SidesDetermine(a: seq<NatRule>, id: string)
    requires Part(a, id, true) == []
    ensures a == Part(a, id, false)
  {
    forall r | r in a ensures !Owned(r, id) {
      PartMember(a, id, true, r);
    }
    PartWhole(a, id, false);
  }

  // ---------- Removing what was appended ----------

  ghost predicate Distinct(rs: seq<NatRule>) {
    forall i, j :: 0 <= i < j < |rs| ==> rs[i] != rs[j]
  }

  lemma {:induction false} AppendAllBasics(rs: seq<NatRule>, more: seq<NatRule>)
    requires Distinct(rs)
    ensures Distinct(AppendAll(rs, more))
    ensures forall r :: r in AppendAll(rs, more) <==> r in rs || r in more
  {
    if more == [] {
    } else {
      assert more == more[..|more| - 1] + [more[|more| - 1]];
      AppendAllBasics(rs, more[..|more| - 1]);
    }
  }

  lemma DistinctTail(rs: seq<NatRule>)
    requires Distinct(rs) && rs != []
    ensures Distinct(rs[1..]) && rs[0] !in rs[1..]
    ensures forall q :: q in rs <==> q == rs[0] || q in rs[1..]
  {
    assert rs == [rs[0]] + rs[1..];
  }

  lemma DistinctCons(r: NatRule, rest: seq<NatRule>)
    requires Distinct(rest) && r !in rest
    ensures Distinct([r] + rest)
  {
    assert forall j :: 0 <= j < |rest| ==> rest[j] in rest;
  }

  lemma {:induction false} RemoveFirstBasics(rs: seq<NatRule>, r: NatRule)
    requires Distinct(rs)
    ensures Distinct(RemoveFirst(rs, r))
    ensures forall q :: q in RemoveFirst(rs, r) <==> q in rs && q != r
  {
    if rs == [] {
    } else {
      DistinctTail(rs);
      if rs[0] != r {
        RemoveFirstBasics(rs[1..], r);
        DistinctCons(rs[0], RemoveFirst(rs[1..], r));
      }
    }
  }

  lemma {:induction false} RemoveEachBasics(rs: seq<NatRule>, gone: seq<NatRule>)
    requires Distinct(rs)
    ensures Distinct(RemoveEach(rs, gone))
    ensures forall r :: r in RemoveEach(rs, gone) <==> r in rs && r !in gone
  {
    if gone == [] {
    } else {
      assert gone == gone[..|gone| - 1] + [gone[|gone| - 1]];
      RemoveEachBasics(rs, gone[..|gone| - 1]);
      RemoveFirstBasics(RemoveEach(rs, gone[..|gone| - 1]), gone[|gone| - 1]);
    }
  }

  /** However often a forward is repeated, deleting the forwards one by one empties what applying them built. */
  lemma RemoveWhatWasAppended(more: seq<NatRule>)
    ensures RemoveEach(AppendAll([], more), more) == []
  {
    AppendAllBasics([], more);
    RemoveEachBasics(AppendAll([], more), more);
    var left := RemoveEach(AppendAll([], more), more);
    assert forall r :: r in multiset(left) ==> r in left;
    assert multiset(left) == multiset{} && |multiset(left)| == |left|;
  }

  // ---------- Runs ----------

  datatype Op = Publish(b: Publication) | Unpublish(b: Publication)

  /** The effect of one call on PREROUTING (localOnly false) or OUTPUT (localOnly true). */
  function Perform(rs: seq<NatRule>, localOnly: bool, op: Op): seq<NatRule> {
    match op
    case Publish(b) => AppendAll(rs, Rules(localOnly, b))
    case Unpublish(b) => RemoveEach(rs, Rules(localOnly, b))
  }

  function Run(rs: seq<NatRule>, localOnly: bool, ops: seq<Op>): seq<NatRule> {
    if ops == [] then rs else Perform(Run(rs, localOnly, ops[..|ops| - 1]), localOnly, ops[|ops| - 1])
  }

  lemma {:induction false} RunKeepsParts(rs: seq<NatRule>, localOnly: bool, ops: seq<Op>, id: string)
    requires forall i :: 0 <= i < |ops| ==> ops[i].b.id != id
    ensures Part(Run(rs, localOnly, ops), id, true) == Part(rs, id, true)
    ensures Part(Run(rs, localOnly, ops), id, false) == Run(Part(rs, id, false), localOnly, ops)
  {
    if ops == [] {
    } else {
      var front, op := ops[..|ops| - 1], ops[|ops| - 1];
      RunKeepsParts(rs, localOnly, front, id);
      var more := Rules(localOnly, op.b);
      assert forall r :: r in more ==> !Owned(r, id);
      var mid := Run(rs, localOnly, front);
      if op.Publish? {
        PartAppendAll(mid, more, id, true, false);
        PartAppendAll(mid, more, id, false, false);
      } else {
        PartRemoveEach(mid, more, id, true, false);
        PartRemoveEach(mid, more, id, false, false);
      }
    }
  }

  /**
    Deleting a publication after any calls for other sandboxes leaves what those calls alone would have left: every
    other rule keeps its content and place.
   */
  lemma RoundTrip(rs: seq<NatRule>, localOnly: bool, b: Publication, ops: seq<Op>)
    requires forall r :: r in rs ==> !Owned(r, b.id)
    requires forall i :: 0 <= i < |ops| ==> ops[i].b.id != b.id
    ensures Run(rs, localOnly, [Publish(b)] + ops + [Unpublish(b)]) == Run(rs, localOnly, ops)
  {
    var more := Rules(localOnly, b);
    var first := AppendAll(rs, more);
    PartWhole(rs, b.id, false);
    PartAppendAll(rs, more, b.id, true, true);
    PartAppendAll(rs, more, b.id, false, true);
    RunFrom(rs, localOnly, Publish(b), ops);
    var mid := Run(first, localOnly, ops);
    RunKeepsParts(first, localOnly, ops, b.id);
    var all := [Publish(b)] + ops + [Unpublish(b)];
    assert all[..|all| - 1] == [Publish(b)] + ops;
    var last := RemoveEach(mid, more);
    PartRemoveEach(mid, more, b.id, true, true);
    PartRemoveEach(mid, more, b.id, false, true);
    RemoveWhatWasAppended(more);
    SidesDetermine(last, b.id);
  }

  lemma {:induction false} RunFrom(rs: seq<NatRule>, localOnly: bool, op: Op, ops: seq<Op>)
    ensures Run(rs, localOnly, [op] + ops) == Run(Perform(rs, localOnly, op), localOnly, ops)
  {
    if ops == [] {
      assert [op] + ops == [op] && [op][..0] == [];
    } else {
      var all := [op] + ops;
      assert all[..|all| - 1] == [op] + ops[..|ops| - 1] && all[|all| - 1] == ops[|ops| - 1];
      RunFrom(rs, localOnly, op, ops[..|ops| - 1]);
    }
  }

  // ---------- What the rules do ----------

  datatype Packet = Packet(proto: string, dport: int, localDst: bool, tags: set<int>)

  datatype Route = Unchanged | To(ip: string, port: int) | ByForeign(tag: int)

  predicate Hits(r: NatRule, p: Packet) {
    match r
    case Dnat(localOnly, _, proto, hostPort, _, _) => (localOnly ==> p.localDst) && p.proto == proto &&
      p.dport == hostPort
    case Foreign(tag) => tag in p.tags
  }

  /** The packet is for this forward's host port; OUTPUT takes only what goes to the host itself. */
  predicate Announces(localOnly: bool, f: Forward, p: Packet) {
    && p.dport == f.hostPort && (localOnly ==> p.localDst)
    && p.proto == if Blank(f.protocol) then "tcp" else ToLower(TrimSpace(f.protocol))
  }

  lemma AnnouncesMeans(localOnly: bool, b: Publication, f: Forward, p: Packet)
    ensures Announces(localOnly, f, p) <==> Hits(RuleOf(localOnly, b.id, b.ip, f), p)
  {
    assert |ToLower(TrimSpace(f.protocol))| == |TrimSpace(f.protocol)|;
  }

  /** The first matching rule decides. */
  function Translate(rs: seq<NatRule>, p: Packet): Route {
    if rs == [] then Unchanged
    else if Hits(rs[0], p) then (match rs[0] case Dnat(_, _, _, _, ip, port) => To(ip, port) case Foreign(tag) =>
      ByForeign(tag))
    else Translate(rs[1..], p)
  }

  lemma {:induction false} TranslateAgreed(rs: seq<NatRule>, p: Packet, ip: string, port: int)
    requires forall r :: r in rs && Hits(r, p) ==> r.Dnat? && r.ip == ip && r.port == port
    ensures Translate(rs, p) == if exists r :: r in rs && Hits(r, p) then To(ip, port) else Unchanged
  {
    if rs == [] {
    } else {
      assert rs[0] in rs && forall r :: r in rs[1..] ==> r in rs;
      TranslateAgreed(rs[1..], p, ip, port);
      if r :| r in rs && Hits(r, p) && !Hits(rs[0], p) {
        assert r in rs[1..];
      }
    }
  }

  /** Publications by a run: live ones are published and not yet withdrawn. */
  function Live(ops: seq<Op>): set<Publication> {
    if ops == [] then {}
    else
      var op, before := ops[|ops| - 1], Live(ops[..|ops| - 1]);
      if op.Publish? then before + {op.b} else before - {op.b}
  }

  /** Each sandbox publishes under its own id, once at a time, and withdraws with the arguments it published with. */
  ghost predicate CanRun(ops: seq<Op>) {
    ops == [] || (
      var op, before := ops[|ops| - 1], ops[..|ops| - 1];
      && CanRun(before)
      && (op.Publish? ==> forall b :: b in Live(before) ==> b.id != op.b.id)
      && (op.Unpublish? ==> op.b in Live(before)))
  }

  lemma {:induction false} LiveApart(ops: seq<Op>)
    requires CanRun(ops)
    ensures forall b, c :: b in Live(ops) && c in Live(ops) && b.id == c.id ==> b == c
  {
    if ops == [] {
    } else {
      LiveApart(ops[..|ops| - 1]);
    }
  }

  ghost predicate FromLive(r: NatRule, localOnly: bool, live: set<Publication>) {
    exists b :: b in live && r in Rules(localOnly, b)
  }

  /** After any run the list is the base followed by, without repetition, exactly the live publications' rules. */
  lemma {:induction false} RunHoldsLive(base: seq<NatRule>, localOnly: bool, ops: seq<Op>) returns (tail: seq<NatRule>)
    requires CanRun(ops) && forall r, i :: r in base && 0 <= i < |ops| ==> !Owned(r, ops[i].b.id)
    ensures Run(base, localOnly, ops) == base + tail && Distinct(tail)
    ensures forall r :: r in tail <==> FromLive(r, localOnly, Live(ops))
  {
    if ops == [] {
      tail := [];
    } else {
      var op, front := ops[|ops| - 1], ops[..|ops| - 1];
      forall r, i | r in base && 0 <= i < |front| ensures !Owned(r, front[i].b.id) {
        assert front[i] == ops[i];
      }
      var t := RunHoldsLive(base, localOnly, front);
      var more := Rules(localOnly, op.b);
      forall r | r in more ensures r !in base {
        assert ops[|ops| - 1] == op;
      }
      LiveApart(front);
      if op.Publish? {
        AppendBehind(base, t, more);
        AppendAllBasics(t, more);
        tail := AppendAll(t, more);
        assert Live(ops) == Live(front) + {op.b};
      } else {
        RemoveBehind(base, t, more);
        RemoveEachBasics(t, more);
        tail := RemoveEach(t, more);
        assert Live(ops) == Live(front) - {op.b};
        forall r ensures r in tail <==> FromLive(r, localOnly, Live(ops)) {
          if r in tail {
            var b :| b in Live(front) && r in Rules(localOnly, b);
            assert b in Live(ops);
          }
          if FromLive(r, localOnly, Live(ops)) {
            var b :| b in Live(ops) && r in Rules(localOnly, b);
            assert b in Live(front) && b.id != op.b.id;
          }
        }
      }
    }
  }

  lemma {:induction false} AppendBehind(base: seq<NatRule>, t: seq<NatRule>, more: seq<NatRule>)
    requires forall r :: r in more ==> r !in base
    ensures AppendAll(base + t, more) == base + AppendAll(t, more)
  {
    if more == [] {
    } else {
      var front, last := more[..|more| - 1], more[|more| - 1];
      assert last in more && forall r :: r in front ==> r in more;
      AppendBehind(base, t, front);
      assert base + AppendAll(t, front) + [last] == base + (AppendAll(t, front) + [last]);
    }
  }

  lemma {:induction false} RemoveBehind(base: seq<NatRule>, t: seq<NatRule>, gone: seq<NatRule>)
    requires forall r :: r in gone ==> r !in base
    ensures RemoveEach(base + t, gone) == base + RemoveEach(t, gone)
  {
    if gone == [] {
    } else {
      var front, last := gone[..|gone| - 1], gone[|gone| - 1];
      assert last in gone && forall r :: r in front ==> r in gone;
      RemoveBehind(base, t, front);
      SkipBase(base, RemoveEach(t, front), last);
    }
  }

  lemma {:induction false} SkipBase(base: seq<NatRule>, t: seq<NatRule>, r: NatRule)
    requires r !in base
    ensures RemoveFirst(base + t, r) == base + RemoveFirst(t, r)
  {
    if base == [] {
      assert base + t == t;
    } else {
      assert base[0] in base && (base + t)[1..] == base[1..] + t;
      SkipBase(base[1..], t, r);
      assert base == [base[0]] + base[1..];
    }
  }

  lemma TailRuleAnnounced(localOnly: bool, live: set<Publication>, r: NatRule, p: Packet)
    returns (b: Publication, f: Forward)
    requires FromLive(r, localOnly, live) && Hits(r, p)
    ensures b in live && f in b.forwards && Announces(localOnly, f, p) && r == RuleOf(localOnly, b.id, b.ip, f)
  {
    b :| b in live && r in Rules(localOnly, b);
    var i :| 0 <= i < |b.forwards| && r == Rules(localOnly, b)[i];
    f := b.forwards[i];
    AnnouncesMeans(localOnly, b, f, p);
  }

  lemma AnnouncedRule(localOnly: bool, live: set<Publication>, b: Publication, f: Forward, p: Packet)
    requires b in live && f in b.forwards && Announces(localOnly, f, p)
    ensures FromLive(RuleOf(localOnly, b.id, b.ip, f), localOnly, live)
    ensures Hits(RuleOf(localOnly, b.id, b.ip, f), p)
  {
    AnnouncesMeans(localOnly, b, f, p);
    var i :| 0 <= i < |b.forwards| && b.forwards[i] == f;
    assert Rules(localOnly, b)[i] == RuleOf(localOnly, b.id, b.ip, f);
  }

  /**
    After any run, a packet no foreign rule takes goes to the live sandbox that published its port, and is left alone
    when none did.
   */
  lemma PublishedPortsLead(base: seq<NatRule>, localOnly: bool, ops: seq<Op>, p: Packet, ip: string, port: int)
    requires CanRun(ops) && forall r, i :: r in base && 0 <= i < |ops| ==> !Owned(r, ops[i].b.id)
    requires forall r :: r in base ==> !Hits(r, p)
    requires forall b, f :: b in Live(ops) && f in b.forwards && Announces(localOnly, f, p) ==>
      b.ip == ip && f.containerPort == port
    ensures Translate(Run(base, localOnly, ops), p) ==
      if exists b, f :: b in Live(ops) && f in b.forwards && Announces(localOnly, f, p) then To(ip, port) else Unchanged
  {
    var tail := RunHoldsLive(base, localOnly, ops);
    var rs := base + tail;
    forall r | r in rs && Hits(r, p)
      ensures r.Dnat? && r.ip == ip && r.port == port
      ensures exists b, f :: b in Live(ops) && f in b.forwards && Announces(localOnly, f, p)
    {
      assert r in tail;
      var b, f := TailRuleAnnounced(localOnly, Live(ops), r, p);
    }
    TranslateAgreed(rs, p, ip, port);
    if b, f :| b in Live(ops) && f in b.forwards && Announces(localOnly, f, p) {
      AnnouncedRule(localOnly, Live(ops), b, f, p);
      assert RuleOf(localOnly, b.id, b.ip, f) in rs;
    }
  }

  // ---------- The calls ----------

  class NatTable {
    var prerouting: seq<NatRule>
    var output: seq<NatRule>

    method ApplyHostPortDNAT(b: Publication)
      modifies this
      ensures prerouting == Perform(old(prerouting), false, Publish(b))
      ensures output == Perform(old(output), true, Publish(b))
    {
      for i := 0 to |b.forwards|
        invariant prerouting == AppendAll(old(prerouting), Rules(false, b)[..i])
        invariant output == AppendAll(old(output), Rules(true, b)[..i])
      {
        var f := b.forwards[i];
        var proto := ToLower(TrimSpace(f.protocol));
        if proto == "" {
          proto := "tcp";
        }
        assert Rules(false, b)[..i + 1][..i] == Rules(false, b)[..i] &&
          Rules(true, b)[..i + 1][..i] == Rules(true, b)[..i];
        prerouting := AppendNew(prerouting, Dnat(false, b.id, proto, f.hostPort, b.ip, f.containerPort));
        output := AppendNew(output, Dnat(true, b.id, proto, f.hostPort, b.ip, f.containerPort));
      }
      assert Rules(false, b)[..|b.forwards|] == Rules(false, b) && Rules(true, b)[..|b.forwards|] == Rules(true, b);
    }

    method DeleteHostPortDNAT(b: Publication)
      modifies this
      ensures prerouting == Perform(old(prerouting), false, Unpublish(b))
      ensures output == Perform(old(output), true, Unpublish(b))
    {
      for i := 0 to |b.forwards|
        invariant prerouting == RemoveEach(old(prerouting), Rules(false, b)[..i])
        invariant output == RemoveEach(old(output), Rules(true, b)[..i])
      {
        var f := b.forwards[i];
        var proto := ToLower(TrimSpace(f.protocol));
        if proto == "" {
          proto := "tcp";
        }
        assert Rules(false, b)[..i + 1][..i] == Rules(false, b)[..i] &&
          Rules(true, b)[..i + 1][..i] == Rules(true, b)[..i];
        prerouting := RemoveFirst(prerouting, Dnat(false, b.id, proto, f.hostPort, b.ip, f.containerPort));
        output := RemoveFirst(output, Dnat(true, b.id, proto, f.hostPort, b.ip, f.containerPort));
      }
      assert Rules(false, b)[..|b.forwards|] == Rules(false, b) && Rules(true, b)[..|b.forwards|] == Rules(true, b);
    }
  }
}
