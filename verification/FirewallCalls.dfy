/** The iptables object and the functions of firewall.go, call by call. */
module FirewallCalls {
  import opened Netfilter
  import opened FirewallRules
  import opened Firewall
  import opened FirewallHooks

  class Iptables {
    var filter: Table

    method NewChain(c: Chain)
      modifies this
      ensures filter == Netfilter.NewChain(old(filter), c)
    {
      if c !in filter {
        filter := filter[c := []];
      }
    }

    method AppendUnique(c: Chain, r: Rule) returns (ok: bool)
      modifies this
      ensures ok <==> c in old(filter)
      ensures filter == Netfilter.AppendUnique(old(filter), c, r)
    {
      ok := c in filter;
      if ok && r !in filter[c] {
        filter := filter[c := filter[c] + [r]];
      }
    }

    method Delete(c: Chain, r: Rule)
      modifies this
      ensures filter == Netfilter.Delete(old(filter), c, r)
    {
      if c in filter {
        filter := filter[c := RemoveFirst(filter[c], r)];
      }
    }

    method Insert(c: Chain, pos: int, r: Rule) returns (ok: bool)
      modifies this
      ensures ok <==> c in old(filter) && 1 <= pos <= |old(filter)[c]| + 1
      ensures filter == Netfilter.Insert(old(filter), c, pos, r)
    {
      ok := c in filter && 1 <= pos <= |filter[c]| + 1;
      if ok {
        filter := filter[c := filter[c][..pos - 1] + [r] + filter[c][pos - 1..]];
      }
    }

    method ClearAndDeleteChains(b: Plan)
      modifies this
      ensures filter == DeleteChain(DeleteChain(ClearChain(ClearChain(old(filter), Fwd(b.short)), In(b.short)),
        Fwd(b.short)), In(b.short))
    {
      filter := filter[Fwd(b.short) := []][In(b.short) := []];
      if !Referenced(filter, Fwd(b.short)) {
        filter := filter - {Fwd(b.short)};
      }
      if !Referenced(filter, In(b.short)) {
        filter := filter - {In(b.short)};
      }
    }

    method InsertFirst(c: Chain, r: Rule) returns (ok: bool)
      modifies this
      ensures ok <==> c in old(filter)
      ensures filter == FirewallHooks.InsertFirst(old(filter), c, r)
    {
      Delete(c, r);
      ok := Insert(c, 1, r);
    }

    method EnsureGlobalChains(names: seq<string>)
      requires Forward in filter && Input in filter
      modifies this
      ensures filter == EnsureGlobal(old(filter), names)
    {
      NewChain(SandboxFwd);
      NewChain(SandboxIn);
      var _ := InsertFirst(Forward, MARKED);
      var _ := InsertFirst(Forward, ESTABLISHED);
      var hooks := names;
      if hooks == [] {
        hooks := ["FORWARD"];
      }
      if !MentionsForward(hooks) {
        hooks := ["FORWARD"] + hooks;
      }
      NoNamesMeansForward();
      assert hooks == HookNames(names);
      ghost var t2 := filter;
      for i := 0 to |hooks|
        invariant filter == HookAll(t2, hooks[..i])
      {
        assert hooks[..i + 1][..i] == hooks[..i];
        var name := Normal(hooks[i]);
        if name != "" && ChainNamed(name) in filter {
          var _ := InsertFirst(ChainNamed(name), FWD_HOOK);
        }
      }
      assert hooks[..|hooks|] == hooks;
      var _ := InsertFirst(Input, IN_HOOK);
    }

    /** One more rule at the end of a chain under construction. */
    method Extend(c: Chain, r: Rule, ghost t: Table, ghost done: seq<Rule>)
      requires c in t && filter == AppendAllTo(t, c, done)
      modifies this
      ensures filter == AppendAllTo(t, c, done + [r])
    {
      assert (done + [r])[..|done|] == done;
      var _ := AppendUnique(c, r);
    }

    method ApplySandboxRules(b: Box) returns (ok: bool)
      modifies this
      ensures filter == Apply(old(filter), Compile(b))
      ensures ok <==> SandboxFwd in old(filter) && SandboxIn in old(filter)
    {
      NewChain(Fwd(b.short));
      NewChain(In(b.short));
      ok := AppendUnique(SandboxFwd, FwdJump(b));
      if !ok {
        return;
      }
      ok := AppendUnique(SandboxIn, InJump(b));
      if !ok {
        return;
      }
      InsertForwardAccepts(b);
      ghost var t3 := filter;
      assert Fwd(b.short) in t3 && In(b.short) in t3 by {
        EarlyKeepsChains(old(filter), b);
      }
      AppendForwardRules(b);
      AppendInputRules(b);
    }

    method InsertForwardAccepts(b: Box)
      modifies this
      ensures filter == InsertEarlyAll(old(filter), EarlyRules(b))
    {
      ghost var t, rules := filter, EarlyRules(b);
      for i := 0 to |b.ports|
        invariant filter == InsertEarlyAll(t, rules[..i])
      {
        assert rules[..i + 1][..i] == rules[..i];
        var r := EarlyRule(b, b.ports[i]);
        Delete(Forward, r);
        var _ := Insert(Forward, 2, r);
      }
      assert rules[..|rules|] == rules;
    }

    method AppendForwardRules(b: Box)
      requires Fwd(b.short) in filter
      modifies this
      ensures filter == AppendAllTo(old(filter), Fwd(b.short), FwdRules(b))
    {
      ghost var t := filter;
      var c := Fwd(b.short);
      assert filter == AppendAllTo(t, c, []);
      Extend(c, ESTABLISHED, t, []);
      assert [] + [ESTABLISHED] == [ESTABLISHED];
      ghost var done := [ESTABLISHED];
      if b.egress {
        for i := 0 to |b.nameservers|
          invariant done == [ESTABLISHED] + NameserverRules(b.nameservers[..i])
          invariant filter == AppendAllTo(t, c, done)
        {
          var udp, tcp := Rule(DstService(b.nameservers[i], "udp", 53), Accept),
            Rule(DstService(b.nameservers[i], "tcp", 53), Accept);
          Extend(c, udp, t, done);
          Extend(c, tcp, t, done + [udp]);
          assert b.nameservers[..i + 1][..i] == b.nameservers[..i];
          assert done + [udp] + [tcp] == [ESTABLISHED] + NameserverRules(b.nameservers[..i + 1]);
          done := done + [udp] + [tcp];
        }
        assert b.nameservers[..|b.nameservers|] == b.nameservers;
        Extend(c, Rule(Dport("udp", 53), Accept), t, done);
        Extend(c, Rule(Dport("tcp", 53), Accept), t, done + [Rule(Dport("udp", 53), Accept)]);
        done := done + [Rule(Dport("udp", 53), Accept)] + [Rule(Dport("tcp", 53), Accept)];
      }
      assert done == [ESTABLISHED] + DnsRules(b);
      Extend(c, Rule(LocalDst, Reject), t, done);
      done := done + [Rule(LocalDst, Reject)];
      done := AppendRejects(c, RejectedNetworks(b.bridgeCidr), t, done);
      Extend(c, Rule(Always, if b.egress then Accept else Reject), t, done);
    }

    method AppendRejects(c: Chain, nets: seq<Cidr>, ghost t: Table, ghost before: seq<Rule>)
      returns (ghost done: seq<Rule>)
      requires c in t && filter == AppendAllTo(t, c, before)
      modifies this
      ensures done == before + RejectRules(nets) && filter == AppendAllTo(t, c, done)
    {
      done := before;
      for i := 0 to |nets|
        invariant done == before + RejectRules(nets)[..i]
        invariant filter == AppendAllTo(t, c, done)
      {
        Extend(c, Rule(DstIn(nets[i]), Reject), t, done);
        assert done + [Rule(DstIn(nets[i]), Reject)] == before + RejectRules(nets)[..i + 1];
        done := done + [Rule(DstIn(nets[i]), Reject)];
      }
      assert RejectRules(nets)[..|nets|] == RejectRules(nets);
    }

    method AppendInputRules(b: Box)
      requires In(b.short) in filter
      modifies this
      ensures filter == AppendAllTo(old(filter), In(b.short), InRules(b))
    {
      ghost var t := filter;
      var c := In(b.short);
      assert filter == AppendAllTo(t, c, []);
      Extend(c, ESTABLISHED, t, []);
      assert [] + [ESTABLISHED] == [ESTABLISHED];
      ghost var done := [ESTABLISHED];
      for i := 0 to |b.ports|
        invariant done == [ESTABLISHED] + SportRules(b)[..i]
        invariant filter == AppendAllTo(t, c, done)
      {
        var r := Rule(Sport(Proto(b.ports[i].protocol), b.ports[i].number), Accept);
        Extend(c, r, t, done);
        assert done + [r] == [ESTABLISHED] + SportRules(b)[..i + 1];
        done := done + [r];
      }
      assert SportRules(b)[..|b.ports|] == SportRules(b);
      Extend(c, Rule(Always, Reject), t, done);
    }

    method DeleteSandboxRules(b: Box)
      modifies this
      ensures filter == DeleteRules(old(filter), Compile(b))
    {
      ghost var t, rules := filter, EarlyRules(b);
      for i := 0 to |b.ports|
        invariant filter == DeleteAllFrom(t, Forward, rules[..i])
      {
        assert rules[..i + 1][..i] == rules[..i];
        Delete(Forward, EarlyRule(b, b.ports[i]));
      }
      assert rules[..|rules|] == rules;
      Delete(SandboxFwd, FwdJump(b));
      Delete(SandboxIn, InJump(b));
      ClearAndDeleteChains(Compile(b));
    }
  }

  lemma NoNamesMeansForward()
    ensures MentionsForward(["FORWARD"])
  {
    assert Normal("FORWARD") == "FORWARD";
    assert ["FORWARD"][0] == "FORWARD";
  }

  lemma {:induction false} EarlyChains(t: Table, rules: seq<Rule>)
    ensures InsertEarlyAll(t, rules).Keys == t.Keys
  {
    if rules == [] {
    } else {
      EarlyChains(t, rules[..|rules| - 1]);
    }
  }

  lemma EarlyKeepsChains(t: Table, b: Box)
    ensures var t1 := Netfilter.NewChain(Netfilter.NewChain(t, Fwd(b.short)), In(b.short));
      var t2 := Netfilter.AppendUnique(Netfilter.AppendUnique(t1, SandboxFwd, FwdJump(b)), SandboxIn, InJump(b));
      var t3 := InsertEarlyAll(t2, EarlyRules(b));
      Fwd(b.short) in t3 && In(b.short) in t3
  {
    var t1 := Netfilter.NewChain(Netfilter.NewChain(t, Fwd(b.short)), In(b.short));
    EarlyChains(Netfilter.AppendUnique(Netfilter.AppendUnique(t1, SandboxFwd, FwdJump(b)), SandboxIn, InJump(b)),
      EarlyRules(b));
  }
}
