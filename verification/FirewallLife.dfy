/**
  Runs in which the global chains may be ensured again at any time, as every restart of the agent does. After a restart
  the table no longer has the canonical order, so the invariant speaks of dispatch, of tidiness and of where rules
  come from.
 */
module FirewallLife {
  import opened Netfilter
  import opened FirewallRules
  import opened Firewall
  import opened FirewallRuns
  import opened FirewallPolicy
  import opened FirewallHooks

  datatype LifeOp = Change(op: Op) | Restart(names: seq<string>)

  predicate Global(r: Rule) {
    r == ESTABLISHED || r == MARKED || r == FWD_HOOK || r == IN_HOOK
  }

  /** Early rules are never the global ones. */
  ghost predicate Ordinary(b: Plan) {
    Proper(b) && forall r :: r in EarlySet(b) ==> !Global(r)
  }

  ghost predicate Family(live: seq<Plan>) {
    && (forall i :: 0 <= i < |live| ==> Ordinary(live[i]))
    && AllApart(live)
  }

  /** The rules a sandbox brings, and where. */
  predicate Brings(b: Plan, k: Chain, r: Rule) {
    || (k == Forward && r in b.early)
    || (k == SandboxFwd && r == b.fwdJump)
    || (k == SandboxIn && r == b.inJump)
    || ((k == Fwd(b.short) || k == In(b.short)) && !r.target.Jump?)
  }

  predicate RuleKnown(base: Table, live: seq<Plan>, k: Chain, r: Rule) {
    (k in base && r in base[k]) || Global(r) || exists b :: b in live && Brings(b, k, r)
  }

  predicate ChainKnown(base: Table, live: seq<Plan>, k: Chain) {
    k in base || exists b :: b in live && (k == Fwd(b.short) || k == In(b.short))
  }

  /** Every chain and rule comes from the base, is global, or belongs to a live sandbox. */
  ghost predicate Traced(t: Table, base: Table, live: seq<Plan>) {
    && (forall k :: k in t ==> ChainKnown(base, live, k))
    && (forall k: Chain, r: Rule :: k in t && r in t[k] ==> RuleKnown(base, live, k, r))
  }

  ghost predicate AllTidy(t: Table, live: seq<Plan>) {
    forall b :: b in live ==> Tidy(t, b)
  }

  ghost predicate Good(t: Table, base: Table, live: seq<Plan>) {
    && HasChains(t) && (exists k :: Serves(t, live, k))
    && Entered(t) && Family(live) && AllTidy(t, live) && Traced(t, base, live)
  }

  // ---------- What may be installed ----------

  ghost predicate CanChange(base: Table, live: seq<Plan>, op: LifeOp) {
    match op
    case Change(Install(b)) => Ordinary(b) && Fresh(base, b) && forall c :: c in live ==> Apart(c, b)
    case Change(Uninstall(b)) => b in live
    case Restart(names) => ForeignHooks(names)
  }

  function LiveNext(live: seq<Plan>, op: LifeOp): seq<Plan> {
    match op
    case Change(o) => LiveAfter(live, o)
    case Restart(_) => live
  }

  function TableNext(t: Table, op: LifeOp): Table {
    match op
    case Change(o) => Perform(t, o)
    case Restart(names) => EnsureGlobal(t, names)
  }

  lemma FamilyMember(live: seq<Plan>, b: Plan, c: Plan)
    requires Family(live) && b in live && c in live
    ensures Ordinary(b) && (b != c ==> Apart(b, c))
  {
    var i :| 0 <= i < |live| && live[i] == b;
    var j :| 0 <= j < |live| && live[j] == c;
    assert i < j ==> Apart(live[i], live[j]);
    assert j < i ==> Apart(live[j], live[i]);
  }

  /** A sandbox that is fresh for the base and apart from the live ones is fresh for the table. */
  lemma TracedFresh(t: Table, base: Table, live: seq<Plan>, b: Plan)
    requires Traced(t, base, live) && Hooked(t) && Fresh(base, b) && Ordinary(b)
    requires forall c :: c in live ==> Apart(c, b) && Proper(c)
    ensures Fresh(t, b)
  {
    assert ChainKnown(base, live, Fwd(b.short)) <==> Fwd(b.short) in base;
    assert ChainKnown(base, live, In(b.short)) <==> In(b.short) in base;
    forall k: Chain, r: Rule | k in t && r in t[k]
      ensures r.target != Jump(Fwd(b.short)) && r.target != Jump(In(b.short))
    {
      assert RuleKnown(base, live, k, r);
    }
    forall r | r in EarlySet(b) ensures r !in t[Forward] {
      KnownEarly(base, live, b, r);
    }
  }

  lemma KnownEarly(base: Table, live: seq<Plan>, b: Plan, r: Rule)
    requires Fresh(base, b) && Ordinary(b) && r in EarlySet(b)
    requires forall c :: c in live ==> Apart(c, b) && Proper(c)
    ensures !RuleKnown(base, live, Forward, r)
  {
    forall c | c in live ensures !Brings(c, Forward, r) {
      assert Apart(c, b) && r in c.early ==> r in EarlySet(c);
    }
  }

  // ---------- Installing ----------

  lemma AddBrings(t: Table, b: Plan, k: Chain, r: Rule)
    requires Proper(b) && Hooked(t) && k in Add(t, b) && r in Add(t, b)[k]
    ensures (k in t && r in t[k]) || Brings(b, k, r)
  {
    BlockMembers(b.early, r);
    AppendNewMembers([], b.fwd, r);
    AppendNewMembers([], b.inn, r);
    assert r in t[Forward][1..] ==> r in t[Forward];
  }

  lemma KnownMore(base: Table, live: seq<Plan>, more: seq<Plan>, k: Chain, r: Rule)
    requires forall c :: c in live ==> c in more
    ensures RuleKnown(base, live, k, r) ==> RuleKnown(base, more, k, r)
    ensures ChainKnown(base, live, k) ==> ChainKnown(base, more, k)
  {
  }

  lemma AddTraced(t: Table, base: Table, live: seq<Plan>, b: Plan)
    requires Traced(t, base, live) && Proper(b) && Hooked(t)
    ensures Traced(Add(t, b), base, live + [b])
  {
    var a, more := Add(t, b), live + [b];
    assert b in more;
    forall k | k in a ensures ChainKnown(base, more, k) {
      KnownMore(base, live, more, k, FWD_HOOK);
    }
    forall k: Chain, r: Rule | k in a && r in a[k] ensures RuleKnown(base, more, k, r) {
      AddBrings(t, b, k, r);
      KnownMore(base, live, more, k, r);
    }
  }

  lemma FamilyGrows(live: seq<Plan>, b: Plan)
    requires Family(live) && Ordinary(b) && forall c :: c in live ==> Apart(c, b)
    ensures Family(live + [b])
  {
    forall i | 0 <= i < |live| ensures Apart(live[i], b) {
      assert live[i] in live;
    }
  }

  lemma AddTidy(t: Table, live: seq<Plan>, b: Plan)
    requires AllTidy(t, live) && Family(live) && Ordinary(b) && Fresh(t, b) && forall c :: c in live ==> Apart(c, b)
    ensures AllTidy(Add(t, b), live + [b])
  {
    forall c | c in live + [b] ensures Tidy(Add(t, b), c) {
      if c in live {
        FamilyMember(live, c, c);
        TidyAdd(t, c, b);
      } else {
        TidyNew(t, b);
      }
    }
  }

  lemma InstallGood(t: Table, base: Table, live: seq<Plan>, b: Plan)
    requires Good(t, base, live) && CanChange(base, live, Change(Install(b)))
    ensures Fresh(t, b) && Apply(t, b) == Add(t, b) && Good(Add(t, b), base, live + [b])
  {
    var k :| Serves(t, live, k);
    forall c | c in live ensures Apart(c, b) && Proper(c) && c.short != b.short {
      FamilyMember(live, c, c);
    }
    TracedFresh(t, base, live, b);
    ApplyIsAdd(t, b);
    AddServes(t, live, b, k);
    FamilyGrows(live, b);
    AddTidy(t, live, b);
    AddTraced(t, base, live, b);
  }

  // ---------- Removing ----------

  lemma SubRules(t: Table, b: Plan, k: Chain, r: Rule)
    requires Proper(b) && Hooked(t) && k in Sub(t, b)
    ensures k in t && (r in Sub(t, b)[k] ==> r in t[k])
    ensures k == Forward ==> (r in Sub(t, b)[k] <==> r in t[k] && r !in EarlySet(b))
    ensures k == SandboxFwd ==> (r in Sub(t, b)[k] <==> r in t[k] && r != b.fwdJump)
    ensures k == SandboxIn ==> (r in Sub(t, b)[k] <==> r in t[k] && r != b.inJump)
    ensures k != Fwd(b.short) && k != In(b.short)
  {
    WithoutMembers(t[Forward], EarlySet(b), r);
    WithoutMembers(t[SandboxFwd], {b.fwdJump}, r);
    WithoutMembers(t[SandboxIn], {b.inJump}, r);
  }

  lemma StillKnown(base: Table, live: seq<Plan>, b: Plan, k: Chain, r: Rule)
    requires RuleKnown(base, live, k, r) && !Brings(b, k, r)
    ensures RuleKnown(base, Removed(live, b), k, r)
  {
    if c :| c in live && Brings(c, k, r) {
      RemovedMembers(live, b, c);
    }
  }

  lemma SubTraced(t: Table, base: Table, live: seq<Plan>, b: Plan)
    requires Traced(t, base, live) && Proper(b) && Hooked(t)
    ensures Traced(Sub(t, b), base, Removed(live, b))
  {
    var u := Sub(t, b);
    forall k | k in u ensures ChainKnown(base, Removed(live, b), k) {
      SubRules(t, b, k, FWD_HOOK);
      assert ChainKnown(base, live, k);
      if c :| c in live && (k == Fwd(c.short) || k == In(c.short)) {
        RemovedMembers(live, b, c);
      }
    }
    forall k: Chain, r: Rule | k in u && r in u[k] ensures RuleKnown(base, Removed(live, b), k, r) {
      SubRules(t, b, k, r);
      assert RuleKnown(base, live, k, r);
      StillKnown(base, live, b, k, r);
    }
  }

  lemma SubTidyOther(t: Table, b: Plan, c: Plan)
    requires Tidy(t, c) && Proper(b) && Proper(c) && Apart(b, c)
    ensures Tidy(Sub(t, b), c)
  {
    var u := Sub(t, b);
    SubKeepsHooks(t, b);
    forall r | r in EarlySet(c) ensures AtMostOnce(u[Forward], r) {
      WithoutMembers(t[Forward], EarlySet(b), r);
    }
    WithoutMembers(t[SandboxFwd], {b.fwdJump}, c.fwdJump);
    WithoutMembers(t[SandboxIn], {b.inJump}, c.inJump);
    forall k: Chain, r: Rule | k in u && r in u[k]
      ensures r.target == Jump(Fwd(c.short)) ==> k == SandboxFwd && r == c.fwdJump
      ensures r.target == Jump(In(c.short)) ==> k == SandboxIn && r == c.inJump
    {
      SubRules(t, b, k, r);
    }
  }

  lemma FamilyShrinks(live: seq<Plan>, b: Plan)
    requires Family(live)
    ensures Family(Removed(live, b))
    ensures forall c :: c in Removed(live, b) ==> c in live && (b in live ==> c != b)
  {
    AllApartRemoved(live, b);
    forall c | c in Removed(live, b) ensures c in live && (b in live ==> c != b) {
      RemovedMembers(live, b, c);
      if b in live {
        RemovedOnce(live, b);
      }
    }
    var rest := Removed(live, b);
    forall i | 0 <= i < |rest| ensures Ordinary(rest[i]) {
      assert rest[i] in rest;
      FamilyMember(live, rest[i], rest[i]);
    }
  }

  /** Taking one jump out of a list that ends in another. */
  lemma WithoutBefore(rs: seq<Rule>, last: Rule, r: Rule)
    ensures Without(rs + [last], {r}) == if last == r then Without(rs, {r}) else Without(rs, {r}) + [last]
  {
    WithoutConcat(rs, [last], {r});
    if last == r {
      WithoutAll([last], {r});
    } else {
      WithoutNone([last], {r});
    }
  }

  lemma {:induction false} WithoutJumps(live: seq<Plan>, b: Plan)
    requires Family(live) && b in live
    ensures Without(FwdJumps(live), {b.fwdJump}) == FwdJumps(Removed(live, b))
    ensures Without(InJumps(live), {b.inJump}) == InJumps(Removed(live, b))
  {
    var front, last := live[..|live| - 1], live[|live| - 1];
    assert live == front + [last];
    assert FwdJumps(live) == FwdJumps(front) + [last.fwdJump] && InJumps(live) == InJumps(front) + [last.inJump];
    WithoutBefore(FwdJumps(front), last.fwdJump, b.fwdJump);
    WithoutBefore(InJumps(front), last.inJump, b.inJump);
    if last == b {
      OthersJumpElsewhere(live, b);
      WithoutNone(FwdJumps(front), {b.fwdJump});
      WithoutNone(InJumps(front), {b.inJump});
    } else {
      FamilyMember(live, b, last);
      FamilyMember(live, last, b);
      FamilyFront(live);
      WithoutJumps(front, b);
      JumpsAppend(Removed(front, b), last);
    }
  }

  lemma JumpsAppend(live: seq<Plan>, b: Plan)
    ensures FwdJumps(live + [b]) == FwdJumps(live) + [b.fwdJump] && InJumps(live + [b]) == InJumps(live) + [b.inJump]
  {
  }

  lemma FamilyFront(live: seq<Plan>)
    requires Family(live) && live != []
    ensures Family(live[..|live| - 1])
  {
  }

  lemma OthersJumpElsewhere(live: seq<Plan>, b: Plan)
    requires Family(live) && live != [] && live[|live| - 1] == b
    ensures b.fwdJump !in FwdJumps(live[..|live| - 1]) && b.inJump !in InJumps(live[..|live| - 1])
  {
    forall i | 0 <= i < |live| - 1 ensures live[i].fwdJump != b.fwdJump && live[i].inJump != b.inJump {
      assert Apart(live[i], live[|live| - 1]) && Ordinary(live[i]) && Ordinary(live[|live| - 1]);
    }
  }

  lemma SliceBehindHead(rs: seq<Rule>, k: nat)
    requires 1 + k <= |rs|
    ensures rs[1..1 + k] == rs[1..][..k] && rs[1..] == rs[1..][..k] + rs[1..][k..]
  {
  }

  lemma LeadBehindHead(head: Rule, lead: seq<Rule>, rest: seq<Rule>)
    ensures ([head] + (lead + rest))[1..1 + |lead|] == lead
  {
  }

  lemma MembersWithout(x: seq<Rule>, s: set<Rule>)
    ensures forall r :: r in Without(x, s) <==> r in x && r !in s
  {
    forall r ensures r in Without(x, s) <==> r in x && r !in s {
      WithoutMembers(x, s, r);
    }
  }

  /** FORWARD keeps its shape: what is left of the early rules still leads. */
  lemma SubForward(t: Table, b: Plan, k: nat) returns (k': nat, lead: seq<Rule>)
    requires Proper(b) && Hooked(t) && 1 + k <= |t[Forward]|
    ensures 1 + k' <= |Sub(t, b)[Forward]| && lead == Sub(t, b)[Forward][1..1 + k']
    ensures forall r :: r in lead <==> r in t[Forward][1..1 + k] && r !in EarlySet(b)
  {
    var tail, gone := t[Forward][1..], EarlySet(b);
    SliceBehindHead(t[Forward], k);
    SubKeepsHooks(t, b);
    WithoutConcat(tail[..k], tail[k..], gone);
    lead := Without(tail[..k], gone);
    k' := |lead|;
    LeadBehindHead(FWD_HOOK, lead, Without(tail[k..], gone));
    MembersWithout(tail[..k], gone);
  }

  lemma SubChains(t: Table, live: seq<Plan>, b: Plan, c: Plan, k: nat)
    requires Serves(t, live, k) && Family(live) && b in live && c in Removed(live, b)
    ensures Fwd(c.short) in Sub(t, b) && Sub(t, b)[Fwd(c.short)] == AppendAll([], c.fwd)
    ensures In(c.short) in Sub(t, b) && Sub(t, b)[In(c.short)] == AppendAll([], c.inn)
  {
    FamilyShrinks(live, b);
    FamilyMember(live, c, b);
  }

  lemma SubEarly(t: Table, live: seq<Plan>, b: Plan, c: Plan, k: nat, r: Rule)
    requires Serves(t, live, k) && Family(live) && b in live && c in Removed(live, b) && r in c.early
    ensures r in t[Forward][1..1 + k] && r !in EarlySet(b)
  {
    FamilyShrinks(live, b);
    FamilyMember(live, c, b);
    assert r in EarlySet(c);
  }

  lemma SubDispatch(t: Table, live: seq<Plan>, b: Plan, k: nat)
    requires Serves(t, live, k) && Family(live) && b in live
    ensures Hooked(Sub(t, b))
    ensures Sub(t, b)[SandboxFwd] == FwdJumps(Removed(live, b)) && Sub(t, b)[SandboxIn] == InJumps(Removed(live, b))
  {
    FamilyMember(live, b, b);
    SubKeepsHooks(t, b);
    WithoutJumps(live, b);
  }

  lemma SubServes(t: Table, live: seq<Plan>, b: Plan, k: nat) returns (k': nat)
    requires Serves(t, live, k) && Family(live) && b in live
    ensures Serves(Sub(t, b), Removed(live, b), k')
  {
    FamilyMember(live, b, b);
    SubDispatch(t, live, b, k);
    var lead;
    k', lead := SubForward(t, b, k);
    var u, rest := Sub(t, b), Removed(live, b);
    forall c | c in rest
      ensures Fwd(c.short) in u && u[Fwd(c.short)] == AppendAll([], c.fwd)
      ensures In(c.short) in u && u[In(c.short)] == AppendAll([], c.inn)
    {
      SubChains(t, live, b, c, k);
    }
    forall r | r in lead ensures r.target == Accept {
      assert r in t[Forward][1..1 + k];
    }
    forall c, r | c in rest && r in c.early ensures r in lead {
      SubEarly(t, live, b, c, k, r);
    }
  }

  lemma SubTidy(t: Table, live: seq<Plan>, b: Plan)
    requires AllTidy(t, live) && Family(live) && b in live
    ensures AllTidy(Sub(t, b), Removed(live, b))
  {
    FamilyShrinks(live, b);
    forall c | c in Removed(live, b) ensures Tidy(Sub(t, b), c) {
      FamilyMember(live, b, c);
      FamilyMember(live, c, b);
      SubTidyOther(t, b, c);
    }
  }

  lemma SubEntered(t: Table, b: Plan)
    requires HasChains(t) && Entered(t)
    ensures Entered(Sub(t, b))
  {
  }

  lemma SubStillServes(t: Table, live: seq<Plan>, b: Plan)
    requires (exists k :: Serves(t, live, k)) && Family(live) && b in live
    ensures exists k :: Serves(Sub(t, b), Removed(live, b), k)
  {
    var k :| Serves(t, live, k);
    var k' := SubServes(t, live, b, k);
  }

  lemma SubGood(t: Table, base: Table, live: seq<Plan>, b: Plan)
    requires Good(t, base, live) && b in live
    ensures Good(Sub(t, b), base, Removed(live, b))
  {
    FamilyMember(live, b, b);
    SubStillServes(t, live, b);
    SubEntered(t, b);
    FamilyShrinks(live, b);
    SubTidy(t, live, b);
    SubTraced(t, base, live, b);
  }

  lemma UninstallGood(t: Table, base: Table, live: seq<Plan>, b: Plan)
    requires Good(t, base, live) && b in live
    ensures DeleteRules(t, b) == Sub(t, b) && Good(Sub(t, b), base, Removed(live, b))
  {
    FamilyMember(live, b, b);
    DeleteIsSub(t, b);
    SubGood(t, base, live, b);
  }

  // ---------- Restarting ----------

  lemma FirstMembers(rs: seq<Rule>, g: Rule, r: Rule)
    ensures r in First(rs, g) ==> r in rs || r == g
    ensures r != g ==> multiset(First(rs, g))[r] == multiset(rs)[r]
  {
    RemoveFirstKeeps(rs, g, r);
    RemoveFirstMembers(rs, g, r);
  }

  /** InsertFirst brings nothing but its rule. */
  ghost predicate OnlyGlobalsCame(t: Table, u: Table) {
    && u.Keys == t.Keys
    && forall k: Chain, r: Rule :: k in u && r in u[k] ==> r in t[k] || Global(r)
  }

  lemma InsertFirstComes(t: Table, c: Chain, g: Rule)
    requires c in t && Global(g)
    ensures OnlyGlobalsCame(t, InsertFirst(t, c, g))
  {
    InsertFirstIs(t, c, g);
    forall r | r in First(t[c], g) ensures r in t[c] || Global(r) {
      FirstMembers(t[c], g, r);
    }
  }

  lemma {:induction false} HookAllComes(t: Table, names: seq<string>)
    requires Forward in t && ForeignHooks(names)
    ensures OnlyGlobalsCame(t, HookAll(t, names))
  {
    if names == [] {
    } else {
      var front, name := names[..|names| - 1], names[|names| - 1];
      HookAllComes(t, front);
      var u := HookAll(t, front);
      if IsHook(u, name) {
        InsertFirstComes(u, ChainNamed(Normal(name)), FWD_HOOK);
      }
    }
  }

  lemma SandboxChainsThere(t: Table)
    requires SandboxFwd in t && SandboxIn in t
    ensures NewChain(NewChain(t, SandboxFwd), SandboxIn) == t
  {
  }

  lemma EnsureGlobalComes(t: Table, names: seq<string>)
    requires Hooked(t) && Input in t && ForeignHooks(names)
    ensures OnlyGlobalsCame(t, EnsureGlobal(t, names))
  {
    SandboxChainsThere(t);
    InsertFirstComes(t, Forward, MARKED);
    var t1 := InsertFirst(t, Forward, MARKED);
    InsertFirstComes(t1, Forward, ESTABLISHED);
    var t2 := InsertFirst(t1, Forward, ESTABLISHED);
    HookNamesOk(names);
    HookAllComes(t2, HookNames(names));
    InsertFirstComes(HookAll(t2, HookNames(names)), Input, IN_HOOK);
  }

  lemma FirstThreeMembers(rs: seq<Rule>, r: Rule)
    requires !Global(r)
    ensures multiset(First(First(First(rs, MARKED), ESTABLISHED), FWD_HOOK))[r] == multiset(rs)[r]
  {
    FirstMembers(rs, MARKED, r);
    FirstMembers(First(rs, MARKED), ESTABLISHED, r);
    FirstMembers(First(First(rs, MARKED), ESTABLISHED), FWD_HOOK, r);
  }

  lemma OnlyGlobalsTidy(t: Table, u: Table, b: Plan)
    requires Tidy(t, b) && Ordinary(b) && OnlyGlobalsCame(t, u) && Hooked(u)
    requires u[SandboxFwd] == t[SandboxFwd] && u[SandboxIn] == t[SandboxIn]
    requires forall r :: r in EarlySet(b) ==> AtMostOnce(u[Forward], r)
    ensures Tidy(u, b)
  {
    forall k: Chain, r: Rule | k in u && r in u[k]
      ensures r.target == Jump(Fwd(b.short)) ==> k == SandboxFwd && r == b.fwdJump
      ensures r.target == Jump(In(b.short)) ==> k == SandboxIn && r == b.inJump
    {
      assert r in t[k] || Global(r);
    }
  }

  lemma EnsureTidy(t: Table, b: Plan, names: seq<string>)
    requires Tidy(t, b) && Ordinary(b) && Input in t && ForeignHooks(names)
    ensures Tidy(EnsureGlobal(t, names), b)
  {
    EnsureGlobalEffect(t, names);
    EnsureGlobalComes(t, names);
    SandboxChainsThere(t);
    var u := EnsureGlobal(t, names);
    forall r | r in EarlySet(b) ensures AtMostOnce(u[Forward], r) {
      FirstThreeMembers(t[Forward], r);
    }
    OnlyGlobalsTidy(t, u, b);
  }

  lemma EnsureTraced(t: Table, base: Table, live: seq<Plan>, names: seq<string>)
    requires Traced(t, base, live) && Hooked(t) && Input in t && ForeignHooks(names)
    ensures Traced(EnsureGlobal(t, names), base, live)
  {
    EnsureGlobalComes(t, names);
    var u := EnsureGlobal(t, names);
    forall k: Chain, r: Rule | k in u && r in u[k] ensures RuleKnown(base, live, k, r) {
      assert r in t[k] ==> RuleKnown(base, live, k, r);
    }
  }

  lemma GlobalsNotEarly(live: seq<Plan>)
    requires Family(live)
    ensures forall b :: b in live ==> ESTABLISHED !in b.early && MARKED !in b.early
  {
    forall b | b in live ensures ESTABLISHED !in b.early && MARKED !in b.early {
      FamilyMember(live, b, b);
      assert ESTABLISHED in b.early ==> ESTABLISHED in EarlySet(b);
      assert MARKED in b.early ==> MARKED in EarlySet(b);
    }
  }

  lemma RestartGood(t: Table, base: Table, live: seq<Plan>, names: seq<string>)
    requires Good(t, base, live) && ForeignHooks(names)
    ensures Good(EnsureGlobal(t, names), base, live)
  {
    var k :| Serves(t, live, k);
    GlobalsNotEarly(live);
    var k' := EnsureGlobalKeepsServing(t, live, k, names);
    EnsureGlobalEffect(t, names);
    EnsureGlobalComes(t, names);
    forall b | b in live ensures Tidy(EnsureGlobal(t, names), b) {
      FamilyMember(live, b, b);
      EnsureTidy(t, b, names);
    }
    EnsureTraced(t, base, live, names);
  }

  // ---------- Runs ----------

  ghost predicate CanLive(base: Table, live: seq<Plan>, ops: seq<LifeOp>)
    decreases |ops|
  {
    ops == [] || (CanChange(base, live, ops[0]) && CanLive(base, LiveNext(live, ops[0]), ops[1..]))
  }

  function LiveLife(live: seq<Plan>, ops: seq<LifeOp>): seq<Plan>
    decreases |ops|
  {
    if ops == [] then live else LiveLife(LiveNext(live, ops[0]), ops[1..])
  }

  function TableLife(t: Table, ops: seq<LifeOp>): Table
    decreases |ops|
  {
    if ops == [] then t else TableLife(TableNext(t, ops[0]), ops[1..])
  }

  lemma ChangeGood(t: Table, base: Table, live: seq<Plan>, op: LifeOp)
    requires Good(t, base, live) && CanChange(base, live, op)
    ensures Good(TableNext(t, op), base, LiveNext(live, op))
  {
    match op
    case Change(Install(b)) => InstallGood(t, base, live, b);
    case Change(Uninstall(b)) => UninstallGood(t, base, live, b);
    case Restart(names) => RestartGood(t, base, live, names);
  }

  /** The invariant over any installs, removals and restarts. */
  lemma {:induction false} LifeIsGood(t: Table, base: Table, live: seq<Plan>, ops: seq<LifeOp>)
    requires Good(t, base, live) && CanLive(base, live, ops)
    ensures Good(TableLife(t, ops), base, LiveLife(live, ops))
    decreases |ops|
  {
    if ops == [] {
    } else {
      ChangeGood(t, base, live, ops[0]);
      LifeIsGood(TableNext(t, ops[0]), base, LiveNext(live, ops[0]), ops[1..]);
    }
  }

  lemma BareIsGood(base: Table)
    requires Hooked(base) && Entered(base) && base[SandboxFwd] == [] && base[SandboxIn] == []
    ensures Good(base, base, [])
  {
    HookServes(base);
  }

  // ---------- Removal commutes with everything that happens to others ----------

  lemma {:induction false} WithoutRemoveFirst(rs: seq<Rule>, g: Rule, s: set<Rule>)
    requires g !in s
    ensures Without(RemoveFirst(rs, g), s) == RemoveFirst(Without(rs, s), g)
  {
    if rs != [] && rs[0] != g {
      WithoutRemoveFirst(rs[1..], g, s);
      assert ([rs[0]] + RemoveFirst(rs[1..], g))[1..] == RemoveFirst(rs[1..], g);
      assert ([rs[0]] + Without(rs[1..], s))[1..] == Without(rs[1..], s);
    }
  }

  lemma WithoutFirst(rs: seq<Rule>, g: Rule, s: set<Rule>)
    requires g !in s
    ensures Without(First(rs, g), s) == First(Without(rs, s), g)
  {
    WithoutConcat([g], RemoveFirst(rs, g), s);
    WithoutNone([g], s);
    WithoutRemoveFirst(rs, g, s);
  }

  /** Changing a chain that does not belong to the sandboxes. */
  lemma SubElsewhere(t: Table, b: Plan, c: Chain, rs: seq<Rule>)
    requires HasChains(t) && c in t && (c.Input? || c.OtherChain?)
    ensures Sub(t[c := rs], b) == Sub(t, b)[c := rs] && c in Sub(t, b) && Sub(t, b)[c] == t[c]
  {
    assert Sub(t[c := rs], b).Keys == Sub(t, b)[c := rs].Keys;
    forall k | k in Sub(t, b) ensures Sub(t[c := rs], b)[k] == Sub(t, b)[c := rs][k] {
    }
  }

  lemma SubForwardList(t: Table, b: Plan, rs: seq<Rule>)
    requires HasChains(t)
    ensures Sub(t[Forward := rs], b) == Sub(t, b)[Forward := Without(rs, EarlySet(b))]
  {
    assert Sub(t[Forward := rs], b).Keys == Sub(t, b)[Forward := Without(rs, EarlySet(b))].Keys;
    forall k | k in Sub(t, b) ensures Sub(t[Forward := rs], b)[k] == Sub(t, b)[Forward := Without(rs, EarlySet(b))][k] {
    }
  }

  /** InsertFirst of a global rule, on a chain that is not one of the sandbox chains. */
  lemma SubInsertFirst(t: Table, b: Plan, c: Chain, g: Rule)
    requires HasChains(t) && Ordinary(b) && Global(g)
    requires c in t && (c.Forward? || c.Input? || c.OtherChain?)
    ensures c in Sub(t, b) && Sub(InsertFirst(t, c, g), b) == InsertFirst(Sub(t, b), c, g)
  {
    InsertFirstIs(t, c, g);
    if c.Forward? {
      SubForwardList(t, b, First(t[c], g));
      WithoutFirst(t[c], g, EarlySet(b));
    } else {
      SubElsewhere(t, b, c, First(t[c], g));
    }
    InsertFirstIs(Sub(t, b), c, g);
  }

  lemma SubHasNames(t: Table, b: Plan, name: string)
    requires HasChains(t)
    ensures IsHook(Sub(t, b), name) <==> IsHook(t, name)
  {
  }

  lemma {:induction false} SubHookAll(t: Table, b: Plan, names: seq<string>)
    requires HasChains(t) && Ordinary(b) && ForeignHooks(names)
    ensures HookAll(t, names).Keys == t.Keys && Sub(HookAll(t, names), b) == HookAll(Sub(t, b), names)
  {
    if names == [] {
    } else {
      var front, name := names[..|names| - 1], names[|names| - 1];
      HookAllEffect(t, front);
      SubHookAll(t, b, front);
      var u := HookAll(t, front);
      SubHasNames(u, b, name);
      if IsHook(u, name) {
        InsertFirstIs(u, ChainNamed(Normal(name)), FWD_HOOK);
        SubInsertFirst(u, b, ChainNamed(Normal(name)), FWD_HOOK);
      }
    }
  }

  lemma SubEnsure(t: Table, b: Plan, names: seq<string>)
    requires HasChains(t) && Input in t && Ordinary(b) && ForeignHooks(names)
    ensures HasChains(EnsureGlobal(t, names)) && Sub(EnsureGlobal(t, names), b) == EnsureGlobal(Sub(t, b), names)
  {
    SandboxChainsThere(t);
    SandboxChainsThere(Sub(t, b));
    SubInsertFirst(t, b, Forward, MARKED);
    InsertFirstIs(t, Forward, MARKED);
    var t1 := InsertFirst(t, Forward, MARKED);
    SubInsertFirst(t1, b, Forward, ESTABLISHED);
    InsertFirstIs(t1, Forward, ESTABLISHED);
    var t2 := InsertFirst(t1, Forward, ESTABLISHED);
    HookNamesOk(names);
    SubHookAll(t2, b, HookNames(names));
    SubInsertFirst(HookAll(t2, HookNames(names)), b, Input, IN_HOOK);
  }

  lemma {:induction false} WithoutSwap(rs: seq<Rule>, s: set<Rule>, u: set<Rule>)
    ensures Without(Without(rs, s), u) == Without(Without(rs, u), s)
  {
    WithoutTwice(rs, s, u);
    WithoutTwice(rs, u, s);
    assert s + u == u + s;
  }

  lemma SubSub(t: Table, b: Plan, c: Plan)
    requires HasChains(t)
    ensures Sub(Sub(t, b), c) == Sub(Sub(t, c), b)
  {
    WithoutSwap(t[Forward], EarlySet(b), EarlySet(c));
    WithoutSwap(t[SandboxFwd], {b.fwdJump}, {c.fwdJump});
    WithoutSwap(t[SandboxIn], {b.inJump}, {c.inJump});
    var x, y := Sub(Sub(t, b), c), Sub(Sub(t, c), b);
    assert x.Keys == y.Keys;
    forall k | k in x ensures x[k] == y[k] {
    }
  }

  ghost predicate Avoids(op: LifeOp, b: Plan) {
    op.Change? ==> op.op.plan != b
  }

  /** One operation on others, with and without b. */
  lemma ChangeWithout(t: Table, base: Table, live: seq<Plan>, op: LifeOp, b: Plan)
    requires Good(t, base, live) && CanChange(base, live, op) && b in live && Avoids(op, b)
    requires Good(Sub(t, b), base, Removed(live, b)) && CanChange(base, Removed(live, b), op)
    ensures HasChains(TableNext(t, op)) && Sub(TableNext(t, op), b) == TableNext(Sub(t, b), op)
  {
    FamilyMember(live, b, b);
    match op
    case Change(Install(c)) =>
      InstallGood(t, base, live, c);
      InstallGood(Sub(t, b), base, Removed(live, b), c);
      SubAddOther(t, b, c);
    case Change(Uninstall(c)) =>
      UninstallGood(t, base, live, c);
      UninstallGood(Sub(t, b), base, Removed(live, b), c);
      SubSub(t, c, b);
    case Restart(names) => SubEnsure(t, b, names);
  }

  lemma CanWithout(base: Table, live: seq<Plan>, op: LifeOp, b: Plan)
    requires Family(live) && CanChange(base, live, op) && b in live && Avoids(op, b)
    ensures CanChange(base, Removed(live, b), op) && Removed(LiveNext(live, op), b) == LiveNext(Removed(live, b), op)
    ensures b in LiveNext(live, op)
  {
    match op
    case Change(Install(c)) =>
      assert (live + [c])[..|live|] == live;
      forall d | d in Removed(live, b) ensures Apart(d, c) {
        RemovedMembers(live, b, d);
      }
    case Change(Uninstall(c)) =>
      RemovedSwap(live, b, c);
      RemovedMembers(live, b, c);
      RemovedMembers(live, c, b);
    case Restart(_) =>
  }

  /** A whole run of others, restarts included, with b live and with b taken out beforehand. */
  lemma {:induction false} LifeWithout(t: Table, base: Table, live: seq<Plan>, ops: seq<LifeOp>, b: Plan)
    requires Good(t, base, live) && CanLive(base, live, ops) && b in live && forall o :: o in ops ==> Avoids(o, b)
    ensures Good(TableLife(t, ops), base, LiveLife(live, ops)) && b in LiveLife(live, ops)
    ensures HasChains(TableLife(t, ops)) && Sub(TableLife(t, ops), b) == TableLife(Sub(t, b), ops)
    decreases |ops|
  {
    if ops == [] {
    } else {
      UninstallGood(t, base, live, b);
      CanWithout(base, live, ops[0], b);
      ChangeWithout(t, base, live, ops[0], b);
      ChangeGood(t, base, live, ops[0]);
      assert ops[0] in ops && forall o :: o in ops[1..] ==> o in ops;
      LifeWithout(TableNext(t, ops[0]), base, LiveNext(live, ops[0]), ops[1..], b);
    }
  }

  /**
    Install b, let anything happen to others and restart as often as you like, remove b: what the rest alone leaves.
   */
  lemma LifeRoundTrip(t: Table, base: Table, live: seq<Plan>, b: Plan, ops: seq<LifeOp>)
    requires Good(t, base, live) && CanChange(base, live, Change(Install(b))) && CanLive(base, live + [b], ops)
    requires forall o :: o in ops ==> Avoids(o, b)
    ensures DeleteRules(TableLife(Apply(t, b), ops), b) == TableLife(t, ops)
  {
    InstallGood(t, base, live, b);
    LifeWithout(Add(t, b), base, live + [b], ops, b);
    UninstallGood(TableLife(Add(t, b), ops), base, LiveLife(live + [b], ops), b);
    SubAdd(t, b);
  }
}
