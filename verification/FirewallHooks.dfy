/** The global chains (EnsureGlobalChains), also when they are ensured again under live sandboxes. */
module FirewallHooks {
  import opened Strings
  import opened Netfilter
  import opened FirewallRules
  import opened Firewall
  import opened FirewallPolicy

  const ESTABLISHED := Rule(Established, Accept)
  const MARKED := Rule(Marked, Accept)

  function ChainNamed(name: string): Chain {
    if name == "FORWARD" then Forward
    else if name == "INPUT" then Input
    else if name == "SANDBOX-FWD" then SandboxFwd
    else if name == "SANDBOX-IN" then SandboxIn
    else OtherChain(name)
  }

  function Normal(name: string): string {
    TrimSpace(ToUpper(name))
  }

  function InsertFirst(t: Table, c: Chain, r: Rule): Table {
    Insert(Netfilter.Delete(t, c, r), c, 1, r)
  }

  predicate IsHook(t: Table, name: string) {
    Normal(name) != "" && ChainNamed(Normal(name)) in t
  }

  /** Put the jump first in every listed chain that exists. */
  function HookAll(t: Table, names: seq<string>): Table {
    if names == [] then t
    else
      var u, name := HookAll(t, names[..|names| - 1]), names[|names| - 1];
      if IsHook(u, name) then InsertFirst(u, ChainNamed(Normal(name)), FWD_HOOK) else u
  }

  predicate MentionsForward(names: seq<string>) {
    exists i :: 0 <= i < |names| && Normal(names[i]) == "FORWARD"
  }

  function HookNames(names: seq<string>): seq<string> {
    if MentionsForward(names) then names else ["FORWARD"] + names
  }

  /** EnsureGlobalChains on a table with the kernel's own chains. */
  function EnsureGlobal(t: Table, names: seq<string>): Table {
    var t1 := NewChain(NewChain(t, SandboxFwd), SandboxIn);
    var t2 := InsertFirst(InsertFirst(t1, Forward, MARKED), Forward, ESTABLISHED);
    InsertFirst(HookAll(t2, HookNames(names)), Input, IN_HOOK)
  }

  /** A hook name must not be one of the sandbox chains themselves. */
  predicate ForeignHooks(names: seq<string>) {
    forall i :: 0 <= i < |names| ==> ChainNamed(Normal(names[i])) !in {SandboxFwd, SandboxIn}
  }

  lemma {:induction false} RemoveFirstSplit(a: seq<Rule>, b: seq<Rule>, r: Rule)
    ensures RemoveFirst(a + b, r) == if r in a then RemoveFirst(a, r) + b else a + RemoveFirst(b, r)
  {
    if a == [] {
      assert a + b == b;
    } else {
      assert (a + b)[1..] == a[1..] + b;
      RemoveFirstSplit(a[1..], b, r);
    }
  }

  /** FORWARD as the later steps see it: the hook last inserted, k accepting rules, the rest. */
  ghost predicate Shaped(rs: seq<Rule>, k: nat, early: set<Rule>) {
    && 1 + k <= |rs| && rs[0] == FWD_HOOK
    && (forall r :: r in rs[1..1 + k] ==> r.target == Accept)
    && (forall r :: r in early ==> r in rs[1..1 + k])
  }

  function First(rs: seq<Rule>, r: Rule): seq<Rule> {
    [r] + RemoveFirst(rs, r)
  }

  lemma InsertFirstIs(t: Table, c: Chain, r: Rule)
    requires c in t
    ensures InsertFirst(t, c, r) == t[c := First(t[c], r)]
  {
    var d := RemoveFirst(t[c], r);
    assert d[..0] + [r] + d[0..] == [r] + d;
  }

  /** Moving the two global accepts and then the hook to the front keeps the shape. */
  lemma GlobalsKeepShape(rs: seq<Rule>, k: nat, early: set<Rule>) returns (k': nat)
    requires Shaped(rs, k, early) && ESTABLISHED !in early && MARKED !in early
    ensures Shaped(First(First(First(rs, MARKED), ESTABLISHED), FWD_HOOK), k', early)
    ensures 2 <= k' && First(First(First(rs, MARKED), ESTABLISHED), FWD_HOOK)[1..3] == [ESTABLISHED, MARKED]
  {
    var x, rest := rs[1..1 + k], rs[1 + k..];
    assert rs == [FWD_HOOK] + (x + rest);
    var x1, rest1 := RemoveAccept(x, rest, MARKED, early);
    var x2, rest2 := RemoveAccept(x1, rest1, ESTABLISHED, early);
    Skip(FWD_HOOK, x + rest, MARKED);
    var rs1 := First(rs, MARKED);
    assert rs1 == [MARKED] + ([FWD_HOOK] + (x1 + rest1));
    Skip(MARKED, [FWD_HOOK] + (x1 + rest1), ESTABLISHED);
    Skip(FWD_HOOK, x1 + rest1, ESTABLISHED);
    var rs2 := First(rs1, ESTABLISHED);
    assert rs2 == [ESTABLISHED] + ([MARKED] + ([FWD_HOOK] + (x2 + rest2)));
    Skip(ESTABLISHED, [MARKED] + ([FWD_HOOK] + (x2 + rest2)), FWD_HOOK);
    Skip(MARKED, [FWD_HOOK] + (x2 + rest2), FWD_HOOK);
    assert ([FWD_HOOK] + (x2 + rest2))[1..] == x2 + rest2;
    var rs3 := First(rs2, FWD_HOOK);
    assert rs3 == [FWD_HOOK] + ([ESTABLISHED] + ([MARKED] + (x2 + rest2)));
    k' := 2 + |x2|;
    assert rs3[1..1 + k'] == [ESTABLISHED, MARKED] + x2;
  }

  lemma RemoveAccept(x: seq<Rule>, rest: seq<Rule>, r: Rule, early: set<Rule>) returns (x': seq<Rule>, rest': seq<Rule>)
    requires (forall q :: q in x ==> q.target == Accept) && (forall q :: q in early ==> q in x) && r !in early
    ensures RemoveFirst(x + rest, r) == x' + rest'
    ensures (forall q :: q in x' ==> q.target == Accept) && (forall q :: q in early ==> q in x')
  {
    RemoveFirstSplit(x, rest, r);
    if r in x {
      x', rest' := RemoveFirst(x, r), rest;
      forall q ensures q in x' ==> q in x {
        RemoveFirstKeeps(x, r, q);
      }
      forall q | q in early ensures q in x' {
        RemoveFirstKeeps(x, r, q);
      }
    } else {
      x', rest' := x, RemoveFirst(rest, r);
    }
  }

  lemma {:induction false} RemoveFirstKeeps(x: seq<Rule>, r: Rule, q: Rule)
    ensures q in RemoveFirst(x, r) ==> q in x
    ensures q in x && q != r ==> q in RemoveFirst(x, r)
  {
    if x != [] && x[0] != r {
      RemoveFirstKeeps(x[1..], r, q);
    }
  }

  lemma {:induction false} HookAllKeeps(t: Table, names: seq<string>)
    requires Forward in t && ForeignHooks(names)
    ensures HookAll(t, names).Keys == t.Keys
    ensures forall c :: c in t && (c.SandboxFwd? || c.SandboxIn? || c.Fwd? || c.In?) ==> HookAll(t, names)[c] == t[c]
  {
    if names == [] {
    } else {
      var front, name := names[..|names| - 1], names[|names| - 1];
      HookAllKeeps(t, front);
      var u := HookAll(t, front);
      if IsHook(u, name) {
        InsertFirstIs(u, ChainNamed(Normal(name)), FWD_HOOK);
      }
    }
  }

  lemma MentionsLast(names: seq<string>)
    requires names != []
    ensures MentionsForward(names) <==>
      MentionsForward(names[..|names| - 1]) || Normal(names[|names| - 1]) == "FORWARD"
  {
    var front := names[..|names| - 1];
    if MentionsForward(front) {
      var i :| 0 <= i < |front| && Normal(front[i]) == "FORWARD";
      assert names[i] == front[i];
    }
  }

  lemma FirstTwice(rs: seq<Rule>, r: Rule)
    ensures First(First(rs, r), r) == First(rs, r)
  {
  }

  /** Hooking one more chain, as FORWARD sees it. */
  lemma HookOne(u: Table, name: string)
    requires Forward in u
    ensures var v := if IsHook(u, name) then InsertFirst(u, ChainNamed(Normal(name)), FWD_HOOK) else u;
      Forward in v && v[Forward] == if Normal(name) == "FORWARD" then First(u[Forward], FWD_HOOK) else u[Forward]
  {
    ChainNames(name);
    if IsHook(u, name) {
      InsertFirstIs(u, ChainNamed(Normal(name)), FWD_HOOK);
    }
  }

  lemma {:induction false} HookAllForward(t: Table, names: seq<string>)
    requires Forward in t && ForeignHooks(names)
    ensures Forward in HookAll(t, names)
    ensures HookAll(t, names)[Forward] == if MentionsForward(names) then First(t[Forward], FWD_HOOK) else t[Forward]
  {
    if names == [] {
    } else {
      var front, name := names[..|names| - 1], names[|names| - 1];
      HookAllForward(t, front);
      MentionsLast(names);
      FirstTwice(t[Forward], FWD_HOOK);
      HookOne(HookAll(t, front), name);
    }
  }

  /** Everything but FORWARD and foreign chains stays, and FORWARD is hooked once its name has come by. */
  lemma HookAllEffect(t: Table, names: seq<string>)
    requires Forward in t && ForeignHooks(names)
    ensures HookAll(t, names).Keys == t.Keys
    ensures forall c :: c in t && (c.SandboxFwd? || c.SandboxIn? || c.Fwd? || c.In?) ==> HookAll(t, names)[c] == t[c]
    ensures HookAll(t, names)[Forward] == if MentionsForward(names) then First(t[Forward], FWD_HOOK) else t[Forward]
  {
    HookAllKeeps(t, names);
    HookAllForward(t, names);
  }

  lemma ChainNames(name: string)
    ensures ChainNamed(Normal(name)) == Forward <==> Normal(name) == "FORWARD"
    ensures ChainNamed(Normal(name)) == Forward ==> Normal(name) != ""
  {
  }

  lemma HookNamesOk(names: seq<string>)
    requires ForeignHooks(names)
    ensures ForeignHooks(HookNames(names)) && MentionsForward(HookNames(names))
  {
    assert Normal("FORWARD") == "FORWARD";
    if !MentionsForward(names) {
      assert HookNames(names)[0] == "FORWARD";
    }
  }

  ghost predicate SameSandboxChains(t: Table, u: Table) {
    && u.Keys == t.Keys
    && (forall c :: c in t && (c.SandboxFwd? || c.SandboxIn? || c.Fwd? || c.In?) ==> u[c] == t[c])
  }

  lemma TwoFirst(t: Table, marked: Rule, established: Rule)
    requires Forward in t
    ensures var u := InsertFirst(InsertFirst(t, Forward, marked), Forward, established);
      && SameSandboxChains(t, u) && u[Forward] == First(First(t[Forward], marked), established)
  {
    InsertFirstIs(t, Forward, marked);
    InsertFirstIs(InsertFirst(t, Forward, marked), Forward, established);
  }

  lemma InputFirst(t: Table, r: Rule)
    requires Forward in t && Input in t
    ensures var u := InsertFirst(t, Input, r);
      && SameSandboxChains(t, u) && u[Forward] == t[Forward] && u[Input] != [] && u[Input][0] == r
  {
    InsertFirstIs(t, Input, r);
  }

  lemma EnsureGlobalEffect(t: Table, names: seq<string>)
    requires Forward in t && Input in t && ForeignHooks(names)
    ensures var r := EnsureGlobal(t, names);
      && SameSandboxChains(NewChain(NewChain(t, SandboxFwd), SandboxIn), r)
      && r[Forward] == First(First(First(t[Forward], MARKED), ESTABLISHED), FWD_HOOK)
      && r[Input] != [] && r[Input][0] == IN_HOOK
  {
    var t1 := NewChain(NewChain(t, SandboxFwd), SandboxIn);
    TwoFirst(t1, MARKED, ESTABLISHED);
    var t2 := InsertFirst(InsertFirst(t1, Forward, MARKED), Forward, ESTABLISHED);
    HookNamesOk(names);
    HookAllEffect(t2, HookNames(names));
    InputFirst(HookAll(t2, HookNames(names)), IN_HOOK);
  }

  /** On a table without sandbox chains it leaves bare hooked chains: the state from which runs start. */
  lemma EnsureGlobalStarts(t: Table, names: seq<string>)
    requires Forward in t && Input in t && SandboxFwd !in t && SandboxIn !in t && ForeignHooks(names)
    ensures var r := EnsureGlobal(t, names);
      && Input in r && Hooked(r) && r[SandboxFwd] == [] && r[SandboxIn] == []
      && |r[Forward]| >= 3 && r[Forward][..3] == [FWD_HOOK, ESTABLISHED, MARKED]
      && r[Input] != [] && r[Input][0] == IN_HOOK
  {
    EnsureGlobalEffect(t, names);
    var m := First(t[Forward], MARKED);
    var e := First(m, ESTABLISHED);
    assert m[1..] == RemoveFirst(t[Forward], MARKED) &&
      RemoveFirst(m, ESTABLISHED) == [MARKED] + RemoveFirst(m[1..], ESTABLISHED);
    assert e[1..] == RemoveFirst(m, ESTABLISHED) && e[1..][1..] == RemoveFirst(m[1..], ESTABLISHED);
    assert RemoveFirst(e, FWD_HOOK) == [ESTABLISHED] + ([MARKED] + RemoveFirst(e[1..][1..], FWD_HOOK));
  }

  ghost function AllEarly(live: seq<Plan>): set<Rule> {
    set i, r | 0 <= i < |live| && r in live[i].early :: r
  }

  /**
    A restart: ensuring the global chains again under live sandboxes reorders FORWARD but still serves every one of
    them.
   */
  lemma EnsureGlobalKeepsServing(t: Table, live: seq<Plan>, k: nat, names: seq<string>) returns (k': nat)
    requires Serves(t, live, k) && Input in t && ForeignHooks(names)
    requires forall b :: b in live ==> ESTABLISHED !in b.early && MARKED !in b.early
    ensures Serves(EnsureGlobal(t, names), live, k')
  {
    EnsureGlobalEffect(t, names);
    var early := AllEarly(live);
    forall r | r in early ensures r in t[Forward][1..1 + k] && r != ESTABLISHED && r != MARKED {
      var i :| 0 <= i < |live| && r in live[i].early;
      assert live[i] in live;
    }
    k' := GlobalsKeepShape(t[Forward], k, early);
    var r := EnsureGlobal(t, names);
    forall b, q | b in live && q in b.early ensures q in r[Forward][1..1 + k'] {
      var i :| 0 <= i < |live| && live[i] == b;
      assert q in early;
    }
  }
}
