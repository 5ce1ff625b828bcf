/**
  Installing and removing compiled sandboxes (ApplySandboxRules, DeleteSandboxRules). `Apply` and `DeleteRules` are the
  sequences of iptables calls the code makes; `Add` and `Sub` say in one stroke what they do to a table, and `Canon`
  what a table looks like after any run of them.
 */
module Firewall {
  import opened Netfilter
  import opened FirewallRules

  const FWD_HOOK := Rule(Always, Jump(SandboxFwd))
  const IN_HOOK := Rule(Always, Jump(SandboxIn))

  // ---------- The sequences of calls ----------

  function InsertEarly(t: Table, r: Rule): Table {
    Insert(Netfilter.Delete(t, Forward, r), Forward, 2, r)
  }

  function InsertEarlyAll(t: Table, rules: seq<Rule>): Table {
    if rules == [] then t else InsertEarly(InsertEarlyAll(t, rules[..|rules| - 1]), rules[|rules| - 1])
  }

  function AppendAllTo(t: Table, c: Chain, rules: seq<Rule>): Table {
    if c in t then t[c := AppendAll(t[c], rules)] else t
  }

  function DeleteAllFrom(t: Table, c: Chain, rules: seq<Rule>): Table {
    if c in t then t[c := RemoveEach(t[c], rules)] else t
  }

  /** ApplySandboxRules; a missing global chain is an error that ends it early. */
  function Apply(t: Table, b: Plan): Table {
    var t1 := NewChain(NewChain(t, Fwd(b.short)), In(b.short));
    if SandboxFwd !in t1 then t1
    else
      var t2 := AppendUnique(t1, SandboxFwd, b.fwdJump);
      if SandboxIn !in t2 then t2
      else
        var t3 := InsertEarlyAll(AppendUnique(t2, SandboxIn, b.inJump), b.early);
        AppendAllTo(AppendAllTo(t3, Fwd(b.short), b.fwd), In(b.short), b.inn)
  }

  /** DeleteSandboxRules. */
  function DeleteRules(t: Table, b: Plan): Table {
    var t1 := DeleteAllFrom(t, Forward, b.early);
    var t2 := Netfilter.Delete(Netfilter.Delete(t1, SandboxFwd, b.fwdJump), SandboxIn, b.inJump);
    var t3 := ClearChain(ClearChain(t2, Fwd(b.short)), In(b.short));
    DeleteChain(DeleteChain(t3, Fwd(b.short)), In(b.short))
  }

  // ---------- What they do in one stroke ----------

  /** The early rules in the order repeated delete-and-insert leaves them. */
  function Block(rules: seq<Rule>): seq<Rule> {
    if rules == [] then [] else [rules[|rules| - 1]] + RemoveFirst(Block(rules[..|rules| - 1]), rules[|rules| - 1])
  }

  predicate HasChains(t: Table) {
    Forward in t && SandboxFwd in t && SandboxIn in t
  }

  predicate Hooked(t: Table) {
    HasChains(t) && t[Forward] != [] && t[Forward][0] == FWD_HOOK
  }

  function Add(t: Table, b: Plan): (r: Table)
    requires Hooked(t)
    ensures Hooked(r)
  {
    t[Forward := [FWD_HOOK] + Block(b.early) + t[Forward][1..]]
     [SandboxFwd := t[SandboxFwd] + [b.fwdJump]]
     [SandboxIn := t[SandboxIn] + [b.inJump]]
     [Fwd(b.short) := AppendAll([], b.fwd)]
     [In(b.short) := AppendAll([], b.inn)]
  }

  ghost function EarlySet(b: Plan): set<Rule> {
    set r | r in b.early
  }

  ghost function Sub(t: Table, b: Plan): Table
    requires HasChains(t)
  {
    (t - {Fwd(b.short), In(b.short)})
      [Forward := Without(t[Forward], EarlySet(b))]
      [SandboxFwd := Without(t[SandboxFwd], {b.fwdJump})]
      [SandboxIn := Without(t[SandboxIn], {b.inJump})]
  }

  ghost predicate NoJumps(t: Table, c: Chain) {
    forall k, r :: k in t && r in t[k] ==> r.target != Jump(c)
  }

  /** Nothing in the table mentions the sandbox yet. */
  ghost predicate Fresh(t: Table, b: Plan) {
    && Hooked(t)
    && Fwd(b.short) !in t && In(b.short) !in t
    && NoJumps(t, Fwd(b.short)) && NoJumps(t, In(b.short))
    && forall r :: r in EarlySet(b) ==> r !in t[Forward]
  }

  /** What Compile guarantees of a plan. */
  ghost predicate Proper(b: Plan) {
    && b.fwdJump.target == Jump(Fwd(b.short)) && b.inJump.target == Jump(In(b.short))
    && (forall r :: r in b.early ==> r.target == Accept)
    && (forall r :: r in b.fwd || r in b.inn ==> !r.target.Jump?)
  }

  ghost predicate Apart(a: Plan, b: Plan) {
    a.short != b.short && EarlySet(a) !! EarlySet(b)
  }

  function Canon(base: Table, live: seq<Plan>): (r: Table)
    requires Hooked(base)
    ensures Hooked(r)
  {
    if live == [] then base else Add(Canon(base, live[..|live| - 1]), live[|live| - 1])
  }

  // ---------- Apply is Add ----------

  lemma {:induction false} RemoveFirstConcat(a: seq<Rule>, b: seq<Rule>, r: Rule)
    requires r !in b
    ensures RemoveFirst(a + b, r) == RemoveFirst(a, r) + b
  {
    if a == [] {
      assert a + b == b;
      RemoveFirstAbsent(b, r);
    } else {
      assert (a + b)[1..] == a[1..] + b;
      RemoveFirstConcat(a[1..], b, r);
    }
  }

  lemma {:induction false} RemoveFirstAbsent(a: seq<Rule>, r: Rule)
    requires r !in a
    ensures RemoveFirst(a, r) == a
  {
    if a == [] {
    } else {
      RemoveFirstAbsent(a[1..], r);
    }
  }

  lemma {:induction false} RemoveFirstMembers(a: seq<Rule>, r: Rule, x: Rule)
    ensures multiset(RemoveFirst(a, r)) == multiset(a) - multiset{r}
  {
    if a == [] {
    } else {
      assert a == [a[0]] + a[1..];
      RemoveFirstMembers(a[1..], r, x);
    }
  }

  lemma {:induction false} BlockMembers(rules: seq<Rule>, r: Rule)
    ensures r in Block(rules) <==> r in rules
    ensures AtMostOnce(Block(rules), r)
  {
    if rules == [] {
    } else {
      var front, last := rules[..|rules| - 1], rules[|rules| - 1];
      assert rules == front + [last];
      BlockMembers(front, r);
      RemoveFirstMembers(Block(front), last, r);
      assert r in Block(rules) <==> r in multiset(Block(rules));
      assert r in Block(front) <==> r in multiset(Block(front));
    }
  }

  /** One delete-and-insert on the rules of FORWARD. */
  function EarlyStep(rs: seq<Rule>, r: Rule): seq<Rule> {
    var d := RemoveFirst(rs, r);
    if d == [] then d else [d[0]] + [r] + d[1..]
  }

  lemma EarlyStepBehind(head: Rule, rest: seq<Rule>, r: Rule)
    requires r != head
    ensures EarlyStep([head] + rest, r) == [head] + ([r] + RemoveFirst(rest, r))
  {
    Skip(head, rest, r);
    var after := RemoveFirst(rest, r);
    assert ([head] + after)[1..] == after;
  }

  lemma Regroup(head: Rule, a: seq<Rule>, b: seq<Rule>)
    ensures [head] + a + b == [head] + (a + b)
  {
  }

  lemma EarlyStepOnBlock(block: seq<Rule>, tail: seq<Rule>, r: Rule)
    requires r != FWD_HOOK && r !in tail
    ensures EarlyStep([FWD_HOOK] + block + tail, r) == [FWD_HOOK] + ([r] + RemoveFirst(block, r)) + tail
  {
    Regroup(FWD_HOOK, block, tail);
    EarlyStepBehind(FWD_HOOK, block + tail, r);
    RemoveFirstConcat(block, tail, r);
    var after := RemoveFirst(block, r);
    Regroup(r, after, tail);
    Regroup(FWD_HOOK, [r] + after, tail);
  }

  lemma {:induction false} InsertEarlyAllIsBlock(t: Table, rules: seq<Rule>)
    requires Hooked(t) && forall r :: r in rules ==> r.target == Accept && r !in t[Forward]
    ensures InsertEarlyAll(t, rules) == t[Forward := [FWD_HOOK] + Block(rules) + t[Forward][1..]]
  {
    var tail := t[Forward][1..];
    if rules == [] {
      assert t[Forward] == [FWD_HOOK] + [] + tail;
    } else {
      var front, last := rules[..|rules| - 1], rules[|rules| - 1];
      assert last in rules && forall r :: r in front ==> r in rules;
      assert forall r :: r in tail ==> r in t[Forward];
      InsertEarlyAllIsBlock(t, front);
      EarlyStepOnBlock(Block(front), tail, last);
      InsertEarlyIsStep(InsertEarlyAll(t, front), last);
    }
  }

  lemma InsertEarlyIsStep(t: Table, r: Rule)
    requires Hooked(t) && r != FWD_HOOK
    ensures InsertEarly(t, r) == t[Forward := EarlyStep(t[Forward], r)]
  {
    var d := RemoveFirst(t[Forward], r);
    assert d[..1] == [d[0]];
  }

  lemma ApplyIsAdd(t: Table, b: Plan)
    requires Proper(b) && Fresh(t, b)
    ensures Apply(t, b) == Add(t, b)
  {
    var t1 := NewChain(NewChain(t, Fwd(b.short)), In(b.short));
    assert b.fwdJump !in t[SandboxFwd] && b.inJump !in t[SandboxIn];
    var t2 := AppendUnique(AppendUnique(t1, SandboxFwd, b.fwdJump), SandboxIn, b.inJump);
    assert t2[Forward] == t[Forward];
    forall r | r in b.early ensures r.target == Accept && r !in t2[Forward] {
      assert r in EarlySet(b);
    }
    InsertEarlyAllIsBlock(t2, b.early);
    assert Apply(t, b) == Add(t, b);
  }

  // ---------- Delete is Sub ----------

  /** The table mentions the sandbox at most where Apply put it, and nowhere twice. */
  ghost predicate Tidy(t: Table, b: Plan) {
    && Hooked(t)
    && (forall r :: r in EarlySet(b) ==> AtMostOnce(t[Forward], r))
    && AtMostOnce(t[SandboxFwd], b.fwdJump) && AtMostOnce(t[SandboxIn], b.inJump)
    && forall k, r :: k in t && r in t[k] ==>
        && (r.target == Jump(Fwd(b.short)) ==> k == SandboxFwd && r == b.fwdJump)
        && (r.target == Jump(In(b.short)) ==> k == SandboxIn && r == b.inJump)
  }

  /** The table between the rule deletions and the chain deletions. */
  ghost function Unhooked(t: Table, b: Plan): Table
    requires Hooked(t)
  {
    t[Forward := Without(t[Forward], EarlySet(b))]
     [SandboxFwd := Without(t[SandboxFwd], {b.fwdJump})]
     [SandboxIn := Without(t[SandboxIn], {b.inJump})]
     [Fwd(b.short) := []][In(b.short) := []]
  }

  lemma UnhookedIsUnreferenced(t: Table, b: Plan)
    requires Proper(b) && Tidy(t, b)
    ensures !Referenced(Unhooked(t, b), Fwd(b.short)) && !Referenced(Unhooked(t, b) - {Fwd(b.short)}, In(b.short))
  {
    var u := Unhooked(t, b);
    forall k: Chain, r: Rule | k in u && r in u[k]
      ensures r.target != Jump(Fwd(b.short)) && r.target != Jump(In(b.short))
    {
      WithoutMembers(t[Forward], EarlySet(b), r);
      WithoutMembers(t[SandboxFwd], {b.fwdJump}, r);
      WithoutMembers(t[SandboxIn], {b.inJump}, r);
    }
  }

  /** Taking both chains off the unhooked table leaves Sub, chain by chain. */
  lemma UnhookedIsSub(t: Table, b: Plan)
    requires Hooked(t)
    ensures Unhooked(t, b) - {Fwd(b.short)} - {In(b.short)} == Sub(t, b)
  {
    var u := Unhooked(t, b) - {Fwd(b.short)} - {In(b.short)};
    assert u.Keys == Sub(t, b).Keys;
    forall k | k in u ensures u[k] == Sub(t, b)[k] {
    }
  }

  /** The rule deletions leave the unhooked table. */
  lemma DeletionsUnhook(t: Table, b: Plan)
    requires Proper(b) && Tidy(t, b)
    ensures RemoveEach(t[Forward], b.early) == Without(t[Forward], EarlySet(b))
    ensures RemoveFirst(t[SandboxFwd], b.fwdJump) == Without(t[SandboxFwd], {b.fwdJump})
    ensures RemoveFirst(t[SandboxIn], b.inJump) == Without(t[SandboxIn], {b.inJump})
  {
    assert forall r :: r in b.early ==> r in EarlySet(b);
    RemoveEachIsWithout(t[Forward], b.early);
    RemoveFirstIsWithout(t[SandboxFwd], b.fwdJump);
    RemoveFirstIsWithout(t[SandboxIn], b.inJump);
  }

  lemma DeleteIsSub(t: Table, b: Plan)
    requires Proper(b) && Tidy(t, b)
    ensures DeleteRules(t, b) == Sub(t, b)
  {
    DeletionsUnhook(t, b);
    UnhookedIsUnreferenced(t, b);
    UnhookedIsSub(t, b);
  }

  // ---------- Sub undoes Add and commutes with the Adds of other sandboxes ----------

  lemma WithoutBlock(b: Plan, tail: seq<Rule>)
    requires Proper(b) && forall r :: r in EarlySet(b) ==> r !in tail
    ensures Without([FWD_HOOK] + Block(b.early) + tail, EarlySet(b)) == [FWD_HOOK] + tail
  {
    WithoutConcat([FWD_HOOK] + Block(b.early), tail, EarlySet(b));
    WithoutConcat([FWD_HOOK], Block(b.early), EarlySet(b));
    WithoutNone([FWD_HOOK], EarlySet(b));
    forall r | r in Block(b.early) ensures r in EarlySet(b) {
      BlockMembers(b.early, r);
    }
    WithoutAll(Block(b.early), EarlySet(b));
    WithoutNone(tail, EarlySet(b));
  }

  lemma WithoutLast(rs: seq<Rule>, r: Rule)
    requires r !in rs
    ensures Without(rs + [r], {r}) == rs
  {
    WithoutConcat(rs, [r], {r});
    WithoutNone(rs, {r});
    WithoutAll([r], {r});
  }

  lemma SubAdd(t: Table, b: Plan)
    requires Proper(b) && Fresh(t, b)
    ensures Sub(Add(t, b), b) == t
  {
    assert forall r :: r in t[Forward][1..] ==> r in t[Forward];
    WithoutBlock(b, t[Forward][1..]);
    assert [FWD_HOOK] + t[Forward][1..] == t[Forward];
    WithoutLast(t[SandboxFwd], b.fwdJump);
    WithoutLast(t[SandboxIn], b.inJump);
    var s := Sub(Add(t, b), b);
    assert s.Keys == t.Keys;
    forall k | k in t ensures s[k] == t[k] {}
  }

  lemma SubKeepsHooks(t: Table, b: Plan)
    requires Proper(b) && Hooked(t)
    ensures Hooked(Sub(t, b)) && Without(t[Forward], EarlySet(b)) == [FWD_HOOK] + Without(t[Forward][1..], EarlySet(b))
  {
    assert FWD_HOOK !in EarlySet(b);
  }

  lemma WithoutOtherBlock(b: Plan, c: Plan, tail: seq<Rule>)
    requires Proper(b) && Proper(c) && Apart(b, c)
    ensures Without([FWD_HOOK] + Block(c.early) + tail, EarlySet(b)) ==
      [FWD_HOOK] + Block(c.early) + Without(tail, EarlySet(b))
  {
    var s := EarlySet(b);
    WithoutConcat([FWD_HOOK] + Block(c.early), tail, s);
    forall r | r in [FWD_HOOK] + Block(c.early) ensures r !in s {
      BlockMembers(c.early, r);
      assert r in c.early ==> r in EarlySet(c);
    }
    WithoutNone([FWD_HOOK] + Block(c.early), s);
  }

  lemma WithoutOtherLast(rs: seq<Rule>, r: Rule, x: Rule)
    requires r != x
    ensures Without(rs + [x], {r}) == Without(rs, {r}) + [x]
  {
    WithoutConcat(rs, [x], {r});
    WithoutNone([x], {r});
  }

  lemma SubAddOtherForward(t: Table, b: Plan, c: Plan)
    requires Proper(b) && Proper(c) && Hooked(t) && Apart(b, c)
    ensures Sub(Add(t, c), b)[Forward] == Add(Sub(t, b), c)[Forward]
  {
    var tail := Without(t[Forward][1..], EarlySet(b));
    WithoutOtherBlock(b, c, t[Forward][1..]);
    assert ([FWD_HOOK] + tail)[1..] == tail;
  }

  /** Chain by chain. */
  lemma SubAddOtherAt(t: Table, b: Plan, c: Plan, k: Chain)
    requires Proper(b) && Proper(c) && Hooked(t) && Apart(b, c) && Hooked(Sub(t, b))
    ensures k in Sub(Add(t, c), b) <==> k in Add(Sub(t, b), c)
    ensures k in Sub(Add(t, c), b) ==> Sub(Add(t, c), b)[k] == Add(Sub(t, b), c)[k]
  {
    if k == Forward {
      SubAddOtherForward(t, b, c);
    } else if k == SandboxFwd {
      WithoutOtherLast(t[SandboxFwd], b.fwdJump, c.fwdJump);
    } else if k == SandboxIn {
      WithoutOtherLast(t[SandboxIn], b.inJump, c.inJump);
    }
  }

  lemma SubAddOther(t: Table, b: Plan, c: Plan)
    requires Proper(b) && Proper(c) && Hooked(t) && Apart(b, c)
    ensures Hooked(Sub(t, b)) && Sub(Add(t, c), b) == Add(Sub(t, b), c)
  {
    SubKeepsHooks(t, b);
    var x, y := Sub(Add(t, c), b), Add(Sub(t, b), c);
    forall k ensures (k in x <==> k in y) && (k in x ==> x[k] == y[k]) {
      SubAddOtherAt(t, b, c, k);
    }
    SameTable(x, y);
  }

  lemma SameTable(x: Table, y: Table)
    requires forall k :: (k in x <==> k in y) && (k in x ==> x[k] == y[k])
    ensures x == y
  {
  }
}
