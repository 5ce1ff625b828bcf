/**
  The part of iptables the firewall compiler uses: rule lists, the go-iptables calls on them, and first-match
  evaluation.
 */
module Netfilter {
  import opened Numbers

  datatype Chain =
    | Forward | Input | SandboxFwd | SandboxIn
    | Fwd(short: string) | In(short: string) | OtherChain(name: string)

  datatype Cidr = Cidr(base: int, len: int)

  /** Rule conditions; Other stands for any match this firewall does not write itself. */
  datatype Cond =
    | Always | Established | Marked | LocalDst
    | SrcIp(ip: int) | SrcIpOn(inIf: string, ip: int)
    | DstIn(cidr: Cidr) | DstService(ip: int, proto: string, port: int)
    | Dport(proto: string, port: int) | Sport(proto: string, port: int)
    | Other(tag: int)

  datatype Target = Accept | Reject | Drop | Jump(chain: Chain)

  datatype Rule = Rule(cond: Cond, target: Target)

  type Table = map<Chain, seq<Rule>>

  /** An IPv4 address as a number. */
  type Address = ip: int | 0 <= ip < 0x1_0000_0000

  datatype Packet = Packet(
    src: Address, dst: Address, inIf: string, proto: string, sport: int, dport: int,
    established: bool, marked: bool, localDst: bool, tags: set<int>)

  predicate InCidr(ip: int, c: Cidr) {
    if 0 <= c.len <= 32 then ip / Pow2(32 - c.len) == c.base / Pow2(32 - c.len) else false
  }

  /** The first address of the aligned block that holds the base. */
  function FirstOf(c: Cidr): int
    requires 0 <= c.len <= 32
  {
    c.base - c.base % Pow2(32 - c.len)
  }

  lemma InCidrMeans(ip: int, c: Cidr)
    ensures InCidr(ip, c) <==> 0 <= c.len <= 32 && FirstOf(c) <= ip < FirstOf(c) + Pow2(32 - c.len)
  {
    if 0 <= c.len <= 32 {
      SameBlock(ip, c.base, Pow2(32 - c.len));
    }
  }

  lemma SameBlock(x: int, y: int, size: int)
    requires 0 < size
    ensures x / size == y / size <==> y - y % size <= x < y - y % size + size
  {
    var p, q := x / size, y / size;
    assert x == p * size + x % size && y == q * size + y % size;
    if p < q {
      TimesMonotone(p + 1, q, size);
      assert (p + 1) * size == p * size + size;
    } else if q < p {
      TimesMonotone(q + 1, p, size);
      assert (q + 1) * size == q * size + size;
    }
  }

  predicate Matches(c: Cond, p: Packet) {
    match c
    case Always => true
    case Established => p.established
    case Marked => p.marked
    case LocalDst => p.localDst
    case SrcIp(ip) => p.src == ip
    case SrcIpOn(inIf, ip) => p.inIf == inIf && p.src == ip
    case DstIn(cidr) => InCidr(p.dst, cidr)
    case DstService(ip, proto, port) => p.dst == ip && p.proto == proto && p.dport == port
    case Dport(proto, port) => p.proto == proto && p.dport == port
    case Sport(proto, port) => p.proto == proto && p.sport == port
    case Other(tag) => tag in p.tags
  }

  datatype Verdict = Accepted | Rejected | Dropped | Continue

  /**
    First match; a jump that returns without a verdict goes on with the next rule. The kernel bounds the nesting of
    jumps.
   */
  function Eval(t: Table, rs: seq<Rule>, p: Packet, depth: nat): Verdict
    decreases depth, |rs|
  {
    if rs == [] then Continue
    else
      var v := Fire(t, rs[0], p, depth);
      if v.Continue? then Eval(t, rs[1..], p, depth) else v
  }

  function Fire(t: Table, r: Rule, p: Packet, depth: nat): Verdict
    decreases depth, 0
  {
    if !Matches(r.cond, p) then Continue
    else
      match r.target
      case Accept => Accepted
      case Reject => Rejected
      case Drop => Dropped
      case Jump(c) => if 0 < depth && c in t then Eval(t, t[c], p, depth - 1) else Continue
  }

  lemma {:induction false} EvalConcat(t: Table, a: seq<Rule>, b: seq<Rule>, p: Packet, depth: nat)
    ensures Eval(t, a + b, p, depth) == if Eval(t, a, p, depth).Continue? then Eval(t, b, p, depth)
      else Eval(t, a, p, depth)
    decreases |a|
  {
    if a == [] {
      assert a + b == b;
    } else {
      assert (a + b)[1..] == a[1..] + b;
      EvalConcat(t, a[1..], b, p, depth);
    }
  }

  lemma {:induction false} SilentMember(t: Table, rs: seq<Rule>, r: Rule, p: Packet, depth: nat)
    requires r in rs && Eval(t, rs, p, depth).Continue?
    ensures Fire(t, r, p, depth).Continue?
    decreases |rs|
  {
    if rs[0] != r {
      assert r in rs[1..];
      SilentMember(t, rs[1..], r, p, depth);
    }
  }

  lemma {:induction false} AllSilent(t: Table, rs: seq<Rule>, p: Packet, depth: nat)
    requires forall r :: r in rs ==> Fire(t, r, p, depth).Continue?
    ensures Eval(t, rs, p, depth).Continue?
    decreases |rs|
  {
    if rs == [] {
    } else {
      assert rs[0] in rs && forall r :: r in rs[1..] ==> r in rs;
      AllSilent(t, rs[1..], p, depth);
    }
  }

  /** A list whose rules all end in the same verdict gives it exactly when some rule matches. */
  lemma {:induction false} Uniform(t: Table, rs: seq<Rule>, target: Target, p: Packet, depth: nat)
    requires target.Accept? || target.Reject?
    requires forall r :: r in rs ==> r.target == target
    ensures Eval(t, rs, p, depth) ==
      if exists r :: r in rs && Matches(r.cond, p) then (if target.Accept? then Accepted else Rejected) else Continue
    decreases |rs|
  {
    if rs == [] {
    } else {
      assert rs[0] in rs && forall r :: r in rs[1..] ==> r in rs;
      Uniform(t, rs[1..], target, p, depth);
      if r :| r in rs && Matches(r.cond, p) && !Matches(rs[0].cond, p) {
        assert r in rs[1..];
      }
    }
  }

  // ---------- Rule lists ----------

  function RemoveFirst<T(==)>(rs: seq<T>, r: T): seq<T> {
    if rs == [] then []
    else if rs[0] == r then rs[1..]
    else [rs[0]] + RemoveFirst(rs[1..], r)
  }

  lemma Skip(a: Rule, rest: seq<Rule>, r: Rule)
    requires a != r
    ensures RemoveFirst([a] + rest, r) == [a] + RemoveFirst(rest, r)
  {
    assert ([a] + rest)[1..] == rest;
  }

  function AppendNew<T(==)>(rs: seq<T>, r: T): seq<T> {
    if r in rs then rs else rs + [r]
  }

  /** Successive AppendUnique calls. */
  function AppendAll<T(==)>(rs: seq<T>, more: seq<T>): seq<T> {
    if more == [] then rs else AppendNew(AppendAll(rs, more[..|more| - 1]), more[|more| - 1])
  }

  /** Leaving out repetitions does not change what a chain does. */
  lemma {:induction false} AppendAllEval(t: Table, rs: seq<Rule>, more: seq<Rule>, p: Packet, depth: nat)
    ensures Eval(t, AppendAll(rs, more), p, depth) == Eval(t, rs + more, p, depth)
    decreases |more|
  {
    if more == [] {
      assert rs + more == rs;
    } else {
      var front, last := more[..|more| - 1], more[|more| - 1];
      var done := AppendAll(rs, front);
      AppendAllEval(t, rs, front, p, depth);
      assert rs + more == (rs + front) + [last];
      EvalConcat(t, rs + front, [last], p, depth);
      EvalConcat(t, done, [last], p, depth);
      if last in done && Eval(t, done, p, depth).Continue? {
        SilentMember(t, done, last, p, depth);
        AllSilent(t, [last], p, depth);
      }
    }
  }

  /** The rules of rs that are not in s. */
  ghost function Without(rs: seq<Rule>, s: set<Rule>): seq<Rule> {
    if rs == [] then []
    else if rs[0] in s then Without(rs[1..], s)
    else [rs[0]] + Without(rs[1..], s)
  }

  predicate AtMostOnce(rs: seq<Rule>, r: Rule) {
    multiset(rs)[r] <= 1
  }

  lemma {:induction false} WithoutConcat(a: seq<Rule>, b: seq<Rule>, s: set<Rule>)
    ensures Without(a + b, s) == Without(a, s) + Without(b, s)
  {
    if a == [] {
      assert a + b == b;
    } else {
      assert (a + b)[1..] == a[1..] + b;
      WithoutConcat(a[1..], b, s);
    }
  }

  lemma {:induction false} WithoutNone(rs: seq<Rule>, s: set<Rule>)
    requires forall r :: r in rs ==> r !in s
    ensures Without(rs, s) == rs
  {
    if rs == [] {
    } else {
      assert rs[0] in rs && forall r :: r in rs[1..] ==> r in rs;
      WithoutNone(rs[1..], s);
    }
  }

  lemma {:induction false} WithoutAll(rs: seq<Rule>, s: set<Rule>)
    requires forall r :: r in rs ==> r in s
    ensures Without(rs, s) == []
  {
    if rs == [] {
    } else {
      assert rs[0] in rs && forall r :: r in rs[1..] ==> r in rs;
      WithoutAll(rs[1..], s);
    }
  }

  lemma {:induction false} WithoutTwice(rs: seq<Rule>, s: set<Rule>, u: set<Rule>)
    ensures Without(Without(rs, s), u) == Without(rs, s + u)
  {
    if rs == [] {
    } else {
      WithoutTwice(rs[1..], s, u);
      if rs[0] !in s {
        assert ([rs[0]] + Without(rs[1..], s))[1..] == Without(rs[1..], s);
      }
    }
  }

  lemma {:induction false} WithoutMembers(rs: seq<Rule>, s: set<Rule>, r: Rule)
    ensures multiset(Without(rs, s))[r] == if r in s then 0 else multiset(rs)[r]
    ensures r in Without(rs, s) <==> r in rs && r !in s
  {
    if rs == [] {
    } else {
      assert rs == [rs[0]] + rs[1..];
      WithoutMembers(rs[1..], s, r);
    }
  }

  lemma {:induction false} RemoveFirstIsWithout(rs: seq<Rule>, r: Rule)
    requires AtMostOnce(rs, r)
    ensures RemoveFirst(rs, r) == Without(rs, {r})
  {
    if rs == [] {
    } else {
      assert rs == [rs[0]] + rs[1..];
      if rs[0] == r {
        assert forall x :: x in rs[1..] ==> x in multiset(rs[1..]);
        WithoutNone(rs[1..], {r});
      } else {
        RemoveFirstIsWithout(rs[1..], r);
      }
    }
  }

  /** Successive Delete calls. */
  function RemoveEach<T(==)>(rs: seq<T>, gone: seq<T>): seq<T> {
    if gone == [] then rs else RemoveFirst(RemoveEach(rs, gone[..|gone| - 1]), gone[|gone| - 1])
  }

  lemma {:induction false} RemoveEachIsWithout(rs: seq<Rule>, gone: seq<Rule>)
    requires forall r :: r in gone ==> AtMostOnce(rs, r)
    ensures RemoveEach(rs, gone) == Without(rs, set r | r in gone)
  {
    if gone == [] {
      WithoutNone(rs, set r | r in gone);
    } else {
      var front, last := gone[..|gone| - 1], gone[|gone| - 1];
      assert gone == front + [last];
      assert forall r :: r in front ==> r in gone;
      RemoveEachIsWithout(rs, front);
      var s := set r | r in front;
      WithoutMembers(rs, s, last);
      assert last in gone;
      RemoveFirstIsWithout(Without(rs, s), last);
      WithoutTwice(rs, s, {last});
      assert s + {last} == set r | r in gone;
    }
  }

  lemma {:induction false} AppendNewMembers(rs: seq<Rule>, more: seq<Rule>, r: Rule)
    ensures r in AppendAll(rs, more) <==> r in rs || r in more
    ensures AtMostOnce(rs, r) ==> AtMostOnce(AppendAll(rs, more), r)
  {
    if more == [] {
    } else {
      var front, last := more[..|more| - 1], more[|more| - 1];
      assert more == front + [last];
      AppendNewMembers(rs, front, r);
      if last !in AppendAll(rs, front) {
        assert multiset(AppendAll(rs, front))[last] == 0;
      }
    }
  }

  // ---------- The calls, on the filter table ----------

  function NewChain(t: Table, c: Chain): Table {
    if c in t then t else t[c := []]
  }

  function AppendUnique(t: Table, c: Chain, r: Rule): Table {
    if c in t then t[c := AppendNew(t[c], r)] else t
  }

  function Delete(t: Table, c: Chain, r: Rule): Table {
    if c in t then t[c := RemoveFirst(t[c], r)] else t
  }

  /** Positions count from 1; one past the end appends, anything further is an error. */
  function Insert(t: Table, c: Chain, pos: int, r: Rule): Table {
    if c in t && 1 <= pos <= |t[c]| + 1 then t[c := t[c][..pos - 1] + [r] + t[c][pos - 1..]] else t
  }

  function ClearChain(t: Table, c: Chain): Table {
    t[c := []]
  }

  predicate Referenced(t: Table, c: Chain) {
    exists k :: k in t && HasJump(t[k], c)
  }

  predicate HasJump(rs: seq<Rule>, c: Chain) {
    exists i :: 0 <= i < |rs| && rs[i].target == Jump(c)
  }

  /** The kernel refuses to delete a chain that is not empty or that some rule still jumps to. */
  function DeleteChain(t: Table, c: Chain): Table {
    if c in t && t[c] == [] && !Referenced(t, c) then t - {c} else t
  }
}
