/** Host-port allocation and node choice (scheduleOne, allocateHostPorts). */
module Scheduler {
  import opened Strings
  import opened Types
  import opened Repo
  import opened ControlPlane
  import opened Sorting

  // ---------- Host ports ----------

  lemma {:induction false} DistinctCount(s: seq<int>)
    requires forall i, j :: 0 <= i < j < |s| ==> s[i] != s[j]
    ensures |set x | x in s| == |s|
  {
    if s == [] {
    } else {
      var front := s[..|s| - 1];
      DistinctCount(front);
      assert (set x | x in s) == (set x | x in front) + {s[|s| - 1]};
    }
  }

  /** rand.Shuffle: exchanges with positions chosen by an unknown source. */
  method Shuffle(a: array<int>)
    modifies a
    ensures multiset(a[..]) == multiset(old(a[..]))
  {
    var i := a.Length - 1;
    while 0 < i
      invariant -1 <= i < a.Length
      invariant multiset(a[..]) == multiset(old(a[..]))
    {
      var j: nat :| j <= i;
      a[i], a[j] := a[j], a[i];
      i := i - 1;
    }
  }

  lemma DistinctByCount(s: seq<int>, t: seq<int>)
    requires multiset(s) == multiset(t)
    requires forall i, j :: 0 <= i < j < |s| ==> s[i] != s[j]
    ensures forall i, j :: 0 <= i < j < |t| ==> t[i] != t[j]
  {
    forall i, j | 0 <= i < j < |t| ensures t[i] != t[j] {
      if t[i] == t[j] {
        Twice(t, i, j);
        assert multiset(s)[t[i]] >= 2;
        OnlyOnce(s, t[i]);
      }
    }
  }

  lemma Twice(t: seq<int>, i: nat, j: nat)
    requires i < j < |t| && t[i] == t[j]
    ensures multiset(t)[t[i]] >= 2
  {
    assert t == t[..j] + [t[j]] + t[j + 1..];
    assert t[..j][i] in multiset(t[..j]);
  }

  lemma {:induction false} OnlyOnce(s: seq<int>, x: int)
    requires forall i, j :: 0 <= i < j < |s| ==> s[i] != s[j]
    ensures multiset(s)[x] <= 1
  {
    if s == [] {
    } else {
      var front := s[..|s| - 1];
      OnlyOnce(front, x);
      assert s == front + [s[|s| - 1]];
      assert forall k :: 0 <= k < |front| ==> front[k] == s[k];
      assert s[|s| - 1] !in multiset(front);
    }
  }

  method AvailablePorts(cfg: Config, used: set<int>) returns (available: seq<int>)
    requires cfg.portMin <= cfg.portMax
    ensures forall i, j :: 0 <= i < j < |available| ==> available[i] != available[j]
    ensures forall p :: p in available <==> p in FreePorts(cfg, used)
    ensures |available| == |FreePorts(cfg, used)|
  {
    available := [];
    for hp := cfg.portMin to cfg.portMax + 1
      invariant forall i, j :: 0 <= i < j < |available| ==> available[i] != available[j]
      invariant forall p :: p in available <==> cfg.portMin <= p < hp && p !in used
    {
      if hp !in used {
        assert forall k :: 0 <= k < |available| ==> available[k] in available;
        available := available + [hp];
      }
    }
    DistinctCount(available);
    assert (set p | p in available) == FreePorts(cfg, used);
  }

  /** The ports in some random order. */
  method Shuffled(ports: seq<int>) returns (pool: seq<int>)
    requires forall i, j :: 0 <= i < j < |ports| ==> ports[i] != ports[j]
    ensures |pool| == |ports|
    ensures forall i, j :: 0 <= i < j < |pool| ==> pool[i] != pool[j]
    ensures forall k :: 0 <= k < |pool| ==> pool[k] in ports
  {
    var a := new int[|ports|](i requires 0 <= i < |ports| => ports[i]);
    assert a[..] == ports;
    Shuffle(a);
    pool := a[..];
    DistinctByCount(ports, pool);
    forall k | 0 <= k < |pool| ensures pool[k] in ports {
      assert pool[k] in multiset(pool);
    }
  }

  /** Sound and complete: it succeeds exactly when the range has enough unused ports, whatever the shuffle does. */
  method AllocateHostPorts(cfg: Config, spec: seq<PortSpec>, used: set<int>) returns (r: Option<seq<PortAssign>>)
    ensures r.Some? <==> EnoughPorts(cfg, spec, used)
    ensures r.Some? ==> AllocationOk(cfg, spec, used, r.value)
  {
    if spec == [] {
      return Some([]);
    }
    if cfg.portMax < cfg.portMin {
      assert FreePorts(cfg, used) == {};
      return None;
    }
    var available := AvailablePorts(cfg, used);
    if |available| < |spec| {
      return None;
    }
    var pool := Shuffled(available);
    var result: seq<PortAssign> := [];
    for i := 0 to |spec|
      invariant |result| == i
      invariant forall k :: 0 <= k < i ==>
        result[k] == PortAssign(pool[k], spec[k].containerPort, NormProto(spec[k].protocol))
    {
      var proto := ToLower(TrimSpace(spec[i].protocol));
      if proto == "" {
        proto := "tcp";
      }
      result := result + [PortAssign(pool[i], spec[i].containerPort, proto)];
    }
    assert forall k :: 0 <= k < |spec| ==> pool[k] in FreePorts(cfg, used);
    return Some(result);
  }

  // ---------- Node choice ----------

  datatype Candidate = Candidate(node: string, availCpu: int, ports: seq<PortAssign>)

  predicate Before(need: int, a: Candidate, b: Candidate) {
    var lhs, rhs := a.availCpu - need, b.availCpu - need;
    if lhs == rhs then Less(a.node, b.node) else lhs > rhs
  }

  function ByAvailableCpu(need: int): (Candidate, Candidate) -> bool {
    (a, b) => Before(need, a, b)
  }

  lemma BeforeIsOrder(need: int)
    ensures StrictOrder(ByAvailableCpu(need))
  {
    forall a, b | Before(need, a, b) ensures !Before(need, b, a) {
      if Less(a.node, b.node) && Less(b.node, a.node) {
        LessTransitive(a.node, b.node, a.node);
        LessIrreflexive(a.node);
      }
    }
    forall a, b, c | !Before(need, b, a) && !Before(need, c, b) ensures !Before(need, c, a) {
      LessTotal(a.node, b.node);
      LessTotal(b.node, c.node);
      if Less(c.node, a.node) && a.availCpu == b.availCpu == c.availCpu {
        if a.node != b.node {
          LessTransitive(c.node, a.node, b.node);
        }
      }
    }
  }

  /** A candidate for every feasible node of a prefix of the list, and for no other node. */
  ghost predicate CandidatesOk(cfg: Config, db: Db, spec: SandboxSpec, nodes: seq<string>, cands: seq<Candidate>) {
    && (forall c :: c in cands ==> CandidateOk(cfg, db, spec, c))
    && (forall n :: n in nodes && Feasible(cfg, db, spec, n) ==> exists c :: c in cands && c.node == n)
  }

  ghost predicate CandidateOk(cfg: Config, db: Db, spec: SandboxSpec, c: Candidate) {
    && Feasible(cfg, db, spec, c.node)
    && c.availCpu == Avail(db, c.node).cpu
    && AllocationOk(cfg, spec.ports, UsedPorts(db, c.node), c.ports)
  }

  method Candidates(cfg: Config, repo: SqliteRepo, spec: SandboxSpec, need: Demand, nodes: seq<string>)
    returns (cands: seq<Candidate>)
    requires Request(spec.containers) == Some(need) && forall n :: n in nodes ==> n in repo.nodes
    ensures CandidatesOk(cfg, repo.Contents(), spec, nodes, cands)
  {
    cands := [];
    for i := 0 to |nodes|
      invariant CandidatesOk(cfg, repo.Contents(), spec, nodes[..i], cands)
    {
      var n := nodes[i];
      assert nodes[..i + 1] == nodes[..i] + [n];
      var avail := if n in repo.resources then repo.resources[n].avail else Demand(0, 0);
      if !repo.nodes[n].Ready? || avail.cpu < need.cpu || avail.mem < need.mem {
        continue;
      }
      var used := repo.NodeUsedHostPorts(n);
      var ports := AllocateHostPorts(cfg, spec.ports, used);
      if ports.None? {
        continue;
      }
      CandidatesExtend(cfg, repo.Contents(), spec, nodes[..i], cands, Candidate(n, avail.cpu, ports.value));
      cands := cands + [Candidate(n, avail.cpu, ports.value)];
    }
    assert nodes[..|nodes|] == nodes;
  }

  lemma CandidatesExtend(cfg: Config, db: Db, spec: SandboxSpec, nodes: seq<string>, cands: seq<Candidate>,
      c: Candidate)
    requires CandidatesOk(cfg, db, spec, nodes, cands) && CandidateOk(cfg, db, spec, c)
    ensures CandidatesOk(cfg, db, spec, nodes + [c.node], cands + [c])
  {
    var r := cands + [c];
    forall n | n in nodes + [c.node] && Feasible(cfg, db, spec, n) ensures exists d :: d in r && d.node == n {
      if n == c.node {
        assert c in r;
      } else {
        var d :| d in cands && d.node == n;
        assert d in r;
      }
    }
  }

  /**
    The candidates are exactly the feasible nodes and the head of the sorted list is the chosen one, whatever the
    listing order.
   */
  method PickNode(cfg: Config, repo: SqliteRepo, spec: SandboxSpec, need: Demand) returns (r: Option<Candidate>)
    requires Request(spec.containers) == Some(need)
    ensures r.None? <==> forall n :: !Feasible(cfg, repo.Contents(), spec, n)
    ensures r.Some? ==>
      Chosen(cfg, repo.Contents(), spec, r.value.node) && CandidateOk(cfg, repo.Contents(), spec, r.value)
  {
    ghost var db := repo.Contents();
    var nodes := repo.ListNodes();
    var cands := Candidates(cfg, repo, spec, need, nodes);
    if cands == [] {
      return None;
    }
    var sorted := Sort(cands, ByAvailableCpu(need.cpu));
    HeadIsChosen(cfg, db, spec, nodes, cands, need.cpu);
    return Some(sorted[0]);
  }

  /** A candidate that no other comes before is on the chosen node. */
  lemma HeadPreferred(cfg: Config, db: Db, spec: SandboxSpec, nodes: seq<string>, cands: seq<Candidate>, need: int,
      best: Candidate)
    requires CandidatesOk(cfg, db, spec, nodes, cands) && IsListing(nodes, db.nodes) && best in cands
    requires forall c :: c in cands ==> !Before(need, c, best)
    ensures Chosen(cfg, db, spec, best.node)
  {
    forall m | Feasible(cfg, db, spec, m) && m != best.node ensures Preferred(db, best.node, m) {
      var c :| c in cands && c.node == m;
      assert !Before(need, c, best);
      LessTotal(best.node, m);
    }
  }

  lemma HeadIsChosen(cfg: Config, db: Db, spec: SandboxSpec, nodes: seq<string>, cands: seq<Candidate>, need: int)
    requires CandidatesOk(cfg, db, spec, nodes, cands) && IsListing(nodes, db.nodes) && cands != []
    ensures var sorted := Sort(cands, ByAvailableCpu(need));
      sorted != [] && Chosen(cfg, db, spec, sorted[0].node) && CandidateOk(cfg, db, spec, sorted[0])
  {
    var less := ByAvailableCpu(need);
    BeforeIsOrder(need);
    HeadIsLeast(cands, less);
    var best := Sort(cands, less)[0];
    forall c | c in cands ensures !Before(need, c, best) {
      assert !less(c, best);
    }
    HeadPreferred(cfg, db, spec, nodes, cands, need, best);
  }
}
