/** Admission on one node: what stored sandboxes hold, what a request asks for, and the checks of resources.go. */
module Admission {
  import opened Numbers
  import opened Sums

  type Positive = x: int | 0 < x witness 1

  /** A container's resource strings as the quantity parser reads them: both positive, or an error. */
  datatype Resource = Unparsable | Parsed(cpu: Positive, mem: Positive)

  datatype Phase = Creating | Running | Deleting | Error

  datatype Sandbox = Sandbox(id: string, phase: Phase, containers: map<string, Resource>)

  datatype Container = Container(name: string, resource: Resource)

  datatype Request = Request(id: string, containers: seq<Container>)

  /** The subnet: unreadable, or its mask size. */
  datatype Subnet = BadCidr | Mask(ones: int, bits: int)

  datatype Host = Host(cpuMilli: nat, memBytes: nat, maxPercent: nat, subnet: Subnet)

  datatype Dim = Cpu | Mem | Slots

  function Limit(h: Host, d: Dim): int {
    match d
    case Cpu => h.cpuMilli * h.maxPercent / 100
    case Mem => h.memBytes * h.maxPercent / 100
    case Slots => if UsableSubnet(h.subnet) then Pow2(h.subnet.bits - h.subnet.ones) - 2 else 0
  }

  /** The limit is the configured percentage of what the host has, rounded down. */
  lemma LimitMeans(h: Host, x: int)
    ensures x <= Limit(h, Cpu) <==> 100 * x <= h.cpuMilli * h.maxPercent
    ensures x <= Limit(h, Mem) <==> 100 * x <= h.memBytes * h.maxPercent
  {
    Rounded(h.cpuMilli * h.maxPercent, x);
    Rounded(h.memBytes * h.maxPercent, x);
  }

  lemma Rounded(product: int, x: int)
    ensures x <= product / 100 <==> 100 * x <= product
  {
  }

  function Range(lo: int, hi: int): set<int>
    decreases hi - lo
  {
    if hi <= lo then {} else Range(lo, hi - 1) + {hi - 1}
  }

  lemma {:induction false} RangeMeans(lo: int, hi: int)
    ensures forall a :: a in Range(lo, hi) <==> lo <= a < hi
    ensures |Range(lo, hi)| == if hi <= lo then 0 else hi - lo
    decreases hi - lo
  {
    if hi <= lo {
    } else {
      RangeMeans(lo, hi - 1);
    }
  }

  /** The 32-bit addresses that share their first bits with this one. */
  ghost predicate IsBlock(block: set<int>, ones: nat, address: int)
    requires ones <= 32
  {
    forall a :: a in block <==> 0 <= a < 0x1_0000_0000 && a / Pow2(32 - ones) == address / Pow2(32 - ones)
  }

  lemma BlockNumber(address: int, size: int, blocks: int)
    requires 0 < size && 0 <= address < blocks * size
    ensures 0 <= address / size < blocks
  {
    var n := address / size;
    assert address == n * size + address % size;
    if blocks <= n {
      TimesMonotone(blocks, n, size);
    }
  }

  lemma WholeBlocks(ones: nat)
    requires ones <= 32
    ensures Pow2(ones) * Pow2(32 - ones) == 0x1_0000_0000
  {
    Pow2Adds(ones, 32 - ones);
    Pow2Table();
  }

  lemma Between(a: int, n: int, size: int)
    requires 0 < size
    ensures a / size == n <==> n * size <= a < n * size + size
  {
    var q := a / size;
    assert a == q * size + a % size;
    if q < n {
      TimesMonotone(q + 1, n, size);
      assert (q + 1) * size == q * size + size;
    } else if n < q {
      TimesMonotone(n + 1, q, size);
      assert (n + 1) * size == n * size + size;
    }
  }

  lemma InBlock(a: int, n: int, size: int, blocks: int)
    requires 0 < size && 0 <= n < blocks && blocks * size == 0x1_0000_0000
    ensures 0 <= a < 0x1_0000_0000 && a / size == n <==> n * size <= a < n * size + size
  {
    Between(a, n, size);
    TimesMonotone(0, n, size);
    TimesMonotone(n + 1, blocks, size);
    assert (n + 1) * size == n * size + size;
  }

  /** A block is what lies between these two. */
  ghost predicate Spans(block: set<int>, first: int, last: int) {
    first < last && forall a :: a in block <==> first <= a <= last
  }

  lemma SpanSize(block: set<int>, first: int, last: int)
    requires Spans(block, first, last)
    ensures |block - {first, last}| == last - first - 1
  {
    RangeMeans(first + 1, last);
    forall a ensures a in block - {first, last} <==> a in Range(first + 1, last) {}
    assert block - {first, last} == Range(first + 1, last);
  }

  lemma BlockSpans(block: set<int>, ones: nat, address: int) returns (first: int, last: int)
    requires ones < 30 && 0 <= address < 0x1_0000_0000 && IsBlock(block, ones, address)
    ensures Spans(block, first, last) && last - first + 1 == Pow2(32 - ones)
  {
    var size := Pow2(32 - ones);
    first := address / size * size;
    last := first + size - 1;
    SizeOver(32 - ones);
    WholeBlocks(ones);
    BlockNumber(address, size, Pow2(ones));
    forall a ensures a in block <==> first <= a <= last {
      InBlock(a, address / size, size, Pow2(ones));
    }
  }

  /** In a usable subnet every address but the first and the last can be given to a sandbox. */
  lemma SlotsAreAddresses(h: Host, address: int, block: set<int>) returns (first: int, last: int)
    requires UsableSubnet(h.subnet) && 0 <= h.subnet.ones && 0 <= address < 0x1_0000_0000
    requires IsBlock(block, h.subnet.ones, address)
    ensures Spans(block, first, last) && Limit(h, Slots) == |block - {first, last}|
  {
    first, last := BlockSpans(block, h.subnet.ones, address);
    SpanSize(block, first, last);
  }

  /**
    The same in numbers: an IPv4 block of at least eight addresses, with one left beside those used and two reserved.
   */
  lemma CapacityMeans(h: Host, used: int)
    requires h.subnet.Mask? ==> 0 <= h.subnet.ones <= h.subnet.bits
    ensures UsableSubnet(h.subnet) && used + 1 <= Limit(h, Slots) <==>
      && h.subnet.Mask? && h.subnet.bits == 32 && h.subnet.ones < 30 && used + 3 <= Pow2(32 - h.subnet.ones)
  {
  }

  lemma SizeOver(n: nat)
    requires 2 < n
    ensures 8 <= Pow2(n)
  {
    Pow2Adds(n - 3, 3);
    assert Pow2(3) == 8;
  }

  predicate UsableSubnet(s: Subnet) {
    s.Mask? && s.bits == 32 && s.bits - s.ones > 2
  }

  function Amount(r: Resource, d: Dim): (a: int)
    ensures 0 <= a
  {
    match r
    case Unparsable => 0
    case Parsed(cpu, mem) => if d.Cpu? then cpu else if d.Mem? then mem else 0
  }

  function Amounts(containers: map<string, Resource>, d: Dim): map<string, int> {
    map n | n in containers :: Amount(containers[n], d)
  }

  predicate Counts(s: Sandbox) {
    !s.phase.Deleting? && !s.phase.Error?
  }

  /** What one stored sandbox holds: nothing once it is deleting or in error. */
  ghost function Weight(s: Sandbox, d: Dim): (w: int)
    ensures 0 <= w
  {
    NonNegative(Amounts(s.containers, d));
    if !Counts(s) then 0 else if d.Slots? then 1 else Sum(Amounts(s.containers, d))
  }

  /** What one more container of a sandbox that counts adds; a quantity that cannot be read adds nothing. */
  lemma WeightMeans(s: Sandbox, n: string, r: Resource)
    requires (s.phase == Creating || s.phase == Running) && n !in s.containers
    ensures var more := s.(containers := s.containers[n := r]);
      && Weight(more, Cpu) == Weight(s, Cpu) + (if r.Parsed? then r.cpu else 0)
      && Weight(more, Mem) == Weight(s, Mem) + (if r.Parsed? then r.mem else 0)
      && Weight(more, Slots) == Weight(s, Slots) == 1
  {
    assert Amounts(s.containers[n := r], Cpu) == Amounts(s.containers, Cpu)[n := Amount(r, Cpu)];
    assert Amounts(s.containers[n := r], Mem) == Amounts(s.containers, Mem)[n := Amount(r, Mem)];
    Put(Amounts(s.containers, Cpu), n, Amount(r, Cpu));
    Put(Amounts(s.containers, Mem), n, Amount(r, Mem));
  }

  /** A sandbox that is being deleted or failed holds nothing, and one without containers only its address. */
  lemma WeightlessMeans(s: Sandbox, d: Dim)
    ensures s.phase == Deleting || s.phase == Error ==> Weight(s, d) == 0
    ensures s.containers == map[] && !d.Slots? ==> Weight(s, d) == 0
  {
    assert s.containers == map[] ==> Amounts(s.containers, d) == map[];
  }

  type Store = map<string, Sandbox>

  /** What the entries under these ids hold together. */
  ghost function UsedBy(store: Store, ids: set<string>, d: Dim): int {
    Sum(map k | k in store && k in ids :: Weight(store[k], d))
  }

  ghost function Used(store: Store, d: Dim): int {
    UsedBy(store, store.Keys, d)
  }

  ghost function At(store: Store, id: string, d: Dim): int {
    if id in store then Weight(store[id], d) else 0
  }

  /** One entry changes: the sum moves by what that entry gained. */
  lemma UsedByPut(store: Store, ids: set<string>, id: string, s: Sandbox, d: Dim)
    ensures UsedBy(store[id := s], ids, d) == UsedBy(store, ids, d) + if id in ids
      then Weight(s, d) - At(store, id, d) else 0
  {
    var m := map k | k in store && k in ids :: Weight(store[k], d);
    var m' := map k | k in store[id := s] && k in ids :: Weight(store[id := s][k], d);
    if id in ids {
      assert m' == m[id := Weight(s, d)];
      Put(m, id, Weight(s, d));
    } else {
      assert m' == m;
    }
  }

  lemma UsedByDrop(store: Store, ids: set<string>, id: string, d: Dim)
    ensures UsedBy(store - {id}, ids, d) == UsedBy(store, ids, d) - if id in ids then At(store, id, d) else 0
  {
    var m := map k | k in store && k in ids :: Weight(store[k], d);
    var m' := map k | k in store - {id} && k in ids :: Weight((store - {id})[k], d);
    assert m' == m - {id};
    if id in ids {
      Split(m, id);
    } else {
      assert m' == m;
    }
  }

  lemma UsedBySplit(store: Store, ids: set<string>, id: string, d: Dim)
    ensures UsedBy(store, ids, d) == UsedBy(store, ids - {id}, d) + if id in ids then At(store, id, d) else 0
  {
    var m := map k | k in store && k in ids :: Weight(store[k], d);
    assert (map k | k in store && k in ids - {id} :: Weight(store[k], d)) == m - {id};
    Split(m, id);
  }

  /** Ids that are not stored hold nothing. */
  lemma UsedBySame(store: Store, ids: set<string>, more: set<string>, d: Dim)
    requires forall k :: k in store ==> (k in ids <==> k in more)
    ensures UsedBy(store, ids, d) == UsedBy(store, more, d)
  {
    assert (map k | k in store && k in ids :: Weight(store[k], d)) ==
      (map k | k in store && k in more :: Weight(store[k], d));
  }

  // ---------- Requests ----------

  predicate Parses(containers: seq<Container>) {
    forall c :: c in containers ==> c.resource.Parsed?
  }

  /** What the loop over the requested containers adds up. */
  function Asked(containers: seq<Container>, d: Dim): (a: int)
    ensures 0 <= a
  {
    if d.Slots? then 1
    else if containers == [] then 0
    else Asked(containers[..|containers| - 1], d) + Amount(containers[|containers| - 1].resource, d)
  }

  /** Asking for more adds what is asked, and every request takes one address. */
  lemma AskedMeans(containers: seq<Container>, c: Container)
    ensures Asked([], Cpu) == 0 && Asked([], Mem) == 0 && Asked(containers, Slots) == 1
    ensures Asked(containers + [c], Cpu) == Asked(containers, Cpu) + if c.resource.Parsed? then c.resource.cpu else 0
    ensures Asked(containers + [c], Mem) == Asked(containers, Mem) + if c.resource.Parsed? then c.resource.mem else 0
  {
    assert (containers + [c])[..|containers|] == containers;
  }

  predicate DistinctNames(containers: seq<Container>) {
    forall i, j :: 0 <= i < j < |containers| ==> containers[i].name != containers[j].name
  }

  /** The part of request validation that the sums rest on. */
  predicate Valid(req: Request) {
    req.id != "" && req.containers != [] && DistinctNames(req.containers)
  }

  function Named(containers: seq<Container>): map<string, Resource> {
    if containers == [] then map[]
    else Named(containers[..|containers| - 1])[containers[|containers| - 1].name :=
      containers[|containers| - 1].resource]
  }

  function New(req: Request): Sandbox {
    Sandbox(req.id, Creating, Named(req.containers))
  }

  lemma {:induction false} NamedKeys(containers: seq<Container>, n: string)
    ensures n in Named(containers) <==> exists i :: 0 <= i < |containers| && containers[i].name == n
  {
    if containers == [] {
    } else {
      var front := containers[..|containers| - 1];
      NamedKeys(front, n);
      if n in Named(front) {
        var i :| 0 <= i < |front| && front[i].name == n;
        assert containers[i].name == n;
      }
      if i :| 0 <= i < |containers| && containers[i].name == n && i < |front| {
        assert front[i].name == n;
      }
    }
  }

  lemma {:induction false} NamedSum(containers: seq<Container>, d: Dim)
    requires DistinctNames(containers) && !d.Slots?
    ensures Sum(Amounts(Named(containers), d)) == Asked(containers, d)
  {
    if containers == [] {
    } else {
      var front, last := containers[..|containers| - 1], containers[|containers| - 1];
      NamedSum(front, d);
      NamedKeys(front, last.name);
      assert Amounts(Named(containers), d) == Amounts(Named(front), d)[last.name := Amount(last.resource, d)];
      Put(Amounts(Named(front), d), last.name, Amount(last.resource, d));
    }
  }

  /** What is stored for an admitted request weighs exactly what the admission check added up. */
  lemma StoredIsAsked(req: Request, d: Dim)
    requires Valid(req)
    ensures Weight(New(req), d) == Asked(req.containers, d)
  {
    if !d.Slots? {
      NamedSum(req.containers, d);
    }
  }

  // ---------- The checks over a listing ----------

  /** A listing has every stored sandbox once, in some order. */
  ghost predicate Lists(all: seq<Sandbox>, store: Store) {
    && (forall i, j :: 0 <= i < j < |all| ==> all[i].id != all[j].id)
    && (forall s :: s in all <==> s.id in store && store[s.id] == s)
  }

  ghost predicate KeyedById(store: Store) {
    forall k :: k in store ==> store[k].id == k
  }

  ghost function Total(all: seq<Sandbox>, except: string, d: Dim): int {
    if all == [] then 0
    else Total(all[..|all| - 1], except, d) + if all[|all| - 1].id == except then 0 else Weight(all[|all| - 1], d)
  }

  lemma NothingHeld(store: Store, d: Dim)
    ensures UsedBy(store, {}, d) == 0
  {
    var none: set<string> := {};
    assert (map k | k in store && k in none :: Weight(store[k], d)).Keys == {};
  }

  lemma StoredIsListed(all: seq<Sandbox>, store: Store)
    requires KeyedById(store) && Lists(all, store)
    ensures forall k :: k in store ==> exists i :: 0 <= i < |all| && all[i].id == k
  {
    forall k | k in store ensures exists i :: 0 <= i < |all| && all[i].id == k {
      assert store[k] in all;
      var i :| 0 <= i < |all| && all[i] == store[k];
    }
  }

  /** The order of the listing does not matter: its total is what the store holds under the other ids. */
  lemma {:induction false} TotalIsUsed(all: seq<Sandbox>, store: Store, except: string, d: Dim)
    requires KeyedById(store) && Lists(all, store)
    ensures Total(all, except, d) == UsedBy(store, store.Keys - {except}, d)
    decreases |all|
  {
    if all == [] {
      NothingHeld(store, d);
      StoredIsListed(all, store);
      UsedBySame(store, store.Keys - {except}, {}, d);
    } else {
      var front, last := all[..|all| - 1], all[|all| - 1];
      var rest := store - {last.id};
      assert all == front + [last];
      forall s ensures s in front <==> s.id in rest && rest[s.id] == s {
        assert s in all <==> s in front || s == last;
      }
      TotalIsUsed(front, rest, except, d);
      UsedByDrop(store, store.Keys - {except}, last.id, d);
      UsedBySame(rest, rest.Keys - {except}, store.Keys - {except}, d);
      assert last in all;
    }
  }

  method ContainersTotal(s: Sandbox) returns (cpu: int, mem: int)
    ensures cpu == Sum(Amounts(s.containers, Cpu)) && mem == Sum(Amounts(s.containers, Mem))
  {
    cpu, mem := 0, 0;
    var left := s.containers;
    while left != map[]
      invariant left.Keys <= s.containers.Keys && forall n :: n in left ==> left[n] == s.containers[n]
      invariant cpu + Sum(Amounts(left, Cpu)) == Sum(Amounts(s.containers, Cpu))
      invariant mem + Sum(Amounts(left, Mem)) == Sum(Amounts(s.containers, Mem))
      decreases |left|
    {
      var n :| n in left;
      var r := left[n];
      if r.Parsed? {
        cpu, mem := cpu + r.cpu, mem + r.mem;
      }
      Split(Amounts(left, Cpu), n);
      Split(Amounts(left, Mem), n);
      assert Amounts(left - {n}, Cpu) == Amounts(left, Cpu) - {n};
      assert Amounts(left - {n}, Mem) == Amounts(left, Mem) - {n};
      left := left - {n};
    }
    assert Amounts(left, Cpu) == map[] && Amounts(left, Mem) == map[];
  }

  method CurrentAllocatedResources(all: seq<Sandbox>, except: string) returns (cpu: int, mem: int)
    ensures cpu == Total(all, except, Cpu) && mem == Total(all, except, Mem)
  {
    cpu, mem := 0, 0;
    for i := 0 to |all|
      invariant cpu == Total(all[..i], except, Cpu) && mem == Total(all[..i], except, Mem)
    {
      assert all[..i + 1][..i] == all[..i];
      var s := all[i];
      if s.id == except || s.phase.Deleting? || s.phase.Error? {
        continue;
      }
      var c, m := ContainersTotal(s);
      cpu, mem := cpu + c, mem + m;
    }
    assert all[..|all|] == all;
  }

  /** Accepts exactly when the request parses and fits beside everything else that counts. */
  method EnforceAdmission(host: Host, req: Request, all: seq<Sandbox>, ghost store: Store) returns (ok: bool)
    requires KeyedById(store) && Lists(all, store)
    ensures ok <==>
      && Parses(req.containers)
      && (forall d: Dim :: !d.Slots? ==>
        UsedBy(store, store.Keys - {req.id}, d) + Asked(req.containers, d) <= Limit(host, d))
    ensures ok <==>
      && Parses(req.containers)
      && 100 * (UsedBy(store, store.Keys - {req.id}, Cpu) + Asked(req.containers, Cpu)) <=
        host.cpuMilli * host.maxPercent
      && 100 * (UsedBy(store, store.Keys - {req.id}, Mem) + Asked(req.containers, Mem)) <=
        host.memBytes * host.maxPercent
  {
    LimitMeans(host, UsedBy(store, store.Keys - {req.id}, Cpu) + Asked(req.containers, Cpu));
    LimitMeans(host, UsedBy(store, store.Keys - {req.id}, Mem) + Asked(req.containers, Mem));
    var requestCpu, requestMem := 0, 0;
    for i := 0 to |req.containers|
      invariant Parses(req.containers[..i])
      invariant requestCpu == Asked(req.containers[..i], Cpu) && requestMem == Asked(req.containers[..i], Mem)
    {
      assert req.containers[..i + 1][..i] == req.containers[..i];
      var r := req.containers[i].resource;
      if r.Unparsable? {
        assert req.containers[i] in req.containers;
        return false;
      }
      requestCpu, requestMem := requestCpu + r.cpu, requestMem + r.mem;
    }
    assert req.containers[..|req.containers|] == req.containers;
    var usedCpu, usedMem := CurrentAllocatedResources(all, req.id);
    TotalIsUsed(all, store, req.id, Cpu);
    TotalIsUsed(all, store, req.id, Mem);
    var maxCpu := host.cpuMilli * host.maxPercent / 100;
    var maxMem := host.memBytes * host.maxPercent / 100;
    if usedCpu + requestCpu > maxCpu {
      assert !(UsedBy(store, store.Keys - {req.id}, Cpu) + Asked(req.containers, Cpu) <= Limit(host, Cpu));
      return false;
    }
    if usedMem + requestMem > maxMem {
      assert !(UsedBy(store, store.Keys - {req.id}, Mem) + Asked(req.containers, Mem) <= Limit(host, Mem));
      return false;
    }
    ok := true;
    forall d: Dim | !d.Slots?
      ensures UsedBy(store, store.Keys - {req.id}, d) + Asked(req.containers, d) <= Limit(host, d)
    {
    }
  }

  /** The counting loop of EnsureIPCapacity. */
  method ActiveSandboxes(all: seq<Sandbox>, next: string) returns (active: int)
    ensures active == Total(all, next, Slots)
  {
    active := 0;
    for i := 0 to |all|
      invariant active == Total(all[..i], next, Slots)
    {
      assert all[..i + 1][..i] == all[..i];
      if all[i].id != next && !all[i].phase.Deleting? && !all[i].phase.Error? {
        active := active + 1;
      }
    }
    assert all[..|all|] == all;
  }

  /** Accepts exactly when the subnet is usable and has an address left beside the other counting sandboxes. */
  method EnsureIPCapacity(host: Host, next: string, all: seq<Sandbox>, ghost store: Store) returns (ok: bool)
    requires KeyedById(store) && Lists(all, store)
    requires host.subnet.Mask? ==> 0 <= host.subnet.ones <= host.subnet.bits
    ensures ok <==> UsableSubnet(host.subnet) && UsedBy(store, store.Keys - {next}, Slots) + 1 <= Limit(host, Slots)
    ensures ok <==>
      && host.subnet.Mask? && host.subnet.bits == 32 && host.subnet.ones < 30
      && UsedBy(store, store.Keys - {next}, Slots) + 3 <= Pow2(32 - host.subnet.ones)
  {
    CapacityMeans(host, UsedBy(store, store.Keys - {next}, Slots));
    if host.subnet.BadCidr? || host.subnet.bits != 32 {
      return false;
    }
    var hostBits := host.subnet.bits - host.subnet.ones;
    if hostBits <= 2 {
      return false;
    }
    var usable := Pow2(hostBits) - 2;
    SizeOver(hostBits);
    if usable <= 0 {
      return false;
    }
    var active := ActiveSandboxes(all, next);
    TotalIsUsed(all, store, next, Slots);
    ok := active < usable;
  }

  method NewSandboxState(req: Request) returns (s: Sandbox)
    ensures s == New(req)
  {
    var containers: map<string, Resource> := map[];
    for i := 0 to |req.containers|
      invariant containers == Named(req.containers[..i])
    {
      assert req.containers[..i + 1][..i] == req.containers[..i];
      containers := containers[req.containers[i].name := req.containers[i].resource];
    }
    assert req.containers[..|req.containers|] == req.containers;
    s := Sandbox(req.id, Creating, containers);
  }
}
