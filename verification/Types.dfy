/** Rows of the orchestrator's tables (sandboxd-orch/types). */
module Types {

  datatype Option<+T> = None | Some(value: T)

  /** CPU in milli-units and memory in bytes. */
  datatype Demand = Demand(cpu: int, mem: int)

  /** A container request; a quantity that Kubernetes cannot parse is None. */
  datatype ContainerSpec = ContainerSpec(name: string, image: string, cpu: Option<int>, mem: Option<int>)

  datatype PortSpec = PortSpec(containerPort: int, protocol: string)

  datatype SandboxSpec = SandboxSpec(egress: bool, ttlSeconds: int, ports: seq<PortSpec>,
    containers: seq<ContainerSpec>)

  datatype Phase = Pending | Scheduled | Running | Failed | Deleting

  datatype PortAssign = PortAssign(hostPort: int, containerPort: int, protocol: string)

  /** An empty nodeName means that no node was chosen. */
  datatype Status = Status(
    phase: Phase, nodeName: string, external: string, ip: string,
    assignedPorts: seq<PortAssign>, expireAt: Option<int>, lastError: string)

  datatype Row = Row(spec: SandboxSpec, status: Status, updatedAt: int)

  /** A row of sandbox_ports; its primary key is (nodeName, port.hostPort). */
  datatype PortRow = PortRow(sandboxId: string, nodeName: string, port: PortAssign)

  datatype NodeState = Unknown | Ready | NotReady

  /** A row of node_resources. */
  datatype Resources = Resources(alloc: Demand, used: Demand, avail: Demand)

  /** Sum of the container requests, None when some quantity does not parse. */
  function Request(containers: seq<ContainerSpec>): Option<Demand> {
    if containers == [] then Some(Demand(0, 0))
    else
      var last := containers[|containers| - 1];
      match Request(containers[..|containers| - 1])
      case Some(d) => if last.cpu.Some? &&
        last.mem.Some? then Some(Demand(d.cpu + last.cpu.value, d.mem + last.mem.value)) else None
      case None => None
  }

  /** What all containers ask for together, one dimension at a time. */
  function CpuSum(cs: seq<ContainerSpec>): int {
    if cs == [] then 0 else (if cs[0].cpu.Some? then cs[0].cpu.value else 0) + CpuSum(cs[1..])
  }

  function MemSum(cs: seq<ContainerSpec>): int {
    if cs == [] then 0 else (if cs[0].mem.Some? then cs[0].mem.value else 0) + MemSum(cs[1..])
  }

  lemma {:induction false} SumsLast(front: seq<ContainerSpec>, c: ContainerSpec)
    ensures CpuSum(front + [c]) == CpuSum(front) + CpuSum([c]) && MemSum(front + [c]) == MemSum(front) + MemSum([c])
  {
    if front == [] {
      assert front + [c] == [c];
    } else {
      assert (front + [c])[1..] == front[1..] + [c];
      SumsLast(front[1..], c);
    }
  }

  /** The request parses exactly when every quantity does, and is then the two sums. */
  lemma {:induction false} RequestMeans(cs: seq<ContainerSpec>)
    ensures Request(cs).Some? <==> forall c :: c in cs ==> c.cpu.Some? && c.mem.Some?
    ensures Request(cs).Some? ==> Request(cs).value.cpu == CpuSum(cs) && Request(cs).value.mem == MemSum(cs)
  {
    if cs == [] {
    } else {
      var front, last := cs[..|cs| - 1], cs[|cs| - 1];
      assert cs == front + [last];
      RequestMeans(front);
      SumsLast(front, last);
    }
  }

  /** What a stored sandbox asks for; every stored spec parses (RowInv). */
  function Need(spec: SandboxSpec): Demand {
    match Request(spec.containers)
    case Some(d) => d
    case None => Demand(0, 0)
  }

  function Max(a: int, b: int): int {
    if a < b then b else a
  }
}
