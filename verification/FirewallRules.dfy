/** The rules ApplySandboxRules writes for one sandbox (sandboxd-let/network/firewall.go). */
module FirewallRules {
  import opened Strings
  import opened Netfilter

  /** The rules of one sandbox, by the place they go to. */
  datatype Plan = Plan(short: string, fwdJump: Rule, inJump: Rule, early: seq<Rule>, fwd: seq<Rule>, inn: seq<Rule>)

  datatype Port = Port(number: int, protocol: string)

  /** One published sandbox; `short` is the hash of its id that names its chains. */
  datatype Box = Box(
    short: string, ip: int, bridgeCidr: Cidr, bridgeIf: string, egress: bool, nameservers: seq<int>, ports: seq<Port>)

  function Proto(raw: string): string {
    if ToLower(raw) == "" then "tcp" else ToLower(raw)
  }

  function FwdJump(b: Box): Rule {
    Rule(SrcIp(b.ip), Jump(Fwd(b.short)))
  }

  function InJump(b: Box): Rule {
    Rule(SrcIpOn(b.bridgeIf, b.ip), Jump(In(b.short)))
  }

  function EarlyRule(b: Box, p: Port): Rule {
    Rule(DstService(b.ip, Proto(p.protocol), p.number), Accept)
  }

  function EarlyRules(b: Box): seq<Rule> {
    seq(|b.ports|, i requires 0 <= i < |b.ports| => EarlyRule(b, b.ports[i]))
  }

  function Octets(a: int, b: int, c: int, d: int): int {
    ((a * 256 + b) * 256 + c) * 256 + d
  }

  /** Destinations no sandbox may open a connection to: its own bridge and the special-purpose networks. */
  function RejectedNetworks(bridge: Cidr): seq<Cidr> {
    [ bridge,
      Cidr(Octets(10, 0, 0, 0), 8), Cidr(Octets(172, 16, 0, 0), 12), Cidr(Octets(192, 168, 0, 0), 16),
      Cidr(Octets(127, 0, 0, 0), 8), Cidr(Octets(169, 254, 0, 0), 16), Cidr(Octets(100, 64, 0, 0), 10),
      Cidr(Octets(198, 18, 0, 0), 15), Cidr(Octets(224, 0, 0, 0), 4), Cidr(Octets(240, 0, 0, 0), 4) ]
  }

  function NameserverRules(ns: seq<int>): seq<Rule> {
    if ns == [] then []
    else
      NameserverRules(ns[..|ns| - 1])
      + [Rule(DstService(ns[|ns| - 1], "udp", 53), Accept), Rule(DstService(ns[|ns| - 1], "tcp", 53), Accept)]
  }

  /** Every nameserver gets its two rules. */
  lemma {:induction false} NameserversNamed(ns: seq<int>, i: nat)
    requires i < |ns|
    ensures Rule(DstService(ns[i], "udp", 53), Accept) in NameserverRules(ns)
    ensures Rule(DstService(ns[i], "tcp", 53), Accept) in NameserverRules(ns)
  {
    if i == |ns| - 1 {
    } else {
      NameserversNamed(ns[..|ns| - 1], i);
    }
  }

  function DnsRules(b: Box): seq<Rule> {
    if b.egress then NameserverRules(b.nameservers) +
      [Rule(Dport("udp", 53), Accept), Rule(Dport("tcp", 53), Accept)] else []
  }

  function RejectRules(nets: seq<Cidr>): seq<Rule> {
    seq(|nets|, i requires 0 <= i < |nets| => Rule(DstIn(nets[i]), Reject))
  }

  function FwdRules(b: Box): seq<Rule> {
    [Rule(Established, Accept)] + DnsRules(b) + [Rule(LocalDst, Reject)] + RejectRules(RejectedNetworks(b.bridgeCidr))
    + [Rule(Always, if b.egress then Accept else Reject)]
  }

  function SportRules(b: Box): seq<Rule> {
    seq(|b.ports|, i requires 0 <= i < |b.ports| => Rule(Sport(Proto(b.ports[i].protocol), b.ports[i].number), Accept))
  }

  function InRules(b: Box): seq<Rule> {
    [Rule(Established, Accept)] + SportRules(b) + [Rule(Always, Reject)]
  }

  function Compile(b: Box): Plan {
    Plan(b.short, FwdJump(b), InJump(b), EarlyRules(b), FwdRules(b), InRules(b))
  }
}
