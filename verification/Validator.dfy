/** The part of the site config loader that decides whether the nodes and the VIP make a cluster. */
module Validator {
  import opened StateFile
  import Firewall

  /** An address as written, canonically spelt. */
  datatype Ip = V4(a: nat, b: nat, c: nat, d: nat) | V6(text: string) | NotAnIp(text: string)
  datatype RawNode = RawNode(name: Option<string>, ip: Ip, leader: bool)
  datatype Node = Node(name: string, ip: Ip, leader: bool)

  datatype Problem =
    | WrongCount
    | InvalidIp(node: nat)
    | DuplicateIp(node: nat)
    | ManyLeaders
    | VipElsewhere(node: nat)
    | VipInvalid
    | VipCollides

  function Expected(single: bool): nat { if single then 1 else 3 }

  function DefaultName(i: nat): string { "node-" + Decimal(i + 1) }

  function Decimal(n: nat): string {
    if n < 10 then [(n + '0' as int) as char] else Decimal(n / 10) + [(n % 10 + '0' as int) as char]
  }

  function Named(r: RawNode, i: nat): Node {
    Node(if r.name.Some? && r.name.value != [] then r.name.value else DefaultName(i), r.ip, r.leader)
  }

  predicate SeenBefore(raw: seq<RawNode>, i: nat)
    requires i < |raw|
  { exists j :: 0 <= j < i && raw[j].ip == raw[i].ip }

  function ProblemsAt(raw: seq<RawNode>, i: nat): seq<Problem>
    requires i < |raw|
  {
    (if raw[i].ip.NotAnIp? then [InvalidIp(i)] else [])
    + (if SeenBefore(raw, i) then [DuplicateIp(i)] else [])
  }

  function NodeProblems(raw: seq<RawNode>, n: nat): seq<Problem>
    requires n <= |raw|
  { if n == 0 then [] else NodeProblems(raw, n - 1) + ProblemsAt(raw, n - 1) }

  predicate SameNet(x: Ip, y: Ip) { x.V4? && y.V4? ==> (x.a, x.b, x.c) == (y.a, y.b, y.c) }

  function VipProblems(raw: seq<RawNode>, vip: Ip, n: nat): seq<Problem>
    requires n <= |raw|
  {
    if n == 0 then []
    else VipProblems(raw, vip, n - 1) + (if SameNet(vip, raw[n - 1].ip) then [] else [VipElsewhere(n - 1)])
  }

  predicate Collides(raw: seq<RawNode>, vip: Ip) { exists i :: 0 <= i < |raw| && raw[i].ip == vip }

  predicate TwoLeaders(raw: seq<RawNode>) {
    exists i, j :: 0 <= i < j < |raw| && raw[i].leader && raw[j].leader
  }

  /** Only with more than one node is there a VIP. */
  function HaProblems(raw: seq<RawNode>, vip: Ip): seq<Problem> {
    (if vip.NotAnIp? then [VipInvalid] else VipProblems(raw, vip, |raw|))
    + (if Collides(raw, vip) then [VipCollides] else [])
  }

  function Problems(single: bool, raw: seq<RawNode>, vip: Ip): seq<Problem> {
    (if |raw| == Expected(single) then [] else [WrongCount])
    + NodeProblems(raw, |raw|)
    + (if TwoLeaders(raw) then [ManyLeaders] else [])
    + (if single then [] else HaProblems(raw, vip))
  }

  predicate AnyLeader(raw: seq<RawNode>) { exists i :: 0 <= i < |raw| && raw[i].leader }

  /** With no leader marked, the first node is it. */
  function Nodes(raw: seq<RawNode>): (ns: seq<Node>)
    ensures |ns| == |raw|
    ensures forall k :: 0 <= k < |raw| ==>
              ns[k] == Named(raw[k], k).(leader := raw[k].leader || (k == 0 && !AnyLeader(raw)))
  {
    seq(|raw|, k requires 0 <= k < |raw| =>
      Named(raw[k], k).(leader := raw[k].leader || (k == 0 && !AnyLeader(raw))))
  }

  // ------------------------------------------------------------------ the loops

  method LoadNodes(raw: seq<RawNode>) returns (problems: seq<Problem>, nodes: seq<Node>, seen: set<Ip>)
    ensures problems == NodeProblems(raw, |raw|)
    ensures |nodes| == |raw| && forall k :: 0 <= k < |raw| ==> nodes[k] == Named(raw[k], k)
    ensures forall ip :: ip in seen <==> exists k :: 0 <= k < |raw| && raw[k].ip == ip
  {
    problems, nodes, seen := [], [], {};
    var i := 0;
    while i < |raw|
      invariant 0 <= i <= |raw|
      invariant problems == NodeProblems(raw, i)
      invariant |nodes| == i && forall k :: 0 <= k < i ==> nodes[k] == Named(raw[k], k)
      invariant forall ip :: ip in seen <==> exists k :: 0 <= k < i && raw[k].ip == ip
    {
      var ip := raw[i].ip;
      ghost var before := problems;
      if ip.NotAnIp? { problems := problems + [InvalidIp(i)]; }
      assert ip in seen <==> SeenBefore(raw, i);
      if ip in seen { problems := problems + [DuplicateIp(i)]; }
      assert problems == before + ProblemsAt(raw, i);
      seen := seen + {ip};
      nodes := nodes + [Named(raw[i], i)];
      i := i + 1;
    }
  }

  method CountLeaders(nodes: seq<Node>) returns (n: nat)
    ensures n == 0 <==> forall k :: 0 <= k < |nodes| ==> !nodes[k].leader
    ensures n > 1 <==> exists i, j :: 0 <= i < j < |nodes| && nodes[i].leader && nodes[j].leader
  {
    n := 0;
    var i := 0;
    while i < |nodes|
      invariant 0 <= i <= |nodes|
      invariant n == 0 <==> forall k :: 0 <= k < i ==> !nodes[k].leader
      invariant n > 1 <==> exists a, b :: 0 <= a < b < i && nodes[a].leader && nodes[b].leader
    {
      if nodes[i].leader {
        if n >= 1 {
          var a :| 0 <= a < i && nodes[a].leader;
          assert 0 <= a < i < i + 1 && nodes[a].leader && nodes[i].leader;
        }
        n := n + 1;
      }
      i := i + 1;
    }
  }

  method CompareNets(raw: seq<RawNode>, vip: Ip) returns (problems: seq<Problem>)
    ensures problems == VipProblems(raw, vip, |raw|)
  {
    problems := [];
    var i := 0;
    while i < |raw|
      invariant 0 <= i <= |raw|
      invariant problems == VipProblems(raw, vip, i)
    {
      if vip.V4? && raw[i].ip.V4? && (vip.a, vip.b, vip.c) != (raw[i].ip.a, raw[i].ip.b, raw[i].ip.c) {
        problems := problems + [VipElsewhere(i)];
      }
      i := i + 1;
    }
  }

  method CheckVip(raw: seq<RawNode>, vip: Ip, seen: set<Ip>) returns (problems: seq<Problem>)
    requires forall ip :: ip in seen <==> exists k :: 0 <= k < |raw| && raw[k].ip == ip
    ensures problems == HaProblems(raw, vip)
  {
    problems := [VipInvalid];
    if !vip.NotAnIp? { problems := CompareNets(raw, vip); }
    if vip in seen { problems := problems + [VipCollides]; }
  }

  method DefaultLeader(raw: seq<RawNode>, loaded: seq<Node>) returns (nodes: seq<Node>, several: bool)
    requires |loaded| == |raw| && forall k :: 0 <= k < |raw| ==> loaded[k] == Named(raw[k], k)
    ensures nodes == Nodes(raw) && several == TwoLeaders(raw)
  {
    nodes := loaded;
    var n := CountLeaders(nodes);
    LeadersAgree(raw, nodes);
    DefaultedNodes(raw, nodes);
    if n == 0 && nodes != [] { nodes := nodes[0 := nodes[0].(leader := true)]; }
    several := n > 1;
  }

  method Validate(single: bool, raw: seq<RawNode>, vip: Ip) returns (problems: seq<Problem>, nodes: seq<Node>)
    ensures problems == Problems(single, raw, vip)
    ensures nodes == Nodes(raw)
  {
    problems := if |raw| == Expected(single) then [] else [WrongCount];
    var found, loaded, seen := LoadNodes(raw);
    problems, nodes := problems + found, loaded;
    var several;
    nodes, several := DefaultLeader(raw, nodes);
    if several { problems := problems + [ManyLeaders]; }
    if !single {
      var vips := CheckVip(raw, vip, seen);
      problems := problems + vips;
    }
  }

  lemma DefaultedNodes(raw: seq<RawNode>, nodes: seq<Node>)
    requires |nodes| == |raw| && forall k :: 0 <= k < |raw| ==> nodes[k] == Named(raw[k], k)
    ensures AnyLeader(raw) || raw == [] ==> Nodes(raw) == nodes
    ensures !AnyLeader(raw) && raw != [] ==> Nodes(raw) == nodes[0 := nodes[0].(leader := true)]
  {}

  lemma LeadersAgree(raw: seq<RawNode>, nodes: seq<Node>)
    requires |nodes| == |raw| && forall k :: 0 <= k < |raw| ==> nodes[k] == Named(raw[k], k)
    ensures (exists i, j :: 0 <= i < j < |nodes| && nodes[i].leader && nodes[j].leader) <==> TwoLeaders(raw)
    ensures (forall k :: 0 <= k < |nodes| ==> !nodes[k].leader) <==> !AnyLeader(raw)
  {
    if i, j :| 0 <= i < j < |nodes| && nodes[i].leader && nodes[j].leader {
      assert raw[i].leader && raw[j].leader;
    }
    if i, j :| 0 <= i < j < |raw| && raw[i].leader && raw[j].leader {
      assert nodes[i].leader && nodes[j].leader;
    }
    if i :| 0 <= i < |raw| && raw[i].leader { assert nodes[i].leader; }
  }

  // ------------------------------------------------------------------ what is accepted

  ghost predicate DistinctIps(raw: seq<RawNode>) {
    forall i, j :: 0 <= i < j < |raw| ==> raw[i].ip != raw[j].ip
  }

  ghost predicate Sound(single: bool, raw: seq<RawNode>, vip: Ip) {
    && |raw| == (if single then 1 else 3)
    && (forall i :: 0 <= i < |raw| ==> !raw[i].ip.NotAnIp?)
    && DistinctIps(raw)
    && (forall i, j :: 0 <= i < j < |raw| ==> !(raw[i].leader && raw[j].leader))
    && (single || (
          && !vip.NotAnIp?
          && (forall i :: 0 <= i < |raw| ==> raw[i].ip != vip && SameNet(vip, raw[i].ip))))
  }

  lemma {:induction false} NodeProblemsMeaning(raw: seq<RawNode>, n: nat)
    requires n <= |raw|
    ensures NodeProblems(raw, n) == [] <==>
            forall i :: 0 <= i < n ==> !raw[i].ip.NotAnIp? && !SeenBefore(raw, i)
  {
    if n > 0 { NodeProblemsMeaning(raw, n - 1); }
  }

  lemma {:induction false} VipProblemsMeaning(raw: seq<RawNode>, vip: Ip, n: nat)
    requires n <= |raw|
    ensures VipProblems(raw, vip, n) == [] <==> forall i :: 0 <= i < n ==> SameNet(vip, raw[i].ip)
  {
    if n > 0 { VipProblemsMeaning(raw, vip, n - 1); }
  }

  /** The loops add no problem exactly if the node count fits the topology, the addresses are valid
      and pairwise distinct, at most one leader is marked, and (HA) the VIP is a valid address, no
      node's, and in the /24 of every IPv4 node. */
  lemma AcceptedIffSound(single: bool, raw: seq<RawNode>, vip: Ip)
    ensures Problems(single, raw, vip) == [] <==> Sound(single, raw, vip)
  {
    NodeProblemsMeaning(raw, |raw|);
    VipProblemsMeaning(raw, vip, |raw|);
    if DistinctIps(raw) {
      forall i | 0 <= i < |raw| ensures !SeenBefore(raw, i) {}
    } else {
      var i, j :| 0 <= i < j < |raw| && raw[i].ip == raw[j].ip;
      assert SeenBefore(raw, j);
    }
    assert TwoLeaders(raw) <==> !(forall i, j :: 0 <= i < j < |raw| ==> !(raw[i].leader && raw[j].leader));
  }

  /** Every node has a name, its own if it gives one that is not empty. */
  lemma NamesByDefault(raw: seq<RawNode>, k: nat)
    requires k < |raw|
    ensures raw[k].name.Some? && raw[k].name.value != [] ==> Nodes(raw)[k].name == raw[k].name.value
    ensures raw[k].name.None? || raw[k].name == Some([]) ==>
              && (k == 0 ==> Nodes(raw)[k].name == "node-1") && (k == 1 ==> Nodes(raw)[k].name == "node-2")
              && (k == 2 ==> Nodes(raw)[k].name == "node-3")
  {
    assert Decimal(1) == "1" && Decimal(2) == "2" && Decimal(3) == "3";
  }

  lemma DefaultingGivesOne(raw: seq<RawNode>) returns (l: nat)
    requires raw != [] && forall i, j :: 0 <= i < j < |raw| ==> !(raw[i].leader && raw[j].leader)
    ensures l < |raw| && Nodes(raw)[l].leader
    ensures forall k :: 0 <= k < |raw| && k != l ==> !Nodes(raw)[k].leader
  {
    l := 0;
    if i: nat :| i < |raw| && raw[i].leader { l := i; }
    assert raw[l].leader || !AnyLeader(raw);
  }

  /** Then exactly one node leads. */
  lemma OneLeaderAfterDefaulting(single: bool, raw: seq<RawNode>, vip: Ip)
    requires Problems(single, raw, vip) == []
    ensures exists l :: 0 <= l < |raw| && Nodes(raw)[l].leader
              && forall k :: 0 <= k < |raw| && k != l ==> !Nodes(raw)[k].leader
  {
    AcceptedIffSound(single, raw, vip);
    var l := DefaultingGivesOne(raw);
  }

  // ------------------------------------------------------------------ the subnet of node 0

  predicate Octets(ip: Ip) { ip.V4? ==> ip.a < 256 && ip.b < 256 && ip.c < 256 && ip.d < 256 }

  function Address(ip: Ip): nat
    requires ip.V4?
  { ((ip.a * 256 + ip.b) * 256 + ip.c) * 256 + ip.d }

  /** The first three parts of the spelling, then `.0/24`. */
  function Subnet(ip: Ip): Firewall.Cidr
    requires ip.V4?
  { Firewall.Cidr(Address(ip.(d := 0)), 24) }

  lemma SubnetCovers(x: Ip, y: Ip)
    requires x.V4? && y.V4? && Octets(x) && Octets(y)
    ensures Firewall.Covers(Subnet(x), Address(y)) <==> SameNet(x, y)
  {
    var p, q := (x.a * 256 + x.b) * 256 + x.c, (y.a * 256 + y.b) * 256 + y.c;
    PowerOfEight();
    assert Address(y) == q * 256 + y.d && Address(y) / 256 == q;
    assert Subnet(x).base == p * 256 && Subnet(x).base / 256 == p;
    if p == q { assert x.a == y.a && x.b == y.b && x.c == y.c; }
  }

  lemma PowerOfEight()
    ensures Firewall.Pow2(8) == 256
  {
    assert Firewall.Pow2(4) == 16;
  }

  /** In an accepted HA config with IPv4 addresses, the subnet computed from node 0 alone contains
      every node and the VIP. */
  lemma {:induction false} SubnetHoldsEverybody(raw: seq<RawNode>, vip: Ip, k: nat)
    requires Problems(false, raw, vip) == [] && vip.V4? && Octets(vip) && k < |raw|
    requires forall i :: 0 <= i < |raw| ==> raw[i].ip.V4? && Octets(raw[i].ip)
    ensures Firewall.Covers(Subnet(Nodes(raw)[0].ip), Address(Nodes(raw)[k].ip))
    ensures Firewall.Covers(Subnet(Nodes(raw)[0].ip), Address(vip))
  {
    AcceptedIffSound(false, raw, vip);
    SubnetCovers(raw[0].ip, raw[k].ip);
    SubnetCovers(raw[0].ip, vip);
  }

  // ------------------------------------------------------------------ names

  function Renamed(raw: seq<RawNode>, name: string): (r: seq<RawNode>)
    ensures |r| == |raw| && forall k :: 0 <= k < |raw| ==> r[k] == raw[k].(name := Some(name))
  { seq(|raw|, k requires 0 <= k < |raw| => raw[k].(name := Some(name))) }

  lemma SoundIgnoresNames(single: bool, raw: seq<RawNode>, vip: Ip, name: string)
    requires Sound(single, raw, vip)
    ensures Sound(single, Renamed(raw, name), vip)
  {
    var r := Renamed(raw, name);
    assert forall k :: 0 <= k < |raw| ==> r[k].ip == raw[k].ip && r[k].leader == raw[k].leader;
  }

  /** Nothing keeps names apart: any accepted config stays accepted with all its nodes of one name. */
  lemma SharedNamesAreAccepted(single: bool, raw: seq<RawNode>, vip: Ip, name: string)
    requires Problems(single, raw, vip) == [] && name != []
    ensures Problems(single, Renamed(raw, name), vip) == []
    ensures forall k :: 0 <= k < |raw| ==> Nodes(Renamed(raw, name))[k].name == name
  {
    AcceptedIffSound(single, raw, vip);
    SoundIgnoresNames(single, raw, vip, name);
    AcceptedIffSound(single, Renamed(raw, name), vip);
  }
}
