/** The haproxy phase's three-way decision on each node: recreate, reload, or leave alone. */
module Haproxy {

  datatype Files = Files(cfg: string, compose: string)
  /** `running` is what the container was created from, with the configuration it last read. */
  datatype Node = Node(disk: Files, running: Files, up: bool)

  /** Where the node raises, if it does, and what that leaves: of the configuration, of the compose file
      pushed after it, or of the container. */
  datatype Trouble = Smooth | InCfg(cfg: string) | InCompose(compose: string) | InDocker(running: Files, up: bool)

  /** Answers on one node: `seen` whether the process list could be had, `worked` whether the restart
      or reload did; `upAfter` what a failed restart leaves. */
  datatype Ans = Ans(trouble: Trouble, seen: bool, worked: bool, upAfter: bool)
  type Oracle = nat -> Ans

  datatype Action = Recreated | Reloaded | Left
  datatype Act = Act(node: Node, action: Action)

  function Decide(n: Node, want: Files, seen: bool): Action {
    if !(n.up && seen) || n.disk.compose != want.compose then Recreated
    else if n.disk.cfg != want.cfg then Reloaded
    else Left
  }

  function ApplyOne(n: Node, want: Files, a: Ans): Act {
    var action := Decide(n, want, a.seen);
    var m := n.(disk := want);
    match action
    case Recreated => Act(if a.worked then Node(want, want, true) else m.(up := a.upAfter), action)
    case Reloaded => Act(if a.worked then m.(running := m.running.(cfg := want.cfg)) else m, action)
    case Left => Act(m, action)
  }

  /** The node as a raise leaves it. */
  function Broken(n: Node, want: Files, t: Trouble): Node {
    match t
    case Smooth => n
    case InCfg(cfg) => n.(disk := n.disk.(cfg := cfg))
    case InCompose(compose) => n.(disk := Files(want.cfg, compose))
    case InDocker(running, up) => Node(want, running, up)
  }

  function ApplyAll(ns: seq<Node>, want: Files, o: Oracle, i: nat): seq<Node>
    requires i <= |ns|
    decreases |ns| - i
  {
    if i == |ns| then []
    else if !o(i).trouble.Smooth? then [Broken(ns[i], want, o(i).trouble)] + ns[i + 1..]
    else [ApplyOne(ns[i], want, o(i)).node] + ApplyAll(ns, want, o, i + 1)
  }

  class Fleet {
    var nodes: seq<Node>

    constructor (nodes: seq<Node>)
      ensures this.nodes == nodes
    { this.nodes := nodes; }

    method ApplyNode(i: nat, want: Files, a: Ans) returns (ok: bool)
      requires i < |nodes|
      modifies this
      ensures ok <==> a.trouble.Smooth?
      ensures nodes == old(nodes)[i := if ok then ApplyOne(old(nodes)[i], want, a).node
                                       else Broken(old(nodes)[i], want, a.trouble)]
    {
      var n := nodes[i];
      var cfgChanged := n.disk.cfg != want.cfg;
      if a.trouble.InCfg? {
        nodes := nodes[i := n.(disk := n.disk.(cfg := a.trouble.cfg))];
        return false;
      }
      n := n.(disk := n.disk.(cfg := want.cfg));
      var composeChanged := n.disk.compose != want.compose;
      if a.trouble.InCompose? {
        nodes := nodes[i := n.(disk := n.disk.(compose := a.trouble.compose))];
        return false;
      }
      n := n.(disk := n.disk.(compose := want.compose));
      if a.trouble.InDocker? {
        nodes := nodes[i := Node(n.disk, a.trouble.running, a.trouble.up)];
        return false;
      }
      if !(n.up && a.seen) || composeChanged {
        n := if a.worked then Node(want, want, true) else n.(up := a.upAfter);
      } else if cfgChanged && a.worked {
        n := n.(running := n.running.(cfg := want.cfg));
      }
      nodes := nodes[i := n];
      return true;
    }

    /** A push that raises ends the phase; a restart or reload that fails is recorded and passed over. */
    method Apply(want: Files, o: Oracle) returns (ok: bool)
      modifies this
      ensures nodes == ApplyAll(old(nodes), want, o, 0)
      ensures ok <==> forall k :: 0 <= k < |nodes| ==> o(k).trouble.Smooth?
    {
      ghost var was := nodes;
      var i := 0;
      while i < |nodes|
        invariant 0 <= i <= |nodes| == |was|
        invariant Halfway(was, nodes, want, o, i)
        invariant forall k :: 0 <= k < i ==> o(k).trouble.Smooth?
      {
        ghost var before := nodes;
        var good := ApplyNode(i, want, o(i));
        if !good {
          HalfwayBreaks(was, before, nodes, want, o, i);
          return false;
        }
        HalfwayStep(was, before, nodes, want, o, i);
        i := i + 1;
      }
      assert nodes == nodes[..i] + [];
      return true;
    }
  }

  /** The first i nodes are done, the rest as they were. */
  ghost predicate Halfway(was: seq<Node>, now: seq<Node>, want: Files, o: Oracle, i: nat) {
    && i <= |was| == |now| && now[i..] == was[i..]
    && now[..i] + ApplyAll(was, want, o, i) == ApplyAll(was, want, o, 0)
  }

  lemma HalfwayStep(was: seq<Node>, now: seq<Node>, next: seq<Node>, want: Files, o: Oracle, i: nat)
    requires Halfway(was, now, want, o, i) && i < |was| && o(i).trouble.Smooth?
    requires next == now[i := ApplyOne(now[i], want, o(i)).node]
    ensures Halfway(was, next, want, o, i + 1)
  {
    assert now[i] == now[i..][0] == was[i..][0] == was[i];
    var n := ApplyOne(was[i], want, o(i)).node;
    var rest := ApplyAll(was, want, o, i + 1);
    assert next[..i + 1] == now[..i] + [n];
    assert now[..i] + ([n] + rest) == now[..i] + [n] + rest;
    assert next[i + 1..] == now[i..][1..];
    assert was[i + 1..] == was[i..][1..];
  }

  lemma HalfwayBreaks(was: seq<Node>, now: seq<Node>, next: seq<Node>, want: Files, o: Oracle, i: nat)
    requires Halfway(was, now, want, o, i) && i < |was| && !o(i).trouble.Smooth?
    requires next == now[i := Broken(now[i], want, o(i).trouble)]
    ensures next == ApplyAll(was, want, o, 0)
  {
    assert now[i] == now[i..][0] == was[i..][0] == was[i];
    assert was[i + 1..] == was[i..][1..] == now[i..][1..];
    assert next == now[..i] + ([Broken(was[i], want, o(i).trouble)] + was[i + 1..]);
  }

  /** A raise at node i: the nodes before are done, those after untouched. */
  lemma {:induction false} RaiseLeaves(ns: seq<Node>, want: Files, o: Oracle, i: nat, from: nat)
    requires from <= i < |ns| && !o(i).trouble.Smooth? && forall j :: from <= j < i ==> o(j).trouble.Smooth?
    ensures var r := ApplyAll(ns, want, o, from);
      && |r| == |ns| - from
      && (forall k :: from <= k < i ==> r[k - from] == ApplyOne(ns[k], want, o(k)).node)
      && r[i - from] == Broken(ns[i], want, o(i).trouble)
      && (forall k :: i < k < |ns| ==> r[k - from] == ns[k])
    decreases i - from
  {
    if from < i { RaiseLeaves(ns, want, o, i, from + 1); }
  }

  lemma {:induction false} ApplyAllAt(ns: seq<Node>, want: Files, o: Oracle, i: nat, k: nat)
    requires i <= k < |ns| && forall j :: i <= j <= k ==> o(j).trouble.Smooth?
    ensures |ApplyAll(ns, want, o, i)| > k - i
    ensures ApplyAll(ns, want, o, i)[k - i] == ApplyOne(ns[k], want, o(k)).node
    decreases k - i
  { if i < k { ApplyAllAt(ns, want, o, i + 1, k); } }

  /** After an apply whose restart or reload on node k worked, the node runs the rendered files exactly
      if it was recreated, or ran the rendered compose file already and, with the configuration
      unchanged on disk, the rendered configuration too.  Each condition can be read off before. */
  lemma NodeConverges(ns: seq<Node>, want: Files, o: Oracle, k: nat)
    requires k < |ns| && (forall j :: 0 <= j <= k ==> o(j).trouble.Smooth?) && o(k).worked
    ensures |ApplyAll(ns, want, o, 0)| > k
    ensures var n := ns[k]; var r := ApplyAll(ns, want, o, 0)[k];
      && r.disk == want && r.up
      && (r.running == want <==>
            || Decide(n, want, o(k).seen).Recreated?
            || (n.running.compose == want.compose && (n.disk.cfg != want.cfg || n.running.cfg == want.cfg)))
  { ApplyAllAt(ns, want, o, 0, k); }

  /** So where every running node runs what is on its disk, every node converges; and doing it again
      touches no container. */
  lemma SettledConverges(ns: seq<Node>, want: Files, o: Oracle, k: nat)
    requires k < |ns| && (forall j :: 0 <= j <= k ==> o(j).trouble.Smooth?) && o(k).worked
    requires ns[k].up ==> ns[k].running == ns[k].disk
    ensures |ApplyAll(ns, want, o, 0)| > k
    ensures var r := ApplyAll(ns, want, o, 0)[k];
      r == Node(want, want, true) && ApplyOne(r, want, o(k).(seen := true)) == Act(r, Left)
  {
    NodeConverges(ns, want, o, k);
    ApplyAllAt(ns, want, o, 0, k);
  }

  /** A reload that fails is not made up for: the file is on disk, so every later apply that sees the
      container leaves it alone, with the old configuration. */
  lemma FailedReloadStays(n: Node, want: Files, a: Ans, b: Ans)
    requires Decide(n, want, a.seen).Reloaded? && !a.worked && b.seen
    ensures var once := ApplyOne(n, want, a).node;
      ApplyOne(once, want, b) == Act(once, Left) && (once.running == want <==> n.running == want)
  {}
}
