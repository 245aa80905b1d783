/** What a rollout keeps at every step, where a failed one leaves the fleet, and which nodes run
    the newly rendered files once it has returned. */
module RolloutProofs {
  import opened World
  import opened Rollout

  // ------------------------------------------------------------------ one node recreated

  /** Everything but node i's containers and running files is as it was. */
  ghost predicate OnlyNode(w: Fleet, w': Fleet, i: nat) {
    && |w'.nodes| == |w.nodes| && i < |w.nodes|
    && (forall k :: 0 <= k < |w.nodes| && k != i ==> w'.nodes[k] == w.nodes[k])
    && w'.nodes[i].name == w.nodes[i].name && w'.nodes[i].leader == w.nodes[i].leader
    && w'.nodes[i].disk == w.nodes[i].disk
  }

  ghost predicate PolledOnly(w: Fleet, w': Fleet, i: nat) {
    && OnlyNode(w, w', i)
    && w'.nodes[i].running == w.nodes[i].running
    && (w.nodes[i].server.Present? <==> w'.nodes[i].server.Present?)
    && (w.nodes[i].worker.Present? <==> w'.nodes[i].worker.Present?)
  }

  function NodeOf(cmd: Cmd): nat {
    match cmd
    case Restart(i) => i
    case Poll(i, _) => i
    case _ => 0
  }

  lemma {:induction false} GatePolls(s: Session, o: Oracle, i: nat, pair: bool, polls: nat)
    requires i < |s.fleet.nodes|
    ensures var g := Gate(s, o, i, pair, polls);
      && Extends(s, g.s)
      && PolledOnly(s.fleet, g.s.fleet, i)
      && (forall k :: |s.trace| <= k < |g.s.trace| ==>
            g.s.trace[k].cmd == Poll(i, pair) && PolledOnly(s.fleet, g.s.trace[k].after, i))
      && (g.verdict.Open? ==>
            if pair then PairGate(g.s.fleet.nodes[i]) else WorkerGate(g.s.fleet.nodes[i]))
    decreases polls
  {
    GateExtends(s, o, i, pair, polls);
    if polls > 0 {
      var s1 := Next(s, o, Poll(i, pair));
      assert PolledOnly(s.fleet, s1.fleet, i);
      GatePolls(s1, o, i, pair, polls - 1);
    }
  }

  lemma {:induction false} CycleOnly(s: Session, o: Oracle, i: nat)
    requires i < |s.fleet.nodes|
    ensures var c := Cycle(s, o, i);
      && OnlyNode(s.fleet, c.s.fleet, i)
      && (forall k :: |s.trace| <= k < |c.s.trace| ==>
            NodeOf(c.s.trace[k].cmd) == i && OnlyNode(s.fleet, c.s.trace[k].after, i))
      && (c.ok ==>
            && c.s.fleet.nodes[i].running == s.fleet.nodes[i].disk
            && BothHealthy(c.s.fleet.nodes[i]))
  {
    var s1 := Next(s, o, Restart(i));
    assert OnlyNode(s.fleet, s1.fleet, i);
    if LastCode(s1).Zero? { GatePolls(s1, o, i, true, HEALTHY_POLLS); }
  }

  // ------------------------------------------------------------------ rolling

  ghost predicate AllHealthy(w: Fleet) {
    forall k :: 0 <= k < |w.nodes| ==> BothHealthy(w.nodes[k])
  }

  /** Only node j may be down, and the nodes before it are what they were in `w0`. */
  ghost predicate ServingAround(w0: Fleet, w: Fleet, j: nat) {
    && |w.nodes| == |w0.nodes|
    && (forall k :: 0 <= k < |w.nodes| && k != j ==> BothHealthy(w.nodes[k]))
    && (forall k :: 0 <= k < |w.nodes| && k < j ==> w.nodes[k] == w0.nodes[k])
  }

  ghost predicate ServedSince(w0: Fleet, s: Session, s': Session, i: nat) {
    && Extends(s, s')
    && forall k :: |s.trace| <= k < |s'.trace| ==>
         && NodeOf(s'.trace[k].cmd) < i
         && ServingAround(w0, s'.trace[k].after, NodeOf(s'.trace[k].cmd))
  }

  ghost predicate Descending(s: Session, s': Session) {
    forall k, m :: |s.trace| <= k < m < |s'.trace| ==>
      NodeOf(s'.trace[k].cmd) >= NodeOf(s'.trace[m].cmd)
  }

  lemma ServedJoin(s: Session, c: Session, s': Session, j: nat)
    requires ServedSince(s.fleet, s, c, j + 1) && ServedSince(c.fleet, c, s', j)
    requires ServingAround(s.fleet, c.fleet, j)
    ensures ServedSince(s.fleet, s, s', j + 1)
  {
    forall k | |s.trace| <= k < |s'.trace|
      ensures NodeOf(s'.trace[k].cmd) < j + 1
      ensures ServingAround(s.fleet, s'.trace[k].after, NodeOf(s'.trace[k].cmd))
    {
      if k < |c.trace| { assert s'.trace[k] == c.trace[k]; }
    }
  }

  lemma DescendingJoin(s: Session, c: Session, s': Session, j: nat)
    requires Extends(s, c) && Extends(c, s') && Descending(c, s')
    requires forall k :: |s.trace| <= k < |c.trace| ==> NodeOf(c.trace[k].cmd) == j
    requires forall k :: |c.trace| <= k < |s'.trace| ==> NodeOf(s'.trace[k].cmd) < j
    ensures Descending(s, s')
  {
    forall k, m | |s.trace| <= k < m < |s'.trace|
      ensures NodeOf(s'.trace[k].cmd) >= NodeOf(s'.trace[m].cmd)
    {
      if k < |c.trace| { assert s'.trace[k] == c.trace[k]; }
      if m < |c.trace| { assert s'.trace[m] == c.trace[m]; }
    }
  }

  lemma {:induction false} CycleServes(s: Session, o: Oracle, j: nat)
    requires j < |s.fleet.nodes| && AllHealthy(s.fleet)
    ensures var c := Cycle(s, o, j);
      && ServedSince(s.fleet, s, c.s, j + 1)
      && ServingAround(s.fleet, c.s.fleet, j)
      && (c.ok ==> AllHealthy(c.s.fleet))
      && (forall k :: |s.trace| <= k < |c.s.trace| ==> NodeOf(c.s.trace[k].cmd) == j)
  {
    CycleOnly(s, o, j);
  }

  /** At every step of a rolling update at most the node being acted on is not healthy, and no
      node before it in fleet order has been touched.  Steps visit nodes in reverse fleet order.
      If a gate fails, exactly that holds of the fleet left behind. */
  lemma {:induction false} RollServes(s: Session, o: Oracle, changed: map<string, bool>, i: nat)
    requires i <= |s.fleet.nodes| && AllHealthy(s.fleet)
    ensures var r := Roll(s, o, changed, i);
      && ServedSince(s.fleet, s, r.s, i)
      && Descending(s, r.s)
      && (r.ok ==> AllHealthy(r.s.fleet))
      && (!r.ok ==> exists j: nat :: j < i && ServingAround(s.fleet, r.s.fleet, j))
    decreases i
  {
    if i > 0 {
      var j: nat := i - 1;
      if !Flagged(changed, s.fleet.nodes[j]) {
        RollServes(s, o, changed, j);
      } else {
        CycleServes(s, o, j);
        var c := Cycle(s, o, j);
        if c.ok {
          RollServes(c.s, o, changed, j);
          var r := Roll(c.s, o, changed, j);
          ServedJoin(s, c.s, r.s, j);
          DescendingJoin(s, c.s, r.s, j);
          if !r.ok {
            var f: nat :| f < j && ServingAround(c.s.fleet, r.s.fleet, f);
            assert ServingAround(s.fleet, r.s.fleet, f);
          }
        }
      }
    }
  }

  /** A roll that returns has recreated exactly the flagged nodes, from the files on their disks. */
  lemma {:induction false} RollResult(s: Session, o: Oracle, changed: map<string, bool>, i: nat)
    requires i <= |s.fleet.nodes|
    ensures var r := Roll(s, o, changed, i);
      && (forall k :: 0 <= k < |s.fleet.nodes| ==>
            && r.s.fleet.nodes[k].disk == s.fleet.nodes[k].disk
            && r.s.fleet.nodes[k].name == s.fleet.nodes[k].name)
      && (forall k :: i <= k < |s.fleet.nodes| ==> r.s.fleet.nodes[k] == s.fleet.nodes[k])
      && (r.ok ==> forall k :: 0 <= k < i ==>
            if Flagged(changed, s.fleet.nodes[k])
            then r.s.fleet.nodes[k].running == s.fleet.nodes[k].disk && BothHealthy(r.s.fleet.nodes[k])
            else r.s.fleet.nodes[k] == s.fleet.nodes[k])
    decreases i
  {
    if i > 0 {
      var j: nat := i - 1;
      if !Flagged(changed, s.fleet.nodes[j]) {
        RollResult(s, o, changed, j);
      } else {
        CycleOnly(s, o, j);
        var c := Cycle(s, o, j);
        if c.ok { RollResult(c.s, o, changed, j); }
      }
    }
  }

  // ------------------------------------------------------------------ bootstrap

  ghost predicate FollowedUp(w: seq<Node>, w': seq<Node>, i: nat) {
    && |w'| == |w|
    && (forall k :: 0 <= k < |w| && (k < i || w[k].leader) ==> w'[k] == w[k])
    && (forall k :: i <= k < |w| && !w[k].leader ==>
          w'[k].disk == w[k].disk && w'[k].running == w[k].disk && BothHealthy(w'[k]))
  }

  ghost predicate CycledAt(w: seq<Node>, c: seq<Node>, i: nat) {
    && i < |w| == |c|
    && (forall k :: 0 <= k < |w| && k != i ==> c[k] == w[k])
    && c[i].leader == w[i].leader
    && c[i].disk == w[i].disk && c[i].running == w[i].disk && BothHealthy(c[i])
  }

  lemma FollowJoin(w: seq<Node>, c: seq<Node>, w': seq<Node>, i: nat)
    requires CycledAt(w, c, i) && !w[i].leader && FollowedUp(c, w', i + 1)
    ensures FollowedUp(w, w', i)
  {}

  ghost predicate Renews(visit: Visit) {
    forall c: Session, k: nat :: k < |c.fleet.nodes| && visit(c, k).ok ==>
      CycledAt(c.fleet.nodes, visit(c, k).s.fleet.nodes, k)
  }

  lemma {:induction false} OthersRenewed(s: Session, visit: Visit, i: nat, r: Run)
    requires Proceeds(visit) && Renews(visit)
    requires i <= |s.fleet.nodes| && r == Others(s, visit, i) && r.ok
    ensures FollowedUp(s.fleet.nodes, r.s.fleet.nodes, i)
    decreases |s.fleet.nodes| - i
  {
    if i == |s.fleet.nodes| {
    } else if s.fleet.nodes[i].leader {
      OthersRenewed(s, visit, i + 1, r);
    } else {
      OthersRenewed(visit(s, i).s, visit, i + 1, r);
      FollowJoin(s.fleet.nodes, visit(s, i).s.fleet.nodes, r.s.fleet.nodes, i);
    }
  }

  /** The followers' loop, if it returns, leaves every node that does not lead on its disk files with
      both containers healthy, and the leader as it was. */
  lemma {:induction false} FollowResult(s: Session, o: Oracle)
    ensures Follow(s, o).ok ==> FollowedUp(s.fleet.nodes, Follow(s, o).s.fleet.nodes, 0)
  {
    forall c: Session, k: nat | k < |c.fleet.nodes| && Cycles(o)(c, k).ok
      ensures CycledAt(c.fleet.nodes, Cycles(o)(c, k).s.fleet.nodes, k)
    { CycleOnly(c, o, k); }
    if Follow(s, o).ok { OthersRenewed(s, Cycles(o), 0, Follow(s, o)); }
  }

  lemma {:induction false} BootResult(s: Session, o: Oracle, l: nat)
    requires OneLeader(s.fleet.nodes, l)
    ensures Boot(s, o).ok ==> AllRecreated(s.fleet.nodes, Boot(s, o).s.fleet.nodes)
  {
    CycleOnly(s, o, l);
    assert LeaderIndex(s.fleet.nodes) == l;
    FollowResult(Cycle(s, o, l).s, o);
  }

  /** Every node runs what was on its disk, with both containers healthy. */
  ghost predicate AllRecreated(w: seq<Node>, w': seq<Node>) {
    && |w'| == |w|
    && forall k :: 0 <= k < |w| ==>
         w'[k].disk == w[k].disk && w'[k].running == w[k].disk && BothHealthy(w'[k])
  }

  // ------------------------------------------------------------------ rendering

  /** Rendering changes files only. */
  ghost predicate FilesOnly(w: Fleet, w': Fleet) {
    && |w'.nodes| == |w.nodes| && w'.db == w.db && w'.dump == w.dump
    && forall k :: 0 <= k < |w.nodes| ==> w'.nodes[k] == w.nodes[k].(disk := w'.nodes[k].disk)
  }

  ghost predicate FilesOnlySince(s: Session, s': Session) {
    && Extends(s, s') && FilesOnly(s.fleet, s'.fleet)
    && forall k :: |s.trace| <= k < |s'.trace| ==>
         FilesOnly(s.fleet, s'.trace[k].after) && !s'.trace[k].cmd.Recreate?
  }

  lemma FilesOnlyTransitive(s0: Session, s1: Session, s2: Session)
    requires FilesOnlySince(s0, s1) && FilesOnlySince(s1, s2)
    ensures FilesOnlySince(s0, s2)
  {
    forall k | |s0.trace| <= k < |s2.trace|
      ensures FilesOnly(s0.fleet, s2.trace[k].after) && !s2.trace[k].cmd.Recreate?
    {
      if k < |s1.trace| { assert s2.trace[k] == s1.trace[k]; }
    }
  }

  lemma {:induction false} AllRunningIdle(s: Session, o: Oracle, i: nat)
    requires i <= |s.fleet.nodes|
    ensures var r := AllRunning(s, o, i);
      && r.s.fleet == s.fleet && FilesOnlySince(s, r.s)
      && (r.ok ==> forall k :: i <= k < |s.fleet.nodes| ==> s.fleet.nodes[k].server.Present?)
    decreases |s.fleet.nodes| - i
  {
    if i < |s.fleet.nodes| {
      var s1 := Next(s, o, Probe(i));
      if LastPassed(s1) {
        AllRunningIdle(s1, o, i + 1);
        FilesOnlyTransitive(s, s1, AllRunning(s1, o, i + 1).s);
      }
    }
  }

  function Written(n: Node, slot: Slot, content: string): Node {
    n.(disk := n.disk.Set(slot, content))
  }

  /** One push: nothing else moves, and a push that returns leaves the content in place; it
      reports a change unless the digest probe answered and found the content there. */
  lemma {:induction false} PushOneResult(s: Session, o: Oracle, i: nat, slot: Slot, content: string)
    requires i < |s.fleet.nodes|
    ensures var p := PushOne(s, o, i, slot, content);
      && FilesOnlySince(s, p.s)
      && p.s.clock == s.clock + 1
      && (forall k :: 0 <= k < |s.fleet.nodes| && k != i ==> p.s.fleet.nodes[k] == s.fleet.nodes[k])
      && (p.ok ==> p.s.fleet.nodes[i] == Written(s.fleet.nodes[i], slot, content))
      && (p.changed <==> !o(s.clock).yes || s.fleet.nodes[i].disk.Get(slot) != content)
  {
    var n := s.fleet.nodes[i];
    assert n.disk.Get(slot) == content ==> n.disk.Set(slot, content) == n.disk;
  }

  ghost predicate ProbesAnswer(o: Oracle) { forall c :: o(c).yes }

  lemma {:induction false} StageOneFilesOnly(s: Session, o: Oracle, f: Files, i: nat)
    requires i < |s.fleet.nodes|
    ensures FilesOnlySince(s, StageOne(s, o, f, i).s)
  {
    var s0 := Next(s, o, Prepare(i));
    if LastCode(s0).Lost? { return; }
    PushOneResult(s0, o, i, Env, f.env);
    var p1 := PushOne(s0, o, i, Env, f.env);
    FilesOnlyTransitive(s, s0, p1.s);
    if !p1.ok { return; }
    PushOneResult(p1.s, o, i, Compose, f.compose);
    var p2 := PushOne(p1.s, o, i, Compose, f.compose);
    FilesOnlyTransitive(s, p1.s, p2.s);
    if !p2.ok { return; }
    PushOneResult(p2.s, o, i, Unit, f.unit);
    var p3 := PushOne(p2.s, o, i, Unit, f.unit);
    FilesOnlyTransitive(s, p2.s, p3.s);
    if p3.ok { FilesOnlyTransitive(s, p3.s, Next(p3.s, o, Prepare(i))); }
  }

  /** The three files of node n differ from the rendering. */
  predicate FilesDiffer(n: Node, f: Files) {
    n.disk.env != f.env || n.disk.compose != f.compose || n.disk.unit != f.unit
  }

  function Rendered(n: Node, f: Files): Node { n.(disk := n.disk.(env := f.env, compose := f.compose, unit := f.unit)) }

  lemma {:induction false} StageOneResult(s: Session, o: Oracle, f: Files, i: nat, p: Pushed)
    requires i < |s.fleet.nodes| && p == StageOne(s, o, f, i) && p.ok
    ensures |p.s.fleet.nodes| == |s.fleet.nodes|
    ensures forall k :: 0 <= k < |s.fleet.nodes| && k != i ==> p.s.fleet.nodes[k] == s.fleet.nodes[k]
    ensures p.s.fleet.nodes[i] == Rendered(s.fleet.nodes[i], f)
    ensures FilesDiffer(s.fleet.nodes[i], f) ==> p.changed
    ensures ProbesAnswer(o) && p.changed ==> FilesDiffer(s.fleet.nodes[i], f)
  {
    var s0 := Next(s, o, Prepare(i));
    PushOneResult(s0, o, i, Env, f.env);
    var p1 := PushOne(s0, o, i, Env, f.env);
    PushOneResult(p1.s, o, i, Compose, f.compose);
    var p2 := PushOne(p1.s, o, i, Compose, f.compose);
    PushOneResult(p2.s, o, i, Unit, f.unit);
  }

  ghost predicate TouchedFrom(w: seq<Node>, w': seq<Node>, slot: Slot, content: string, i: nat, touched: set<string>) {
    && |w'| == |w|
    && (forall k :: 0 <= k < i && k < |w| ==> w'[k] == w[k])
    && (forall k :: i <= k < |w| ==>
          && w'[k] == Written(w[k], slot, content)
          && (w[k].disk.Get(slot) != content ==> w[k].name in touched))
  }

  ghost predicate TouchedOnlyFor(w: seq<Node>, slot: Slot, content: string, i: nat, m: string) {
    exists k :: i <= k < |w| && w[k].name == m && w[k].disk.Get(slot) != content
  }

  lemma TouchedJoin(w: seq<Node>, c: seq<Node>, w': seq<Node>, slot: Slot, content: string, i: nat,
                    touched: set<string>)
    requires i < |w| == |c| && TouchedFrom(c, w', slot, content, i + 1, touched)
    requires forall k :: 0 <= k < |w| && k != i ==> c[k] == w[k]
    requires c[i] == Written(w[i], slot, content)
    requires w[i].disk.Get(slot) != content ==> w[i].name in touched
    ensures TouchedFrom(w, w', slot, content, i, touched)
  {}

  lemma {:induction false} TouchFilesOnly(s: Session, o: Oracle, slot: Slot, content: string, i: nat,
                                          touched: set<string>)
    requires i <= |s.fleet.nodes|
    ensures FilesOnlySince(s, Touch(s, o, slot, content, i, touched).s)
    decreases |s.fleet.nodes| - i
  {
    if i < |s.fleet.nodes| {
      PushOneResult(s, o, i, slot, content);
      var p := PushOne(s, o, i, slot, content);
      if p.ok {
        var touched' := if p.changed then touched + {s.fleet.nodes[i].name} else touched;
        TouchFilesOnly(p.s, o, slot, content, i + 1, touched');
        FilesOnlyTransitive(s, p.s, Touch(p.s, o, slot, content, i + 1, touched').s);
      }
    }
  }

  /** One asset to one node, of a loop that returns. */
  lemma {:induction false} TouchStep(s: Session, o: Oracle, slot: Slot, content: string, i: nat,
                                     touched: set<string>, t: Touching)
    returns (c: Session, touched': set<string>)
    requires i < |s.fleet.nodes| && t == Touch(s, o, slot, content, i, touched) && t.ok
    ensures t == Touch(c, o, slot, content, i + 1, touched')
    ensures |c.fleet.nodes| == |s.fleet.nodes| && c.fleet.nodes[i] == Written(s.fleet.nodes[i], slot, content)
    ensures forall k :: 0 <= k < |s.fleet.nodes| && k != i ==> c.fleet.nodes[k] == s.fleet.nodes[k]
    ensures touched <= touched' <= touched + {s.fleet.nodes[i].name}
    ensures s.fleet.nodes[i].disk.Get(slot) != content ==> s.fleet.nodes[i].name in touched'
    ensures ProbesAnswer(o) && s.fleet.nodes[i].disk.Get(slot) == content ==> touched' == touched
  {
    PushOneResult(s, o, i, slot, content);
    var p := PushOne(s, o, i, slot, content);
    c, touched' := p.s, if p.changed then touched + {s.fleet.nodes[i].name} else touched;
  }

  lemma {:induction false} TouchWrites(s: Session, o: Oracle, slot: Slot, content: string, i: nat,
                                       touched: set<string>, t: Touching)
    requires i <= |s.fleet.nodes| && t == Touch(s, o, slot, content, i, touched) && t.ok
    ensures touched <= t.touched
    ensures TouchedFrom(s.fleet.nodes, t.s.fleet.nodes, slot, content, i, t.touched)
    decreases |s.fleet.nodes| - i
  {
    if i < |s.fleet.nodes| {
      var c, touched' := TouchStep(s, o, slot, content, i, touched, t);
      TouchWrites(c, o, slot, content, i + 1, touched', t);
      TouchedJoin(s.fleet.nodes, c.fleet.nodes, t.s.fleet.nodes, slot, content, i, t.touched);
    }
  }

  lemma TouchedLater(w: seq<Node>, c: seq<Node>, slot: Slot, content: string, i: nat, m: string)
    requires i < |w| == |c| && (forall k :: 0 <= k < |w| && k != i ==> c[k] == w[k])
    requires TouchedOnlyFor(c, slot, content, i + 1, m)
    ensures TouchedOnlyFor(w, slot, content, i, m)
  {
    var k :| i + 1 <= k < |c| && c[k].name == m && c[k].disk.Get(slot) != content;
    assert w[k].name == m && w[k].disk.Get(slot) != content;
  }

  lemma {:induction false} TouchedExactly(s: Session, o: Oracle, slot: Slot, content: string, i: nat,
                                          touched: set<string>, t: Touching, m: string)
    requires i <= |s.fleet.nodes| && ProbesAnswer(o) && t == Touch(s, o, slot, content, i, touched) && t.ok
    requires m in t.touched && m !in touched
    ensures TouchedOnlyFor(s.fleet.nodes, slot, content, i, m)
    decreases |s.fleet.nodes| - i
  {
    if i < |s.fleet.nodes| {
      var c, touched' := TouchStep(s, o, slot, content, i, touched, t);
      if m !in touched' {
        TouchedExactly(c, o, slot, content, i + 1, touched', t, m);
        TouchedLater(s.fleet.nodes, c.fleet.nodes, slot, content, i, m);
      }
    }
  }

  // ------------------------------------------------------------------ all the assets

  predicate Wanted(n: Node, t: Target, q: nat)
    requires q < |t.uploads|
  { n.disk.Get(t.uploads[q].asset) != t.files.Get(t.uploads[q].asset) }

  /** Some node of the name has another file in place of one of the assets from the k-th on. */
  ghost predicate AssetDue(w: seq<Node>, t: Target, k: nat, m: string) {
    exists j: nat, q: nat :: j < |w| && k <= q < |t.uploads| && w[j].name == m && Wanted(w[j], t, q)
  }

  /** The assets from the k-th on are in place, and nothing else has changed. */
  ghost predicate AssetsOn(w: seq<Node>, c: seq<Node>, t: Target, k: nat) {
    && |c| == |w|
    && forall j :: 0 <= j < |w| ==> AssetsOnNode(w[j], c[j], t, k)
  }

  ghost predicate AssetsOnNode(n: Node, c: Node, t: Target, k: nat) {
    && c == n.(disk := c.disk)
    && c.disk.env == n.disk.env && c.disk.compose == n.disk.compose && c.disk.unit == n.disk.unit
    && (forall q :: k <= q < |t.uploads| ==> !Wanted(c, t, q))
    && (forall a: Asset :: c.disk.Get(a) == n.disk.Get(a) || c.disk.Get(a) == t.files.Get(a))
  }

  lemma {:induction false} OneMoreAsset(n: Node, b: Node, c: Node, t: Target, k: nat)
    requires k < |t.uploads| && b == Written(n, t.uploads[k].asset, t.files.Get(t.uploads[k].asset))
    requires AssetsOnNode(b, c, t, k + 1)
    ensures AssetsOnNode(n, c, t, k)
  {
    var a := t.uploads[k].asset;
    assert b.disk.Get(a) == t.files.Get(a);
    assert c.disk.Get(a) == t.files.Get(a);
    forall a': Asset ensures c.disk.Get(a') == n.disk.Get(a') || c.disk.Get(a') == t.files.Get(a') {
      if a' != a { assert b.disk.Get(a') == n.disk.Get(a'); }
    }
    forall q | k <= q < |t.uploads| ensures !Wanted(c, t, q) {}
  }

  lemma {:induction false} OneMoreAssetOn(w: seq<Node>, b: seq<Node>, c: seq<Node>, t: Target, k: nat,
                                          touched: set<string>)
    requires k < |t.uploads| && AssetsOn(b, c, t, k + 1)
    requires TouchedFrom(w, b, t.uploads[k].asset, t.files.Get(t.uploads[k].asset), 0, touched)
    ensures AssetsOn(w, c, t, k)
  {
    forall j | 0 <= j < |w| ensures AssetsOnNode(w[j], c[j], t, k) { OneMoreAsset(w[j], b[j], c[j], t, k); }
  }

  lemma {:induction false} TouchAllFilesOnly(s: Session, o: Oracle, t: Target, k: nat, touched: set<string>)
    requires k <= |t.uploads|
    ensures FilesOnlySince(s, TouchAll(s, o, t, k, touched).s)
    decreases |t.uploads| - k
  {
    if k < |t.uploads| && t.uploads[k].exists_ {
      var u := t.uploads[k];
      TouchFilesOnly(s, o, u.asset, t.files.Get(u.asset), 0, touched);
      var b := Touch(s, o, u.asset, t.files.Get(u.asset), 0, touched);
      if b.ok {
        TouchAllFilesOnly(b.s, o, t, k + 1, b.touched);
        FilesOnlyTransitive(s, b.s, TouchAll(b.s, o, t, k + 1, b.touched).s);
      }
    }
  }

  lemma {:induction false} TouchAllWrites(s: Session, o: Oracle, t: Target, k: nat, touched: set<string>, r: Touching)
    requires k <= |t.uploads| && r == TouchAll(s, o, t, k, touched) && r.ok
    ensures AssetsOn(s.fleet.nodes, r.s.fleet.nodes, t, k) && touched <= r.touched
    decreases |t.uploads| - k
  {
    if k < |t.uploads| {
      var u := t.uploads[k];
      var b := Touch(s, o, u.asset, t.files.Get(u.asset), 0, touched);
      TouchWrites(s, o, u.asset, t.files.Get(u.asset), 0, touched, b);
      TouchAllWrites(b.s, o, t, k + 1, b.touched, r);
      OneMoreAssetOn(s.fleet.nodes, b.s.fleet.nodes, r.s.fleet.nodes, t, k, b.touched);
    }
  }

  /** After one more asset, what is still due of a name was due of it before; and conversely, if it was
      not that asset that was due. */
  lemma {:induction false} DueStep(w: seq<Node>, b: seq<Node>, t: Target, k: nat, touched: set<string>, m: string)
    requires k < |t.uploads|
    requires TouchedFrom(w, b, t.uploads[k].asset, t.files.Get(t.uploads[k].asset), 0, touched)
    ensures AssetDue(b, t, k + 1, m) ==> AssetDue(w, t, k, m)
    ensures AssetDue(w, t, k, m) && !AssetDue(b, t, k + 1, m) ==> m in touched
  {
    var a := t.uploads[k].asset;
    if AssetDue(b, t, k + 1, m) {
      var j: nat, q: nat :| j < |b| && k + 1 <= q < |t.uploads| && b[j].name == m && Wanted(b[j], t, q);
      assert t.uploads[q].asset != a;
      assert w[j].name == m && Wanted(w[j], t, q);
    }
    if AssetDue(w, t, k, m) && !AssetDue(b, t, k + 1, m) {
      var j: nat, q: nat :| j < |w| && k <= q < |t.uploads| && w[j].name == m && Wanted(w[j], t, q);
      assert b[j].name == m;
      if t.uploads[q].asset != a { assert q > k && Wanted(b[j], t, q); }
    }
  }

  lemma {:induction false} TouchAllTouches(s: Session, o: Oracle, t: Target, k: nat, touched: set<string>,
                                           r: Touching, m: string)
    requires k <= |t.uploads| && r == TouchAll(s, o, t, k, touched) && r.ok
    ensures AssetDue(s.fleet.nodes, t, k, m) ==> m in r.touched
    ensures ProbesAnswer(o) && m in r.touched && m !in touched ==> AssetDue(s.fleet.nodes, t, k, m)
    decreases |t.uploads| - k
  {
    if k < |t.uploads| {
      var u := t.uploads[k];
      var content := t.files.Get(u.asset);
      var b := Touch(s, o, u.asset, content, 0, touched);
      TouchWrites(s, o, u.asset, content, 0, touched, b);
      TouchAllTouches(b.s, o, t, k + 1, b.touched, r, m);
      TouchAllWrites(b.s, o, t, k + 1, b.touched, r);
      DueStep(s.fleet.nodes, b.s.fleet.nodes, t, k, b.touched, m);
      if ProbesAnswer(o) && m in b.touched && m !in touched {
        TouchedExactly(s, o, u.asset, content, 0, touched, b, m);
        DueNow(s.fleet.nodes, t, k, m);
      }
    }
  }

  lemma DueNow(w: seq<Node>, t: Target, k: nat, m: string)
    requires k < |t.uploads| && TouchedOnlyFor(w, t.uploads[k].asset, t.files.Get(t.uploads[k].asset), 0, m)
    ensures AssetDue(w, t, k, m)
  {
    var j: nat :| j < |w| && w[j].name == m && w[j].disk.Get(t.uploads[k].asset) != t.files.Get(t.uploads[k].asset);
    assert Wanted(w[j], t, k);
  }

  ghost predicate StagedFrom(w: seq<Node>, w': seq<Node>, f: Files, i: nat) {
    && |w'| == |w|
    && (forall k :: 0 <= k < i && k < |w| ==> w'[k] == w[k])
    && (forall k :: i <= k < |w| ==> w'[k] == Rendered(w[k], f))
  }

  /** No later node has the name of node l: `changed` holds what it said. */
  ghost predicate LastOfName(w: seq<Node>, l: nat) {
    l < |w| && forall k :: l < k < |w| ==> w[k].name != w[l].name
  }

  lemma StagedJoin(w: seq<Node>, c: seq<Node>, w': seq<Node>, f: Files, i: nat)
    requires StagedAt(w, c, f, i) && StagedFrom(c, w', f, i + 1)
    ensures StagedFrom(w, w', f, i)
  {}

  ghost predicate StagedAt(w: seq<Node>, c: seq<Node>, f: Files, i: nat) {
    && i < |w| == |c|
    && (forall k :: 0 <= k < |w| && k != i ==> c[k] == w[k])
    && c[i] == Rendered(w[i], f)
  }

  /** What staging one node does, as far as these proofs look. */
  ghost predicate MovesFiles(stager: Stager) {
    forall c: Session, k: nat :: k < |c.fleet.nodes| ==> FilesOnlySince(c, stager(c, k).s)
  }

  lemma {:induction false} StageFilesOnly(s: Session, stager: Stager, touched: set<string>, i: nat,
                                          changed: map<string, bool>)
    requires i <= |s.fleet.nodes| && Advances(stager) && MovesFiles(stager)
    ensures FilesOnlySince(s, StageWith(s, stager, touched, i, changed).s)
    decreases |s.fleet.nodes| - i
  {
    if i < |s.fleet.nodes| {
      var p := stager(s, i);
      if p.ok {
        var name := s.fleet.nodes[i].name;
        var changed' := changed[name := p.changed || name in touched];
        StageFilesOnly(p.s, stager, touched, i + 1, changed');
        FilesOnlyTransitive(s, p.s, StageWith(p.s, stager, touched, i + 1, changed').s);
      }
    }
  }

  /** What a node says of itself while it is staged. */
  ghost predicate Says(n: Node, f: Files, said: bool, exact: bool) {
    (FilesDiffer(n, f) ==> said) && (exact && said ==> FilesDiffer(n, f))
  }

  ghost predicate Writes(stager: Stager, f: Files, exact: bool) {
    forall c: Session, k: nat :: k < |c.fleet.nodes| && stager(c, k).ok ==>
      StagedAt(c.fleet.nodes, stager(c, k).s.fleet.nodes, f, k)
      && Says(c.fleet.nodes[k], f, stager(c, k).changed, exact)
  }

  lemma {:induction false} StagerWrites(o: Oracle, f: Files)
    ensures MovesFiles(StagerOf(o, f)) && Writes(StagerOf(o, f), f, ProbesAnswer(o))
  {
    var stager := StagerOf(o, f);
    forall c: Session, k: nat | k < |c.fleet.nodes| ensures FilesOnlySince(c, stager(c, k).s) {
      StageOneFilesOnly(c, o, f, k);
    }
    forall c: Session, k: nat | k < |c.fleet.nodes| && stager(c, k).ok
      ensures StagedAt(c.fleet.nodes, stager(c, k).s.fleet.nodes, f, k)
      ensures Says(c.fleet.nodes[k], f, stager(c, k).changed, ProbesAnswer(o))
    { StageOneResult(c, o, f, k, StageOne(c, o, f, k)); }
  }

  function Told(changed: map<string, bool>, name: string, said: bool, touched: set<string>): map<string, bool> {
    changed[name := said || name in touched]
  }

  lemma {:induction false} StageRenders(s: Session, stager: Stager, f: Files, exact: bool, touched: set<string>,
                                        i: nat, changed: map<string, bool>, g: Staging)
    requires Advances(stager) && Writes(stager, f, exact)
    requires i <= |s.fleet.nodes| && g == StageWith(s, stager, touched, i, changed) && g.ok
    ensures StagedFrom(s.fleet.nodes, g.s.fleet.nodes, f, i)
    decreases |s.fleet.nodes| - i
  {
    if i < |s.fleet.nodes| {
      var p := stager(s, i);
      StageRenders(p.s, stager, f, exact, touched, i + 1, Told(changed, s.fleet.nodes[i].name, p.changed, touched), g);
      StagedJoin(s.fleet.nodes, p.s.fleet.nodes, g.s.fleet.nodes, f, i);
    }
  }

  function NamesOf(w: seq<Node>): (ns: seq<string>)
    ensures |ns| == |w| && forall k :: 0 <= k < |w| ==> ns[k] == w[k].name
  { seq(|w|, k requires 0 <= k < |w| => w[k].name) }

  /** `changed` once the nodes of these names have each said whether they changed. */
  function Flags(ns: seq<string>, said: seq<bool>, touched: set<string>, changed: map<string, bool>): map<string, bool>
    requires |said| == |ns|
  {
    if ns == [] then changed
    else Flags(ns[1..], said[1..], touched, Told(changed, ns[0], said[0], touched))
  }

  /** A name no longer to come keeps its flag; the last node of a name decides. */
  lemma {:induction false} FlagsKept(ns: seq<string>, said: seq<bool>, touched: set<string>,
                                     changed: map<string, bool>, name: string)
    requires |said| == |ns| && name !in ns && name in changed
    ensures var c := Flags(ns, said, touched, changed); name in c && c[name] == changed[name]
  {
    if ns != [] {
      assert ns[0] in ns;
      FlagsKept(ns[1..], said[1..], touched, Told(changed, ns[0], said[0], touched), name);
    }
  }

  lemma {:induction false} LastDecides(ns: seq<string>, said: seq<bool>, touched: set<string>,
                                       changed: map<string, bool>, l: nat)
    requires |said| == |ns| && l < |ns| && ns[l] !in ns[l + 1..]
    ensures var c := Flags(ns, said, touched, changed);
      ns[l] in c && (c[ns[l]] <==> said[l] || ns[l] in touched)
    decreases l
  {
    var changed' := Told(changed, ns[0], said[0], touched);
    if l == 0 {
      FlagsKept(ns[1..], said[1..], touched, changed', ns[0]);
    } else {
      assert ns[1..][l..] == ns[l + 1..];
      LastDecides(ns[1..], said[1..], touched, changed', l - 1);
    }
  }

  ghost predicate AllSay(w: seq<Node>, f: Files, said: seq<bool>, i: nat, exact: bool) {
    && i <= |w| == i + |said|
    && forall k :: i <= k < |w| ==> Says(w[k], f, said[k - i], exact)
  }

  lemma OneMoreSays(w: seq<Node>, c: seq<Node>, f: Files, first: bool, rest: seq<bool>, i: nat, exact: bool,
                    touched: set<string>, changed: map<string, bool>)
    requires StagedAt(w, c, f, i) && AllSay(c, f, rest, i + 1, exact) && Says(w[i], f, first, exact)
    ensures AllSay(w, f, [first] + rest, i, exact)
    ensures Flags(NamesOf(w)[i..], [first] + rest, touched, changed) ==
            Flags(NamesOf(c)[i + 1..], rest, touched, Told(changed, w[i].name, first, touched))
  {
    var said := [first] + rest;
    forall k | i <= k < |w| ensures Says(w[k], f, said[k - i], exact) {
      if k > i { assert c[k] == w[k] && said[k - i] == rest[k - (i + 1)]; }
    }
    var ns := NamesOf(w)[i..];
    assert ns[0] == w[i].name && ns[1..] == NamesOf(c)[i + 1..] && said[1..] == rest;
  }

  lemma {:induction false} StageSays(s: Session, stager: Stager, f: Files, exact: bool, touched: set<string>,
                                     i: nat, changed: map<string, bool>, g: Staging)
    returns (said: seq<bool>)
    requires Advances(stager) && Writes(stager, f, exact)
    requires i <= |s.fleet.nodes| && g == StageWith(s, stager, touched, i, changed) && g.ok
    ensures AllSay(s.fleet.nodes, f, said, i, exact)
    ensures g.changed == Flags(NamesOf(s.fleet.nodes)[i..], said, touched, changed)
    decreases |s.fleet.nodes| - i
  {
    if i == |s.fleet.nodes| { return []; }
    var p := stager(s, i);
    var changed' := Told(changed, s.fleet.nodes[i].name, p.changed, touched);
    var rest := StageSays(p.s, stager, f, exact, touched, i + 1, changed', g);
    OneMoreSays(s.fleet.nodes, p.s.fleet.nodes, f, p.changed, rest, i, exact, touched, changed);
    said := [p.changed] + rest;
  }

  lemma NamesStay(w: seq<Node>, c: seq<Node>, l: nat)
    requires LastOfName(w, l) && |c| == |w| && forall k :: 0 <= k < |w| ==> c[k].name == w[k].name
    ensures LastOfName(c, l)
  {}

  /** Why a node's name ends up flagged, given whose names were touched before. */
  ghost predicate FlagMeans(n: Node, f: Files, touched: set<string>, changed: map<string, bool>, exact: bool) {
    && (FilesDiffer(n, f) || n.name in touched ==> Flagged(changed, n))
    && (exact && Flagged(changed, n) ==> FilesDiffer(n, f) || n.name in touched)
  }

  lemma LastFlagged(w: seq<Node>, f: Files, said: seq<bool>, touched: set<string>, exact: bool, l: nat)
    requires LastOfName(w, l) && AllSay(w, f, said, 0, exact)
    ensures FlagMeans(w[l], f, touched, Flags(NamesOf(w), said, touched, map[]), exact)
  {
    var ns := NamesOf(w);
    var later := ns[l + 1..];
    assert forall k :: 0 <= k < |later| ==> later[k] == ns[l + 1 + k] != ns[l];
    LastDecides(ns, said, touched, map[], l);
    assert Says(w[l], f, said[l - 0], exact);
  }

  lemma {:induction false} StageFlags(s: Session, o: Oracle, f: Files, touched: set<string>, g: Staging)
    requires g == Stage(s, o, f, touched) && g.ok
    ensures forall l: nat :: LastOfName(s.fleet.nodes, l) ==>
              FlagMeans(s.fleet.nodes[l], f, touched, g.changed, ProbesAnswer(o))
  {
    var w := s.fleet.nodes;
    StagerWrites(o, f);
    var said := StageSays(s, StagerOf(o, f), f, ProbesAnswer(o), touched, 0, map[], g);
    assert NamesOf(w)[0..] == NamesOf(w);
    forall l: nat | LastOfName(w, l) ensures FlagMeans(w[l], f, touched, g.changed, ProbesAnswer(o)) {
      LastFlagged(w, f, said, touched, ProbesAnswer(o), l);
    }
  }

  /** Rendering the three files to every node: files move, and nothing else.  Of the nodes of one name
      the last decides for all of them, unless that name was touched before. */
  lemma {:induction false} StageResult(s: Session, o: Oracle, f: Files, touched: set<string>)
    ensures var g := Stage(s, o, f, touched);
      && FilesOnlySince(s, g.s)
      && (g.ok ==> StagedFrom(s.fleet.nodes, g.s.fleet.nodes, f, 0))
      && (g.ok ==> forall l: nat :: LastOfName(s.fleet.nodes, l) ==>
            FlagMeans(s.fleet.nodes[l], f, touched, g.changed, ProbesAnswer(o)))
  {
    var g := Stage(s, o, f, touched);
    StagerWrites(o, f);
    StageFilesOnly(s, StagerOf(o, f), touched, 0, map[]);
    if g.ok {
      StageRenders(s, StagerOf(o, f), f, ProbesAnswer(o), touched, 0, map[], g);
      StageFlags(s, o, f, touched, g);
    }
  }

  /** The node's files differ from what the phase would push. */
  predicate Pending(n: Node, t: Target) {
    FilesDiffer(n, t.files) || exists q :: 0 <= q < |t.uploads| && Wanted(n, t, q)
  }

  /** What can be told before the call about the flag of node l's name, node l being the last that has it:
      its own files differ, or a branding asset does on any node of that name. */
  ghost predicate Rewritten(w: seq<Node>, l: nat, t: Target)
    requires l < |w|
  { FilesDiffer(w[l], t.files) || AssetDue(w, t, 0, w[l].name) }

  ghost predicate RenderedAll(w: seq<Node>, w': seq<Node>, t: Target) {
    && |w'| == |w|
    && forall k :: 0 <= k < |w| ==> w'[k] == w[k].(disk := w'[k].disk) && Matches(w'[k].disk, t)
  }

  ghost predicate FlaggedFor(w: seq<Node>, t: Target, changed: map<string, bool>, exact: bool) {
    forall l: nat :: LastOfName(w, l) ==>
      && (Rewritten(w, l, t) ==> Flagged(changed, w[l]))
      && (exact && Flagged(changed, w[l]) ==> Rewritten(w, l, t))
  }

  lemma {:induction false} NodeRendered(n: Node, c: Node, r: Node, t: Target)
    requires AssetsOnNode(n, c, t, 0) && r == Rendered(c, t.files)
    ensures r == n.(disk := r.disk) && Matches(r.disk, t)
  {
    forall u | u in t.uploads ensures r.disk.Get(u.asset) == t.files.Get(u.asset) {
      var q :| 0 <= q < |t.uploads| && t.uploads[q] == u;
      assert !Wanted(c, t, q);
    }
  }

  lemma {:induction false} AllRendered(w: seq<Node>, c: seq<Node>, w': seq<Node>, t: Target)
    requires AssetsOn(w, c, t, 0) && StagedFrom(c, w', t.files, 0)
    ensures RenderedAll(w, w', t)
  {
    forall k | 0 <= k < |w| ensures w'[k] == w[k].(disk := w'[k].disk) && Matches(w'[k].disk, t) {
      NodeRendered(w[k], c[k], w'[k], t);
    }
  }

  lemma {:induction false} RenderFilesOnly(s: Session, o: Oracle, t: Target)
    ensures FilesOnlySince(s, Render(s, o, t).s)
  {
    TouchAllFilesOnly(s, o, t, 0, {});
    var b := TouchAll(s, o, t, 0, {});
    if b.ok {
      StageResult(b.s, o, t.files, b.touched);
      FilesOnlyTransitive(s, b.s, Stage(b.s, o, t.files, b.touched).s);
    }
  }

  lemma {:induction false} RenderRenders(s: Session, o: Oracle, t: Target, g: Staging)
    requires g == Render(s, o, t) && g.ok
    ensures RenderedAll(s.fleet.nodes, g.s.fleet.nodes, t)
  {
    var b := TouchAll(s, o, t, 0, {});
    TouchAllWrites(s, o, t, 0, {}, b);
    StageResult(b.s, o, t.files, b.touched);
    AllRendered(s.fleet.nodes, b.s.fleet.nodes, g.s.fleet.nodes, t);
  }

  lemma {:induction false} NodeFlags(w: seq<Node>, c: seq<Node>, t: Target, l: nat, touched: set<string>,
                                     changed: map<string, bool>, exact: bool)
    requires LastOfName(w, l) && AssetsOn(w, c, t, 0)
    requires AssetDue(w, t, 0, w[l].name) ==> w[l].name in touched
    requires exact && w[l].name in touched ==> AssetDue(w, t, 0, w[l].name)
    requires FlagMeans(c[l], t.files, touched, changed, exact)
    ensures Rewritten(w, l, t) ==> Flagged(changed, w[l])
    ensures exact && Flagged(changed, w[l]) ==> Rewritten(w, l, t)
  { assert AssetsOnNode(w[l], c[l], t, 0); }

  lemma {:induction false} RenderFlags(s: Session, o: Oracle, t: Target, g: Staging)
    requires g == Render(s, o, t) && g.ok
    ensures FlaggedFor(s.fleet.nodes, t, g.changed, ProbesAnswer(o))
  {
    var w := s.fleet.nodes;
    var b := TouchAll(s, o, t, 0, {});
    TouchAllWrites(s, o, t, 0, {}, b);
    StageFlags(b.s, o, t.files, b.touched, g);
    forall l: nat | LastOfName(w, l)
      ensures Rewritten(w, l, t) ==> Flagged(g.changed, w[l])
      ensures ProbesAnswer(o) && Flagged(g.changed, w[l]) ==> Rewritten(w, l, t)
    {
      NamesStay(w, b.s.fleet.nodes, l);
      TouchAllTouches(s, o, t, 0, {}, b, w[l].name);
      NodeFlags(w, b.s.fleet.nodes, t, l, b.touched, g.changed, ProbesAnswer(o));
    }
  }

  /** Rendering, branding assets first: every node ends up with the rendered files, nothing but files
      moves, and a name is flagged if, and where the digest probes answer only if, what can be told
      beforehand says so. */
  lemma {:induction false} RenderResult(s: Session, o: Oracle, t: Target)
    ensures var g := Render(s, o, t);
      && FilesOnlySince(s, g.s)
      && (g.ok ==> RenderedAll(s.fleet.nodes, g.s.fleet.nodes, t))
      && (g.ok ==> FlaggedFor(s.fleet.nodes, t, g.changed, ProbesAnswer(o)))
  {
    var g := Render(s, o, t);
    RenderFilesOnly(s, o, t);
    if g.ok {
      RenderRenders(s, o, t, g);
      RenderFlags(s, o, t, g);
    }
  }

  // ------------------------------------------------------------------ the whole phase

  predicate Rolls(s: Session, o: Oracle) { AllRunning(s, o, 0).ok }

  ghost predicate SomeoneElseServes(w: Fleet) {
    exists j: nat :: j < |w.nodes| && OneDown(w, j)
  }

  /** From an all-healthy fleet, whatever the commands answer: while a rolling apply runs, at
      every step all nodes but one are healthy. */
  lemma {:induction false} RollingApplyKeepsServing(s: Session, o: Oracle, t: Target)
    requires AllHealthy(s.fleet) && |s.fleet.nodes| > 0 && Rolls(s, o)
    ensures var r := Apply(s, o, t);
      && (forall k :: |s.trace| <= k < |r.s.trace| ==> SomeoneElseServes(r.s.trace[k].after))
      && SomeoneElseServes(r.s.fleet)
      && (r.ok ==> AllHealthy(r.s.fleet))
  {
    AllRunningIdle(s, o, 0);
    var a := AllRunning(s, o, 0);
    RenderFilesOnly(a.s, o, t);
    var g := Render(a.s, o, t);
    FilesOnlyTransitive(s, a.s, g.s);
    FilesKeepServing(s, g.s);
    if g.ok {
      RollServes(g.s, o, g.changed, |g.s.fleet.nodes|);
      var r := Roll(g.s, o, g.changed, |g.s.fleet.nodes|);
      ServedKeepServing(s, g.s, r.s);
      if r.ok {
        assert OneDown(r.s.fleet, 0);
      } else {
        var j: nat :| j < |g.s.fleet.nodes| && ServingAround(g.s.fleet, r.s.fleet, j);
        assert OneDown(r.s.fleet, j);
      }
    }
  }

  lemma FilesKeepServing(s: Session, s': Session)
    requires FilesOnlySince(s, s') && AllHealthy(s.fleet) && |s.fleet.nodes| > 0
    ensures AllHealthy(s'.fleet) && SomeoneElseServes(s'.fleet)
    ensures forall k :: |s.trace| <= k < |s'.trace| ==> SomeoneElseServes(s'.trace[k].after)
  {
    assert OneDown(s'.fleet, 0);
    forall k | |s.trace| <= k < |s'.trace| ensures SomeoneElseServes(s'.trace[k].after) {
      assert OneDown(s'.trace[k].after, 0);
    }
  }

  lemma ServedKeepServing(s: Session, g: Session, s': Session)
    requires Extends(s, g) && |s.fleet.nodes| > 0
    requires forall k :: |s.trace| <= k < |g.trace| ==> SomeoneElseServes(g.trace[k].after)
    requires ServedSince(g.fleet, g, s', |g.fleet.nodes|)
    ensures forall k :: |s.trace| <= k < |s'.trace| ==> SomeoneElseServes(s'.trace[k].after)
  {
    forall k | |s.trace| <= k < |s'.trace| ensures SomeoneElseServes(s'.trace[k].after) {
      if k < |g.trace| { assert s'.trace[k] == g.trace[k]; }
      else { assert OneDown(s'.trace[k].after, NodeOf(s'.trace[k].cmd)); }
    }
  }

  ghost predicate OneDown(w: Fleet, j: nat) {
    forall k :: 0 <= k < |w.nodes| && k != j ==> BothHealthy(w.nodes[k])
  }

  /** A rolling apply that returns leaves node k running what was rendered exactly if its name was due
      to be flagged, or it ran that already.  The last node of that name, l, decides; the condition can
      be checked before the call. */
  lemma {:induction false} RollingConverges(s: Session, o: Oracle, t: Target, k: nat, l: nat)
    requires k < |s.fleet.nodes| && LastOfName(s.fleet.nodes, l) && s.fleet.nodes[l].name == s.fleet.nodes[k].name
    requires Rolls(s, o) && Apply(s, o, t).ok
    ensures Rewritten(s.fleet.nodes, l, t) || Current(s.fleet.nodes[k], t) ==>
            Current(Apply(s, o, t).s.fleet.nodes[k], t)
    ensures ProbesAnswer(o) && Current(Apply(s, o, t).s.fleet.nodes[k], t) ==>
            Rewritten(s.fleet.nodes, l, t) || Current(s.fleet.nodes[k], t)
  {
    AllRunningIdle(s, o, 0);
    var a := AllRunning(s, o, 0);
    var g := Render(a.s, o, t);
    RenderRenders(a.s, o, t, g);
    RenderFlags(a.s, o, t, g);
    RollResult(g.s, o, g.changed, |g.s.fleet.nodes|);
    var r := Roll(g.s, o, g.changed, |g.s.fleet.nodes|);
    RolledNode(s.fleet.nodes[k], g.s.fleet.nodes[k], r.s.fleet.nodes[k], t, Flagged(g.changed, s.fleet.nodes[k]));
  }

  lemma RolledNode(n: Node, g: Node, r: Node, t: Target, flagged: bool)
    requires g == n.(disk := g.disk) && Matches(g.disk, t)
    requires if flagged then r.running == g.disk else r == g
    ensures Current(r, t) <==> flagged || Current(n, t)
  {}

  /** With names apart, every node decides for itself. */
  lemma {:induction false} RollingConvergesEach(s: Session, o: Oracle, t: Target, k: nat)
    requires DistinctNames(s.fleet.nodes) && k < |s.fleet.nodes|
    requires Rolls(s, o) && Apply(s, o, t).ok
    ensures Pending(s.fleet.nodes[k], t) || Current(s.fleet.nodes[k], t) ==>
            Current(Apply(s, o, t).s.fleet.nodes[k], t)
    ensures ProbesAnswer(o) && Current(Apply(s, o, t).s.fleet.nodes[k], t) ==>
            Pending(s.fleet.nodes[k], t) || Current(s.fleet.nodes[k], t)
  {
    var w := s.fleet.nodes;
    RollingConverges(s, o, t, k, k);
    assert Rewritten(w, k, t) <==> Pending(w[k], t) by {
      if AssetDue(w, t, 0, w[k].name) {
        var j: nat, q: nat :| j < |w| && q < |t.uploads| && w[j].name == w[k].name && Wanted(w[j], t, q);
        assert j == k;
      }
      if q: nat :| q < |t.uploads| && Wanted(w[k], t, q) { assert AssetDue(w, t, 0, w[k].name); }
    }
  }

  lemma SettledNode(n: Node, t: Target)
    requires n.running == n.disk && !Pending(n, t)
    ensures Current(n, t)
  {
    forall u | u in t.uploads ensures n.running.Get(u.asset) == t.files.Get(u.asset) {
      var q :| 0 <= q < |t.uploads| && t.uploads[q] == u;
      assert !Wanted(n, t, q);
    }
  }

  /** Where every node runs what is on its disk, the skipped nodes need nothing. */
  lemma {:induction false} SettledFleetConverges(s: Session, o: Oracle, t: Target)
    requires DistinctNames(s.fleet.nodes)
    requires forall k :: 0 <= k < |s.fleet.nodes| ==> s.fleet.nodes[k].running == s.fleet.nodes[k].disk
    requires Rolls(s, o) && Apply(s, o, t).ok
    ensures forall k :: 0 <= k < |s.fleet.nodes| ==> Current(Apply(s, o, t).s.fleet.nodes[k], t)
  {
    forall k | 0 <= k < |s.fleet.nodes| ensures Current(Apply(s, o, t).s.fleet.nodes[k], t) {
      if !Pending(s.fleet.nodes[k], t) { SettledNode(s.fleet.nodes[k], t); }
      RollingConvergesEach(s, o, t, k);
    }
  }

  ghost predicate AllOn(w: seq<Node>, t: Target) {
    forall k :: 0 <= k < |w| ==> Current(w[k], t) && BothHealthy(w[k])
  }

  lemma RecreatedOn(w: seq<Node>, g: seq<Node>, w': seq<Node>, t: Target)
    requires RenderedAll(w, g, t) && AllRecreated(g, w')
    ensures AllOn(w', t)
  {}

  /** The bootstrap path recreates every node, so it needs no such hypothesis. */
  lemma {:induction false} BootstrapConverges(s: Session, o: Oracle, t: Target, l: nat)
    requires OneLeader(s.fleet.nodes, l)
    ensures !Rolls(s, o) && Apply(s, o, t).ok ==> AllOn(Apply(s, o, t).s.fleet.nodes, t)
  {
    if !Rolls(s, o) && Apply(s, o, t).ok {
      AllRunningIdle(s, o, 0);
      var a := AllRunning(s, o, 0);
      var g := Render(a.s, o, t);
      RenderRenders(a.s, o, t, g);
      BootResult(g.s, o, l);
      RecreatedOn(s.fleet.nodes, g.s.fleet.nodes, Boot(g.s, o).s.fleet.nodes, t);
    }
  }
}
