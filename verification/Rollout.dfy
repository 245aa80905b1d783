/** The authentik phase's `apply`: render to every node, then either roll an already running
    cluster node by node in reverse fleet order, or bootstrap the leader alone and let the other
    nodes follow it. */
module Rollout {
  import opened World

  type Asset = s: Slot | s.Logo? || s.Favicon? || s.Background? witness Logo

  /** An asset the config names; `exists`: on the workstation. */
  datatype Upload = Upload(asset: Asset, exists_: bool)

  /** What one apply renders, and the assets it uploads first. */
  datatype Target = Target(files: Files, uploads: seq<Upload>)

  predicate Matches(f: Files, t: Target) {
    && f.env == t.files.env && f.compose == t.files.compose && f.unit == t.files.unit
    && forall u :: u in t.uploads ==> f.Get(u.asset) == t.files.Get(u.asset)
  }

  predicate Current(n: Node, t: Target) { Matches(n.running, t) }

  function LeaderIndex(nodes: seq<Node>): (l: nat)
    ensures l <= |nodes|
    ensures l < |nodes| ==> nodes[l].leader
    ensures forall k :: 0 <= k < l ==> !nodes[k].leader
  {
    if nodes == [] then 0
    else if nodes[0].leader then 0
    else 1 + LeaderIndex(nodes[1..])
  }

  ghost predicate OneLeader(nodes: seq<Node>, l: nat) {
    && l < |nodes| && nodes[l].leader
    && forall k :: 0 <= k < |nodes| && k != l ==> !nodes[k].leader
  }

  ghost predicate DistinctNames(nodes: seq<Node>) {
    forall i, j :: 0 <= i < j < |nodes| ==> nodes[i].name != nodes[j].name
  }

  ghost predicate SameRoster(w: Fleet, w': Fleet) {
    && |w'.nodes| == |w.nodes|
    && forall k :: 0 <= k < |w.nodes| ==>
         w'.nodes[k].name == w.nodes[k].name && w'.nodes[k].leader == w.nodes[k].leader
  }

  // ------------------------------------------------------------------ the phase as functions

  /** `all(...)` stops at the first node that does not answer; an exception counts as no. */
  function AllRunning(s: Session, o: Oracle, i: nat): (r: Run)
    ensures Extends(s, r.s)
    decreases |s.fleet.nodes| - i
  {
    if i >= |s.fleet.nodes| then Run(s, true)
    else
      var s1 := Next(s, o, Probe(i));
      if LastPassed(s1) then AllRunning(s1, o, i + 1) else Run(s1, false)
  }

  datatype Pushed = Pushed(s: Session, ok: bool, changed: bool)

  function PushOne(s: Session, o: Oracle, i: nat, slot: Slot, content: string): (p: Pushed)
    ensures Extends(s, p.s)
  {
    var s1 := Next(s, o, Push(i, slot, content));
    Pushed(s1, LastCode(s1).Zero?, LastPassed(s1))
  }

  datatype Touching = Touching(s: Session, ok: bool, touched: set<string>)

  /** One asset to every node from i on. */
  function Touch(s: Session, o: Oracle, slot: Slot, content: string, i: nat, touched: set<string>): (t: Touching)
    ensures Extends(s, t.s)
    decreases |s.fleet.nodes| - i
  {
    if i >= |s.fleet.nodes| then Touching(s, true, touched)
    else
      var p := PushOne(s, o, i, slot, content);
      if !p.ok then Touching(p.s, false, touched)
      else Touch(p.s, o, slot, content, i + 1,
                 if p.changed then touched + {s.fleet.nodes[i].name} else touched)
  }

  /** The assets from the k-th on. */
  function TouchAll(s: Session, o: Oracle, t: Target, k: nat, touched: set<string>): (r: Touching)
    requires k <= |t.uploads|
    ensures Extends(s, r.s)
    decreases |t.uploads| - k
  {
    if k == |t.uploads| then Touching(s, true, touched)
    else if !t.uploads[k].exists_ then Touching(s, false, touched)
    else
      var b := Touch(s, o, t.uploads[k].asset, t.files.Get(t.uploads[k].asset), 0, touched);
      if b.ok then TouchAll(b.s, o, t, k + 1, b.touched) else b
  }

  datatype Staging = Staging(s: Session, ok: bool, changed: map<string, bool>)

  function StageOne(s: Session, o: Oracle, f: Files, i: nat): (p: Pushed)
    ensures Extends(s, p.s)
  {
    var s0 := Next(s, o, Prepare(i));
    if LastCode(s0).Lost? then Pushed(s0, false, false) else
    var p1 := PushOne(s0, o, i, Env, f.env);
    if !p1.ok then p1 else
    var p2 := PushOne(p1.s, o, i, Compose, f.compose);
    if !p2.ok then p2 else
    var p3 := PushOne(p2.s, o, i, Unit, f.unit);
    if !p3.ok then p3 else
    var s4 := Next(p3.s, o, Prepare(i));
    Pushed(s4, !LastCode(s4).Lost?, p1.changed || p2.changed || p3.changed)
  }

  /** How one node is staged, whatever the files. */
  type Stager = (Session, nat) -> Pushed

  ghost predicate Advances(stager: Stager) { forall c: Session, k: nat :: Extends(c, stager(c, k).s) }

  /** `changed` is keyed by node name. */
  function StageWith(s: Session, stager: Stager, touched: set<string>, i: nat, changed: map<string, bool>): (g: Staging)
    requires Advances(stager)
    ensures Extends(s, g.s)
    decreases |s.fleet.nodes| - i
  {
    if i >= |s.fleet.nodes| then Staging(s, true, changed)
    else
      var name := s.fleet.nodes[i].name;
      var p := stager(s, i);
      if !p.ok then Staging(p.s, false, changed)
      else StageWith(p.s, stager, touched, i + 1, changed[name := p.changed || name in touched])
  }

  function StagerOf(o: Oracle, f: Files): (stager: Stager)
    ensures Advances(stager)
    ensures forall c: Session, k: nat :: stager(c, k) == StageOne(c, o, f, k)
  { (c: Session, k: nat) => StageOne(c, o, f, k) }

  function Stage(s: Session, o: Oracle, f: Files, touched: set<string>): (g: Staging)
    ensures Extends(s, g.s)
  { StageWith(s, StagerOf(o, f), touched, 0, map[]) }

  predicate Flagged(changed: map<string, bool>, n: Node) { n.name in changed && changed[n.name] }

  /** Recreate node i and gate on it. */
  function Cycle(s: Session, o: Oracle, i: nat): (r: Run)
    ensures Extends(s, r.s)
  {
    var s1 := Next(s, o, Restart(i));
    if !LastCode(s1).Zero? then Run(s1, false)
    else
      GateExtends(s1, o, i, true, HEALTHY_POLLS);
      var g := Gate(s1, o, i, true, HEALTHY_POLLS);
      Run(g.s, g.verdict.Open?)
  }

  /** Nodes i-1 down to 0 are still to be rolled. */
  function Roll(s: Session, o: Oracle, changed: map<string, bool>, i: nat): (r: Run)
    requires i <= |s.fleet.nodes|
    ensures Extends(s, r.s)
    decreases i
  {
    if i == 0 then Run(s, true)
    else if !Flagged(changed, s.fleet.nodes[i - 1]) then Roll(s, o, changed, i - 1)
    else
      var c := Cycle(s, o, i - 1);
      if c.ok then Roll(c.s, o, changed, i - 1) else c
  }

  /** How one node is brought up and gated on. */
  type Visit = (Session, nat) -> Run

  ghost predicate Proceeds(visit: Visit) { forall c: Session, k: nat :: Extends(c, visit(c, k).s) }

  /** The nodes that do not lead, from index i on. */
  function Others(s: Session, visit: Visit, i: nat): (r: Run)
    requires Proceeds(visit)
    ensures Extends(s, r.s)
    decreases |s.fleet.nodes| - i
  {
    if i >= |s.fleet.nodes| then Run(s, true)
    else if s.fleet.nodes[i].leader then Others(s, visit, i + 1)
    else
      var c := visit(s, i);
      if c.ok then Others(c.s, visit, i + 1) else c
  }

  function Cycles(o: Oracle): (visit: Visit)
    ensures Proceeds(visit)
    ensures forall c: Session, k: nat :: visit(c, k) == Cycle(c, o, k)
  { (c: Session, k: nat) => Cycle(c, o, k) }

  function Follow(s: Session, o: Oracle): (r: Run)
    ensures Extends(s, r.s)
  { Others(s, Cycles(o), 0) }

  function Boot(s: Session, o: Oracle): (r: Run)
    ensures Extends(s, r.s)
  {
    var l := LeaderIndex(s.fleet.nodes);
    if l == |s.fleet.nodes| then Run(s, false)
    else
      var c := Cycle(s, o, l);
      if c.ok then Follow(c.s, o) else c
  }

  function Render(s: Session, o: Oracle, t: Target): (g: Staging)
    ensures Extends(s, g.s)
  {
    var b := TouchAll(s, o, t, 0, {});
    if !b.ok then Staging(b.s, false, map[])
    else Stage(b.s, o, t.files, b.touched)
  }

  function Apply(s: Session, o: Oracle, t: Target): (r: Run)
    ensures Extends(s, r.s)
  {
    var a := AllRunning(s, o, 0);
    var g := Render(a.s, o, t);
    if !g.ok then Run(g.s, false)
    else if a.ok then Roll(g.s, o, g.changed, |g.s.fleet.nodes|)
    else Boot(g.s, o)
  }

  lemma {:induction false} GateExtends(s: Session, o: Oracle, i: nat, pair: bool, polls: nat)
    ensures Extends(s, Gate(s, o, i, pair, polls).s)
    decreases polls
  {
    if polls > 0 { GateExtends(Next(s, o, Poll(i, pair)), o, i, pair, polls - 1); }
  }

  // ------------------------------------------------------------------ the phase as it runs

  method DoAllRunning(op: Operator) returns (ok: bool)
    modifies op
    ensures var r := AllRunning(old(op.View()), op.oracle, 0); op.View() == r.s && ok == r.ok
  {
    var i := 0;
    while i < |op.fleet.nodes|
      invariant 0 <= i <= |op.fleet.nodes|
      invariant AllRunning(old(op.View()), op.oracle, 0) == AllRunning(op.View(), op.oracle, i)
    {
      var _, passed := op.Issue(Probe(i));
      if !passed { return false; }
      i := i + 1;
    }
    return true;
  }

  method DoPush(op: Operator, i: nat, slot: Slot, content: string) returns (ok: bool, changed: bool)
    requires i < |op.fleet.nodes|
    modifies op
    ensures var p := PushOne(old(op.View()), op.oracle, i, slot, content);
            op.View() == p.s && ok == p.ok && changed == p.changed
  {
    var code, written := op.Issue(Push(i, slot, content));
    return code.Zero?, written;
  }

  method DoTouch(op: Operator, slot: Slot, content: string, before: set<string>)
    returns (ok: bool, touched: set<string>)
    modifies op
    ensures var t := Touch(old(op.View()), op.oracle, slot, content, 0, before);
            op.View() == t.s && ok == t.ok && touched == t.touched
  {
    touched := before;
    var i := 0;
    while i < |op.fleet.nodes|
      invariant 0 <= i <= |op.fleet.nodes|
      invariant Touch(old(op.View()), op.oracle, slot, content, 0, before) ==
                Touch(op.View(), op.oracle, slot, content, i, touched)
    {
      var name := op.fleet.nodes[i].name;
      var pushed, changed := DoPush(op, i, slot, content);
      if !pushed { return false, touched; }
      if changed { touched := touched + {name}; }
      i := i + 1;
    }
    return true, touched;
  }

  method DoTouchAll(op: Operator, t: Target) returns (ok: bool, touched: set<string>)
    modifies op
    ensures var r := TouchAll(old(op.View()), op.oracle, t, 0, {});
            op.View() == r.s && ok == r.ok && touched == r.touched
  {
    touched := {};
    var k := 0;
    while k < |t.uploads|
      invariant 0 <= k <= |t.uploads|
      invariant TouchAll(old(op.View()), op.oracle, t, 0, {}) == TouchAll(op.View(), op.oracle, t, k, touched)
    {
      var u := t.uploads[k];
      if !u.exists_ { return false, touched; }
      ok, touched := DoTouch(op, u.asset, t.files.Get(u.asset), touched);
      if !ok { return; }
      k := k + 1;
    }
    return true, touched;
  }

  method DoStageOne(op: Operator, f: Files, i: nat) returns (ok: bool, changed: bool)
    requires i < |op.fleet.nodes|
    modifies op
    ensures var p := StageOne(old(op.View()), op.oracle, f, i);
            op.View() == p.s && ok == p.ok && (ok ==> changed == p.changed)
  {
    var code, _ := op.Issue(Prepare(i));
    if code.Lost? { return false, false; }
    var c1, c2, c3;
    ok, c1 := DoPush(op, i, Env, f.env);
    if !ok { return false, c1; }
    ok, c2 := DoPush(op, i, Compose, f.compose);
    if !ok { return false, c2; }
    ok, c3 := DoPush(op, i, Unit, f.unit);
    if !ok { return false, c3; }
    var last, _ := op.Issue(Prepare(i));
    return !last.Lost?, c1 || c2 || c3;
  }

  method DoStage(op: Operator, f: Files, touched: set<string>)
    returns (ok: bool, changed: map<string, bool>)
    modifies op
    ensures var g := Stage(old(op.View()), op.oracle, f, touched);
            op.View() == g.s && ok == g.ok && changed == g.changed
  {
    changed := map[];
    var i := 0;
    while i < |op.fleet.nodes|
      invariant 0 <= i <= |op.fleet.nodes|
      invariant Stage(old(op.View()), op.oracle, f, touched) ==
                StageWith(op.View(), StagerOf(op.oracle, f), touched, i, changed)
    {
      var name := op.fleet.nodes[i].name;
      var staged, c := DoStageOne(op, f, i);
      if !staged { return false, changed; }
      changed := changed[name := c || name in touched];
      i := i + 1;
    }
    return true, changed;
  }

  method DoCycle(op: Operator, i: nat) returns (ok: bool)
    modifies op
    ensures var r := Cycle(old(op.View()), op.oracle, i); op.View() == r.s && ok == r.ok
  {
    var code, _ := op.Issue(Restart(i));
    if !code.Zero? { return false; }
    var v := op.WaitHealthy(i, true, HEALTHY_POLLS);
    return v.Open?;
  }

  lemma RollStep(s: Session, o: Oracle, changed: map<string, bool>, i: nat)
    requires 0 < i <= |s.fleet.nodes|
    ensures !Flagged(changed, s.fleet.nodes[i - 1]) ==> Roll(s, o, changed, i) == Roll(s, o, changed, i - 1)
    ensures Flagged(changed, s.fleet.nodes[i - 1]) ==>
              var c := Cycle(s, o, i - 1);
              Roll(s, o, changed, i) == if c.ok then Roll(c.s, o, changed, i - 1) else c
  {}

  method DoRoll(op: Operator, changed: map<string, bool>) returns (ok: bool)
    modifies op
    ensures var r := Roll(old(op.View()), op.oracle, changed, |old(op.fleet.nodes)|);
            op.View() == r.s && ok == r.ok
  {
    ghost var all := Roll(op.View(), op.oracle, changed, |op.fleet.nodes|);
    var i := |op.fleet.nodes|;
    while i > 0
      invariant 0 <= i <= |op.fleet.nodes|
      invariant all == Roll(op.View(), op.oracle, changed, i)
    {
      RollStep(op.View(), op.oracle, changed, i);
      i := i - 1;
      if Flagged(changed, op.fleet.nodes[i]) {
        var good := DoCycle(op, i);
        if !good { return false; }
      }
    }
    return true;
  }

  method DoFollow(op: Operator) returns (ok: bool)
    modifies op
    ensures var r := Follow(old(op.View()), op.oracle); op.View() == r.s && ok == r.ok
  {
    var i := 0;
    while i < |op.fleet.nodes|
      invariant 0 <= i <= |op.fleet.nodes|
      invariant Follow(old(op.View()), op.oracle) == Others(op.View(), Cycles(op.oracle), i)
    {
      if !op.fleet.nodes[i].leader {
        var good := DoCycle(op, i);
        if !good { return false; }
      }
      i := i + 1;
    }
    return true;
  }

  method DoBoot(op: Operator) returns (ok: bool)
    modifies op
    ensures var r := Boot(old(op.View()), op.oracle); op.View() == r.s && ok == r.ok
  {
    var l := LeaderIndex(op.fleet.nodes);
    if l == |op.fleet.nodes| { return false; }
    ok := DoCycle(op, l);
    if !ok { return false; }
    ok := DoFollow(op);
  }

  method ApplyAuthentik(op: Operator, t: Target) returns (ok: bool)
    modifies op
    ensures var r := Apply(old(op.View()), op.oracle, t); op.View() == r.s && ok == r.ok
  {
    var rolling := DoAllRunning(op);
    var touched;
    ok, touched := DoTouchAll(op, t);
    if !ok { return false; }
    var changed;
    ok, changed := DoStage(op, t.files, touched);
    if !ok { return false; }
    if rolling { ok := DoRoll(op, changed); } else { ok := DoBoot(op); }
  }
}
