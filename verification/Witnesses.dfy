/** When the phases go wrong: for each property that one would expect and the code does not keep, the
    runs in which it fails, and the exact condition. */
module Witnesses {
  import opened World
  import opened Rollout
  import opened RolloutProofs
  import opened Campaign
  import Restore
  import RestoreProofs
  import DumpFilter
  import Validator

  /** A command that worked. */
  function Fine(): Reply {
    Reply(Zero, true, true, false, "", Present(Healthy), Present(Healthy), Untouched, 0, true, {})
  }
  /** A command that failed and changed nothing. */
  function Failed(): Reply { Fine().(code := NonZero, took := false) }

  function FineUntil(c: nat): Oracle { (k: nat) => if k < c then Fine() else Failed() }
  function AlwaysFine(): Oracle { (k: nat) => Fine() }

  ghost predicate FineFor(o: Oracle, from: nat, n: nat) {
    forall c :: from <= c < from + n ==> o(c) == Fine()
  }

  // ------------------------------------------------------------------ runs in which all is well

  lemma {:induction false} FineAllRunning(s: Session, o: Oracle, i: nat)
    requires i <= |s.fleet.nodes| && FineFor(o, s.clock, |s.fleet.nodes| - i)
    requires forall k :: 0 <= k < |s.fleet.nodes| ==> s.fleet.nodes[k].server.Present?
    ensures var r := AllRunning(s, o, i);
      r.ok && r.s.clock == s.clock + (|s.fleet.nodes| - i) && r.s.fleet == s.fleet
    decreases |s.fleet.nodes| - i
  {
    if i < |s.fleet.nodes| { FineAllRunning(Next(s, o, Probe(i)), o, i + 1); }
  }

  lemma {:induction false} FineStageOne(s: Session, o: Oracle, f: Files, i: nat)
    requires i < |s.fleet.nodes| && FineFor(o, s.clock, 5)
    ensures var p := StageOne(s, o, f, i); p.ok && p.s.clock == s.clock + 5
  {
    assert forall c :: s.clock <= c < s.clock + 5 ==> o(c).code.Zero?;
  }

  lemma {:induction false} FineStage(s: Session, o: Oracle, f: Files, touched: set<string>, i: nat,
                                     changed: map<string, bool>)
    requires i <= |s.fleet.nodes| && FineFor(o, s.clock, 5 * (|s.fleet.nodes| - i))
    ensures var g := StageWith(s, StagerOf(o, f), touched, i, changed);
      g.ok && g.s.clock == s.clock + 5 * (|s.fleet.nodes| - i)
    decreases |s.fleet.nodes| - i
  {
    if i < |s.fleet.nodes| {
      FineStageOne(s, o, f, i);
      var p := StageOne(s, o, f, i);
      var name := s.fleet.nodes[i].name;
      FineStage(p.s, o, f, touched, i + 1, changed[name := p.changed || name in touched]);
    }
  }

  // ------------------------------------------------------------------ stale nodes

  lemma {:induction false} FineRender(w: Fleet, o: Oracle, t: Target)
    requires AllHealthy(w) && t.uploads == [] && FineFor(o, 0, 6 * |w.nodes|)
    ensures var a := AllRunning(Session(w, 0, []), o, 0); var g := Render(a.s, o, t);
      && a.ok && g.ok && g.s.clock == 6 * |w.nodes|
      && RenderedAll(w.nodes, g.s.fleet.nodes, t)
      && FlaggedFor(w.nodes, t, g.changed, ProbesAnswer(o))
  {
    var s := Session(w, 0, []);
    FineAllRunning(s, o, 0);
    var a := AllRunning(s, o, 0);
    FineStage(a.s, o, t.files, {}, 0, map[]);
    RenderRenders(a.s, o, t, Render(a.s, o, t));
    RenderFlags(a.s, o, t, Render(a.s, o, t));
  }

  lemma {:induction false} FirstRollFails(s: Session, o: Oracle, changed: map<string, bool>, n: nat)
    requires n == |s.fleet.nodes| >= 2 && Flagged(changed, s.fleet.nodes[n - 1])
    requires o(s.clock) == Failed()
    ensures var r := Roll(s, o, changed, n);
      && !r.ok
      && (forall k :: 0 <= k < n - 1 ==> r.s.fleet.nodes[k] == s.fleet.nodes[k])
      && r.s.fleet.nodes[n - 1].name == s.fleet.nodes[n - 1].name
  {
    CycleOnly(s, o, n - 1);
    assert !Cycle(s, o, n - 1).ok;
  }

  lemma RaisedLeaves(w: seq<Node>, g: seq<Node>, r: seq<Node>, t: Target)
    requires DistinctNames(w) && RenderedAll(w, g, t) && |r| == |g| >= 1 && t.uploads == []
    requires forall k :: 0 <= k < |r| - 1 ==> r[k] == g[k]
    requires r[|r| - 1].name == g[|r| - 1].name
    ensures DistinctNames(r)
    ensures forall k :: 0 <= k < |r| - 1 ==> !Pending(r[k], t) && r[k].running == w[k].running
  {
    forall k | 0 <= k < |r| ensures r[k].name == w[k].name {}
  }

  /** The failed first run: it raises with the files already everywhere. */
  lemma {:induction false} FirstRunRaises(w: Fleet, t: Target)
    requires AllHealthy(w) && DistinctNames(w.nodes) && |w.nodes| >= 2 && t.uploads == []
    requires Pending(w.nodes[|w.nodes| - 1], t)
    ensures var first := Apply(Session(w, 0, []), FineUntil(6 * |w.nodes|), t);
      && !first.ok && |first.s.fleet.nodes| == |w.nodes|
      && DistinctNames(first.s.fleet.nodes)
      && forall k :: 0 <= k < |w.nodes| - 1 ==>
           && !Pending(first.s.fleet.nodes[k], t)
           && first.s.fleet.nodes[k].running == w.nodes[k].running
  {
    var n := |w.nodes|;
    var o := FineUntil(6 * n);
    FineRender(w, o, t);
    var g := Render(AllRunning(Session(w, 0, []), o, 0).s, o, t);
    assert LastOfName(w.nodes, n - 1) && Rewritten(w.nodes, n - 1, t);
    FirstRollFails(g.s, o, g.changed, n);
    RaisedLeaves(w.nodes, g.s.fleet.nodes, Roll(g.s, o, g.changed, n).s.fleet.nodes, t);
  }

  /** One failed restart is enough: the files are already everywhere, so from then on every rolling
      apply that returns skips the nodes the failed one did not reach, and they go on running the
      old files. */
  lemma {:induction false} UnreachedNodesStayStale(w: Fleet, t: Target, o2: Oracle, k: nat)
    requires AllHealthy(w) && DistinctNames(w.nodes) && k < |w.nodes| - 1 && t.uploads == []
    requires Pending(w.nodes[|w.nodes| - 1], t) && !Current(w.nodes[k], t)
    ensures var first := Apply(Session(w, 0, []), FineUntil(6 * |w.nodes|), t);
      var s2 := Session(first.s.fleet, 0, []);
      && !first.ok
      && (Rolls(s2, o2) && ProbesAnswer(o2) && Apply(s2, o2, t).ok ==>
            k < |Apply(s2, o2, t).s.fleet.nodes| && !Current(Apply(s2, o2, t).s.fleet.nodes[k], t))
  {
    FirstRunRaises(w, t);
    var first := Apply(Session(w, 0, []), FineUntil(6 * |w.nodes|), t);
    var s2 := Session(first.s.fleet, 0, []);
    if Rolls(s2, o2) && ProbesAnswer(o2) && Apply(s2, o2, t).ok {
      RollingConvergesEach(s2, o2, t, k);
    }
  }

  /** The fleet of a config. */
  ghost predicate FleetOf(w: Fleet, ns: seq<Validator.Node>) {
    && |w.nodes| == |ns|
    && forall k :: 0 <= k < |ns| ==> w.nodes[k].name == ns[k].name && w.nodes[k].leader == ns[k].leader
  }

  lemma {:induction false} NothingFlaggedRolls(s: Session, o: Oracle, changed: map<string, bool>, i: nat)
    requires i <= |s.fleet.nodes| && forall k :: 0 <= k < i ==> !Flagged(changed, s.fleet.nodes[k])
    ensures Roll(s, o, changed, i) == Run(s, true)
    decreases i
  { if i > 0 { NothingFlaggedRolls(s, o, changed, i - 1); } }

  lemma {:induction false} FineTouch(s: Session, o: Oracle, slot: Slot, content: string, i: nat, touched: set<string>)
    requires i <= |s.fleet.nodes| && o == AlwaysFine()
    ensures Touch(s, o, slot, content, i, touched).ok
    decreases |s.fleet.nodes| - i
  {
    if i < |s.fleet.nodes| {
      var p := PushOne(s, o, i, slot, content);
      FineTouch(p.s, o, slot, content, i + 1, if p.changed then touched + {s.fleet.nodes[i].name} else touched);
    }
  }

  lemma {:induction false} FineTouchAll(s: Session, o: Oracle, t: Target, k: nat, touched: set<string>)
    requires k <= |t.uploads| && o == AlwaysFine() && forall u :: u in t.uploads ==> u.exists_
    ensures TouchAll(s, o, t, k, touched).ok
    decreases |t.uploads| - k
  {
    if k < |t.uploads| {
      var u := t.uploads[k];
      FineTouch(s, o, u.asset, t.files.Get(u.asset), 0, touched);
      var b := Touch(s, o, u.asset, t.files.Get(u.asset), 0, touched);
      FineTouchAll(b.s, o, t, k + 1, b.touched);
    }
  }

  /** `changed` is keyed by name, and the loader does not keep names apart.  Take any config it accepts,
      give its nodes one name, which it accepts too, and let the last node's files and every asset be in
      place: with every command succeeding, the apply returns, and leaves every other node on the old files
      that it had just replaced on its disk. */
  lemma {:induction false} SharedNameHidesAChange(raw: seq<Validator.RawNode>, vip: Validator.Ip, name: string,
                                                  w: Fleet, t: Target, k: nat)
    requires Validator.Problems(false, raw, vip) == [] && name != []
    requires FleetOf(w, Validator.Nodes(Validator.Renamed(raw, name))) && AllHealthy(w)
    requires (forall u :: u in t.uploads ==> u.exists_)
    requires k < |w.nodes| && !Rewritten(w.nodes, |w.nodes| - 1, t)
    requires FilesDiffer(w.nodes[k], t.files) && !Current(w.nodes[k], t)
    ensures Validator.Problems(false, Validator.Renamed(raw, name), vip) == []
    ensures var r := Apply(Session(w, 0, []), AlwaysFine(), t);
      r.ok && k < |r.s.fleet.nodes| && !Current(r.s.fleet.nodes[k], t)
  {
    Validator.SharedNamesAreAccepted(false, raw, vip, name);
    LastUnchangedRolls(w, t);
    RollingConverges(Session(w, 0, []), AlwaysFine(), t, k, |w.nodes| - 1);
  }

  lemma {:induction false} LastUnchangedRolls(w: Fleet, t: Target)
    requires |w.nodes| > 0 && AllHealthy(w) && !Rewritten(w.nodes, |w.nodes| - 1, t)
    requires forall u :: u in t.uploads ==> u.exists_
    requires forall k :: 0 <= k < |w.nodes| ==> w.nodes[k].name == w.nodes[|w.nodes| - 1].name
    ensures var l := |w.nodes| - 1; var s := Session(w, 0, []); var o := AlwaysFine();
      ProbesAnswer(o) && LastOfName(w.nodes, l) && Rolls(s, o) && Apply(s, o, t).ok
  {
    var o := AlwaysFine();
    var s := Session(w, 0, []);
    FineAllRunning(s, o, 0);
    var a := AllRunning(s, o, 0);
    FineTouchAll(a.s, o, t, 0, {});
    var b := TouchAll(a.s, o, t, 0, {});
    FineStage(b.s, o, t.files, b.touched, 0, map[]);
    var g := Render(a.s, o, t);
    RenderFlags(a.s, o, t, g);
    RenderFilesOnly(a.s, o, t);
    assert LastOfName(w.nodes, |w.nodes| - 1);
    NothingFlaggedRolls(g.s, o, g.changed, |w.nodes|);
  }

  // ------------------------------------------------------------------ half-loaded databases

  /** Some step since s has a container on a database that is not whole. */
  ghost predicate HalfUpSince(s: Session, s': Session) {
    exists k :: |s.trace| <= k < |s'.trace| && HalfUpAt(s'.trace[k])
  }

  ghost predicate HalfUpAt(st: Step) { !AllQuiet(st.after) && !Whole(st.after.db.data) }

  const WHOLE := Care(0, false, Complete)

  lemma HalfUpEarlier(s: Session, m: Session, s': Session)
    requires HalfUpSince(s, m) && Extends(m, s')
    ensures HalfUpSince(s, s')
  {
    var k :| |s.trace| <= k < |m.trace| && HalfUpAt(m.trace[k]);
    assert s'.trace[k] == m.trace[k];
  }

  lemma HalfUpLater(s: Session, m: Session, s': Session)
    requires Extends(s, m) && HalfUpSince(m, s')
    ensures HalfUpSince(s, s')
  {
    var k :| |m.trace| <= k < |s'.trace| && HalfUpAt(s'.trace[k]);
  }

  lemma KeptIsNotHalfUp(s: Session, s': Session)
    requires KeptSince(s, s', WHOLE)
    ensures !HalfUpSince(s, s')
  {
    forall k | |s.trace| <= k < |s'.trace| ensures !HalfUpAt(s'.trace[k]) { assert Inv(s'.trace[k].after, WHOLE); }
  }

  predicate HasLeader(w: Fleet) { LeaderIndex(w.nodes) < |w.nodes| }

  /** The first start of a stopped node brings up a container: of the pair, or of the worker alone. */
  predicate BringsPair(r: Reply) { r.code.Zero? || r.server.Present? || r.worker.Present? }
  predicate BringsWorker(r: Reply) { r.code.Zero? || r.worker.Present? }

  /** What it takes for an operation to start something on a database that is not whole.  An apply: to find
      one, and to get as far as starting the leader.  A restore: to replace the database by less than the
      dump, unnoticed, and to get as far as starting the leader's worker. */
  ghost predicate StartsOnPart(s: Session, o: Oracle, op: Op) {
    match op
    case Authentik(t) => !Whole(s.fleet.db.data) && ColdStarts(s, o, t)
    case Restoring(job) => job.Ready? && Restarts(s, o, job.dump) && !Restore.Arrives(s, o, job.dump)
  }

  predicate ColdStarts(s: Session, o: Oracle, t: Target) {
    var g := Render(AllRunning(s, o, 0).s, o, t);
    g.ok && HasLeader(g.s.fleet) && BringsPair(o(g.s.clock))
  }

  predicate Restarts(s: Session, o: Oracle, d: Restore.Dump) {
    var r := Restore.Replace(s, o, d);
    r.ok && HasLeader(r.s.fleet) && BringsWorker(o(r.s.clock))
  }

  ghost predicate Leaks(s: Session, o: Oracle, ops: seq<Op>)
    decreases |ops|
  { ops != [] && (StartsOnPart(s, o, ops[0]) || Leaks(RunOp(s, o, ops[0]).s, o, ops[1..])) }

  // ------------------------------------------------------------------ one start under a stopped fleet

  lemma {:induction false} PairStart(s: Session, o: Oracle, l: nat)
    requires AllQuiet(s.fleet) && l < |s.fleet.nodes|
    ensures var s1 := Next(s, o, Restart(l));
      && s1.fleet.db.data == s.fleet.db.data
      && (BringsPair(o(s.clock)) ==> !Quiet(s1.fleet.nodes[l]))
      && (!BringsPair(o(s.clock)) ==> AllQuiet(s1.fleet) && !LastCode(s1).Zero?)
  {}

  lemma {:induction false} WorkerStart(s: Session, o: Oracle, l: nat)
    requires AllQuiet(s.fleet) && l < |s.fleet.nodes|
    ensures var s1 := Next(s, o, UpOnly(l, Worker));
      && s1.fleet.db.data == s.fleet.db.data
      && (BringsWorker(o(s.clock)) ==> !Quiet(s1.fleet.nodes[l]))
      && (!BringsWorker(o(s.clock)) ==> AllQuiet(s1.fleet) && !LastCode(s1).Zero?)
  {}

  lemma {:induction false} StepIsHalfUp(s: Session, o: Oracle, cmd: Cmd, i: nat, s': Session)
    requires Extends(Next(s, o, cmd), s') && i < |s.fleet.nodes|
    requires !Quiet(Next(s, o, cmd).fleet.nodes[i]) && !Whole(Next(s, o, cmd).fleet.db.data)
    ensures HalfUpSince(s, s')
  {
    var s1 := Next(s, o, cmd);
    assert s'.trace[|s.trace|] == s1.trace[|s.trace|];
    assert HalfUpAt(s'.trace[|s.trace|]);
  }

  lemma {:induction false} BootIsHalfUp(s: Session, o: Oracle)
    requires AllQuiet(s.fleet) && !Whole(s.fleet.db.data) && HasLeader(s.fleet) && BringsPair(o(s.clock))
    ensures HalfUpSince(s, Boot(s, o).s)
  {
    var l := LeaderIndex(s.fleet.nodes);
    PairStart(s, o, l);
    var s1 := Next(s, o, Restart(l));
    GateExtends(s1, o, l, true, HEALTHY_POLLS);
    assert Extends(s1, Cycle(s, o, l).s);
    StepIsHalfUp(s, o, Restart(l), l, Boot(s, o).s);
  }

  lemma {:induction false} BootStaysDown(s: Session, o: Oracle)
    requires AllQuiet(s.fleet) && !(HasLeader(s.fleet) && BringsPair(o(s.clock)))
    ensures KeptSince(s, Boot(s, o).s, WHOLE)
  {
    var l := LeaderIndex(s.fleet.nodes);
    if l < |s.fleet.nodes| {
      PairStart(s, o, l);
      KeptStep(s, o, Restart(l), WHOLE);
    }
  }

  lemma {:induction false} ReviveIsHalfUp(s: Session, o: Oracle, polls: nat)
    requires AllQuiet(s.fleet) && !Whole(s.fleet.db.data) && HasLeader(s.fleet) && BringsWorker(o(s.clock))
    ensures HalfUpSince(s, Restore.Revive(s, o, polls).s)
  {
    var l := LeaderIndex(s.fleet.nodes);
    WorkerStart(s, o, l);
    var s1 := Next(s, o, UpOnly(l, Worker));
    GateExtends(s1, o, l, false, polls);
    assert Extends(s1, Restore.StartService(s, o, l, Worker, polls).s);
    StepIsHalfUp(s, o, UpOnly(l, Worker), l, Restore.Revive(s, o, polls).s);
  }

  lemma {:induction false} ReviveStaysDown(s: Session, o: Oracle, polls: nat)
    requires AllQuiet(s.fleet) && !(HasLeader(s.fleet) && BringsWorker(o(s.clock)))
    ensures KeptSince(s, Restore.Revive(s, o, polls).s, WHOLE)
  {
    var l := LeaderIndex(s.fleet.nodes);
    if l < |s.fleet.nodes| {
      WorkerStart(s, o, l);
      KeptStep(s, o, UpOnly(l, Worker), WHOLE);
    }
  }

  // ------------------------------------------------------------------ one operation

  /** An apply that finds a stopped fleet goes the bootstrap way. */
  lemma {:induction false} ColdApply(s: Session, o: Oracle, t: Target) returns (g: Staging)
    requires AllQuiet(s.fleet)
    ensures g == Render(AllRunning(s, o, 0).s, o, t)
    ensures KeptSince(s, g.s, WHOLE) && AllQuiet(g.s.fleet) && g.s.fleet.db.data == s.fleet.db.data
    ensures !g.ok ==> Apply(s, o, t).s == g.s
    ensures g.ok && |s.fleet.nodes| == 0 ==> Apply(s, o, t).s == g.s && !HasLeader(g.s.fleet)
    ensures g.ok && |s.fleet.nodes| > 0 ==> Apply(s, o, t) == Boot(g.s, o)
  {
    RenderKeeps(s, o, t, WHOLE);
    var a := AllRunning(s, o, 0);
    g := Render(a.s, o, t);
    assert |s.fleet.nodes| > 0 ==> Quiet(s.fleet.nodes[0]);
    FilesStayQuiet(s.fleet, g.s.fleet);
  }

  lemma FilesStayQuiet(w: Fleet, w': Fleet)
    requires FilesOnly(w, w') && AllQuiet(w)
    ensures AllQuiet(w') && w'.db.data == w.db.data
  {
    forall k | 0 <= k < |w'.nodes| ensures Quiet(w'.nodes[k]) { assert Quiet(w.nodes[k]); }
  }

  lemma {:induction false} ApplyExactly(s: Session, o: Oracle, t: Target)
    requires NeverHalfUp(s.fleet, Complete)
    ensures StartsOnPart(s, o, Authentik(t)) ==> HalfUpSince(s, Apply(s, o, t).s)
    ensures !StartsOnPart(s, o, Authentik(t)) ==> KeptSince(s, Apply(s, o, t).s, WHOLE)
  {
    if Whole(s.fleet.db.data) {
      AuthentikKeeps(s, o, t, WHOLE);
    } else {
      var g := ColdApply(s, o, t);
      if g.ok && |s.fleet.nodes| > 0 {
        if HasLeader(g.s.fleet) && BringsPair(o(g.s.clock)) {
          BootIsHalfUp(g.s, o);
          HalfUpLater(s, g.s, Apply(s, o, t).s);
        } else {
          BootStaysDown(g.s, o);
          KeptJoin(s, g.s, Apply(s, o, t).s, WHOLE);
        }
      }
    }
  }

  lemma {:induction false} RestoreStarts(s: Session, o: Oracle, d: Restore.Dump, polls: nat)
    requires NeverHalfUp(s.fleet, Complete) && Restarts(s, o, d) && !Restore.Arrives(s, o, d)
    ensures HalfUpSince(s, Restore.Revive(Restore.Replace(s, o, d).s, o, polls).s)
  {
    var w := Restore.Replace(s, o, d);
    ReplaceKeeps(s, o, d, WHOLE);
    ReplaceLoads(s, o, d, w);
    ReviveIsHalfUp(w.s, o, polls);
    HalfUpLater(s, w.s, Restore.Revive(w.s, o, polls).s);
  }

  lemma {:induction false} RestoreStays(s: Session, o: Oracle, d: Restore.Dump, polls: nat)
    requires NeverHalfUp(s.fleet, Complete) && Restore.Replace(s, o, d).ok
    requires !Restarts(s, o, d) && !Restore.Arrives(s, o, d)
    ensures KeptSince(s, Restore.Revive(Restore.Replace(s, o, d).s, o, polls).s, WHOLE)
  {
    var w := Restore.Replace(s, o, d);
    ReplaceKeeps(s, o, d, WHOLE);
    ReviveStaysDown(w.s, o, polls);
    KeptJoin(s, w.s, Restore.Revive(w.s, o, polls).s, WHOLE);
  }

  lemma {:induction false} RestoreExactly(s: Session, o: Oracle, job: Restore.Job)
    requires NeverHalfUp(s.fleet, Complete)
    ensures StartsOnPart(s, o, Restoring(job)) ==> HalfUpSince(s, Restore.Apply(s, o, job).s)
    ensures !StartsOnPart(s, o, Restoring(job)) ==> KeptSince(s, Restore.Apply(s, o, job).s, WHOLE)
  {
    if !job.Ready? || !Restore.Replace(s, o, job.dump).ok || Restore.Arrives(s, o, job.dump) {
      RestoreKeeps(s, o, job, WHOLE);
    } else if Restarts(s, o, job.dump) {
      RestoreStarts(s, o, job.dump, job.migrationPolls);
    } else {
      RestoreStays(s, o, job.dump, job.migrationPolls);
    }
  }

  lemma {:induction false} OpExactly(s: Session, o: Oracle, op: Op)
    requires NeverHalfUp(s.fleet, Complete)
    ensures StartsOnPart(s, o, op) ==> HalfUpSince(s, RunOp(s, o, op).s)
    ensures !StartsOnPart(s, o, op) ==> KeptSince(s, RunOp(s, o, op).s, WHOLE)
  {
    match op {
      case Authentik(t) => ApplyExactly(s, o, t);
      case Restoring(job) => RestoreExactly(s, o, job);
    }
  }

  // ------------------------------------------------------------------ any number of operations

  lemma {:induction false} RunAllExtends(s: Session, o: Oracle, ops: seq<Op>)
    ensures Extends(s, RunAll(s, o, ops))
    decreases |ops|
  { if ops != [] { RunAllExtends(RunOp(s, o, ops[0]).s, o, ops[1..]); } }

  lemma {:induction false} LeakIsHalfUp(s: Session, o: Oracle, ops: seq<Op>)
    requires NeverHalfUp(s.fleet, Complete) && Leaks(s, o, ops)
    ensures HalfUpSince(s, RunAll(s, o, ops))
    decreases |ops|
  {
    var s1 := RunOp(s, o, ops[0]).s;
    OpExactly(s, o, ops[0]);
    RunAllExtends(s1, o, ops[1..]);
    if StartsOnPart(s, o, ops[0]) {
      HalfUpEarlier(s, s1, RunAll(s1, o, ops[1..]));
    } else {
      LeakIsHalfUp(s1, o, ops[1..]);
      HalfUpLater(s, s1, RunAll(s1, o, ops[1..]));
    }
  }

  lemma {:induction false} NoLeakKeeps(s: Session, o: Oracle, ops: seq<Op>)
    requires NeverHalfUp(s.fleet, Complete) && !Leaks(s, o, ops)
    ensures KeptSince(s, RunAll(s, o, ops), WHOLE)
    decreases |ops|
  {
    if ops != [] {
      var s1 := RunOp(s, o, ops[0]).s;
      OpExactly(s, o, ops[0]);
      NoLeakKeeps(s1, o, ops[1..]);
      KeptJoin(s, s1, RunAll(s1, o, ops[1..]), WHOLE);
    }
  }

  /** Over any mix of applies and restores, whatever the commands answer, from any fleet that is stopped or
      on a whole database: at some step a container exists on a database that is not whole if and only if
      some operation starts it there.  Nothing stops a restore from that: the load's exit code is
      psql's, so a dump that breaks off, a line of its data deleted by the filter, a reader that is killed or
      missing all go unnoticed.  Nothing stops an apply either. */
  lemma {:induction false} HalfUpExactly(s: Session, o: Oracle, ops: seq<Op>)
    requires NeverHalfUp(s.fleet, Complete)
    ensures HalfUpSince(s, RunAll(s, o, ops)) <==> Leaks(s, o, ops)
  {
    if Leaks(s, o, ops) {
      LeakIsHalfUp(s, o, ops);
    } else {
      NoLeakKeeps(s, o, ops);
      KeptIsNotHalfUp(s, RunAll(s, o, ops));
    }
  }

  /** Of the dump file: it decodes to its end, none of its data is spelt like a setting to strip, and what
      feeds psql runs to its end. */
  ghost predicate FileArrives(s: Session, o: Oracle, file: Restore.File) {
    var g := Restore.Stage(s, o, Restore.DumpOf(file));
    && file.decodes
    && DumpFilter.NoneStruck(file.body, DumpFilter.Stripped(file.Lines(), g.answer))
    && o(g.s.clock + 1).through
  }

  lemma {:induction false} FileArrivesMeans(s: Session, o: Oracle, file: Restore.File)
    ensures FileArrives(s, o, file) ==> Restore.Arrives(s, o, Restore.DumpOf(file))
    ensures Restore.Arrives(s, o, Restore.DumpOf(file)) ==> FileArrives(s, o, file)
  { Restore.KeepsMeans(file, Restore.Stage(s, o, Restore.DumpOf(file)).answer); }

  /** So a restore of a file brings up a container on less than the whole of it exactly if it gets as far as
      starting the leader and not all of the file's data arrives. */
  lemma {:induction false} RestoreOfFileExactly(s: Session, o: Oracle, file: Restore.File, polls: nat)
    requires NeverHalfUp(s.fleet, Complete)
    ensures var job := Restore.Ready(Restore.DumpOf(file), polls);
      HalfUpSince(s, Restore.Apply(s, o, job).s) <==>
        Restarts(s, o, Restore.DumpOf(file)) && !FileArrives(s, o, file)
  {
    var job := Restore.Ready(Restore.DumpOf(file), polls);
    FileArrivesMeans(s, o, file);
    var r := Restore.Apply(s, o, job).s;
    RestoreExactly(s, o, job);
    if Restarts(s, o, Restore.DumpOf(file)) && !FileArrives(s, o, file) {
      assert StartsOnPart(s, o, Restoring(job));
    } else {
      assert !StartsOnPart(s, o, Restoring(job));
      KeptIsNotHalfUp(s, r);
    }
  }

  // ------------------------------------------------------------------ restores in which every command works

  /** Every command works; nothing is said of what feeds psql, or of the settings the server knows. */
  ghost predicate AllWork(o: Oracle) {
    forall c: nat :: o(c) == Fine().(through := o(c).through, known := o(c).known)
  }

  lemma {:induction false} FineSurvey(s: Session, o: Oracle, d: Restore.Dump)
    requires |s.fleet.nodes| > 0 && AllWork(o) && d.scans
    ensures Restore.Survey(s, o, d).ok && |Restore.Survey(s, o, d).s.fleet.nodes| == |s.fleet.nodes|
  { assert LastPassed(Next(s, o, AskPrimary(0))); }

  lemma {:induction false} FineStopAll(s: Session, o: Oracle, i: nat)
    requires AllWork(o)
    ensures Restore.StopAll(s, o, i).ok
    decreases |s.fleet.nodes| - i
  { if i < |s.fleet.nodes| { FineStopAll(Next(s, o, Cmd.Down(i)), o, i + 1); } }

  lemma {:induction false} FineUpload(s: Session, o: Oracle)
    requires AllWork(o)
    ensures Restore.Upload(s, o).ok
  {
    var s1 := Next(s, o, Put);
    assert s1.fleet.dump.Exact?;
    var s2 := Next(s1, o, Chmod);
    assert s2.fleet == s1.fleet;
    assert LastPassed(Next(s2, o, Hash));
  }

  lemma {:induction false} FineSwap(s: Session, o: Oracle, whole: bool)
    requires AllWork(o)
    ensures Restore.Noted(Restore.Swap(s, o, whole), o).ok
  {
    var s2 := Next(Next(s, o, Recreate), o, Load(whole));
    assert s2.fleet.db.data.Loaded?;
    var s4 := Next(Next(s2, o, Remove), o, Reown);
    assert s4.fleet.db.data.Loaded? && s4.fleet.db.data.stray == 0;
    assert LastPassed(Next(s4, o, CountStray));
  }

  lemma {:induction false} FineReplace(s: Session, o: Oracle, d: Restore.Dump)
    requires |s.fleet.nodes| > 0 && AllWork(o) && d.scans
    ensures Restore.Replace(s, o, d).ok
  {
    FineSurvey(s, o, d);
    FineStopAll(Restore.Survey(s, o, d).s, o, 0);
    FineUpload(Down(s, o, d), o);
    ReplaceUnfolds(s, o, d);
    var g := Restore.Stage(s, o, d);
    FineSwap(g.s, o, d.keeps(g.answer));
  }

  /** Then nothing but the dump's data decides: every such restore of a file not all of whose data
      arrives, for whichever of the three reasons, starts on what did. */
  lemma {:induction false} NothingElseStopsIt(s: Session, o: Oracle, file: Restore.File, polls: nat)
    requires NeverHalfUp(s.fleet, Complete) && HasLeader(s.fleet) && AllWork(o) && file.scans
    ensures HalfUpSince(s, Restore.Apply(s, o, Restore.Ready(Restore.DumpOf(file), polls)).s) <==>
            !FileArrives(s, o, file)
  {
    var d := Restore.DumpOf(file);
    FineReplace(s, o, d);
    RestoreProofs.ReplaceKeepsRoster(s, o, d);
    SameLeaderIndex(s.fleet.nodes, Restore.Replace(s, o, d).s.fleet.nodes);
    RestoreOfFileExactly(s, o, file, polls);
  }

  lemma SameLeaderIndex(w: seq<Node>, w': seq<Node>)
    requires |w'| == |w| && forall k :: 0 <= k < |w| ==> w'[k].leader == w[k].leader
    ensures LeaderIndex(w') == LeaderIndex(w)
  {}

  // ------------------------------------------------------------------ the uploaded dump

  predicate Rid(r: Reply) { r.code.Zero? || r.took }

  /** What becomes of a dump whose upload's answers begin at c: verified, it goes if the drop works, the
      load's command returns and the removal removes it; a mismatch goes if its removal does; and it stays
      if a call is lost before the comparison. */
  predicate Gone(o: Oracle, c: nat) {
    && !o(c + 1).code.Lost? && !o(c + 2).code.Lost?
    && if Verified(o, c) then Swept(o, c + 3) else Rid(o(c + 3))
  }

  predicate Swept(o: Oracle, c: nat) { o(c).code.Zero? && !o(c + 1).code.Lost? && Rid(o(c + 2)) }

  predicate Verified(o: Oracle, c: nat) { o(c).took && o(c + 2).yes }

  /** An upload that returns has verified the dump. */
  lemma {:induction false} UploadVerifies(s: Session, o: Oracle)
    requires Restore.Upload(s, o).ok
    ensures var u := Restore.Upload(s, o); var c := s.clock;
      && u.s.fleet.dump.Exact? && u.s.clock == c + 3
      && o(c).code.Zero? && Verified(o, c) && !o(c + 1).code.Lost? && !o(c + 2).code.Lost?
  {
    var s1 := Next(s, o, Put);
    assert s1.clock == s.clock + 1 && (s1.fleet.dump.Exact? ==> o(s.clock).took);
    var s2 := Next(s1, o, Chmod);
    assert s2.fleet == s1.fleet;
    assert Next(s2, o, Hash).fleet == s1.fleet;
  }

  lemma {:induction false} FailedUploadLeaves(s: Session, o: Oracle)
    requires !Restore.Upload(s, o).ok && o(s.clock).code.Zero?
    ensures Gone(o, s.clock) ==> Restore.Upload(s, o).s.fleet.dump.NoCopy?
    ensures !Gone(o, s.clock) ==> !Restore.Upload(s, o).s.fleet.dump.NoCopy?
  {
    var s1 := Next(s, o, Put);
    assert !s1.fleet.dump.NoCopy? && s1.clock == s.clock + 1 && (s1.fleet.dump.Exact? <==> o(s.clock).took);
    var s2 := Next(s1, o, Chmod);
    assert s2.fleet == s1.fleet;
    assert Next(s2, o, Hash).fleet == s1.fleet;
  }

  /** A transfer that fails leaves what was there, or part of itself. */
  lemma {:induction false} FailedPutLeaves(s: Session, o: Oracle)
    requires !o(s.clock).code.Zero?
    ensures var u := Restore.Upload(s, o);
      !u.ok && u.s.fleet.dump == if o(s.clock).took then Corrupt else s.fleet.dump
  {}

  /** Whether there is no dump in the end, given what there was before the transfer at c. */
  predicate GoneFrom(o: Oracle, c: nat, before: Copy) {
    if o(c).code.Zero? then Gone(o, c) else !o(c).took && before.NoCopy?
  }

  lemma {:induction false} UploadLeaves(s: Session, o: Oracle, u: Run)
    requires u == Restore.Upload(s, o)
    ensures u.ok ==> u.s.fleet.dump.Exact? && u.s.clock == s.clock + 3
    ensures u.ok && GoneFrom(o, s.clock, s.fleet.dump) ==> Swept(o, u.s.clock)
    ensures u.ok && !GoneFrom(o, s.clock, s.fleet.dump) ==> !Swept(o, u.s.clock)
    ensures !u.ok && GoneFrom(o, s.clock, s.fleet.dump) ==> u.s.fleet.dump.NoCopy?
    ensures !u.ok && !GoneFrom(o, s.clock, s.fleet.dump) ==> !u.s.fleet.dump.NoCopy?
  {
    if u.ok { UploadVerifies(s, o); }
    else if o(s.clock).code.Zero? { FailedUploadLeaves(s, o); }
    else { FailedPutLeaves(s, o); }
  }

  lemma OwnLeaves(s: Session, o: Oracle)
    ensures Next(s, o, Reown).fleet.dump == s.fleet.dump
    ensures Next(Next(s, o, Reown), o, CountStray).fleet.dump == s.fleet.dump
  {}

  lemma {:induction false} LoadLeaves(s: Session, o: Oracle, whole: bool, s1: Session, s2: Session, s3: Session)
    requires s.fleet.dump.Exact?
    requires s1 == Next(s, o, Recreate) && s2 == Next(s1, o, Load(whole)) && s3 == Next(s2, o, Remove)
    ensures s1.fleet.dump.Exact? && LastCode(s1) == o(s.clock).code
    ensures s2.fleet.dump.Exact? && LastCode(s2) == o(s.clock + 1).code
    ensures Rid(o(s.clock + 2)) ==> s3.fleet.dump.NoCopy?
    ensures !Rid(o(s.clock + 2)) ==> s3.fleet.dump.Exact?
  {
    assert s1.clock == s.clock + 1 && s2.clock == s.clock + 2;
  }

  lemma {:induction false} SwapLeaves(s: Session, o: Oracle, whole: bool)
    requires s.fleet.dump.Exact?
    ensures Swept(o, s.clock) ==> Restore.Swap(s, o, whole).s.fleet.dump.NoCopy?
    ensures !Swept(o, s.clock) ==> Restore.Swap(s, o, whole).s.fleet.dump.Exact?
  {
    var s1 := Next(s, o, Recreate);
    var s2 := Next(s1, o, Load(whole));
    var s3 := Next(s2, o, Remove);
    LoadLeaves(s, o, whole, s1, s2, s3);
    OwnLeaves(s3, o);
  }

  lemma NotedLeaves(w: Run, o: Oracle)
    ensures Restore.Noted(w, o).s.fleet.dump == w.s.fleet.dump
  {}

  /** Where the restore comes to upload: the whole fleet is down. */
  predicate Uploads(s: Session, o: Oracle, d: Restore.Dump) {
    Restore.Survey(s, o, d).ok && Restore.StopAll(Restore.Survey(s, o, d).s, o, 0).ok
  }

  function Down(s: Session, o: Oracle, d: Restore.Dump): Session {
    Restore.StopAll(Restore.Survey(s, o, d).s, o, 0).s
  }

  lemma {:induction false} StopAllLeaves(s: Session, o: Oracle, i: nat)
    ensures Restore.StopAll(s, o, i).s.fleet.dump == s.fleet.dump
    decreases |s.fleet.nodes| - i
  {
    if i < |s.fleet.nodes| {
      var s1 := Next(s, o, Cmd.Down(i));
      if LastCode(s1).Zero? { StopAllLeaves(s1, o, i + 1); }
    }
  }

  lemma {:induction false} DownLeaves(s: Session, o: Oracle, d: Restore.Dump)
    ensures Down(s, o, d).fleet.dump == s.fleet.dump
    ensures !Uploads(s, o, d) ==> !Restore.Stage(s, o, d).ok && Restore.Stage(s, o, d).s.fleet.dump == s.fleet.dump
    ensures Uploads(s, o, d) ==> Restore.Stage(s, o, d).ok == Restore.Upload(Down(s, o, d), o).ok
    ensures Uploads(s, o, d) ==> Restore.Stage(s, o, d).s == Restore.Upload(Down(s, o, d), o).s
  {
    RestoreProofs.SurveyGated(s, o, d, 0, 0);
    StopAllLeaves(Restore.Survey(s, o, d).s, o, 0);
  }

  /** Whether there is no dump on the node in the end. */
  predicate GoneAfter(s: Session, o: Oracle, d: Restore.Dump) {
    if !Uploads(s, o, d) then s.fleet.dump.NoCopy?
    else GoneFrom(o, Down(s, o, d).clock, s.fleet.dump)
  }

  lemma {:induction false} StageLeaves(s: Session, o: Oracle, d: Restore.Dump, g: Restore.Surveyed)
    requires g == Restore.Stage(s, o, d)
    ensures g.ok ==> g.s.fleet.dump.Exact?
    ensures g.ok && GoneAfter(s, o, d) ==> Swept(o, g.s.clock)
    ensures g.ok && !GoneAfter(s, o, d) ==> !Swept(o, g.s.clock)
    ensures !g.ok && GoneAfter(s, o, d) ==> g.s.fleet.dump.NoCopy?
    ensures !g.ok && !GoneAfter(s, o, d) ==> !g.s.fleet.dump.NoCopy?
  {
    DownLeaves(s, o, d);
    if Uploads(s, o, d) { UploadLeaves(Down(s, o, d), o, Restore.Upload(Down(s, o, d), o)); }
  }

  lemma {:induction false} ReplaceLeaves(s: Session, o: Oracle, d: Restore.Dump)
    ensures GoneAfter(s, o, d) ==> Restore.Replace(s, o, d).s.fleet.dump.NoCopy?
    ensures !GoneAfter(s, o, d) ==> !Restore.Replace(s, o, d).s.fleet.dump.NoCopy?
  {
    var g := Restore.Stage(s, o, d);
    StageLeaves(s, o, d, g);
    ReplaceUnfolds(s, o, d);
    if g.ok {
      SwapLeaves(g.s, o, d.keeps(g.answer));
      NotedLeaves(Restore.Swap(g.s, o, d.keeps(g.answer)), o);
    }
  }

  /** Over a whole restore: there is no dump on the node in the end exactly as its answers say.  Once it
      has been put there, a call lost at chmod or at the digest leaves it there, and so does a drop that
      fails, a load that is never heard of again, and a removal that fails. */
  lemma {:induction false} DumpGoneExactly(s: Session, o: Oracle, d: Restore.Dump, polls: nat)
    ensures Restore.Apply(s, o, Restore.Ready(d, polls)).s.fleet.dump.NoCopy? <==> GoneAfter(s, o, d)
  {
    ReplaceLeaves(s, o, d);
    RestoreProofs.ReviveKeepsStore(Restore.Replace(s, o, d).s, o, polls);
  }
}
