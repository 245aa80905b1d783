/** What holds at every step of any sequence of authentik applies and restores, each of which may
    return, raise, or be cut off at any command: a database is dropped only under a stopped fleet with
    a verified dump in hand; nobody but the bootstrap leader ever migrates; and no container exists
    unless the database is as whole as the restores so far can have left it. */
module Campaign {
  import opened World
  import opened Rollout
  import RolloutProofs
  import Restore

  // ------------------------------------------------------------------ the invariants

  /** Nobody but node l has been started against an unmigrated schema. */
  ghost predicate SingleMigrator(w: Fleet, l: nat) {
    && OneLeader(w.nodes, l)
    && w.db.migrators <= {l}
    && (!w.db.migrated ==> forall k :: 0 <= k < |w.nodes| && k != l ==> Quiet(w.nodes[k]))
  }

  /** What is asked of a database before anything may be started on it: nothing; that it is untouched,
      or a load every table of which the application owns; that such a load is complete, too. */
  datatype Level = Any | Owned | Complete

  predicate Good(d: Data, level: Level) {
    level.Any? || d.Untouched? || (d.Loaded? && d.stray == 0 && (level.Complete? ==> d.complete))
  }

  predicate Whole(d: Data) { Good(d, Complete) }

  ghost predicate AllQuiet(w: Fleet) { forall k :: 0 <= k < |w.nodes| ==> Quiet(w.nodes[k]) }

  /** Containers exist only on a database of that level. */
  ghost predicate NeverHalfUp(w: Fleet, level: Level) { AllQuiet(w) || Good(w.db.data, level) }

  /** Which invariants are being kept: that `leader` alone migrates, if `solo`; and the level. */
  datatype Care = Care(leader: nat, solo: bool, level: Level)

  ghost predicate Inv(w: Fleet, c: Care) {
    (c.solo ==> SingleMigrator(w, c.leader)) && NeverHalfUp(w, c.level)
  }

  ghost predicate DropGuarded(st: Step) {
    st.cmd.Recreate? ==> AllQuiet(st.before) && st.before.dump.Exact?
  }

  ghost predicate KeptSince(s: Session, s': Session, c: Care) {
    && Extends(s, s')
    && Inv(s'.fleet, c)
    && forall k :: |s.trace| <= k < |s'.trace| ==> Inv(s'.trace[k].after, c) && DropGuarded(s'.trace[k])
  }

  lemma KeptJoin(s0: Session, s1: Session, s2: Session, c: Care)
    requires KeptSince(s0, s1, c) && KeptSince(s1, s2, c)
    ensures KeptSince(s0, s2, c)
  {
    forall k | |s0.trace| <= k < |s2.trace|
      ensures Inv(s2.trace[k].after, c) && DropGuarded(s2.trace[k])
    {
      if k < |s1.trace| { assert s2.trace[k] == s1.trace[k]; }
    }
  }

  lemma KeptStep(s: Session, o: Oracle, cmd: Cmd, c: Care)
    requires Inv(Next(s, o, cmd).fleet, c)
    requires cmd.Recreate? ==> AllQuiet(s.fleet) && s.fleet.dump.Exact?
    ensures KeptSince(s, Next(s, o, cmd), c)
  {}

  lemma {:induction false} FilesKeep(s: Session, s': Session, c: Care)
    requires Inv(s.fleet, c) && RolloutProofs.FilesOnlySince(s, s')
    ensures KeptSince(s, s', c)
  {
    FilesKeepInv(s.fleet, s'.fleet, c);
    forall k | |s.trace| <= k < |s'.trace|
      ensures Inv(s'.trace[k].after, c) && DropGuarded(s'.trace[k])
    { FilesKeepInv(s.fleet, s'.trace[k].after, c); }
  }

  lemma FilesKeepInv(w: Fleet, w': Fleet, c: Care)
    requires Inv(w, c) && RolloutProofs.FilesOnly(w, w')
    ensures Inv(w', c)
  {
    assert forall k :: 0 <= k < |w.nodes| ==> (Quiet(w'.nodes[k]) <==> Quiet(w.nodes[k]));
  }

  // ------------------------------------------------------------------ starting and gating

  /** May node i be started now? */
  ghost predicate MayStart(w: Fleet, i: nat, c: Care) {
    && i < |w.nodes| && (c.solo ==> i == c.leader || w.db.migrated) && Good(w.db.data, c.level)
  }

  predicate Starts(cmd: Cmd, i: nat) {
    cmd == Restart(i) || cmd == Up(i) || cmd == UpOnly(i, Worker) || cmd == UpOnly(i, Server)
  }

  ghost predicate SameData(w: Fleet, w': Fleet) {
    w'.db.data == w.db.data && (w.db.migrated ==> w'.db.migrated)
  }

  ghost predicate Kept(s: Session, r: Session, c: Care) { KeptSince(s, r, c) && SameData(s.fleet, r.fleet) }

  lemma KeptTransitive(s: Session, m: Session, r: Session, c: Care)
    requires Kept(s, m, c) && Kept(m, r, c)
    ensures Kept(s, r, c)
  { KeptJoin(s, m, r, c); }

  lemma {:induction false} StartKeeps(s: Session, o: Oracle, cmd: Cmd, i: nat, c: Care)
    requires Inv(s.fleet, c) && MayStart(s.fleet, i, c) && Starts(cmd, i)
    ensures Kept(s, Next(s, o, cmd), c)
  { KeptStep(s, o, cmd, c); }

  lemma {:induction false} PollKeeps(s: Session, o: Oracle, i: nat, pair: bool, c: Care)
    requires Inv(s.fleet, c) && i < |s.fleet.nodes|
    ensures Kept(s, Next(s, o, Poll(i, pair)), c)
    ensures LastPassed(Next(s, o, Poll(i, pair))) ==> Next(s, o, Poll(i, pair)).fleet.db.migrated
  {
    var s' := Next(s, o, Poll(i, pair));
    assert forall k :: 0 <= k < |s.fleet.nodes| ==>
      (Quiet(s'.fleet.nodes[k]) <==> Quiet(s.fleet.nodes[k]));
    KeptStep(s, o, Poll(i, pair), c);
  }

  lemma {:induction false} GateKeeps(s: Session, o: Oracle, i: nat, pair: bool, polls: nat, c: Care)
    requires Inv(s.fleet, c) && i < |s.fleet.nodes|
    ensures var g := Gate(s, o, i, pair, polls);
      Kept(s, g.s, c) && (g.verdict.Open? ==> g.s.fleet.db.migrated)
    decreases polls
  {
    if polls > 0 {
      PollKeeps(s, o, i, pair, c);
      var s1 := Next(s, o, Poll(i, pair));
      GateKeeps(s1, o, i, pair, polls - 1, c);
      KeptTransitive(s, s1, Gate(s1, o, i, pair, polls - 1).s, c);
    }
  }

  /** What starting a node and gating on it gives. */
  ghost predicate Risen(s: Session, r: Run, c: Care) {
    Kept(s, r.s, c) && (r.ok ==> r.s.fleet.db.migrated)
  }

  lemma {:induction false} StartAndGateKeeps(s: Session, o: Oracle, cmd: Cmd, i: nat, pair: bool, polls: nat, c: Care)
    requires Inv(s.fleet, c) && MayStart(s.fleet, i, c) && Starts(cmd, i)
    ensures var s1 := Next(s, o, cmd); var g := Gate(s1, o, i, pair, polls);
      Risen(s, Run(g.s, g.verdict.Open?), c) && Risen(s, Run(s1, false), c)
  {
    StartKeeps(s, o, cmd, i, c);
    var s1 := Next(s, o, cmd);
    GateKeeps(s1, o, i, pair, polls, c);
    KeptTransitive(s, s1, Gate(s1, o, i, pair, polls).s, c);
  }

  lemma {:induction false} StartServiceKeeps(s: Session, o: Oracle, l: nat, service: Service, polls: nat, c: Care)
    requires Inv(s.fleet, c) && MayStart(s.fleet, l, c)
    ensures Risen(s, Restore.StartService(s, o, l, service, polls), c)
  { StartAndGateKeeps(s, o, UpOnly(l, service), l, service.Server?, polls, c); }

  /** Any node may join. */
  ghost predicate MayJoin(w: Fleet, c: Care) {
    Inv(w, c) && (c.solo ==> w.db.migrated) && Good(w.db.data, c.level)
  }

  ghost predicate VisitsKeep(visit: Visit, c: Care) {
    forall a: Session, k: nat :: k < |a.fleet.nodes| && MayJoin(a.fleet, c) ==> Kept(a, visit(a, k).s, c)
  }

  lemma {:induction false} OthersKeep(s: Session, visit: Visit, i: nat, c: Care, r: Run)
    requires Proceeds(visit) && VisitsKeep(visit, c)
    requires MayJoin(s.fleet, c) && r == Others(s, visit, i)
    ensures Kept(s, r.s, c)
    decreases |s.fleet.nodes| - i
  {
    if i < |s.fleet.nodes| {
      if s.fleet.nodes[i].leader {
        OthersKeep(s, visit, i + 1, c, r);
      } else {
        var v := visit(s, i);
        if v.ok {
          OthersKeep(v.s, visit, i + 1, c, r);
          KeptTransitive(s, v.s, r.s, c);
        }
      }
    }
  }

  // ------------------------------------------------------------------ the authentik phase

  lemma {:induction false} CycleKeeps(s: Session, o: Oracle, i: nat, c: Care)
    requires Inv(s.fleet, c) && MayStart(s.fleet, i, c)
    ensures Risen(s, Cycle(s, o, i), c)
  { StartAndGateKeeps(s, o, Restart(i), i, true, HEALTHY_POLLS, c); }

  lemma {:induction false} FollowKeeps(s: Session, o: Oracle, c: Care)
    requires MayJoin(s.fleet, c)
    ensures Kept(s, Follow(s, o).s, c)
  {
    forall a: Session, k: nat | k < |a.fleet.nodes| && MayJoin(a.fleet, c)
      ensures Kept(a, Cycles(o)(a, k).s, c)
    { CycleKeeps(a, o, k, c); }
    OthersKeep(s, Cycles(o), 0, c, Follow(s, o));
  }

  lemma {:induction false} RollKeeps(s: Session, o: Oracle, changed: map<string, bool>, i: nat, c: Care)
    requires i <= |s.fleet.nodes| && Inv(s.fleet, c) && Good(s.fleet.db.data, c.level)
    requires c.solo ==> s.fleet.db.migrated || |s.fleet.nodes| == 1
    ensures Kept(s, Roll(s, o, changed, i).s, c)
    decreases i
  {
    if i > 0 {
      var j: nat := i - 1;
      if !Flagged(changed, s.fleet.nodes[j]) {
        RollKeeps(s, o, changed, j, c);
      } else {
        CycleKeeps(s, o, j, c);
        var v := Cycle(s, o, j);
        if v.ok {
          RollKeeps(v.s, o, changed, j, c);
          KeptTransitive(s, v.s, Roll(v.s, o, changed, j).s, c);
        }
      }
    }
  }

  lemma {:induction false} BootKeeps(s: Session, o: Oracle, c: Care)
    requires Inv(s.fleet, c) && Good(s.fleet.db.data, c.level)
    ensures Kept(s, Boot(s, o).s, c)
  {
    var l := LeaderIndex(s.fleet.nodes);
    if l == |s.fleet.nodes| { return; }
    assert c.solo ==> l == c.leader;
    CycleKeeps(s, o, l, c);
    var v := Cycle(s, o, l);
    if v.ok {
      FollowKeeps(v.s, o, c);
      KeptTransitive(s, v.s, Follow(v.s, o).s, c);
    }
  }

  /** An apply begun on a database of that level keeps the invariants, at every step. */
  lemma {:induction false} AuthentikKeeps(s: Session, o: Oracle, t: Target, c: Care)
    requires Inv(s.fleet, c) && Good(s.fleet.db.data, c.level)
    ensures Kept(s, Rollout.Apply(s, o, t).s, c)
  {
    var a := AllRunning(s, o, 0);
    var g := Render(a.s, o, t);
    RenderKeeps(s, o, t, c);
    if g.ok {
      if a.ok {
        if c.solo { AllPresentMeansMigrated(s.fleet, c.leader); }
        RollKeeps(g.s, o, g.changed, |g.s.fleet.nodes|, c);
        KeptTransitive(s, g.s, Roll(g.s, o, g.changed, |g.s.fleet.nodes|).s, c);
      } else {
        BootKeeps(g.s, o, c);
        KeptTransitive(s, g.s, Boot(g.s, o).s, c);
      }
    }
  }

  lemma {:induction false} RenderKeeps(s: Session, o: Oracle, t: Target, c: Care)
    requires Inv(s.fleet, c)
    ensures var a := AllRunning(s, o, 0); var g := Render(a.s, o, t);
      && Kept(s, g.s, c) && RolloutProofs.FilesOnly(s.fleet, g.s.fleet)
      && (a.ok ==> forall k :: 0 <= k < |s.fleet.nodes| ==> s.fleet.nodes[k].server.Present?)
  {
    RolloutProofs.AllRunningIdle(s, o, 0);
    var a := AllRunning(s, o, 0);
    RolloutProofs.RenderFilesOnly(a.s, o, t);
    RolloutProofs.FilesOnlyTransitive(s, a.s, Render(a.s, o, t).s);
    FilesKeep(s, Render(a.s, o, t).s, c);
  }

  lemma AllPresentMeansMigrated(w: Fleet, l: nat)
    requires SingleMigrator(w, l)
    requires forall k :: 0 <= k < |w.nodes| ==> w.nodes[k].server.Present?
    ensures w.db.migrated || |w.nodes| == 1
  {
    var k := if l == 0 then 1 else 0;
    if k < |w.nodes| { assert !Quiet(w.nodes[k]); }
  }

  // ------------------------------------------------------------------ the restore phase

  lemma {:induction false} FindPrimaryKeeps(s: Session, o: Oracle, i: nat, c: Care)
    requires Inv(s.fleet, c)
    ensures Kept(s, Restore.FindPrimary(s, o, i).s, c)
    ensures Restore.FindPrimary(s, o, i).s.fleet == s.fleet
    decreases |s.fleet.nodes| - i
  {
    if i < |s.fleet.nodes| {
      KeptStep(s, o, AskPrimary(i), c);
      var s1 := Next(s, o, AskPrimary(i));
      if !LastCode(s1).Lost? && !LastPassed(s1) {
        FindPrimaryKeeps(s1, o, i + 1, c);
        KeptTransitive(s, s1, Restore.FindPrimary(s1, o, i + 1).s, c);
      }
    }
  }

  lemma {:induction false} SurveyKeeps(s: Session, o: Oracle, d: Restore.Dump, c: Care)
    requires Inv(s.fleet, c)
    ensures Kept(s, Restore.Survey(s, o, d).s, c)
    ensures Restore.Survey(s, o, d).s.fleet == s.fleet
  {
    FindPrimaryKeeps(s, o, 0, c);
    var f := Restore.FindPrimary(s, o, 0);
    KeptStep(f.s, o, AskSettings, c);
    KeptTransitive(s, f.s, Next(f.s, o, AskSettings), c);
  }

  lemma {:induction false} DownKeeps(s: Session, o: Oracle, i: nat, c: Care)
    requires Inv(s.fleet, c) && i < |s.fleet.nodes|
    ensures Kept(s, Next(s, o, Down(i)), c)
  {
    var s' := Next(s, o, Down(i));
    assert forall k :: 0 <= k < |s.fleet.nodes| && Quiet(s.fleet.nodes[k]) ==> Quiet(s'.fleet.nodes[k]);
    KeptStep(s, o, Down(i), c);
  }

  lemma {:induction false} StopAllKeeps(s: Session, o: Oracle, i: nat, c: Care)
    requires i <= |s.fleet.nodes| && Inv(s.fleet, c)
    requires forall k :: 0 <= k < i ==> Quiet(s.fleet.nodes[k])
    ensures var r := Restore.StopAll(s, o, i); Kept(s, r.s, c) && (r.ok ==> AllQuiet(r.s.fleet))
    decreases |s.fleet.nodes| - i
  {
    if i < |s.fleet.nodes| {
      DownKeeps(s, o, i, c);
      var s1 := Next(s, o, Down(i));
      if LastCode(s1).Zero? {
        StopAllKeeps(s1, o, i + 1, c);
        KeptTransitive(s, s1, Restore.StopAll(s1, o, i + 1).s, c);
      }
    }
  }

  predicate LeavesNodes(cmd: Cmd) {
    || cmd.Put? || cmd.Chmod? || cmd.Hash? || cmd.Remove?
    || cmd.Recreate? || cmd.Load? || cmd.Reown? || cmd.CountStray? || cmd.Note?
  }

  /** The fleet is stopped all along. */
  ghost predicate Stopped(s: Session, s': Session, c: Care) { KeptSince(s, s', c) && AllQuiet(s'.fleet) }

  /** A command that leaves the nodes alone, issued under a stopped fleet, breaks nothing. */
  lemma StoppedKeeps(s: Session, o: Oracle, cmd: Cmd, c: Care)
    requires Inv(s.fleet, c) && AllQuiet(s.fleet) && LeavesNodes(cmd)
    requires cmd.Recreate? ==> s.fleet.dump.Exact?
    ensures Stopped(s, Next(s, o, cmd), c)
  {
    var s' := Next(s, o, cmd);
    assert s'.fleet.nodes == s.fleet.nodes && s'.fleet.db.migrators <= s.fleet.db.migrators;
    KeptStep(s, o, cmd, c);
  }

  lemma StoppedTwice(s: Session, o: Oracle, cmd: Cmd, m: Session, c: Care)
    requires Stopped(s, m, c) && LeavesNodes(cmd) && !cmd.Recreate?
    ensures Stopped(s, Next(m, o, cmd), c)
  {
    StoppedKeeps(m, o, cmd, c);
    KeptJoin(s, m, Next(m, o, cmd), c);
  }

  lemma {:induction false} UploadKeeps(s: Session, o: Oracle, c: Care)
    requires Inv(s.fleet, c) && AllQuiet(s.fleet)
    ensures var r := Restore.Upload(s, o); Stopped(s, r.s, c) && (r.ok ==> r.s.fleet.dump.Exact?)
  {
    StoppedKeeps(s, o, Put, c);
    var s1 := Next(s, o, Put);
    StoppedTwice(s, o, Chmod, s1, c);
    var s2 := Next(s1, o, Chmod);
    StoppedTwice(s, o, Hash, s2, c);
    StoppedTwice(s, o, Remove, Next(s2, o, Hash), c);
  }

  lemma {:induction false} LoadLoads(s: Session, o: Oracle, whole: bool)
    requires s.fleet.dump.Exact?
    ensures var s2 := Next(Next(s, o, Recreate), o, Load(whole));
      LastCode(s2).Zero? ==>
        s2.fleet.db.data.Loaded? && s2.fleet.db.data.complete == (whole && o(s.clock + 1).through)
  {
    var s1 := Next(s, o, Recreate);
    assert s1.fleet.dump.Exact? && s1.clock == s.clock + 1;
  }

  lemma {:induction false} OwnLoads(s: Session, o: Oracle)
    requires s.fleet.db.data.Loaded?
    ensures var s5 := Next(Next(Next(s, o, Remove), o, Reown), o, CountStray);
      LastPassed(s5) ==> s5.fleet.db.data == Loaded(0, s.fleet.db.data.complete)
  {
    var s3 := Next(s, o, Remove);
    assert s3.fleet.db == s.fleet.db;
    var s4 := Next(s3, o, Reown);
    assert s4.fleet.db.data.Loaded? && s4.fleet.db.data.complete == s.fleet.db.data.complete;
  }

  /** What a swap that returns has put in the database. */
  lemma {:induction false} SwapLoads(s: Session, o: Oracle, whole: bool)
    requires s.fleet.dump.Exact? && Restore.Swap(s, o, whole).ok
    ensures Restore.Swap(s, o, whole).s.fleet.db.data == Loaded(0, whole && o(s.clock + 1).through)
  {
    LoadLoads(s, o, whole);
    OwnLoads(Next(Next(s, o, Recreate), o, Load(whole)), o);
  }

  lemma {:induction false} SwapKeeps(s: Session, o: Oracle, whole: bool, c: Care)
    requires Inv(s.fleet, c) && AllQuiet(s.fleet) && s.fleet.dump.Exact?
    ensures Stopped(s, Restore.Swap(s, o, whole).s, c)
  {
    StoppedKeeps(s, o, Recreate, c);
    var s1 := Next(s, o, Recreate);
    StoppedTwice(s, o, Load(whole), s1, c);
    var s2 := Next(s1, o, Load(whole));
    StoppedTwice(s, o, Remove, s2, c);
    var s3 := Next(s2, o, Remove);
    StoppedTwice(s, o, Reown, s3, c);
    StoppedTwice(s, o, CountStray, Next(s3, o, Reown), c);
  }

  lemma {:induction false} StageKeeps(s: Session, o: Oracle, d: Restore.Dump, c: Care)
    requires Inv(s.fleet, c)
    ensures var g := Restore.Stage(s, o, d);
      KeptSince(s, g.s, c) && (g.ok ==> AllQuiet(g.s.fleet) && g.s.fleet.dump.Exact?)
  {
    SurveyKeeps(s, o, d, c);
    var f := Restore.Survey(s, o, d);
    if !f.ok { return; }
    StopAllKeeps(f.s, o, 0, c);
    var h := Restore.StopAll(f.s, o, 0);
    KeptJoin(s, f.s, h.s, c);
    if !h.ok { return; }
    UploadKeeps(h.s, o, c);
    KeptJoin(s, h.s, Restore.Upload(h.s, o).s, c);
  }

  lemma {:induction false} NotedKeeps(s: Session, o: Oracle, whole: bool, c: Care)
    requires Inv(s.fleet, c) && AllQuiet(s.fleet) && s.fleet.dump.Exact?
    ensures Stopped(s, Restore.Noted(Restore.Swap(s, o, whole), o).s, c)
  {
    SwapKeeps(s, o, whole, c);
    StoppedTwice(s, o, Note, Restore.Swap(s, o, whole).s, c);
  }

  /** What a swap that returns, noted, has put in the database. */
  lemma {:induction false} NotedLoads(s: Session, o: Oracle, whole: bool, r: Run)
    requires s.fleet.dump.Exact? && r == Restore.Noted(Restore.Swap(s, o, whole), o) && r.ok
    ensures LoadedAs(r, true) || LoadedAs(r, false)
    ensures whole && o(s.clock + 1).through ==> LoadedAs(r, true)
    ensures !whole || !o(s.clock + 1).through ==> LoadedAs(r, false)
  { SwapLoads(s, o, whole); }

  predicate LoadedAs(r: Run, complete: bool) { r.s.fleet.db.data == Loaded(0, complete) }

  /** What replacing the database is once the dump is staged. */
  lemma ReplaceUnfolds(s: Session, o: Oracle, d: Restore.Dump)
    ensures var g := Restore.Stage(s, o, d);
      && (g.ok ==> Restore.Replace(s, o, d) == Restore.Noted(Restore.Swap(g.s, o, d.keeps(g.answer)), o))
      && (!g.ok ==> Restore.Replace(s, o, d) == Run(g.s, false))
  {}

  /** Replacing the database keeps the invariants; if it returns, the fleet is stopped. */
  lemma {:induction false} ReplaceKeeps(s: Session, o: Oracle, d: Restore.Dump, c: Care)
    requires Inv(s.fleet, c)
    ensures var r := Restore.Replace(s, o, d); KeptSince(s, r.s, c) && (r.ok ==> AllQuiet(r.s.fleet))
  {
    StageKeeps(s, o, d, c);
    var g := Restore.Stage(s, o, d);
    ReplaceUnfolds(s, o, d);
    if g.ok {
      NotedKeeps(g.s, o, d.keeps(g.answer), c);
      KeptJoin(s, g.s, Restore.Replace(s, o, d).s, c);
    }
  }

  lemma StageVerifies(s: Session, o: Oracle, d: Restore.Dump)
    ensures Restore.Stage(s, o, d).ok ==> Restore.Stage(s, o, d).s.fleet.dump.Exact?
  { StageKeeps(s, o, d, Care(0, false, Any)); }

  lemma ReplacedOk(s: Session, o: Oracle, d: Restore.Dump, g: Restore.Surveyed, whole: bool, r: Run)
    requires g == Restore.Stage(s, o, d) && whole == d.keeps(g.answer) && r == Restore.Replace(s, o, d) && r.ok
    ensures g.ok && r == Restore.Noted(Restore.Swap(g.s, o, whole), o) && g.s.fleet.dump.Exact?
  {
    ReplaceUnfolds(s, o, d);
    StageVerifies(s, o, d);
  }

  lemma ArrivesMeans(s: Session, o: Oracle, d: Restore.Dump, g: Restore.Surveyed, whole: bool)
    requires g == Restore.Stage(s, o, d) && whole == d.keeps(g.answer)
    ensures Restore.Arrives(s, o, d) ==> whole && o(g.s.clock + 1).through
    ensures whole && o(g.s.clock + 1).through ==> Restore.Arrives(s, o, d)
  {}

  /** A replacement that returns is a swap from a verified dump. */
  lemma ReplacedBy(s: Session, o: Oracle, d: Restore.Dump, r: Run) returns (m: Session, whole: bool)
    requires r == Restore.Replace(s, o, d) && r.ok
    ensures m.fleet.dump.Exact? && r == Restore.Noted(Restore.Swap(m, o, whole), o)
    ensures Restore.Arrives(s, o, d) ==> whole && o(m.clock + 1).through
    ensures whole && o(m.clock + 1).through ==> Restore.Arrives(s, o, d)
  {
    var g := Restore.Stage(s, o, d);
    m, whole := g.s, d.keeps(g.answer);
    ReplacedOk(s, o, d, g, whole, r);
    ArrivesMeans(s, o, d, g, whole);
  }

  /** If it returns, the database is the dump with no stray table, complete exactly if all of its data
      arrived. */
  lemma {:induction false} ReplaceLoads(s: Session, o: Oracle, d: Restore.Dump, r: Run)
    requires r == Restore.Replace(s, o, d) && r.ok
    ensures Restore.Arrives(s, o, d) ==> LoadedAs(r, true)
    ensures !Restore.Arrives(s, o, d) ==> LoadedAs(r, false)
  {
    var m, whole := ReplacedBy(s, o, d, r);
    NotedLoads(m, o, whole, r);
  }

  lemma {:induction false} JoinOthersKeeps(s: Session, o: Oracle, c: Care)
    requires MayJoin(s.fleet, c)
    ensures Kept(s, Restore.JoinOthers(s, o).s, c)
  {
    forall a: Session, k: nat | k < |a.fleet.nodes| && MayJoin(a.fleet, c)
      ensures Kept(a, Restore.Joins(o)(a, k).s, c)
    { StartAndGateKeeps(a, o, Up(k), k, true, HEALTHY_POLLS, c); }
    OthersKeep(s, Restore.Joins(o), 0, c, Restore.JoinOthers(s, o));
  }

  lemma {:induction false} ReviveKeeps(s: Session, o: Oracle, polls: nat, c: Care)
    requires Inv(s.fleet, c) && Good(s.fleet.db.data, c.level)
    ensures Kept(s, Restore.Revive(s, o, polls).s, c)
  {
    var l := LeaderIndex(s.fleet.nodes);
    if l == |s.fleet.nodes| { return; }
    assert c.solo ==> l == c.leader;
    StartServiceKeeps(s, o, l, Worker, polls, c);
    var w := Restore.StartService(s, o, l, Worker, polls);
    if !w.ok { return; }
    StartServiceKeeps(w.s, o, l, Server, HEALTHY_POLLS, c);
    var v := Restore.StartService(w.s, o, l, Server, HEALTHY_POLLS);
    KeptTransitive(s, w.s, v.s, c);
    if !v.ok { return; }
    JoinOthersKeeps(v.s, o, c);
    KeptTransitive(s, v.s, Restore.JoinOthers(v.s, o).s, c);
  }

  /** A restore keeps the invariants at every step, completeness among them if all of the data of a
      dump it goes on to start on arrived. */
  lemma {:induction false} RestoreKeeps(s: Session, o: Oracle, job: Restore.Job, c: Care)
    requires Inv(s.fleet, c) && May(s, o, Restoring(job), c)
    ensures KeptSince(s, Restore.Apply(s, o, job).s, c)
  {
    if job.Ready? {
      ReplaceKeeps(s, o, job.dump, c);
      var w := Restore.Replace(s, o, job.dump);
      if w.ok {
        ReplaceLoads(s, o, job.dump, w);
        ReviveKeeps(w.s, o, job.migrationPolls, c);
        KeptJoin(s, w.s, Restore.Revive(w.s, o, job.migrationPolls).s, c);
      }
    }
  }

  // ------------------------------------------------------------------ any number of runs

  datatype Op = Authentik(target: Target) | Restoring(job: Restore.Job)

  function RunOp(s: Session, o: Oracle, op: Op): (r: Run)
    ensures Extends(s, r.s)
  {
    match op
    case Authentik(t) => Rollout.Apply(s, o, t)
    case Restoring(job) => Restore.Apply(s, o, job)
  }

  /** The operator issues one invocation after another, whether or not the last one returned. */
  function RunAll(s: Session, o: Oracle, ops: seq<Op>): (s': Session)
    decreases |ops|
  {
    if ops == [] then s else RunAll(RunOp(s, o, ops[0]).s, o, ops[1..])
  }

  /** An authentik apply is begun on a database of the level; of a restore nothing is asked unless the
      level is completeness. */
  ghost predicate May(s: Session, o: Oracle, op: Op, c: Care) {
    match op
    case Authentik(_) => Good(s.fleet.db.data, c.level)
    case Restoring(job) =>
      c.level.Complete? && job.Ready? && Restore.Replace(s, o, job.dump).ok ==> Restore.Arrives(s, o, job.dump)
  }

  ghost predicate AllMay(s: Session, o: Oracle, ops: seq<Op>, c: Care)
    decreases |ops|
  { ops != [] ==> May(s, o, ops[0], c) && AllMay(RunOp(s, o, ops[0]).s, o, ops[1..], c) }

  lemma {:induction false} OpKeeps(s: Session, o: Oracle, op: Op, c: Care)
    requires Inv(s.fleet, c) && May(s, o, op, c)
    ensures KeptSince(s, RunOp(s, o, op).s, c)
  {
    match op {
      case Authentik(t) => AuthentikKeeps(s, o, t, c);
      case Restoring(job) => RestoreKeeps(s, o, job, c);
    }
  }

  /** Nothing is asked of the operations. */
  ghost predicate Undemanding(ops: seq<Op>, c: Care) {
    c.level.Any? || (c.level.Owned? && forall op :: op in ops ==> op.Restoring?)
  }

  lemma {:induction false} RunAllKeeps(s: Session, o: Oracle, ops: seq<Op>, c: Care)
    requires Inv(s.fleet, c) && (Undemanding(ops, c) || AllMay(s, o, ops, c))
    ensures KeptSince(s, RunAll(s, o, ops), c)
    decreases |ops|
  {
    if ops != [] {
      assert ops[0] in ops;
      OpKeeps(s, o, ops[0], c);
      var s1 := RunOp(s, o, ops[0]).s;
      RunAllKeeps(s1, o, ops[1..], c);
      KeptJoin(s, s1, RunAll(s1, o, ops[1..]), c);
    }
  }

  /** From a cold fleet, over any mix of bootstraps, rolling applies and restores of one tag, each
      failing or dying anywhere: only the bootstrap leader ever migrates, and no follower has a
      container before the schema is migrated. */
  lemma {:induction false} OnlyTheLeaderMigrates(w: Fleet, o: Oracle, ops: seq<Op>, l: nat)
    requires OneLeader(w.nodes, l)
    requires AllQuiet(w) && !w.db.migrated && w.db.migrators == {}
    ensures forall st :: st in RunAll(Session(w, 0, []), o, ops).trace ==>
              && st.after.db.migrators <= {l}
              && forall k :: 0 <= k < |st.after.nodes| && k != l && !Quiet(st.after.nodes[k]) ==>
                   st.after.db.migrated
  {
    var c := Care(l, true, Any);
    RunAllKeeps(Session(w, 0, []), o, ops, c);
  }

  /** Over any mix of applies and restores, from any fleet, each failing or dying anywhere: the database
      is dropped only with every container gone and the uploaded dump verified. */
  lemma {:induction false} DropsAreGuarded(w: Fleet, o: Oracle, ops: seq<Op>)
    ensures forall st :: st in RunAll(Session(w, 0, []), o, ops).trace && st.cmd.Recreate? ==>
              AllQuiet(st.before) && st.before.dump.Exact?
  {
    var c := Care(0, false, Any);
    var s := Session(w, 0, []);
    RunAllKeeps(s, o, ops, c);
    forall st | st in RunAll(s, o, ops).trace && st.cmd.Recreate?
      ensures AllQuiet(st.before) && st.before.dump.Exact?
    { assert DropGuarded(st); }
  }

  /** Over any sequence of restores of whatever dumps, each failing or dying anywhere: at every step, if
      any container exists then the database is untouched, or was loaded by a psql that stopped at no
      error, with every table owned by the application.  Completeness is another matter. */
  lemma {:induction false} RestoresStartOnOwned(w: Fleet, o: Oracle, ops: seq<Op>)
    requires NeverHalfUp(w, Owned) && forall op :: op in ops ==> op.Restoring?
    ensures forall st :: st in RunAll(Session(w, 0, []), o, ops).trace ==>
              || AllQuiet(st.after) || st.after.db.data.Untouched?
              || (st.after.db.data.Loaded? && st.after.db.data.stray == 0)
  {
    var c := Care(0, false, Owned);
    var s := Session(w, 0, []);
    RunAllKeeps(s, o, ops, c);
    forall st | st in RunAll(s, o, ops).trace ensures AllQuiet(st.after) || Good(st.after.db.data, Owned) {
      assert Inv(st.after, c);
    }
  }

  /** Over any mix of restores all of whose data arrives and applies begun on a whole database, each failing
      or dying anywhere: at every step, a container exists only on a database that is untouched or
      completely loaded and owned. */
  lemma {:induction false} RestoresAreNeverHalfUp(w: Fleet, o: Oracle, ops: seq<Op>)
    requires NeverHalfUp(w, Complete) && AllMay(Session(w, 0, []), o, ops, Care(0, false, Complete))
    ensures forall st :: st in RunAll(Session(w, 0, []), o, ops).trace ==> AllQuiet(st.after) || Whole(st.after.db.data)
  {
    var c := Care(0, false, Complete);
    var s := Session(w, 0, []);
    RunAllKeeps(s, o, ops, c);
    forall st | st in RunAll(s, o, ops).trace ensures AllQuiet(st.after) || Whole(st.after.db.data) {
      assert Inv(st.after, c);
    }
  }

  lemma RunAllStep(s: Session, o: Oracle, ops: seq<Op>, i: nat)
    requires i < |ops|
    ensures RunAll(s, o, ops[i..]) == RunAll(RunOp(s, o, ops[i]).s, o, ops[i + 1..])
  { assert ops[i..][1..] == ops[i + 1..]; }

  method Invoke(op: Operator, what: Op)
    modifies op
    ensures op.View() == RunOp(old(op.View()), op.oracle, what).s
  {
    match what {
      case Authentik(t) => var _ := ApplyAuthentik(op, t);
      case Restoring(job) => var _ := Restore.ApplyRestore(op, job);
    }
  }

  /** The same sequence of invocations, issued. */
  method Operate(op: Operator, ops: seq<Op>)
    modifies op
    ensures op.View() == RunAll(old(op.View()), op.oracle, ops)
  {
    var i := 0;
    while i < |ops|
      invariant 0 <= i <= |ops|
      invariant RunAll(old(op.View()), op.oracle, ops) == RunAll(op.View(), op.oracle, ops[i..])
    {
      RunAllStep(op.View(), op.oracle, ops, i);
      Invoke(op, ops[i]);
      i := i + 1;
    }
  }
}
