/** The order in which a restore brings the nodes back, and what one that returns leaves. */
module RestoreProofs {
  import opened World
  import opened Rollout
  import opened RolloutProofs
  import Restore
  import Campaign

  // ------------------------------------------------------------------ gates in the trace

  /** Some step of the run before the k-th is a poll of node i that passed. */
  ghost predicate PassedBefore(t: seq<Step>, from: nat, k: nat, i: nat, pair: bool) {
    exists j :: from <= j < k && j < |t| && t[j].cmd == Poll(i, pair) && t[j].finding.Pass?
  }

  /** A server is started only once the worker alone has passed its gate on that node, and a whole
      node only once the leader's pair has. */
  ghost predicate Gated(t: seq<Step>, from: nat, k: nat, l: nat)
    requires k < |t|
  {
    && (t[k].cmd.UpOnly? && t[k].cmd.service.Server? ==> PassedBefore(t, from, k, t[k].cmd.node, false))
    && (t[k].cmd.Up? ==> PassedBefore(t, from, k, l, true))
  }

  ghost predicate GatedSince(s: Session, s': Session, from: nat, l: nat) {
    && Extends(s, s')
    && forall k :: |s.trace| <= k < |s'.trace| ==> Gated(s'.trace, from, k, l)
  }

  lemma PassedCarries(t: seq<Step>, t': seq<Step>, from: nat, k: nat, k': nat, i: nat, pair: bool)
    requires t <= t' && k <= k' && PassedBefore(t, from, k, i, pair)
    ensures PassedBefore(t', from, k', i, pair)
  {
    var j :| from <= j < k && j < |t| && t[j].cmd == Poll(i, pair) && t[j].finding.Pass?;
    assert t'[j] == t[j];
  }

  lemma GatedJoin(s: Session, c: Session, s': Session, from: nat, l: nat)
    requires GatedSince(s, c, from, l) && GatedSince(c, s', from, l)
    ensures GatedSince(s, s', from, l)
  {
    forall k | |s.trace| <= k < |s'.trace| ensures Gated(s'.trace, from, k, l) {
      if k < |c.trace| {
        var cmd := c.trace[k].cmd;
        assert s'.trace[k] == c.trace[k] && Gated(c.trace, from, k, l);
        if cmd.UpOnly? && cmd.service.Server? { PassedCarries(c.trace, s'.trace, from, k, k, cmd.node, false); }
        if cmd.Up? { PassedCarries(c.trace, s'.trace, from, k, k, l, true); }
      }
    }
  }

  predicate Plain(cmd: Cmd) { !cmd.Up? && !(cmd.UpOnly? && cmd.service.Server?) }

  lemma PlainStep(s: Session, o: Oracle, cmd: Cmd, from: nat, l: nat)
    requires Plain(cmd)
    ensures GatedSince(s, Next(s, o, cmd), from, l)
  {}

  lemma ServerStep(s: Session, o: Oracle, i: nat, from: nat, l: nat)
    requires PassedBefore(s.trace, from, |s.trace|, i, false)
    ensures GatedSince(s, Next(s, o, UpOnly(i, Server)), from, l)
  {
    var s1 := Next(s, o, UpOnly(i, Server));
    PassedCarries(s.trace, s1.trace, from, |s.trace|, |s.trace|, i, false);
  }

  lemma {:induction false} UpStep(s: Session, o: Oracle, i: nat, from: nat, l: nat)
    requires PassedBefore(s.trace, from, |s.trace|, l, true)
    ensures GatedSince(s, Next(s, o, Up(i)), from, l)
  {
    var s1 := Next(s, o, Up(i));
    PassedCarries(s.trace, s1.trace, from, |s.trace|, |s.trace|, l, true);
  }

  /** A gate only polls, and one that opens has just passed. */
  lemma {:induction false} GateIsGated(s: Session, o: Oracle, i: nat, pair: bool, polls: nat, from: nat, l: nat)
    requires from <= |s.trace|
    ensures var g := Gate(s, o, i, pair, polls);
      && GatedSince(s, g.s, from, l)
      && (g.verdict.Open? ==> PassedBefore(g.s.trace, from, |g.s.trace|, i, pair))
    decreases polls
  {
    if polls > 0 {
      PlainStep(s, o, Poll(i, pair), from, l);
      var s1 := Next(s, o, Poll(i, pair));
      if !LastCode(s1).Lost? && LastPassed(s1) {
        assert s1.trace[|s.trace|].cmd == Poll(i, pair);
      } else if !LastCode(s1).Lost? && !o(s.clock).late {
        GateIsGated(s1, o, i, pair, polls - 1, from, l);
        GatedJoin(s, s1, Gate(s1, o, i, pair, polls - 1).s, from, l);
      }
    }
  }

  lemma {:induction false} FindPrimaryGated(s: Session, o: Oracle, i: nat, from: nat, l: nat)
    ensures GatedSince(s, Restore.FindPrimary(s, o, i).s, from, l)
    ensures Restore.FindPrimary(s, o, i).s.fleet == s.fleet
    decreases |s.fleet.nodes| - i
  {
    if i < |s.fleet.nodes| {
      PlainStep(s, o, AskPrimary(i), from, l);
      var s1 := Next(s, o, AskPrimary(i));
      if !LastCode(s1).Lost? && !LastPassed(s1) {
        FindPrimaryGated(s1, o, i + 1, from, l);
        GatedJoin(s, s1, Restore.FindPrimary(s1, o, i + 1).s, from, l);
      }
    }
  }

  lemma {:induction false} StopAllGated(s: Session, o: Oracle, i: nat, from: nat, l: nat)
    ensures GatedSince(s, Restore.StopAll(s, o, i).s, from, l)
    decreases |s.fleet.nodes| - i
  {
    if i < |s.fleet.nodes| {
      PlainStep(s, o, Down(i), from, l);
      var s1 := Next(s, o, Down(i));
      if LastCode(s1).Zero? {
        StopAllGated(s1, o, i + 1, from, l);
        GatedJoin(s, s1, Restore.StopAll(s1, o, i + 1).s, from, l);
      }
    }
  }

  lemma DownStops(s: Session, o: Oracle, i: nat)
    requires i < |s.fleet.nodes|
    ensures var s1 := Next(s, o, Down(i));
      && SameRoster(s.fleet, s1.fleet)
      && (forall k :: 0 <= k < |s.fleet.nodes| && k != i ==> s1.fleet.nodes[k] == s.fleet.nodes[k])
      && (LastCode(s1).Zero? ==> Quiet(s1.fleet.nodes[i]))
  {}

  lemma RosterTransitive(a: Fleet, b: Fleet, c: Fleet)
    requires SameRoster(a, b) && SameRoster(b, c)
    ensures SameRoster(a, c)
  {}

  lemma {:induction false} StopAllStops(s: Session, o: Oracle, i: nat)
    requires i <= |s.fleet.nodes| && forall k :: 0 <= k < i ==> Quiet(s.fleet.nodes[k])
    ensures var r := Restore.StopAll(s, o, i);
      SameRoster(s.fleet, r.s.fleet) && (r.ok ==> Campaign.AllQuiet(r.s.fleet))
    decreases |s.fleet.nodes| - i
  {
    if i < |s.fleet.nodes| {
      DownStops(s, o, i);
      var s1 := Next(s, o, Down(i));
      if LastCode(s1).Zero? {
        StopAllStops(s1, o, i + 1);
        RosterTransitive(s.fleet, s1.fleet, Restore.StopAll(s1, o, i + 1).s.fleet);
      }
    }
  }

  lemma TwoPlain(s: Session, o: Oracle, a: Cmd, b: Cmd, from: nat, l: nat)
    requires Plain(a) && Plain(b)
    ensures GatedSince(s, Next(Next(s, o, a), o, b), from, l)
  {
    PlainStep(s, o, a, from, l);
    PlainStep(Next(s, o, a), o, b, from, l);
    GatedJoin(s, Next(s, o, a), Next(Next(s, o, a), o, b), from, l);
  }

  lemma ThreePlain(s: Session, o: Oracle, a: Cmd, b: Cmd, c: Cmd, from: nat, l: nat)
    requires Plain(a) && Plain(b) && Plain(c)
    ensures GatedSince(s, Next(Next(Next(s, o, a), o, b), o, c), from, l)
  {
    TwoPlain(s, o, a, b, from, l);
    var s2 := Next(Next(s, o, a), o, b);
    PlainStep(s2, o, c, from, l);
    GatedJoin(s, s2, Next(s2, o, c), from, l);
  }

  lemma UploadGated(s: Session, o: Oracle, from: nat, l: nat)
    ensures GatedSince(s, Restore.Upload(s, o).s, from, l)
  {
    PlainStep(s, o, Put, from, l);
    TwoPlain(s, o, Put, Chmod, from, l);
    ThreePlain(s, o, Put, Chmod, Hash, from, l);
    var s3 := Next(Next(Next(s, o, Put), o, Chmod), o, Hash);
    PlainStep(s3, o, Remove, from, l);
    GatedJoin(s, s3, Next(s3, o, Remove), from, l);
  }

  lemma {:induction false} OwnGated(s: Session, s3: Session, o: Oracle, from: nat, l: nat)
    requires GatedSince(s, s3, from, l)
    ensures GatedSince(s, Next(s3, o, Reown), from, l)
    ensures GatedSince(s, Next(Next(s3, o, Reown), o, CountStray), from, l)
  {
    PlainStep(s3, o, Reown, from, l);
    TwoPlain(s3, o, Reown, CountStray, from, l);
    GatedJoin(s, s3, Next(s3, o, Reown), from, l);
    GatedJoin(s, s3, Next(Next(s3, o, Reown), o, CountStray), from, l);
  }

  lemma {:induction false} SwapGated(s: Session, o: Oracle, whole: bool, from: nat, l: nat)
    ensures GatedSince(s, Restore.Swap(s, o, whole).s, from, l)
  {
    PlainStep(s, o, Recreate, from, l);
    TwoPlain(s, o, Recreate, Load(whole), from, l);
    ThreePlain(s, o, Recreate, Load(whole), Remove, from, l);
    OwnGated(s, Next(Next(Next(s, o, Recreate), o, Load(whole)), o, Remove), o, from, l);
  }

  lemma {:induction false} NotedGated(s: Session, o: Oracle, whole: bool, from: nat, l: nat)
    ensures GatedSince(s, Restore.Noted(Restore.Swap(s, o, whole), o).s, from, l)
  {
    SwapGated(s, o, whole, from, l);
    var w := Restore.Swap(s, o, whole);
    if w.ok {
      PlainStep(w.s, o, Note, from, l);
      GatedJoin(s, w.s, Next(w.s, o, Note), from, l);
    }
  }

  lemma {:induction false} SwapKeepsNodes(s: Session, o: Oracle, whole: bool)
    ensures Restore.Swap(s, o, whole).s.fleet.nodes == s.fleet.nodes
  {
    var s2 := Next(Next(s, o, Recreate), o, Load(whole));
    assert s2.fleet.nodes == s.fleet.nodes;
    var s4 := Next(Next(s2, o, Remove), o, Reown);
    assert s4.fleet.nodes == s2.fleet.nodes;
    assert Next(s4, o, CountStray).fleet.nodes == s4.fleet.nodes;
  }

  lemma NotedKeepsNodes(w: Run, o: Oracle)
    ensures Restore.Noted(w, o).s.fleet.nodes == w.s.fleet.nodes
  {}

  lemma {:induction false} JoinGated(s: Session, o: Oracle, i: nat, from: nat, l: nat)
    requires from <= |s.trace| && PassedBefore(s.trace, from, |s.trace|, l, true)
    ensures var j := Restore.Join(s, o, i);
      GatedSince(s, j.s, from, l) && PassedBefore(j.s.trace, from, |j.s.trace|, l, true)
  {
    var s1 := Next(s, o, Up(i));
    UpStep(s, o, i, from, l);
    GateIsGated(s1, o, i, true, HEALTHY_POLLS, from, l);
    var g := Gate(s1, o, i, true, HEALTHY_POLLS);
    GatedJoin(s, s1, g.s, from, l);
    PassedCarries(s.trace, s1.trace, from, |s.trace|, |s1.trace|, l, true);
    PassedCarries(s.trace, g.s.trace, from, |s.trace|, |g.s.trace|, l, true);
  }

  /** The leader's pair has passed, and what `visit` does next respects that. */
  ghost predicate LeaderPassed(s: Session, from: nat, l: nat) {
    from <= |s.trace| && PassedBefore(s.trace, from, |s.trace|, l, true)
  }

  ghost predicate VisitsGated(visit: Visit, from: nat, l: nat) {
    forall c: Session, k: nat :: LeaderPassed(c, from, l) ==>
      GatedSince(c, visit(c, k).s, from, l) && LeaderPassed(visit(c, k).s, from, l)
  }

  lemma {:induction false} OthersGated(s: Session, visit: Visit, i: nat, from: nat, l: nat, r: Run)
    requires Proceeds(visit) && VisitsGated(visit, from, l)
    requires LeaderPassed(s, from, l) && r == Others(s, visit, i)
    ensures GatedSince(s, r.s, from, l)
    decreases |s.fleet.nodes| - i
  {
    if i < |s.fleet.nodes| {
      if s.fleet.nodes[i].leader { OthersGated(s, visit, i + 1, from, l, r); }
      else {
        var j := visit(s, i);
        if j.ok {
          OthersGated(j.s, visit, i + 1, from, l, r);
          GatedJoin(s, j.s, r.s, from, l);
        }
      }
    }
  }

  lemma {:induction false} JoinOthersGated(s: Session, o: Oracle, from: nat, l: nat)
    requires LeaderPassed(s, from, l)
    ensures GatedSince(s, Restore.JoinOthers(s, o).s, from, l)
  {
    forall c: Session, k: nat | LeaderPassed(c, from, l)
      ensures GatedSince(c, Restore.Joins(o)(c, k).s, from, l)
      ensures LeaderPassed(Restore.Joins(o)(c, k).s, from, l)
    { JoinGated(c, o, k, from, l); }
    OthersGated(s, Restore.Joins(o), 0, from, l, Restore.JoinOthers(s, o));
  }

  lemma {:induction false} ServiceGated(s: Session, o: Oracle, i: nat, service: Service, polls: nat, from: nat, l: nat)
    requires from <= |s.trace|
    requires service.Server? ==> PassedBefore(s.trace, from, |s.trace|, i, false)
    ensures var r := Restore.StartService(s, o, i, service, polls);
      && GatedSince(s, r.s, from, l)
      && (r.ok ==> PassedBefore(r.s.trace, from, |r.s.trace|, i, service.Server?))
  {
    if service.Server? { ServerStep(s, o, i, from, l); } else { PlainStep(s, o, UpOnly(i, service), from, l); }
    var s1 := Next(s, o, UpOnly(i, service));
    GateIsGated(s1, o, i, service.Server?, polls, from, l);
    GatedJoin(s, s1, Gate(s1, o, i, service.Server?, polls).s, from, l);
  }

  lemma {:induction false} ReviveGated(s: Session, o: Oracle, polls: nat, from: nat)
    requires from <= |s.trace|
    ensures GatedSince(s, Restore.Revive(s, o, polls).s, from, LeaderIndex(s.fleet.nodes))
  {
    var l := LeaderIndex(s.fleet.nodes);
    if l == |s.fleet.nodes| { return; }
    ServiceGated(s, o, l, Worker, polls, from, l);
    var w := Restore.StartService(s, o, l, Worker, polls);
    if w.ok {
      ServiceGated(w.s, o, l, Server, HEALTHY_POLLS, from, l);
      var v := Restore.StartService(w.s, o, l, Server, HEALTHY_POLLS);
      GatedJoin(s, w.s, v.s, from, l);
      if v.ok {
        JoinOthersGated(v.s, o, from, l);
        GatedJoin(s, v.s, Restore.JoinOthers(v.s, o).s, from, l);
      }
    }
  }

  lemma SurveyGated(s: Session, o: Oracle, d: Restore.Dump, from: nat, l: nat)
    ensures GatedSince(s, Restore.Survey(s, o, d).s, from, l)
    ensures Restore.Survey(s, o, d).s.fleet == s.fleet
  {
    FindPrimaryGated(s, o, 0, from, l);
    var f := Restore.FindPrimary(s, o, 0);
    PlainStep(f.s, o, AskSettings, from, l);
    GatedJoin(s, f.s, Next(f.s, o, AskSettings), from, l);
  }

  lemma {:induction false} StageGated(s: Session, o: Oracle, d: Restore.Dump, from: nat, l: nat)
    ensures GatedSince(s, Restore.Stage(s, o, d).s, from, l)
  {
    SurveyGated(s, o, d, from, l);
    var f := Restore.Survey(s, o, d);
    if !f.ok { return; }
    StopAllGated(f.s, o, 0, from, l);
    var h := Restore.StopAll(f.s, o, 0);
    GatedJoin(s, f.s, h.s, from, l);
    if !h.ok { return; }
    UploadGated(h.s, o, from, l);
    GatedJoin(s, h.s, Restore.Upload(h.s, o).s, from, l);
  }

  lemma {:induction false} ReplaceGated(s: Session, o: Oracle, d: Restore.Dump, from: nat, l: nat)
    ensures GatedSince(s, Restore.Replace(s, o, d).s, from, l)
  {
    StageGated(s, o, d, from, l);
    Campaign.ReplaceUnfolds(s, o, d);
    var g := Restore.Stage(s, o, d);
    if g.ok {
      NotedGated(g.s, o, d.keeps(g.answer), from, l);
      GatedJoin(s, g.s, Restore.Replace(s, o, d).s, from, l);
    }
  }

  lemma {:induction false} StageKeepsRoster(s: Session, o: Oracle, d: Restore.Dump)
    ensures SameRoster(s.fleet, Restore.Stage(s, o, d).s.fleet)
  {
    SurveyGated(s, o, d, 0, 0);
    var f := Restore.Survey(s, o, d);
    if !f.ok { return; }
    StopAllStops(f.s, o, 0);
    var h := Restore.StopAll(f.s, o, 0);
    if h.ok { UploadKeepsNodes(h.s, o); }
  }

  lemma {:induction false} ReplaceKeepsRoster(s: Session, o: Oracle, d: Restore.Dump)
    ensures SameRoster(s.fleet, Restore.Replace(s, o, d).s.fleet)
  {
    StageKeepsRoster(s, o, d);
    Campaign.ReplaceUnfolds(s, o, d);
    var g := Restore.Stage(s, o, d);
    if g.ok {
      SwapKeepsNodes(g.s, o, d.keeps(g.answer));
      NotedKeepsNodes(Restore.Swap(g.s, o, d.keeps(g.answer)), o);
    }
  }

  lemma UploadKeepsNodes(s: Session, o: Oracle)
    ensures Restore.Upload(s, o).s.fleet.nodes == s.fleet.nodes
  {
    var s2 := Next(Next(s, o, Put), o, Chmod);
    assert s2.fleet.nodes == s.fleet.nodes;
    var s3 := Next(s2, o, Hash);
    assert s3.fleet == s2.fleet;
    assert Next(s3, o, Remove).fleet.nodes == s3.fleet.nodes;
  }

  lemma SameLeader(w: Fleet, w': Fleet, l: nat)
    requires SameRoster(w, w') && OneLeader(w.nodes, l)
    ensures OneLeader(w'.nodes, l) && LeaderIndex(w'.nodes) == l
  {}

  /** In every restore, however it ends: a server is started on the leader only after the worker alone
      has passed its gate there, and another node only after the leader's pair has passed. */
  lemma {:induction false} RestoreStartsInOrder(s: Session, o: Oracle, job: Restore.Job, l: nat)
    requires OneLeader(s.fleet.nodes, l)
    ensures GatedSince(s, Restore.Apply(s, o, job).s, |s.trace|, l)
  {
    if job.Ready? {
      var from := |s.trace|;
      ReplaceGated(s, o, job.dump, from, l);
      ReplaceKeepsRoster(s, o, job.dump);
      var w := Restore.Replace(s, o, job.dump);
      SameLeader(s.fleet, w.s.fleet, l);
      if w.ok {
        ReviveGated(w.s, o, job.migrationPolls, from);
        GatedJoin(s, w.s, Restore.Revive(w.s, o, job.migrationPolls).s, from, l);
      }
    }
  }

  // ------------------------------------------------------------------ what a restore that returns leaves

  /** Starting on node i and gating on it touches that node's containers, and of the database only
      whether it has been migrated, and by whom. */
  ghost predicate StartedOnly(w: Fleet, w': Fleet, i: nat) {
    OnlyNode(w, w', i) && w'.db.data == w.db.data && w'.dump == w.dump
  }

  lemma {:induction false} GateKeepsData(s: Session, o: Oracle, i: nat, pair: bool, polls: nat)
    ensures var g := Gate(s, o, i, pair, polls); g.s.fleet.db.data == s.fleet.db.data && g.s.fleet.dump == s.fleet.dump
    decreases polls
  {
    if polls > 0 { GateKeepsData(Next(s, o, Poll(i, pair)), o, i, pair, polls - 1); }
  }

  lemma {:induction false} ServiceStarts(s: Session, o: Oracle, i: nat, service: Service, polls: nat)
    requires i < |s.fleet.nodes|
    ensures var r := Restore.StartService(s, o, i, service, polls);
      && StartedOnly(s.fleet, r.s.fleet, i)
      && (r.ok && service.Worker? ==> r.s.fleet.nodes[i].worker == Present(Healthy))
      && (r.ok && service.Server? && s.fleet.nodes[i].worker.Present? ==> BothHealthy(r.s.fleet.nodes[i]))
  {
    var s1 := Next(s, o, UpOnly(i, service));
    assert StartedOnly(s.fleet, s1.fleet, i);
    if LastCode(s1).Zero? {
      GatePolls(s1, o, i, service.Server?, polls);
      GateKeepsData(s1, o, i, service.Server?, polls);
    }
  }

  lemma {:induction false} UpStarts(s: Session, o: Oracle, i: nat)
    requires i < |s.fleet.nodes|
    ensures var s1 := Next(s, o, Up(i));
      && StartedOnly(s.fleet, s1.fleet, i)
      && (LastCode(s1).Zero? ==> s1.fleet.nodes[i].server.Present? && s1.fleet.nodes[i].worker.Present?)
  {}

  lemma StartedThenPolled(w: Fleet, c: Fleet, w': Fleet, i: nat)
    requires StartedOnly(w, c, i) && PolledOnly(c, w', i) && w'.db.data == c.db.data && w'.dump == c.dump
    ensures StartedOnly(w, w', i)
  {}

  lemma {:induction false} JoinStarts(s: Session, o: Oracle, i: nat)
    requires i < |s.fleet.nodes|
    ensures var r := Restore.Join(s, o, i);
      StartedOnly(s.fleet, r.s.fleet, i) && (r.ok ==> BothHealthy(r.s.fleet.nodes[i]))
  {
    var s1 := Next(s, o, Up(i));
    UpStarts(s, o, i);
    if LastCode(s1).Zero? {
      GatePolls(s1, o, i, true, HEALTHY_POLLS);
      GateKeepsData(s1, o, i, true, HEALTHY_POLLS);
      var g := Gate(s1, o, i, true, HEALTHY_POLLS);
      StartedThenPolled(s.fleet, s1.fleet, g.s.fleet, i);
      if g.verdict.Open? { GateMeansBothHealthy(g.s.fleet.nodes[i]); }
    }
  }

  ghost predicate HealthyUpTo(w: Fleet, i: nat, l: nat) {
    && i <= |w.nodes| && OneLeader(w.nodes, l) && BothHealthy(w.nodes[l])
    && forall k :: 0 <= k < i ==> BothHealthy(w.nodes[k])
  }

  lemma OneMoreHealthy(w: Fleet, w': Fleet, i: nat, l: nat)
    requires HealthyUpTo(w, i, l) && i < |w.nodes| && i != l
    requires StartedOnly(w, w', i) && BothHealthy(w'.nodes[i])
    ensures HealthyUpTo(w', i + 1, l)
  {}

  lemma AllUpTo(w: Fleet, l: nat)
    requires HealthyUpTo(w, |w.nodes|, l)
    ensures AllHealthy(w)
  {}

  lemma PastTheLeader(w: Fleet, i: nat, l: nat)
    requires HealthyUpTo(w, i, l) && i < |w.nodes| && w.nodes[i].leader
    ensures HealthyUpTo(w, i + 1, l)
  {}

  ghost predicate AllUp(w: Fleet, l: nat) { HealthyUpTo(w, |w.nodes|, l) }

  /** What joining one node does. */
  ghost predicate VisitsStart(visit: Visit) {
    forall c: Session, k: nat :: k < |c.fleet.nodes| ==>
      StartedOnly(c.fleet, visit(c, k).s.fleet, k) && (visit(c, k).ok ==> BothHealthy(visit(c, k).s.fleet.nodes[k]))
  }

  lemma {:induction false} JoinsStart(o: Oracle)
    ensures VisitsStart(Restore.Joins(o))
  {
    forall c: Session, k: nat | k < |c.fleet.nodes|
      ensures StartedOnly(c.fleet, Restore.Joins(o)(c, k).s.fleet, k)
      ensures Restore.Joins(o)(c, k).ok ==> BothHealthy(Restore.Joins(o)(c, k).s.fleet.nodes[k])
    { JoinStarts(c, o, k); }
  }

  lemma {:induction false} OthersJoin(s: Session, visit: Visit, i: nat, l: nat, r: Run)
    requires Proceeds(visit) && VisitsStart(visit)
    requires HealthyUpTo(s.fleet, i, l) && r == Others(s, visit, i) && r.ok
    ensures AllUp(r.s.fleet, l)
    decreases |s.fleet.nodes| - i
  {
    if i == |s.fleet.nodes| {
      assert r.s == s;
    } else if s.fleet.nodes[i].leader {
      PastTheLeader(s.fleet, i, l);
      OthersJoin(s, visit, i + 1, l, r);
    } else {
      OneMoreHealthy(s.fleet, visit(s, i).s.fleet, i, l);
      OthersJoin(visit(s, i).s, visit, i + 1, l, r);
    }
  }

  /** Neither the data nor the upload changes. */
  predicate SameStore(w: Fleet, w': Fleet) { w'.db.data == w.db.data && w'.dump == w.dump }

  lemma {:induction false} OthersKeepData(s: Session, visit: Visit, i: nat)
    requires Proceeds(visit) && VisitsStart(visit)
    ensures SameStore(s.fleet, Others(s, visit, i).s.fleet)
    decreases |s.fleet.nodes| - i
  {
    if i < |s.fleet.nodes| {
      if s.fleet.nodes[i].leader { OthersKeepData(s, visit, i + 1); }
      else if visit(s, i).ok { OthersKeepData(visit(s, i).s, visit, i + 1); }
    }
  }

  /** Bringing the nodes back leaves the data alone, and the upload. */
  lemma {:induction false} ReviveKeepsStore(s: Session, o: Oracle, polls: nat)
    ensures SameStore(s.fleet, Restore.Revive(s, o, polls).s.fleet)
  {
    var l := LeaderIndex(s.fleet.nodes);
    if l == |s.fleet.nodes| { return; }
    ServiceStarts(s, o, l, Worker, polls);
    var w := Restore.StartService(s, o, l, Worker, polls);
    if !w.ok { return; }
    ServiceStarts(w.s, o, l, Server, HEALTHY_POLLS);
    var v := Restore.StartService(w.s, o, l, Server, HEALTHY_POLLS);
    if !v.ok { return; }
    JoinsStart(o);
    OthersKeepData(v.s, Restore.Joins(o), 0);
  }

  lemma {:induction false} ReviveServes(s: Session, o: Oracle, polls: nat, l: nat)
    requires OneLeader(s.fleet.nodes, l)
    ensures Restore.Revive(s, o, polls).ok ==> AllHealthy(Restore.Revive(s, o, polls).s.fleet)
  {
    assert LeaderIndex(s.fleet.nodes) == l;
    ServiceStarts(s, o, l, Worker, polls);
    var w := Restore.StartService(s, o, l, Worker, polls);
    if !w.ok { return; }
    ServiceStarts(w.s, o, l, Server, HEALTHY_POLLS);
    var v := Restore.StartService(w.s, o, l, Server, HEALTHY_POLLS);
    if !v.ok { return; }
    JoinsStart(o);
    var r := Restore.JoinOthers(v.s, o);
    if r.ok {
      OthersJoin(v.s, Restore.Joins(o), 0, l, r);
      AllUpTo(r.s.fleet, l);
    }
  }

  /** A restore that returns leaves every node of the fleet with both containers healthy, on the dump
      that was loaded, no table owned by another role; complete exactly if all of its data arrived. */
  lemma {:induction false} RestoreServes(s: Session, o: Oracle, job: Restore.Job, l: nat)
    requires OneLeader(s.fleet.nodes, l) && job.Ready? && Restore.Apply(s, o, job).ok
    ensures var w := Restore.Apply(s, o, job).s.fleet;
      && AllHealthy(w) && w.db.data.Loaded? && w.db.data.stray == 0
      && (Restore.Arrives(s, o, job.dump) ==> w.db.data.complete)
      && (!Restore.Arrives(s, o, job.dump) ==> !w.db.data.complete)
  {
    ReplaceKeepsRoster(s, o, job.dump);
    var w := Restore.Replace(s, o, job.dump);
    SameLeader(s.fleet, w.s.fleet, l);
    ReviveServes(w.s, o, job.migrationPolls, l);
    ReviveKeepsStore(w.s, o, job.migrationPolls);
    Campaign.ReplaceLoads(s, o, job.dump, w);
  }
}
