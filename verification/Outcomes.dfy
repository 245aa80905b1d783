/** When the authentik and restore phases go through and when they stop, told from the answers of the
    commands and the fleet before. */
module Outcomes {
  import opened World
  import opened Rollout
  import opened RolloutProofs
  import StateFile
  import Campaign
  import Restore
  import RestoreProofs

  // ------------------------------------------------------------------ gates

  /** The poll shows what the gate waits for, on a node with these containers. */
  predicate Shows(n: Node, r: Reply, pair: bool) {
    && r.code.Zero?
    && if pair then
         && (n.server.Absent? || r.server == Present(Healthy)) && (n.worker.Absent? || r.worker == Present(Healthy))
         && (n.server.Present? || n.worker.Present?)
       else n.worker.Present? && r.worker == Present(Healthy)
  }

  /** It does not, but it came back, and in time. */
  predicate NotYet(n: Node, r: Reply, pair: bool) { !Shows(n, r, pair) && !r.code.Lost? && !r.late }

  ghost predicate AllNotYet(n: Node, o: Oracle, c: nat, q: nat, pair: bool) {
    forall p :: c <= p < q ==> NotYet(n, o(p), pair)
  }

  /** Of the polls from c on, the q-th answer is the first to show it, and none before is lost or late. */
  ghost predicate OpensAt(n: Node, o: Oracle, c: nat, q: nat, pair: bool) {
    c <= q && Shows(n, o(q), pair) && AllNotYet(n, o, c, q, pair)
  }

  ghost predicate BreaksAt(n: Node, o: Oracle, c: nat, q: nat, pair: bool) {
    c <= q && o(q).code.Lost? && AllNotYet(n, o, c, q, pair)
  }

  predicate SameContainers(n: Node, n': Node) {
    (n.server.Present? <==> n'.server.Present?) && (n.worker.Present? <==> n'.worker.Present?)
  }

  lemma {:induction false} PollShows(s: Session, o: Oracle, i: nat, pair: bool)
    requires i < |s.fleet.nodes|
    ensures var s1 := Next(s, o, Poll(i, pair));
      && s1.clock == s.clock + 1 && LastCode(s1) == o(s.clock).code
      && SameContainers(s.fleet.nodes[i], s1.fleet.nodes[i])
      && (LastPassed(s1) ==> Shows(s.fleet.nodes[i], o(s.clock), pair))
      && (Shows(s.fleet.nodes[i], o(s.clock), pair) ==> LastPassed(s1))
  {}

  lemma NotYetMoves(n: Node, n': Node, o: Oracle, c: nat, q: nat, pair: bool)
    requires SameContainers(n, n') && AllNotYet(n, o, c, q, pair)
    ensures AllNotYet(n', o, c, q, pair)
  {}

  /** If a poll within the budget is the first to show it, and none before it is lost or late, the gate opens
      with it. */
  lemma {:induction false} GateOpens(s: Session, o: Oracle, i: nat, pair: bool, polls: nat, q: nat)
    requires i < |s.fleet.nodes| && q < s.clock + polls && OpensAt(s.fleet.nodes[i], o, s.clock, q, pair)
    ensures Gate(s, o, i, pair, polls).verdict.Open? && Gate(s, o, i, pair, polls).s.clock == q + 1
    decreases polls
  {
    PollShows(s, o, i, pair);
    if s.clock < q {
      var s1 := Next(s, o, Poll(i, pair));
      NotYetMoves(s.fleet.nodes[i], s1.fleet.nodes[i], o, s.clock, q, pair);
      GateOpens(s1, o, i, pair, polls - 1, q);
    }
  }

  /** And only then. */
  lemma {:induction false} GateOpensOnlyThen(s: Session, o: Oracle, i: nat, pair: bool, polls: nat) returns (q: nat)
    requires i < |s.fleet.nodes| && Gate(s, o, i, pair, polls).verdict.Open?
    ensures q < s.clock + polls && OpensAt(s.fleet.nodes[i], o, s.clock, q, pair)
    decreases polls
  {
    PollShows(s, o, i, pair);
    var s1 := Next(s, o, Poll(i, pair));
    q := s.clock;
    if !LastPassed(s1) {
      q := GateOpensOnlyThen(s1, o, i, pair, polls - 1);
      NotYetMoves(s1.fleet.nodes[i], s.fleet.nodes[i], o, s.clock + 1, q, pair);
    }
  }

  /** The first poll that is lost breaks the gate off. */
  lemma {:induction false} GateBreaks(s: Session, o: Oracle, i: nat, pair: bool, polls: nat, q: nat)
    requires i < |s.fleet.nodes| && q < s.clock + polls && BreaksAt(s.fleet.nodes[i], o, s.clock, q, pair)
    ensures Gate(s, o, i, pair, polls).verdict.Broken?
    decreases polls
  {
    PollShows(s, o, i, pair);
    if s.clock < q {
      var s1 := Next(s, o, Poll(i, pair));
      NotYetMoves(s.fleet.nodes[i], s1.fleet.nodes[i], o, s.clock, q, pair);
      GateBreaks(s1, o, i, pair, polls - 1, q);
    }
  }

  /** A gate, of whatever budget, as one statement over the replies. */
  lemma {:induction false} GateExactly(s: Session, o: Oracle, i: nat, pair: bool, polls: nat)
    requires i < |s.fleet.nodes|
    ensures Gate(s, o, i, pair, polls).verdict.Open? <==>
              exists q: nat :: q < s.clock + polls && OpensAt(s.fleet.nodes[i], o, s.clock, q, pair)
  {
    if Gate(s, o, i, pair, polls).verdict.Open? { var q := GateOpensOnlyThen(s, o, i, pair, polls); }
    if q: nat :| q < s.clock + polls && OpensAt(s.fleet.nodes[i], o, s.clock, q, pair) {
      GateOpens(s, o, i, pair, polls, q);
    }
  }

  // ------------------------------------------------------------------ one node recreated

  /** The poll reports both containers healthy. */
  predicate Well(r: Reply) { r.code.Zero? && r.server == Present(Healthy) && r.worker == Present(Healthy) }

  predicate Ailing(r: Reply) { !Well(r) && !r.code.Lost? && !r.late }

  ghost predicate HealsAt(o: Oracle, c: nat, q: nat) {
    c <= q && Well(o(q)) && forall p :: c <= p < q ==> Ailing(o(p))
  }

  /** Of n polls from c on one does, before any is lost or late. */
  ghost predicate Heals(o: Oracle, c: nat, n: nat) { exists q: nat :: q < c + n && HealsAt(o, c, q) }

  predicate Both(n: Node) { n.server.Present? && n.worker.Present? }

  lemma {:induction false} HealsIsOpens(n: Node, o: Oracle, c: nat, q: nat)
    requires Both(n)
    ensures HealsAt(o, c, q) ==> OpensAt(n, o, c, q, true)
    ensures OpensAt(n, o, c, q, true) ==> HealsAt(o, c, q)
  {
    if HealsAt(o, c, q) {
      forall p | c <= p < q ensures NotYet(n, o(p), true) { assert Ailing(o(p)); }
    }
    if OpensAt(n, o, c, q, true) {
      forall p | c <= p < q ensures Ailing(o(p)) { assert NotYet(n, o(p), true); }
    }
  }

  /** A pair gate on a node that has both containers, with a budget of n polls. */
  lemma {:induction false} PairGateHeals(s: Session, o: Oracle, i: nat, n: nat)
    requires i < |s.fleet.nodes| && Both(s.fleet.nodes[i])
    ensures Heals(o, s.clock, n) ==> Gate(s, o, i, true, n).verdict.Open?
    ensures Gate(s, o, i, true, n).verdict.Open? ==> Heals(o, s.clock, n)
  {
    if Heals(o, s.clock, n) {
      var q: nat :| q < s.clock + n && HealsAt(o, s.clock, q);
      HealsIsOpens(s.fleet.nodes[i], o, s.clock, q);
      GateOpens(s, o, i, true, n, q);
    }
    if Gate(s, o, i, true, n).verdict.Open? {
      var q := GateOpensOnlyThen(s, o, i, true, n);
      HealsIsOpens(s.fleet.nodes[i], o, s.clock, q);
    }
  }

  lemma RestartStarts(s: Session, o: Oracle, i: nat)
    requires i < |s.fleet.nodes|
    ensures var s1 := Next(s, o, Restart(i));
      && s1.clock == s.clock + 1 && |s1.fleet.nodes| == |s.fleet.nodes| && LastCode(s1) == o(s.clock).code
      && (o(s.clock).code.Zero? ==> Both(s1.fleet.nodes[i]))
  {}

  /** Recreating a node succeeds if the restart does and one of the 90 polls that 900 seconds allow, one
      every ten, reports both containers healthy before any is lost or the time is up. */
  lemma {:induction false} CycleSucceeds(s: Session, o: Oracle, i: nat)
    requires i < |s.fleet.nodes| && o(s.clock).code.Zero? && Heals(o, s.clock + 1, 90)
    ensures Cycle(s, o, i).ok
  {
    RestartStarts(s, o, i);
    PairGateHeals(Next(s, o, Restart(i)), o, i, HEALTHY_POLLS);
  }

  /** And only then. */
  lemma {:induction false} CycleSucceedsOnlyThen(s: Session, o: Oracle, i: nat)
    requires i < |s.fleet.nodes| && Cycle(s, o, i).ok
    ensures o(s.clock).code.Zero? && Heals(o, s.clock + 1, 90)
  {
    RestartStarts(s, o, i);
    PairGateHeals(Next(s, o, Restart(i)), o, i, HEALTHY_POLLS);
  }

  // ------------------------------------------------------------------ the authentik phase goes through

  /** Every command succeeds, and a gate begun at whatever time sees its node healthy within 900 seconds. */
  ghost predicate AllGoesWell(o: Oracle) { forall c: nat :: o(c).code.Zero? && Heals(o, c, 90) }

  ghost predicate Succeeds(visit: Visit) { forall c: Session, k: nat :: k < |c.fleet.nodes| ==> visit(c, k).ok }

  lemma {:induction false} CyclesSucceed(o: Oracle)
    requires AllGoesWell(o)
    ensures Succeeds(Cycles(o))
  {
    forall c: Session, k: nat | k < |c.fleet.nodes| ensures Cycles(o)(c, k).ok { CycleSucceeds(c, o, k); }
  }

  lemma {:induction false} RollReturns(s: Session, o: Oracle, changed: map<string, bool>, i: nat)
    requires i <= |s.fleet.nodes| && Succeeds(Cycles(o))
    ensures Roll(s, o, changed, i).ok
    decreases i
  {
    if i > 0 {
      RollStep(s, o, changed, i);
      if Flagged(changed, s.fleet.nodes[i - 1]) {
        assert Cycles(o)(s, i - 1).ok;
        RollReturns(Cycle(s, o, i - 1).s, o, changed, i - 1);
      } else {
        RollReturns(s, o, changed, i - 1);
      }
    }
  }

  lemma {:induction false} OthersReturn(s: Session, visit: Visit, i: nat)
    requires Proceeds(visit) && Succeeds(visit)
    ensures Others(s, visit, i).ok
    decreases |s.fleet.nodes| - i
  {
    if i < |s.fleet.nodes| {
      if s.fleet.nodes[i].leader { OthersReturn(s, visit, i + 1); } else { OthersReturn(visit(s, i).s, visit, i + 1); }
    }
  }

  lemma {:induction false} BootReturns(s: Session, o: Oracle)
    requires Succeeds(Cycles(o)) && LeaderIndex(s.fleet.nodes) < |s.fleet.nodes|
    ensures Boot(s, o).ok
  {
    var l := LeaderIndex(s.fleet.nodes);
    assert Cycles(o)(s, l).ok;
    OthersReturn(Cycle(s, o, l).s, Cycles(o), 0);
  }

  /** With no leader there is nobody to begin with. */
  lemma {:induction false} LeaderlessBootFails(s: Session, o: Oracle)
    requires forall k :: 0 <= k < |s.fleet.nodes| ==> !s.fleet.nodes[k].leader
    ensures Boot(s, o) == Run(s, false)
  {}

  ghost predicate AllZero(o: Oracle) { forall c: nat :: o(c).code.Zero? }

  lemma {:induction false} TouchReturns(s: Session, o: Oracle, slot: Slot, content: string, i: nat,
                                        touched: set<string>)
    requires AllZero(o)
    ensures Touch(s, o, slot, content, i, touched).ok
    decreases |s.fleet.nodes| - i
  {
    if i < |s.fleet.nodes| {
      var p := PushOne(s, o, i, slot, content);
      TouchReturns(p.s, o, slot, content, i + 1, if p.changed then touched + {s.fleet.nodes[i].name} else touched);
    }
  }

  /** Every configured asset is on the workstation. */
  ghost predicate AllThere(t: Target) { forall q :: 0 <= q < |t.uploads| ==> t.uploads[q].exists_ }

  lemma {:induction false} TouchAllReturns(s: Session, o: Oracle, t: Target, k: nat, touched: set<string>)
    requires k <= |t.uploads| && AllZero(o) && AllThere(t)
    ensures TouchAll(s, o, t, k, touched).ok
    decreases |t.uploads| - k
  {
    if k < |t.uploads| {
      var u := t.uploads[k];
      TouchReturns(s, o, u.asset, t.files.Get(u.asset), 0, touched);
      var b := Touch(s, o, u.asset, t.files.Get(u.asset), 0, touched);
      TouchAllReturns(b.s, o, t, k + 1, b.touched);
    }
  }

  lemma {:induction false} TouchAllRefuses(s: Session, o: Oracle, t: Target, k: nat, touched: set<string>, q: nat)
    requires k <= q < |t.uploads| && !t.uploads[q].exists_
    ensures !TouchAll(s, o, t, k, touched).ok
    decreases |t.uploads| - k
  {
    if t.uploads[k].exists_ {
      var u := t.uploads[k];
      var b := Touch(s, o, u.asset, t.files.Get(u.asset), 0, touched);
      if b.ok { TouchAllRefuses(b.s, o, t, k + 1, b.touched, q); }
    }
  }

  ghost predicate StagesWell(stager: Stager) { forall c: Session, k: nat :: k < |c.fleet.nodes| ==> stager(c, k).ok }

  lemma {:induction false} StageReturns(s: Session, stager: Stager, touched: set<string>, i: nat,
                                        changed: map<string, bool>)
    requires Advances(stager) && StagesWell(stager)
    ensures StageWith(s, stager, touched, i, changed).ok
    decreases |s.fleet.nodes| - i
  {
    if i < |s.fleet.nodes| {
      var p := stager(s, i);
      var name := s.fleet.nodes[i].name;
      StageReturns(p.s, stager, touched, i + 1, changed[name := p.changed || name in touched]);
    }
  }

  lemma {:induction false} StagerReturns(o: Oracle, f: Files)
    requires AllZero(o)
    ensures StagesWell(StagerOf(o, f))
  {
    forall c: Session, k: nat | k < |c.fleet.nodes| ensures StagerOf(o, f)(c, k).ok {
      assert StageOne(c, o, f, k).ok;
    }
  }

  lemma {:induction false} RenderReturns(s: Session, o: Oracle, t: Target)
    requires AllZero(o) && AllThere(t)
    ensures Render(s, o, t).ok
  {
    TouchAllReturns(s, o, t, 0, {});
    var b := TouchAll(s, o, t, 0, {});
    StagerReturns(o, t.files);
    StageReturns(b.s, StagerOf(o, t.files), b.touched, 0, map[]);
  }

  lemma ApplyUnfolds(s: Session, o: Oracle, t: Target)
    ensures var a := AllRunning(s, o, 0); var g := Render(a.s, o, t);
      && (!g.ok ==> Apply(s, o, t) == Run(g.s, false))
      && (g.ok && a.ok ==> Apply(s, o, t) == Roll(g.s, o, g.changed, |g.s.fleet.nodes|))
      && (g.ok && !a.ok ==> Apply(s, o, t) == Boot(g.s, o))
  {}

  /** With every asset there, every command succeeding, and every gate seeing its node healthy in time, an
      apply returns, on either path. */
  lemma {:induction false} ApplyReturns(s: Session, o: Oracle, t: Target)
    requires AllGoesWell(o) && AllThere(t) && LeaderIndex(s.fleet.nodes) < |s.fleet.nodes|
    ensures Apply(s, o, t).ok
  {
    assert AllZero(o);
    CyclesSucceed(o);
    var a := AllRunning(s, o, 0);
    RenderReturns(a.s, o, t);
    var g := Render(a.s, o, t);
    assert LeaderIndex(g.s.fleet.nodes) < |g.s.fleet.nodes| by {
      AllRunningIdle(s, o, 0);
      RenderFilesOnly(a.s, o, t);
      SameLeaderIndex(s.fleet.nodes, g.s.fleet.nodes);
    }
    ApplyUnfolds(s, o, t);
    if a.ok { RollReturns(g.s, o, g.changed, |g.s.fleet.nodes|); } else { BootReturns(g.s, o); }
  }

  /** Whatever the commands answer, an apply of which an asset is missing stops with nothing but files
      touched. */
  lemma {:induction false} MissingAssetStops(s: Session, o: Oracle, t: Target)
    requires !AllThere(t)
    ensures !Apply(s, o, t).ok && FilesOnlySince(s, Apply(s, o, t).s)
  {
    var a := AllRunning(s, o, 0);
    var q: nat :| q < |t.uploads| && !t.uploads[q].exists_;
    TouchAllRefuses(a.s, o, t, 0, {}, q);
    ApplyUnfolds(s, o, t);
    AllRunningIdle(s, o, 0);
    RenderFilesOnly(a.s, o, t);
    FilesOnlyTransitive(s, a.s, Render(a.s, o, t).s);
  }

  lemma SameLeaderIndex(w: seq<Node>, w': seq<Node>)
    requires |w'| == |w| && forall k :: 0 <= k < |w| ==> w'[k].leader == w[k].leader
    ensures LeaderIndex(w') == LeaderIndex(w)
  {}

  predicate ProbeFinds(n: Node, r: Reply) { r.code.Zero? && n.server.Present? }

  /** An apply takes the rolling path exactly if every node's probe, in turn, succeeds and finds a server. */
  lemma {:induction false} RollsExactly(s: Session, o: Oracle, i: nat, base: nat)
    requires i <= |s.fleet.nodes| && s.clock == base + i
    ensures AllRunning(s, o, i).ok <==>
              forall k :: i <= k < |s.fleet.nodes| ==> ProbeFinds(s.fleet.nodes[k], o(base + k))
    decreases |s.fleet.nodes| - i
  {
    if i < |s.fleet.nodes| {
      var s1 := Next(s, o, Probe(i));
      assert s1.fleet == s.fleet && s1.clock == base + (i + 1);
      assert LastPassed(s1) <==> ProbeFinds(s.fleet.nodes[i], o(base + i));
      RollsExactly(s1, o, i + 1, base);
    }
  }

  // ------------------------------------------------------------------ a restore's survey

  /** Of the n answers from c on, the q-th is the first yes, and none before it is lost. */
  ghost predicate FindsAt(o: Oracle, c: nat, n: nat, q: nat) {
    && c <= q < c + n && !o(q).code.Lost? && o(q).yes
    && forall p :: c <= p < q ==> NotHere(o(p))
  }

  predicate NotHere(r: Reply) { !r.code.Lost? && !r.yes }

  lemma {:induction false} FindPrimaryFinds(s: Session, o: Oracle, i: nat, q: nat)
    requires i <= |s.fleet.nodes| && FindsAt(o, s.clock, |s.fleet.nodes| - i, q)
    ensures var g := Restore.FindPrimary(s, o, i);
      g.verdict.Open? && g.s.clock == q + 1 && |g.s.trace| == |s.trace| + (q + 1 - s.clock)
    decreases |s.fleet.nodes| - i
  {
    var s1 := Next(s, o, AskPrimary(i));
    assert s1.clock == s.clock + 1 && |s1.fleet.nodes| == |s.fleet.nodes|;
    if s.clock < q {
      assert NotHere(o(s.clock));
      FindPrimaryFinds(s1, o, i + 1, q);
    }
  }

  lemma {:induction false} FindPrimaryOnlyThen(s: Session, o: Oracle, i: nat) returns (q: nat)
    requires i <= |s.fleet.nodes| && Restore.FindPrimary(s, o, i).verdict.Open?
    ensures FindsAt(o, s.clock, |s.fleet.nodes| - i, q)
    decreases |s.fleet.nodes| - i
  {
    var s1 := Next(s, o, AskPrimary(i));
    assert s1.clock == s.clock + 1 && |s1.fleet.nodes| == |s.fleet.nodes|;
    q := s.clock;
    if !LastPassed(s1) { q := FindPrimaryOnlyThen(s1, o, i + 1); }
  }

  /** What the survey needs: a first yes among the answers, a header that can be scanned, and, if it sets
      anything, a settings query that is not lost. */
  ghost predicate SurveysAt(o: Oracle, c: nat, n: nat, d: Restore.Dump, q: nat) {
    FindsAt(o, c, n, q) && d.scans && (d.asks ==> !o(q + 1).code.Lost?)
  }

  ghost predicate Surveys(o: Oracle, c: nat, n: nat, d: Restore.Dump) { exists q: nat :: SurveysAt(o, c, n, d, q) }

  /** How many commands the survey takes. */
  function Asked(d: Restore.Dump): nat { if d.asks then 1 else 0 }

  lemma {:induction false} SurveySucceeds(s: Session, o: Oracle, d: Restore.Dump, q: nat)
    requires SurveysAt(o, s.clock, |s.fleet.nodes|, d, q)
    ensures var v := Restore.Survey(s, o, d);
      && v.ok && v.s.clock == q + 1 + Asked(d) && |v.s.trace| == |s.trace| + (q + 1 - s.clock) + Asked(d)
      && v.answer == if d.asks && o(q + 1).code.Zero? then Known(o(q + 1).known) else Unknown()
  { FindPrimaryFinds(s, o, 0, q); }

  function Known(names: set<string>): Restore.Answer { StateFile.Some(names) }
  function Unknown(): Restore.Answer { StateFile.None }

  lemma {:induction false} SurveySucceedsOnlyThen(s: Session, o: Oracle, d: Restore.Dump) returns (q: nat)
    requires Restore.Survey(s, o, d).ok
    ensures SurveysAt(o, s.clock, |s.fleet.nodes|, d, q)
  {
    q := FindPrimaryOnlyThen(s, o, 0);
    FindPrimaryFinds(s, o, 0, q);
  }

  /** Nothing has been issued but questions. */
  ghost predicate OnlyAsked(s: Session, s': Session) {
    && Extends(s, s') && s'.fleet == s.fleet
    && forall k :: |s.trace| <= k < |s'.trace| ==> s'.trace[k].cmd.AskPrimary? || s'.trace[k].cmd.AskSettings?
  }

  lemma {:induction false} FindPrimaryOnlyAsks(s: Session, o: Oracle, i: nat)
    ensures OnlyAsked(s, Restore.FindPrimary(s, o, i).s)
    decreases |s.fleet.nodes| - i
  {
    if i < |s.fleet.nodes| {
      var s1 := Next(s, o, AskPrimary(i));
      assert OnlyAsked(s, s1);
      if !LastCode(s1).Lost? && !LastPassed(s1) {
        FindPrimaryOnlyAsks(s1, o, i + 1);
        AskedTransitive(s, s1, Restore.FindPrimary(s1, o, i + 1).s);
      }
    }
  }

  lemma AskedTransitive(s: Session, m: Session, s': Session)
    requires OnlyAsked(s, m) && OnlyAsked(m, s')
    ensures OnlyAsked(s, s')
  {
    forall k | |s.trace| <= k < |s'.trace|
      ensures s'.trace[k].cmd.AskPrimary? || s'.trace[k].cmd.AskSettings?
    {
      if k < |m.trace| { assert s'.trace[k] == m.trace[k]; }
    }
  }

  lemma {:induction false} SurveyOnlyAsks(s: Session, o: Oracle, d: Restore.Dump)
    ensures OnlyAsked(s, Restore.Survey(s, o, d).s)
  {
    FindPrimaryOnlyAsks(s, o, 0);
    var f := Restore.FindPrimary(s, o, 0);
    assert OnlyAsked(f.s, Next(f.s, o, AskSettings));
    AskedTransitive(s, f.s, Next(f.s, o, AskSettings));
  }

  lemma ReplaceStopsAtSurvey(s: Session, o: Oracle, d: Restore.Dump)
    requires !Restore.Survey(s, o, d).ok
    ensures !Restore.Replace(s, o, d).ok && Restore.Replace(s, o, d).s == Restore.Survey(s, o, d).s
  {}

  /** If no node says that it is the primary, or an answer is lost before one does, or the header cannot be
      scanned, or the settings query is lost, the restore fails with nothing touched: it has only asked. */
  lemma {:induction false} UnsurveyedTouchesNothing(s: Session, o: Oracle, d: Restore.Dump, polls: nat)
    requires !Surveys(o, s.clock, |s.fleet.nodes|, d)
    ensures var r := Restore.Apply(s, o, Restore.Ready(d, polls)); !r.ok && OnlyAsked(s, r.s)
  {
    if Restore.Survey(s, o, d).ok { var q := SurveySucceedsOnlyThen(s, o, d); }
    SurveyOnlyAsks(s, o, d);
    ReplaceStopsAtSurvey(s, o, d);
  }

  lemma {:induction false} StopAllBegins(s: Session, o: Oracle)
    requires |s.fleet.nodes| > 0
    ensures Extends(Next(s, o, Down(0)), Restore.StopAll(s, o, 0).s)
    ensures Next(s, o, Down(0)).trace[|s.trace|].cmd == Down(0)
  {}

  lemma StageExtends(s: Session, o: Oracle, d: Restore.Dump)
    requires Restore.Survey(s, o, d).ok
    ensures Extends(Restore.StopAll(Restore.Survey(s, o, d).s, o, 0).s, Restore.Stage(s, o, d).s)
  {}

  lemma ApplyExtends(s: Session, o: Oracle, d: Restore.Dump, polls: nat)
    ensures Extends(Restore.Stage(s, o, d).s, Restore.Apply(s, o, Restore.Ready(d, polls)).s)
  { Campaign.ReplaceUnfolds(s, o, d); }

  lemma ExtendsAt(a: Session, b: Session, k: nat)
    requires Extends(a, b) && k < |a.trace|
    ensures k < |b.trace| && b.trace[k] == a.trace[k]
  {}

  /** Otherwise the next thing it does is to stop the fleet. */
  lemma {:induction false} SurveyedStopsTheFleet(s: Session, o: Oracle, d: Restore.Dump, polls: nat, q: nat)
    requires SurveysAt(o, s.clock, |s.fleet.nodes|, d, q)
    ensures var trace := Restore.Apply(s, o, Restore.Ready(d, polls)).s.trace;
            var k := |s.trace| + (q + 1 - s.clock) + Asked(d);
      k < |trace| && trace[k].cmd == Down(0)
  {
    SurveySucceeds(s, o, d, q);
    var v := Restore.Survey(s, o, d);
    var k := |v.s.trace|;
    StopAllBegins(v.s, o);
    var h := Restore.StopAll(v.s, o, 0);
    ExtendsAt(Next(v.s, o, Down(0)), h.s, k);
    StageExtends(s, o, d);
    ExtendsAt(h.s, Restore.Stage(s, o, d).s, k);
    ApplyExtends(s, o, d, polls);
    ExtendsAt(Restore.Stage(s, o, d).s, Restore.Apply(s, o, Restore.Ready(d, polls)).s, k);
  }

  /** With no file configured there is nothing to do, and a file that does not exist is an error: either way
      no command is issued. */
  lemma {:induction false} WithoutAFile(s: Session, o: Oracle)
    ensures Restore.Apply(s, o, Restore.NoFile) == Run(s, true)
    ensures Restore.Apply(s, o, Restore.Refused) == Run(s, false)
  {}

  lemma {:induction false} LeaderlessReviveFails(s: Session, o: Oracle, polls: nat)
    requires forall k :: 0 <= k < |s.fleet.nodes| ==> !s.fleet.nodes[k].leader
    ensures Restore.Revive(s, o, polls) == Run(s, false)
  {}

  // ------------------------------------------------------------------ its parts, over the answers

  /** The n answers from c on are all Zero. */
  ghost predicate ZeroFor(o: Oracle, c: nat, n: nat) { forall q :: c <= q < c + n ==> o(q).code.Zero? }

  /** The fleet is stopped exactly if every node's turn succeeds. */
  lemma {:induction false} StopAllExactly(s: Session, o: Oracle, i: nat)
    requires i <= |s.fleet.nodes|
    ensures ZeroFor(o, s.clock, |s.fleet.nodes| - i) ==>
              Restore.StopAll(s, o, i).ok && Restore.StopAll(s, o, i).s.clock == s.clock + (|s.fleet.nodes| - i)
    ensures Restore.StopAll(s, o, i).ok ==> ZeroFor(o, s.clock, |s.fleet.nodes| - i)
    decreases |s.fleet.nodes| - i
  {
    if i < |s.fleet.nodes| {
      var s1 := Next(s, o, Down(i));
      assert s1.clock == s.clock + 1 && |s1.fleet.nodes| == |s.fleet.nodes| && LastCode(s1) == o(s.clock).code;
      StopAllExactly(s1, o, i + 1);
    }
  }

  /** An upload whose answers are these. */
  predicate Uploads(o: Oracle, c: nat) {
    && o(c).code.Zero? && o(c).took && !o(c + 1).code.Lost?
    && !o(c + 2).code.Lost? && o(c + 2).yes
  }

  lemma {:induction false} UploadExactly(s: Session, o: Oracle)
    ensures Uploads(o, s.clock) ==> Restore.Upload(s, o).ok && Restore.Upload(s, o).s.clock == s.clock + 3
    ensures Restore.Upload(s, o).ok ==> Uploads(o, s.clock)
  {
    var s1 := Next(s, o, Put);
    assert s1.clock == s.clock + 1 && (o(s.clock).code.Zero? ==> (s1.fleet.dump.Exact? <==> o(s.clock).took));
    var s2 := Next(s1, o, Chmod);
    assert s2.fleet == s1.fleet && s2.clock == s.clock + 2;
    var s3 := Next(s2, o, Hash);
    assert s3.clock == s.clock + 3;
  }

  /** A swap whose answers are these: drop, load, and re-own succeed, the removal comes back, and the count
      comes back with what the re-owning left: none.  What the load itself left makes no difference. */
  predicate Swaps(o: Oracle, c: nat) {
    && o(c).code.Zero? && o(c + 1).code.Zero? && !o(c + 2).code.Lost?
    && o(c + 3).code.Zero? && o(c + 3).stray == 0
    && !o(c + 4).code.Lost? && o(c + 4).yes
  }

  lemma {:induction false} LoadAnswers(s: Session, o: Oracle, whole: bool)
    ensures var s1 := Next(s, o, Recreate); var s2 := Next(s1, o, Load(whole)); var s3 := Next(s2, o, Remove);
      && LastCode(s1) == o(s.clock).code && LastCode(s2) == o(s.clock + 1).code
      && LastCode(s3) == o(s.clock + 2).code && s3.clock == s.clock + 3
      && (o(s.clock + 1).code.Zero? ==> s3.fleet.db.data.Loaded?)
  {
    var s1 := Next(s, o, Recreate);
    assert s1.clock == s.clock + 1;
    var s2 := Next(s1, o, Load(whole));
    assert s2.clock == s.clock + 2;
  }

  lemma {:induction false} OwnAnswers(s: Session, o: Oracle)
    requires s.fleet.db.data.Loaded?
    ensures var s4 := Next(s, o, Reown); var s5 := Next(s4, o, CountStray);
      && LastCode(s4) == o(s.clock).code && s5.clock == s.clock + 2
      && (LastPassed(s5) ==> !o(s.clock + 1).code.Lost? && o(s.clock + 1).yes && o(s.clock).stray == 0)
      && (!o(s.clock + 1).code.Lost? && o(s.clock + 1).yes && o(s.clock).stray == 0 ==> LastPassed(s5))
  {
    var s4 := Next(s, o, Reown);
    assert s4.clock == s.clock + 1 && s4.fleet.db.data.Loaded? && s4.fleet.db.data.stray == o(s.clock).stray;
  }

  lemma {:induction false} SwapExactly(s: Session, o: Oracle, whole: bool)
    ensures Swaps(o, s.clock) ==>
              Restore.Swap(s, o, whole).ok && Restore.Swap(s, o, whole).s.clock == s.clock + 5
    ensures Restore.Swap(s, o, whole).ok ==> Swaps(o, s.clock)
  {
    LoadAnswers(s, o, whole);
    var s3 := Next(Next(Next(s, o, Recreate), o, Load(whole)), o, Remove);
    if o(s.clock + 1).code.Zero? { OwnAnswers(s3, o); }
  }

  // ------------------------------------------------------------------ bringing the nodes back

  predicate WorkerWell(r: Reply) { r.code.Zero? && r.worker == Present(Healthy) }

  predicate WorkerAiling(r: Reply) { !WorkerWell(r) && !r.code.Lost? && !r.late }

  ghost predicate WorkerHealsAt(o: Oracle, c: nat, q: nat) {
    c <= q && WorkerWell(o(q)) && forall p :: c <= p < q ==> WorkerAiling(o(p))
  }

  ghost predicate WorkerHeals(o: Oracle, c: nat, n: nat) { exists q: nat :: q < c + n && WorkerHealsAt(o, c, q) }

  lemma {:induction false} WorkerGateHeals(s: Session, o: Oracle, i: nat, n: nat)
    requires i < |s.fleet.nodes| && s.fleet.nodes[i].worker.Present? && WorkerHeals(o, s.clock, n)
    ensures Gate(s, o, i, false, n).verdict.Open?
  {
    var q: nat :| q < s.clock + n && WorkerHealsAt(o, s.clock, q);
    forall p | s.clock <= p < q ensures NotYet(s.fleet.nodes[i], o(p), false) { assert WorkerAiling(o(p)); }
    GateOpens(s, o, i, false, n, q);
  }

  lemma {:induction false} UpOnlyStarts(s: Session, o: Oracle, i: nat, service: Service)
    requires i < |s.fleet.nodes| && o(s.clock).code.Zero?
    ensures var s1 := Next(s, o, UpOnly(i, service)); var n := s.fleet.nodes[i];
      && s1.clock == s.clock + 1 && |s1.fleet.nodes| == |s.fleet.nodes| && LastCode(s1).Zero?
      && (service.Worker? ==> s1.fleet.nodes[i].worker.Present?)
      && (service.Server? ==> s1.fleet.nodes[i].server.Present? && s1.fleet.nodes[i].worker == n.worker)
  {}

  /** The worker alone comes up if its start succeeds and it reports healthy within the migration budget. */
  lemma {:induction false} WorkerComesUp(s: Session, o: Oracle, l: nat, polls: nat)
    requires l < |s.fleet.nodes| && o(s.clock).code.Zero? && WorkerHeals(o, s.clock + 1, polls)
    ensures Restore.StartService(s, o, l, Worker, polls).ok
  {
    UpOnlyStarts(s, o, l, Worker);
    WorkerGateHeals(Next(s, o, UpOnly(l, Worker)), o, l, polls);
  }

  lemma {:induction false} ServerComesUp(s: Session, o: Oracle, l: nat)
    requires l < |s.fleet.nodes| && o(s.clock).code.Zero? && Heals(o, s.clock + 1, 90)
    requires s.fleet.nodes[l].worker.Present?
    ensures Restore.StartService(s, o, l, Server, HEALTHY_POLLS).ok
  {
    UpOnlyStarts(s, o, l, Server);
    PairGateHeals(Next(s, o, UpOnly(l, Server)), o, l, HEALTHY_POLLS);
  }

  lemma {:induction false} JoinSucceeds(s: Session, o: Oracle, i: nat)
    requires i < |s.fleet.nodes| && o(s.clock).code.Zero? && Heals(o, s.clock + 1, 90)
    ensures Restore.Join(s, o, i).ok
  {
    RestoreProofs.UpStarts(s, o, i);
    var s1 := Next(s, o, Up(i));
    assert s1.clock == s.clock + 1;
    PairGateHeals(s1, o, i, HEALTHY_POLLS);
  }

  lemma {:induction false} JoinsSucceed(o: Oracle)
    requires AllGoesWell(o)
    ensures Succeeds(Restore.Joins(o))
  {
    forall c: Session, k: nat | k < |c.fleet.nodes| ensures Restore.Joins(o)(c, k).ok { JoinSucceeds(c, o, k); }
  }

  ghost predicate WorkersHeal(o: Oracle, polls: nat) { forall c: nat :: WorkerHeals(o, c, polls) }

  lemma {:induction false} WorkerStarts(s: Session, o: Oracle, l: nat, polls: nat, w: Run)
    requires AllGoesWell(o) && WorkersHeal(o, polls) && l < |s.fleet.nodes|
    requires w == Restore.StartService(s, o, l, Worker, polls)
    ensures w.ok && |w.s.fleet.nodes| == |s.fleet.nodes| && w.s.fleet.nodes[l].worker.Present?
  {
    WorkerComesUp(s, o, l, polls);
    RestoreProofs.ServiceStarts(s, o, l, Worker, polls);
  }

  lemma {:induction false} ServerStarts(s: Session, o: Oracle, l: nat, v: Run)
    requires AllGoesWell(o) && l < |s.fleet.nodes| && s.fleet.nodes[l].worker.Present?
    requires v == Restore.StartService(s, o, l, Server, HEALTHY_POLLS)
    ensures v.ok
  { ServerComesUp(s, o, l); }

  lemma ReviveUnfolds(s: Session, o: Oracle, polls: nat, l: nat, w: Run, v: Run)
    requires l == LeaderIndex(s.fleet.nodes) < |s.fleet.nodes|
    requires w == Restore.StartService(s, o, l, Worker, polls) && w.ok
    requires v == Restore.StartService(w.s, o, l, Server, HEALTHY_POLLS) && v.ok
    ensures Restore.Revive(s, o, polls) == Restore.JoinOthers(v.s, o)
  {}

  lemma {:induction false} ReviveReturns(s: Session, o: Oracle, polls: nat)
    requires AllGoesWell(o) && WorkersHeal(o, polls) && LeaderIndex(s.fleet.nodes) < |s.fleet.nodes|
    ensures Restore.Revive(s, o, polls).ok
  {
    var l := LeaderIndex(s.fleet.nodes);
    var w := Restore.StartService(s, o, l, Worker, polls);
    WorkerStarts(s, o, l, polls, w);
    var v := Restore.StartService(w.s, o, l, Server, HEALTHY_POLLS);
    ServerStarts(w.s, o, l, v);
    ReviveUnfolds(s, o, polls, l, w, v);
    JoinsSucceed(o);
    OthersReturn(v.s, Restore.Joins(o), 0);
  }

  // ------------------------------------------------------------------ the restore goes through

  /** Every question is answered yes, every transfer is exact. */
  ghost predicate AllYes(o: Oracle) { forall c: nat :: o(c).yes && o(c).took }

  /** The answer to the re-owning, counted from the first command of the restore. */
  function ReownClock(c: nat, n: nat, d: Restore.Dump): nat { c + 1 + Asked(d) + n + 3 + 3 }

  lemma {:induction false} StageReturnsAt(s: Session, o: Oracle, d: Restore.Dump)
    requires AllZero(o) && AllYes(o) && d.scans && |s.fleet.nodes| > 0
    ensures var g := Restore.Stage(s, o, d); var n := |s.fleet.nodes|;
      g.ok && g.s.clock == s.clock + 1 + Asked(d) + n + 3
  {
    assert SurveysAt(o, s.clock, |s.fleet.nodes|, d, s.clock);
    SurveySucceeds(s, o, d, s.clock);
    var v := Restore.Survey(s, o, d);
    SurveyOnlyAsks(s, o, d);
    StopAllExactly(v.s, o, 0);
    var h := Restore.StopAll(v.s, o, 0);
    UploadExactly(h.s, o);
  }

  lemma {:induction false} NotedReturns(s: Session, o: Oracle, whole: bool)
    requires AllZero(o) && AllYes(o) && o(s.clock + 3).stray == 0
    ensures Restore.Noted(Restore.Swap(s, o, whole), o).ok
  { SwapExactly(s, o, whole); }

  lemma {:induction false} ReplaceReturns(s: Session, o: Oracle, d: Restore.Dump, g: Restore.Surveyed)
    requires AllZero(o) && AllYes(o) && d.scans && |s.fleet.nodes| > 0
    requires o(ReownClock(s.clock, |s.fleet.nodes|, d)).stray == 0 && g == Restore.Stage(s, o, d)
    ensures Restore.Replace(s, o, d).ok
  {
    StageReturnsAt(s, o, d);
    assert g.s.clock + 3 == ReownClock(s.clock, |s.fleet.nodes|, d);
    NotedReturns(g.s, o, d.keeps(g.answer));
    Campaign.ReplaceUnfolds(s, o, d);
  }

  lemma RestoreUnfolds(s: Session, o: Oracle, d: Restore.Dump, polls: nat, w: Run)
    requires w == Restore.Replace(s, o, d) && w.ok
    ensures Restore.Apply(s, o, Restore.Ready(d, polls)) == Restore.Revive(w.s, o, polls)
  {}

  /** With every command succeeding, every question answered yes, and every gate seeing its node healthy in
      time, a restore of a dump that can be scanned returns: however many tables the load left with another
      owner, as long as the re-owning leaves none. */
  lemma {:induction false} RestoreReturns(s: Session, o: Oracle, d: Restore.Dump, polls: nat)
    requires AllGoesWell(o) && AllYes(o) && WorkersHeal(o, polls)
    requires d.scans && LeaderIndex(s.fleet.nodes) < |s.fleet.nodes|
    requires o(ReownClock(s.clock, |s.fleet.nodes|, d)).stray == 0
    ensures Restore.Apply(s, o, Restore.Ready(d, polls)).ok
  {
    assert AllZero(o);
    ReplaceReturns(s, o, d, Restore.Stage(s, o, d));
    var w := Restore.Replace(s, o, d);
    RestoreUnfolds(s, o, d, polls, w);
    assert LeaderIndex(w.s.fleet.nodes) < |w.s.fleet.nodes| by {
      RestoreProofs.ReplaceKeepsRoster(s, o, d);
      SameLeaderIndex(s.fleet.nodes, w.s.fleet.nodes);
    }
    ReviveReturns(w.s, o, polls);
  }
}
