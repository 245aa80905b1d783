/** The restore phase's `apply`: stop authentik everywhere, replace the database by a dump, prove
    ownership, then bring the nodes back behind the bootstrap leader. */
module Restore {
  import opened World
  import StateFile
  import DumpFilter
  import Rollout

  /** A dump file as the workstation decodes it, as far as it goes: the lines before its data, and its
      data.  `decodes`: to its end, as a plain file always does; `scans`: at least as far as the header
      scan looks. */
  datatype File = File(head: seq<string>, body: seq<string>, decodes: bool, scans: bool) {
    function Lines(): seq<string> { head + body }
  }

  /** What the server says of the settings it knows; None if it could not be asked. */
  type Answer = StateFile.Option<set<string>>

  /** What a restore depends on in a dump: whether its header sets anything to ask the server about, and
      whether, given the answer, what is fed to psql would be all of its data. */
  datatype Dump = Dump(asks: bool, scans: bool, keeps: Answer -> bool)

  function DumpOf(f: File): Dump {
    Dump(DumpFilter.Params(DumpFilter.Header(f.Lines())) != [], f.scans, answer => Undamaged(f, answer))
  }

  /** Read to its end, the file reaches psql with all of its data. */
  predicate Undamaged(f: File, answer: Answer) {
    var strip := DumpFilter.Stripped(f.Lines(), answer);
    f.decodes && DumpFilter.Fed(f.Lines(), answer) == DumpFilter.Sed(f.head, strip) + f.body
  }

  /** It does exactly if none of the data is spelt like a setting to strip. */
  lemma {:induction false} KeepsMeans(f: File, answer: Answer)
    ensures DumpOf(f).keeps(answer) <==>
            f.decodes && DumpFilter.NoneStruck(f.body, DumpFilter.Stripped(f.Lines(), answer))
  {
    var strip := DumpFilter.Stripped(f.Lines(), answer);
    DumpFilter.SedAppend(f.head, f.body, strip);
    DumpFilter.SedLength(f.body, strip);
  }

  /** What the site config and the workstation hold. */
  datatype Job =
    | NoFile
    | Refused                    // file not found, or a database or owner name that is not a plain one
    | Ready(dump: Dump, migrationPolls: nat)

  /** The first node that answers 200 on /primary. */
  function FindPrimary(s: Session, o: Oracle, i: nat): (g: Waited)
    ensures Extends(s, g.s)
    decreases |s.fleet.nodes| - i
  {
    if i >= |s.fleet.nodes| then Waited(s, Expired)
    else
      var s1 := Next(s, o, AskPrimary(i));
      if LastCode(s1).Lost? then Waited(s1, Broken)
      else if LastPassed(s1) then Waited(s1, Open)
      else FindPrimary(s1, o, i + 1)
  }

  function StopAll(s: Session, o: Oracle, i: nat): (r: Run)
    ensures Extends(s, r.s)
    decreases |s.fleet.nodes| - i
  {
    if i >= |s.fleet.nodes| then Run(s, true)
    else
      var s1 := Next(s, o, Down(i));
      if LastCode(s1).Zero? then StopAll(s1, o, i + 1) else Run(s1, false)
  }

  function Upload(s: Session, o: Oracle): (r: Run)
    ensures Extends(s, r.s)
  {
    var s1 := Next(s, o, Put);
    if !LastCode(s1).Zero? then Run(s1, false) else
    var s2 := Next(s1, o, Chmod);
    if LastCode(s2).Lost? then Run(s2, false) else
    var s3 := Next(s2, o, Hash);
    if LastCode(s3).Lost? then Run(s3, false)
    else if !LastPassed(s3) then Run(Next(s3, o, Remove), false)
    else Run(s3, true)
  }

  /** Drop and create, load, delete the upload, re-own, and count what is still owned by others.
      The load's exit code is psql's alone: the reader that feeds it may have stopped early. */
  function Swap(s: Session, o: Oracle, whole: bool): (r: Run)
    ensures Extends(s, r.s)
  {
    var s1 := Next(s, o, Recreate);
    if !LastCode(s1).Zero? then Run(s1, false) else
    var s2 := Next(s1, o, Load(whole));
    if LastCode(s2).Lost? then Run(s2, false) else
    var s3 := Next(s2, o, Remove);
    if LastCode(s3).Lost? || !LastCode(s2).Zero? then Run(s3, false) else
    var s4 := Next(s3, o, Reown);
    if !LastCode(s4).Zero? then Run(s4, false) else
    var s5 := Next(s4, o, CountStray);
    Run(s5, LastPassed(s5))
  }

  /** Start one node's pair and gate on it. */
  function Join(s: Session, o: Oracle, i: nat): (r: Run)
    ensures Extends(s, r.s)
  {
    var s1 := Next(s, o, Up(i));
    if !LastCode(s1).Zero? then Run(s1, false)
    else
      Rollout.GateExtends(s1, o, i, true, HEALTHY_POLLS);
      var g := Gate(s1, o, i, true, HEALTHY_POLLS);
      Run(g.s, g.verdict.Open?)
  }

  function Joins(o: Oracle): (visit: Rollout.Visit)
    ensures Rollout.Proceeds(visit)
    ensures forall c: Session, k: nat :: visit(c, k) == Join(c, o, k)
  { (c: Session, k: nat) => Join(c, o, k) }

  function JoinOthers(s: Session, o: Oracle): (r: Run)
    ensures Extends(s, r.s)
  { Rollout.Others(s, Joins(o), 0) }

  /** Start one service alone on node l and gate on it. */
  function StartService(s: Session, o: Oracle, l: nat, service: Service, polls: nat): (r: Run)
    ensures Extends(s, r.s)
  {
    var s1 := Next(s, o, UpOnly(l, service));
    if !LastCode(s1).Zero? then Run(s1, false)
    else
      Rollout.GateExtends(s1, o, l, service.Server?, polls);
      var g := Gate(s1, o, l, service.Server?, polls);
      Run(g.s, g.verdict.Open?)
  }

  function Revive(s: Session, o: Oracle, migrationPolls: nat): (r: Run)
    ensures Extends(s, r.s)
  {
    var l := Rollout.LeaderIndex(s.fleet.nodes);
    if l == |s.fleet.nodes| then Run(s, false) else
    var w := StartService(s, o, l, Worker, migrationPolls);
    if !w.ok then w else
    var v := StartService(w.s, o, l, Server, HEALTHY_POLLS);
    if !v.ok then v else JoinOthers(v.s, o)
  }

  datatype Surveyed = Surveyed(s: Session, ok: bool, answer: Answer)

  /** Locate the primary, scan the dump's header and compare it with the server: nothing is touched. */
  function Survey(s: Session, o: Oracle, d: Dump): (v: Surveyed)
    ensures Extends(s, v.s)
  {
    var f := FindPrimary(s, o, 0);
    if !f.verdict.Open? || !d.scans then Surveyed(f.s, false, StateFile.None)
    else if !d.asks then Surveyed(f.s, true, StateFile.None)
    else
      var s1 := Next(f.s, o, AskSettings);
      Surveyed(s1, !LastCode(s1).Lost?,
               if LastCode(s1).Zero? then StateFile.Some(o(f.s.clock).known) else StateFile.None)
  }

  /** Survey, stop, upload: what comes before the drop. */
  function Stage(s: Session, o: Oracle, d: Dump): (v: Surveyed)
    ensures Extends(s, v.s)
  {
    var f := Survey(s, o, d);
    if !f.ok then f else
    var h := StopAll(f.s, o, 0);
    if !h.ok then Surveyed(h.s, false, f.answer) else
    var u := Upload(h.s, o);
    Surveyed(u.s, u.ok, f.answer)
  }

  /** What was restored is noted in the state file. */
  function Noted(w: Run, o: Oracle): (r: Run)
    ensures Extends(w.s, r.s)
  { if !w.ok then w else Run(Next(w.s, o, Note), LastCode(Next(w.s, o, Note)).Zero?) }

  /** Everything up to bringing the nodes back. */
  function Replace(s: Session, o: Oracle, d: Dump): (r: Run)
    ensures Extends(s, r.s)
  {
    var g := Stage(s, o, d);
    if !g.ok then Run(g.s, false) else Noted(Swap(g.s, o, d.keeps(g.answer)), o)
  }

  /** All of the dump's data reaches psql: the dump and the filter yield all of it, and what feeds psql
      runs to its end. */
  predicate Arrives(s: Session, o: Oracle, d: Dump) { ArrivesFrom(Stage(s, o, d), o, d) }

  predicate ArrivesFrom(g: Surveyed, o: Oracle, d: Dump) {
    d.keeps(g.answer) && o(g.s.clock + 1).through
  }

  function Apply(s: Session, o: Oracle, job: Job): (r: Run)
    ensures Extends(s, r.s)
  {
    match job
    case NoFile => Run(s, true)
    case Refused => Run(s, false)
    case Ready(d, migrationPolls) =>
      var w := Replace(s, o, d);
      if !w.ok then w else Revive(w.s, o, migrationPolls)
  }

  // ------------------------------------------------------------------ the phase as it runs

  method DoFindPrimary(op: Operator) returns (v: Verdict)
    modifies op
    ensures Waited(op.View(), v) == FindPrimary(old(op.View()), op.oracle, 0)
  {
    var i := 0;
    while i < |op.fleet.nodes|
      invariant 0 <= i <= |op.fleet.nodes|
      invariant FindPrimary(old(op.View()), op.oracle, 0) == FindPrimary(op.View(), op.oracle, i)
    {
      var code, passed := op.Issue(AskPrimary(i));
      if code.Lost? { return Broken; }
      if passed { return Open; }
      i := i + 1;
    }
    return Expired;
  }

  method DoSurvey(op: Operator, d: Dump) returns (ok: bool, answer: Answer)
    modifies op
    ensures var v := Survey(old(op.View()), op.oracle, d);
            op.View() == v.s && ok == v.ok && answer == v.answer
  {
    var found := DoFindPrimary(op);
    if !found.Open? || !d.scans { return false, StateFile.None; }
    if !d.asks { return true, StateFile.None; }
    var known := op.oracle(op.clock).known;
    var code, _ := op.Issue(AskSettings);
    return !code.Lost?, if code.Zero? then StateFile.Some(known) else StateFile.None;
  }

  method DoStopAll(op: Operator) returns (ok: bool)
    modifies op
    ensures var r := StopAll(old(op.View()), op.oracle, 0); op.View() == r.s && ok == r.ok
  {
    var i := 0;
    while i < |op.fleet.nodes|
      invariant 0 <= i <= |op.fleet.nodes|
      invariant StopAll(old(op.View()), op.oracle, 0) == StopAll(op.View(), op.oracle, i)
    {
      var code, _ := op.Issue(Down(i));
      if !code.Zero? { return false; }
      i := i + 1;
    }
    return true;
  }

  method DoUpload(op: Operator) returns (ok: bool)
    modifies op
    ensures var r := Upload(old(op.View()), op.oracle); op.View() == r.s && ok == r.ok
  {
    var put, _ := op.Issue(Put);
    if !put.Zero? { return false; }
    var chmod, _ := op.Issue(Chmod);
    if chmod.Lost? { return false; }
    var hash, matches := op.Issue(Hash);
    if hash.Lost? { return false; }
    if !matches {
      var _, _ := op.Issue(Remove);
      return false;
    }
    return true;
  }

  method DoSwap(op: Operator, whole: bool) returns (ok: bool)
    modifies op
    ensures var r := Swap(old(op.View()), op.oracle, whole); op.View() == r.s && ok == r.ok
  {
    var created, _ := op.Issue(Recreate);
    if !created.Zero? { return false; }
    var loaded, _ := op.Issue(Load(whole));
    if loaded.Lost? { return false; }
    var removed, _ := op.Issue(Remove);
    if removed.Lost? { return false; }
    if !loaded.Zero? { return false; }
    var owned, _ := op.Issue(Reown);
    if !owned.Zero? { return false; }
    var _, none := op.Issue(CountStray);
    return none;
  }

  method DoStartService(op: Operator, l: nat, service: Service, polls: nat) returns (ok: bool)
    modifies op
    ensures var r := StartService(old(op.View()), op.oracle, l, service, polls);
            op.View() == r.s && ok == r.ok
  {
    var code, _ := op.Issue(UpOnly(l, service));
    if !code.Zero? { return false; }
    var v := op.WaitHealthy(l, service.Server?, polls);
    return v.Open?;
  }

  method DoJoin(op: Operator, i: nat) returns (ok: bool)
    modifies op
    ensures var r := Join(old(op.View()), op.oracle, i); op.View() == r.s && ok == r.ok
  {
    var code, _ := op.Issue(Up(i));
    if !code.Zero? { return false; }
    var v := op.WaitHealthy(i, true, HEALTHY_POLLS);
    return v.Open?;
  }

  method DoJoinOthers(op: Operator) returns (ok: bool)
    modifies op
    ensures var r := JoinOthers(old(op.View()), op.oracle); op.View() == r.s && ok == r.ok
  {
    var i := 0;
    while i < |op.fleet.nodes|
      invariant 0 <= i <= |op.fleet.nodes|
      invariant JoinOthers(old(op.View()), op.oracle) == Rollout.Others(op.View(), Joins(op.oracle), i)
    {
      if !op.fleet.nodes[i].leader {
        var good := DoJoin(op, i);
        if !good { return false; }
      }
      i := i + 1;
    }
    return true;
  }

  method DoRevive(op: Operator, migrationPolls: nat) returns (ok: bool)
    modifies op
    ensures var r := Revive(old(op.View()), op.oracle, migrationPolls); op.View() == r.s && ok == r.ok
  {
    var l := Rollout.LeaderIndex(op.fleet.nodes);
    if l == |op.fleet.nodes| { return false; }
    ok := DoStartService(op, l, Worker, migrationPolls);
    if !ok { return; }
    ok := DoStartService(op, l, Server, HEALTHY_POLLS);
    if !ok { return; }
    ok := DoJoinOthers(op);
  }

  method DoStage(op: Operator, d: Dump) returns (ok: bool, answer: Answer)
    modifies op
    ensures var v := Stage(old(op.View()), op.oracle, d);
            op.View() == v.s && ok == v.ok && answer == v.answer
  {
    ok, answer := DoSurvey(op, d);
    if !ok { return; }
    ok := DoStopAll(op);
    if !ok { return; }
    ok := DoUpload(op);
  }

  method DoReplace(op: Operator, d: Dump) returns (ok: bool)
    modifies op
    ensures var r := Replace(old(op.View()), op.oracle, d); op.View() == r.s && ok == r.ok
  {
    var answer;
    ok, answer := DoStage(op, d);
    if !ok { return; }
    ok := DoSwap(op, d.keeps(answer));
    if !ok { return; }
    var noted, _ := op.Issue(Note);
    return noted.Zero?;
  }

  method ApplyRestore(op: Operator, job: Job) returns (ok: bool)
    modifies op
    ensures var r := Apply(old(op.View()), op.oracle, job); op.View() == r.s && ok == r.ok
  {
    match job
    case NoFile => return true;
    case Refused => return false;
    case Ready(d, migrationPolls) =>
      ok := DoReplace(op, d);
      if !ok { return; }
      ok := DoRevive(op, migrationPolls);
  }
}
