/** `akro shutdown` and `akro start`, each a single-phase run outside the pipeline: start is gated on
    the mark the last shutdown left, and clears it when its apply completes. */
module Lifecycle {
  import opened StateFile
  import opened Runner

  const GATE := Phase("authentik-shutdown", false)
  const START := Phase("authentik-start", false)

  /** `cleared` is how the save that clears the gate at the end of start's apply goes. */
  datatype Command = Shutdown(f: Fate) | Start(f: Fate, cleared: SaveFate)

  /** What an onlooker sees: a mark of the gate that reaches the file, and whether the command that
      set it had completed its work; and a start reaching for the nodes, with the gate as it read it. */
  datatype Sight = GateMarked(status: Status, completed: bool) | Touched(gate: Status)

  /** A completed shutdown, and a start whose apply completed, each on file. */
  const SHUT := GateMarked(Done, true)
  const STARTED := GateMarked(Started, true)

  datatype Lived = Lived(p: Proc, end: End, sights: seq<Sight>)

  /** The mark a shutdown gets as far as setting. */
  function ShutdownMark(f: Fate): Option<Sight> {
    if !f.planned || f.reply.NoReply? then None
    else if f.reply.No? then Some(GateMarked(Declined, false))
    else if f.applied.Died? then None
    else if f.applied.Threw? then Some(GateMarked(Failed, false))
    else
      match f.verified
      case NoVerdict => None
      case Bad => Some(GateMarked(Failed, false))
      case Good => Some(SHUT)
  }

  /** The shutdown phase records no tag. */
  function Untagged(f: Fate): Fate {
    match f.applied
    case Did(_) => f.(applied := Did(false))
    case Threw(_) => f.(applied := Threw(false))
    case Died(_) => f.(applied := Died(false))
  }

  function RunShutdown(p: Proc, f: Fate): Lived {
    var t := TakeTurn(p, GATE, Untagged(f));
    var mark := ShutdownMark(f);
    Lived(t.p, t.end, if mark.Some? && Reaches(f.save) then [mark.value] else [])
  }

  function RunStart(p: Proc, f: Fate, cleared: SaveFate): Lived {
    var raised := f.(applied := Threw(false));
    var gate := StatusOf(p.data, GATE.name);
    if !f.planned || !f.reply.Yes? || gate != Done then
      var t := TakeTurn(p, START, raised);
      Lived(t.p, t.end, [])
    else if f.applied.Died? then Lived(p, Gone, [Touched(gate)])
    else if f.applied.Threw? then
      var t := TakeTurn(p, START, raised);
      Lived(t.p, t.end, [Touched(gate)])
    else
      var p1 := MarkIn(p, GATE.name, Started, Note("cleared"), cleared);
      if Raising(cleared) then
        // apply raised: the mark of the failed start writes the memory it left
        var t := TakeTurn(p1, START, raised);
        Lived(t.p, t.end, [Touched(gate)] +
          (if Reaches(cleared) || Reaches(f.save) then [GateMarked(Started, false)] else []))
      else if !cleared.Completes? then
        Lived(p1, Gone, [Touched(gate)] + (if Reaches(cleared) then [STARTED] else []))
      else
        var t := TakeTurn(p1, START, f.(applied := Did(false)));
        Lived(t.p, t.end, [Touched(gate), STARTED])
  }

  method DoStart(st: State, f: Fate, cleared: SaveFate) returns (end: End, touched: bool)
    modifies st
    ensures var r := RunStart(Proc(old(st.data), old(st.disk)), f, cleared);
            && Proc(st.data, st.disk) == r.p && end == r.end
            && (touched <==> r.sights != [])
  {
    touched := false;
    var raised := f.(applied := Threw(false));
    if !f.planned || !f.reply.Yes? || StatusOf(st.data, GATE.name) != Done {
      end := DoTurn(st, START, raised);
      return;
    }
    touched := true;
    if f.applied.Died? { return Gone, touched; }
    if f.applied.Threw? {
      end := DoTurn(st, START, raised);
      return;
    }
    var alive := st.MarkPhase(GATE.name, Started, Note("cleared"), cleared);
    if Raising(cleared) {
      end := DoTurn(st, START, raised);
    } else if !alive {
      end := Gone;
    } else {
      end := DoTurn(st, START, f.(applied := Did(false)));
    }
  }

  function Perform(p: Proc, c: Command): Lived {
    match c
    case Shutdown(f) => RunShutdown(p, f)
    case Start(f, cleared) => RunStart(p, f, cleared)
  }

  /** Each command is its own process: it reads the file, and the file is all it leaves. */
  function Sights(disk: Disk, site: string, cs: seq<Command>): seq<Sight>
    decreases |cs|
  {
    if cs == [] then []
    else
      var d := Load(disk, site);
      if d.None? then Sights(disk, site, cs[1..])
      else
        var r := Perform(Proc(d.value, disk), cs[0]);
        r.sights + Sights(r.p.disk, site, cs[1..])
  }

  // ------------------------------------------------------------------ what start records

  /** Whether start gets past the prompt and the gate. */
  predicate Admitted(p: Proc, f: Fate) { Taken(f) && StatusOf(p.data, GATE.name) == Done }

  function Statuses(d: Data): (Status, Status) { (StatusOf(d, GATE.name), StatusOf(d, START.name)) }

  lemma TwoPhases()
    ensures GATE.name != START.name
  { assert |START.name| != |GATE.name|; }

  /** A start that is not admitted touches no node: it is declined, or fails for want of a shutdown, or ends
      with nothing changed; and the gate stays as it is. */
  lemma {:induction false} RefusedStart(p: Proc, f: Fate, cleared: SaveFate)
    requires !Admitted(p, f)
    ensures var r := RunStart(p, f, cleared); var (gate, was) := Statuses(p.data);
      && r.sights == [] && r.end != Finished(true)
      && (f.planned && f.reply.No? ==> Statuses(r.p.data) == (gate, Declined))
      && (Taken(f) ==> Statuses(r.p.data) == (gate, Failed))
      && (!f.planned || f.reply.NoReply? ==> r.p == p && r.end.Gone?)
  { TwoPhases(); }

  /** One that is reaches for the nodes.  The gate is cleared in memory exactly if its apply gets to the end;
      start is done exactly if the gate was cleared and saved and verify found it well, and failed if apply
      or that save raised, or verify found it ill; and otherwise the process is gone. */
  lemma {:induction false} AdmittedStart(p: Proc, f: Fate, cleared: SaveFate)
    requires Admitted(p, f)
    ensures var r := RunStart(p, f, cleared); var (gate, was) := Statuses(p.data);
      && r.sights != [] && r.sights[0] == Touched(Done)
      && (f.applied.Died? ==> r.p == p && r.end.Gone?)
      && (f.applied.Threw? ==> Statuses(r.p.data) == (Done, Failed))
      && (f.applied.Did? && Raising(cleared) ==> Statuses(r.p.data) == (Started, Failed))
      && (f.applied.Did? && cleared.Stops? && cleared.dies ==> Statuses(r.p.data) == (Started, was) && r.end.Gone?)
      && (f.applied.Did? && cleared.Completes? ==>
            Statuses(r.p.data) ==
              (Started, match f.verified case Good => Done case Bad => Failed case NoVerdict => was))
      && (r.end == Finished(true) <==>
            f.applied.Did? && cleared.Completes? && f.verified.Good? && f.save.Completes?)
  { TwoPhases(); }

  /** A shutdown is seen to complete exactly if it was taken on, stopped every node and found them stopped,
      and its mark reaches the file. */
  lemma {:induction false} ShutdownShows(p: Proc, f: Fate)
    ensures var ss := RunShutdown(p, f).sights;
      && (SHUT in ss ==> Taken(f) && f.applied.Did? && f.verified.Good? && Reaches(f.save))
      && (Taken(f) && f.applied.Did? && f.verified.Good? && Reaches(f.save) ==> ss == [SHUT])
      && forall s :: s in ss && s != SHUT ==> s.GateMarked? && !s.completed
  {}

  /** A start is seen to complete exactly if it was admitted, got to the end of its apply and the save that
      clears the gate did not raise but got through. */
  lemma {:induction false} StartShows(p: Proc, f: Fate, cleared: SaveFate)
    ensures var ss := RunStart(p, f, cleared).sights;
      && (STARTED in ss ==> Admitted(p, f) && f.applied.Did? && !Raising(cleared) && Reaches(cleared))
      && (Admitted(p, f) && f.applied.Did? && !Raising(cleared) && Reaches(cleared) ==> STARTED in ss)
      && forall s :: s in ss && s != STARTED ==> s.Touched? || !s.completed
  {}

  // ------------------------------------------------------------------ one command

  function GateOn(disk: Disk, site: string): Status { StatusOf(OnFile(disk, site), GATE.name) }

  /** At most one mark, done only by a shutdown that completed. */
  predicate ShutdownSights(ss: seq<Sight>) {
    ss == [] || (|ss| == 1 && ss[0].GateMarked? && ss[0].status != Started
                 && (ss[0].status == Done ==> ss[0].completed))
  }

  /** Nothing, or a touch and at most the gate cleared. */
  predicate StartSights(ss: seq<Sight>) {
    ss == [] || (ss[0].Touched? && (|ss| == 1 || (|ss| == 2 && ss[1].GateMarked? && ss[1].status == Started)))
  }

  /** The last gate mark seen, if any. */
  function LastMark(ss: seq<Sight>, before: Sight): Sight {
    if ss == [] then before
    else if ss[|ss| - 1].GateMarked? then ss[|ss| - 1]
    else LastMark(ss[..|ss| - 1], before)
  }

  /** What start reads is what is on file, and the marks seen are the ones the file goes by. */
  predicate Follows(ss: seq<Sight>, before: Status, after: Status) {
    && (|ss| > 0 && ss[0].Touched? ==> ss[0].gate == before == Done)
    && (if |ss| == 0 || ss[|ss| - 1].Touched? then after == before else after == ss[|ss| - 1].status)
  }

  lemma {:induction false} ShutdownFollows(p: Proc, f: Fate, site: string)
    requires Synced(p, site)
    ensures var r := RunShutdown(p, f);
      ShutdownSights(r.sights) && Follows(r.sights, GateOn(p.disk, site), GateOn(r.p.disk, site))
  {
    MarkOnFile(p, GATE.name, Declined, NoDetail, f.save, site);
    MarkOnFile(p, GATE.name, Failed, Error("apply"), f.save, site);
    MarkOnFile(p, GATE.name, Failed, NoDetail, f.save, site);
    MarkOnFile(p, GATE.name, Done, NoDetail, f.save, site);
  }

  /** A turn of start itself leaves the gate alone. */
  lemma {:induction false} StartTurnFrames(p: Proc, f: Fate, site: string)
    requires Synced(p, site)
    ensures GateOn(TakeTurn(p, START, f).p.disk, site) == GateOn(p.disk, site)
  {
    TurnOnFile(p, START, f, site);
    assert |START.name| != |GATE.name|;
  }

  /** If clearing the gate raises, the mark of the failed start writes it after all, or nothing. */
  lemma {:induction false} RaisedGate(p: Proc, cleared: SaveFate, f: Fate, site: string)
    requires Synced(p, site) && Raising(cleared) && f.applied == Threw(false) && f.planned && f.reply.Yes?
    ensures GateOn(TakeTurn(MarkIn(p, GATE.name, Started, Note("cleared"), cleared), START, f).p.disk, site) ==
              if Reaches(cleared) || Reaches(f.save) then Started else GateOn(p.disk, site)
  {
    assert |START.name| != |GATE.name|;
  }

  lemma {:induction false} StartFollows(p: Proc, f: Fate, cleared: SaveFate, site: string)
    requires Synced(p, site)
    ensures var r := RunStart(p, f, cleared);
      StartSights(r.sights) && Follows(r.sights, GateOn(p.disk, site), GateOn(r.p.disk, site))
  {
    StartTurnFrames(p, f.(applied := Threw(false)), site);
    if f.planned && f.reply.Yes? && StatusOf(p.data, GATE.name) == Done && f.applied.Did? {
      MarkOnFile(p, GATE.name, Started, Note("cleared"), cleared, site);
      if Raising(cleared) { RaisedGate(p, cleared, f.(applied := Threw(false)), site); }
      if cleared.Completes? {
        StartTurnFrames(MarkIn(p, GATE.name, Started, Note("cleared"), cleared), f.(applied := Did(false)), site);
      }
    }
  }

  lemma {:induction false} CommandFollows(p: Proc, c: Command, site: string)
    requires Synced(p, site)
    ensures var r := Perform(p, c);
      && (ShutdownSights(r.sights) || StartSights(r.sights))
      && Follows(r.sights, GateOn(p.disk, site), GateOn(r.p.disk, site))
  {
    match c {
      case Shutdown(f) => ShutdownFollows(p, f, site);
      case Start(f, cleared) => StartFollows(p, f, cleared, site);
    }
  }

  /** The first command's sights, and what it leaves on file for the others. */
  lemma {:induction false} First(disk: Disk, site: string, cs: seq<Command>) returns (a: seq<Sight>, left: Disk)
    requires cs != []
    ensures Sights(disk, site, cs) == a + Sights(left, site, cs[1..])
    ensures ShutdownSights(a) || StartSights(a)
    ensures Follows(a, GateOn(disk, site), GateOn(left, site))
  {
    var d := Load(disk, site);
    if d.None? {
      a, left := [], disk;
      assert Sights(disk, site, cs) == [] + Sights(disk, site, cs[1..]);
    } else {
      var r := Perform(Proc(d.value, disk), cs[0]);
      CommandFollows(Proc(d.value, disk), cs[0], site);
      a, left := r.sights, r.p.disk;
    }
  }

  // ------------------------------------------------------------------ what the gate was set by

  lemma {:induction false} LastMarkAppend(a: seq<Sight>, b: seq<Sight>, before: Sight)
    ensures LastMark(a + b, before) == LastMark(b, LastMark(a, before))
    decreases |b|
  {
    if b == [] { assert a + b == a; }
    else {
      var n := |b| - 1;
      assert (a + b)[..|a + b| - 1] == a + b[..n] && (a + b)[|a + b| - 1] == b[n];
      if !b[n].GateMarked? { LastMarkAppend(a, b[..n], before); }
    }
  }

  /** Without a mark among them, what was there before shows through. */
  lemma {:induction false} LastMarkBefore(ss: seq<Sight>, x: Sight, y: Sight)
    ensures LastMark(ss, x) == LastMark(ss, y) || (LastMark(ss, x) == x && LastMark(ss, y) == y)
  { if ss != [] && !ss[|ss| - 1].GateMarked? { LastMarkBefore(ss[..|ss| - 1], x, y); } }

  /** What one command's sights say the gate was last set to is what the file says; and done only by a
      shutdown that completed. */
  lemma {:induction false} CommandLastMark(ss: seq<Sight>, before: Status, after: Status)
    requires (ShutdownSights(ss) || StartSights(ss)) && Follows(ss, before, after)
    ensures var m := LastMark(ss, GateMarked(before, true));
      m.GateMarked? && m.status == after && (after == Done ==> m == SHUT)
  {
    if |ss| == 1 && ss[0].Touched? { assert ss[..0] == []; }
  }

  /** In every trace of shutdowns and starts, with any declines, failures, deaths, saves that raise and
      retries: start reaches for a node only if the gate reads done, and then the last mark of the gate
      on file is that of a shutdown that completed (or the gate stood open at first). */
  lemma {:induction false} TouchesFollowShutdowns(disk: Disk, site: string, cs: seq<Command>, j: nat)
    requires j < |Sights(disk, site, cs)| && Sights(disk, site, cs)[j].Touched?
    ensures var ss := Sights(disk, site, cs);
      ss[j].gate == Done && LastMark(ss[..j], GateMarked(GateOn(disk, site), true)) == SHUT
    decreases |cs|
  {
    var a, left := First(disk, site, cs);
    var rest := Sights(left, site, cs[1..]);
    HeadOf(a, rest, j);
    if j < |a| {
      assert j == 0;
    } else {
      Shifted(a, rest, j - |a|);
      TouchesFollowShutdowns(left, site, cs[1..], j - |a|);
      TouchLater(a, rest, j - |a|, GateOn(disk, site), GateOn(left, site));
    }
  }

  lemma {:induction false} TouchLater(a: seq<Sight>, b: seq<Sight>, j: nat, before: Status, after: Status)
    requires (ShutdownSights(a) || StartSights(a)) && Follows(a, before, after)
    requires j < |b| && b[j].Touched? && b[j].gate == Done
    requires LastMark(b[..j], GateMarked(after, true)) == SHUT
    ensures (a + b)[|a| + j] == b[j]
    ensures LastMark((a + b)[..|a| + j], GateMarked(before, true)) == SHUT
  {
    CommandLastMark(a, before, after);
    assert (a + b)[..|a| + j] == a + b[..j];
    LastMarkAppend(a, b[..j], GateMarked(before, true));
    LastMarkBefore(b[..j], LastMark(a, GateMarked(before, true)), GateMarked(after, true));
  }

  // ------------------------------------------------------------------ counting

  function Count(sights: seq<Sight>, s: Sight): nat {
    if sights == [] then 0 else (if sights[0] == s then 1 else 0) + Count(sights[1..], s)
  }

  lemma CountAppend(a: seq<Sight>, b: seq<Sight>, s: Sight)
    ensures Count(a + b, s) == Count(a, s) + Count(b, s)
  {
    if a == [] { assert a + b == b; }
    else { assert (a + b)[1..] == a[1..] + b; CountAppend(a[1..], b, s); }
  }

  /** 1 while a start may pass the gate. */
  function Credit(gate: Status): nat { if gate == Done then 1 else 0 }

  lemma CountFew(ss: seq<Sight>, s: Sight)
    ensures |ss| == 0 ==> Count(ss, s) == 0
    ensures |ss| == 1 ==> Count(ss, s) == if ss[0] == s then 1 else 0
    ensures |ss| == 2 ==> Count(ss, s) == (if ss[0] == s then 1 else 0) + if ss[1] == s then 1 else 0
  {
    if |ss| == 2 { assert ss == [ss[0]] + [ss[1]]; CountAppend([ss[0]], [ss[1]], s); }
  }

  /** One command spends no more than it finds. */
  lemma {:induction false} CommandCredit(ss: seq<Sight>, before: Status, after: Status)
    requires (ShutdownSights(ss) || StartSights(ss)) && Follows(ss, before, after)
    ensures Count(ss, STARTED) + Credit(after) <= Count(ss, SHUT) + Credit(before)
  {
    CountFew(ss, STARTED);
    CountFew(ss, SHUT);
  }

  /** In every such trace completed starts never outnumber completed shutdowns plus the credit at the
      beginning. */
  lemma {:induction false} StartsNeverOutnumberShutdowns(disk: Disk, site: string, cs: seq<Command>)
    ensures var ss := Sights(disk, site, cs); Count(ss, STARTED) <= Count(ss, SHUT) + Credit(GateOn(disk, site))
    decreases |cs|
  {
    if cs == [] { return; }
    var a, left := First(disk, site, cs);
    CommandCredit(a, GateOn(disk, site), GateOn(left, site));
    StartsNeverOutnumberShutdowns(left, site, cs[1..]);
    CountAppend(a, Sights(left, site, cs[1..]), STARTED);
    CountAppend(a, Sights(left, site, cs[1..]), SHUT);
  }

  // ------------------------------------------------------------------ alternation

  /** Some shutdown completes strictly between the i-th and the j-th sight. */
  ghost predicate ShutdownAmong(ss: seq<Sight>, i: int, j: int) {
    exists k: nat :: i < k < j && k < |ss| && ss[k] == SHUT
  }

  lemma Shifted(a: seq<Sight>, b: seq<Sight>, k: nat)
    requires k < |b|
    ensures (a + b)[|a| + k] == b[k]
  {}

  lemma HeadOf(a: seq<Sight>, b: seq<Sight>, k: nat)
    requires k < |a + b|
    ensures k < |a| ==> (a + b)[k] == a[k]
  {}

  lemma AmongShifted(a: seq<Sight>, b: seq<Sight>, i: int, j: int)
    requires ShutdownAmong(b, i, j)
    ensures ShutdownAmong(a + b, i + |a|, j + |a|)
  {
    var k: nat :| i < k < j && k < |b| && b[k] == SHUT;
    Shifted(a, b, k);
  }

  /** With the gate shut, a first command shows a completed shutdown first, or leaves it shut. */
  lemma {:induction false} ShutGate(ss: seq<Sight>, before: Status, after: Status)
    requires (ShutdownSights(ss) || StartSights(ss)) && Follows(ss, before, after) && before != Done
    ensures ss == [] || (|ss| == 1 && ss[0].GateMarked?)
    ensures after == Done ==> ss == [SHUT]
    ensures forall k :: 0 <= k < |ss| ==> ss[k] != STARTED
  {}

  /** Without credit, no start completes before a shutdown has. */
  lemma {:induction false} NoStartWithoutShutdown(disk: Disk, site: string, cs: seq<Command>, j: nat)
    requires GateOn(disk, site) != Done
    requires j < |Sights(disk, site, cs)| && Sights(disk, site, cs)[j] == STARTED
    ensures ShutdownAmong(Sights(disk, site, cs), -1, j)
    decreases |cs|
  {
    var a, left := First(disk, site, cs);
    var rest := Sights(left, site, cs[1..]);
    ShutGate(a, GateOn(disk, site), GateOn(left, site));
    HeadOf(a, rest, j);
    if GateOn(left, site) == Done {
      HeadOf(a, rest, 0);
    } else {
      Shifted(a, rest, j - |a|);
      NoStartWithoutShutdown(left, site, cs[1..], j - |a|);
      AmongShifted(a, rest, -1, j - |a|);
      AmongWider(a + rest, |a| - 1, -1, j);
    }
  }

  lemma AmongWider(ss: seq<Sight>, i: int, i': int, j: int)
    requires ShutdownAmong(ss, i, j) && i' <= i
    ensures ShutdownAmong(ss, i', j)
  {
    var k: nat :| i < k < j && k < |ss| && ss[k] == SHUT;
  }

  /** A completed start is the last its command shows, and leaves the gate shut. */
  lemma {:induction false} StartedIsLast(ss: seq<Sight>, before: Status, after: Status, i: nat)
    requires (ShutdownSights(ss) || StartSights(ss)) && Follows(ss, before, after) && i < |ss| && ss[i] == STARTED
    ensures i == |ss| - 1 && after == Started
  {}

  /** Between any two completed starts lies a completed shutdown. */
  lemma {:induction false} ShutdownBetweenStarts(disk: Disk, site: string, cs: seq<Command>, i: nat, j: nat)
    requires i < j < |Sights(disk, site, cs)|
    requires Sights(disk, site, cs)[i] == STARTED && Sights(disk, site, cs)[j] == STARTED
    ensures ShutdownAmong(Sights(disk, site, cs), i, j)
    decreases |cs|
  {
    var a, left := First(disk, site, cs);
    var rest := Sights(left, site, cs[1..]);
    HeadOf(a, rest, i);
    if i < |a| {
      StartedIsLast(a, GateOn(disk, site), GateOn(left, site), i);
      Shifted(a, rest, j - |a|);
      NoStartWithoutShutdown(left, site, cs[1..], j - |a|);
      AmongShifted(a, rest, -1, j - |a|);
    } else {
      Shifted(a, rest, i - |a|);
      Shifted(a, rest, j - |a|);
      ShutdownBetweenStarts(left, site, cs[1..], i - |a|, j - |a|);
      AmongShifted(a, rest, i - |a|, j - |a|);
    }
  }
}
