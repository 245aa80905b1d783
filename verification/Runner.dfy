/** The phase runner over the state file: one invocation takes the pipeline in order, and a history
    is any number of invocations, each ending by itself or by a death at any point. */
module Runner {
  import opened StateFile

  datatype Phase = Phase(name: string, optional: bool)

  datatype Reply = Yes | No | NoReply
  /** `tagged`: apply got as far as recording its tag under the status `applying`. */
  datatype Applied = Did(tagged: bool) | Threw(tagged: bool) | Died(tagged: bool)
  datatype Verified = Good | Bad | NoVerdict

  /** How one phase's turn goes: planning may raise; the prompt, apply and verify may raise or the
      process die in them; and so may the save of the final mark. */
  datatype Fate = Fate(planned: bool, reply: Reply, applied: Applied, verified: Verified, save: SaveFate)

  /** One turn that got past planning, as an onlooker records it.  `at` is what was on record when
      it began; `passed` says whether the runner went on to the next phase. */
  datatype Turn = Turn(name: string, applied: bool, verified: bool, passed: bool, at: Data)

  datatype Proc = Proc(data: Data, disk: Disk)
  datatype End = Finished(ok: bool) | Gone
  datatype Ran = Ran(p: Proc, end: End, turns: seq<Turn>)

  function MarkIn(p: Proc, name: string, status: Status, detail: Detail, fate: SaveFate): Proc {
    var d := Marked(p.data, name, status, detail);
    Proc(d, Saved(p.disk, d, fate))
  }

  /** `end.Finished?` with ok means that the runner goes on. */
  function Settle(p: Proc, ph: Phase, status: Status, detail: Detail, f: Fate, passes: bool,
                  applied: bool, verified: bool, at: Data): Ran {
    var p' := MarkIn(p, ph.name, status, detail, f.save);
    Ran(p', if f.save.Completes? then Finished(passes) else Gone,
        [Turn(ph.name, applied, verified, passes && f.save.Completes?, at)])
  }

  function TakeTurn(p: Proc, ph: Phase, f: Fate): Ran {
    if !f.planned then Ran(p, Gone, [Turn(ph.name, false, false, false, p.data)])
    else
      match f.reply
      case NoReply => Ran(p, Gone, [Turn(ph.name, false, false, false, p.data)])
      case No =>
        if ph.optional then Settle(p, ph, Skipped, NoDetail, f, true, false, false, p.data)
        else Settle(p, ph, Declined, NoDetail, f, false, false, false, p.data)
      case Yes =>
        var p1 := if f.applied.tagged then MarkIn(p, ph.name, Applying, Tag("tag"), Completes) else p;
        match f.applied
        case Died(_) => Ran(p1, Gone, [Turn(ph.name, true, false, false, p.data)])
        case Threw(_) => Settle(p1, ph, Failed, Error("apply"), f, false, true, false, p.data)
        case Did(_) =>
          match f.verified
          case NoVerdict => Ran(p1, Gone, [Turn(ph.name, true, false, false, p.data)])
          case Bad => Settle(p1, ph, Failed, NoDetail, f, false, true, false, p.data)
          case Good => Settle(p1, ph, Done, NoDetail, f, true, true, true, p.data)
  }

  /** `fates(i)` is how the turn of the i-th phase goes, if it gets one. */
  function RunPhases(p: Proc, phases: seq<Phase>, i: nat, redo: bool, fates: nat -> Fate): Ran
    requires i <= |phases|
    decreases |phases| - i
  {
    if i == |phases| then Ran(p, Finished(true), [])
    else if StatusOf(p.data, phases[i].name) == Done && !redo then RunPhases(p, phases, i + 1, redo, fates)
    else
      var t := TakeTurn(p, phases[i], fates(i));
      if t.end != Finished(true) then t
      else
        var r := RunPhases(t.p, phases, i + 1, redo, fates);
        r.(turns := t.turns + r.turns)
  }

  // ------------------------------------------------------------------ the runner as it runs

  method DoSettle(st: State, ph: Phase, status: Status, detail: Detail, f: Fate) returns (alive: bool)
    modifies st
    ensures var p := MarkIn(Proc(old(st.data), old(st.disk)), ph.name, status, detail, f.save);
            Proc(st.data, st.disk) == p
    ensures alive <==> f.save.Completes?
  { alive := st.MarkPhase(ph.name, status, detail, f.save); }

  method DoTurn(st: State, ph: Phase, f: Fate) returns (end: End)
    modifies st
    ensures var r := TakeTurn(Proc(old(st.data), old(st.disk)), ph, f);
            Proc(st.data, st.disk) == r.p && end == r.end
  {
    if !f.planned { return Gone; }
    if f.reply.NoReply? { return Gone; }
    var alive;
    if f.reply.No? {
      if ph.optional {
        alive := DoSettle(st, ph, Skipped, NoDetail, f);
        return if alive then Finished(true) else Gone;
      }
      alive := DoSettle(st, ph, Declined, NoDetail, f);
      return if alive then Finished(false) else Gone;
    }
    if f.applied.tagged { var _ := st.MarkPhase(ph.name, Applying, Tag("tag"), Completes); }
    if f.applied.Died? { return Gone; }
    if f.applied.Threw? {
      alive := DoSettle(st, ph, Failed, Error("apply"), f);
      return if alive then Finished(false) else Gone;
    }
    if f.verified.NoVerdict? { return Gone; }
    if f.verified.Good? {
      alive := DoSettle(st, ph, Done, NoDetail, f);
      return if alive then Finished(true) else Gone;
    }
    alive := DoSettle(st, ph, Failed, NoDetail, f);
    return if alive then Finished(false) else Gone;
  }

  method DoRunPhases(st: State, phases: seq<Phase>, redo: bool, fates: nat -> Fate) returns (end: End)
    modifies st
    ensures var r := RunPhases(Proc(old(st.data), old(st.disk)), phases, 0, redo, fates);
            Proc(st.data, st.disk) == r.p && end == r.end
  {
    var i := 0;
    while i < |phases|
      invariant 0 <= i <= |phases|
      invariant var r := RunPhases(Proc(old(st.data), old(st.disk)), phases, 0, redo, fates);
                var now := RunPhases(Proc(st.data, st.disk), phases, i, redo, fates);
                r.p == now.p && r.end == now.end
    {
      if StatusOf(st.data, phases[i].name) != Done || redo {
        end := DoTurn(st, phases[i], fates(i));
        if end != Finished(true) { return; }
      }
      i := i + 1;
    }
    return Finished(true);
  }

  // ------------------------------------------------------------------ what a turn records

  /** What was on record for the phase, or would be if it had been. */
  function EntryOf(d: Data, name: string): Entry {
    if name in d.phases then d.phases[name] else Entry(Pending, None, None, None)
  }

  /** The prompt was answered yes. */
  predicate Taken(f: Fate) { f.planned && f.reply.Yes? }

  /** The fate calls for a mark at the end of the turn. */
  predicate Ends(f: Fate) {
    f.planned && (f.reply.No? || (f.reply.Yes? && (f.applied.Threw? || (f.applied.Did? && !f.verified.NoVerdict?))))
  }

  /** The status a turn leaves in memory: done exactly if the phase was planned, confirmed, applied and
      verified; skipped or declined exactly if it was refused; failed if it threw or did not verify; and
      otherwise what there was, or `applying` where the tag was recorded. */
  lemma {:induction false} TurnStatus(p: Proc, ph: Phase, f: Fate)
    ensures var now := StatusOf(TakeTurn(p, ph, f).p.data, ph.name); var was := StatusOf(p.data, ph.name);
      && (Taken(f) && f.applied.Did? && f.verified.Good? ==> now == Done)
      && (f.planned && f.reply.No? && ph.optional ==> now == Skipped)
      && (f.planned && f.reply.No? && !ph.optional ==> now == Declined)
      && (Taken(f) && (f.applied.Threw? || (f.applied.Did? && f.verified.Bad?)) ==> now == Failed)
      && (!Ends(f) ==> now == if Taken(f) && f.applied.tagged then Applying else was)
  {}

  /** The error is the one thrown, exactly if apply threw; any other mark drops it.  The tag is the one
      recorded while applying, or the old one, and the note stays; and no other phase's entry changes. */
  lemma {:induction false} TurnDetail(p: Proc, ph: Phase, f: Fate)
    ensures var d := TakeTurn(p, ph, f).p.data; var now := EntryOf(d, ph.name); var was := EntryOf(p.data, ph.name);
      var tagged := Taken(f) && f.applied.tagged;
      && now.error == (if Taken(f) && f.applied.Threw? then Some("apply")
                       else if Ends(f) || tagged then None else was.error)
      && now.tag == (if tagged then Some("tag") else was.tag) && now.note == was.note
      && (forall n :: n != ph.name ==> (n in d.phases <==> n in p.data.phases))
      && (forall n :: n != ph.name && n in d.phases ==> d.phases[n] == p.data.phases[n])
      && d.generated == p.data.generated && d.site == p.data.site
  {}

  /** What an onlooker notes is what the fate says; and the runner goes on exactly if the phase is done or
      skipped and that is saved, ends the run if it failed or was declined and that is saved, and is gone
      otherwise. */
  lemma {:induction false} TurnShows(p: Proc, ph: Phase, f: Fate)
    ensures var t := TakeTurn(p, ph, f);
      && |t.turns| == 1 && t.turns[0].name == ph.name && t.turns[0].at == p.data
      && (t.turns[0].applied <==> Taken(f))
      && (t.turns[0].verified <==> Taken(f) && f.applied.Did? && f.verified.Good?)
      && (t.end.Finished? <==> Ends(f) && f.save.Completes?)
      && (t.end == Finished(true) <==>
            && f.save.Completes? && f.planned
            && ((f.reply.No? && ph.optional) || (f.reply.Yes? && f.applied.Did? && f.verified.Good?)))
  {}

  /** What it leaves of the file: that of the save of its mark, after that of the tag if there was one. */
  lemma {:induction false} TurnSaves(p: Proc, ph: Phase, f: Fate)
    ensures var t := TakeTurn(p, ph, f);
      && (Ends(f) && Reaches(f.save) ==> t.p.disk.main == Some(Full(t.p.data)))
      && (!Ends(f) && Taken(f) && f.applied.tagged ==> t.p.disk.main == Some(Full(t.p.data)))
      && (!(Taken(f) && f.applied.tagged) && !(Ends(f) && Reaches(f.save)) ==> t.p.disk.main == p.disk.main)
  {}

  // ------------------------------------------------------------------ one plain run

  ghost predicate Distinct(phases: seq<Phase>) {
    forall i, j :: 0 <= i < j < |phases| ==> phases[i].name != phases[j].name
  }

  predicate Settled(d: Data, ph: Phase) {
    StatusOf(d, ph.name) == Done || (ph.optional && StatusOf(d, ph.name) == Skipped)
  }

  /** The phases from i on that are not on record as done, in pipeline order. */
  function Due(d: Data, phases: seq<Phase>, i: nat): seq<string>
    requires i <= |phases|
    decreases |phases| - i
  {
    if i == |phases| then []
    else if StatusOf(d, phases[i].name) == Done then Due(d, phases, i + 1)
    else [phases[i].name] + Due(d, phases, i + 1)
  }

  function Names(turns: seq<Turn>): (ns: seq<string>)
    ensures |ns| == |turns|
    ensures forall k :: 0 <= k < |turns| ==> ns[k] == turns[k].name
  { if turns == [] then [] else [turns[0].name] + Names(turns[1..]) }

  lemma NamesAppend(a: seq<Turn>, b: seq<Turn>)
    ensures Names(a + b) == Names(a) + Names(b)
  {
    assert |Names(a + b)| == |Names(a) + Names(b)|;
    forall k | 0 <= k < |a + b| ensures Names(a + b)[k] == (Names(a) + Names(b))[k] {}
  }

  /** A turn touches the record of its own phase only. */
  lemma {:induction false} TurnFrames(p: Proc, ph: Phase, f: Fate)
    ensures var t := TakeTurn(p, ph, f);
      && |t.turns| == 1 && t.turns[0].name == ph.name && t.turns[0].at == p.data
      && (t.turns[0].passed <==> t.end == Finished(true))
      && (forall n :: n != ph.name ==> StatusOf(t.p.data, n) == StatusOf(p.data, n))
      && (t.end == Finished(true) ==> Settled(t.p.data, ph))
      && (t.end == Finished(false) ==> !Settled(t.p.data, ph))
  {}

  lemma {:induction false} DueFrames(d: Data, d': Data, phases: seq<Phase>, i: nat)
    requires i <= |phases|
    requires forall k :: i <= k < |phases| ==> StatusOf(d', phases[k].name) == StatusOf(d, phases[k].name)
    ensures Due(d', phases, i) == Due(d, phases, i)
    decreases |phases| - i
  { if i < |phases| { DueFrames(d, d', phases, i + 1); } }

  /** Cut after the first turn that does not pass: what a run's turns are, as names. */
  ghost predicate CutOf(turns: seq<Turn>, due: seq<string>) {
    && Names(turns) <= due
    && (forall k :: 0 <= k < |turns| - 1 ==> turns[k].passed)
    && (|turns| < |due| ==> |turns| > 0 && !turns[|turns| - 1].passed)
  }

  /** A plain run attempts exactly the phases not on record as done, in pipeline order, up to and
      including the first that blocks. */
  lemma {:induction false} PlainRunAttemptsDue(p: Proc, phases: seq<Phase>, i: nat, fates: nat -> Fate)
    requires i <= |phases| && Distinct(phases)
    ensures var r := RunPhases(p, phases, i, false, fates);
      && CutOf(r.turns, Due(p.data, phases, i))
      && (r.end == Finished(true) <==>
            |r.turns| == |Due(p.data, phases, i)| && forall t :: t in r.turns ==> t.passed)
    decreases |phases| - i
  {
    if i < |phases| {
      if StatusOf(p.data, phases[i].name) == Done {
        PlainRunAttemptsDue(p, phases, i + 1, fates);
      } else {
        TurnFrames(p, phases[i], fates(i));
        var t := TakeTurn(p, phases[i], fates(i));
        if t.end == Finished(true) {
          PlainRunAttemptsDue(t.p, phases, i + 1, fates);
          DueFrames(p.data, t.p.data, phases, i + 1);
          var r := RunPhases(t.p, phases, i + 1, false, fates);
          NamesAppend(t.turns, r.turns);
          assert Names(t.turns) == [phases[i].name];
          CutExtends(t.turns[0], r.turns, Due(p.data, phases, i + 1));
        }
      }
    }
  }

  lemma CutExtends(t: Turn, rest: seq<Turn>, due: seq<string>)
    requires t.passed && CutOf(rest, due)
    ensures CutOf([t] + rest, [t.name] + due)
  {
    var all := [t] + rest;
    NamesAppend([t], rest);
    assert Names([t]) == [t.name];
    forall k | 0 <= k < |all| - 1 ensures all[k].passed {
      if k > 0 { assert all[k] == rest[k - 1]; }
    }
  }

  /** A run that ends by itself returns True iff every phase is done, or optional and skipped. */
  lemma {:induction false} ResultMeansSettled(p: Proc, phases: seq<Phase>, i: nat, fates: nat -> Fate)
    requires i <= |phases| && Distinct(phases)
    requires forall k :: 0 <= k < i ==> Settled(p.data, phases[k])
    ensures var r := RunPhases(p, phases, i, false, fates);
      r.end.Finished? ==> (r.end.ok <==> forall k :: 0 <= k < |phases| ==> Settled(r.p.data, phases[k]))
    decreases |phases| - i
  {
    if i < |phases| {
      if StatusOf(p.data, phases[i].name) == Done {
        ResultMeansSettled(p, phases, i + 1, fates);
      } else {
        TurnFrames(p, phases[i], fates(i));
        var t := TakeTurn(p, phases[i], fates(i));
        if t.end == Finished(true) { ResultMeansSettled(t.p, phases, i + 1, fates); }
      }
    }
  }

  /** When the turn began, every phase before its own was done, or an optional one recorded as skipped. */
  ghost predicate InTurn(t: Turn, phases: seq<Phase>) {
    forall m, k :: 0 <= m < k < |phases| && phases[k].name == t.name ==> Settled(t.at, phases[m])
  }

  lemma {:induction false} TurnIsInTurn(t: Turn, phases: seq<Phase>, i: nat)
    requires i < |phases| && Distinct(phases) && t.name == phases[i].name
    requires forall k :: 0 <= k < i ==> Settled(t.at, phases[k])
    ensures InTurn(t, phases)
  {}

  /** Whenever a plain run gives a phase a turn, every earlier phase is settled. */
  lemma {:induction false} EarlierPhasesSettled(p: Proc, phases: seq<Phase>, i: nat, fates: nat -> Fate)
    requires i <= |phases| && Distinct(phases)
    requires forall k :: 0 <= k < i ==> Settled(p.data, phases[k])
    ensures forall t :: t in RunPhases(p, phases, i, false, fates).turns ==> InTurn(t, phases)
    decreases |phases| - i
  {
    if i < |phases| {
      if StatusOf(p.data, phases[i].name) == Done {
        EarlierPhasesSettled(p, phases, i + 1, fates);
      } else {
        TurnFrames(p, phases[i], fates(i));
        var t := TakeTurn(p, phases[i], fates(i));
        TurnIsInTurn(t.turns[0], phases, i);
        if t.end == Finished(true) { EarlierPhasesSettled(t.p, phases, i + 1, fates); }
      }
    }
  }

  predicate Synced(p: Proc, site: string) { OnFile(p.disk, site) == p.data }

  lemma TurnStaysInStep(p: Proc, ph: Phase, f: Fate, site: string)
    requires Synced(p, site)
    ensures TakeTurn(p, ph, f).end.Finished? ==> Synced(TakeTurn(p, ph, f).p, site)
  {}

  lemma {:induction false} RunStaysInStep(p: Proc, phases: seq<Phase>, i: nat, redo: bool,
                                          fates: nat -> Fate, site: string)
    requires i <= |phases| && Synced(p, site)
    ensures var r := RunPhases(p, phases, i, redo, fates); r.end.Finished? ==> Synced(r.p, site)
    decreases |phases| - i
  {
    if i < |phases| {
      if StatusOf(p.data, phases[i].name) == Done && !redo {
        RunStaysInStep(p, phases, i + 1, redo, fates, site);
      } else {
        TurnStaysInStep(p, phases[i], fates(i), site);
        var t := TakeTurn(p, phases[i], fates(i));
        if t.end == Finished(true) { RunStaysInStep(t.p, phases, i + 1, redo, fates, site); }
      }
    }
  }

  /** Over a plain run that ends by itself the number of phases the file does not call done never
      grows, and it shrinks as soon as one phase verifies: repeated successful runs come to an end. */
  lemma {:induction false} PlainRunShrinksDue(p: Proc, phases: seq<Phase>, fates: nat -> Fate, site: string)
    requires Distinct(phases) && Synced(p, site)
    requires RunPhases(p, phases, 0, false, fates).end.Finished?
    ensures var r := RunPhases(p, phases, 0, false, fates); var after := OnFile(r.p.disk, site);
      && |Due(after, phases, 0)| <= |Due(p.data, phases, 0)|
      && ((exists t :: t in r.turns && t.verified) ==>
            |Due(after, phases, 0)| < |Due(p.data, phases, 0)|)
  {
    RunStaysInStep(p, phases, 0, false, fates, site);
    RunShrinksDue(p, phases, 0, fates);
  }

  /** A run touches the records of the phases it takes only. */
  lemma {:induction false} RunFrames(p: Proc, phases: seq<Phase>, i: nat, redo: bool, fates: nat -> Fate, n: string)
    requires i <= |phases| && forall k :: i <= k < |phases| ==> phases[k].name != n
    ensures StatusOf(RunPhases(p, phases, i, redo, fates).p.data, n) == StatusOf(p.data, n)
    decreases |phases| - i
  {
    if i < |phases| {
      TurnFrames(p, phases[i], fates(i));
      var t := TakeTurn(p, phases[i], fates(i));
      RunFrames(p, phases, i + 1, redo, fates, n);
      RunFrames(t.p, phases, i + 1, redo, fates, n);
    }
  }

  lemma {:induction false} RunShrinksDue(p: Proc, phases: seq<Phase>, i: nat, fates: nat -> Fate)
    requires i <= |phases| && Distinct(phases)
    ensures var r := RunPhases(p, phases, i, false, fates);
      && |Due(r.p.data, phases, i)| <= |Due(p.data, phases, i)|
      && ((exists t :: t in r.turns && t.verified) ==>
            |Due(r.p.data, phases, i)| < |Due(p.data, phases, i)|)
    decreases |phases| - i
  {
    if i < |phases| {
      var n := phases[i].name;
      if StatusOf(p.data, n) == Done {
        RunShrinksDue(p, phases, i + 1, fates);
        RunFrames(p, phases, i + 1, false, fates, n);
      } else {
        TurnFrames(p, phases[i], fates(i));
        var t := TakeTurn(p, phases[i], fates(i));
        DueFrames(p.data, t.p.data, phases, i + 1);
        if t.end == Finished(true) {
          RunShrinksDue(t.p, phases, i + 1, fates);
          RunFrames(t.p, phases, i + 1, false, fates, n);
        }
      }
    }
  }

  // ------------------------------------------------------------------ invocations

  /** `provision --replay replay --only only`; an empty `only` means the whole pipeline. */
  datatype Invocation = Invocation(replay: seq<string>, pending: nat -> SaveFate, only: seq<string>,
                                   fates: nat -> Fate)

  datatype Marking = Marking(p: Proc, alive: bool)

  function MarkPending(p: Proc, names: seq<string>, i: nat, saves: nat -> SaveFate): Marking
    requires i <= |names|
    decreases |names| - i
  {
    if i == |names| then Marking(p, true)
    else
      var p' := MarkIn(p, names[i], Pending, NoDetail, saves(i));
      if saves(i).Completes? then MarkPending(p', names, i + 1, saves) else Marking(p', false)
  }

  function Chosen(pipeline: seq<Phase>, only: seq<string>): seq<Phase> {
    if pipeline == [] then []
    else if pipeline[0].name in only then [pipeline[0]] + Chosen(pipeline[1..], only)
    else Chosen(pipeline[1..], only)
  }

  predicate Known(pipeline: seq<Phase>, only: seq<string>) {
    forall n :: n in only ==> exists ph :: ph in pipeline && ph.name == n
  }

  function Provision(disk: Disk, site: string, pipeline: seq<Phase>, inv: Invocation): Ran {
    var d := Load(disk, site);
    if d.None? then Ran(Proc(Fresh(site), disk), Gone, [])
    else
      var m := MarkPending(Proc(d.value, disk), inv.replay, 0, inv.pending);
      if !m.alive then Ran(m.p, Gone, [])
      else if inv.only == [] then RunPhases(m.p, pipeline, 0, false, inv.fates)
      else if Known(pipeline, inv.only) then
        RunPhases(m.p, Chosen(pipeline, inv.only), 0, true, inv.fates)
      else Ran(m.p, Finished(false), [])
  }

  method DoMarkPending(st: State, names: seq<string>, saves: nat -> SaveFate) returns (alive: bool)
    modifies st
    ensures var m := MarkPending(Proc(old(st.data), old(st.disk)), names, 0, saves);
            Proc(st.data, st.disk) == m.p && alive == m.alive
  {
    var i := 0;
    while i < |names|
      invariant 0 <= i <= |names|
      invariant MarkPending(Proc(old(st.data), old(st.disk)), names, 0, saves) ==
                MarkPending(Proc(st.data, st.disk), names, i, saves)
    {
      var ok := st.MarkPhase(names[i], Pending, NoDetail, saves(i));
      if !ok { return false; }
      i := i + 1;
    }
    return true;
  }

  method CmdProvision(disk: Disk, site: string, pipeline: seq<Phase>, inv: Invocation)
    returns (end: End, disk': Disk)
    ensures var r := Provision(disk, site, pipeline, inv); end == r.end && disk' == r.p.disk
  {
    var d := Load(disk, site);
    if d.None? { return Gone, disk; }
    var st := new State(d.value, disk);
    var alive := DoMarkPending(st, inv.replay, inv.pending);
    if !alive { return Gone, st.disk; }
    if inv.only == [] {
      end := DoRunPhases(st, pipeline, false, inv.fates);
    } else if Known(pipeline, inv.only) {
      end := DoRunPhases(st, Chosen(pipeline, inv.only), true, inv.fates);
    } else {
      end := Finished(false);
    }
    disk' := st.disk;
  }

  // ------------------------------------------------------------------ replay and status

  /** Due as the command line asks for it: named, or not done. */
  function ReplayDue(d: Data, phases: seq<Phase>, i: nat, replay: seq<string>): seq<string>
    requires i <= |phases|
    decreases |phases| - i
  {
    if i == |phases| then []
    else if phases[i].name in replay || StatusOf(d, phases[i].name) != Done
    then [phases[i].name] + ReplayDue(d, phases, i + 1, replay)
    else ReplayDue(d, phases, i + 1, replay)
  }

  lemma {:induction false} MarkedPending(p: Proc, names: seq<string>, i: nat, saves: nat -> SaveFate)
    requires i <= |names| && MarkPending(p, names, i, saves).alive
    ensures forall n :: StatusOf(MarkPending(p, names, i, saves).p.data, n) ==
              if n in names[i..] then Pending else StatusOf(p.data, n)
    decreases |names| - i
  {
    if i < |names| {
      MarkedPending(MarkIn(p, names[i], Pending, NoDetail, saves(i)), names, i + 1, saves);
      assert forall n :: n in names[i..] <==> n == names[i] || n in names[i + 1..];
    }
  }

  lemma {:induction false} ReplayDueIsDue(d: Data, d': Data, phases: seq<Phase>, i: nat, replay: seq<string>)
    requires i <= |phases|
    requires forall n :: StatusOf(d', n) == if n in replay then Pending else StatusOf(d, n)
    ensures Due(d', phases, i) == ReplayDue(d, phases, i, replay)
    decreases |phases| - i
  { if i < |phases| { ReplayDueIsDue(d, d', phases, i + 1, replay); } }

  /** `provision --replay S` attempts, in pipeline order, exactly the phases in S or not done, cut
      after the first that blocks; it returns True iff it reached the end of that list and every
      phase is then done, or optional and skipped. */
  lemma {:induction false} ReplayAttemptsExactly(disk: Disk, site: string, pipeline: seq<Phase>, inv: Invocation)
    requires Distinct(pipeline) && inv.only == []
    requires Load(disk, site).Some? && forall i :: inv.pending(i).Completes?
    ensures var r := Provision(disk, site, pipeline, inv);
            var due := ReplayDue(Load(disk, site).value, pipeline, 0, inv.replay);
      && CutOf(r.turns, due)
      && (r.end == Finished(true) <==> |r.turns| == |due| && forall t :: t in r.turns ==> t.passed)
      && (r.end.Finished? ==>
            (r.end.ok <==> forall k :: 0 <= k < |pipeline| ==> Settled(r.p.data, pipeline[k])))
  {
    var d := Load(disk, site).value;
    AllMarked(Proc(d, disk), inv.replay, 0, inv.pending);
    MarkedPending(Proc(d, disk), inv.replay, 0, inv.pending);
    assert inv.replay[0..] == inv.replay;
    var m := MarkPending(Proc(d, disk), inv.replay, 0, inv.pending);
    ReplayDueIsDue(d, m.p.data, pipeline, 0, inv.replay);
    PlainRunAttemptsDue(m.p, pipeline, 0, inv.fates);
    ResultMeansSettled(m.p, pipeline, 0, inv.fates);
  }

  lemma {:induction false} AllMarked(p: Proc, names: seq<string>, i: nat, saves: nat -> SaveFate)
    requires i <= |names| && forall k :: saves(k).Completes?
    ensures MarkPending(p, names, i, saves).alive
    decreases |names| - i
  {
    if i < |names| { AllMarked(MarkIn(p, names[i], Pending, NoDetail, saves(i)), names, i + 1, saves); }
  }

  datatype Row = Row(name: string, status: Status, error: string, optional: bool)

  /** The recorded error, unless the phase is done or recorded none. */
  function ErrorShown(d: Data, name: string): string {
    if StatusOf(d, name) != Done && name in d.phases && d.phases[name].error.Some?
    then d.phases[name].error.value else ""
  }

  /** Once a phase has been marked, its row shows the error of that last mark, if it was an error. */
  lemma {:induction false} ErrorOfLastMark(d: Data, name: string, status: Status, detail: Detail)
    requires detail.Error? ==> status != Done
    ensures ErrorShown(Marked(d, name, status, detail), name) == if detail.Error? then detail.text else ""
  {}

  /** One row per pipeline phase, in run order; a done phase shows no error. */
  method PhaseRows(pipeline: seq<Phase>, d: Data) returns (rows: seq<Row>)
    ensures |rows| == |pipeline|
    ensures forall k :: 0 <= k < |rows| ==>
      && rows[k].name == pipeline[k].name && rows[k].optional == pipeline[k].optional
      && rows[k].status == StatusOf(d, pipeline[k].name)
      && rows[k].error == ErrorShown(d, pipeline[k].name)
  {
    rows := [];
    var i := 0;
    while i < |pipeline|
      invariant 0 <= i <= |pipeline| && |rows| == i
      invariant forall k :: 0 <= k < i ==>
        && rows[k].name == pipeline[k].name && rows[k].optional == pipeline[k].optional
        && rows[k].status == StatusOf(d, pipeline[k].name)
        && rows[k].error == ErrorShown(d, pipeline[k].name)
    {
      var n := pipeline[i].name;
      var error := "";
      if StatusOf(d, n) != Done && n in d.phases && d.phases[n].error.Some? {
        error := d.phases[n].error.value;
      }
      rows := rows + [Row(n, StatusOf(d, n), error, pipeline[i].optional)];
      i := i + 1;
    }
  }

  /** What `status` announces: the first row not done, or that all are. */
  method CmdStatus(disk: Disk, site: string, pipeline: seq<Phase>) returns (known: bool, next: Option<string>)
    ensures known <==> Load(disk, site).Some?
    ensures known ==> var due := Due(Load(disk, site).value, pipeline, 0);
              next == if due == [] then None else Some(due[0])
  {
    var d := Load(disk, site);
    if d.None? { return false, None; }
    var rows := PhaseRows(pipeline, d.value);
    var i := 0;
    while i < |rows|
      invariant 0 <= i <= |rows|
      invariant Due(d.value, pipeline, 0) == Due(d.value, pipeline, i)
    {
      if rows[i].status != Done { return true, Some(rows[i].name); }
      i := i + 1;
    }
    return true, None;
  }

  /** The phase `status` names is the first one the next plain run attempts, and it reports all
      done exactly if that run attempts none. */
  lemma {:induction false} StatusNamesTheNextAttempt(disk: Disk, site: string, pipeline: seq<Phase>, fates: nat -> Fate)
    requires Distinct(pipeline) && Load(disk, site).Some?
    ensures var due := Due(Load(disk, site).value, pipeline, 0);
            var r := Provision(disk, site, pipeline, Invocation([], _ => Completes, [], fates));
      && (due == [] <==> r.turns == [])
      && (due != [] ==> r.turns[0].name == due[0])
  {
    var d := Load(disk, site).value;
    PlainRunAttemptsDue(Proc(d, disk), pipeline, 0, fates);
    var r := RunPhases(Proc(d, disk), pipeline, 0, false, fates);
    assert r.turns != [] ==> Names(r.turns)[0] == r.turns[0].name;
  }

  // ------------------------------------------------------------------ histories

  /** The last time the phase was applied, it went on to verify. */
  ghost predicate LastVerified(log: seq<Turn>, n: string) { exists k: nat :: VerifiedAt(log, n, k) }

  ghost predicate VerifiedAt(log: seq<Turn>, n: string, k: nat) {
    && k < |log| && log[k].name == n && log[k].applied && log[k].verified
    && forall m :: k < m < |log| && log[m].name == n ==> !log[m].applied
  }

  ghost predicate DoneIsTrue(d: Data, log: seq<Turn>) {
    forall n :: StatusOf(d, n) == Done ==> LastVerified(log, n)
  }

  lemma LastVerifiedKept(log: seq<Turn>, t: Turn, n: string)
    requires LastVerified(log, n) && (t.name != n || !t.applied)
    ensures LastVerified(log + [t], n)
  {
    var k: nat :| VerifiedAt(log, n, k);
    var all := log + [t];
    forall m | k < m < |all| && all[m].name == n ensures !all[m].applied {
      if m < |log| { assert all[m] == log[m]; }
    }
    assert VerifiedAt(all, n, k);
  }

  lemma UnverifiedLast(log: seq<Turn>, t: Turn)
    requires t.applied && !t.verified
    ensures !LastVerified(log + [t], t.name)
  {
    var all := log + [t];
    assert all[|log|] == t;
    forall k: nat ensures !VerifiedAt(all, t.name, k) {}
  }

  /** A mark changes one status on file, or none. */
  lemma MarkOnFile(p: Proc, name: string, status: Status, detail: Detail, fate: SaveFate, site: string)
    requires Synced(p, site)
    ensures var after := OnFile(MarkIn(p, name, status, detail, fate).disk, site);
      && (forall n :: n != name ==> StatusOf(after, n) == StatusOf(p.data, n))
      && StatusOf(after, name) == if Reaches(fate) then status else StatusOf(p.data, name)
  {}

  /** What a turn leaves on file. */
  lemma {:induction false} TurnOnFile(p: Proc, ph: Phase, f: Fate, site: string)
    requires Synced(p, site)
    ensures var t := TakeTurn(p, ph, f); var after := OnFile(t.p.disk, site);
      && (forall n :: n != ph.name ==> StatusOf(after, n) == StatusOf(p.data, n))
      && (StatusOf(after, ph.name) == Done && StatusOf(p.data, ph.name) != Done ==>
            t.turns[0].applied && t.turns[0].verified)
  {
    if !f.planned || f.reply.NoReply? { return; }
    if f.reply.No? {
      MarkOnFile(p, ph.name, if ph.optional then Skipped else Declined, NoDetail, f.save, site);
      return;
    }
    MarkOnFile(p, ph.name, Applying, Tag("tag"), Completes, site);
    var p1 := if f.applied.tagged then MarkIn(p, ph.name, Applying, Tag("tag"), Completes) else p;
    MarkOnFile(p1, ph.name, Failed, Error("apply"), f.save, site);
    MarkOnFile(p1, ph.name, Failed, NoDetail, f.save, site);
    MarkOnFile(p1, ph.name, Done, NoDetail, f.save, site);
  }

  lemma DoneTrueExtends(d: Data, after: Data, log: seq<Turn>, t: Turn)
    requires DoneIsTrue(d, log)
    requires forall n :: n != t.name ==> StatusOf(after, n) == StatusOf(d, n)
    requires StatusOf(after, t.name) == Done ==> t.applied && t.verified
    ensures DoneIsTrue(after, log + [t])
  {
    forall n | StatusOf(after, n) == Done ensures LastVerified(log + [t], n) {
      if n == t.name { assert VerifiedAt(log + [t], n, |log|); }
      else { LastVerifiedKept(log, t, n); }
    }
  }

  lemma TurnKeepsDoneTrue(p: Proc, ph: Phase, f: Fate, site: string, log: seq<Turn>)
    requires Synced(p, site) && DoneIsTrue(p.data, log) && StatusOf(p.data, ph.name) != Done
    ensures var t := TakeTurn(p, ph, f); DoneIsTrue(OnFile(t.p.disk, site), log + t.turns)
  {
    TurnOnFile(p, ph, f, site);
    TurnFrames(p, ph, f);
    var t := TakeTurn(p, ph, f);
    DoneTrueExtends(p.data, OnFile(t.p.disk, site), log, t.turns[0]);
    assert t.turns == [t.turns[0]];
  }

  lemma {:induction false} PlainRunKeepsDoneTrue(p: Proc, phases: seq<Phase>, i: nat, fates: nat -> Fate,
                                                 site: string, log: seq<Turn>)
    requires i <= |phases| && Synced(p, site) && DoneIsTrue(p.data, log)
    ensures var r := RunPhases(p, phases, i, false, fates);
            DoneIsTrue(OnFile(r.p.disk, site), log + r.turns)
    decreases |phases| - i
  {
    if i == |phases| {
      assert log + [] == log;
    } else if StatusOf(p.data, phases[i].name) == Done {
      PlainRunKeepsDoneTrue(p, phases, i + 1, fates, site, log);
    } else {
      TurnKeepsDoneTrue(p, phases[i], fates(i), site, log);
      TurnStaysInStep(p, phases[i], fates(i), site);
      var t := TakeTurn(p, phases[i], fates(i));
      if t.end == Finished(true) {
        PlainRunKeepsDoneTrue(t.p, phases, i + 1, fates, site, log + t.turns);
        var r := RunPhases(t.p, phases, i + 1, false, fates);
        assert log + t.turns + r.turns == log + (t.turns + r.turns);
      }
    }
  }

  lemma {:induction false} PendingStaysInStep(p: Proc, names: seq<string>, i: nat, saves: nat -> SaveFate, site: string)
    requires i <= |names| && Synced(p, site)
    ensures var m := MarkPending(p, names, i, saves); m.alive ==> Synced(m.p, site)
    decreases |names| - i
  {
    if i < |names| && saves(i).Completes? {
      PendingStaysInStep(MarkIn(p, names[i], Pending, NoDetail, saves(i)), names, i + 1, saves, site);
    }
  }

  lemma {:induction false} PendingKeepsDoneTrue(p: Proc, names: seq<string>, i: nat, saves: nat -> SaveFate,
                                                site: string, log: seq<Turn>)
    requires i <= |names| && Synced(p, site) && DoneIsTrue(p.data, log)
    ensures var m := MarkPending(p, names, i, saves);
      DoneIsTrue(OnFile(m.p.disk, site), log) && (m.alive ==> Synced(m.p, site))
    decreases |names| - i
  {
    if i < |names| {
      var p' := MarkIn(p, names[i], Pending, NoDetail, saves(i));
      forall n | StatusOf(p'.data, n) == Done ensures LastVerified(log, n) {
        assert StatusOf(p.data, n) == Done;
      }
      if saves(i).Completes? { PendingKeepsDoneTrue(p', names, i + 1, saves, site, log); }
    }
  }

  datatype Past = Past(disk: Disk, log: seq<Turn>)

  function Invoke(h: Past, site: string, pipeline: seq<Phase>, inv: Invocation): Past {
    var r := Provision(h.disk, site, pipeline, inv);
    Past(r.p.disk, h.log + r.turns)
  }

  function History(h: Past, site: string, pipeline: seq<Phase>, invs: seq<Invocation>): Past
    decreases |invs|
  {
    if invs == [] then h else History(Invoke(h, site, pipeline, invs[0]), site, pipeline, invs[1..])
  }

  ghost predicate Credible(h: Past, site: string) { DoneIsTrue(OnFile(h.disk, site), h.log) }

  lemma InvocationKeepsDoneTrue(h: Past, site: string, pipeline: seq<Phase>, inv: Invocation)
    requires Credible(h, site) && inv.only == []
    ensures Credible(Invoke(h, site, pipeline, inv), site)
  {
    assert h.log + [] == h.log;
    var d := Load(h.disk, site);
    if d.Some? {
      var p := Proc(d.value, h.disk);
      PendingKeepsDoneTrue(p, inv.replay, 0, inv.pending, site, h.log);
      var m := MarkPending(p, inv.replay, 0, inv.pending);
      if m.alive { PlainRunKeepsDoneTrue(m.p, pipeline, 0, inv.fates, site, h.log); }
    }
  }

  /** In every history of plain and --replay runs, with a death possible at every step and inside
      every save: a phase on record as done reached verify = True the last time it was applied. */
  lemma {:induction false} DoneMeansVerified(h: Past, site: string, pipeline: seq<Phase>, invs: seq<Invocation>)
    requires Credible(h, site)
    requires forall inv :: inv in invs ==> inv.only == []
    ensures Credible(History(h, site, pipeline, invs), site)
    decreases |invs|
  {
    if invs != [] {
      InvocationKeepsDoneTrue(h, site, pipeline, invs[0]);
      DoneMeansVerified(Invoke(h, site, pipeline, invs[0]), site, pipeline, invs[1..]);
    }
  }

  // ------------------------------------------------------------------ runs under --only

  lemma {:induction false} ChosenMeans(pipeline: seq<Phase>, only: seq<string>)
    ensures forall ph :: ph in Chosen(pipeline, only) <==> ph in pipeline && ph.name in only
    ensures Distinct(pipeline) ==> Distinct(Chosen(pipeline, only))
  {
    if pipeline != [] {
      ChosenMeans(pipeline[1..], only);
      assert forall ph :: ph in pipeline <==> ph == pipeline[0] || ph in pipeline[1..];
      var rest := Chosen(pipeline[1..], only);
      if Distinct(pipeline) {
        assert forall ph :: ph in rest ==> ph in pipeline[1..] && ph.name != pipeline[0].name;
      }
    }
  }

  /** The names of the phases from i on. */
  function NamesFrom(phases: seq<Phase>, i: nat): (ns: seq<string>)
    requires i <= |phases|
    ensures |ns| == |phases| - i && forall k :: i <= k < |phases| ==> ns[k - i] == phases[k].name
    decreases |phases| - i
  { if i == |phases| then [] else [phases[i].name] + NamesFrom(phases, i + 1) }

  lemma {:induction false} RedoAttemptsAll(p: Proc, phases: seq<Phase>, i: nat, fates: nat -> Fate)
    requires i <= |phases|
    ensures var r := RunPhases(p, phases, i, true, fates);
      && CutOf(r.turns, NamesFrom(phases, i))
      && (r.end == Finished(true) <==> |r.turns| == |phases| - i && forall t :: t in r.turns ==> t.passed)
    decreases |phases| - i
  {
    if i < |phases| {
      TurnFrames(p, phases[i], fates(i));
      var t := TakeTurn(p, phases[i], fates(i));
      assert t.turns == [t.turns[0]];
      if t.end == Finished(true) {
        RedoAttemptsAll(t.p, phases, i + 1, fates);
        CutExtends(t.turns[0], RunPhases(t.p, phases, i + 1, true, fates).turns, NamesFrom(phases, i + 1));
      } else {
        assert Names(t.turns) == [phases[i].name];
      }
    }
  }

  /** `provision --only S` attempts, in pipeline order, exactly the phases in S, done or not, cut after the
      first that blocks; with a name in S that is no phase it attempts none and returns False. */
  lemma {:induction false} OnlyAttemptsExactly(disk: Disk, site: string, pipeline: seq<Phase>, inv: Invocation)
    requires Load(disk, site).Some? && inv.only != [] && forall i :: inv.pending(i).Completes?
    ensures var r := Provision(disk, site, pipeline, inv); var due := NamesFrom(Chosen(pipeline, inv.only), 0);
      && (Known(pipeline, inv.only) ==>
            && CutOf(r.turns, due)
            && (r.end == Finished(true) <==> |r.turns| == |due| && forall t :: t in r.turns ==> t.passed))
      && (!Known(pipeline, inv.only) ==> r.turns == [] && r.end == Finished(false))
  {
    var d := Load(disk, site).value;
    AllMarked(Proc(d, disk), inv.replay, 0, inv.pending);
    var m := MarkPending(Proc(d, disk), inv.replay, 0, inv.pending);
    if Known(pipeline, inv.only) { RedoAttemptsAll(m.p, Chosen(pipeline, inv.only), 0, inv.fates); }
  }

  /** The phases chosen are those of the pipeline that are named, in its order. */
  lemma {:induction false} ChosenInOrder(pipeline: seq<Phase>, only: seq<string>, i: nat, j: nat)
    returns (a: nat, b: nat)
    requires i < j < |Chosen(pipeline, only)|
    ensures a < b < |pipeline|
    ensures pipeline[a] == Chosen(pipeline, only)[i] && pipeline[b] == Chosen(pipeline, only)[j]
  {
    if pipeline[0].name in only {
      if i == 0 {
        b := ChosenAt(pipeline[1..], only, j - 1);
        a, b := 0, b + 1;
      } else {
        a, b := ChosenInOrder(pipeline[1..], only, i - 1, j - 1);
        a, b := a + 1, b + 1;
      }
    } else {
      a, b := ChosenInOrder(pipeline[1..], only, i, j);
      a, b := a + 1, b + 1;
    }
  }

  lemma {:induction false} ChosenAt(pipeline: seq<Phase>, only: seq<string>, j: nat) returns (b: nat)
    requires j < |Chosen(pipeline, only)|
    ensures b < |pipeline| && pipeline[b] == Chosen(pipeline, only)[j]
  {
    if pipeline[0].name in only {
      if j == 0 { return 0; }
      b := ChosenAt(pipeline[1..], only, j - 1);
    } else {
      b := ChosenAt(pipeline[1..], only, j);
    }
    b := b + 1;
  }

  /** An --only run of phases none of which is on record as done. */
  lemma {:induction false} FreshRunKeepsDoneTrue(p: Proc, phases: seq<Phase>, i: nat, fates: nat -> Fate,
                                                 site: string, log: seq<Turn>)
    requires i <= |phases| && Distinct(phases) && Synced(p, site) && DoneIsTrue(p.data, log)
    requires forall k :: i <= k < |phases| ==> StatusOf(p.data, phases[k].name) != Done
    ensures var r := RunPhases(p, phases, i, true, fates);
            DoneIsTrue(OnFile(r.p.disk, site), log + r.turns)
    decreases |phases| - i
  {
    if i == |phases| {
      assert log + [] == log;
    } else {
      TurnKeepsDoneTrue(p, phases[i], fates(i), site, log);
      TurnStaysInStep(p, phases[i], fates(i), site);
      TurnFrames(p, phases[i], fates(i));
      var t := TakeTurn(p, phases[i], fates(i));
      if t.end == Finished(true) {
        FreshRunKeepsDoneTrue(t.p, phases, i + 1, fates, site, log + t.turns);
        var r := RunPhases(t.p, phases, i + 1, true, fates);
        assert log + t.turns + r.turns == log + (t.turns + r.turns);
      }
    }
  }

  /** Every turn succeeds, but the process dies in the k-th one's apply. */
  function DiesIn(k: nat): nat -> Fate {
    i => if i == k then Fate(true, Yes, Died(false), NoVerdict, Completes)
         else Fate(true, Yes, Did(false), Good, Completes)
  }

  lemma {:induction false} DeathLeavesStaleDone(p: Proc, phases: seq<Phase>, i: nat, k: nat, site: string)
    requires i <= k < |phases| && Distinct(phases) && Synced(p, site)
    requires StatusOf(p.data, phases[k].name) == Done
    ensures var r := RunPhases(p, phases, i, true, DiesIn(k)); var m := |r.turns| - 1;
      && StatusOf(OnFile(r.p.disk, site), phases[k].name) == Done
      && m >= 0 && r.turns[m].name == phases[k].name && r.turns[m].applied && !r.turns[m].verified
    decreases k - i
  {
    if i < k {
      TurnFrames(p, phases[i], DiesIn(k)(i));
      TurnStaysInStep(p, phases[i], DiesIn(k)(i), site);
      DeathLeavesStaleDone(TakeTurn(p, phases[i], DiesIn(k)(i)).p, phases, i + 1, k, site);
    }
  }

  /** Each phase named is not on record as done, or is marked pending first. */
  ghost predicate Reopened(d: Data, replay: seq<string>, only: seq<string>) {
    forall n :: n in only ==> StatusOf(d, n) != Done || n in replay
  }

  lemma {:induction false} ReopenedKeeps(h: Past, site: string, pipeline: seq<Phase>, inv: Invocation)
    requires Distinct(pipeline) && Credible(h, site) && Reopened(OnFile(h.disk, site), inv.replay, inv.only)
    ensures Credible(Invoke(h, site, pipeline, inv), site)
  {
    assert h.log + [] == h.log;
    if inv.only == [] {
      InvocationKeepsDoneTrue(h, site, pipeline, inv);
    } else if Load(h.disk, site).Some? {
      var p := Proc(Load(h.disk, site).value, h.disk);
      PendingKeepsDoneTrue(p, inv.replay, 0, inv.pending, site, h.log);
      var m := MarkPending(p, inv.replay, 0, inv.pending);
      if m.alive && Known(pipeline, inv.only) {
        MarkedPending(p, inv.replay, 0, inv.pending);
        assert inv.replay[0..] == inv.replay;
        ChosenMeans(pipeline, inv.only);
        FreshRunKeepsDoneTrue(m.p, Chosen(pipeline, inv.only), 0, inv.fates, site, h.log);
      }
    }
  }

  lemma {:induction false} NotReopenedBreaks(h: Past, site: string, pipeline: seq<Phase>, replay: seq<string>,
                                             only: seq<string>, n: string)
    requires Distinct(pipeline) && Load(h.disk, site).Some? && Known(pipeline, only)
    requires n in only && n !in replay && StatusOf(OnFile(h.disk, site), n) == Done
    ensures exists k :: !Credible(Invoke(h, site, pipeline, Invocation(replay, _ => Completes, only, DiesIn(k))), site)
  {
    ChosenMeans(pipeline, only);
    var chosen := Chosen(pipeline, only);
    var k: nat :| k < |chosen| && chosen[k].name == n;
    var inv := Invocation(replay, _ => Completes, only, DiesIn(k));
    var p := Proc(Load(h.disk, site).value, h.disk);
    AllMarked(p, replay, 0, inv.pending);
    MarkedPending(p, replay, 0, inv.pending);
    assert replay[0..] == replay;
    var m := MarkPending(p, replay, 0, inv.pending);
    PendingStaysInStep(p, replay, 0, inv.pending, site);
    DeathLeavesStaleDone(m.p, chosen, 0, k, site);
    var r := Provision(h.disk, site, pipeline, inv);
    var last := |r.turns| - 1;
    assert h.log + r.turns == h.log + r.turns[..last] + [r.turns[last]];
    UnverifiedLast(h.log + r.turns[..last], r.turns[last]);
  }

  /** `--only` takes a phase whatever its record says, without marking it pending.  The record stays
      true in every such run, however its saves and turns go, if and only if each phase named is not on
      record as done or is named by --replay as well. */
  lemma {:induction false} OnlyKeepsTheRecord(h: Past, site: string, pipeline: seq<Phase>, replay: seq<string>,
                                              only: seq<string>)
    requires Distinct(pipeline) && Load(h.disk, site).Some? && Credible(h, site)
    requires Known(pipeline, only)
    ensures Reopened(OnFile(h.disk, site), replay, only) <==>
            forall pending, fates ::
              Credible(Invoke(h, site, pipeline, Invocation(replay, pending, only, fates)), site)
  {
    if Reopened(OnFile(h.disk, site), replay, only) {
      forall pending, fates
        ensures Credible(Invoke(h, site, pipeline, Invocation(replay, pending, only, fates)), site)
      { ReopenedKeeps(h, site, pipeline, Invocation(replay, pending, only, fates)); }
    } else {
      var n :| n in only && StatusOf(OnFile(h.disk, site), n) == Done && n !in replay;
      NotReopenedBreaks(h, site, pipeline, replay, only, n);
    }
  }
}
