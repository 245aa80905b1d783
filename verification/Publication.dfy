/** How PostgreSQL's port is published on a single-node site: the config, the answers pinned in
    state, the firewall the base phase installs and the compose file the authentik phase renders. */
module Publication {
  import opened StateFile
  import opened Firewall

  const BACKUP_PORT: nat := 5432

  datatype Entry = Blank | Net(net: Cidr)
  /** `backup.ips` and `backup.localhost` as written in the site config. */
  datatype Raw = Raw(ips: seq<Entry>, localhost: Option<bool>)
  /** The two pinned keys. */
  datatype Pins = Pins(ips: Option<seq<Cidr>>, localhost: Option<bool>)

  function IpsFromRaw(entries: seq<Entry>): (r: seq<Cidr>)
    ensures r == [] <==> forall k :: 0 <= k < |entries| ==> entries[k].Blank?
  {
    if entries == [] then []
    else if entries[0].Blank? then IpsFromRaw(entries[1..])
    else [entries[0].net] + IpsFromRaw(entries[1..])
  }

  /** The entries that are not blank, in their order. */
  lemma {:induction false} IpsInOrder(a: seq<Entry>, b: seq<Entry>)
    ensures IpsFromRaw(a + b) == IpsFromRaw(a) + IpsFromRaw(b)
    ensures forall net :: IpsFromRaw([Net(net)]) == [net]
  {
    if a == [] {
      assert a + b == b;
    } else {
      assert (a + b)[1..] == a[1..] + b;
      IpsInOrder(a[1..], b);
    }
  }

  predicate AnsweredInConfig(raw: Raw) { IpsFromRaw(raw.ips) != [] || raw.localhost.Some? }

  predicate Answered(raw: Raw, pins: Pins) {
    AnsweredInConfig(raw) || pins.ips.Some? || pins.localhost.Some?
  }

  function ResolvedIps(raw: Raw, pins: Pins): seq<Cidr> {
    var ips := IpsFromRaw(raw.ips);
    if ips != [] then ips
    else if raw.localhost == Some(true) then []
    else if pins.ips.Some? then pins.ips.value
    else []
  }

  function ResolvedLocalhost(raw: Raw, pins: Pins): bool {
    if IpsFromRaw(raw.ips) != [] then false
    else if raw.localhost.Some? then raw.localhost.value
    else if pins.ips.Some? && pins.ips.value != [] then false
    else pins.localhost == Some(true)
  }

  /** The prompt's answer: no, localhost only, or a non-empty list of networks. */
  datatype Reply = NotAtAll | LocalOnly | Remote(ips: seq<Cidr>)

  predicate WellFormed(r: Reply) { r.Remote? ==> r.ips != [] }

  function ReplyIps(r: Reply): seq<Cidr> { if r.Remote? then r.ips else [] }

  function Resolved(raw: Raw, pins: Pins): (seq<Cidr>, bool) {
    (ResolvedIps(raw, pins), ResolvedLocalhost(raw, pins))
  }

  datatype End = Went | Raised | Died

  /** How a save ends for the process that makes it. */
  function EndOf(f: SaveFate): End { if f.Completes? then Went else if Raising(f) then Raised else Died }

  /** The two pinned keys as the process has them in memory, and as they are on file. */
  class BasePhase {
    var memory: Pins
    var file: Pins

    constructor (pins: Pins)
      ensures memory == file == pins
    { memory, file := pins, pins; }

    /** Answered already: resolve.  Otherwise ask once and pin first the list, then the flag; each pin's
        save may raise or end the process. */
    method BackupPublish(raw: Raw, reply: Reply, first: SaveFate, second: SaveFate)
      returns (end: End, ips: seq<Cidr>, localhost: bool)
      modifies this
      ensures Answered(raw, old(memory)) ==>
        end.Went? && memory == old(memory) && file == old(file) && (ips, localhost) == Resolved(raw, memory)
      ensures !Answered(raw, old(memory)) ==>
        && end == (if first.Completes? then EndOf(second) else EndOf(first))
        && (end.Went? <==> first.Completes? && second.Completes?)
        && (end.Died? <==> (first.Stops? && first.dies) || (first.Completes? && second.Stops? && second.dies))
        && (end.Went? ==> ips == ReplyIps(reply) && localhost == reply.LocalOnly?)
        && memory == InMemory(old(memory), reply, first)
        && file == if first.Completes?
                   then (if Reaches(second) then memory else old(memory).(ips := Some(ReplyIps(reply))))
                   else if Reaches(first) then memory else old(file)
    {
      if Answered(raw, memory) {
        return Went, ResolvedIps(raw, memory), ResolvedLocalhost(raw, memory);
      }
      ips := if reply.Remote? then reply.ips else [];
      localhost := reply.LocalOnly?;
      memory := memory.(ips := Some(ips));
      if Reaches(first) { file := memory; }
      if !first.Completes? { return EndOf(first), ips, localhost; }
      memory := memory.(localhost := Some(localhost));
      if Reaches(second) { file := memory; }
      return EndOf(second), ips, localhost;
    }

    /** The phase as the runner takes it, as far as the question: apply asks before it touches a node, and
        if that raises the phase is marked as failed, which saves the whole memory. */
    method Apply(raw: Raw, reply: Reply, first: SaveFate, second: SaveFate, mark: SaveFate)
      returns (end: End, ips: seq<Cidr>, localhost: bool)
      requires memory == file
      modifies this
      ensures file == RunOnce(raw, old(file), Answering(reply, first, second, mark))
    {
      end, ips, localhost := BackupPublish(raw, reply, first, second);
      if end.Raised? && Reaches(mark) { file := memory; }
    }
  }

  function InMemory(pins: Pins, reply: Reply, first: SaveFate): Pins {
    var p1 := pins.(ips := Some(ReplyIps(reply)));
    if first.Completes? then p1.(localhost := Some(reply.LocalOnly?)) else p1
  }

  /** What a save was to write is on file in the end: it got there, or it raised and the mark of the failed
      phase, which writes the whole memory, did. */
  predicate Kept(f: SaveFate, mark: SaveFate) { Reaches(f) || (Raising(f) && Reaches(mark)) }

  /** What is on file once the prompt has been answered and the saves have gone as they went. */
  function Pinning(pins: Pins, reply: Reply, first: SaveFate, second: SaveFate, mark: SaveFate): Pins {
    var p1 := if Kept(first, mark) then pins.(ips := Some(ReplyIps(reply))) else pins;
    if first.Completes? && Kept(second, mark) then p1.(localhost := Some(reply.LocalOnly?)) else p1
  }

  /** What a run of the phase is answered, if it asks, and how its saves go. */
  datatype Answering = Answering(reply: Reply, first: SaveFate, second: SaveFate, mark: SaveFate)

  function RunOnce(raw: Raw, pins: Pins, a: Answering): Pins {
    if Answered(raw, pins) then pins else Pinning(pins, a.reply, a.first, a.second, a.mark)
  }

  function Runs(raw: Raw, pins: Pins, answers: seq<Answering>): Pins
    decreases |answers|
  { if answers == [] then pins else Runs(raw, RunOnce(raw, pins, answers[0]), answers[1..]) }

  // ------------------------------------------------------------------ as the state file has it

  const IPS := "backup_ips"
  const LOCALHOST := "backup_localhost"

  /** The two keys in the state file, the networks spelt as they were typed. */
  ghost predicate Records(d: Data, pins: Pins, spell: seq<Cidr> -> seq<string>) {
    && (IPS in d.generated <==> pins.ips.Some?)
    && (pins.ips.Some? ==> d.generated[IPS] == List(spell(pins.ips.value)))
    && (LOCALHOST in d.generated <==> pins.localhost.Some?)
    && (pins.localhost.Some? ==> d.generated[LOCALHOST] == Flag(pins.localhost.value))
  }

  function FirstPin(a: Answering, spell: seq<Cidr> -> seq<string>): Event {
    Get(IPS, List(spell(ReplyIps(a.reply))), a.first)
  }

  function SecondPin(a: Answering): Event { Get(LOCALHOST, Flag(a.reply.LocalOnly?), a.second) }

  /** What a run that asks does to the state file, up to the end of the phase or of the process. */
  function Events(a: Answering, failed: Event, spell: seq<Cidr> -> seq<string>): seq<Event> {
    if a.first.Completes? then
      if Raising(a.second) then [FirstPin(a, spell), SecondPin(a), failed] else [FirstPin(a, spell), SecondPin(a)]
    else if Raising(a.first) then [FirstPin(a, spell), failed] else [FirstPin(a, spell)]
  }

  lemma RunTwo(s: Site, a: Event, b: Event)
    ensures Run(s, [a, b]) == Happen(Happen(s, a), b)
  {
    assert [a, b][1..] == [b] && [b][1..] == [];
    var s1 := Happen(s, a);
    assert Run(s1, [b]) == Run(Happen(s1, b), []);
  }

  lemma RunThree(s: Site, a: Event, b: Event, c: Event)
    ensures Run(s, [a, b, c]) == Happen(Happen(Happen(s, a), b), c)
  {
    assert [a, b, c][1..] == [b, c];
    RunTwo(Happen(s, a), b, c);
  }

  lemma RunSingle(s: Site, a: Event)
    ensures Run(s, [a]) == Happen(s, a)
  {
    assert [a][1..] == [];
    assert Run(Happen(s, a), []) == Happen(s, a);
  }

  /** That is what the state file holds after the pins and, if one of them raised, the mark of the failed
      phase. */
  lemma {:induction false} PinningIsOnFile(s: Site, raw: Raw, pins: Pins, a: Answering, name: string, detail: Detail,
                                           spell: seq<Cidr> -> seq<string>)
    requires s.mem == Some(OnDisk(s)) && Records(OnDisk(s), pins, spell) && !Answered(raw, pins)
    ensures var after := Run(s, Events(a, Mark(name, Failed, detail, a.mark), spell));
      Records(OnDisk(after), RunOnce(raw, pins, a), spell)
  {
    assert |IPS| != |LOCALHOST|;
    var failed := Mark(name, Failed, detail, a.mark);
    var p1, p2 := FirstPin(a, spell), SecondPin(a);
    if a.first.Completes? {
      if Raising(a.second) { RunThree(s, p1, p2, failed); } else { RunTwo(s, p1, p2); }
    } else if Raising(a.first) {
      RunTwo(s, p1, failed);
    } else {
      RunSingle(s, p1);
    }
  }

  // ------------------------------------------------------------------ coherence

  /** The list and the loopback flag are never both in force. */
  lemma NeverBoth(raw: Raw, pins: Pins)
    ensures !(ResolvedIps(raw, pins) != [] && ResolvedLocalhost(raw, pins))
  {}

  /** The config decides before any pin: its list wins over everything, its flag over a pinned flag, and if set
      over a pinned list; a pinned list wins over a pinned flag. */
  lemma ConfigWins(raw: Raw, pins: Pins)
    ensures var ips := IpsFromRaw(raw.ips); var pinned := pins.ips.Some? && pins.ips.value != [];
      && (ips != [] ==> Resolved(raw, pins) == (ips, false))
      && (ips == [] && raw.localhost == Some(true) ==> Resolved(raw, pins) == ([], true))
      && (ips == [] && raw.localhost != Some(true) && pinned ==> Resolved(raw, pins) == (pins.ips.value, false))
      && (ips == [] && raw.localhost == Some(false) && !pinned ==> Resolved(raw, pins) == ([], false))
      && (ips == [] && raw.localhost.None? && !pinned ==> Resolved(raw, pins) == ([], pins.localhost == Some(true)))
  {}

  /** What a call that asks hands back is what later calls of the process resolve. */
  lemma ReturnedIsResolved(raw: Raw, pins: Pins, reply: Reply)
    requires !Answered(raw, pins) && WellFormed(reply)
    ensures var later := InMemory(pins, reply, Completes);
      && Answered(raw, later)
      && (reply.Remote? ==> Resolved(raw, later) == (reply.ips, false))
      && (reply.LocalOnly? ==> Resolved(raw, later) == ([], true))
      && (reply.NotAtAll? ==> Resolved(raw, later) == ([], false))
  {}

  /** Where the question is asked: it counts as answered from then on exactly if the first pin is kept, and
      is asked again otherwise; and what is resolved from then on is what was answered exactly if, the answer
      being "localhost", the first save completed and the second pin is kept too.  A "localhost" whose first
      save raises, or whose second pin is lost, has become "no". */
  lemma {:induction false} PromptSticks(raw: Raw, pins: Pins, a: Answering)
    requires !Answered(raw, pins) && WellFormed(a.reply)
    ensures var after := RunOnce(raw, pins, a);
      && (Answered(raw, after) <==> Kept(a.first, a.mark))
      && (!Kept(a.first, a.mark) ==> after == pins)
      && (Kept(a.first, a.mark) ==>
            (Resolved(raw, after) == (ReplyIps(a.reply), a.reply.LocalOnly?) <==>
               (a.reply.LocalOnly? ==> a.first.Completes? && Kept(a.second, a.mark))))
  {}

  lemma {:induction false} AnsweredStays(raw: Raw, pins: Pins, answers: seq<Answering>)
    requires Answered(raw, pins)
    ensures Runs(raw, pins, answers) == pins
    decreases |answers|
  { if answers != [] { AnsweredStays(raw, pins, answers[1..]); } }

  /** For good: over any number of runs under one config, the answer of the first whose first pin is kept
      decides, and resolves to itself or to "no" by the condition above; the others leave no trace. */
  lemma {:induction false} FirstKeptDecides(raw: Raw, pins: Pins, answers: seq<Answering>, i: nat)
    requires !Answered(raw, pins) && i < |answers| && Kept(answers[i].first, answers[i].mark)
    requires forall k :: 0 <= k <= i ==> WellFormed(answers[k].reply)
    requires forall k :: 0 <= k < i ==> !Kept(answers[k].first, answers[k].mark)
    ensures var a := answers[i]; var after := Runs(raw, pins, answers);
      && after == RunOnce(raw, pins, a)
      && (Resolved(raw, after) == (ReplyIps(a.reply), a.reply.LocalOnly?) ||
          (a.reply.LocalOnly? && Resolved(raw, after) == ([], false)))
      && (Resolved(raw, after) == (ReplyIps(a.reply), a.reply.LocalOnly?) <==>
            (a.reply.LocalOnly? ==> a.first.Completes? && Kept(a.second, a.mark)))
    decreases |answers|
  {
    PromptSticks(raw, pins, answers[0]);
    if i == 0 {
      AnsweredStays(raw, RunOnce(raw, pins, answers[0]), answers[1..]);
    } else {
      FirstKeptDecides(raw, pins, answers[1..], i - 1);
    }
  }

  datatype Port = Unpublished | Loopback | Everywhere

  /** The compose file's publication lines. */
  function Published(raw: Raw, pins: Pins): Port {
    var ips := ResolvedIps(raw, pins);
    var local := ResolvedLocalhost(raw, pins);
    if !(ips != [] || local) then Unpublished
    else if local && ips == [] then Loopback
    else Everywhere
  }

  /** The port is open to other hosts exactly if there is a list, and to the node alone exactly if the flag is
      in force. */
  lemma PortExactly(raw: Raw, pins: Pins)
    ensures Published(raw, pins).Everywhere? <==> ResolvedIps(raw, pins) != []
    ensures Published(raw, pins).Loopback? <==> ResolvedLocalhost(raw, pins)
  {}

  /** A host other than the node gets through to PostgreSQL. */
  predicate Reaches5432(port: Port, rules: seq<Rule>, src: nat, foreign: Foreign) {
    port.Everywhere? && Decide(rules, Packet(true, src, 5432), foreign) != Verdict.Drop
  }

  /** After the base phase and then the authentik phase have been applied under one config, from any
      earlier firewall and any pinned state, with the question asked or not, and wherever the firewall script
      stopped, which the base phase only records: an off-host source reaches PostgreSQL iff the list in force
      is non-empty and, once the script got to its drop, the source is in the part of the list put in after
      it; before that, iff the rules it had not yet deleted let it through. */
  lemma PublicationIsCoherent(raw: Raw, pins: Pins, reply: Reply, mark: SaveFate, rules: seq<Rule>, src: nat,
                              foreign: Foreign, script: Script)
    requires WellFormed(reply)
    ensures
      var after := RunOnce(raw, pins, Answering(reply, Completes, Completes, mark));
      var ips := ResolvedIps(raw, after);
      var now := Scripted(rules, ips, BACKUP_PORT, script);
      Reaches5432(Published(raw, after), now, src, foreign) <==>
        && ips != []
        && (if DropsIn(rules, script)
            then Listed(LastOf(ips, AcceptsIn(rules, ips, script)), src)
            else Decide(DropTagged(rules, Deletes(rules, script)), Packet(true, src, BACKUP_PORT), foreign)
                   != Verdict.Drop)
  {
    var after := RunOnce(raw, pins, Answering(reply, Completes, Completes, mark));
    ScriptedMeaning(rules, ResolvedIps(raw, after), BACKUP_PORT, Packet(true, src, BACKUP_PORT), foreign, script);
  }

  /** So if the script ran to its end: iff the list contains it. */
  lemma PublicationWhenInstalled(raw: Raw, pins: Pins, reply: Reply, mark: SaveFate, rules: seq<Rule>, src: nat,
                                 foreign: Foreign, script: Script)
    requires WellFormed(reply)
    requires var after := RunOnce(raw, pins, Answering(reply, Completes, Completes, mark));
             RunsThrough(rules, ResolvedIps(raw, after), script)
    ensures
      var after := RunOnce(raw, pins, Answering(reply, Completes, Completes, mark));
      var now := Scripted(rules, ResolvedIps(raw, after), BACKUP_PORT, script);
      Reaches5432(Published(raw, after), now, src, foreign) <==> Listed(ResolvedIps(raw, after), src)
  {
    var after := RunOnce(raw, pins, Answering(reply, Completes, Completes, mark));
    ScriptRunsThrough(rules, ResolvedIps(raw, after), BACKUP_PORT, script);
    InstalledMeaning(rules, ResolvedIps(raw, after), BACKUP_PORT, Packet(true, src, BACKUP_PORT), foreign);
  }
}
