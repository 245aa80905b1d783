/** The fleet as the remote commands of the authentik and restore phases see it, and the
    operator process that issues those commands one after another.

    A command's outcome comes from an unbounded oracle.  `Zero` and `NonZero` are exit codes;
    `Lost` means the call never answered (the SSH call raised, or the process died), so that
    nothing is known about its effect.  Each reply also carries what the remote side turned into,
    used as far as the command leaves it open. */
module World {

  datatype Health = Starting | Healthy | Unhealthy
  // An exited container still exists: it is Present(Unhealthy).
  datatype Container = Absent | Present(health: Health)

  /** The rendered files of a node's stack, and the branding assets mounted into it. */
  datatype Slot = Env | Compose | Unit | Logo | Favicon | Background
  datatype Files = Files(env: string, compose: string, unit: string,
                         logo: string, favicon: string, background: string) {
    function Get(slot: Slot): string {
      match slot
      case Env => env
      case Compose => compose
      case Unit => unit
      case Logo => logo
      case Favicon => favicon
      case Background => background
    }
    function Set(slot: Slot, content: string): Files {
      match slot
      case Env => this.(env := content)
      case Compose => this.(compose := content)
      case Unit => this.(unit := content)
      case Logo => this.(logo := content)
      case Favicon => this.(favicon := content)
      case Background => this.(background := content)
    }
  }

  /** `disk` is what the node's files say; `running` is what they said when the stack was last
      recreated. */
  datatype Node = Node(name: string, leader: bool, disk: Files, running: Files,
                       server: Container, worker: Container)

  datatype Data = Untouched | Missing | Blank | Partial | Loaded(stray: nat, complete: bool)
  /** `migrators` are the nodes on which a container was started against the unmigrated schema. */
  datatype Database = Database(data: Data, migrated: bool, migrators: set<nat>)
  datatype Copy = NoCopy | Corrupt | Exact

  datatype Fleet = Fleet(nodes: seq<Node>, db: Database, dump: Copy)

  datatype Service = Worker | Server
  datatype Cmd =
    | Probe(node: nat)
    | Prepare(node: nat)
    | Push(node: nat, slot: Slot, content: string)
    | Restart(node: nat)
    | Poll(node: nat, pair: bool)
    | AskPrimary(node: nat)
    | AskSettings
    | Down(node: nat)
    | Put
    | Chmod
    | Hash
    | Remove
    | Recreate
    | Load(whole: bool)
    | Reown
    | CountStray
    | Note
    | UpOnly(node: nat, service: Service)
    | Up(node: nat)

  datatype Code = Zero | NonZero | Lost
  /** `took`, `text`, `server`, `worker`, `data`, `stray` and `through` say what an effect the command
      does not determine came out as; `yes` and `known` are answers whose truth is not modelled;
      `late` says that the deadline has passed by the time the next poll would be due.  `through` says
      that what feeds psql ran to its end: nothing of that shows in the code. */
  datatype Reply = Reply(code: Code, yes: bool, took: bool, late: bool, text: string,
                         server: Container, worker: Container, data: Data, stray: nat,
                         through: bool, known: set<string>)
  type Oracle = nat -> Reply

  // ------------------------------------------------------------------ health gates

  predicate Passing(c: Container) { c.Absent? || c == Present(Healthy) }

  /** The shell test compares the deduplicated list of printed statuses with `healthy`. */
  predicate PairGate(n: Node) {
    Passing(n.server) && Passing(n.worker) && !(n.server.Absent? && n.worker.Absent?)
  }

  predicate WorkerGate(n: Node) { n.worker == Present(Healthy) }

  predicate BothHealthy(n: Node) { n.server == Present(Healthy) && n.worker == Present(Healthy) }

  predicate Quiet(n: Node) { n.server.Absent? && n.worker.Absent? }

  /** The gate means what it says only where both containers exist: one that was never created
      prints nothing and is not missed. */
  lemma {:induction false} GateMeansBothHealthy(n: Node)
    ensures BothHealthy(n) ==> PairGate(n)
    ensures PairGate(n) ==> (BothHealthy(n) <==> n.server.Present? && n.worker.Present?)
    ensures PairGate(n.(server := Absent, worker := Present(Healthy)))
  {
    var half := n.(server := Absent, worker := Present(Healthy));
    assert Passing(half.server) && Passing(half.worker);
  }

  // ------------------------------------------------------------------ effects of commands

  function Existing(c: Container): Container { if c.Absent? then Present(Starting) else c }
  function Polled(old_: Container, now: Container): Container {
    if old_.Absent? then Absent else Existing(now)
  }
  function Stopped(old_: Container, now: Container): Container {
    if now.Absent? then Absent else old_
  }

  /** Healthy implies migrated: no container reports healthy before its migrations are through. */
  function Witness(db: Database, n: Node): Database {
    if n.server == Present(Healthy) || n.worker == Present(Healthy) then db.(migrated := true)
    else db
  }

  function Started(w: Fleet, i: nat, n: Node): Fleet
    requires i < |w.nodes|
  {
    var db := if Quiet(n) || w.db.migrated then w.db
              else w.db.(migrators := w.db.migrators + {i});
    w.(nodes := w.nodes[i := n], db := Witness(db, n))
  }

  function Recreated(n: Node, r: Reply): Node {
    if r.code.Zero? then
      n.(running := n.disk, server := Existing(r.server), worker := Existing(r.worker))
    else
      n.(running := if r.took then n.disk else n.running, server := r.server, worker := r.worker)
  }

  /** The digest comparison answered and found the content there: nothing is written. */
  predicate InPlace(n: Node, slot: Slot, content: string, r: Reply) {
    r.yes && n.disk.Get(slot) == content
  }

  function Effect(cmd: Cmd, w: Fleet, r: Reply): (w': Fleet)
    ensures |w'.nodes| == |w.nodes|
  {
    match cmd
    case Push(i, slot, content) =>
      if i >= |w.nodes| then w
      else
        var n := w.nodes[i];
        if InPlace(n, slot, content, r) then w else
        var text := if r.code.Zero? then content else r.text;
        w.(nodes := w.nodes[i := n.(disk := n.disk.Set(slot, text))])
    case Restart(i) =>
      if i >= |w.nodes| then w else Started(w, i, Recreated(w.nodes[i], r))
    case Up(i) =>
      if i >= |w.nodes| then w else Started(w, i, Recreated(w.nodes[i], r))
    case UpOnly(i, service) =>
      if i >= |w.nodes| then w
      else
        var n := w.nodes[i];
        var up := Recreated(n, r);
        Started(w, i, if service.Worker? then up.(server := n.server) else up.(worker := n.worker))
    case Poll(i, pair) =>
      if i >= |w.nodes| then w
      else
        var n := w.nodes[i];
        var n' := n.(server := Polled(n.server, r.server), worker := Polled(n.worker, r.worker));
        w.(nodes := w.nodes[i := n'], db := Witness(w.db, n'))
    case Down(i) =>
      if i >= |w.nodes| then w
      else
        var n := w.nodes[i];
        w.(nodes := w.nodes[i :=
          if r.code.Zero? then n.(server := Absent, worker := Absent)
          else n.(server := Stopped(n.server, r.server), worker := Stopped(n.worker, r.worker))])
    case Put =>
      if r.code.Zero? then w.(dump := if r.took then Exact else Corrupt)
      else if r.took then w.(dump := Corrupt) else w
    case Remove =>
      if r.code.Zero? || r.took then w.(dump := NoCopy) else w
    case Recreate =>
      if r.code.Zero? then w.(db := Database(Blank, false, {}))
      else if r.data.Missing? || r.data.Blank? then w.(db := Database(r.data, false, {}))
      else w
    case Load(whole) =>
      var complete := whole && w.dump.Exact? && r.through;
      if r.code.Zero? || r.data.Loaded? then w.(db := w.db.(data := Loaded(r.stray, complete)))
      else w.(db := w.db.(data := Partial))
    case Reown =>
      if w.db.data.Loaded? then w.(db := w.db.(data := w.db.data.(stray := r.stray))) else w
    case _ => w
  }

  datatype Finding = Pass | Fail
  function Judge(b: bool): Finding { if b then Pass else Fail }

  /** What the source learns from the command: the exit code, an answer printed by the command,
      (for the gates) the exit code of a test on the containers themselves, or (for a push)
      whether the file was written. */
  function Learn(cmd: Cmd, w: Fleet, w': Fleet, r: Reply): Finding {
    match cmd
    case Push(i, slot, content) => Judge(i < |w.nodes| && !InPlace(w.nodes[i], slot, content, r))
    case Probe(i) => Judge(r.code.Zero? && i < |w.nodes| && w.nodes[i].server.Present?)
    case Poll(i, pair) => Judge(r.code.Zero? && i < |w'.nodes| &&
                                (if pair then PairGate(w'.nodes[i]) else WorkerGate(w'.nodes[i])))
    case AskPrimary(_) => Judge(!r.code.Lost? && r.yes)
    case Hash => Judge(!r.code.Lost? && r.yes && w.dump.Exact?)
    case CountStray => Judge(!r.code.Lost? && r.yes && w.db.data.Loaded? && w.db.data.stray == 0)
    case _ => Judge(r.code.Zero?)
  }

  // ------------------------------------------------------------------ the operator process

  datatype Step = Step(cmd: Cmd, code: Code, finding: Finding, before: Fleet, after: Fleet)
  datatype Session = Session(fleet: Fleet, clock: nat, trace: seq<Step>)
  datatype Run = Run(s: Session, ok: bool)

  function Next(s: Session, o: Oracle, cmd: Cmd): (s': Session)
    ensures |s'.fleet.nodes| == |s.fleet.nodes|
    ensures |s'.trace| == |s.trace| + 1
  {
    var w := Effect(cmd, s.fleet, o(s.clock));
    var r := o(s.clock);
    Session(w, s.clock + 1, s.trace + [Step(cmd, r.code, Learn(cmd, s.fleet, w, r), s.fleet, w)])
  }

  function LastPassed(s: Session): bool
    requires |s.trace| > 0
  { s.trace[|s.trace| - 1].finding.Pass? }

  function LastCode(s: Session): Code
    requires |s.trace| > 0
  { s.trace[|s.trace| - 1].code }

  datatype Verdict = Open | Expired | Broken
  datatype Waited = Waited(s: Session, verdict: Verdict)

  /** Poll until the gate passes, the deadline passes, or a poll cannot be made. */
  function Gate(s: Session, o: Oracle, i: nat, pair: bool, polls: nat): (g: Waited)
    ensures |g.s.fleet.nodes| == |s.fleet.nodes|
    decreases polls
  {
    if polls == 0 then Waited(s, Expired)
    else
      var s1 := Next(s, o, Poll(i, pair));
      if LastCode(s1).Lost? then Waited(s1, Broken)
      else if LastPassed(s1) then Waited(s1, Open)
      else if o(s.clock).late then Waited(s1, Expired)
      else Gate(s1, o, i, pair, polls - 1)
  }

  // 900 s polled every 10 s; the migration budget is the caller's.
  const HEALTHY_POLLS: nat := 90

  class Operator {
    var fleet: Fleet
    var clock: nat
    var trace: seq<Step>
    const oracle: Oracle

    constructor (fleet: Fleet, oracle: Oracle)
      ensures View() == Session(fleet, 0, []) && this.oracle == oracle
    {
      this.fleet, this.clock, this.trace, this.oracle := fleet, 0, [], oracle;
    }

    function View(): Session
      reads this
    { Session(fleet, clock, trace) }

    method Issue(cmd: Cmd) returns (code: Code, passed: bool)
      modifies this
      ensures View() == Next(old(View()), oracle, cmd)
      ensures code == LastCode(View()) && passed == LastPassed(View())
    {
      var r := oracle(clock);
      var w := Effect(cmd, fleet, r);
      var finding := Learn(cmd, fleet, w, r);
      code, passed := r.code, finding.Pass?;
      trace := trace + [Step(cmd, code, finding, fleet, w)];
      fleet, clock := w, clock + 1;
    }

    method WaitHealthy(i: nat, pair: bool, polls: nat) returns (v: Verdict)
      modifies this
      ensures var g := Gate(old(View()), oracle, i, pair, polls); View() == g.s && v == g.verdict
    {
      var left := polls;
      while left > 0
        invariant 0 <= left <= polls
        invariant Gate(old(View()), oracle, i, pair, polls) == Gate(View(), oracle, i, pair, left)
      {
        var late := oracle(clock).late;
        var code, passed := Issue(Poll(i, pair));
        if code.Lost? { return Broken; }
        if passed { return Open; }
        if late { return Expired; }
        left := left - 1;
      }
      return Expired;
    }
  }

  // ------------------------------------------------------------------ traces

  /** The steps a session gained, as a suffix of its trace. */
  ghost predicate Extends(s: Session, s': Session) {
    s.trace <= s'.trace && |s'.fleet.nodes| == |s.fleet.nodes|
  }
}
