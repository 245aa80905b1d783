/** The per-site state file: phase statuses and generated-once values, rewritten whole through a
    temporary file.  A save may end the process at any point, or raise and leave it running. */
module StateFile {

  datatype Option<+T> = None | Some(value: T)

  datatype Status = Pending | Applying | Done | Failed | Declined | Skipped | Started
  /** A status and what was recorded with it. */
  datatype Entry = Entry(status: Status, error: Option<string>, tag: Option<string>, note: Option<string>)
  datatype Detail = NoDetail | Error(text: string) | Tag(text: string) | Note(text: string)
  datatype Value = Text(text: string) | List(items: seq<string>) | Flag(on: bool)

  datatype Data = Data(site: string, phases: map<string, Entry>, generated: map<string, Value>)

  /** A file read back while half written does not parse. */
  datatype Content = Torn | Full(data: Data)
  datatype Disk = Disk(main: Option<Content>, tmp: Option<Content>)

  /** How far a save gets that does not complete. */
  datatype Point = First | Writing | BeforeReplace | AfterReplace
  /** One that stops takes the process with it, or raises and leaves it running. */
  datatype SaveFate = Completes | Stops(at: Point, dies: bool)

  predicate Raising(fate: SaveFate) { fate.Stops? && !fate.dies }

  /** The state file has been replaced. */
  predicate Reaches(fate: SaveFate) { fate.Completes? || fate.at.AfterReplace? }

  function Fresh(site: string): Data { Data(site, map[], map[]) }

  /** Reading the file at start-up: absent is a fresh site; torn or another site's is refused. */
  function Load(disk: Disk, site: string): Option<Data> {
    match disk.main
    case None => Some(Fresh(site))
    case Some(Torn) => None
    case Some(Full(d)) => if d.site == site then Some(d) else None
  }

  function Saved(disk: Disk, data: Data, fate: SaveFate): Disk {
    if Reaches(fate) then Disk(Some(Full(data)), None)
    else
      match fate.at
      case First => disk
      case Writing => disk.(tmp := Some(Torn))
      case BeforeReplace => disk.(tmp := Some(Full(data)))
  }

  function StatusOf(d: Data, name: string): Status {
    if name in d.phases then d.phases[name].status else Pending
  }

  /** The new status replaces the old one and drops its error; tag and note stay. */
  function Marked(d: Data, name: string, status: Status, detail: Detail): Data {
    var e := if name in d.phases then d.phases[name] else Entry(Pending, None, None, None);
    var e1 := e.(status := status, error := None);
    var e2 := match detail
      case NoDetail => e1
      case Error(t) => e1.(error := Some(t))
      case Tag(t) => e1.(tag := Some(t))
      case Note(t) => e1.(note := Some(t));
    d.(phases := d.phases[name := e2])
  }

  /** One mark: its own error or none, its own tag and note or the old ones, and nothing else changed. */
  lemma {:induction false} MarkKeeps(d: Data, name: string, status: Status, a: Detail)
    ensures name in Marked(d, name, status, a).phases
    ensures var e := Marked(d, name, status, a).phases[name];
      && e.status == status
      && e.error == (if a.Error? then Some(a.text) else None)
      && e.tag == (if a.Tag? then Some(a.text) else if name in d.phases then d.phases[name].tag else None)
      && e.note == (if a.Note? then Some(a.text) else if name in d.phases then d.phases[name].note else None)
      && Marked(d, name, status, a) == d.(phases := d.phases[name := e])
  {}

  /** What becomes of the details of two marks of one phase, one after the other: the error is the second's
      alone; a tag or a note stays until another replaces it; everything else is as it was. */
  lemma {:induction false} MarksKeep(d: Data, name: string, s1: Status, a: Detail, s2: Status, b: Detail)
    ensures name in Marked(Marked(d, name, s1, a), name, s2, b).phases
    ensures var e := Marked(Marked(d, name, s1, a), name, s2, b).phases[name];
      && e.status == s2 && e.error == (if b.Error? then Some(b.text) else None)
      && e.tag == (if b.Tag? then Some(b.text) else if a.Tag? then Some(a.text)
                   else if name in d.phases then d.phases[name].tag else None)
      && e.note == (if b.Note? then Some(b.text) else if a.Note? then Some(a.text)
                    else if name in d.phases then d.phases[name].note else None)
      && Marked(Marked(d, name, s1, a), name, s2, b) == d.(phases := d.phases[name := e])
  {
    MarkKeeps(d, name, s1, a);
    var once := Marked(d, name, s1, a);
    MarkKeeps(once, name, s2, b);
    var e := Marked(once, name, s2, b).phases[name];
    assert once.phases[name := e] == d.phases[name := e];
  }

  function Pinned(d: Data, key: string, v: Value): Data {
    if key in d.generated then d else d.(generated := d.generated[key := v])
  }

  /** A value in memory stays; a new one is added beside the others. */
  lemma PinnedKeeps(d: Data, key: string, v: Value)
    ensures var p := Pinned(d, key, v);
      && p.site == d.site && p.phases == d.phases && p.generated.Keys == d.generated.Keys + {key}
      && (forall k :: k in d.generated ==> p.generated[k] == d.generated[k])
      && (key !in d.generated ==> p.generated[key] == v)
  {}

  // ------------------------------------------------------------------ the object

  class State {
    var data: Data
    var disk: Disk

    constructor (data: Data, disk: Disk)
      ensures this.data == data && this.disk == disk
    { this.data, this.disk := data, disk; }

    /** Write the temporary file, replace the state file by it, restrict its permissions. */
    method Save(fate: SaveFate) returns (alive: bool)
      modifies this`disk
      ensures disk == Saved(old(disk), data, fate)
      ensures alive <==> fate.Completes?
    {
      if fate.Stops? && fate.at.First? { return false; }
      disk := disk.(tmp := Some(Torn));
      if fate.Stops? && fate.at.Writing? { return false; }
      disk := disk.(tmp := Some(Full(data)));
      if fate.Stops? && fate.at.BeforeReplace? { return false; }
      disk := Disk(disk.tmp, None);
      return fate.Completes?;
    }

    method MarkPhase(name: string, status: Status, detail: Detail, fate: SaveFate) returns (alive: bool)
      modifies this
      ensures data == Marked(old(data), name, status, detail)
      ensures disk == Saved(old(disk), data, fate)
      ensures alive <==> fate.Completes?
    {
      var e := Entry(Pending, None, None, None);
      if name in data.phases { e := data.phases[name]; }
      e := e.(error := None);
      e := e.(status := status);
      match detail {
        case NoDetail =>
        case Error(t) => e := e.(error := Some(t));
        case Tag(t) => e := e.(tag := Some(t));
        case Note(t) => e := e.(note := Some(t));
      }
      data := data.(phases := data.phases[name := e]);
      alive := Save(fate);
    }

    /** The generator runs, and the file is written, only for a key not yet in memory. */
    method GetOrGenerate(key: string, generated: Value, fate: SaveFate)
      returns (alive: bool, v: Value)
      modifies this
      ensures data == Pinned(old(data), key, generated)
      ensures disk == if key in old(data).generated then old(disk) else Saved(old(disk), data, fate)
      ensures alive <==> key in old(data).generated || fate.Completes?
      ensures v == data.generated[key]
      ensures v == if key in old(data).generated then old(data).generated[key] else generated
    {
      alive := true;
      if key !in data.generated {
        data := data.(generated := data.generated[key := generated]);
        alive := Save(fate);
      }
      v := data.generated[key];
    }
  }

  // ------------------------------------------------------------------ histories

  /** The file, and the memory of the process that has it open, if one is running. */
  datatype Site = Site(name: string, disk: Disk, mem: Option<Data>)

  datatype Event =
    | Open
    | Get(key: string, generated: Value, fate: SaveFate)
    | Put(key: string, value: Value, fate: SaveFate)
    | Mark(name: string, status: Status, detail: Detail, fate: SaveFate)
    | Die

  datatype Answer = Answer(key: string, value: Value)

  function Wrote(s: Site, d: Data, fate: SaveFate): Site {
    Site(s.name, Saved(s.disk, d, fate),
         if fate.Completes? || Raising(fate) then Some(d) else None)
  }

  /** The memory the event leaves the process with, if it lives. */
  function NewMemory(d: Data, e: Event): Data {
    match e
    case Get(key, v, _) => Pinned(d, key, v)
    case Put(key, v, _) => d.(generated := d.generated[key := v])
    case Mark(name, status, detail, _) => Marked(d, name, status, detail)
    case Open => d
    case Die => d
  }

  function Happen(s: Site, e: Event): Site {
    if e.Open? then s.(mem := Load(s.disk, s.name))
    else if s.mem.None? then s
    else if e.Die? then s.(mem := None)
    else if e.Get? && e.key in s.mem.value.generated then s
    else Wrote(s, NewMemory(s.mem.value, e), e.fate)
  }

  /** What the event hands back to its caller. */
  function Returned(s: Site, e: Event): seq<Answer> {
    if e.Get? && s.mem.Some? then
      var d := s.mem.value;
      if e.key in d.generated then [Answer(e.key, d.generated[e.key])]
      else if e.fate.Completes? then [Answer(e.key, e.generated)]
      else []
    else []
  }

  function Run(s: Site, es: seq<Event>): Site
    decreases |es|
  { if es == [] then s else Run(Happen(s, es[0]), es[1..]) }

  function Answers(s: Site, es: seq<Event>): seq<Answer>
    decreases |es|
  { if es == [] then [] else Returned(s, es[0]) + Answers(Happen(s, es[0]), es[1..]) }

  /** What a process starting now would read. */
  function OnFile(disk: Disk, site: string): Data {
    if disk.main.Some? && disk.main.value.Full? then disk.main.value.data else Fresh(site)
  }
  function OnDisk(s: Site): Data { OnFile(s.disk, s.name) }

  ghost predicate Sane(s: Site, once: set<string>) {
    && (s.disk.main.Some? ==> s.disk.main.value.Full? && s.disk.main.value.data.site == s.name)
    && (s.mem.Some? ==>
          && s.mem.value.site == s.name
          && forall k :: k in once && k in OnDisk(s).generated ==>
               k in s.mem.value.generated && s.mem.value.generated[k] == OnDisk(s).generated[k])
  }

  /** Keys in `once` are only ever pinned, never assigned; and one taken from memory is on file. */
  predicate Careful(s: Site, e: Event, once: set<string>) {
    && (e.Put? ==> e.key !in once)
    && (e.Get? && s.mem.Some? && e.key in s.mem.value.generated && e.key in once ==>
          e.key in OnDisk(s).generated)
  }

  predicate AllCareful(s: Site, es: seq<Event>, once: set<string>)
    decreases |es|
  { es == [] || (Careful(s, es[0], once) && AllCareful(Happen(s, es[0]), es[1..], once)) }

  lemma {:induction false} EventKeepsSane(s: Site, e: Event, once: set<string>)
    requires Sane(s, once) && (e.Put? ==> e.key !in once)
    ensures Sane(Happen(s, e), once)
    ensures Happen(s, e).disk.main == s.disk.main
         || (s.mem.Some? && Happen(s, e).disk.main == Some(Full(NewMemory(s.mem.value, e))))
  {}

  /** The process lives through every event but a crash and a save that dies; one that raises leaves the new
      value in memory all the same. */
  lemma EventLeaves(s: Site, e: Event)
    ensures var r := Happen(s, e);
      && r.name == s.name
      && (s.mem.None? && !e.Open? ==> r == s)
      && (s.mem.Some? && (e.Put? || e.Mark? || (e.Get? && e.key !in s.mem.value.generated)) ==>
            && (e.fate.Stops? && e.fate.dies ==> r.mem.None?)
            && (e.fate.Completes? || !e.fate.dies ==> r.mem.Some?)
            && (e.Put? && r.mem.Some? ==> e.key in r.mem.value.generated && r.mem.value.generated[e.key] == e.value)
            && (e.Get? && r.mem.Some? ==> e.key in r.mem.value.generated && r.mem.value.generated[e.key] == e.generated)
            && (e.Mark? && r.mem.Some? ==> StatusOf(r.mem.value, e.name) == e.status))
      && (s.mem.Some? && e.Get? && e.key in s.mem.value.generated ==> r == s)
      && (e.Die? ==> r == s.(mem := None))
  {}

  /** The i-th event wrote what the file now holds. */
  ghost predicate WrittenBy(s: Site, es: seq<Event>, i: nat) {
    && i < |es| && Run(s, es[..i]).mem.Some?
    && Run(s, es).disk.main == Some(Full(NewMemory(Run(s, es[..i]).mem.value, es[i])))
  }

  /** Whatever happens, the file is never torn: it is what it was at first, or the whole memory of
      the process at one of the events since. */
  lemma {:induction false} FileIsAlwaysWhole(s: Site, es: seq<Event>, once: set<string>)
    requires Sane(s, once) && forall e :: e in es && e.Put? ==> e.key !in once
    ensures Sane(Run(s, es), once)
    ensures Run(s, es).disk.main == s.disk.main || exists i: nat :: WrittenBy(s, es, i)
    decreases |es|
  {
    if es != [] {
      EventKeepsSane(s, es[0], once);
      var s1 := Happen(s, es[0]);
      FileIsAlwaysWhole(s1, es[1..], once);
      if Run(s, es).disk.main != s1.disk.main {
        var i: nat :| WrittenBy(s1, es[1..], i);
        assert es[..i + 1][1..] == es[1..][..i];
        assert WrittenBy(s, es, i + 1);
      } else if s1.disk.main != s.disk.main {
        assert es[..0] == [];
        assert WrittenBy(s, es, 0);
      }
    }
  }

  /** A pinned value never leaves the file, and never changes there. */
  lemma {:induction false} PinsPersist(s: Site, es: seq<Event>, once: set<string>, k: string)
    requires Sane(s, once) && AllCareful(s, es, once) && k in once && k in OnDisk(s).generated
    ensures Sane(Run(s, es), once)
    ensures k in OnDisk(Run(s, es)).generated
    ensures OnDisk(Run(s, es)).generated[k] == OnDisk(s).generated[k]
    ensures forall a :: a in Answers(s, es) && a.key == k ==> a.value == OnDisk(s).generated[k]
    decreases |es|
  {
    if es != [] {
      EventKeepsSane(s, es[0], once);
      PinsPersist(Happen(s, es[0]), es[1..], once, k);
    }
  }

  /** Over any interleaving of pins, marks, deaths inside a save and restarts: any two values ever
      returned for one key are equal. */
  lemma {:induction false} GeneratedOnce(s: Site, es: seq<Event>, once: set<string>, i: nat, j: nat)
    requires Sane(s, once) && AllCareful(s, es, once)
    requires i <= j < |Answers(s, es)|
    requires Answers(s, es)[i].key == Answers(s, es)[j].key && Answers(s, es)[i].key in once
    ensures Answers(s, es)[i].value == Answers(s, es)[j].value
    decreases |es|
  {
    var s1 := Happen(s, es[0]);
    var now := Returned(s, es[0]);
    EventKeepsSane(s, es[0], once);
    if |now| <= i {
      GeneratedOnce(s1, es[1..], once, i - |now|, j - |now|);
    } else if |now| <= j {
      var k := now[i].key;
      assert k in OnDisk(s1).generated && OnDisk(s1).generated[k] == now[i].value;
      PinsPersist(s1, es[1..], once, k);
      assert Answers(s, es)[j] == Answers(s1, es[1..])[j - |now|];
      assert Answers(s1, es[1..])[j - |now|] in Answers(s1, es[1..]);
    }
  }

  // ------------------------------------------------------------------ saves that raise

  /** Some two values handed out for the key differ only if this fails. */
  ghost predicate Agreed(answers: seq<Answer>, k: string) {
    forall i, j :: 0 <= i < j < |answers| && answers[i].key == k && answers[j].key == k ==>
      answers[i].value == answers[j].value
  }

  lemma {:induction false} OthersAgree(v: Value, rest: seq<Answer>, k: string)
    requires forall a :: a in rest && a.key == k ==> a.value == v
    ensures Agreed([Answer(k, v)] + rest, k)
  {
    var all := [Answer(k, v)] + rest;
    forall i | 0 <= i < |all| && all[i].key == k ensures all[i].value == v {
      if i > 0 { assert all[i] in rest; }
    }
  }

  /** Another process, after this one has died, asks for the key again. */
  function AskedAgain(k: string, b: Value): seq<Event> { [Die, Open, Get(k, b, Completes)] }

  lemma {:induction false} AskedAgainAnswers(s: Site, k: string, b: Value)
    requires Sane(s, {k}) && s.mem.Some? && k !in OnDisk(s).generated
    ensures AllCareful(s, AskedAgain(k, b), {k})
    ensures Answers(s, AskedAgain(k, b)) == [Answer(k, b)]
  {
    var es := AskedAgain(k, b);
    var s1 := Happen(s, Die);
    var s2 := Happen(s1, Open);
    assert s2.mem == Some(OnDisk(s));
    var s3 := Happen(s2, Get(k, b, Completes));
    assert es[1..] == [Open, Get(k, b, Completes)] && es[1..][1..] == [Get(k, b, Completes)];
    var none: seq<Event> := [];
    assert es[1..][1..][1..] == none;
    assert Answers(s3, none) == [] && AllCareful(s3, none, {k});
    assert Answers(s2, es[1..][1..]) == [Answer(k, b)] && AllCareful(s2, es[1..][1..], {k});
    assert Answers(s1, es[1..]) == [Answer(k, b)] && AllCareful(s1, es[1..], {k});
  }

  /** The condition is exact.  A value is taken from memory: whatever careful history follows agrees
      with it if and only if the key is on file. */
  lemma {:induction false} AgreementNeedsTheFile(s: Site, k: string, v: Value, fate: SaveFate)
    requires Sane(s, {k}) && s.mem.Some? && k in s.mem.value.generated
    ensures k in OnDisk(s).generated <==>
            forall es :: AllCareful(s, es, {k}) ==> Agreed(Answers(s, [Get(k, v, fate)] + es), k)
  {
    var a := s.mem.value.generated[k];
    forall es | AllCareful(s, es, {k})
      ensures Answers(s, [Get(k, v, fate)] + es) == [Answer(k, a)] + Answers(s, es)
    { assert ([Get(k, v, fate)] + es)[1..] == es; }
    if k in OnDisk(s).generated {
      forall es | AllCareful(s, es, {k}) ensures Agreed(Answers(s, [Get(k, v, fate)] + es), k) {
        PinsPersist(s, es, {k}, k);
        OthersAgree(a, Answers(s, es), k);
      }
    } else {
      var b := if a == Flag(true) then Flag(false) else Flag(true);
      AskedAgainAnswers(s, k, b);
      var all := Answers(s, [Get(k, v, fate)] + AskedAgain(k, b));
      assert all[0] == Answer(k, a) && all[1] == Answer(k, b);
    }
  }

  /** The event's save raised in a process that lives on. */
  predicate RaisedIn(s: Site, e: Event) {
    && s.mem.Some? && !e.Open? && !e.Die?
    && !(e.Get? && e.key in s.mem.value.generated) && Raising(e.fate)
  }

  /** What every caller does with a save that raised: the exception reaches the runner, which records
      the phase as failed, or it ends the process. */
  predicate Handled(s: Site, es: seq<Event>, once: set<string>, raised: bool)
    decreases |es|
  {
    es != [] ==>
      && (es[0].Put? ==> es[0].key !in once)
      && (raised ==> es[0].Mark? || es[0].Die? || es[0].Open?)
      && Handled(Happen(s, es[0]), es[1..], once, RaisedIn(s, es[0]))
  }

  lemma {:induction false} HandledIsCareful(s: Site, es: seq<Event>, once: set<string>, raised: bool)
    requires Sane(s, once) && (s.mem.Some? && !raised ==> s.mem.value == OnDisk(s))
    requires Handled(s, es, once, raised)
    ensures AllCareful(s, es, once)
    decreases |es|
  {
    if es != [] {
      EventKeepsSane(s, es[0], once);
      HandledIsCareful(Happen(s, es[0]), es[1..], once, RaisedIn(s, es[0]));
    }
  }

  /** So in every history that handles a raised save as the callers do, and otherwise any interleaving
      of pins, marks, saves that raise, deaths inside a save and restarts, any two values ever returned
      for one key are equal. */
  lemma {:induction false} HandledGeneratesOnce(s: Site, es: seq<Event>, once: set<string>, i: nat, j: nat)
    requires Sane(s, once) && (s.mem.Some? ==> s.mem.value == OnDisk(s)) && Handled(s, es, once, false)
    requires i <= j < |Answers(s, es)|
    requires Answers(s, es)[i].key == Answers(s, es)[j].key && Answers(s, es)[i].key in once
    ensures Answers(s, es)[i].value == Answers(s, es)[j].value
  {
    HandledIsCareful(s, es, once, false);
    GeneratedOnce(s, es, once, i, j);
  }
}
