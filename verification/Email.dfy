/** How the authentik phase resolves the SMTP settings: per value the site config, else an answer
    pinned in state, else a question whose answer is pinned before it is used. */
module Email {
  import opened StateFile

  /** `authentik.email` as written; None where a key is absent, and for `enabled` true. */
  datatype Ecfg = Ecfg(enabled: bool, host: string, port: string, username: Option<string>, password: string,
                       encryption: Option<(bool, bool)>, from: string, timeout: int)
  datatype Config = Config(email: Option<Ecfg>, hostname: string)

  datatype Record = Record(host: string, port: int, username: string, password: string,
                           tls: bool, ssl: bool, timeout: int, from: string)

  /** What is typed next, stripped, and how the save that pins it goes; the save of a pin that is in
      state already does not happen. */
  datatype Typed = Typed(text: string, save: SaveFate)
  type Inputs = nat -> Typed

  /** `port` reads a number off a string, or fails. */
  type PortReader = string -> Option<int>

  /** Pins so far, questions asked so far, whether the call is still going, and what it has done to the
      state file: one pin for each question. */
  datatype Env = Env(pins: map<string, string>, asked: nat, going: bool, log: seq<Event>)
  datatype Got = Got(e: Env, value: string)

  function Ask(e: Env, inp: Inputs, key: string, default_: string): Got {
    if !e.going then Got(e, "")
    else if key in e.pins then Got(e, e.pins[key])
    else
      var t := inp(e.asked);
      var v := if t.text == [] then default_ else t.text;
      Got(Env(e.pins[key := v], e.asked + 1, t.save.Completes?, e.log + [Get(key, Text(v), t.save)]), v)
  }

  /** A value the config gives is not asked for. */
  function Or(given: string, e: Env, inp: Inputs, key: string, default_: string): Got {
    if given != [] then Got(e, given) else Ask(e, inp, key, default_)
  }

  const NOTHING := Ecfg(true, "", "", None, "", None, "", 10)

  datatype Outcome = Resolved(r: Record) | Unset | Raised
  datatype Result = Result(e: Env, out: Outcome)

  function From(cfg: Config): string {
    "noreply@" + (if cfg.hostname == [] then "example.org" else cfg.hostname)
  }

  function User(c: Ecfg, e: Env, inp: Inputs): Got {
    if c.username.Some? then Got(e, c.username.value) else Ask(e, inp, "authentik_email_username", "")
  }

  function Password(c: Ecfg, user: string, e: Env, inp: Inputs): Got {
    if user == [] then Got(e, "") else Or(c.password, e, inp, "authentik_email_password", "")
  }

  function Encryption(c: Ecfg, e: Env, inp: Inputs): Got {
    if c.encryption.Some? then Got(e, "") else Ask(e, inp, "authentik_email_encryption", "tls")
  }

  function Finish(c: Ecfg, host: string, port: int, user: string, password: string, enc: string, from: string): Record {
    var tls := if c.encryption.Some? then c.encryption.value.0 else enc == "tls";
    var ssl := if c.encryption.Some? then c.encryption.value.1 else enc == "ssl";
    Record(host, port, user, password, tls, ssl, c.timeout, from)
  }

  /** From the user name on. */
  function Rest(cfg: Config, c: Ecfg, host: string, port: int, e: Env, inp: Inputs): Result {
    var u := User(c, e, inp);
    var p := Password(c, u.value, u.e, inp);
    var n := Encryption(c, p.e, inp);
    var f := Or(c.from, n.e, inp, "authentik_email_from", From(cfg));
    Result(f.e, if f.e.going then Resolved(Finish(c, host, port, u.value, p.value, n.value, f.value)) else Raised)
  }

  function Values(cfg: Config, c: Ecfg, e: Env, inp: Inputs, port: PortReader): Result {
    var h := Or(c.host, e, inp, "authentik_email_host", "");
    var q := Or(c.port, h.e, inp, "authentik_email_port", "587");
    if !q.e.going || port(q.value).None? then Result(q.e.(going := false), Raised)
    else Rest(cfg, c, h.value, port(q.value).value, q.e, inp)
  }

  function Email(cfg: Config, pins: map<string, string>, inp: Inputs, port: PortReader): Result {
    var e := Env(pins, 0, true, []);
    if cfg.email.Some? then
      if cfg.email.value.enabled then Values(cfg, cfg.email.value, e, inp, port) else Result(e, Unset)
    else
      var w := Ask(e, inp, "authentik_email_configure", "");
      if !w.e.going then Result(w.e, Raised)
      else if w.value != "y" && w.value != "yes" then Result(w.e, Unset)
      else Values(cfg, NOTHING, w.e, inp, port)
  }

  // ------------------------------------------------------------------ the phase as it runs

  class AuthentikPhase {
    var e: Env
    const inp: Inputs

    constructor (pins: map<string, string>, inp: Inputs)
      ensures e == Env(pins, 0, true, []) && this.inp == inp
    { this.e, this.inp := Env(pins, 0, true, []), inp; }

    /** `get_or_generate` over a question. */
    method Pin(key: string, default_: string) returns (v: string)
      modifies this
      ensures Got(e, v) == Ask(old(e), inp, key, default_)
    {
      if !e.going { return ""; }
      if key !in e.pins {
        var t := inp(e.asked);
        var answer := if t.text == [] then default_ else t.text;
        e := Env(e.pins[key := answer], e.asked + 1, t.save.Completes?, e.log + [Get(key, Text(answer), t.save)]);
      }
      return e.pins[key];
    }

    method PinOr(given: string, key: string, default_: string) returns (v: string)
      modifies this
      ensures Got(e, v) == Or(given, old(e), inp, key, default_)
    {
      if given != [] { return given; }
      v := Pin(key, default_);
    }

    method PinUser(c: Ecfg) returns (v: string)
      modifies this
      ensures Got(e, v) == User(c, old(e), inp)
    {
      if c.username.Some? { return c.username.value; }
      v := Pin("authentik_email_username", "");
    }

    method PinPassword(c: Ecfg, user: string) returns (v: string)
      modifies this
      ensures Got(e, v) == Password(c, user, old(e), inp)
    {
      if user == [] { return ""; }
      v := PinOr(c.password, "authentik_email_password", "");
    }

    method PinEncryption(c: Ecfg) returns (v: string)
      modifies this
      ensures Got(e, v) == Encryption(c, old(e), inp)
    {
      if c.encryption.Some? { return ""; }
      v := Pin("authentik_email_encryption", "tls");
    }

    method DoRest(cfg: Config, c: Ecfg, host: string, port: int) returns (out: Outcome)
      modifies this
      ensures Result(e, out) == Rest(cfg, c, host, port, old(e), inp)
    {
      var user := PinUser(c);
      var password := PinPassword(c, user);
      var enc := PinEncryption(c);
      var from := PinOr(c.from, "authentik_email_from", From(cfg));
      out := if e.going then Resolved(Finish(c, host, port, user, password, enc, from)) else Raised;
    }

    method DoValues(cfg: Config, c: Ecfg, port: PortReader) returns (out: Outcome)
      modifies this
      ensures Result(e, out) == Values(cfg, c, old(e), inp, port)
    {
      var host := PinOr(c.host, "authentik_email_host", "");
      var q := PinOr(c.port, "authentik_email_port", "587");
      if !e.going || port(q).None? {
        e := e.(going := false);
        return Raised;
      }
      out := DoRest(cfg, c, host, port(q).value);
    }

    method DoEmail(cfg: Config, port: PortReader) returns (out: Outcome)
      requires e == Env(e.pins, 0, true, [])
      modifies this
      ensures Result(e, out) == Email(cfg, old(e).pins, inp, port)
    {
      if cfg.email.Some? {
        if !cfg.email.value.enabled { return Unset; }
        out := DoValues(cfg, cfg.email.value, port);
        return;
      }
      var want := Pin("authentik_email_configure", "");
      if !e.going { return Raised; }
      if want != "y" && want != "yes" { return Unset; }
      out := DoValues(cfg, NOTHING, port);
    }
  }

  // ------------------------------------------------------------------ once resolved, for ever

  /** `later` has every pin of `e`, with its value. */
  ghost predicate Covers(later: map<string, string>, pins: map<string, string>) {
    forall k :: k in pins ==> k in later && later[k] == pins[k]
  }

  /** The step's second form asks nothing, adds no pin, and gives the same value, wherever the first
      left the call going and all its pins are in state. */
  ghost predicate Repeats(g: Got, e': Env, again: Got) {
    g.e.going && e'.going && Covers(e'.pins, g.e.pins) ==> again == Got(e', g.value)
  }

  ghost predicate Grows(e: Env, g: Got) { Covers(g.e.pins, e.pins) && (g.e.going ==> e.going) }

  lemma AskRepeats(e: Env, inp: Inputs, e': Env, inp': Inputs, key: string, default_: string)
    ensures Grows(e, Ask(e, inp, key, default_))
    ensures Repeats(Ask(e, inp, key, default_), e', Ask(e', inp', key, default_))
  {}

  lemma OrRepeats(given: string, e: Env, inp: Inputs, e': Env, inp': Inputs, key: string, default_: string)
    ensures Grows(e, Or(given, e, inp, key, default_))
    ensures Repeats(Or(given, e, inp, key, default_), e', Or(given, e', inp', key, default_))
  {}

  lemma UserRepeats(c: Ecfg, e: Env, inp: Inputs, e': Env, inp': Inputs)
    ensures Grows(e, User(c, e, inp)) && Repeats(User(c, e, inp), e', User(c, e', inp'))
  { AskRepeats(e, inp, e', inp', "authentik_email_username", ""); }

  lemma PasswordRepeats(c: Ecfg, user: string, e: Env, inp: Inputs, e': Env, inp': Inputs)
    ensures Grows(e, Password(c, user, e, inp)) && Repeats(Password(c, user, e, inp), e', Password(c, user, e', inp'))
  { OrRepeats(c.password, e, inp, e', inp', "authentik_email_password", ""); }

  lemma EncryptionRepeats(c: Ecfg, e: Env, inp: Inputs, e': Env, inp': Inputs)
    ensures Grows(e, Encryption(c, e, inp)) && Repeats(Encryption(c, e, inp), e', Encryption(c, e', inp'))
  { AskRepeats(e, inp, e', inp', "authentik_email_encryption", "tls"); }

  /** Two questions in a row: the second's repetition makes the first's. */
  lemma Chain(e: Env, a: Got, b: Got, e': Env)
    requires Grows(e, a) && Grows(a.e, b)
    ensures Covers(b.e.pins, e.pins) && (b.e.going ==> a.e.going && e.going)
    ensures Covers(e'.pins, b.e.pins) ==> Covers(e'.pins, a.e.pins)
  {}

  lemma {:induction false} RestRepeats(cfg: Config, c: Ecfg, host: string, port: int, e: Env, inp: Inputs, e': Env,
                                       inp': Inputs)
    requires e'.going
    ensures var r := Rest(cfg, c, host, port, e, inp);
      && Covers(r.e.pins, e.pins) && (r.e.going ==> e.going)
      && (r.out.Resolved? && Covers(e'.pins, r.e.pins) ==> Rest(cfg, c, host, port, e', inp') == Result(e', r.out))
  {
    var u := User(c, e, inp);
    UserRepeats(c, e, inp, e', inp');
    var p := Password(c, u.value, u.e, inp);
    PasswordRepeats(c, u.value, u.e, inp, e', inp');
    var n := Encryption(c, p.e, inp);
    EncryptionRepeats(c, p.e, inp, e', inp');
    var f := Or(c.from, n.e, inp, "authentik_email_from", From(cfg));
    OrRepeats(c.from, n.e, inp, e', inp', "authentik_email_from", From(cfg));
    Chain(p.e, n, f, e');
    Chain(u.e, p, n, e');
    Chain(e, u, p, e');
  }

  lemma {:induction false} ValuesRepeats(cfg: Config, c: Ecfg, e: Env, inp: Inputs, e': Env, inp': Inputs,
                                         port: PortReader)
    requires e'.going
    ensures var r := Values(cfg, c, e, inp, port);
      && Covers(r.e.pins, e.pins)
      && (r.out.Resolved? && Covers(e'.pins, r.e.pins) ==> Values(cfg, c, e', inp', port) == Result(e', r.out))
  {
    var h := Or(c.host, e, inp, "authentik_email_host", "");
    AskRepeats(e, inp, e', inp', "authentik_email_host", "");
    var q := Or(c.port, h.e, inp, "authentik_email_port", "587");
    AskRepeats(h.e, inp, e', inp', "authentik_email_port", "587");
    if q.e.going && port(q.value).Some? {
      RestRepeats(cfg, c, h.value, port(q.value).value, q.e, inp, e', inp');
    }
  }

  /** Once the settings have been resolved, or declined, under a config, every later call under it
      gives the same, asks nothing and pins nothing: whatever is typed, and whatever else has been
      pinned since. */
  lemma {:induction false} ResolvedForEver(cfg: Config, pins: map<string, string>, inp: Inputs,
                                           later: map<string, string>, inp': Inputs, port: PortReader)
    requires !Email(cfg, pins, inp, port).out.Raised?
    requires Covers(later, Email(cfg, pins, inp, port).e.pins)
    ensures Email(cfg, later, inp', port) == Result(Env(later, 0, true, []), Email(cfg, pins, inp, port).out)
  {
    var e, e' := Env(pins, 0, true, []), Env(later, 0, true, []);
    if cfg.email.Some? {
      ValuesRepeats(cfg, cfg.email.value, e, inp, e', inp', port);
    } else {
      var w := Ask(e, inp, "authentik_email_configure", "");
      AskRepeats(e, inp, e', inp', "authentik_email_configure", "");
      ValuesRepeats(cfg, NOTHING, w.e, inp, e', inp', port);
    }
  }

  // ------------------------------------------------------------------ over histories of the state file

  const KEYS := {"authentik_email_configure", "authentik_email_host", "authentik_email_port",
                 "authentik_email_username", "authentik_email_password", "authentik_email_encryption",
                 "authentik_email_from"}

  /** The text values among those generated once. */
  function PinsOf(d: Data): (pins: map<string, string>)
    ensures forall k :: k in pins <==> k in KEYS && k in d.generated && d.generated[k].Text?
    ensures forall k :: k in pins ==> pins[k] == d.generated[k].text
  { map k | k in KEYS && k in d.generated && d.generated[k].Text? :: d.generated[k].text }

  /** The running process and the file have exactly these answers. */
  ghost predicate Holds(s: Site, pins: map<string, string>) {
    && Sane(s, KEYS) && s.mem == Some(OnDisk(s))
    && (forall k :: k in pins ==> k in KEYS && k in OnDisk(s).generated && OnDisk(s).generated[k] == Text(pins[k]))
    && (forall k :: k in KEYS && k in OnDisk(s).generated ==> k in pins)
  }

  lemma {:induction false} RunSnoc(s: Site, es: seq<Event>, e: Event)
    ensures Run(s, es + [e]) == Happen(Run(s, es), e)
    decreases |es|
  {
    if es == [] {
      assert [] + [e] == [e] && [e][1..] == [];
      assert Run(s, [e]) == Run(Happen(s, e), []);
    } else {
      assert (es + [e])[1..] == es[1..] + [e];
      RunSnoc(Happen(s, es[0]), es[1..], e);
    }
  }

  lemma {:induction false} RunAppend(s: Site, a: seq<Event>, b: seq<Event>)
    ensures Run(s, a + b) == Run(Run(s, a), b)
    decreases |a|
  {
    if a == [] { assert a + b == b; }
    else {
      assert (a + b)[1..] == a[1..] + b;
      RunAppend(Happen(s, a[0]), a[1..], b);
    }
  }

  /** What the call has done to the state file is one pin for each question, in order, its save gone as it
      went; and while the call goes on, the process and the file have exactly its pins. */
  ghost predicate Traced(s: Site, e: Env, inp: Inputs, hostname: string) {
    && |e.log| == e.asked
    && (forall i :: 0 <= i < e.asked ==> PinsAnswer(e.log[i], inp(i), hostname))
    && (e.going ==> Holds(Run(s, e.log), e.pins))
  }

  predicate PinsAnswer(ev: Event, t: Typed, hostname: string) {
    && ev.Get? && ev.key in KEYS && ev.fate == t.save
    && ev.generated == Text(if t.text == [] then Usual(hostname, ev.key) else t.text)
  }

  /** What Enter stands for, question by question. */
  function Usual(hostname: string, key: string): string {
    if key == "authentik_email_port" then "587"
    else if key == "authentik_email_encryption" then "tls"
    else if key == "authentik_email_from" then
      if hostname == [] then "noreply@example.org" else "noreply@" + hostname
    else ""
  }

  /** The keys differ in length but for these. */
  lemma KeysApart()
    ensures "authentik_email_host" != "authentik_email_port"
    ensures "authentik_email_host" != "authentik_email_from"
    ensures "authentik_email_port" != "authentik_email_from"
    ensures "authentik_email_username" != "authentik_email_password"
  {
    assert "authentik_email_host"[16] != "authentik_email_port"[16];
    assert "authentik_email_host"[16] != "authentik_email_from"[16];
    assert "authentik_email_port"[16] != "authentik_email_from"[16];
    assert "authentik_email_username"[16] != "authentik_email_password"[16];
  }

  lemma LengthsApart()
    ensures |"authentik_email_configure"| == 25 && |"authentik_email_host"| == |"authentik_email_port"| == 20
    ensures |"authentik_email_username"| == |"authentik_email_password"| == 24
    ensures |"authentik_email_encryption"| == 26 && |"authentik_email_from"| == 20
  {}

  lemma UsualIs(cfg: Config)
    ensures var usual := (k: string) => Usual(cfg.hostname, k);
      && usual("authentik_email_configure") == usual("authentik_email_host") == []
      && usual("authentik_email_username") == usual("authentik_email_password") == []
      && usual("authentik_email_port") == "587" && usual("authentik_email_encryption") == "tls"
      && usual("authentik_email_from") == From(cfg)
  {
    KeysApart();
    LengthsApart();
  }

  lemma {:induction false} GetOnFile(s: Site, pins: map<string, string>, key: string, v: string)
    requires Holds(s, pins) && key in KEYS && key !in pins
    ensures Holds(Happen(s, Get(key, Text(v), Completes)), pins[key := v])
  { EventKeepsSane(s, Get(key, Text(v), Completes), KEYS); }

  lemma {:induction false} AskOnFile(s: Site, e: Env, inp: Inputs, hostname: string, key: string, default_: string)
    requires key in KEYS && Traced(s, e, inp, hostname) && default_ == Usual(hostname, key)
    ensures Traced(s, Ask(e, inp, key, default_).e, inp, hostname)
  {
    if e.going && key !in e.pins {
      var t := inp(e.asked);
      var v := if t.text == [] then default_ else t.text;
      RunSnoc(s, e.log, Get(key, Text(v), t.save));
      if t.save.Completes? { GetOnFile(Run(s, e.log), e.pins, key, v); }
    }
  }

  lemma {:induction false} OrOnFile(given: string, s: Site, e: Env, inp: Inputs, hostname: string, key: string,
                                    default_: string)
    requires key in KEYS && Traced(s, e, inp, hostname) && default_ == Usual(hostname, key)
    ensures Traced(s, Or(given, e, inp, key, default_).e, inp, hostname)
  { AskOnFile(s, e, inp, hostname, key, default_); }

  lemma {:induction false} RestOnFile(cfg: Config, c: Ecfg, host: string, port: int, s: Site, e: Env, inp: Inputs)
    requires Traced(s, e, inp, cfg.hostname)
    ensures Traced(s, Rest(cfg, c, host, port, e, inp).e, inp, cfg.hostname)
  {
    UsualIs(cfg);
    var u := User(c, e, inp);
    AskOnFile(s, e, inp, cfg.hostname, "authentik_email_username", "");
    var p := Password(c, u.value, u.e, inp);
    OrOnFile(c.password, s, u.e, inp, cfg.hostname, "authentik_email_password", "");
    var n := Encryption(c, p.e, inp);
    AskOnFile(s, p.e, inp, cfg.hostname, "authentik_email_encryption", "tls");
    OrOnFile(c.from, s, n.e, inp, cfg.hostname, "authentik_email_from", From(cfg));
  }

  lemma {:induction false} ValuesOnFile(cfg: Config, c: Ecfg, s: Site, e: Env, inp: Inputs, port: PortReader)
    requires Traced(s, e, inp, cfg.hostname)
    ensures Traced(s, Values(cfg, c, e, inp, port).e, inp, cfg.hostname)
  {
    UsualIs(cfg);
    var h := Or(c.host, e, inp, "authentik_email_host", "");
    OrOnFile(c.host, s, e, inp, cfg.hostname, "authentik_email_host", "");
    var q := Or(c.port, h.e, inp, "authentik_email_port", "587");
    OrOnFile(c.port, s, h.e, inp, cfg.hostname, "authentik_email_port", "587");
    if q.e.going && port(q.value).Some? { RestOnFile(cfg, c, h.value, port(q.value).value, s, q.e, inp); }
  }

  /** From a site whose process and file hold the pins it begins with: a call does to the state file what
      its questions do, one pin each, and one that ends without raising has everything it pinned on file. */
  lemma {:induction false} EmailOnFile(cfg: Config, s: Site, pins: map<string, string>, inp: Inputs, port: PortReader)
    requires Holds(s, pins)
    ensures var e := Email(cfg, pins, inp, port).e;
      |e.log| == e.asked && forall i :: 0 <= i < e.asked ==> PinsAnswer(e.log[i], inp(i), cfg.hostname)
    ensures var r := Email(cfg, pins, inp, port); !r.out.Raised? ==> Holds(Run(s, r.e.log), r.e.pins)
  {
    var e := Env(pins, 0, true, []);
    if cfg.email.Some? {
      ValuesOnFile(cfg, cfg.email.value, s, e, inp, port);
    } else {
      var w := Ask(e, inp, "authentik_email_configure", "");
      UsualIs(cfg);
      AskOnFile(s, e, inp, cfg.hostname, "authentik_email_configure", "");
      ValuesOnFile(cfg, NOTHING, s, w.e, inp, port);
    }
  }

  /** So over every history in which such a call is followed by anything that handles raised saves as the
      callers do, with deaths anywhere, other values pinned and phases marked: whichever process asks again
      under the same config resolves the same, asks nothing and pins nothing. */
  lemma {:induction false} ResolvedThroughHistories(cfg: Config, s: Site, pins: map<string, string>, inp: Inputs,
                                                    es: seq<Event>, inp': Inputs, port: PortReader)
    requires Holds(s, pins) && !Email(cfg, pins, inp, port).out.Raised?
    requires Handled(Run(s, Email(cfg, pins, inp, port).e.log), es, KEYS, false)
    ensures var r := Email(cfg, pins, inp, port); var later := PinsOf(OnDisk(Run(s, r.e.log + es)));
      Email(cfg, later, inp', port) == Result(Env(later, 0, true, []), r.out)
  {
    var r := Email(cfg, pins, inp, port);
    EmailOnFile(cfg, s, pins, inp, port);
    var s1 := Run(s, r.e.log);
    HandledIsCareful(s1, es, KEYS, false);
    RunAppend(s, r.e.log, es);
    var later := PinsOf(OnDisk(Run(s1, es)));
    forall k | k in r.e.pins ensures k in later && later[k] == r.e.pins[k] { PinsPersist(s1, es, KEYS, k); }
    ResolvedForEver(cfg, pins, inp, later, inp', port);
  }

  // ------------------------------------------------------------------ where each field comes from

  /** The value of a setting: the config's if it gives one, else the pinned one. */
  predicate Settles(given: string, pins: map<string, string>, key: string, v: string) {
    if given != [] then v == given else key in pins && v == pins[key]
  }

  predicate UserSettles(c: Ecfg, pins: map<string, string>, v: string) {
    if c.username.Some? then v == c.username.value else Settles("", pins, "authentik_email_username", v)
  }

  predicate PasswordSettles(c: Ecfg, pins: map<string, string>, user: string, v: string) {
    if user == [] then v == [] else Settles(c.password, pins, "authentik_email_password", v)
  }

  predicate EncryptionSettles(c: Ecfg, pins: map<string, string>, tls: bool, ssl: bool) {
    if c.encryption.Some? then (tls, ssl) == c.encryption.value
    else "authentik_email_encryption" in pins
         && tls == (pins["authentik_email_encryption"] == "tls") && ssl == (pins["authentik_email_encryption"] == "ssl")
  }

  predicate RestSettles(c: Ecfg, pins: map<string, string>, r: Record) {
    && UserSettles(c, pins, r.username) && PasswordSettles(c, pins, r.username, r.password)
    && EncryptionSettles(c, pins, r.tls, r.ssl) && Settles(c.from, pins, "authentik_email_from", r.from)
    && r.timeout == c.timeout
  }

  lemma {:induction false} OrSettles(given: string, e: Env, inp: Inputs, key: string, default_: string)
    ensures var g := Or(given, e, inp, key, default_);
      Grows(e, g) && (g.e.going ==> Settles(given, g.e.pins, key, g.value))
  {}

  lemma {:induction false} UserSettled(c: Ecfg, e: Env, inp: Inputs)
    ensures var g := User(c, e, inp); Grows(e, g) && (g.e.going ==> UserSettles(c, g.e.pins, g.value))
  { OrSettles("", e, inp, "authentik_email_username", ""); }

  lemma {:induction false} PasswordSettled(c: Ecfg, user: string, e: Env, inp: Inputs)
    ensures var g := Password(c, user, e, inp);
      Grows(e, g) && (g.e.going ==> PasswordSettles(c, g.e.pins, user, g.value))
  { OrSettles(c.password, e, inp, "authentik_email_password", ""); }

  lemma {:induction false} EncryptionSettled(c: Ecfg, e: Env, inp: Inputs)
    ensures var g := Encryption(c, e, inp);
      && Grows(e, g)
      && (g.e.going && c.encryption.None? ==> Settles("", g.e.pins, "authentik_email_encryption", g.value))
  { OrSettles("", e, inp, "authentik_email_encryption", "tls"); }

  lemma {:induction false} SettlesStays(given: string, pins: map<string, string>, later: map<string, string>,
                                        key: string, v: string)
    requires Settles(given, pins, key, v) && Covers(later, pins)
    ensures Settles(given, later, key, v)
  {}

  /** What was settled when it was asked for stays so as more is pinned. */
  lemma {:induction false} FinishSettles(c: Ecfg, host: string, port: int, u: Got, p: Got, n: Got, f: Got)
    requires UserSettles(c, u.e.pins, u.value) && PasswordSettles(c, p.e.pins, u.value, p.value)
    requires c.encryption.None? ==> Settles("", n.e.pins, "authentik_email_encryption", n.value)
    requires Settles(c.from, f.e.pins, "authentik_email_from", f.value)
    requires Covers(f.e.pins, u.e.pins) && Covers(f.e.pins, p.e.pins) && Covers(f.e.pins, n.e.pins)
    ensures RestSettles(c, f.e.pins, Finish(c, host, port, u.value, p.value, n.value, f.value))
  {
    if c.username.None? { SettlesStays("", u.e.pins, f.e.pins, "authentik_email_username", u.value); }
    if u.value != [] { SettlesStays(c.password, p.e.pins, f.e.pins, "authentik_email_password", p.value); }
    if c.encryption.None? { SettlesStays("", n.e.pins, f.e.pins, "authentik_email_encryption", n.value); }
  }

  lemma {:induction false} RestSettled(cfg: Config, c: Ecfg, host: string, port: int, e: Env, inp: Inputs)
    ensures var x := Rest(cfg, c, host, port, e, inp);
      && Covers(x.e.pins, e.pins)
      && (x.out.Resolved? ==> RestSettles(c, x.e.pins, x.out.r) && x.out.r.host == host && x.out.r.port == port)
  {
    var u := User(c, e, inp);
    UserSettled(c, e, inp);
    var p := Password(c, u.value, u.e, inp);
    PasswordSettled(c, u.value, u.e, inp);
    var n := Encryption(c, p.e, inp);
    EncryptionSettled(c, p.e, inp);
    var f := Or(c.from, n.e, inp, "authentik_email_from", From(cfg));
    OrSettles(c.from, n.e, inp, "authentik_email_from", From(cfg));
    Chain(p.e, n, f, e);
    Chain(u.e, p, n, f.e);
    Chain(e, u, p, f.e);
    if f.e.going { FinishSettles(c, host, port, u, p, n, f); }
  }

  /** Every field of a record resolved is the config's where the config gives it, and otherwise the
      pinned one: for the port, the number it reads as. */
  lemma {:induction false} RecordIsConfigOrPins(cfg: Config, c: Ecfg, e: Env, inp: Inputs, port: PortReader)
    requires Values(cfg, c, e, inp, port).out.Resolved?
    ensures var x := Values(cfg, c, e, inp, port);
      && RestSettles(c, x.e.pins, x.out.r)
      && Settles(c.host, x.e.pins, "authentik_email_host", x.out.r.host)
      && (c.port == [] ==> "authentik_email_port" in x.e.pins)
      && port(if c.port != [] then c.port else x.e.pins["authentik_email_port"]) == Some(x.out.r.port)
  {
    var h := Or(c.host, e, inp, "authentik_email_host", "");
    OrSettles(c.host, e, inp, "authentik_email_host", "");
    var q := Or(c.port, h.e, inp, "authentik_email_port", "587");
    OrSettles(c.port, h.e, inp, "authentik_email_port", "587");
    RestSettled(cfg, c, h.value, port(q.value).value, q.e, inp);
  }

  // ------------------------------------------------------------------ when a call raises

  ghost predicate AllSaved(inp: Inputs) { forall i :: inp(i).save.Completes? }

  /** What a question comes to that is the i-th asked, if it is asked. */
  function Reply(pins: map<string, string>, inp: Inputs, i: nat, key: string, default_: string): string {
    if key in pins then pins[key] else if inp(i).text == [] then default_ else inp(i).text
  }

  function AskedFirst(given: string, pins: map<string, string>, key: string): nat {
    if given != [] || key in pins then 0 else 1
  }

  /** The string read as a port: the config's, else the pinned one, else the one typed, after the host if
      that is asked for, else 587. */
  function PortText(c: Ecfg, pins: map<string, string>, inp: Inputs, i: nat): string {
    if c.port != [] then c.port
    else Reply(pins, inp, i + AskedFirst(c.host, pins, "authentik_email_host"), "authentik_email_port", "587")
  }

  /** The settings are read at all, under which config, and the questions from which on. */
  predicate Reads(cfg: Config, pins: map<string, string>, inp: Inputs) {
    if cfg.email.Some? then cfg.email.value.enabled
    else Reply(pins, inp, 0, "authentik_email_configure", "") in ["y", "yes"]
  }

  function ReadPort(cfg: Config, pins: map<string, string>, inp: Inputs): string {
    if cfg.email.Some? then PortText(cfg.email.value, pins, inp, 0)
    else PortText(NOTHING, pins, inp, AskedFirst("", pins, "authentik_email_configure"))
  }

  lemma {:induction false} AskGoes(e: Env, inp: Inputs, key: string, default_: string)
    requires AllSaved(inp) && e.going
    ensures var g := Ask(e, inp, key, default_);
      && g.e.going && g.value == Reply(e.pins, inp, e.asked, key, default_)
      && g.e.asked == e.asked + AskedFirst("", e.pins, key)
      && (forall k :: k != key ==> (k in g.e.pins <==> k in e.pins))
      && (forall k :: k != key && k in e.pins ==> g.e.pins[k] == e.pins[k])
  {}

  lemma {:induction false} RestGoes(cfg: Config, c: Ecfg, host: string, port: int, e: Env, inp: Inputs)
    requires AllSaved(inp) && e.going
    ensures Rest(cfg, c, host, port, e, inp).out.Resolved?
  {
    var u := User(c, e, inp);
    AskGoes(e, inp, "authentik_email_username", "");
    var p := Password(c, u.value, u.e, inp);
    AskGoes(u.e, inp, "authentik_email_password", "");
    var n := Encryption(c, p.e, inp);
    AskGoes(p.e, inp, "authentik_email_encryption", "tls");
    AskGoes(n.e, inp, "authentik_email_from", From(cfg));
  }

  lemma {:induction false} ValuesExactly(cfg: Config, c: Ecfg, e: Env, inp: Inputs, port: PortReader)
    requires AllSaved(inp) && e.going
    ensures Values(cfg, c, e, inp, port).out.Raised? <==> port(PortText(c, e.pins, inp, e.asked)).None?
  {
    PortIsNotHost();
    var h := Or(c.host, e, inp, "authentik_email_host", "");
    AskGoes(e, inp, "authentik_email_host", "");
    var q := Or(c.port, h.e, inp, "authentik_email_port", "587");
    AskGoes(h.e, inp, "authentik_email_port", "587");
    assert q.value == PortText(c, e.pins, inp, e.asked);
    if port(q.value).Some? { RestGoes(cfg, c, h.value, port(q.value).value, q.e, inp); }
  }

  lemma PortIsNotHost()
    ensures "authentik_email_host" != "authentik_email_port"
    ensures "authentik_email_configure" != "authentik_email_port"
    ensures "authentik_email_configure" != "authentik_email_host"
  {
    assert "authentik_email_host"[16] != "authentik_email_port"[16];
    assert |"authentik_email_configure"| != |"authentik_email_port"|;
    assert |"authentik_email_configure"| != |"authentik_email_host"|;
  }

  /** With every save completing, a call raises if and only if the settings are read and what it reads as
      the port is no number. */
  lemma {:induction false} RaisesExactly(cfg: Config, pins: map<string, string>, inp: Inputs, port: PortReader)
    requires AllSaved(inp)
    ensures Email(cfg, pins, inp, port).out.Raised? <==>
              Reads(cfg, pins, inp) && port(ReadPort(cfg, pins, inp)).None?
  {
    if cfg.email.Some? {
      if cfg.email.value.enabled { ValuesExactly(cfg, cfg.email.value, Env(pins, 0, true, []), inp, port); }
    } else {
      AskedRaisesExactly(cfg, pins, inp, port);
    }
  }

  /** Where the config is silent and the first question decides. */
  lemma {:induction false} AskedRaisesExactly(cfg: Config, pins: map<string, string>, inp: Inputs, port: PortReader)
    requires AllSaved(inp) && cfg.email.None?
    ensures Email(cfg, pins, inp, port).out.Raised? <==>
              Reads(cfg, pins, inp) && port(ReadPort(cfg, pins, inp)).None?
  {
    PortIsNotHost();
    var e := Env(pins, 0, true, []);
    var w := Ask(e, inp, "authentik_email_configure", "");
    AskGoes(e, inp, "authentik_email_configure", "");
    assert PortText(NOTHING, w.e.pins, inp, w.e.asked) == ReadPort(cfg, pins, inp);
    if w.value in ["y", "yes"] { ValuesExactly(cfg, NOTHING, w.e, inp, port); }
  }

  /** The port is pinned before it is read as a number: once one that is not has been pinned and the
      config gives none, every later call raises, whatever is typed and however its saves go. */
  lemma {:induction false} BadPortSticks(cfg: Config, pins: map<string, string>, inp: Inputs, port: PortReader)
    requires "authentik_email_port" in pins && port(pins["authentik_email_port"]).None?
    requires cfg.email.Some? ==> cfg.email.value.enabled && cfg.email.value.port == []
    requires cfg.email.None? ==>
               "authentik_email_configure" in pins && pins["authentik_email_configure"] in ["y", "yes"]
    ensures Email(cfg, pins, inp, port).out.Raised?
    ensures Email(cfg, pins, inp, port).e.pins["authentik_email_port"] == pins["authentik_email_port"]
  { PortIsNotHost(); }

  /** So one raise, with every save completing, is for ever: every later call under the config that finds
      what this one pinned raises too, whatever is typed and however its saves go. */
  lemma {:induction false} RaisedForEver(cfg: Config, pins: map<string, string>, inp: Inputs,
                                         later: map<string, string>, inp': Inputs, port: PortReader)
    requires AllSaved(inp) && Email(cfg, pins, inp, port).out.Raised?
    requires Covers(later, Email(cfg, pins, inp, port).e.pins)
    ensures Email(cfg, later, inp', port).out.Raised?
  {
    var e, e' := Env(pins, 0, true, []), Env(later, 0, true, []);
    if cfg.email.Some? {
      RaisedLater(cfg, cfg.email.value, e, inp, e', inp', port);
    } else {
      var w := Ask(e, inp, "authentik_email_configure", "");
      AskedForEver(pins, inp, w, later, inp', Values(cfg, NOTHING, w.e, inp, port).e.pins) by {
        AskGoes(e, inp, "authentik_email_configure", "");
        RaisedValuesPin(cfg, NOTHING, w.e, inp, port);
      }
      RaisedLater(cfg, NOTHING, w.e, inp, e', inp', port);
    }
  }

  /** The first answer stands. */
  lemma {:induction false} AskedForEver(pins: map<string, string>, inp: Inputs, w: Got, later: map<string, string>,
                                        inp': Inputs, since: map<string, string>)
    requires w == Ask(Env(pins, 0, true, []), inp, "authentik_email_configure", "") && w.e.going
    requires Covers(since, w.e.pins) && Covers(later, since)
    ensures var e' := Env(later, 0, true, []);
      Ask(e', inp', "authentik_email_configure", "") == Got(e', w.value)
  {}

  lemma {:induction false} RaisedLater(cfg: Config, c: Ecfg, e: Env, inp: Inputs, e': Env, inp': Inputs,
                                       port: PortReader)
    requires AllSaved(inp) && e.going && Values(cfg, c, e, inp, port).out.Raised?
    requires Covers(e'.pins, Values(cfg, c, e, inp, port).e.pins)
    ensures Values(cfg, c, e', inp', port).out.Raised?
  {
    RaisedValuesPin(cfg, c, e, inp, port);
    RaisedValues(cfg, c, e', inp', port);
  }

  /** What a call that reads no number has pinned. */
  lemma {:induction false} RaisedValuesPin(cfg: Config, c: Ecfg, e: Env, inp: Inputs, port: PortReader)
    requires AllSaved(inp) && e.going && Values(cfg, c, e, inp, port).out.Raised?
    ensures var pins := Values(cfg, c, e, inp, port).e.pins;
      && Covers(pins, e.pins)
      && (c.port == [] ==> "authentik_email_port" in pins)
      && port(if c.port != [] then c.port else pins["authentik_email_port"]).None?
  {
    ValuesExactly(cfg, c, e, inp, port);
    PortIsNotHost();
    var h := Or(c.host, e, inp, "authentik_email_host", "");
    AskGoes(e, inp, "authentik_email_host", "");
    AskGoes(h.e, inp, "authentik_email_port", "587");
  }

  lemma {:induction false} RaisedValues(cfg: Config, c: Ecfg, e: Env, inp: Inputs, port: PortReader)
    requires c.port == [] ==> "authentik_email_port" in e.pins
    requires port(if c.port != [] then c.port else e.pins["authentik_email_port"]).None?
    ensures Values(cfg, c, e, inp, port).out.Raised?
  { PortIsNotHost(); }

  // ------------------------------------------------------------------ what is asked

  function KeysOf(log: seq<Event>): seq<string> {
    seq(|log|, i requires 0 <= i < |log| => if log[i].Get? then log[i].key else "")
  }

  function Missing(wanted: bool, pins: map<string, string>, key: string): seq<string> {
    if wanted && key !in pins then [key] else []
  }

  /** The settings neither the config nor a pin gives; the password only of a user. */
  function HostAndPort(c: Ecfg, pins: map<string, string>): seq<string> {
    Missing(c.host == [], pins, "authentik_email_host") + Missing(c.port == [], pins, "authentik_email_port")
  }

  function UserAndPassword(c: Ecfg, pins: map<string, string>, user: string): seq<string> {
    Missing(c.username.None?, pins, "authentik_email_username")
    + Missing(user != [] && c.password == [], pins, "authentik_email_password")
  }

  function EncryptionAndFrom(c: Ecfg, pins: map<string, string>): seq<string> {
    Missing(c.encryption.None?, pins, "authentik_email_encryption")
    + Missing(c.from == [], pins, "authentik_email_from")
  }

  /** From e to e' these are asked and no others, in this order, and pinned. */
  ghost predicate Asks(e: Env, e': Env, keys: seq<string>) {
    && KeysOf(e'.log) == KeysOf(e.log) + keys
    && forall k :: k in e'.pins <==> k in e.pins || k in keys
  }

  lemma AsksThen(a: Env, b: Env, c: Env, ks: seq<string>, ls: seq<string>)
    requires Asks(a, b, ks) && Asks(b, c, ls)
    ensures Asks(a, c, ks + ls)
  { assert KeysOf(a.log) + (ks + ls) == KeysOf(a.log) + ks + ls; }

  lemma {:induction false} OrAsks(given: string, e: Env, inp: Inputs, key: string, default_: string)
    requires Or(given, e, inp, key, default_).e.going
    ensures e.going && Asks(e, Or(given, e, inp, key, default_).e, Missing(given == [], e.pins, key))
  {}

  lemma {:induction false} UserAsks(c: Ecfg, e: Env, inp: Inputs)
    requires User(c, e, inp).e.going
    ensures e.going && Asks(e, User(c, e, inp).e, Missing(c.username.None?, e.pins, "authentik_email_username"))
  { if c.username.None? { OrAsks("", e, inp, "authentik_email_username", ""); } }

  lemma {:induction false} PasswordAsks(c: Ecfg, user: string, e: Env, inp: Inputs)
    requires Password(c, user, e, inp).e.going
    ensures e.going
    ensures Asks(e, Password(c, user, e, inp).e,
                 Missing(user != [] && c.password == [], e.pins, "authentik_email_password"))
  { if user != [] { OrAsks(c.password, e, inp, "authentik_email_password", ""); } }

  lemma {:induction false} EncryptionAsks(c: Ecfg, e: Env, inp: Inputs)
    requires Encryption(c, e, inp).e.going
    ensures e.going
    ensures Asks(e, Encryption(c, e, inp).e, Missing(c.encryption.None?, e.pins, "authentik_email_encryption"))
  { if c.encryption.None? { OrAsks("", e, inp, "authentik_email_encryption", "tls"); } }

  lemma {:induction false} UserAndPasswordAsk(c: Ecfg, e: Env, inp: Inputs, u: Got, p: Got)
    requires u == User(c, e, inp) && p == Password(c, u.value, u.e, inp) && p.e.going
    ensures e.going && Asks(e, p.e, UserAndPassword(c, e.pins, u.value))
  {
    KeysApart();
    PasswordAsks(c, u.value, u.e, inp);
    UserAsks(c, e, inp);
    AsksThen(e, u.e, p.e, Missing(c.username.None?, e.pins, "authentik_email_username"),
             Missing(u.value != [] && c.password == [], u.e.pins, "authentik_email_password"));
  }

  lemma {:induction false} EncryptionAndFromAsk(cfg: Config, c: Ecfg, e: Env, inp: Inputs, n: Got, f: Got)
    requires n == Encryption(c, e, inp) && f == Or(c.from, n.e, inp, "authentik_email_from", From(cfg)) && f.e.going
    ensures e.going && Asks(e, f.e, EncryptionAndFrom(c, e.pins))
  {
    LengthsApart();
    OrAsks(c.from, n.e, inp, "authentik_email_from", From(cfg));
    EncryptionAsks(c, e, inp);
    AsksThen(e, n.e, f.e, Missing(c.encryption.None?, e.pins, "authentik_email_encryption"),
             Missing(c.from == [], n.e.pins, "authentik_email_from"));
  }

  lemma {:induction false} OtherTwoMissing(c: Ecfg, e: Env, e': Env, keys: seq<string>)
    requires Asks(e, e', keys)
    requires forall k :: k in keys ==> k in ["authentik_email_username", "authentik_email_password"]
    ensures EncryptionAndFrom(c, e'.pins) == EncryptionAndFrom(c, e.pins)
  { LengthsApart(); }

  lemma {:induction false} RestAsks(cfg: Config, c: Ecfg, host: string, port: int, e: Env, inp: Inputs, r: Result)
    requires r == Rest(cfg, c, host, port, e, inp) && r.out.Resolved?
    ensures e.going
    ensures Asks(e, r.e, UserAndPassword(c, e.pins, r.out.r.username) + EncryptionAndFrom(c, e.pins))
  {
    var u := User(c, e, inp);
    var p := Password(c, u.value, u.e, inp);
    var n := Encryption(c, p.e, inp);
    EncryptionAndFromAsk(cfg, c, p.e, inp, n, Or(c.from, n.e, inp, "authentik_email_from", From(cfg)));
    UserAndPasswordAsk(c, e, inp, u, p);
    OtherTwoMissing(c, e, p.e, UserAndPassword(c, e.pins, u.value));
    AsksThen(e, p.e, r.e, UserAndPassword(c, e.pins, u.value), EncryptionAndFrom(c, e.pins));
  }

  lemma {:induction false} HostAndPortAsk(c: Ecfg, e: Env, inp: Inputs)
    requires Or(c.port, Or(c.host, e, inp, "authentik_email_host", "").e, inp, "authentik_email_port", "587").e.going
    ensures e.going
    ensures var h := Or(c.host, e, inp, "authentik_email_host", "");
      Asks(e, Or(c.port, h.e, inp, "authentik_email_port", "587").e, HostAndPort(c, e.pins))
  {
    KeysApart();
    var h := Or(c.host, e, inp, "authentik_email_host", "");
    var q := Or(c.port, h.e, inp, "authentik_email_port", "587");
    OrAsks(c.port, h.e, inp, "authentik_email_port", "587");
    OrAsks(c.host, e, inp, "authentik_email_host", "");
    AsksThen(e, h.e, q.e, Missing(c.host == [], e.pins, "authentik_email_host"),
             Missing(c.port == [], h.e.pins, "authentik_email_port"));
  }

  lemma {:induction false} OthersMissing(c: Ecfg, e: Env, e': Env, user: string, keys: seq<string>)
    requires Asks(e, e', keys)
    requires forall k :: k in keys ==> k in ["authentik_email_host", "authentik_email_port"]
    ensures UserAndPassword(c, e'.pins, user) == UserAndPassword(c, e.pins, user)
    ensures EncryptionAndFrom(c, e'.pins) == EncryptionAndFrom(c, e.pins)
  {
    KeysApart();
    LengthsApart();
  }

  lemma {:induction false} ValuesAsks(cfg: Config, c: Ecfg, e: Env, inp: Inputs, port: PortReader, r: Result)
    requires r == Values(cfg, c, e, inp, port) && r.out.Resolved?
    ensures e.going
    ensures Asks(e, r.e, HostAndPort(c, e.pins)
                         + (UserAndPassword(c, e.pins, r.out.r.username) + EncryptionAndFrom(c, e.pins)))
  {
    var h := Or(c.host, e, inp, "authentik_email_host", "");
    var q := Or(c.port, h.e, inp, "authentik_email_port", "587");
    RestAsks(cfg, c, h.value, port(q.value).value, q.e, inp, r);
    HostAndPortAsk(c, e, inp);
    OthersMissing(c, e, q.e, r.out.r.username, HostAndPort(c, e.pins));
    AsksThen(e, q.e, r.e, HostAndPort(c, e.pins),
             UserAndPassword(c, e.pins, r.out.r.username) + EncryptionAndFrom(c, e.pins));
  }

  /** A call that resolves has asked exactly what neither the config nor a pin gave, in this order: whether to
      configure at all, host, port, user, the password of a user, encryption, From. */
  lemma {:induction false} AsksExactly(cfg: Config, pins: map<string, string>, inp: Inputs, port: PortReader)
    requires Email(cfg, pins, inp, port).out.Resolved?
    ensures var r := Email(cfg, pins, inp, port);
      var c := if cfg.email.Some? then cfg.email.value else NOTHING;
      KeysOf(r.e.log) == Missing(cfg.email.None?, pins, "authentik_email_configure") + (HostAndPort(c, pins)
                         + (UserAndPassword(c, pins, r.out.r.username) + EncryptionAndFrom(c, pins)))
  {
    KeysApart();
    LengthsApart();
    var r := Email(cfg, pins, inp, port);
    var e := Env(pins, 0, true, []);
    if cfg.email.Some? {
      ValuesAsks(cfg, cfg.email.value, e, inp, port, r);
    } else {
      var w := Ask(e, inp, "authentik_email_configure", "");
      ValuesAsks(cfg, NOTHING, w.e, inp, port, r);
      OrAsks("", e, inp, "authentik_email_configure", "");
      AsksThen(e, w.e, r.e, Missing(true, pins, "authentik_email_configure"), HostAndPort(NOTHING, pins)
               + (UserAndPassword(NOTHING, pins, r.out.r.username) + EncryptionAndFrom(NOTHING, pins)));
    }
  }

  /** The timeout is the config's, or ten seconds. */
  lemma {:induction false} TimeoutOf(cfg: Config, pins: map<string, string>, inp: Inputs, port: PortReader)
    requires Email(cfg, pins, inp, port).out.Resolved?
    ensures Email(cfg, pins, inp, port).out.r.timeout == if cfg.email.Some? then cfg.email.value.timeout else 10
  {}

  /** A call declines exactly if the config says so, or says nothing and the first question is answered, now or
      before, with other than yes; and then it asks that at most. */
  lemma {:induction false} DeclinesExactly(cfg: Config, pins: map<string, string>, inp: Inputs, port: PortReader)
    ensures var r := Email(cfg, pins, inp, port); var key := "authentik_email_configure";
      && (r.out.Unset? <==>
            if cfg.email.Some? then !cfg.email.value.enabled
            else if key in pins then pins[key] != "y" && pins[key] != "yes"
            else inp(0).save.Completes? && inp(0).text != "y" && inp(0).text != "yes")
      && (r.out.Unset? ==> KeysOf(r.e.log) == Missing(cfg.email.None?, pins, key))
  {
    if cfg.email.None? && ("authentik_email_configure" in pins || inp(0).save.Completes?) {
      OrAsks("", Env(pins, 0, true, []), inp, "authentik_email_configure", "");
    }
  }
}
