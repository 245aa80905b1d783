/** ACME across two phases and many runs.  The tls phase puts a self-signed placeholder on every node
    and records that issuance is pending; nginx-keepalived finalises while that record stands: it asks
    certbot on the leader, runs the deploy hook and clears the record.  Between runs certbot's own
    timer may renew. */
module TlsAcme {
  import opened StateFile

  const TLS := "tls"
  const NGINX := "nginx-keepalived"
  const FLAG := "tls_acme_pending"
  const MODE := "tls_mode"
  const EXPIRY := "tls_cert_expiry"

  /** What fullchain.pem and privkey.pem are, taken together; `Junk` is anything unusable.  Different
      bytes have different ids. */
  datatype Cert = Missing | Junk(id: nat) | Placeholder(id: nat) | Issued(staging: bool, id: nat)
  /** `loaded` is what nginx read when it last started or reloaded; `up`: its container runs; `conf`: its
      configuration and compose file. */
  datatype Node = Node(leader: bool, disk: Cert, loaded: Cert, up: bool, conf: string)
  /** certbot's lineage on the leader; `due` within 30 days of expiry. */
  datatype Lineage = Lineage(staging: bool, due: bool, id: nat) {
    function Pair(): Cert { Issued(staging, id) }
  }
  /** `conf` is what is rendered for a node's nginx. */
  datatype Config = Config(staging: bool, force: bool, conf: nat -> string)

  /** `data` is the memory of the run under way; between runs only `disk` counts. */
  datatype Fleet = Fleet(name: string, data: Data, disk: Disk, nodes: seq<Node>, lineage: Option<Lineage>)

  datatype Code = Zero | NonZero | Throws | Dies
  /** How a command answered, and what it left behind as far as it does not determine that itself: `id` is
      that of what it makes, `torn` those of what nodes it was torn off at are left with.  `yes` says that
      the digest of a pushed file could be had; `save` is how a save at this point goes. */
  datatype Ans = Ans(code: Code, yes: bool, took: bool, cert: Cert, id: nat, text: string,
                     reached: set<nat>, torn: map<nat, nat>, save: SaveFate)
  type Oracle = nat -> Ans

  datatype Outcome = Fine | Raised | Dead
  datatype Act = Act(s: Fleet, t: nat, out: Outcome)

  function Lost(c: Code): Outcome { if c.Dies? then Dead else if c.Throws? then Raised else Fine }
  function Must(c: Code): Outcome { if c.NonZero? then Raised else Lost(c) }

  predicate FlagOn(d: Data) { FLAG in d.generated && d.generated[FLAG] == Flag(true) }

  function WithDisk(s: Fleet, i: nat, c: Cert): Fleet
    requires i < |s.nodes|
  { s.(nodes := s.nodes[i := s.nodes[i].(disk := c)]) }

  function Reloaded(s: Fleet, i: nat): Fleet
    requires i < |s.nodes|
  { s.(nodes := s.nodes[i := s.nodes[i].(loaded := s.nodes[i].disk)]) }

  function SaveStep(s: Fleet, o: Oracle, t: nat, d: Data): Act {
    var fate := o(t).save;
    Act(s.(data := d, disk := Saved(s.disk, d, fate)), t + 1,
        if fate.Completes? then Fine else if Raising(fate) then Raised else Dead)
  }

  function Leader(nodes: seq<Node>): (l: nat)
    ensures l <= |nodes|
    ensures l < |nodes| ==> nodes[l].leader
    ensures forall k :: 0 <= k < l ==> !nodes[k].leader
  { if nodes == [] || nodes[0].leader then 0 else 1 + Leader(nodes[1..]) }

  // ------------------------------------------------------------------ the tls phase

  predicate Usable(c: Cert) { c.Placeholder? || c.Issued? }

  /** The leader's certificate matches the hostname and is not about to expire; whoever issued it. */
  predicate Good(s: Fleet, o: Oracle, t: nat, l: nat)
    requires l < |s.nodes|
  { o(t).code.Zero? && Usable(s.nodes[l].disk) }

  /** Keep what the leader has if it is good, or make a placeholder. */
  function EnsureLeader(s: Fleet, o: Oracle, t: nat, l: nat): (a: Act)
    requires l < |s.nodes|
    ensures |a.s.nodes| == |s.nodes|
  {
    if !Lost(o(t).code).Fine? then Act(s, t + 1, Lost(o(t).code))
    else if Good(s, o, t, l) then Act(s, t + 1, Fine)
    else
      var b := o(t + 1);
      Act(if b.code.Zero? then WithDisk(s, l, Placeholder(b.id))
          else if b.took then WithDisk(s, l, b.cert) else s,
          t + 2, Must(b.code))
  }

  /** `changed` are the nodes that got new bytes. */
  datatype Sent = Sent(a: Act, changed: seq<nat>)

  function Distribute(s: Fleet, o: Oracle, t: nat, i: nat, content: Cert, changed: seq<nat>): (r: Sent)
    requires forall x :: x in changed ==> x < |s.nodes|
    ensures |r.a.s.nodes| == |s.nodes|
    ensures forall x :: x in r.changed ==> x < |s.nodes|
    decreases |s.nodes| - i
  {
    if i >= |s.nodes| then Sent(Act(s, t, Fine), changed)
    else if s.nodes[i].leader then Distribute(s, o, t, i + 1, content, changed)
    else
      var a := o(t);
      if !a.code.Zero? then Sent(Act(if a.took then WithDisk(s, i, a.cert) else s, t + 1, Must(a.code)), changed)
      else if a.yes && s.nodes[i].disk == content then Distribute(s, o, t + 1, i + 1, content, changed)
      else Distribute(WithDisk(s, i, content), o, t + 1, i + 1, content, changed + [i])
  }

  /** Where nginx is seen to run on node i, have it reload; one that fails is recorded, not raised. */
  function ReloadOne(s: Fleet, o: Oracle, t: nat, i: nat): (a: Act)
    requires i < |s.nodes|
    ensures |a.s.nodes| == |s.nodes|
  {
    if !(o(t).code.Zero? && s.nodes[i].up) then Act(s, t + 1, Lost(o(t).code))
    else
      var r := o(t + 1);
      Act(if r.code.Zero? || r.took then Reloaded(s, i) else s, t + 2, Lost(r.code))
  }

  /** The nodes of `changed` from the k-th on. */
  function Reload(s: Fleet, o: Oracle, t: nat, changed: seq<nat>, k: nat): (a: Act)
    requires forall x :: x in changed ==> x < |s.nodes|
    ensures |a.s.nodes| == |s.nodes|
    decreases |changed| - k
  {
    if k >= |changed| then Act(s, t, Fine)
    else
      assert changed[k] in changed;
      var a := ReloadOne(s, o, t, changed[k]);
      if a.out.Fine? then Reload(a.s, o, a.t, changed, k + 1) else a
  }

  function Stage(s: Fleet, o: Oracle, t: nat): Act {
    if !Lost(o(t).code).Fine? then Act(s, t + 1, Lost(o(t).code))
    else
      var p := SaveStep(s, o, t + 1, s.data.(generated := s.data.generated[FLAG := Flag(true)]));
      if !p.out.Fine? then p
      else SaveStep(p.s, o, p.t, p.s.data.(generated := p.s.data.generated[MODE := Text("acme")]))
  }

  /** The certificates, before issuance is staged. */
  function Certify(s: Fleet, o: Oracle, t: nat): (a: Act)
    ensures |a.s.nodes| == |s.nodes|
  {
    var l := Leader(s.nodes);
    if l == |s.nodes| then Act(s, t, Raised) else
    var e := EnsureLeader(s, o, t, l);
    if !e.out.Fine? then e else
    var cat := o(e.t);
    if !Lost(cat.code).Fine? then Act(e.s, e.t + 1, Lost(cat.code)) else
    var content := if cat.code.Zero? then e.s.nodes[l].disk else Junk(cat.id);
    var d := Distribute(e.s, o, e.t + 1, 0, content, if Good(s, o, t, l) then [] else [l]);
    if d.a.out.Fine? then Reload(d.a.s, o, d.a.t, d.changed, 0) else d.a
  }

  function TlsApply(s: Fleet, o: Oracle, t: nat): Act {
    var r := Certify(s, o, t);
    if r.out.Fine? then Stage(r.s, o, r.t) else r
  }

  // ------------------------------------------------------------------ the nginx-keepalived phase

  predicate Forced(s: Fleet, cfg: Config, probe: Code) {
    cfg.force || (probe.Zero? && s.lineage.Some? && s.lineage.value.staging != cfg.staging)
  }

  /** certbot looks at validity alone: a lineage that is not due is kept, unless forced. */
  predicate Keeps(s: Fleet, force: bool) { s.lineage.Some? && !s.lineage.value.due && !force }

  function Certbot(s: Fleet, cfg: Config, force: bool, id: nat): Fleet {
    if Keeps(s, force) then s else s.(lineage := Some(Lineage(cfg.staging, false, id)))
  }

  /** The hook copies the lineage to the nodes it reaches; one it is torn off at holds neither pair. */
  function Hooked(nodes: seq<Node>, pair: Cert, reached: set<nat>, torn: map<nat, nat>): (ns: seq<Node>)
    ensures |ns| == |nodes|
    ensures forall k :: 0 <= k < |nodes| ==>
              ns[k] == if k in torn then nodes[k].(disk := Junk(torn[k]))
                       else if k in reached then nodes[k].(disk := pair, loaded := pair)
                       else nodes[k]
  {
    seq(|nodes|, k requires 0 <= k < |nodes| =>
      if k in torn then nodes[k].(disk := Junk(torn[k]))
      else if k in reached then nodes[k].(disk := pair, loaded := pair)
      else nodes[k])
  }

  /** The hook when it returns 0: every node. */
  function Deployed(nodes: seq<Node>, pair: Cert): (ns: seq<Node>)
    ensures |ns| == |nodes|
    ensures forall k :: 0 <= k < |nodes| ==> ns[k] == nodes[k].(disk := pair, loaded := pair)
  { seq(|nodes|, k requires 0 <= k < |nodes| => nodes[k].(disk := pair, loaded := pair)) }

  function RunHook(s: Fleet, o: Oracle, t: nat): (a: Act)
    requires s.lineage.Some?
  {
    var pair := s.lineage.value.Pair();
    Act(s.(nodes := if o(t).code.Zero? then Deployed(s.nodes, pair)
                    else Hooked(s.nodes, pair, o(t).reached, o(t).torn)),
        t + 1, Must(o(t).code))
  }

  function Cleared(d: Data): Data {
    d.(generated := d.generated[FLAG := Flag(false)][EXPIRY := Text("enddate")])
  }

  /** Make the distribution key, read the issuer of the certificate there is, and ask certbot. */
  function Issue(s: Fleet, cfg: Config, o: Oracle, t: nat): (a: Act)
    ensures a.s == s.(lineage := a.s.lineage)
    ensures a.out.Fine? ==> a.s.lineage.Some?
  {
    if !Lost(o(t).code).Fine? then Act(s, t + 1, Lost(o(t).code))
    else if !Lost(o(t + 1).code).Fine? then Act(s, t + 2, Lost(o(t + 1).code))
    else
      var c := o(t + 2);
      var s1 := if c.code.Zero? || c.took then Certbot(s, cfg, Forced(s, cfg, o(t + 1).code), c.id) else s;
      Act(s1, t + 3, Must(c.code))
  }

  /** Push the hook, run it once, read the new expiry, and clear the flag. */
  function Deploy(s: Fleet, o: Oracle, t: nat): Act
    requires s.lineage.Some?
  {
    if !o(t).code.Zero? then Act(s, t + 1, Must(o(t).code)) else
    var h := RunHook(s, o, t + 1);
    if !h.out.Fine? then h else
    if !Lost(o(h.t).code).Fine? then Act(h.s, h.t + 1, Lost(o(h.t).code))
    else SaveStep(h.s, o, h.t + 1, Cleared(h.s.data))
  }

  function Finalise(s: Fleet, cfg: Config, o: Oracle, t: nat): Act {
    var i := Issue(s, cfg, o, t);
    if i.out.Fine? then Deploy(i.s, o, i.t) else i
  }

  /** nginx on node i: push the configuration, and recreate the container if it is not seen to run or the
      configuration is new; a start that fails is recorded. */
  function StartOne(s: Fleet, cfg: Config, o: Oracle, t: nat, i: nat): (a: Act)
    requires i < |s.nodes|
    ensures |a.s.nodes| == |s.nodes|
  {
    var push, seen := o(t), o(t + 1);
    if !push.code.Zero? then Act(if push.took then WithConf(s, i, push.text) else s, t + 1, Must(push.code)) else
    var s1 := WithConf(s, i, cfg.conf(i));
    if !Lost(seen.code).Fine? then Act(s1, t + 2, Lost(seen.code))
    else if seen.code.Zero? && s.nodes[i].up && push.yes && s.nodes[i].conf == cfg.conf(i) then Act(s1, t + 2, Fine)
    else
      var r := o(t + 2);
      var up := r.code.Zero? || r.took;
      Act(WithUp(if up then Reloaded(s1, i) else s1, i, up), t + 3, Lost(r.code))
  }

  function WithConf(s: Fleet, i: nat, conf: string): Fleet
    requires i < |s.nodes|
  { s.(nodes := s.nodes[i := s.nodes[i].(conf := conf)]) }

  function WithUp(s: Fleet, i: nat, up: bool): Fleet
    requires i < |s.nodes|
  { s.(nodes := s.nodes[i := s.nodes[i].(up := up)]) }

  function StartAll(s: Fleet, cfg: Config, o: Oracle, t: nat, i: nat): (a: Act)
    ensures |a.s.nodes| == |s.nodes|
    decreases |s.nodes| - i
  {
    if i >= |s.nodes| then Act(s, t, Fine)
    else
      var a := StartOne(s, cfg, o, t, i);
      if a.out.Fine? then StartAll(a.s, cfg, o, a.t, i + 1) else a
  }

  /** Every node answers /monitor as itself, or the phase stops before keepalived. */
  function Monitor(s: Fleet, o: Oracle, t: nat, i: nat): Act
    decreases |s.nodes| - i
  {
    if i >= |s.nodes| then Act(s, t, Fine)
    else if o(t).code.Zero? then Monitor(s, o, t + 1, i + 1) else Act(s, t + 1, Must(o(t).code))
  }

  /** keepalived on every node: install, push, enable; only the push has to work. */
  function Keepalived(s: Fleet, o: Oracle, t: nat, i: nat): Act
    decreases |s.nodes| - i
  {
    if i >= |s.nodes| then Act(s, t, Fine)
    else if !Lost(o(t).code).Fine? then Act(s, t + 1, Lost(o(t).code))
    else if !o(t + 1).code.Zero? then Act(s, t + 2, Must(o(t + 1).code))
    else if !Lost(o(t + 2).code).Fine? then Act(s, t + 3, Lost(o(t + 2).code))
    else Keepalived(s, o, t + 3, i + 1)
  }

  /** /monitor on every node, keepalived on every node, and the VIP, in that order. */
  function Gates(s: Fleet, o: Oracle, t: nat): Act {
    var m := Monitor(s, o, t, 0);
    if !m.out.Fine? then m else
    var k := Keepalived(m.s, o, m.t, 0);
    if !k.out.Fine? then k else Act(k.s, k.t + 1, Must(o(k.t).code))
  }

  function Serve(s: Fleet, cfg: Config, o: Oracle, t: nat): Act {
    var b := StartAll(s, cfg, o, t, 0);
    if b.out.Fine? then Gates(b.s, o, b.t) else b
  }

  function NginxApply(s: Fleet, cfg: Config, o: Oracle, t: nat): Act {
    var b := Serve(s, cfg, o, t);
    if b.out.Fine? && FlagOn(b.s.data) then Finalise(b.s, cfg, o, b.t) else b
  }

  // ------------------------------------------------------------------ turns and invocations

  function MarkStep(s: Fleet, o: Oracle, t: nat, name: string, status: Status, then_: Outcome): Act {
    var d := Marked(s.data, name, status, NoDetail);
    var fate := o(t).save;
    Act(s.(data := d, disk := Saved(s.disk, d, fate)), t + 1, if fate.Completes? then then_ else Dead)
  }

  predicate Verifies(s: Fleet, name: string) { name == TLS ==> forall n :: n in s.nodes ==> !n.disk.Missing? }

  /** apply raised: failed.  Otherwise verify, which ends the process if it raises. */
  function Close(a: Act, o: Oracle, name: string): Act {
    match a.out
    case Dead => a
    case Raised => MarkStep(a.s, o, a.t, name, Failed, Raised)
    case Fine =>
      var v := o(a.t).code;
      if !Lost(v).Fine? then Act(a.s, a.t + 1, Dead)
      else if v.Zero? && Verifies(a.s, name) then MarkStep(a.s, o, a.t + 1, name, Done, Fine)
      else MarkStep(a.s, o, a.t + 1, name, Failed, Raised)
  }

  /** `NonZero` to the prompt is a no. */
  function Turn(s: Fleet, cfg: Config, o: Oracle, t: nat, name: string): Act {
    if !Lost(o(t).code).Fine? then Act(s, t + 1, Dead)
    else if o(t).code.NonZero? then MarkStep(s, o, t + 1, name, Declined, Raised)
    else Close(if name == TLS then TlsApply(s, o, t + 1) else NginxApply(s, cfg, o, t + 1), o, name)
  }

  function MarkAll(s: Fleet, o: Oracle, t: nat, names: seq<string>): Act
    decreases |names|
  {
    if names == [] then Act(s, t, Fine)
    else
      var m := MarkStep(s, o, t, names[0], Pending, Fine);
      if m.out.Fine? then MarkAll(m.s, o, m.t, names[1..]) else m
  }

  /** `only` names the phases to take whatever their record says; empty, it is the whole pipeline. */
  datatype Invocation = Invocation(replay: seq<string>, only: seq<string>, o: Oracle)

  function IfDue(s: Fleet, cfg: Config, inv: Invocation, t: nat, name: string): Act {
    if (if inv.only == [] then StatusOf(s.data, name) == Done else name !in inv.only) then Act(s, t, Fine)
    else Turn(s, cfg, inv.o, t, name)
  }

  function Invoke(s: Fleet, cfg: Config, inv: Invocation): Act {
    var d := Load(s.disk, s.name);
    if d.None? then Act(s, 0, Raised) else
    var m := MarkAll(s.(data := d.value), inv.o, 0, inv.replay);
    if !m.out.Fine? then m else
    var a := IfDue(m.s, cfg, inv, m.t, TLS);
    if !a.out.Fine? then a else IfDue(a.s, cfg, inv, a.t, NGINX)
  }

  /** Between runs the lineage ages, and certbot's timer renews it and runs the hook, which may reach
      only some nodes. */
  datatype Happening = Invoked(inv: Invocation) | Ages | Renews(id: nat, reached: set<nat>, torn: map<nat, nat>)

  function Happens(s: Fleet, cfg: Config, e: Happening): Fleet {
    match e
    case Invoked(inv) => Invoke(s, cfg, inv).s
    case Ages => if s.lineage.Some? then s.(lineage := Some(s.lineage.value.(due := true))) else s
    case Renews(id, reached, torn) =>
      if s.lineage.None? then s
      else
        var l := Lineage(s.lineage.value.staging, false, id);
        s.(lineage := Some(l), nodes := Hooked(s.nodes, l.Pair(), reached, torn))
  }

  function History(s: Fleet, cfg: Config, es: seq<Happening>): Fleet
    decreases |es|
  { if es == [] then s else History(Happens(s, cfg, es[0]), cfg, es[1..]) }

  // ------------------------------------------------------------------ the phases as they run

  class Controller {
    var s: Fleet
    var t: nat
    const o: Oracle

    constructor (s: Fleet, o: Oracle)
      ensures this.s == s && t == 0 && this.o == o
    { this.s, this.t, this.o := s, 0, o; }

    method Ask() returns (a: Ans)
      modifies this`t
      ensures a == o(old(t)) && t == old(t) + 1
    { a := o(t); t := t + 1; }

    method Persist(d: Data) returns (out: Outcome)
      modifies this
      ensures Act(s, t, out) == SaveStep(old(s), o, old(t), d)
    {
      var a := Ask();
      s := s.(data := d, disk := Saved(s.disk, d, a.save));
      out := if a.save.Completes? then Fine else if Raising(a.save) then Raised else Dead;
    }

    method DoEnsureLeader(l: nat) returns (out: Outcome, changed: bool)
      requires l < |s.nodes|
      modifies this
      ensures Act(s, t, out) == EnsureLeader(old(s), o, old(t), l)
      ensures changed <==> !Good(old(s), o, old(t), l)
    {
      var a := Ask();
      if a.code.Throws? || a.code.Dies? { return Lost(a.code), true; }
      if a.code.Zero? && Usable(s.nodes[l].disk) { return Fine, false; }
      var b := Ask();
      if b.code.Zero? { s := WithDisk(s, l, Placeholder(b.id)); }
      else if b.took { s := WithDisk(s, l, b.cert); }
      return Must(b.code), true;
    }

    method DoDistribute(content: Cert, first: seq<nat>) returns (out: Outcome, changed: seq<nat>)
      requires forall x :: x in first ==> x < |s.nodes|
      modifies this
      ensures Sent(Act(s, t, out), changed) == Distribute(old(s), o, old(t), 0, content, first)
    {
      changed := first;
      ghost var all := Distribute(s, o, t, 0, content, first);
      var i := 0;
      while i < |s.nodes|
        invariant 0 <= i <= |s.nodes|
        invariant forall x :: x in changed ==> x < |s.nodes|
        invariant all == Distribute(s, o, t, i, content, changed)
      {
        if !s.nodes[i].leader {
          var a := Ask();
          if !a.code.Zero? {
            if a.took { s := WithDisk(s, i, a.cert); }
            return Must(a.code), changed;
          }
          if !(a.yes && s.nodes[i].disk == content) {
            s := WithDisk(s, i, content);
            changed := changed + [i];
          }
        }
        i := i + 1;
      }
      return Fine, changed;
    }

    method DoReloadOne(i: nat) returns (out: Outcome)
      requires i < |s.nodes|
      modifies this
      ensures Act(s, t, out) == ReloadOne(old(s), o, old(t), i)
    {
      var seen := Ask();
      if !(seen.code.Zero? && s.nodes[i].up) { return Lost(seen.code); }
      var r := Ask();
      if r.code.Zero? || r.took { s := Reloaded(s, i); }
      return Lost(r.code);
    }

    method DoReload(changed: seq<nat>) returns (out: Outcome)
      requires forall x :: x in changed ==> x < |s.nodes|
      modifies this
      ensures Act(s, t, out) == Reload(old(s), o, old(t), changed, 0)
    {
      ghost var all := Reload(s, o, t, changed, 0);
      var k := 0;
      while k < |changed|
        invariant 0 <= k <= |changed|
        invariant forall x :: x in changed ==> x < |s.nodes|
        invariant all == Reload(s, o, t, changed, k)
      {
        assert changed[k] in changed;
        out := DoReloadOne(changed[k]);
        if !out.Fine? { return; }
        k := k + 1;
      }
      return Fine;
    }

    method DoCertify() returns (out: Outcome)
      modifies this
      ensures Act(s, t, out) == Certify(old(s), o, old(t))
    {
      var l := Leader(s.nodes);
      if l == |s.nodes| { return Raised; }
      var made;
      out, made := DoEnsureLeader(l);
      if !out.Fine? { return; }
      var cat := Ask();
      if cat.code.Throws? || cat.code.Dies? { return Lost(cat.code); }
      var changed := if made then [l] else [];
      out, changed := DoDistribute(if cat.code.Zero? then s.nodes[l].disk else Junk(cat.id), changed);
      if !out.Fine? { return; }
      out := DoReload(changed);
    }

    method DoTlsApply() returns (out: Outcome)
      modifies this
      ensures Act(s, t, out) == TlsApply(old(s), o, old(t))
    {
      out := DoCertify();
      if !out.Fine? { return; }
      var a := Ask();
      if a.code.Throws? || a.code.Dies? { return Lost(a.code); }
      out := Persist(s.data.(generated := s.data.generated[FLAG := Flag(true)]));
      if !out.Fine? { return; }
      out := Persist(s.data.(generated := s.data.generated[MODE := Text("acme")]));
    }

    method DoIssue(cfg: Config) returns (out: Outcome)
      modifies this
      ensures Act(s, t, out) == Issue(old(s), cfg, o, old(t))
    {
      var key := Ask();
      if key.code.Throws? || key.code.Dies? { return Lost(key.code); }
      var probe := Ask();
      if probe.code.Throws? || probe.code.Dies? { return Lost(probe.code); }
      var force := cfg.force;
      if probe.code.Zero? && s.lineage.Some? {
        if s.lineage.value.staging != cfg.staging { force := true; }
      }
      var issued := Ask();
      if issued.code.Zero? || issued.took { s := Certbot(s, cfg, force, issued.id); }
      return Must(issued.code);
    }

    method DoDeploy() returns (out: Outcome)
      requires s.lineage.Some?
      modifies this
      ensures Act(s, t, out) == Deploy(old(s), o, old(t))
    {
      var pushed := Ask();
      if !pushed.code.Zero? { return Must(pushed.code); }
      var pair := s.lineage.value.Pair();
      var hook := Ask();
      if !hook.code.Zero? {
        s := s.(nodes := Hooked(s.nodes, pair, hook.reached, hook.torn));
        return Must(hook.code);
      }
      s := s.(nodes := Deployed(s.nodes, pair));
      var enddate := Ask();
      if enddate.code.Throws? || enddate.code.Dies? { return Lost(enddate.code); }
      out := Persist(Cleared(s.data));
    }

    method DoFinalise(cfg: Config) returns (out: Outcome)
      modifies this
      ensures Act(s, t, out) == Finalise(old(s), cfg, o, old(t))
    {
      out := DoIssue(cfg);
      if out.Fine? { out := DoDeploy(); }
    }

    method DoStartOne(cfg: Config, i: nat) returns (out: Outcome)
      requires i < |s.nodes|
      modifies this
      ensures Act(s, t, out) == StartOne(old(s), cfg, o, old(t), i)
    {
      var push := Ask();
      if !push.code.Zero? {
        if push.took { s := WithConf(s, i, push.text); }
        return Must(push.code);
      }
      var same := push.yes && s.nodes[i].conf == cfg.conf(i);
      s := WithConf(s, i, cfg.conf(i));
      var seen := Ask();
      if seen.code.Throws? || seen.code.Dies? { return Lost(seen.code); }
      if seen.code.Zero? && s.nodes[i].up && same { return Fine; }
      var r := Ask();
      var up := r.code.Zero? || r.took;
      if up { s := Reloaded(s, i); }
      s := WithUp(s, i, up);
      return Lost(r.code);
    }

    method DoStartAll(cfg: Config) returns (out: Outcome)
      modifies this
      ensures Act(s, t, out) == StartAll(old(s), cfg, o, old(t), 0)
    {
      ghost var all := StartAll(s, cfg, o, t, 0);
      var i := 0;
      while i < |s.nodes|
        invariant 0 <= i <= |s.nodes|
        invariant all == StartAll(s, cfg, o, t, i)
      {
        out := DoStartOne(cfg, i);
        if !out.Fine? { return; }
        i := i + 1;
      }
      return Fine;
    }

    method DoMonitor() returns (out: Outcome)
      modifies this
      ensures Act(s, t, out) == Monitor(old(s), o, old(t), 0)
    {
      ghost var all := Monitor(s, o, t, 0);
      var i := 0;
      while i < |s.nodes|
        invariant 0 <= i <= |s.nodes|
        invariant all == Monitor(s, o, t, i)
      {
        var a := Ask();
        if !a.code.Zero? { return Must(a.code); }
        i := i + 1;
      }
      return Fine;
    }

    method DoKeepalived() returns (out: Outcome)
      modifies this
      ensures Act(s, t, out) == Keepalived(old(s), o, old(t), 0)
    {
      ghost var all := Keepalived(s, o, t, 0);
      var i := 0;
      while i < |s.nodes|
        invariant 0 <= i <= |s.nodes|
        invariant all == Keepalived(s, o, t, i)
      {
        var installed := Ask();
        if installed.code.Throws? || installed.code.Dies? { return Lost(installed.code); }
        var pushed := Ask();
        if !pushed.code.Zero? { return Must(pushed.code); }
        var enabled := Ask();
        if enabled.code.Throws? || enabled.code.Dies? { return Lost(enabled.code); }
        i := i + 1;
      }
      return Fine;
    }

    method DoGates() returns (out: Outcome)
      modifies this
      ensures Act(s, t, out) == Gates(old(s), o, old(t))
    {
      out := DoMonitor();
      if !out.Fine? { return; }
      out := DoKeepalived();
      if !out.Fine? { return; }
      var vip := Ask();
      return Must(vip.code);
    }

    method DoServe(cfg: Config) returns (out: Outcome)
      modifies this
      ensures Act(s, t, out) == Serve(old(s), cfg, o, old(t))
    {
      out := DoStartAll(cfg);
      if out.Fine? { out := DoGates(); }
    }

    method DoNginxApply(cfg: Config) returns (out: Outcome)
      modifies this
      ensures Act(s, t, out) == NginxApply(old(s), cfg, o, old(t))
    {
      out := DoServe(cfg);
      if out.Fine? && FlagOn(s.data) { out := DoFinalise(cfg); }
    }
  }
}
