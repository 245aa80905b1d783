/** When issuance is on record as pending, what the tls phase leaves, and what finalisation leaves. */
module AcmeProofs {
  import opened StateFile
  import opened TlsAcme

  // ------------------------------------------------------------------ the flag outlives the placeholder

  ghost predicate NoPlaceholder(nodes: seq<Node>) { forall n :: n in nodes ==> !n.disk.Placeholder? }

  /** tls on record as done while some node holds the placeholder: issuance is on record as pending. */
  ghost predicate Honest(d: Data, nodes: seq<Node>) {
    StatusOf(d, TLS) == Done && !NoPlaceholder(nodes) ==> FlagOn(d)
  }

  function Filed(s: Fleet): Data { OnFile(s.disk, s.name) }

  ghost predicate HonestFile(s: Fleet) { Honest(Filed(s), s.nodes) }

  /** A run that is still going has the file in step with its memory. */
  predicate Going(s: Fleet) { Filed(s) == s.data && s.data.site == s.name }

  /** A placeholder would not be hidden: tls is not on record as done, or issuance is pending. */
  predicate Announces(d: Data) { StatusOf(d, TLS) != Done || FlagOn(d) }

  predicate TlsOpen(s: Fleet) { s.data.site == s.name && Announces(s.data) && Announces(Filed(s)) }

  /** `s'` differs from `s` in the nodes only. */
  predicate NodesOnly(s: Fleet, s': Fleet) { s' == s.(nodes := s'.nodes) }

  ghost predicate InRange(s: Fleet, changed: seq<nat>) { forall x :: x in changed ==> x < |s.nodes| }

  lemma {:induction false} DistributeNodesOnly(s: Fleet, o: Oracle, t: nat, i: nat, content: Cert, changed: seq<nat>)
    requires InRange(s, changed)
    ensures NodesOnly(s, Distribute(s, o, t, i, content, changed).a.s)
    decreases |s.nodes| - i
  {
    if i < |s.nodes| {
      if s.nodes[i].leader {
        DistributeNodesOnly(s, o, t, i + 1, content, changed);
      } else if o(t).code.Zero? {
        if o(t).yes && s.nodes[i].disk == content {
          DistributeNodesOnly(s, o, t + 1, i + 1, content, changed);
        } else {
          DistributeNodesOnly(WithDisk(s, i, content), o, t + 1, i + 1, content, changed + [i]);
        }
      }
    }
  }

  lemma {:induction false} ReloadNodesOnly(s: Fleet, o: Oracle, t: nat, changed: seq<nat>, k: nat)
    requires InRange(s, changed)
    ensures NodesOnly(s, Reload(s, o, t, changed, k).s)
    decreases |changed| - k
  {
    if k < |changed| {
      assert changed[k] in changed;
      var a := ReloadOne(s, o, t, changed[k]);
      assert NodesOnly(s, a.s);
      if a.out.Fine? { ReloadNodesOnly(a.s, o, a.t, changed, k + 1); }
    }
  }

  lemma StageKeepsOpen(s: Fleet, o: Oracle, t: nat)
    requires TlsOpen(s)
    ensures var a := Stage(s, o, t);
      && TlsOpen(a.s) && a.s.name == s.name
      && (a.out.Fine? ==> FlagOn(a.s.data))
  {
    assert MODE[4] != FLAG[4];
  }

  /** Up to the staging of the flag, the tls phase touches the nodes only. */
  lemma {:induction false} CertifyNodesOnly(s: Fleet, o: Oracle, t: nat)
    ensures NodesOnly(s, Certify(s, o, t).s)
  {
    var l := Leader(s.nodes);
    if l == |s.nodes| { return; }
    var e := EnsureLeader(s, o, t, l);
    if !e.out.Fine? { return; }
    var cat := o(e.t);
    if !Lost(cat.code).Fine? { return; }
    var content := if cat.code.Zero? then e.s.nodes[l].disk else Junk(cat.id);
    var first := if Good(s, o, t, l) then [] else [l];
    DistributeNodesOnly(e.s, o, e.t + 1, 0, content, first);
    var d := Distribute(e.s, o, e.t + 1, 0, content, first);
    if d.a.out.Fine? { ReloadNodesOnly(d.a.s, o, d.a.t, d.changed, 0); }
  }

  /** Throughout the tls phase it is not on record as done or the flag is set; in the end it is set. */
  lemma {:induction false} TlsApplyFlags(s: Fleet, o: Oracle, t: nat)
    requires TlsOpen(s)
    ensures var a := TlsApply(s, o, t);
      && TlsOpen(a.s) && a.s.name == s.name
      && (a.out.Fine? ==> FlagOn(a.s.data))
  {
    CertifyNodesOnly(s, o, t);
    var r := Certify(s, o, t);
    if r.out.Fine? { StageKeepsOpen(r.s, o, r.t); }
  }

  predicate SameCerts(a: seq<Node>, b: seq<Node>) {
    |a| == |b| && forall k :: 0 <= k < |a| ==> b[k].disk == a[k].disk
  }

  lemma {:induction false} StartAllKeepsCerts(s: Fleet, cfg: Config, o: Oracle, t: nat, i: nat)
    ensures var a := StartAll(s, cfg, o, t, i);
      NodesOnly(s, a.s) && SameCerts(s.nodes, a.s.nodes)
    decreases |s.nodes| - i
  {
    if i < |s.nodes| {
      var a := StartOne(s, cfg, o, t, i);
      assert NodesOnly(s, a.s) && SameCerts(s.nodes, a.s.nodes);
      if a.out.Fine? { StartAllKeepsCerts(a.s, cfg, o, a.t, i + 1); }
    }
  }

  lemma {:induction false} MonitorLooks(s: Fleet, o: Oracle, t: nat, i: nat)
    ensures Monitor(s, o, t, i).s == s
    decreases |s.nodes| - i
  { if i < |s.nodes| && o(t).code.Zero? { MonitorLooks(s, o, t + 1, i + 1); } }

  lemma {:induction false} KeepalivedLooks(s: Fleet, o: Oracle, t: nat, i: nat)
    ensures Keepalived(s, o, t, i).s == s
    decreases |s.nodes| - i
  { if i < |s.nodes| { KeepalivedLooks(s, o, t + 3, i + 1); } }

  /** Bringing up nginx, keepalived and the VIP touches no certificate. */
  lemma {:induction false} ServeKeepsCerts(s: Fleet, cfg: Config, o: Oracle, t: nat)
    ensures NodesOnly(s, Serve(s, cfg, o, t).s) && SameCerts(s.nodes, Serve(s, cfg, o, t).s.nodes)
  {
    StartAllKeepsCerts(s, cfg, o, t, 0);
    var b := StartAll(s, cfg, o, t, 0);
    MonitorLooks(b.s, o, b.t, 0);
    var m := Monitor(b.s, o, b.t, 0);
    KeepalivedLooks(m.s, o, m.t, 0);
  }

  lemma SameCertsSamePlaceholders(a: seq<Node>, b: seq<Node>)
    requires SameCerts(a, b)
    ensures NoPlaceholder(a) <==> NoPlaceholder(b)
  {
    SamePlaceholders(a, b);
    SamePlaceholders(b, a);
  }

  lemma SamePlaceholders(a: seq<Node>, b: seq<Node>)
    requires SameCerts(a, b)
    ensures NoPlaceholder(a) ==> NoPlaceholder(b)
  {
    if NoPlaceholder(a) {
      forall n | n in b ensures !n.disk.Placeholder? {
        var k :| 0 <= k < |b| && b[k] == n;
        assert a[k] in a;
      }
    }
  }

  ghost predicate Serving(nodes: seq<Node>, pair: Cert) {
    forall k :: 0 <= k < |nodes| ==> nodes[k].disk == pair && nodes[k].loaded == pair
  }

  lemma ServingNoPlaceholder(nodes: seq<Node>, pair: Cert)
    requires Serving(nodes, pair) && pair.Issued?
    ensures NoPlaceholder(nodes)
  {}

  lemma {:induction false} DeployIsHonest(s: Fleet, o: Oracle, t: nat)
    requires Going(s) && FlagOn(s.data) && s.lineage.Some?
    ensures var a := Deploy(s, o, t);
      && a.s.name == s.name && a.s.data.site == s.name
      && Honest(a.s.data, a.s.nodes) && Honest(Filed(a.s), a.s.nodes)
  {
    var h := RunHook(s, o, t + 1);
    if h.out.Fine? {
      assert Serving(h.s.nodes, s.lineage.value.Pair());
      ServingNoPlaceholder(h.s.nodes, s.lineage.value.Pair());
    }
  }

  /** The flag is cleared only once the hook has been everywhere. */
  lemma FinaliseIsHonest(s: Fleet, cfg: Config, o: Oracle, t: nat)
    requires Going(s) && FlagOn(s.data)
    ensures var a := Finalise(s, cfg, o, t);
      && a.s.name == s.name && a.s.data.site == s.name
      && Honest(a.s.data, a.s.nodes) && Honest(Filed(a.s), a.s.nodes)
  {
    var i := Issue(s, cfg, o, t);
    assert Going(i.s) && FlagOn(i.s.data);
    if i.out.Fine? { DeployIsHonest(i.s, o, i.t); }
  }

  lemma {:induction false} NginxApplyIsHonest(s: Fleet, cfg: Config, o: Oracle, t: nat)
    requires Going(s) && HonestFile(s)
    ensures var a := NginxApply(s, cfg, o, t);
      && a.s.name == s.name && a.s.data.site == s.name
      && Honest(a.s.data, a.s.nodes) && Honest(Filed(a.s), a.s.nodes)
  {
    ServeKeepsCerts(s, cfg, o, t);
    var b := Serve(s, cfg, o, t);
    SameCertsSamePlaceholders(s.nodes, b.s.nodes);
    if b.out.Fine? && FlagOn(b.s.data) { FinaliseIsHonest(b.s, cfg, o, b.t); }
  }

  lemma MarkedStaysHonest(d: Data, nodes: seq<Node>, name: string, status: Status)
    requires Honest(d, nodes) && (name == TLS && status == Done ==> FlagOn(d))
    ensures var d' := Marked(d, name, status, NoDetail); Honest(d', nodes) && d'.site == d.site
  {}

  /** Any mark other than done on tls keeps honesty, and a live one leaves the run in step. */
  lemma MarkIsHonest(s: Fleet, o: Oracle, t: nat, name: string, status: Status, then_: Outcome)
    requires s.data.site == s.name && Honest(s.data, s.nodes) && HonestFile(s)
    requires name == TLS && status == Done ==> FlagOn(s.data)
    ensures var m := MarkStep(s, o, t, name, status, then_);
      m.s.name == s.name && HonestFile(m.s) && (!m.out.Dead? ==> Going(m.s))
  { MarkedStaysHonest(s.data, s.nodes, name, status); }

  lemma {:induction false} CloseIsHonest(a: Act, o: Oracle, name: string)
    requires a.s.data.site == a.s.name && Honest(a.s.data, a.s.nodes) && HonestFile(a.s)
    requires name == TLS && a.out.Fine? ==> FlagOn(a.s.data)
    ensures var c := Close(a, o, name); HonestFile(c.s) && c.s.name == a.s.name && (!c.out.Dead? ==> Going(c.s))
  {
    match a.out {
      case Dead =>
      case Raised => MarkIsHonest(a.s, o, a.t, name, Failed, Raised);
      case Fine =>
        var v := o(a.t).code;
        if Lost(v).Fine? {
          if v.Zero? && Verifies(a.s, name) { MarkIsHonest(a.s, o, a.t + 1, name, Done, Fine); }
          else { MarkIsHonest(a.s, o, a.t + 1, name, Failed, Raised); }
        }
    }
  }

  lemma {:induction false} TurnIsHonest(s: Fleet, cfg: Config, o: Oracle, t: nat, name: string)
    requires Going(s) && HonestFile(s) && name in [TLS, NGINX]
    requires name == TLS ==> Announces(s.data)
    ensures var c := Turn(s, cfg, o, t, name); HonestFile(c.s) && c.s.name == s.name && (!c.out.Dead? ==> Going(c.s))
  {
    MarkIsHonest(s, o, t + 1, name, Declined, Raised);
    if o(t).code.Zero? {
      if name == TLS {
        TlsApplyFlags(s, o, t + 1);
        CloseIsHonest(TlsApply(s, o, t + 1), o, name);
      } else {
        NginxApplyIsHonest(s, cfg, o, t + 1);
        CloseIsHonest(NginxApply(s, cfg, o, t + 1), o, name);
      }
    }
  }

  lemma {:induction false} MarkAllIsHonest(s: Fleet, o: Oracle, t: nat, names: seq<string>)
    requires Going(s) && HonestFile(s)
    ensures var m := MarkAll(s, o, t, names); HonestFile(m.s) && m.s.name == s.name && (m.out.Fine? ==> Going(m.s))
    decreases |names|
  {
    if names != [] {
      MarkIsHonest(s, o, t, names[0], Pending, Fine);
      var m := MarkStep(s, o, t, names[0], Pending, Fine);
      if m.out.Fine? { MarkAllIsHonest(m.s, o, m.t, names[1..]); }
    }
  }

  /** Whether a run that comes to the phase takes it, as the file stands before. */
  predicate Takes(d: Data, inv: Invocation, name: string) {
    if inv.only == [] then name in inv.replay || StatusOf(d, name) != Done else name in inv.only
  }

  /** Marking what is to be replayed changes these statuses and nothing else. */
  lemma {:induction false} MarkAllMarks(s: Fleet, o: Oracle, t: nat, names: seq<string>)
    ensures var m := MarkAll(s, o, t, names);
      && m.s == s.(data := m.s.data, disk := m.s.disk)
      && m.s.data.generated == s.data.generated && m.s.data.site == s.data.site
      && (m.out.Fine? ==> forall n :: StatusOf(m.s.data, n) == if n in names then Pending else StatusOf(s.data, n))
    decreases |names|
  {
    if names != [] {
      var m := MarkStep(s, o, t, names[0], Pending, Fine);
      if m.out.Fine? {
        MarkAllMarks(m.s, o, m.t, names[1..]);
        assert forall n :: n in names <==> n == names[0] || n in names[1..];
      }
    }
  }

  /** What an --only run that takes tls has to find: tls not done, or marked pending first, or the flag. */
  predicate Guarded(d: Data, inv: Invocation) {
    TLS in inv.only ==> StatusOf(d, TLS) != Done || TLS in inv.replay || FlagOn(d)
  }

  lemma {:induction false} InvokeIsHonest(s: Fleet, cfg: Config, inv: Invocation)
    requires HonestFile(s) && Guarded(Filed(s), inv)
    ensures HonestFile(Invoke(s, cfg, inv).s) && Invoke(s, cfg, inv).s.name == s.name
  {
    var d := Load(s.disk, s.name);
    if d.None? { return; }
    var s0 := s.(data := d.value);
    MarkAllIsHonest(s0, inv.o, 0, inv.replay);
    MarkAllMarks(s0, inv.o, 0, inv.replay);
    var m := MarkAll(s0, inv.o, 0, inv.replay);
    if !m.out.Fine? { return; }
    IfDueIsHonest(m.s, cfg, inv, m.t, TLS);
    var a := IfDue(m.s, cfg, inv, m.t, TLS);
    if a.out.Fine? { IfDueIsHonest(a.s, cfg, inv, a.t, NGINX); }
  }

  lemma {:induction false} IfDueIsHonest(s: Fleet, cfg: Config, inv: Invocation, t: nat, name: string)
    requires Going(s) && HonestFile(s) && name in [TLS, NGINX]
    requires name == TLS && TLS in inv.only ==> Announces(s.data)
    ensures var c := IfDue(s, cfg, inv, t, name);
      HonestFile(c.s) && c.s.name == s.name && (!c.out.Dead? ==> Going(c.s))
  {
    if Due(s.data, inv, name) {
      TurnIsHonest(s, cfg, inv.o, t, name);
    }
  }

  lemma RenewalIsHonest(s: Fleet, reached: set<nat>, torn: map<nat, nat>, pair: Cert)
    requires pair.Issued?
    ensures NoPlaceholder(s.nodes) ==> NoPlaceholder(Hooked(s.nodes, pair, reached, torn))
  {}

  /** Every --only run in the history that takes tls finds what it has to. */
  predicate AllGuarded(s: Fleet, cfg: Config, es: seq<Happening>)
    decreases |es|
  {
    es == [] || ((es[0].Invoked? ==> Guarded(Filed(s), es[0].inv)) && AllGuarded(Happens(s, cfg, es[0]), cfg, es[1..]))
  }

  /** In every such history of runs, each ending at any command or save, with the lineage ageing and
      renewing in between: whenever tls is on record as done while some node holds the placeholder,
      issuance is on record as pending.  Plain and --replay runs are guarded whatever they find. */
  lemma {:induction false} PlaceholderIsFlagged(s: Fleet, cfg: Config, es: seq<Happening>)
    requires HonestFile(s) && AllGuarded(s, cfg, es)
    ensures HonestFile(History(s, cfg, es))
    decreases |es|
  {
    if es != [] {
      match es[0] {
        case Invoked(inv) => InvokeIsHonest(s, cfg, inv);
        case Ages =>
        case Renews(id, reached, torn) =>
          if s.lineage.Some? { RenewalIsHonest(s, reached, torn, Issued(s.lineage.value.staging, id)); }
      }
      PlaceholderIsFlagged(Happens(s, cfg, es[0]), cfg, es[1..]);
    }
  }

  /** Everything succeeds up to the n-th answer; then the run takes the phase, finds the leader's
      certificate no good, makes another, and dies. */
  function DiesAfterMaking(n: nat): Oracle {
    var yes := Ans(Zero, true, false, Missing, 0, "", {}, map[], Completes);
    (k: nat) => if k == n + 1 then yes.(code := NonZero) else if k == n + 3 then yes.(code := Dies) else yes
  }

  lemma {:induction false} MarkAllCompletes(s: Fleet, o: Oracle, t: nat, names: seq<string>)
    requires Going(s) && forall k :: o(k).save.Completes?
    ensures var m := MarkAll(s, o, t, names); m.out.Fine? && m.t == t + |names| && Going(m.s)
    decreases |names|
  {
    if names != [] {
      var m := MarkStep(s, o, t, names[0], Pending, Fine);
      MarkAllCompletes(m.s, o, m.t, names[1..]);
    }
  }

  lemma {:induction false} TlsDiesAfterMaking(s: Fleet, cfg: Config, n: nat)
    requires Leader(s.nodes) < |s.nodes|
    ensures Turn(s, cfg, DiesAfterMaking(n), n, TLS) ==
            Act(WithDisk(s, Leader(s.nodes), Placeholder(0)), n + 4, Dead)
  {
    var o := DiesAfterMaking(n);
    var l := Leader(s.nodes);
    assert EnsureLeader(s, o, n + 1, l) == Act(WithDisk(s, l, Placeholder(0)), n + 3, Fine);
    assert TlsApply(s, o, n + 1) == Act(WithDisk(s, l, Placeholder(0)), n + 4, Dead);
  }

  lemma {:induction false} UnguardedBreaks(s: Fleet, cfg: Config, inv: Invocation)
    requires Load(s.disk, s.name).Some? && Leader(s.nodes) < |s.nodes|
    requires !Guarded(Filed(s), inv) && inv.o == DiesAfterMaking(|inv.replay|)
    ensures !HonestFile(Invoke(s, cfg, inv).s)
  {
    var n := |inv.replay|;
    var l := Leader(s.nodes);
    var s0 := s.(data := Load(s.disk, s.name).value);
    MarkAllCompletes(s0, inv.o, 0, inv.replay);
    MarkAllMarks(s0, inv.o, 0, inv.replay);
    var m := MarkAll(s0, inv.o, 0, inv.replay);
    TlsDiesAfterMaking(m.s, cfg, n);
    var s' := WithDisk(m.s, l, Placeholder(0));
    assert Invoke(s, cfg, inv).s == s';
    assert s'.nodes[l] in s'.nodes;
  }

  /** The condition is exact: a run for some phases of a site whose file reads, with a node to lead, keeps
      the placeholder announced however its commands and saves go if and only if it is guarded. */
  lemma {:induction false} OnlyKeepsTheFlag(s: Fleet, cfg: Config, replay: seq<string>, only: seq<string>)
    requires HonestFile(s) && Load(s.disk, s.name).Some? && Leader(s.nodes) < |s.nodes|
    ensures (TLS in only ==> StatusOf(Filed(s), TLS) != Done || TLS in replay || FlagOn(Filed(s))) <==>
            forall o :: HonestFile(Invoke(s, cfg, Invocation(replay, only, o)).s)
  {
    var broken := Invocation(replay, only, DiesAfterMaking(|replay|));
    if Guarded(Filed(s), broken) {
      forall o ensures HonestFile(Invoke(s, cfg, Invocation(replay, only, o)).s) {
        InvokeIsHonest(s, cfg, Invocation(replay, only, o));
      }
    } else {
      UnguardedBreaks(s, cfg, broken);
    }
  }

  // ------------------------------------------------------------------ what the tls phase leaves

  ghost predicate AllSucceed(o: Oracle) { forall k: nat :: o(k).code.Zero? }
  ghost predicate ProbesAnswer(o: Oracle) { forall k: nat :: o(k).yes }

  ghost predicate OneLeads(nodes: seq<Node>, l: nat) {
    l < |nodes| && nodes[l].leader && forall k :: 0 <= k < |nodes| && k != l ==> !nodes[k].leader
  }

  ghost predicate Distributed(ns: seq<Node>, ns': seq<Node>, i: nat, content: Cert) {
    && |ns'| == |ns|
    && forall k :: 0 <= k < |ns| ==>
         ns'[k] == if k < i || ns[k].leader then ns[k] else ns[k].(disk := content)
  }

  /** Which nodes have got new bytes: those that had other ones. */
  ghost predicate ChangedOnly(ns: seq<Node>, i: nat, content: Cert, before: seq<nat>, after: seq<nat>) {
    forall x: nat :: x in after <==>
      x in before || (i <= x < |ns| && !ns[x].leader && ns[x].disk != content)
  }

  lemma {:induction false} DistributeGives(s: Fleet, o: Oracle, t: nat, i: nat, content: Cert, changed: seq<nat>,
                                           r: Sent)
    requires InRange(s, changed) && AllSucceed(o) && ProbesAnswer(o)
    requires i <= |s.nodes| && r == Distribute(s, o, t, i, content, changed)
    ensures r.a.out.Fine? && Distributed(s.nodes, r.a.s.nodes, i, content)
    ensures ChangedOnly(s.nodes, i, content, changed, r.changed)
    decreases |s.nodes| - i
  {
    if i < |s.nodes| {
      if s.nodes[i].leader { DistributeGives(s, o, t, i + 1, content, changed, r); }
      else if s.nodes[i].disk == content { DistributeGives(s, o, t + 1, i + 1, content, changed, r); }
      else { DistributeGives(WithDisk(s, i, content), o, t + 1, i + 1, content, changed + [i], r); }
    }
  }

  /** After a reload that worked, a running nginx serves what is on disk. */
  function Reread(n: Node): Node { if n.up then n.(loaded := n.disk) else n }

  lemma {:induction false} ReloadGives(s: Fleet, o: Oracle, t: nat, changed: seq<nat>, k: nat, a: Act)
    requires InRange(s, changed) && AllSucceed(o)
    requires k <= |changed| && a == Reload(s, o, t, changed, k)
    ensures a.out.Fine? && |a.s.nodes| == |s.nodes|
    ensures forall x: nat :: x < |s.nodes| ==>
              a.s.nodes[x] == if x in changed[k..] then Reread(s.nodes[x]) else s.nodes[x]
    decreases |changed| - k
  {
    if k < |changed| {
      assert changed[k] in changed && changed[k..] == [changed[k]] + changed[k + 1..];
      var b := ReloadOne(s, o, t, changed[k]);
      assert b.s.nodes == s.nodes[changed[k] := Reread(s.nodes[changed[k]])];
      ReloadGives(b.s, o, b.t, changed, k + 1, a);
    }
  }

  lemma {:induction false} StageKeepsNodes(s: Fleet, o: Oracle, t: nat)
    ensures Stage(s, o, t).s.nodes == s.nodes
  {}

  /** What the tls phase makes of a node, given what it gives to all. */
  function Certified(n: Node, cert: Cert, kept: bool): Node {
    var n' := n.(disk := cert);
    if (if n.leader then !kept else n.disk != cert) then Reread(n') else n'
  }

  lemma {:induction false} CertifyGives(s: Fleet, o: Oracle, t: nat, l: nat, cert: Cert, kept: bool)
    requires OneLeads(s.nodes, l) && AllSucceed(o) && ProbesAnswer(o)
    requires kept == Usable(s.nodes[l].disk) && cert == if kept then s.nodes[l].disk else Placeholder(o(t + 1).id)
    ensures var a := Certify(s, o, t);
      && a.out.Fine? && |a.s.nodes| == |s.nodes|
      && forall k :: 0 <= k < |s.nodes| ==> a.s.nodes[k] == Certified(s.nodes[k], cert, kept)
  {
    assert Leader(s.nodes) == l;
    var e := EnsureLeader(s, o, t, l);
    var first := if Good(s, o, t, l) then [] else [l];
    var d := Distribute(e.s, o, e.t + 1, 0, cert, first);
    DistributeGives(e.s, o, e.t + 1, 0, cert, first, d);
    var r := Reload(d.a.s, o, d.a.t, d.changed, 0);
    ReloadGives(d.a.s, o, d.a.t, d.changed, 0, r);
    assert d.changed[0..] == d.changed;
    CertifyEach(s.nodes, e.s.nodes, d.a.s.nodes, r.s.nodes, l, cert, kept, first, d.changed);
  }

  lemma {:induction false} CertifyEach(ns: seq<Node>, es: seq<Node>, ds: seq<Node>, rs: seq<Node>, l: nat, cert: Cert,
                                       kept: bool, first: seq<nat>, changed: seq<nat>)
    requires OneLeads(ns, l) && |es| == |ns| && es == ns[l := ns[l].(disk := cert)]
    requires first == if kept then [] else [l]
    requires Distributed(es, ds, 0, cert) && ChangedOnly(es, 0, cert, first, changed) && |rs| == |ns|
    requires forall x: nat :: x < |ns| ==> rs[x] == if x in changed then Reread(ds[x]) else ds[x]
    ensures forall k :: 0 <= k < |ns| ==> rs[k] == Certified(ns[k], cert, kept)
  {
    forall k: nat | k < |ns| ensures rs[k] == Certified(ns[k], cert, kept) {
      assert k in changed <==> k in first || (!es[k].leader && es[k].disk != cert);
    }
  }

  /** With every command succeeding and the digests answering, the tls phase leaves one certificate on
      every node: the leader's if it was any good, whoever issued it, and a placeholder otherwise.  nginx is
      told to reload only where the bytes are new: a node serves that certificate exactly if it served it
      already, or runs and was given new bytes. */
  lemma {:induction false} TlsApplyGives(s: Fleet, o: Oracle, t: nat, l: nat)
    requires OneLeads(s.nodes, l) && AllSucceed(o) && ProbesAnswer(o) && TlsApply(s, o, t).out.Fine?
    ensures var ns := TlsApply(s, o, t).s.nodes; var kept := Usable(s.nodes[l].disk);
      var cert := if kept then s.nodes[l].disk else Placeholder(o(t + 1).id);
      |ns| == |s.nodes| && forall k :: 0 <= k < |ns| ==>
        && ns[k].disk == cert
        && (ns[k].loaded == cert <==>
              s.nodes[k].loaded == cert || (s.nodes[k].up && if k == l then !kept else s.nodes[k].disk != cert))
  {
    var kept := Usable(s.nodes[l].disk);
    CertifyGives(s, o, t, l, if kept then s.nodes[l].disk else Placeholder(o(t + 1).id), kept);
    var r := Certify(s, o, t);
    StageKeepsNodes(r.s, o, r.t);
  }

  // ------------------------------------------------------------------ a reload that is missed

  lemma {:induction false} DistributeSkips(s: Fleet, o: Oracle, t: nat, i: nat, content: Cert, changed: seq<nat>,
                                           k: nat)
    requires InRange(s, changed) && ProbesAnswer(o) && k < |s.nodes| && k !in changed
    requires s.nodes[k].disk == content || s.nodes[k].leader
    ensures var r := Distribute(s, o, t, i, content, changed);
      k !in r.changed && r.a.s.nodes[k].loaded == s.nodes[k].loaded
    decreases |s.nodes| - i
  {
    if i < |s.nodes| {
      if s.nodes[i].leader {
        DistributeSkips(s, o, t, i + 1, content, changed, k);
      } else if o(t).code.Zero? {
        if s.nodes[i].disk == content {
          DistributeSkips(s, o, t + 1, i + 1, content, changed, k);
        } else {
          DistributeSkips(WithDisk(s, i, content), o, t + 1, i + 1, content, changed + [i], k);
        }
      }
    }
  }

  lemma {:induction false} ReloadSkips(s: Fleet, o: Oracle, t: nat, changed: seq<nat>, j: nat, k: nat)
    requires InRange(s, changed) && k < |s.nodes| && k !in changed
    ensures Reload(s, o, t, changed, j).s.nodes[k] == s.nodes[k]
    decreases |changed| - j
  {
    if j < |changed| {
      assert changed[j] in changed;
      var a := ReloadOne(s, o, t, changed[j]);
      if a.out.Fine? { ReloadSkips(a.s, o, a.t, changed, j + 1, k); }
    }
  }

  /** So a reload that was missed, or failed, is not made up for: once a node has the bytes of the leader's
      good certificate, every tls apply that can read that certificate, however it ends, leaves its nginx
      with what it had loaded. */
  lemma {:induction false} MissedReloadStays(s: Fleet, o: Oracle, t: nat, l: nat, k: nat)
    requires OneLeads(s.nodes, l) && k < |s.nodes| && ProbesAnswer(o)
    requires Good(s, o, t, l) && o(t + 1).code.Zero? && s.nodes[k].disk == s.nodes[l].disk
    ensures |TlsApply(s, o, t).s.nodes| == |s.nodes|
    ensures TlsApply(s, o, t).s.nodes[k].loaded == s.nodes[k].loaded
  {
    assert Leader(s.nodes) == l;
    var content := s.nodes[l].disk;
    DistributeSkips(s, o, t + 2, 0, content, [], k);
    var d := Distribute(s, o, t + 2, 0, content, []);
    if d.a.out.Fine? { ReloadSkips(d.a.s, o, d.a.t, d.changed, 0, k); }
    var r := Certify(s, o, t);
    StageKeepsNodes(r.s, o, r.t);
  }

  // ------------------------------------------------------------------ what finalisation leaves

  /** What can be told before the call about the lineage certbot will leave. */
  predicate WillMatch(s: Fleet, cfg: Config) {
    cfg.force || s.lineage.None? || s.lineage.value.due || s.lineage.value.staging == cfg.staging
  }

  /** A finalisation that returns leaves every node serving the lineage, the flag cleared in memory
      and on file; and the lineage is from the CA asked for exactly if certbot was forced to, had
      none, found it due, had the right one anyway, or the issuer on the leader could be read. */
  lemma {:induction false} FinalisedServes(s: Fleet, cfg: Config, o: Oracle, t: nat)
    requires Finalise(s, cfg, o, t).out.Fine?
    ensures var a := Finalise(s, cfg, o, t);
      && a.s.lineage.Some? && Serving(a.s.nodes, a.s.lineage.value.Pair())
      && a.s.data == Cleared(s.data) && Filed(a.s) == a.s.data
      && (a.s.lineage.value.staging == cfg.staging <==>
            WillMatch(s, cfg) || o(t + 1).code.Zero?)
  {
    var i := Issue(s, cfg, o, t);
    assert RunHook(i.s, o, i.t + 1).out.Fine?;
  }

  /** No certificate, lineage or generated value has changed. */
  predicate Idle(s: Fleet, s': Fleet) {
    SameCerts(s.nodes, s'.nodes) && s'.lineage == s.lineage && s'.name == s.name
    && s'.data.generated == s.data.generated
  }

  lemma CloseIsIdle(a: Act, o: Oracle, name: string)
    ensures Idle(a.s, Close(a, o, name).s)
  {}

  lemma {:induction false} UnflaggedTurnIsIdle(s: Fleet, cfg: Config, o: Oracle, t: nat)
    requires !FlagOn(s.data)
    ensures Idle(s, Turn(s, cfg, o, t, NGINX).s)
  {
    ServeKeepsCerts(s, cfg, o, t + 1);
    var a := NginxApply(s, cfg, o, t + 1);
    assert Idle(s, a.s);
    assert NGINX != TLS by { assert |NGINX| != |TLS|; }
    CloseIsIdle(a, o, NGINX);
  }

  /** Once the flag is cleared, a run that does not take tls, whichever other phases it takes and however
      it ends, touches neither a certificate, nor the lineage, nor a generated value. */
  lemma {:induction false} WithoutTheFlagNothingIsIssued(s: Fleet, cfg: Config, inv: Invocation)
    requires Load(s.disk, s.name).Some? && !Takes(Filed(s), inv, TLS) && !FlagOn(Filed(s))
    ensures Idle(s.(data := Filed(s)), Invoke(s, cfg, inv).s)
  {
    var s0 := s.(data := Filed(s));
    MarkAllMarks(s0, inv.o, 0, inv.replay);
    var m := MarkAll(s0, inv.o, 0, inv.replay);
    assert Idle(s0, m.s);
    if m.out.Fine? {
      assert IfDue(m.s, cfg, inv, m.t, TLS) == Act(m.s, m.t, Fine);
      UnflaggedTurnIsIdle(m.s, cfg, inv.o, m.t);
    }
  }

  /** A run that does not take tls, takes nginx-keepalived and returns True finalises exactly if the
      flag is still set: then every node serves the lineage and the flag is cleared, and otherwise no
      certificate, no lineage and no generated value has changed. */
  lemma {:induction false} NginxAloneFinalisesIffPending(s: Fleet, cfg: Config, inv: Invocation)
    requires !Takes(Filed(s), inv, TLS) && Takes(Filed(s), inv, NGINX) && Invoke(s, cfg, inv).out.Fine?
    ensures var a := Invoke(s, cfg, inv);
      && (FlagOn(Filed(s)) <==> Filed(a.s).generated != Filed(s).generated)
      && !FlagOn(Filed(a.s))
      && (FlagOn(Filed(s)) ==> a.s.lineage.Some? && Serving(a.s.nodes, a.s.lineage.value.Pair()))
      && (!FlagOn(Filed(s)) ==> SameCerts(s.nodes, a.s.nodes) && a.s.lineage == s.lineage)
  {
    var s0 := s.(data := Load(s.disk, s.name).value);
    MarkAllMarks(s0, inv.o, 0, inv.replay);
    var m := MarkAll(s0, inv.o, 0, inv.replay);
    assert IfDue(m.s, cfg, inv, m.t, TLS) == Act(m.s, m.t, Fine);
    assert Invoke(s, cfg, inv) == Turn(m.s, cfg, inv.o, m.t, NGINX);
    if FlagOn(Filed(s)) {
      NginxTurnDone(m.s, cfg, inv.o, m.t);
    } else {
      WithoutTheFlagNothingIsIssued(s, cfg, inv);
      TurnIsOnFile(m.s, cfg, inv.o, m.t);
    }
  }

  lemma {:induction false} TurnIsOnFile(s: Fleet, cfg: Config, o: Oracle, t: nat)
    requires Turn(s, cfg, o, t, NGINX).out.Fine? && !FlagOn(s.data) && s.data.site == s.name
    ensures var c := Turn(s, cfg, o, t, NGINX); Filed(c.s) == c.s.data
  {
    ServeKeepsCerts(s, cfg, o, t + 1);
    assert |TLS| != |NGINX|;
    CloseDone(NginxApply(s, cfg, o, t + 1), o, NGINX, TLS);
  }

  lemma {:induction false} TlsApplyDone(s: Fleet, o: Oracle, t: nat)
    requires TlsApply(s, o, t).out.Fine?
    ensures var a := TlsApply(s, o, t);
      FlagOn(a.s.data) && a.s.lineage == s.lineage && a.s.name == s.name && a.s.data.phases == s.data.phases
  {
    CertifyNodesOnly(s, o, t);
    var r := Certify(s, o, t);
    StageFlags(r.s, o, r.t);
  }

  lemma CloseDone(a: Act, o: Oracle, name: string, other: string)
    requires Close(a, o, name).out.Fine? && name != other
    ensures var c := Close(a, o, name);
      && a.out.Fine? && c.s.nodes == a.s.nodes && c.s.lineage == a.s.lineage && c.s.name == a.s.name
      && c.s.data.generated == a.s.data.generated && StatusOf(c.s.data, other) == StatusOf(a.s.data, other)
      && (a.s.data.site == a.s.name ==> Filed(c.s) == c.s.data)
  {}

  /** What the tls phase leaves when it returns: the flag set, nothing of the lineage changed. */
  lemma {:induction false} TlsTurnDone(s: Fleet, cfg: Config, o: Oracle, t: nat)
    requires Turn(s, cfg, o, t, TLS).out.Fine?
    ensures var c := Turn(s, cfg, o, t, TLS);
      && FlagOn(c.s.data) && c.s.lineage == s.lineage && c.s.name == s.name
      && StatusOf(c.s.data, NGINX) == StatusOf(s.data, NGINX)
  {
    assert |TLS| != |NGINX|;
    var a := TlsApply(s, o, t + 1);
    assert Turn(s, cfg, o, t, TLS) == Close(a, o, TLS);
    CloseDone(a, o, TLS, NGINX);
    TlsApplyDone(s, o, t + 1);
  }

  lemma StageFlags(s: Fleet, o: Oracle, t: nat)
    requires Stage(s, o, t).out.Fine?
    ensures var a := Stage(s, o, t);
      FlagOn(a.s.data) && a.s.lineage == s.lineage && a.s.name == s.name && a.s.data.phases == s.data.phases
  { assert MODE[4] != FLAG[4]; }

  lemma {:induction false} NginxApplyDone(s: Fleet, cfg: Config, o: Oracle, t: nat)
    requires NginxApply(s, cfg, o, t).out.Fine? && FlagOn(s.data)
    ensures var a := NginxApply(s, cfg, o, t);
      && !FlagOn(a.s.data) && a.s.lineage.Some? && Serving(a.s.nodes, a.s.lineage.value.Pair())
      && a.s.name == s.name && Filed(a.s) == a.s.data
      && (WillMatch(s, cfg) || AllSucceed(o) ==> a.s.lineage.value.staging == cfg.staging)
  {
    ServeKeepsCerts(s, cfg, o, t);
    var b := Serve(s, cfg, o, t);
    FinalisedServes(b.s, cfg, o, b.t);
    assert EXPIRY[4] != FLAG[4];
  }

  lemma {:induction false} NginxTurnDone(s: Fleet, cfg: Config, o: Oracle, t: nat)
    requires Turn(s, cfg, o, t, NGINX).out.Fine? && FlagOn(s.data)
    ensures var c := Turn(s, cfg, o, t, NGINX);
      && !FlagOn(c.s.data) && Filed(c.s) == c.s.data
      && c.s.lineage.Some? && Serving(c.s.nodes, c.s.lineage.value.Pair())
      && (WillMatch(s, cfg) || AllSucceed(o) ==> c.s.lineage.value.staging == cfg.staging)
  {
    assert |TLS| != |NGINX|;
    var a := NginxApply(s, cfg, o, t + 1);
    assert Turn(s, cfg, o, t, NGINX) == Close(a, o, NGINX);
    CloseDone(a, o, NGINX, TLS);
    NginxApplyDone(s, cfg, o, t + 1);
  }

  lemma {:induction false} BothTurnsDone(s: Fleet, cfg: Config, o: Oracle, t: nat, a: Act, b: Act)
    requires a == Turn(s, cfg, o, t, TLS) && a.out.Fine? && b == Turn(a.s, cfg, o, a.t, NGINX) && b.out.Fine?
    ensures !FlagOn(Filed(b.s)) && b.s.lineage.Some? && Serving(b.s.nodes, b.s.lineage.value.Pair())
    ensures WillMatch(s, cfg) || AllSucceed(o) ==> b.s.lineage.value.staging == cfg.staging
  {
    TlsTurnDone(s, cfg, o, t);
    NginxTurnDone(a.s, cfg, o, a.t);
  }

  predicate Due(d: Data, inv: Invocation, name: string) {
    if inv.only == [] then StatusOf(d, name) != Done else name in inv.only
  }

  lemma DueTurn(s: Fleet, cfg: Config, inv: Invocation, t: nat, name: string)
    requires Due(s.data, inv, name)
    ensures IfDue(s, cfg, inv, t, name) == Turn(s, cfg, inv.o, t, name)
  {}

  /** What is marked for replay, or not done, or named, is due once the marks are made. */
  lemma {:induction false} MarkedDue(s: Fleet, cfg: Config, inv: Invocation, m: Act)
    requires Load(s.disk, s.name).Some? && Takes(Filed(s), inv, TLS) && Takes(Filed(s), inv, NGINX)
    requires m == MarkAll(s.(data := Filed(s)), inv.o, 0, inv.replay) && m.out.Fine?
    ensures m.s == s.(data := m.s.data, disk := m.s.disk)
    ensures Due(m.s.data, inv, TLS) && Due(m.s.data, inv, NGINX)
  { MarkAllMarks(s.(data := Filed(s)), inv.o, 0, inv.replay); }

  lemma InvokeUnfolds(s: Fleet, cfg: Config, inv: Invocation, m: Act)
    requires Load(s.disk, s.name).Some? && m == MarkAll(s.(data := Filed(s)), inv.o, 0, inv.replay)
    requires Invoke(s, cfg, inv).out.Fine?
    ensures m.out.Fine? && IfDue(m.s, cfg, inv, m.t, TLS).out.Fine?
    ensures var a := IfDue(m.s, cfg, inv, m.t, TLS); Invoke(s, cfg, inv) == IfDue(a.s, cfg, inv, a.t, NGINX)
  {}

  lemma {:induction false} TakenTurns(s: Fleet, cfg: Config, inv: Invocation) returns (m: Fleet, t: nat)
    requires Takes(Filed(s), inv, TLS) && Takes(Filed(s), inv, NGINX) && Invoke(s, cfg, inv).out.Fine?
    ensures m == s.(data := m.data, disk := m.disk) && Turn(m, cfg, inv.o, t, TLS).out.Fine?
    ensures var a := Turn(m, cfg, inv.o, t, TLS); Invoke(s, cfg, inv) == Turn(a.s, cfg, inv.o, a.t, NGINX)
  {
    var x := MarkAll(s.(data := Filed(s)), inv.o, 0, inv.replay);
    InvokeUnfolds(s, cfg, inv, x);
    MarkedDue(s, cfg, inv, x);
    m, t := x.s, x.t;
    DueTurn(m, cfg, inv, t, TLS);
    TlsTurnDone(m, cfg, inv.o, t);
    var a := Turn(m, cfg, inv.o, t, TLS);
    DueTurn(a.s, cfg, inv, a.t, NGINX);
  }

  /** A run that takes both phases does finalise: if it returns True, every node serves one issued
      certificate and the flag is cleared; from the CA asked for, under the condition above. */
  lemma {:induction false} TakingBothFinalises(s: Fleet, cfg: Config, inv: Invocation)
    requires Takes(Filed(s), inv, TLS) && Takes(Filed(s), inv, NGINX)
    requires Invoke(s, cfg, inv).out.Fine?
    ensures var a := Invoke(s, cfg, inv);
      && !FlagOn(Filed(a.s)) && a.s.lineage.Some? && Serving(a.s.nodes, a.s.lineage.value.Pair())
      && (WillMatch(s, cfg) || AllSucceed(inv.o) ==> a.s.lineage.value.staging == cfg.staging)
  {
    var m, t := TakenTurns(s, cfg, inv);
    BothTurnsDone(m, cfg, inv.o, t, Turn(m, cfg, inv.o, t, TLS), Invoke(s, cfg, inv));
    assert WillMatch(s, cfg) ==> WillMatch(m, cfg);
  }
}
