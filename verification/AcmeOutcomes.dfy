/** What the tls and nginx-keepalived phases do when their commands work, and where they stop when not. */
module AcmeOutcomes {
  import opened StateFile
  import opened TlsAcme
  import opened AcmeProofs

  // ------------------------------------------------------------------ nginx on every node

  /** What the phase makes of a node: its configuration in place and nginx running; started afresh, and so
      reading its certificate, exactly if it did not run or the configuration is new. */
  function Brought(n: Node, conf: string): Node {
    n.(conf := conf, up := true, loaded := if n.up && n.conf == conf then n.loaded else n.disk)
  }

  lemma {:induction false} StartOneGives(s: Fleet, cfg: Config, o: Oracle, t: nat, i: nat, a: Act)
    requires i < |s.nodes| && AllSucceed(o) && ProbesAnswer(o) && a == StartOne(s, cfg, o, t, i)
    ensures a.out.Fine? && a.s == s.(nodes := s.nodes[i := Brought(s.nodes[i], cfg.conf(i))])
  {}

  lemma {:induction false} StartAllGives(s: Fleet, cfg: Config, o: Oracle, t: nat, i: nat, a: Act)
    requires i <= |s.nodes| && AllSucceed(o) && ProbesAnswer(o) && a == StartAll(s, cfg, o, t, i)
    ensures a.out.Fine? && NodesOnly(s, a.s) && |a.s.nodes| == |s.nodes|
    ensures forall k :: 0 <= k < |s.nodes| ==>
              a.s.nodes[k] == if k < i then s.nodes[k] else Brought(s.nodes[k], cfg.conf(k))
    decreases |s.nodes| - i
  {
    if i < |s.nodes| {
      var b := StartOne(s, cfg, o, t, i);
      StartOneGives(s, cfg, o, t, i, b);
      StartAllGives(b.s, cfg, o, b.t, i + 1, a);
    }
  }

  // ------------------------------------------------------------------ the gates, in their order

  /** The n answers from t on are all Zero. */
  ghost predicate ZeroFor(o: Oracle, t: nat, n: nat) { forall q :: t <= q < t + n ==> o(q).code.Zero? }

  lemma {:induction false} MonitorExactly(s: Fleet, o: Oracle, t: nat, i: nat)
    requires i <= |s.nodes|
    ensures Monitor(s, o, t, i).s == s
    ensures ZeroFor(o, t, |s.nodes| - i) ==> Monitor(s, o, t, i) == Act(s, t + (|s.nodes| - i), Fine)
    ensures Monitor(s, o, t, i).out.Fine? ==> ZeroFor(o, t, |s.nodes| - i)
    decreases |s.nodes| - i
  { if i < |s.nodes| && o(t).code.Zero? { MonitorExactly(s, o, t + 1, i + 1); } }

  /** The first answer that is not Zero is the last command. */
  lemma {:induction false} MonitorStops(s: Fleet, o: Oracle, t: nat, i: nat, q: nat)
    requires t <= q < t + (|s.nodes| - i) && ZeroFor(o, t, q - t) && !o(q).code.Zero?
    ensures Monitor(s, o, t, i) == Act(s, q + 1, Must(o(q).code))
    decreases |s.nodes| - i
  { if t < q { MonitorStops(s, o, t + 1, i + 1, q); } }

  /** Of three answers for each of n nodes, from t on: the second, to the push, is Zero, and the others come
      back. */
  predicate KeptUp(o: Oracle, t: nat, n: nat)
    decreases n
  {
    n == 0 || (Lost(o(t).code).Fine? && o(t + 1).code.Zero? && Lost(o(t + 2).code).Fine? && KeptUp(o, t + 3, n - 1))
  }

  lemma {:induction false} KeepalivedExactly(s: Fleet, o: Oracle, t: nat, i: nat)
    requires i <= |s.nodes|
    ensures Keepalived(s, o, t, i).s == s
    ensures KeptUp(o, t, |s.nodes| - i) ==> Keepalived(s, o, t, i) == Act(s, t + 3 * (|s.nodes| - i), Fine)
    ensures Keepalived(s, o, t, i).out.Fine? ==> KeptUp(o, t, |s.nodes| - i)
    decreases |s.nodes| - i
  { if i < |s.nodes| { KeepalivedExactly(s, o, t + 3, i + 1); } }

  /** Once nginx is up everywhere, at time c: every node's /monitor has to answer, before the first keepalived
      step is taken; then keepalived goes on every node, and then the VIP has to answer. */
  ghost predicate ServesFrom(o: Oracle, c: nat, n: nat) {
    ZeroFor(o, c, n) && KeptUp(o, c + n, n) && o(c + n + 3 * n).code.Zero?
  }

  lemma GatesUnfold(s: Fleet, o: Oracle, t: nat, c: nat, k: nat)
    requires Monitor(s, o, t, 0) == Act(s, c, Fine) && Keepalived(s, o, c, 0) == Act(s, k, Fine)
    ensures Gates(s, o, t) == Act(s, k + 1, Must(o(k).code))
  {}

  lemma {:induction false} GatesOpen(s: Fleet, o: Oracle, t: nat)
    requires ServesFrom(o, t, |s.nodes|)
    ensures Gates(s, o, t) == Act(s, t + 4 * |s.nodes| + 1, Fine)
  {
    var n := |s.nodes|;
    MonitorExactly(s, o, t, 0);
    KeepalivedExactly(s, o, t + n, 0);
    GatesUnfold(s, o, t, t + n, t + n + 3 * n);
  }

  lemma {:induction false} GatesOpenOnlyThen(s: Fleet, o: Oracle, t: nat)
    requires Gates(s, o, t).out.Fine?
    ensures ServesFrom(o, t, |s.nodes|)
  {
    MonitorExactly(s, o, t, 0);
    KeepalivedExactly(s, o, t + |s.nodes|, 0);
  }

  /** nginx brought up, the rest of the phase changes no node; and it goes through exactly if the answers do. */
  lemma {:induction false} ServeExactly(s: Fleet, cfg: Config, o: Oracle, t: nat, b: Act)
    requires b == StartAll(s, cfg, o, t, 0) && b.out.Fine?
    ensures Serve(s, cfg, o, t).out.Fine? <==> ServesFrom(o, b.t, |s.nodes|)
    ensures Serve(s, cfg, o, t).out.Fine? ==> Serve(s, cfg, o, t).s == b.s
  {
    if ServesFrom(o, b.t, |s.nodes|) { GatesOpen(b.s, o, b.t); }
    if Serve(s, cfg, o, t).out.Fine? {
      GatesOpenOnlyThen(b.s, o, b.t);
      GatesOpen(b.s, o, b.t);
    }
  }

  /** A node whose /monitor does not answer as itself ends the phase there: no keepalived step is issued. */
  lemma {:induction false} MonitorGates(s: Fleet, cfg: Config, o: Oracle, t: nat, b: Act, q: nat)
    requires b == StartAll(s, cfg, o, t, 0) && b.out.Fine?
    requires b.t <= q < b.t + |s.nodes| && ZeroFor(o, b.t, q - b.t) && !o(q).code.Zero?
    ensures NginxApply(s, cfg, o, t) == Act(b.s, q + 1, Must(o(q).code))
  { MonitorStops(b.s, o, b.t, 0, q); }

  // ------------------------------------------------------------------ the phases go through

  ghost predicate AllSaved(o: Oracle) { forall k: nat :: o(k).save.Completes? }

  lemma {:induction false} AllKeptUp(o: Oracle, t: nat, n: nat)
    requires AllSucceed(o)
    ensures KeptUp(o, t, n)
    decreases n
  { if n > 0 { AllKeptUp(o, t + 3, n - 1); } }

  lemma {:induction false} ServeGives(s: Fleet, cfg: Config, o: Oracle, t: nat)
    requires AllSucceed(o) && ProbesAnswer(o)
    ensures var a := Serve(s, cfg, o, t);
      && a.out.Fine? && NodesOnly(s, a.s) && |a.s.nodes| == |s.nodes|
      && forall k :: 0 <= k < |s.nodes| ==> a.s.nodes[k] == Brought(s.nodes[k], cfg.conf(k))
  {
    var b := StartAll(s, cfg, o, t, 0);
    StartAllGives(s, cfg, o, t, 0, b);
    assert Serve(s, cfg, o, t).out.Fine? && Serve(s, cfg, o, t).s == b.s by {
      AllKeptUp(o, b.t + |s.nodes|, |s.nodes|);
      ServeExactly(s, cfg, o, t, b);
    }
  }

  lemma {:induction false} FinaliseReturns(s: Fleet, cfg: Config, o: Oracle, t: nat)
    requires AllSucceed(o) && AllSaved(o)
    ensures Finalise(s, cfg, o, t).out.Fine?
  {}

  /** What finalisation makes of a node. */
  function Finalised(n: Node, pair: Cert): Node { n.(disk := pair, loaded := pair) }

  /** With every command succeeding, the digests answering and every save completing: nginx-keepalived
      returns, and every node has its configuration and runs nginx; with no issuance pending it has loaded
      what is on its disk if it did not run or its configuration was new, and what it had loaded before
      otherwise; with issuance pending, every node serves the lineage. */
  lemma {:induction false} NginxApplyGives(s: Fleet, cfg: Config, o: Oracle, t: nat)
    requires AllSucceed(o) && ProbesAnswer(o) && AllSaved(o)
    ensures var a := NginxApply(s, cfg, o, t);
      && a.out.Fine? && |a.s.nodes| == |s.nodes|
      && (!FlagOn(s.data) ==> forall k :: 0 <= k < |s.nodes| ==>
            a.s.nodes[k] == Brought(s.nodes[k], cfg.conf(k)))
      && (FlagOn(s.data) ==> a.s.lineage.Some? && forall k :: 0 <= k < |s.nodes| ==>
            a.s.nodes[k] == Finalised(Brought(s.nodes[k], cfg.conf(k)), a.s.lineage.value.Pair()))
  {
    ServeGives(s, cfg, o, t);
    var b := Serve(s, cfg, o, t);
    if FlagOn(s.data) {
      FinaliseReturns(b.s, cfg, o, b.t);
      FinaliseMakes(b.s, cfg, o, b.t);
    }
  }

  lemma {:induction false} FinaliseMakes(s: Fleet, cfg: Config, o: Oracle, t: nat)
    requires Finalise(s, cfg, o, t).out.Fine?
    ensures var a := Finalise(s, cfg, o, t);
      && a.s.lineage.Some? && |a.s.nodes| == |s.nodes|
      && forall k :: 0 <= k < |s.nodes| ==> a.s.nodes[k] == Finalised(s.nodes[k], a.s.lineage.value.Pair())
  {
    var i := Issue(s, cfg, o, t);
    assert RunHook(i.s, o, i.t + 1).out.Fine?;
  }

  /** And the tls phase returns, whoever leads. */
  lemma {:induction false} TlsApplyReturns(s: Fleet, o: Oracle, t: nat, l: nat)
    requires OneLeads(s.nodes, l) && AllSucceed(o) && ProbesAnswer(o) && AllSaved(o)
    ensures TlsApply(s, o, t).out.Fine?
  {
    var kept := Usable(s.nodes[l].disk);
    CertifyGives(s, o, t, l, if kept then s.nodes[l].disk else Placeholder(o(t + 1).id), kept);
  }

  // ------------------------------------------------------------------ what a turn records

  /** How the end of a turn marks the phase: done exactly if apply returned and verify answered and found
      nothing missing, failed if either says otherwise, and not at all if the process is gone. */
  lemma {:induction false} CloseMarks(a: Act, o: Oracle, name: string)
    ensures var c := Close(a, o, name); var was := StatusOf(a.s.data, name); var now := StatusOf(c.s.data, name);
      && (a.out.Dead? ==> c == a)
      && (a.out.Raised? ==> now == Failed && !c.out.Fine?)
      && (a.out.Fine? && o(a.t).code.Zero? && Verifies(a.s, name) ==> now == Done)
      && (a.out.Fine? && (o(a.t).code.NonZero? || (o(a.t).code.Zero? && !Verifies(a.s, name))) ==>
            now == Failed && !c.out.Fine?)
      && (a.out.Fine? && (o(a.t).code.Throws? || o(a.t).code.Dies?) ==> now == was && c.out.Dead?)
      && (c.out.Fine? ==> now == Done)
  {}

  /** And how the run goes on from it: to the next phase exactly if the phase is done and that is saved; it ends
      with the process exactly if apply did, verify raised, or the mark was not saved. */
  lemma {:induction false} CloseEnds(a: Act, o: Oracle, name: string)
    ensures var c := Close(a, o, name); var v := o(a.t).code;
      && (c.out.Fine? <==> a.out.Fine? && v.Zero? && Verifies(a.s, name) && o(a.t + 1).save.Completes?)
      && (c.out.Dead? <==>
            || a.out.Dead? || (a.out.Raised? && !o(a.t).save.Completes?)
            || (a.out.Fine? && (!Back(v) || !o(a.t + 1).save.Completes?)))
  {}

  /** A phase that is not confirmed is on record as declined, and ends the run, its process with it if that is
      not saved; a prompt that is torn off changes nothing. */
  lemma {:induction false} UnconfirmedTurn(s: Fleet, cfg: Config, o: Oracle, t: nat, name: string)
    requires !o(t).code.Zero?
    ensures var a := Turn(s, cfg, o, t, name);
      && (o(t).code.NonZero? ==>
            && StatusOf(a.s.data, name) == Declined && a.s.nodes == s.nodes && a.s.lineage == s.lineage
            && (if o(t + 1).save.Completes? then a.out.Raised? else a.out.Dead?))
      && (!Back(o(t).code) ==> a == Act(s, t + 1, Dead))
  {}

  /** A state file that cannot be read stops the run before anything. */
  lemma {:induction false} UnreadableFile(s: Fleet, cfg: Config, inv: Invocation)
    requires Load(s.disk, s.name).None?
    ensures Invoke(s, cfg, inv) == Act(s, 0, Raised)
  {}

  /** Ageing makes a lineage due, and a renewal makes it one that is not, of the same CA. */
  lemma {:induction false} AgesAndRenews(s: Fleet, cfg: Config, id: nat, reached: set<nat>, torn: map<nat, nat>)
    ensures var a := Happens(s, cfg, Ages); var r := Happens(s, cfg, Renews(id, reached, torn));
      && a.nodes == s.nodes && a.lineage.Some? == s.lineage.Some? == r.lineage.Some?
      && (s.lineage.Some? ==>
            && a.lineage == Some(s.lineage.value.(due := true))
            && r.lineage == Some(s.lineage.value.(due := false, id := id)))
  {}

  lemma {:induction false} NothingMissing(s: Fleet, o: Oracle, t: nat, l: nat)
    requires OneLeads(s.nodes, l) && AllSucceed(o) && ProbesAnswer(o) && TlsApply(s, o, t).out.Fine?
    ensures Verifies(TlsApply(s, o, t).s, TLS)
  { TlsApplyGives(s, o, t, l); }

  /** With everything going well, a turn of either phase goes through, and is on record and on file as done. */
  lemma {:induction false} TurnReturns(s: Fleet, cfg: Config, o: Oracle, t: nat, l: nat, name: string)
    requires OneLeads(s.nodes, l) && AllSucceed(o) && ProbesAnswer(o) && AllSaved(o) && name in [TLS, NGINX]
    requires s.data.site == s.name
    ensures var c := Turn(s, cfg, o, t, name);
      && c.out.Fine? && StatusOf(c.s.data, name) == Done && Filed(c.s) == c.s.data && c.s.name == s.name
      && |c.s.nodes| == |s.nodes| && OneLeads(c.s.nodes, l)
  {
    if name == TLS {
      TlsApplyReturns(s, o, t + 1, l);
      NothingMissing(s, o, t + 1, l);
      TlsTurnKeepsRoster(s, o, t + 1, l);
      TlsApplyDone(s, o, t + 1);
      TlsApplySite(s, o, t + 1);
      CloseReturns(TlsApply(s, o, t + 1), o, name);
    } else {
      assert |TLS| != |NGINX|;
      NginxApplyGives(s, cfg, o, t + 1);
      NginxApplySite(s, cfg, o, t + 1);
      CloseReturns(NginxApply(s, cfg, o, t + 1), o, name);
    }
  }

  lemma {:induction false} CloseReturns(a: Act, o: Oracle, name: string)
    requires a.out.Fine? && Verifies(a.s, name) && AllSucceed(o) && AllSaved(o) && a.s.data.site == a.s.name
    ensures var c := Close(a, o, name);
      && c.out.Fine? && StatusOf(c.s.data, name) == Done && Filed(c.s) == c.s.data
      && c.s.nodes == a.s.nodes && c.s.name == a.s.name
  {}

  lemma {:induction false} TlsTurnKeepsRoster(s: Fleet, o: Oracle, t: nat, l: nat)
    requires OneLeads(s.nodes, l) && AllSucceed(o) && ProbesAnswer(o)
    ensures OneLeads(TlsApply(s, o, t).s.nodes, l) && |TlsApply(s, o, t).s.nodes| == |s.nodes|
  {
    var kept := Usable(s.nodes[l].disk);
    CertifyGives(s, o, t, l, if kept then s.nodes[l].disk else Placeholder(o(t + 1).id), kept);
    var r := Certify(s, o, t);
    StageKeepsNodes(r.s, o, r.t);
  }

  lemma {:induction false} TlsApplySite(s: Fleet, o: Oracle, t: nat)
    ensures TlsApply(s, o, t).s.data.site == s.data.site && TlsApply(s, o, t).s.name == s.name
  { CertifyNodesOnly(s, o, t); }

  lemma {:induction false} NginxApplySite(s: Fleet, cfg: Config, o: Oracle, t: nat)
    ensures NginxApply(s, cfg, o, t).s.data.site == s.data.site && NginxApply(s, cfg, o, t).s.name == s.name
  { ServeKeepsCerts(s, cfg, o, t); }

  /** And so does a run: it returns True, with both phases on file as done if it is of the whole pipeline. */
  lemma {:induction false} RunReturns(s: Fleet, cfg: Config, inv: Invocation, l: nat)
    requires Load(s.disk, s.name).Some? && OneLeads(s.nodes, l)
    requires AllSucceed(inv.o) && ProbesAnswer(inv.o) && AllSaved(inv.o)
    ensures var a := Invoke(s, cfg, inv);
      && a.out.Fine?
      && (inv.only == [] ==> StatusOf(Filed(a.s), TLS) == Done && StatusOf(Filed(a.s), NGINX) == Done)
  {
    var s0 := s.(data := Load(s.disk, s.name).value);
    MarkAllCompletes(s0, inv.o, 0, inv.replay);
    MarkAllMarks(s0, inv.o, 0, inv.replay);
    var m := MarkAll(s0, inv.o, 0, inv.replay);
    IfDueReturns(m.s, cfg, inv, m.t, l, TLS);
    var a := IfDue(m.s, cfg, inv, m.t, TLS);
    IfDueReturns(a.s, cfg, inv, a.t, l, NGINX);
    var b := IfDue(a.s, cfg, inv, a.t, NGINX);
    if inv.only == [] { TlsStaysDone(a.s, cfg, inv, a.t); }
  }

  lemma {:induction false} IfDueReturns(s: Fleet, cfg: Config, inv: Invocation, t: nat, l: nat, name: string)
    requires OneLeads(s.nodes, l) && name in [TLS, NGINX] && Going(s)
    requires AllSucceed(inv.o) && ProbesAnswer(inv.o) && AllSaved(inv.o)
    ensures var c := IfDue(s, cfg, inv, t, name);
      && c.out.Fine? && Going(c.s) && c.s.name == s.name && OneLeads(c.s.nodes, l)
      && (inv.only == [] ==> StatusOf(c.s.data, name) == Done)
  {
    TurnReturns(s, cfg, inv.o, t, l, name);
    TurnSite(s, cfg, inv.o, t, name);
  }

  lemma {:induction false} TurnSite(s: Fleet, cfg: Config, o: Oracle, t: nat, name: string)
    requires s.data.site == s.name && name in [TLS, NGINX]
    ensures Turn(s, cfg, o, t, name).s.data.site == s.data.site
  {
    if name == TLS { TlsApplySite(s, o, t + 1); } else { NginxApplySite(s, cfg, o, t + 1); }
  }

  lemma {:induction false} NginxApplyPhases(s: Fleet, cfg: Config, o: Oracle, t: nat)
    ensures NginxApply(s, cfg, o, t).s.data.phases == s.data.phases
  { ServeKeepsCerts(s, cfg, o, t); }

  lemma {:induction false} CloseFrames(a: Act, o: Oracle, name: string, other: string)
    requires name != other
    ensures StatusOf(Close(a, o, name).s.data, other) == StatusOf(a.s.data, other)
  {}

  lemma {:induction false} TlsStaysDone(s: Fleet, cfg: Config, inv: Invocation, t: nat)
    ensures StatusOf(IfDue(s, cfg, inv, t, NGINX).s.data, TLS) == StatusOf(s.data, TLS)
  {
    assert NGINX != TLS by { assert |NGINX| != |TLS|; }
    NginxApplyPhases(s, cfg, inv.o, t + 1);
    CloseFrames(NginxApply(s, cfg, inv.o, t + 1), inv.o, NGINX, TLS);
  }

  // ------------------------------------------------------------------ where they stop

  /** The command came back, whatever it said. */
  predicate Back(c: Code) { c.Zero? || c.NonZero? }

  ghost predicate AllBack(o: Oracle, t: nat, until: nat) { forall q :: t <= q < until ==> Back(o(q).code) }

  /** From t on every command came back, up to the last: if all went well that too, and otherwise it is the one
      that ends it.  The process is gone exactly if that took it along. */
  ghost predicate EndsWithItsLast(a: Act, o: Oracle, t: nat) {
    && t <= a.t
    && (a.out.Fine? ==> AllBack(o, t, a.t))
    && (!a.out.Fine? ==> t < a.t && AllBack(o, t, a.t - 1) && !o(a.t - 1).code.Zero?)
    && (a.out.Dead? ==> o(a.t - 1).code.Dies?)
    && (a.out.Raised? ==> !o(a.t - 1).code.Dies?)
  }

  lemma EndsThen(b: Act, o: Oracle, t: nat, c: nat)
    requires t <= c && AllBack(o, t, c) && EndsWithItsLast(b, o, c)
    ensures EndsWithItsLast(b, o, t)
  {}

  lemma {:induction false} DistributeEnds(s: Fleet, o: Oracle, t: nat, i: nat, content: Cert, changed: seq<nat>)
    requires forall x :: x in changed ==> x < |s.nodes|
    ensures EndsWithItsLast(Distribute(s, o, t, i, content, changed).a, o, t)
    decreases |s.nodes| - i
  {
    if i < |s.nodes| {
      if s.nodes[i].leader { DistributeEnds(s, o, t, i + 1, content, changed); }
      else if o(t).code.Zero? && o(t).yes && s.nodes[i].disk == content {
        DistributeEnds(s, o, t + 1, i + 1, content, changed);
      } else if o(t).code.Zero? {
        DistributeEnds(WithDisk(s, i, content), o, t + 1, i + 1, content, changed + [i]);
      }
    }
  }

  lemma {:induction false} ReloadEnds(s: Fleet, o: Oracle, t: nat, changed: seq<nat>, k: nat)
    requires forall x :: x in changed ==> x < |s.nodes|
    ensures EndsWithItsLast(Reload(s, o, t, changed, k), o, t)
    decreases |changed| - k
  {
    if k < |changed| {
      assert changed[k] in changed;
      var a := ReloadOne(s, o, t, changed[k]);
      if a.out.Fine? { ReloadEnds(a.s, o, a.t, changed, k + 1); }
    }
  }

  lemma {:induction false} EnsureLeaderEnds(s: Fleet, o: Oracle, t: nat, l: nat)
    requires l < |s.nodes|
    ensures EndsWithItsLast(EnsureLeader(s, o, t, l), o, t)
  {}

  lemma CertifyUnfolds(s: Fleet, o: Oracle, t: nat, l: nat, e: Act, d: Sent)
    requires l == Leader(s.nodes) < |s.nodes| && e == EnsureLeader(s, o, t, l) && e.out.Fine? && Back(o(e.t).code)
    requires var content := if o(e.t).code.Zero? then e.s.nodes[l].disk else Junk(o(e.t).id);
             d == Distribute(e.s, o, e.t + 1, 0, content, if Good(s, o, t, l) then [] else [l])
    ensures Certify(s, o, t) == if d.a.out.Fine? then Reload(d.a.s, o, d.a.t, d.changed, 0) else d.a
  {}

  lemma {:induction false} DeliverEnds(s: Fleet, o: Oracle, t: nat, content: Cert, first: seq<nat>, d: Sent)
    requires forall x :: x in first ==> x < |s.nodes|
    requires d == Distribute(s, o, t, 0, content, first)
    ensures EndsWithItsLast(if d.a.out.Fine? then Reload(d.a.s, o, d.a.t, d.changed, 0) else d.a, o, t)
  {
    DistributeEnds(s, o, t, 0, content, first);
    if d.a.out.Fine? {
      ReloadEnds(d.a.s, o, d.a.t, d.changed, 0);
      EndsThen(Reload(d.a.s, o, d.a.t, d.changed, 0), o, t, d.a.t);
    }
  }

  /** The certificates: without a leader nothing is asked; with one, the first command that does not come back,
      or that has to work and does not, is the last. */
  lemma {:induction false} CertifyEnds(s: Fleet, o: Oracle, t: nat, l: nat)
    requires l == Leader(s.nodes)
    ensures l == |s.nodes| ==> Certify(s, o, t) == Act(s, t, Raised)
    ensures l < |s.nodes| ==> EndsWithItsLast(Certify(s, o, t), o, t)
  {
    if l < |s.nodes| {
      var e := EnsureLeader(s, o, t, l);
      EnsureLeaderEnds(s, o, t, l);
      if e.out.Fine? && Back(o(e.t).code) {
        var content := if o(e.t).code.Zero? then e.s.nodes[l].disk else Junk(o(e.t).id);
        var first := if Good(s, o, t, l) then [] else [l];
        var d := Distribute(e.s, o, e.t + 1, 0, content, first);
        CertifyUnfolds(s, o, t, l, e, d);
        DeliverEnds(e.s, o, e.t + 1, content, first, d);
        EndsThen(Certify(s, o, t), o, t, e.t + 1);
      }
    }
  }

  predicate Kills(f: SaveFate) { f.Stops? && f.dies }

  /** Recording that issuance is pending: one command that has to come back, and two saves. */
  lemma {:induction false} StageExactly(s: Fleet, o: Oracle, t: nat, a: Act)
    requires a == Stage(s, o, t)
    ensures a.out.Fine? <==> Back(o(t).code) && o(t + 1).save.Completes? && o(t + 2).save.Completes?
    ensures a.out.Dead? <==>
              || o(t).code.Dies? || (Back(o(t).code) && Kills(o(t + 1).save))
              || (Back(o(t).code) && o(t + 1).save.Completes? && Kills(o(t + 2).save))
  {}

  /** nginx on one node: it is left alone exactly if it is seen to run, the digest could be had, and its
      configuration is what was rendered; otherwise a start is tried, and it runs if that took effect. */
  lemma {:induction false} StartOneExactly(s: Fleet, cfg: Config, o: Oracle, t: nat, i: nat, a: Act)
    requires i < |s.nodes| && a == StartOne(s, cfg, o, t, i)
    ensures EndsWithItsLast(a, o, t)
    ensures var n := s.nodes[i]; var n' := a.s.nodes[i]; var r := o(t + 2);
      && a.s == s.(nodes := s.nodes[i := n'])
      && (!o(t).code.Zero? ==> n' == if o(t).took then n.(conf := o(t).text) else n)
      && (a.out.Fine? && o(t + 1).code.Zero? && n.up && o(t).yes && n.conf == cfg.conf(i) ==> a == Act(s, t + 2, Fine))
      && (a.out.Fine? && !(o(t + 1).code.Zero? && n.up && o(t).yes && n.conf == cfg.conf(i)) ==>
            && a.t == t + 3 && n'.conf == cfg.conf(i) && n'.disk == n.disk && n'.leader == n.leader
            && n'.up == (r.code.Zero? || r.took)
            && n'.loaded == if r.code.Zero? || r.took then n.disk else n.loaded)
  {}

  lemma {:induction false} StartAllEnds(s: Fleet, cfg: Config, o: Oracle, t: nat, i: nat)
    ensures EndsWithItsLast(StartAll(s, cfg, o, t, i), o, t)
    decreases |s.nodes| - i
  {
    if i < |s.nodes| {
      var a := StartOne(s, cfg, o, t, i);
      StartOneExactly(s, cfg, o, t, i, a);
      if a.out.Fine? { StartAllEnds(a.s, cfg, o, a.t, i + 1); }
    }
  }

  lemma {:induction false} GatesEnd(s: Fleet, o: Oracle, t: nat)
    ensures EndsWithItsLast(Gates(s, o, t), o, t)
  {
    MonitorEnds(s, o, t, 0);
    var m := Monitor(s, o, t, 0);
    if m.out.Fine? { KeepalivedEnds(m.s, o, m.t, 0); }
  }

  lemma {:induction false} MonitorEnds(s: Fleet, o: Oracle, t: nat, i: nat)
    ensures EndsWithItsLast(Monitor(s, o, t, i), o, t)
    decreases |s.nodes| - i
  { if i < |s.nodes| && o(t).code.Zero? { MonitorEnds(s, o, t + 1, i + 1); } }

  lemma {:induction false} KeepalivedEnds(s: Fleet, o: Oracle, t: nat, i: nat)
    ensures EndsWithItsLast(Keepalived(s, o, t, i), o, t)
    decreases |s.nodes| - i
  { if i < |s.nodes| { KeepalivedEnds(s, o, t + 3, i + 1); } }

  /** nginx and keepalived on every node: the first command that does not come back, or that has to work and
      does not, is the last. */
  lemma {:induction false} ServeEnds(s: Fleet, cfg: Config, o: Oracle, t: nat)
    ensures EndsWithItsLast(Serve(s, cfg, o, t), o, t)
  {
    var b := StartAll(s, cfg, o, t, 0);
    StartAllEnds(s, cfg, o, t, 0);
    if b.out.Fine? { GatesEnd(b.s, o, b.t); }
  }

  /** Asking certbot: likewise; and if it returns, the lineage is the old one exactly where there is one that is
      not due, and it is of the right CA or its issuer cannot be read, and the config does not force. */
  lemma {:induction false} IssueExactly(s: Fleet, cfg: Config, o: Oracle, t: nat, a: Act)
    requires a == Issue(s, cfg, o, t)
    ensures EndsWithItsLast(a, o, t)
    ensures a.out.Fine? && Satisfied(s, cfg, o(t + 1).code) ==> a.s == s
    ensures a.out.Fine? && !Satisfied(s, cfg, o(t + 1).code) ==>
              a.s.lineage == Some(Lineage(cfg.staging, false, o(t + 2).id))
  {}

  /** There is nothing for certbot to do. */
  predicate Satisfied(s: Fleet, cfg: Config, issuer: Code) {
    && s.lineage.Some? && !s.lineage.value.due && !cfg.force
    && (s.lineage.value.staging == cfg.staging || issuer.NonZero?)
  }

  /** Deploying: the hook has to be pushed and to work, the expiry query to come back, and the save to get
      through. */
  lemma {:induction false} DeployExactly(s: Fleet, o: Oracle, t: nat, a: Act)
    requires s.lineage.Some? && a == Deploy(s, o, t)
    ensures a.out.Fine? <==>
              o(t).code.Zero? && o(t + 1).code.Zero? && Back(o(t + 2).code) && o(t + 3).save.Completes?
    ensures a.out.Dead? <==>
              || o(t).code.Dies? || (o(t).code.Zero? && o(t + 1).code.Dies?)
              || (o(t).code.Zero? && o(t + 1).code.Zero? && o(t + 2).code.Dies?)
              || (o(t).code.Zero? && o(t + 1).code.Zero? && Back(o(t + 2).code) && Kills(o(t + 3).save))
  {}

  /** A push that is torn off leaves what it was torn at. */
  lemma {:induction false} TornPush(s: Fleet, o: Oracle, t: nat, i: nat, content: Cert, changed: seq<nat>)
    requires i < |s.nodes| && !s.nodes[i].leader && !o(t).code.Zero?
    requires forall x :: x in changed ==> x < |s.nodes|
    ensures var r := Distribute(s, o, t, i, content, changed);
      !r.a.out.Fine? && r.changed == changed && r.a.s == if o(t).took then WithDisk(s, i, o(t).cert) else s
  {}

  lemma {:induction false} TornPlaceholder(s: Fleet, o: Oracle, t: nat, l: nat)
    requires l < |s.nodes| && Back(o(t).code) && !Good(s, o, t, l) && !o(t + 1).code.Zero?
    ensures var a := EnsureLeader(s, o, t, l);
      !a.out.Fine? && a.s == if o(t + 1).took then WithDisk(s, l, o(t + 1).cert) else s
  {}
}
