/** The patroni phase's start order: the bootstrap leader first, gated on its promotion; then the
    replicas one at a time, each gated on streaming.  A run may end at any command, so what holds after
    every run holds at every step of one. */
module Patroni {

  /** `joined`: has been seen streaming since it was started. */
  datatype Member = Member(leader: bool, started: bool, joined: bool)
  datatype Cluster = Cluster(members: seq<Member>, promoted: bool)

  /** `lost`: the command never answered.  `took`: it had its effect all the same. */
  datatype Ans = Ans(lost: bool, took: bool, passes: bool, late: bool)
  type Oracle = nat -> Ans

  datatype Act = Act(c: Cluster, t: nat, ok: bool)

  function Started(c: Cluster, i: nat): (r: Cluster)
    requires i < |c.members|
    ensures |r.members| == |c.members|
  { c.(members := c.members[i := c.members[i].(started := true)]) }

  /** What a passing poll of member i shows; `last`: of a replica, that it streams, and not merely that
      it says replica. */
  function Seen(c: Cluster, i: nat, last: bool): (r: Cluster)
    requires i < |c.members|
    ensures |r.members| == |c.members|
  {
    if c.members[i].leader then c.(promoted := true)
    else if !last then c
    else c.(members := c.members[i := c.members[i].(joined := true)])
  }

  /** `systemctl enable --now patroni`: a failure is recorded, and the gate waited for all the same. */
  function Start(c: Cluster, o: Oracle, t: nat, i: nat): (a: Act)
    requires i < |c.members|
    ensures |a.c.members| == |c.members|
  { Act(if o(t).took then Started(c, i) else c, t + 1, !o(t).lost) }

  /** Poll until `until`.  Only a member that runs can pass. */
  function Wait(c: Cluster, o: Oracle, t: nat, i: nat, last: bool, until: nat): (a: Act)
    requires i < |c.members|
    ensures |a.c.members| == |c.members|
    decreases until - t
  {
    if t >= until then Act(c, t, false)
    else if o(t).lost then Act(c, t + 1, false)
    else if o(t).passes && c.members[i].started then Act(Seen(c, i, last), t + 1, true)
    else if o(t).late then Act(c, t + 1, false)
    else Wait(c, o, t + 1, i, last, until)
  }

  // 300 s, and for streaming 180 s, polled every 5 s.
  const POLLS: nat := 300 / 5
  const STREAMING_POLLS: nat := 180 / 5

  /** The gates of member i: of a replica two, one after the other. */
  function Gates(c: Cluster, o: Oracle, t: nat, i: nat, polls: nat, streaming: nat): (a: Act)
    requires i < |c.members|
    ensures |a.c.members| == |c.members|
  {
    var w := Wait(c, o, t, i, false, t + polls);
    if w.ok && !c.members[i].leader then Wait(w.c, o, w.t, i, true, w.t + streaming) else w
  }

  function Bring(c: Cluster, o: Oracle, t: nat, i: nat): (a: Act)
    requires i < |c.members|
    ensures |a.c.members| == |c.members|
  {
    var s := Start(c, o, t, i);
    if s.ok then Gates(s.c, o, s.t, i, POLLS, STREAMING_POLLS) else s
  }

  function Followers(c: Cluster, o: Oracle, t: nat, i: nat): (a: Act)
    requires i <= |c.members|
    ensures |a.c.members| == |c.members|
    decreases |c.members| - i
  {
    if i == |c.members| then Act(c, t, true)
    else if c.members[i].leader then Followers(c, o, t, i + 1)
    else
      var b := Bring(c, o, t, i);
      if b.ok then Followers(b.c, o, b.t, i + 1) else b
  }

  function Leader(ms: seq<Member>): (l: nat)
    ensures l <= |ms|
    ensures l < |ms| ==> ms[l].leader
  { if ms == [] || ms[0].leader then 0 else 1 + Leader(ms[1..]) }

  function Apply(c: Cluster, o: Oracle, t: nat): (a: Act)
    ensures |a.c.members| == |c.members|
  {
    var l := Leader(c.members);
    if l == |c.members| then Act(c, t, false) else
    var b := Bring(c, o, t, l);
    if b.ok then Followers(b.c, o, b.t, 0) else b
  }

  // ------------------------------------------------------------------ the phase as it runs

  class Fleet {
    var c: Cluster
    var t: nat
    const o: Oracle

    constructor (c: Cluster, o: Oracle)
      ensures this.c == c && t == 0 && this.o == o
    { this.c, this.t, this.o := c, 0, o; }

    method WaitFor(i: nat, last: bool, polls: nat) returns (ok: bool)
      requires i < |c.members|
      modifies this
      ensures Act(c, t, ok) == Wait(old(c), o, old(t), i, last, old(t) + polls)
    {
      ghost var until := t + polls;
      var left := polls;
      while left > 0
        invariant 0 <= left <= polls && c == old(c) && t + left == until
        invariant Wait(old(c), o, old(t), i, last, until) == Wait(c, o, t, i, last, until)
      {
        var r := o(t);
        t := t + 1;
        if r.lost { return false; }
        if r.passes && c.members[i].started {
          c := Seen(c, i, last);
          return true;
        }
        if r.late { return false; }
        left := left - 1;
      }
      return false;
    }

    method WaitBoth(i: nat, polls: nat, streaming: nat) returns (ok: bool)
      requires i < |c.members|
      modifies this
      ensures Act(c, t, ok) == Gates(old(c), o, old(t), i, polls, streaming)
    {
      ghost var leads := c.members[i].leader;
      ok := WaitFor(i, false, polls);
      assert c.members[i].leader == leads by {
        WaitKeepsRoles(old(c), o, old(t), i, false, old(t) + polls);
      }
      if ok && !c.members[i].leader { ok := WaitFor(i, true, streaming); }
    }

    method StartAndWait(i: nat) returns (ok: bool)
      requires i < |c.members|
      modifies this
      ensures Act(c, t, ok) == Bring(old(c), o, old(t), i)
    {
      var a := o(t);
      if a.took { c := Started(c, i); }
      t := t + 1;
      if a.lost { return false; }
      ok := WaitBoth(i, POLLS, STREAMING_POLLS);
    }

    method ApplyPatroni() returns (ok: bool)
      modifies this
      ensures Act(c, t, ok) == Apply(old(c), o, old(t))
    {
      var l := Leader(c.members);
      if l == |c.members| { return false; }
      ok := StartAndWait(l);
      if !ok { return; }
      var i := 0;
      while i < |c.members|
        invariant 0 <= i <= |c.members|
        invariant Apply(old(c), o, old(t)) == Followers(c, o, t, i)
      {
        if !c.members[i].leader {
          ok := StartAndWait(i);
          if !ok { return; }
        }
        i := i + 1;
      }
      return true;
    }
  }

  lemma {:induction false} WaitKeepsRoles(c: Cluster, o: Oracle, t: nat, i: nat, last: bool, until: nat)
    requires i < |c.members|
    ensures Wait(c, o, t, i, last, until).c.members[i].leader == c.members[i].leader
    decreases until - t
  { if t < until { WaitKeepsRoles(c, o, t + 1, i, last, until); } }

  // ------------------------------------------------------------------ staggered starts

  /** No replica has been started before the leader was promoted, nor before every replica ahead of it
      had joined.  So at most one replica at a time is started and not yet streaming. */
  ghost predicate Staggered(c: Cluster) {
    && (forall j :: 0 <= j < |c.members| && !c.members[j].leader && c.members[j].started ==> c.promoted)
    && (forall i, j :: 0 <= i < j < |c.members| && !c.members[i].leader && !c.members[j].leader ==>
          (c.members[j].started ==> c.members[i].joined))
  }

  ghost predicate ReadyFor(c: Cluster, i: nat) {
    i < |c.members| && (c.members[i].leader ||
      (c.promoted && forall k :: 0 <= k < i && !c.members[k].leader ==> c.members[k].joined))
  }

  /** `c'` differs from c in member i and the promotion at most, and has lost nothing. */
  ghost predicate Grown(c: Cluster, c': Cluster, i: nat) {
    && |c'.members| == |c.members|
    && (forall k :: 0 <= k < |c.members| && k != i ==> c'.members[k] == c.members[k])
    && (forall k :: 0 <= k < |c.members| ==> c'.members[k].leader == c.members[k].leader)
    && (forall k :: 0 <= k < |c.members| ==> (c.members[k].joined ==> c'.members[k].joined))
    && (c.promoted ==> c'.promoted)
  }

  lemma {:induction false} WaitStaggers(c: Cluster, o: Oracle, t: nat, i: nat, last: bool, until: nat)
    requires Staggered(c) && i < |c.members|
    ensures var a := Wait(c, o, t, i, last, until);
      && Staggered(a.c) && Grown(c, a.c, i)
      && (a.ok ==> if c.members[i].leader then a.c.promoted else last ==> a.c.members[i].joined)
    decreases until - t
  {
    if t < until && !o(t).lost && !(o(t).passes && c.members[i].started) && !o(t).late {
      WaitStaggers(c, o, t + 1, i, last, until);
    }
  }

  lemma {:induction false} GatesStagger(c: Cluster, o: Oracle, t: nat, i: nat, polls: nat, streaming: nat)
    requires Staggered(c) && i < |c.members|
    ensures var a := Gates(c, o, t, i, polls, streaming);
      && Staggered(a.c) && Grown(c, a.c, i)
      && (a.ok ==> if c.members[i].leader then a.c.promoted else a.c.members[i].joined)
  {
    WaitStaggers(c, o, t, i, false, t + polls);
    var w := Wait(c, o, t, i, false, t + polls);
    if w.ok { WaitStaggers(w.c, o, w.t, i, true, w.t + streaming); }
  }

  lemma {:induction false} BringStaggers(c: Cluster, o: Oracle, t: nat, i: nat)
    requires Staggered(c) && ReadyFor(c, i)
    ensures var a := Bring(c, o, t, i);
      && Staggered(a.c) && Grown(c, a.c, i)
      && (a.ok ==> if c.members[i].leader then a.c.promoted else a.c.members[i].joined)
  {
    var s := Start(c, o, t, i);
    StartStaggers(c, i);
    if s.ok { GatesStagger(s.c, o, s.t, i, POLLS, STREAMING_POLLS); }
  }

  lemma StartStaggers(c: Cluster, i: nat)
    requires Staggered(c) && ReadyFor(c, i)
    ensures Staggered(Started(c, i)) && Grown(c, Started(c, i), i)
  {
    var c' := Started(c, i);
    forall a, b | 0 <= a < b < |c.members| && !c'.members[a].leader && !c'.members[b].leader && c'.members[b].started
      ensures c'.members[a].joined
    {
      if b == i { assert c.members[a].joined; } else { assert c.members[b].started && c.members[a].joined; }
    }
  }

  ghost predicate Behind(c: Cluster, i: nat) {
    c.promoted && forall k :: 0 <= k < i && k < |c.members| && !c.members[k].leader ==> c.members[k].joined
  }

  lemma {:induction false} OneFollows(c: Cluster, o: Oracle, t: nat, i: nat, b: Act)
    requires Staggered(c) && i < |c.members| && Behind(c, i) && !c.members[i].leader && b == Bring(c, o, t, i)
    ensures Staggered(b.c) && |b.c.members| == |c.members| && (b.ok ==> Behind(b.c, i + 1))
  { BringStaggers(c, o, t, i); }

  lemma {:induction false} FollowersStagger(c: Cluster, o: Oracle, t: nat, i: nat)
    requires Staggered(c) && i <= |c.members| && Behind(c, i)
    ensures var a := Followers(c, o, t, i); Staggered(a.c) && (a.ok ==> Behind(a.c, |c.members|))
    decreases |c.members| - i
  {
    if i < |c.members| {
      if c.members[i].leader { FollowersStagger(c, o, t, i + 1); }
      else {
        var b := Bring(c, o, t, i);
        OneFollows(c, o, t, i, b);
        if b.ok { FollowersStagger(b.c, o, b.t, i + 1); }
      }
    }
  }

  lemma {:induction false} ApplyStaggers(c: Cluster, o: Oracle, t: nat)
    requires Staggered(c)
    ensures var a := Apply(c, o, t); Staggered(a.c) && (a.ok ==> Behind(a.c, |c.members|))
  {
    var l := Leader(c.members);
    if l < |c.members| {
      BringStaggers(c, o, t, l);
      var b := Bring(c, o, t, l);
      if b.ok { FollowersStagger(b.c, o, b.t, 0); }
    }
  }

  function Runs(c: Cluster, os: seq<Oracle>): Cluster
    decreases |os|
  { if os == [] then c else Runs(Apply(c, os[0], 0).c, os[1..]) }

  /** From a cold fleet of any size, over any number of runs each ending anywhere. */
  lemma {:induction false} StartsAreStaggered(c: Cluster, os: seq<Oracle>)
    requires Staggered(c)
    ensures Staggered(Runs(c, os))
    decreases |os|
  {
    if os != [] {
      ApplyStaggers(c, os[0], 0);
      StartsAreStaggered(Apply(c, os[0], 0).c, os[1..]);
    }
  }

  lemma {:induction false} ColdIsStaggered(c: Cluster, os: seq<Oracle>, i: nat, j: nat)
    requires forall k :: 0 <= k < |c.members| ==> !c.members[k].started
    requires i < j < |Runs(c, os).members| && !Runs(c, os).members[i].leader && !Runs(c, os).members[j].leader
    ensures var r := Runs(c, os);
      && (r.members[i].started || r.members[j].started ==> r.promoted)
      && !(r.members[i].started && !r.members[i].joined && r.members[j].started && !r.members[j].joined)
  { StartsAreStaggered(c, os); }

  // ------------------------------------------------------------------ when a run goes through

  predicate Shows(a: Ans) { !a.lost && a.passes }

  predicate NotYet(a: Ans) { !a.lost && !a.passes && !a.late }

  /** Of n polls from t on the q-th answer is the first to pass, and none before it is lost or late. */
  ghost predicate PassesAt(o: Oracle, t: nat, n: nat, q: nat) {
    t <= q < t + n && Shows(o(q)) && forall p :: t <= p < q ==> NotYet(o(p))
  }

  ghost predicate Passes(o: Oracle, t: nat, n: nat) { exists q: nat :: PassesAt(o, t, n, q) }

  /** A gate on a member that runs opens with the first poll that passes, within the budget. */
  lemma {:induction false} WaitPasses(c: Cluster, o: Oracle, t: nat, i: nat, last: bool, n: nat, q: nat)
    requires i < |c.members| && c.members[i].started && PassesAt(o, t, n, q)
    ensures Wait(c, o, t, i, last, t + n) == Act(Seen(c, i, last), q + 1, true)
    decreases n
  {
    if t < q {
      assert NotYet(o(t));
      WaitPasses(c, o, t + 1, i, last, n - 1, q);
    }
  }

  /** And only then; never on a member that does not run. */
  lemma {:induction false} WaitPassesOnlyThen(c: Cluster, o: Oracle, t: nat, i: nat, last: bool, until: nat)
    returns (q: nat)
    requires i < |c.members| && Wait(c, o, t, i, last, until).ok
    ensures c.members[i].started
    ensures t <= q < until && Shows(o(q)) && forall p :: t <= p < q ==> NotYet(o(p))
    decreases until - t
  {
    q := t;
    if !(o(t).passes && c.members[i].started) { q := WaitPassesOnlyThen(c, o, t + 1, i, last, until); }
  }

  /** What bringing up a member makes of the cluster. */
  function Brought(c: Cluster, i: nat): Cluster
    requires i < |c.members|
  {
    var m := c.members[i].(started := true);
    if m.leader then Cluster(c.members[i := m], true)
    else c.(members := c.members[i := m.(joined := true)])
  }

  /** A member whose start takes effect comes up: the leader if one of the 60 polls that 300 seconds allow
      shows it promoted; a replica if one of 60 shows its role, and then one of the 36 of 180 seconds shows it
      streaming. */
  lemma {:induction false} BringSucceeds(c: Cluster, o: Oracle, t: nat, i: nat, q: nat, q': nat)
    requires i < |c.members| && !o(t).lost && o(t).took && PassesAt(o, t + 1, 60, q)
    requires !c.members[i].leader ==> PassesAt(o, q + 1, 36, q')
    ensures Bring(c, o, t, i) == Act(Brought(c, i), (if c.members[i].leader then q else q') + 1, true)
  {
    StartedGates(c, o, t, i, POLLS, STREAMING_POLLS);
    GatesPass(Started(c, i), o, t + 1, i, POLLS, STREAMING_POLLS, q, q');
    assert Seen(Started(c, i), i, true) == Brought(c, i);
  }

  lemma StartedGates(c: Cluster, o: Oracle, t: nat, i: nat, polls: nat, streaming: nat)
    requires i < |c.members| && !o(t).lost && o(t).took && polls == POLLS && streaming == STREAMING_POLLS
    ensures Bring(c, o, t, i) == Gates(Started(c, i), o, t + 1, i, polls, streaming)
  {}

  lemma {:induction false} GatesPass(c: Cluster, o: Oracle, t: nat, i: nat, polls: nat, streaming: nat, q: nat, q': nat)
    requires i < |c.members| && c.members[i].started && PassesAt(o, t, polls, q)
    requires !c.members[i].leader ==> PassesAt(o, q + 1, streaming, q')
    ensures Gates(c, o, t, i, polls, streaming) ==
            Act(Seen(c, i, true), (if c.members[i].leader then q else q') + 1, true)
  {
    WaitPasses(c, o, t, i, false, polls, q);
    if !c.members[i].leader { WaitPasses(Seen(c, i, false), o, q + 1, i, true, streaming, q'); }
  }

  /** A start that takes no effect leaves a member that does not run as it is, and the run fails there. */
  lemma {:induction false} StartIsNeeded(c: Cluster, o: Oracle, t: nat, i: nat)
    requires i < |c.members| && !c.members[i].started && !o(t).took
    ensures !Bring(c, o, t, i).ok && Bring(c, o, t, i).c == c
  { if !o(t).lost { NotRunning(c, o, t + 1, i, false, t + 1 + POLLS); } }

  lemma {:induction false} NotRunning(c: Cluster, o: Oracle, t: nat, i: nat, last: bool, until: nat)
    requires i < |c.members| && !c.members[i].started
    ensures !Wait(c, o, t, i, last, until).ok && Wait(c, o, t, i, last, until).c == c
    decreases until - t
  { if t < until { NotRunning(c, o, t + 1, i, last, until); } }

  /** A replica whose role shows but which never streams fails the run. */
  lemma {:induction false} StreamingIsNeeded(c: Cluster, o: Oracle, t: nat, i: nat, q: nat, polls: nat, streaming: nat)
    requires i < |c.members| && !c.members[i].leader && !o(t).lost && o(t).took
    requires polls == POLLS && streaming == STREAMING_POLLS && PassesAt(o, t + 1, polls, q) && NeverAfter(o, q)
    ensures !Bring(c, o, t, i).ok
  {
    StartedGates(c, o, t, i, polls, streaming);
    StreamingGate(Started(c, i), o, t + 1, i, polls, streaming, q);
  }

  ghost predicate NeverAfter(o: Oracle, q: nat) { forall p :: q < p ==> !o(p).passes }

  lemma {:induction false} StreamingGate(c: Cluster, o: Oracle, t: nat, i: nat, polls: nat, streaming: nat, q: nat)
    requires i < |c.members| && !c.members[i].leader && c.members[i].started && PassesAt(o, t, polls, q)
    requires NeverAfter(o, q)
    ensures !Gates(c, o, t, i, polls, streaming).ok
  {
    WaitPasses(c, o, t, i, false, polls, q);
    var until := q + 1 + streaming;
    if Wait(c, o, q + 1, i, true, until).ok {
      var p := WaitPassesOnlyThen(c, o, q + 1, i, true, until);
      assert false;
    }
  }

  /** Every start takes effect, and every gate passes within its budget. */
  ghost predicate AllGoesWell(o: Oracle) { forall t: nat :: !o(t).lost && o(t).took && Passes(o, t, 36) }

  lemma PassesSoon(o: Oracle, t: nat) returns (q: nat)
    requires AllGoesWell(o)
    ensures PassesAt(o, t, 36, q) && PassesAt(o, t, 60, q)
  {
    assert Passes(o, t, 36);
    q :| PassesAt(o, t, 36, q);
  }

  lemma {:induction false} BringReturns(c: Cluster, o: Oracle, t: nat, i: nat)
    requires i < |c.members| && AllGoesWell(o)
    ensures Bring(c, o, t, i).ok && Bring(c, o, t, i).c == Brought(c, i)
  {
    var q := PassesSoon(o, t + 1);
    var q' := PassesSoon(o, q + 1);
    BringSucceeds(c, o, t, i, q, q');
  }

  ghost predicate AllBrought(o: Oracle) {
    forall c: Cluster, t: nat, i: nat :: i < |c.members| ==>
      Bring(c, o, t, i).ok && Bring(c, o, t, i).c == Brought(c, i)
  }

  lemma {:induction false} AllReturn(o: Oracle)
    requires AllGoesWell(o)
    ensures AllBrought(o)
  {
    forall c: Cluster, t: nat, i: nat | i < |c.members|
      ensures Bring(c, o, t, i).ok && Bring(c, o, t, i).c == Brought(c, i)
    { BringReturns(c, o, t, i); }
  }

  ghost predicate UpFrom(c: Cluster, c': Cluster, i: nat) {
    && |c'.members| == |c.members| && c'.promoted == c.promoted
    && forall k :: 0 <= k < |c.members| ==>
         c'.members[k] == if k < i || c.members[k].leader then c.members[k]
                          else c.members[k].(started := true, joined := true)
  }

  lemma FollowerUp(c: Cluster, b: Cluster, r: Cluster, i: nat)
    requires i < |c.members| && !c.members[i].leader && b == Brought(c, i) && UpFrom(b, r, i + 1)
    ensures UpFrom(c, r, i)
  {}

  lemma {:induction false} FollowersReturn(c: Cluster, o: Oracle, t: nat, i: nat)
    requires i <= |c.members| && AllBrought(o)
    ensures Followers(c, o, t, i).ok && UpFrom(c, Followers(c, o, t, i).c, i)
    decreases |c.members| - i
  {
    if i < |c.members| {
      if c.members[i].leader {
        FollowersReturn(c, o, t, i + 1);
      } else {
        var b := Bring(c, o, t, i);
        FollowersReturn(b.c, o, b.t, i + 1);
        FollowerUp(c, b.c, Followers(b.c, o, b.t, i + 1).c, i);
      }
    }
  }

  lemma ApplyUnfolds(c: Cluster, o: Oracle, t: nat, l: nat, b: Act)
    requires l == Leader(c.members) < |c.members| && b == Bring(c, o, t, l) && b.ok
    ensures Apply(c, o, t) == Followers(b.c, o, b.t, 0)
  {}

  /** Then a run returns, from whatever cluster with a leader: the leader started and promoted, and every
      replica started and streaming. */
  lemma {:induction false} ApplyReturns(c: Cluster, o: Oracle, t: nat, l: nat, a: Act)
    requires AllGoesWell(o) && l == Leader(c.members) < |c.members| && a == Apply(c, o, t)
    ensures a.ok && |a.c.members| == |c.members| && a.c.promoted && a.c.members[l].started
    ensures forall k :: 0 <= k < |c.members| && !c.members[k].leader ==>
              a.c.members[k].started && a.c.members[k].joined
  {
    AllReturn(o);
    var b := Bring(c, o, t, l);
    ApplyUnfolds(c, o, t, l, b);
    FollowersReturn(b.c, o, b.t, 0);
  }
}
