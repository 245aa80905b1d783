/** The backup firewall script: an iptables chain edited in place by `-D` of every tagged rule and
    `-I ... 1` of the current set, and what the chain it leaves decides. */
module Firewall {
  import opened StateFile

  // ------------------------------------------------------------------ networks

  function Pow2(n: nat): (p: nat)
    ensures p > 0
  { if n == 0 then 1 else 2 * Pow2(n - 1) }

  /** A network in the prefix notation of section 3.1 of RFC 4632; host bits may be set. */
  datatype Cidr = Cidr(base: nat, len: nat)

  predicate Covers(c: Cidr, addr: nat)
    requires c.len <= 32
  { addr / Pow2(32 - c.len) == c.base / Pow2(32 - c.len) }

  /** Equal prefixes mean: inside the block of 2^(32-len) addresses that starts at the base with its
      host bits cleared. */
  lemma CoversIsABlock(c: Cidr, addr: nat)
    requires c.len <= 32
    ensures var size := Pow2(32 - c.len); var first := c.base / size * size;
            Covers(c, addr) <==> first <= addr < first + size
  {
    Block(c.base, addr, Pow2(32 - c.len));
  }

  lemma Block(base: nat, addr: nat, size: nat)
    requires size > 0
    ensures addr / size == base / size <==> base / size * size <= addr < base / size * size + size
  {
    var q, r := addr / size, addr % size;
    var first := base / size;
    assert addr == q * size + r && 0 <= r < size;
    if q < first { LessBlock(q, first, size); }
    if q > first { LessBlock(first, q, size); }
  }

  lemma {:induction false} LessBlock(a: nat, b: nat, size: nat)
    requires a < b
    ensures a * size + size <= b * size
    decreases b
  {
    if b == a + 1 {
      assert b * size == a * size + size;
    } else {
      LessBlock(a, b - 1, size);
      assert b * size == (b - 1) * size + size;
    }
  }

  // ------------------------------------------------------------------ the chain

  datatype Verdict = Accept | Drop | Back
  /** Rules carrying the akropolis comment, and everybody else's. */
  datatype Rule = Tagged(src: Option<Cidr>, port: nat, verdict: Verdict) | Other(text: string, verdict: Verdict)
  datatype Packet = Packet(tcp: bool, src: nat, dport: nat)

  /** What the rules of others match is not ours to know. */
  type Foreign = (string, Packet) -> bool

  predicate Matches(r: Rule, p: Packet, foreign: Foreign) {
    match r
    case Tagged(src, port, _) =>
      p.tcp && p.dport == port && (src.Some? ==> src.value.len <= 32 && Covers(src.value, p.src))
    case Other(text, _) => foreign(text, p)
  }

  /** First match decides; past the end the packet goes on as after an explicit return. */
  function Decide(rules: seq<Rule>, p: Packet, foreign: Foreign): Verdict {
    if rules == [] then Back
    else if Matches(rules[0], p, foreign) then rules[0].verdict
    else Decide(rules[1..], p, foreign)
  }

  function TaggedOf(rules: seq<Rule>): (ts: seq<Rule>)
    ensures forall k :: 0 <= k < |ts| ==> ts[k].Tagged?
  {
    if rules == [] then []
    else if rules[0].Tagged? then [rules[0]] + TaggedOf(rules[1..])
    else TaggedOf(rules[1..])
  }

  function UntaggedOf(rules: seq<Rule>): seq<Rule> {
    if rules == [] then []
    else if rules[0].Tagged? then UntaggedOf(rules[1..])
    else [rules[0]] + UntaggedOf(rules[1..])
  }

  /** `iptables -D`: the first rule of exactly this specification goes. */
  function WithoutFirst(rules: seq<Rule>, r: Rule): seq<Rule> {
    if rules == [] then []
    else if rules[0] == r then rules[1..]
    else [rules[0]] + WithoutFirst(rules[1..], r)
  }

  function Accepts(ips: seq<Cidr>, port: nat): (rs: seq<Rule>)
    ensures |rs| == |ips|
    ensures forall k :: 0 <= k < |ips| ==> rs[k] == Tagged(Some(ips[k]), port, Verdict.Accept)
  {
    if ips == [] then [] else [Tagged(Some(ips[0]), port, Verdict.Accept)] + Accepts(ips[1..], port)
  }

  function Wanted(ips: seq<Cidr>, port: nat): seq<Rule> {
    if ips == [] then [] else Accepts(ips, port) + [Tagged(None, port, Verdict.Drop)]
  }

  /** The rules without the first n tagged ones. */
  function DropTagged(rules: seq<Rule>, n: nat): seq<Rule> {
    if n == 0 || rules == [] then rules
    else if rules[0].Tagged? then DropTagged(rules[1..], n - 1)
    else [rules[0]] + DropTagged(rules[1..], n)
  }

  /** How a run of the script goes: how many of the tagged rules its listing yields, and how many iptables
      commands succeed before one fails, or the script is killed.  It stops at the first that fails. */
  datatype Script = Script(listed: nat, commands: nat)

  function Min(a: nat, b: nat): nat { if a < b then a else b }

  /** What it sets out to delete, and gets to. */
  function Listing(rules: seq<Rule>, sc: Script): nat { Min(sc.listed, |TaggedOf(rules)|) }
  function Deletes(rules: seq<Rule>, sc: Script): nat { Min(Listing(rules, sc), sc.commands) }

  /** With a list to put in, it gets as far as the drop; and then puts in so many accepts. */
  predicate DropsIn(rules: seq<Rule>, sc: Script) { sc.commands > Listing(rules, sc) }
  function AcceptsIn(rules: seq<Rule>, ips: seq<Cidr>, sc: Script): (k: nat)
    requires DropsIn(rules, sc)
    ensures k <= |ips|
  { Min(sc.commands - Listing(rules, sc) - 1, |ips|) }

  function LastOf(ips: seq<Cidr>, k: nat): seq<Cidr>
    requires k <= |ips|
  { ips[|ips| - k..] }

  function Inserted(rules: seq<Rule>, ips: seq<Cidr>, port: nat, commands: nat): seq<Rule> {
    if ips == [] || commands == 0 then rules
    else Accepts(LastOf(ips, Min(commands - 1, |ips|)), port) + [Tagged(None, port, Verdict.Drop)] + rules
  }

  /** The chain such a run leaves. */
  function Scripted(rules: seq<Rule>, ips: seq<Cidr>, port: nat, sc: Script): seq<Rule> {
    var rest := DropTagged(rules, Deletes(rules, sc));
    if DropsIn(rules, sc) then Inserted(rest, ips, port, sc.commands - Listing(rules, sc)) else rest
  }

  class Chain {
    var rules: seq<Rule>

    constructor (rules: seq<Rule>)
      ensures this.rules == rules
    { this.rules := rules; }

    method Delete(r: Rule)
      modifies this
      ensures rules == WithoutFirst(old(rules), r)
    {
      var i := 0;
      while i < |rules| && rules[i] != r
        invariant 0 <= i <= |rules| && rules == old(rules)
        invariant WithoutFirst(rules, r) == rules[..i] + WithoutFirst(rules[i..], r)
      {
        PassOver(rules, r, i);
        i := i + 1;
      }
      if i < |rules| {
        assert rules[i..][1..] == rules[i + 1..];
        rules := rules[..i] + rules[i + 1..];
      }
    }

    method InsertHead(r: Rule)
      modifies this
      ensures rules == [r] + old(rules)
    { rules := [r] + rules; }

    /** The tagged rules are listed once, then deleted one by one by their specification. */
    method Wipe(sc: Script) returns (done: nat)
      modifies this
      ensures done == Deletes(old(rules), sc)
      ensures rules == DropTagged(old(rules), done)
    {
      var listed := TaggedOf(rules)[..Listing(rules, sc)];
      done := 0;
      while done < |listed| && done < sc.commands
        invariant 0 <= done <= |listed| && done <= sc.commands
        invariant rules == DropTagged(old(rules), done)
      {
        DropOneMore(old(rules), done);
        Delete(listed[done]);
        done := done + 1;
      }
    }

    /** The set goes in head first, in reverse order, as far as `commands` go. */
    method InsertAll(ips: seq<Cidr>, port: nat, commands: nat)
      modifies this
      ensures rules == Inserted(old(rules), ips, port, commands)
    {
      if ips == [] || commands == 0 { return; }
      InsertHead(Tagged(None, port, Verdict.Drop));
      var n := Min(commands - 1, |ips|);
      var k := 0;
      assert LastOf(ips, 0) == [];
      while k < n
        invariant 0 <= k <= n <= |ips|
        invariant rules == Accepts(LastOf(ips, k), port) + [Tagged(None, port, Verdict.Drop)] + old(rules)
      {
        assert LastOf(ips, k + 1)[1..] == LastOf(ips, k) && LastOf(ips, k + 1)[0] == ips[|ips| - 1 - k];
        InsertHead(Tagged(Some(ips[|ips| - 1 - k]), port, Verdict.Accept));
        k := k + 1;
      }
    }

    /** Delete every tagged rule as listed at the start, then insert the current set. */
    method Install(ips: seq<Cidr>, port: nat, sc: Script)
      modifies this
      ensures rules == Scripted(old(rules), ips, port, sc)
    {
      ghost var was := rules;
      var total := Listing(rules, sc);
      var done := Wipe(sc);
      if done < total { return; }
      InsertAll(ips, port, sc.commands - done);
    }
  }

  lemma PassOver(rules: seq<Rule>, r: Rule, i: nat)
    requires i < |rules| && rules[i] != r
    ensures rules[..i] + WithoutFirst(rules[i..], r) == rules[..i + 1] + WithoutFirst(rules[i + 1..], r)
  {
    var rest := WithoutFirst(rules[i + 1..], r);
    assert rules[i..][1..] == rules[i + 1..];
    assert WithoutFirst(rules[i..], r) == [rules[i]] + rest;
    assert rules[..i + 1] == rules[..i] + [rules[i]];
    assert rules[..i] + ([rules[i]] + rest) == rules[..i] + [rules[i]] + rest;
  }

  /** Deleting the specification of the first tagged rule removes that rule. */
  lemma {:induction false} DeleteFirstTagged(rules: seq<Rule>)
    requires TaggedOf(rules) != []
    ensures WithoutFirst(rules, TaggedOf(rules)[0]) == DropTagged(rules, 1)
    ensures TaggedOf(DropTagged(rules, 1)) == TaggedOf(rules)[1..]
  {
    if rules[0].Tagged? {
      assert TaggedOf(rules)[1..] == TaggedOf(rules[1..]);
      assert DropTagged(rules[1..], 0) == rules[1..];
    } else {
      DeleteFirstTagged(rules[1..]);
      assert DropTagged(rules, 1)[1..] == DropTagged(rules[1..], 1);
    }
  }

  lemma {:induction false} DropThenOne(rules: seq<Rule>, n: nat)
    ensures DropTagged(DropTagged(rules, n), 1) == DropTagged(rules, n + 1)
  {
    if n > 0 && rules != [] {
      if rules[0].Tagged? {
        DropThenOne(rules[1..], n - 1);
      } else {
        DropThenOne(rules[1..], n);
        assert DropTagged(rules, n)[1..] == DropTagged(rules[1..], n);
      }
    }
  }

  lemma {:induction false} TaggedLeft(rules: seq<Rule>, n: nat)
    requires n <= |TaggedOf(rules)|
    ensures TaggedOf(DropTagged(rules, n)) == TaggedOf(rules)[n..]
    decreases n
  {
    if n > 0 {
      TaggedLeft(rules, n - 1);
      DropThenOne(rules, n - 1);
      DeleteFirstTagged(DropTagged(rules, n - 1));
    }
  }

  lemma DropOneMore(rules: seq<Rule>, n: nat)
    requires n < |TaggedOf(rules)|
    ensures WithoutFirst(DropTagged(rules, n), TaggedOf(rules)[n]) == DropTagged(rules, n + 1)
  {
    TaggedLeft(rules, n);
    DeleteFirstTagged(DropTagged(rules, n));
    DropThenOne(rules, n);
  }

  lemma {:induction false} UntaggedLeft(rules: seq<Rule>, n: nat)
    ensures UntaggedOf(DropTagged(rules, n)) == UntaggedOf(rules)
    ensures n >= |TaggedOf(rules)| ==> DropTagged(rules, n) == UntaggedOf(rules)
  {
    if n == 0 { if TaggedOf(rules) == [] { NothingTagged(rules); } }
    else if rules != [] { UntaggedLeft(rules[1..], if rules[0].Tagged? then n - 1 else n); }
  }

  lemma {:induction false} NothingTagged(rules: seq<Rule>)
    requires TaggedOf(rules) == []
    ensures UntaggedOf(rules) == rules
  {
    if rules != [] { NothingTagged(rules[1..]); }
  }

  // ------------------------------------------------------------------ convergence

  function Installed(rules: seq<Rule>, ips: seq<Cidr>, port: nat): seq<Rule> {
    Wanted(ips, port) + UntaggedOf(rules)
  }

  lemma {:induction false} UntaggedAppend(a: seq<Rule>, b: seq<Rule>)
    ensures UntaggedOf(a + b) == UntaggedOf(a) + UntaggedOf(b)
  {
    if a == [] { assert a + b == b; }
    else {
      assert (a + b)[1..] == a[1..] + b;
      UntaggedAppend(a[1..], b);
    }
  }

  lemma {:induction false} AllTagged(rules: seq<Rule>)
    requires forall k :: 0 <= k < |rules| ==> rules[k].Tagged?
    ensures UntaggedOf(rules) == []
  { if rules != [] { AllTagged(rules[1..]); } }

  lemma {:induction false} NoneTagged(rules: seq<Rule>)
    ensures UntaggedOf(UntaggedOf(rules)) == UntaggedOf(rules)
  { if rules != [] { NoneTagged(rules[1..]); } }

  /** Installing leaves the other people's rules as they are. */
  lemma InstalledUntagged(rules: seq<Rule>, ips: seq<Cidr>, port: nat)
    ensures UntaggedOf(Installed(rules, ips, port)) == UntaggedOf(rules)
  {
    UntaggedAppend(Wanted(ips, port), UntaggedOf(rules));
    AllTagged(Wanted(ips, port));
    NoneTagged(rules);
  }

  /** The listing is complete and every command succeeds. */
  predicate RunsThrough(rules: seq<Rule>, ips: seq<Cidr>, sc: Script) {
    var n := |TaggedOf(rules)|;
    sc.listed >= n && sc.commands >= n + (if ips == [] then 0 else 1 + |ips|)
  }

  lemma ScriptRunsThrough(rules: seq<Rule>, ips: seq<Cidr>, port: nat, sc: Script)
    requires RunsThrough(rules, ips, sc)
    ensures Scripted(rules, ips, port, sc) == Installed(rules, ips, port)
  {
    UntaggedLeft(rules, |TaggedOf(rules)|);
    assert LastOf(ips, |ips|) == ips;
    if ips == [] { assert Installed(rules, ips, port) == UntaggedOf(rules); }
  }

  lemma {:induction false} ScriptedUntagged(rules: seq<Rule>, ips: seq<Cidr>, port: nat, sc: Script)
    ensures UntaggedOf(Scripted(rules, ips, port, sc)) == UntaggedOf(rules)
  {
    var rest := DropTagged(rules, Deletes(rules, sc));
    UntaggedLeft(rules, Deletes(rules, sc));
    if ips != [] && DropsIn(rules, sc) {
      var head := Accepts(LastOf(ips, AcceptsIn(rules, ips, sc)), port) + [Tagged(None, port, Verdict.Drop)];
      assert Scripted(rules, ips, port, sc) == head + rest;
      UntaggedAppend(head, rest);
      AllTagged(head);
    }
  }

  /** Whatever earlier runs did and wherever they stopped, a run that goes through leaves what its own list
      says; and running it again changes nothing. */
  lemma InstallForgets(rules: seq<Rule>, before: seq<Cidr>, ips: seq<Cidr>, port: nat, port': nat, sc: Script)
    ensures Installed(Scripted(rules, before, port', sc), ips, port) == Installed(rules, ips, port)
    ensures Installed(Installed(rules, ips, port), ips, port) == Installed(rules, ips, port)
  {
    ScriptedUntagged(rules, before, port', sc);
    InstalledUntagged(rules, ips, port);
  }

  // ------------------------------------------------------------------ meaning

  predicate Lists(c: Cidr, src: nat) { c.len <= 32 && Covers(c, src) }

  predicate Listed(ips: seq<Cidr>, src: nat) { exists k :: 0 <= k < |ips| && Lists(ips[k], src) }

  lemma {:induction false} ListedStep(ips: seq<Cidr>, src: nat)
    requires ips != []
    ensures Listed(ips, src) <==> Lists(ips[0], src) || Listed(ips[1..], src)
  {
    if Listed(ips[1..], src) {
      var k :| 0 <= k < |ips[1..]| && Lists(ips[1..][k], src);
      assert ips[k + 1] == ips[1..][k];
    }
    if Listed(ips, src) && !Lists(ips[0], src) {
      var k :| 0 <= k < |ips| && Lists(ips[k], src);
      assert ips[1..][k - 1] == ips[k];
    }
  }

  lemma {:induction false} DecideAccepts(ips: seq<Cidr>, port: nat, rest: seq<Rule>, p: Packet, foreign: Foreign)
    ensures Decide(Accepts(ips, port) + rest, p, foreign) ==
              if p.tcp && p.dport == port && Listed(ips, p.src) then Verdict.Accept
              else Decide(rest, p, foreign)
  {
    if ips == [] {
      assert Accepts(ips, port) + rest == rest;
    } else {
      var all := Accepts(ips, port) + rest;
      assert all[1..] == Accepts(ips[1..], port) + rest;
      DecideAccepts(ips[1..], port, rest, p, foreign);
      ListedStep(ips, p.src);
    }
  }

  /** With a list in force, TCP to the port is accepted from exactly the listed networks and dropped
      from everywhere else; every other packet, and every packet when the list is empty, is decided
      as by the other people's rules alone. */
  lemma InstalledMeaning(rules: seq<Rule>, ips: seq<Cidr>, port: nat, p: Packet, foreign: Foreign)
    ensures Decide(Installed(rules, ips, port), p, foreign) ==
      if ips == [] || !p.tcp || p.dport != port then Decide(UntaggedOf(rules), p, foreign)
      else if Listed(ips, p.src) then Verdict.Accept else Verdict.Drop
  {
    if ips == [] {
      assert Installed(rules, ips, port) == UntaggedOf(rules);
    } else {
      var rest := [Tagged(None, port, Verdict.Drop)] + UntaggedOf(rules);
      assert Installed(rules, ips, port) == Accepts(ips, port) + rest;
      DecideAccepts(ips, port, rest, p, foreign);
      assert rest[1..] == UntaggedOf(rules);
    }
  }

  /** Wherever the script stops: once it has got to the drop, TCP to the port is accepted from exactly the
      networks of the list already put in, which are the last ones, and dropped from everywhere else; until
      then, and for every other packet, the rules it has not deleted decide. */
  lemma ScriptedMeaning(rules: seq<Rule>, ips: seq<Cidr>, port: nat, p: Packet, foreign: Foreign, sc: Script)
    ensures Decide(Scripted(rules, ips, port, sc), p, foreign) ==
      if ips == [] || !DropsIn(rules, sc) || !p.tcp || p.dport != port
      then Decide(DropTagged(rules, Deletes(rules, sc)), p, foreign)
      else if Listed(LastOf(ips, AcceptsIn(rules, ips, sc)), p.src) then Verdict.Accept else Verdict.Drop
  {
    if ips != [] && DropsIn(rules, sc) {
      var rest := DropTagged(rules, Deletes(rules, sc));
      var tail := [Tagged(None, port, Verdict.Drop)] + rest;
      var last := LastOf(ips, AcceptsIn(rules, ips, sc));
      assert Scripted(rules, ips, port, sc) == Accepts(last, port) + tail;
      DecideAccepts(last, port, tail, p, foreign);
      assert tail[1..] == rest;
    }
  }
}
