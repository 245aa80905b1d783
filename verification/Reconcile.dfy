/** ldap-reconcile: read every LDAP source, ask which drifted accounts to repoint, swap the stored
    identifiers that have not changed since, and re-read; while Authentik's own sync may change any
    identifier between those steps, and inside the swap between its read and its save. */
module Reconcile {
  import opened StateFile

  datatype Row = Row(source: string, username: string, identifier: string)
  datatype LdapEntry = LdapEntry(uids: seq<string>, uniqs: seq<string>)
  /** A source whose search raised has no entries to compare with. */
  datatype Source = Source(slug: string, entries: Option<seq<LdapEntry>>)

  datatype Status = Same | Different | NotFound
  datatype Drift = Drift(source: string, username: string, stored: string, live: Option<string>, status: Status)
  datatype Outcome = Updated | SkippedNoRow | SkippedChanged

  // ------------------------------------------------------------------ the dry run

  predicate Usable(e: LdapEntry) { e.uids != [] && e.uniqs != [] }

  /** Later entries of one uid replace earlier ones. */
  function Live(entries: seq<LdapEntry>): map<string, string> {
    if entries == [] then map[]
    else
      var m := Live(entries[..|entries| - 1]);
      var e := entries[|entries| - 1];
      if Usable(e) then m[e.uids[0] := e.uniqs[0]] else m
  }

  function Compare(r: Row, live: map<string, string>): Drift {
    if r.username !in live then Drift(r.source, r.username, r.identifier, None, NotFound)
    else Drift(r.source, r.username, r.identifier, Some(live[r.username]),
               if live[r.username] == r.identifier then Same else Different)
  }

  /** No names given means all of them. */
  predicate Asked(r: Row, slug: string, names: seq<string>) {
    r.source == slug && (names == [] || r.username in names)
  }

  function SourceRows(rows: seq<Row>, slug: string, live: map<string, string>, names: seq<string>): seq<Drift> {
    if rows == [] then []
    else (if Asked(rows[0], slug, names) then [Compare(rows[0], live)] else [])
         + SourceRows(rows[1..], slug, live, names)
  }

  lemma SourceRowsStep(rows: seq<Row>, slug: string, live: map<string, string>, names: seq<string>, j: nat)
    requires j < |rows|
    ensures SourceRows(rows[j..], slug, live, names) ==
              if Asked(rows[j], slug, names)
              then [Compare(rows[j], live)] + SourceRows(rows[j + 1..], slug, live, names)
              else SourceRows(rows[j + 1..], slug, live, names)
  { assert rows[j..][1..] == rows[j + 1..]; }

  lemma AppendOne(a: seq<Drift>, d: Drift, b: seq<Drift>)
    ensures a + ([d] + b) == a + [d] + b
  {}

  /** Sources whose search raised contribute nothing. */
  function DryRun(rows: seq<Row>, sources: seq<Source>, names: seq<string>): seq<Drift> {
    if sources == [] then []
    else (if sources[0].entries.Some?
          then SourceRows(rows, sources[0].slug, Live(sources[0].entries.value), names) else [])
         + DryRun(rows, sources[1..], names)
  }

  function Selected(sources: seq<Source>, slug: Option<string>): seq<Source> {
    if slug.None? || sources == [] then sources
    else if sources[0].slug == slug.value then [sources[0]] + Selected(sources[1..], slug)
    else Selected(sources[1..], slug)
  }

  // ------------------------------------------------------------------ the swap

  datatype Change = Change(source: string, username: string, was: string, new_: string)

  /** Identifiers somebody else sets, by row. */
  type Edits = map<nat, string>

  function Meddled(rows: seq<Row>, e: Edits): (rs: seq<Row>)
    ensures |rs| == |rows|
    ensures forall k :: 0 <= k < |rows| ==>
              rs[k] == if k in e then rows[k].(identifier := e[k]) else rows[k]
  {
    seq(|rows|, k requires 0 <= k < |rows| => if k in e then rows[k].(identifier := e[k]) else rows[k])
  }

  predicate Keyed(r: Row, source: string, username: string) { r.source == source && r.username == username }

  /** `filter(...).first()`; |rows| if there is none. */
  function Find(rows: seq<Row>, source: string, username: string): (i: nat)
    ensures i <= |rows|
    ensures i < |rows| ==> Keyed(rows[i], source, username)
    ensures forall k :: 0 <= k < i ==> !Keyed(rows[k], source, username)
  {
    if rows == [] then 0
    else if Keyed(rows[0], source, username) then 0
    else 1 + Find(rows[1..], source, username)
  }

  /** What became of one change: `read` is what the row held when it was compared, `over` what it
      held when it was written. */
  datatype Swap = Swap(outcome: Outcome, row: nat, read: string, over: string)
  datatype Swapped = Swapped(rows: seq<Row>, swap: Swap)

  function SwapOne(rows: seq<Row>, c: Change, inside: Edits): Swapped {
    var i := Find(rows, c.source, c.username);
    var rows' := Meddled(rows, inside);
    if i == |rows| then Swapped(rows', Swap(SkippedNoRow, i, "", ""))
    else if rows[i].identifier != c.was then Swapped(rows', Swap(SkippedChanged, i, rows[i].identifier, ""))
    else Swapped(rows'[i := rows'[i].(identifier := c.new_)],
                 Swap(Updated, i, rows[i].identifier, rows'[i].identifier))
  }

  datatype Applied = Applied(rows: seq<Row>, swaps: seq<Swap>)

  /** `before(k)` happens before the k-th change is looked up, `inside(k)` between its read and its save. */
  function ApplyAll(rows: seq<Row>, cs: seq<Change>, k: nat, before: nat -> Edits, inside: nat -> Edits): Applied
    requires k <= |cs|
    decreases |cs| - k
  {
    if k == |cs| then Applied(rows, [])
    else
      var s := SwapOne(Meddled(rows, before(k)), cs[k], inside(k));
      var rest := ApplyAll(s.rows, cs, k + 1, before, inside);
      Applied(rest.rows, [s.swap] + rest.swaps)
  }

  /** The whole swap is the part done so far, then `rest`. */
  ghost predicate Continues(all: Applied, done: seq<Swap>, rest: Applied) {
    all == Applied(rest.rows, done + rest.swaps)
  }

  lemma ContinuesStep(all: Applied, done: seq<Swap>, rows: seq<Row>, cs: seq<Change>, k: nat,
                      before: nat -> Edits, inside: nat -> Edits, s: Swapped)
    requires k < |cs| && Continues(all, done, ApplyAll(rows, cs, k, before, inside))
    requires s == SwapOne(Meddled(rows, before(k)), cs[k], inside(k))
    ensures Continues(all, done + [s.swap], ApplyAll(s.rows, cs, k + 1, before, inside))
  {
    var rest := ApplyAll(s.rows, cs, k + 1, before, inside);
    assert done + ([s.swap] + rest.swaps) == done + [s.swap] + rest.swaps;
  }

  // ------------------------------------------------------------------ the scripts as they run

  class Connections {
    var rows: seq<Row>

    constructor (rows: seq<Row>)
      ensures this.rows == rows
    { this.rows := rows; }

    method Sync(e: Edits)
      modifies this
      ensures rows == Meddled(old(rows), e)
    { rows := Meddled(rows, e); }

    method ApplyOne(c: Change, before: Edits, inside: Edits) returns (swap: Swap)
      modifies this
      ensures Swapped(rows, swap) == SwapOne(Meddled(old(rows), before), c, inside)
    {
      Sync(before);
      var i := Find(rows, c.source, c.username);
      if i == |rows| {
        Sync(inside);
        return Swap(SkippedNoRow, i, "", "");
      }
      var read := rows[i].identifier;
      Sync(inside);
      if read != c.was { return Swap(SkippedChanged, i, read, ""); }
      swap := Swap(Updated, i, read, rows[i].identifier);
      rows := rows[i := rows[i].(identifier := c.new_)];
    }

    method Apply(cs: seq<Change>, before: nat -> Edits, inside: nat -> Edits) returns (swaps: seq<Swap>)
      modifies this
      ensures Applied(rows, swaps) == ApplyAll(old(rows), cs, 0, before, inside)
    {
      ghost var all := ApplyAll(rows, cs, 0, before, inside);
      swaps := [];
      var k := 0;
      while k < |cs|
        invariant 0 <= k <= |cs|
        invariant Continues(all, swaps, ApplyAll(rows, cs, k, before, inside))
      {
        ghost var was := rows;
        var swap := ApplyOne(cs[k], before(k), inside(k));
        ContinuesStep(all, swaps, was, cs, k, before, inside, Swapped(rows, swap));
        swaps := swaps + [swap];
        k := k + 1;
      }
    }

    method ReadLive(entries: seq<LdapEntry>) returns (live: map<string, string>)
      ensures live == Live(entries)
    {
      live := map[];
      var i := 0;
      while i < |entries|
        invariant 0 <= i <= |entries| && live == Live(entries[..i])
      {
        var e := entries[i];
        assert entries[..i + 1][..i] == entries[..i];
        if Usable(e) { live := live[e.uids[0] := e.uniqs[0]]; }
        i := i + 1;
      }
      assert entries[..|entries|] == entries;
    }

    method ReadSource(slug: string, live: map<string, string>, names: seq<string>) returns (drift: seq<Drift>)
      ensures drift == SourceRows(rows, slug, live, names)
    {
      drift := [];
      var j := 0;
      while j < |rows|
        invariant 0 <= j <= |rows|
        invariant drift + SourceRows(rows[j..], slug, live, names) == SourceRows(rows, slug, live, names)
      {
        SourceRowsStep(rows, slug, live, names, j);
        if Asked(rows[j], slug, names) {
          AppendOne(drift, Compare(rows[j], live), SourceRows(rows[j + 1..], slug, live, names));
          drift := drift + [Compare(rows[j], live)];
        }
        j := j + 1;
      }
    }

    method CollectDrift(sources: seq<Source>, names: seq<string>) returns (drift: seq<Drift>)
      ensures drift == DryRun(rows, sources, names)
    {
      drift := [];
      var i := 0;
      while i < |sources|
        invariant 0 <= i <= |sources|
        invariant drift + DryRun(rows, sources[i..], names) == DryRun(rows, sources, names)
      {
        assert sources[i..][1..] == sources[i + 1..] && sources[i..][0] == sources[i];
        ghost var rest := DryRun(rows, sources[i + 1..], names);
        if sources[i].entries.Some? {
          var live := ReadLive(sources[i].entries.value);
          var found := ReadSource(sources[i].slug, live, names);
          assert DryRun(rows, sources[i..], names) == found + rest;
          assert drift + (found + rest) == drift + found + rest;
          drift := drift + found;
        } else {
          assert DryRun(rows, sources[i..], names) == [] + rest == rest;
        }
        i := i + 1;
      }
    }

    /** The command: `answers(k)` is the reply for the k-th drifted row.  Whatever the sync does,
        it does before the swaps, inside them, or (`after`) before the re-read. */
    method Run(sources: seq<Source>, slug: Option<string>, answers: nat -> bool,
               before: nat -> Edits, inside: nat -> Edits, after: Edits) returns (code: int)
      modifies this
      ensures (code, rows) == RunSpec(old(rows), sources, slug, answers, before, inside, after)
    {
      var chosen := Selected(sources, slug);
      var drift := CollectDrift(chosen, []);
      if slug.Some? && chosen == [] { return 2; }
      if chosen == [] { return 2; }
      if drift == [] { return 0; }
      var drifted := OnlyDifferent(drift);
      var confirmed := Confirmed(drifted, 0, answers);
      if confirmed == [] { return 0; }
      var swaps := Apply(Changes(confirmed), before, inside);
      Sync(after);
      var again := CollectDrift(chosen, Usernames(confirmed));
      return if AllUpdated(swaps) && AllSame(again) then 0 else 1;
    }
  }

  function OnlyDifferent(ds: seq<Drift>): (r: seq<Drift>)
    ensures forall d :: d in r <==> d in ds && d.status.Different?
  {
    if ds == [] then []
    else if ds[0].status.Different? then [ds[0]] + OnlyDifferent(ds[1..]) else OnlyDifferent(ds[1..])
  }

  /** The rows answered y, in order. */
  function Confirmed(ds: seq<Drift>, k: nat, answers: nat -> bool): (r: seq<Drift>)
    ensures forall d :: d in r ==> d in ds
  {
    if ds == [] then []
    else (if answers(k) then [ds[0]] else []) + Confirmed(ds[1..], k + 1, answers)
  }

  function Changes(ds: seq<Drift>): (cs: seq<Change>)
    ensures |cs| == |ds|
    ensures forall k :: 0 <= k < |ds| ==> cs[k] == ChangeOf(ds[k])
  { if ds == [] then [] else [ChangeOf(ds[0])] + Changes(ds[1..]) }

  function ChangeOf(d: Drift): Change {
    Change(d.source, d.username, d.stored, if d.live.Some? then d.live.value else "")
  }

  function Usernames(ds: seq<Drift>): (ns: seq<string>)
    ensures |ns| == |ds|
    ensures forall k :: 0 <= k < |ds| ==> ns[k] == ds[k].username
  { if ds == [] then [] else [ds[0].username] + Usernames(ds[1..]) }

  predicate AllUpdated(swaps: seq<Swap>) { forall s :: s in swaps ==> s.outcome.Updated? }
  predicate AllSame(ds: seq<Drift>) { forall d :: d in ds ==> d.status.Same? }

  function RunSpec(rows: seq<Row>, sources: seq<Source>, slug: Option<string>, answers: nat -> bool,
                   before: nat -> Edits, inside: nat -> Edits, after: Edits): (int, seq<Row>) {
    var chosen := Selected(sources, slug);
    var drift := DryRun(rows, chosen, []);
    var confirmed := Confirmed(OnlyDifferent(drift), 0, answers);
    if chosen == [] then (2, rows)
    else if confirmed == [] then (0, rows)
    else
      var a := ApplyAll(rows, Changes(confirmed), 0, before, inside);
      var rows' := Meddled(a.rows, after);
      var again := DryRun(rows', chosen, Usernames(confirmed));
      (if AllUpdated(a.swaps) && AllSame(again) then 0 else 1, rows')
  }

  // ------------------------------------------------------------------ under interference

  ghost predicate UniqueKeys(rows: seq<Row>) {
    forall i, j :: 0 <= i < j < |rows| ==>
      rows[i].source != rows[j].source || rows[i].username != rows[j].username
  }

  /** Each change writes at most the one row of its account, and only if that row held, when it was
      read, the value the operator was shown; all others are touched by nobody but the sync.  The
      comparison and the save are two statements: what is overwritten is still that value exactly if
      the sync left the row alone, or at it, in between. */
  lemma {:induction false} SwapIsGuarded(rows: seq<Row>, c: Change, inside: Edits)
    ensures var r := SwapOne(rows, c, inside);
      && |r.rows| == |rows|
      && (forall k :: 0 <= k < |rows| && !(r.swap.outcome.Updated? && k == r.swap.row) ==>
            r.rows[k] == Meddled(rows, inside)[k])
      && (r.swap.outcome.Updated? ==>
            && r.swap.row < |rows| && Keyed(rows[r.swap.row], c.source, c.username)
            && r.swap.read == c.was && r.rows[r.swap.row].identifier == c.new_
            && (r.swap.over == c.was <==> (r.swap.row in inside ==> inside[r.swap.row] == c.was)))
  {}

  /** `swap` is one the operator confirmed: it is for the row of change c's account, and that row
      read as the dry run stored it. */
  predicate Confirming(rows: seq<Row>, swap: Swap, c: Change) {
    swap.outcome.Updated? ==>
      && swap.row < |rows| && swap.read == c.was
      && Keyed(rows[swap.row], c.source, c.username)
  }

  ghost predicate AllConfirming(rows: seq<Row>, swaps: seq<Swap>, cs: seq<Change>, k: nat) {
    && k + |swaps| == |cs|
    && forall m :: 0 <= m < |swaps| ==> Confirming(rows, swaps[m], cs[k + m])
  }

  ghost predicate SameAccounts(a: seq<Row>, b: seq<Row>) {
    |a| == |b| && forall i :: 0 <= i < |a| ==> Keyed(b[i], a[i].source, a[i].username)
  }

  lemma {:induction false} ConfirmingJoin(rows: seq<Row>, mid: seq<Row>, first: Swap, rest: seq<Swap>,
                                          cs: seq<Change>, k: nat)
    requires k < |cs| && SameAccounts(rows, mid) && AllConfirming(mid, rest, cs, k + 1)
    requires Confirming(rows, first, cs[k])
    ensures AllConfirming(rows, [first] + rest, cs, k)
  {
    var all := [first] + rest;
    forall m | 0 <= m < |all| ensures Confirming(rows, all[m], cs[k + m]) {
      if m > 0 { assert all[m] == rest[m - 1] && Confirming(mid, rest[m - 1], cs[k + 1 + (m - 1)]); }
    }
  }

  lemma {:induction false} StepConfirms(rows: seq<Row>, c: Change, before: Edits, inside: Edits, r: Swapped)
    requires r == SwapOne(Meddled(rows, before), c, inside)
    ensures SameAccounts(rows, r.rows) && Confirming(rows, r.swap, c)
  {
    SwapIsGuarded(Meddled(rows, before), c, inside);
  }

  lemma SameAccountsTransitive(a: seq<Row>, b: seq<Row>, c: seq<Row>)
    requires SameAccounts(a, b) && SameAccounts(b, c)
    ensures SameAccounts(a, c)
  {}

  /** Over the whole swap: every change that reports UPDATED was one the operator confirmed, at its
      own position, comparing equal to what the dry run stored; accounts never change. */
  lemma {:induction false} SwapsAreConfirmed(rows: seq<Row>, cs: seq<Change>, k: nat,
                                             before: nat -> Edits, inside: nat -> Edits)
    requires k <= |cs|
    ensures var a := ApplyAll(rows, cs, k, before, inside);
      AllConfirming(rows, a.swaps, cs, k) && SameAccounts(rows, a.rows)
    decreases |cs| - k
  {
    if k < |cs| {
      var s := SwapOne(Meddled(rows, before(k)), cs[k], inside(k));
      StepConfirms(rows, cs[k], before(k), inside(k), s);
      SwapsAreConfirmed(s.rows, cs, k + 1, before, inside);
      var rest := ApplyAll(s.rows, cs, k + 1, before, inside);
      ConfirmingJoin(rows, s.rows, s.swap, rest.swaps, cs, k);
      SameAccountsTransitive(rows, s.rows, rest.rows);
    }
  }

  function Touched(r: Row, e: Edits, i: nat): Row { if i in e then r.(identifier := e[i]) else r }

  /** Row i if nothing but the sync had touched it. */
  function SyncOnly(r: Row, i: nat, k: nat, n: nat, before: nat -> Edits, inside: nat -> Edits): Row
    requires k <= n
    decreases n - k
  { if k == n then r else SyncOnly(Touched(Touched(r, before(k), i), inside(k), i), i, k + 1, n, before, inside) }

  ghost predicate NotFor(r: Row, cs: seq<Change>, k: nat) {
    forall m :: k <= m < |cs| ==> !Keyed(r, cs[m].source, cs[m].username)
  }

  lemma {:induction false} FramedStep(rows: seq<Row>, c: Change, before: Edits, inside: Edits, i: nat, s: Swapped)
    requires i < |rows| && !Keyed(rows[i], c.source, c.username)
    requires s == SwapOne(Meddled(rows, before), c, inside)
    ensures |s.rows| == |rows| && s.rows[i] == Touched(Touched(rows[i], before, i), inside, i)
  { SwapIsGuarded(Meddled(rows, before), c, inside); }

  /** Whatever the sync does: a row of an account that no change is for ends up as the sync alone would
      leave it. */
  lemma {:induction false} OtherRowsFramed(rows: seq<Row>, cs: seq<Change>, k: nat,
                                           before: nat -> Edits, inside: nat -> Edits, i: nat)
    requires k <= |cs| && i < |rows| && NotFor(rows[i], cs, k)
    ensures var a := ApplyAll(rows, cs, k, before, inside);
      |a.rows| == |rows| && a.rows[i] == SyncOnly(rows[i], i, k, |cs|, before, inside)
    decreases |cs| - k
  {
    if k < |cs| {
      var s := SwapOne(Meddled(rows, before(k)), cs[k], inside(k));
      FramedStep(rows, cs[k], before(k), inside(k), i, s);
      OtherRowsFramed(s.rows, cs, k + 1, before, inside, i);
    }
  }

  ghost predicate Unmeddled(from: nat, to: nat, before: nat -> Edits, inside: nat -> Edits, i: nat) {
    forall k :: from <= k < to ==> i !in before(k) && i !in inside(k)
  }

  ghost predicate DistinctAccounts(cs: seq<Change>) {
    forall i, j :: 0 <= i < j < |cs| ==>
      cs[i].source != cs[j].source || cs[i].username != cs[j].username
  }

  /** What a row holds after the swap if the sync leaves it alone. */
  ghost predicate SwappedRow(old_: Row, now: Row, cs: seq<Change>, k: nat) {
    && now.source == old_.source && now.username == old_.username
    && (forall m :: k <= m < |cs| && Keyed(old_, cs[m].source, cs[m].username) ==>
          now.identifier == if old_.identifier == cs[m].was then cs[m].new_ else old_.identifier)
    && (NotFor(old_, cs, k) ==> now.identifier == old_.identifier)
  }

  function Once(r: Row, c: Change): Row {
    if Keyed(r, c.source, c.username) && r.identifier == c.was then r.(identifier := c.new_) else r
  }

  lemma {:induction false} SwappedStep(r: Row, now: Row, cs: seq<Change>, k: nat)
    requires k < |cs| && DistinctAccounts(cs) && SwappedRow(Once(r, cs[k]), now, cs, k + 1)
    ensures SwappedRow(r, now, cs, k)
  {
    var mid := Once(r, cs[k]);
    if Keyed(r, cs[k].source, cs[k].username) {
      assert NotFor(mid, cs, k + 1);
    } else if NotFor(r, cs, k) {
      assert NotFor(mid, cs, k + 1);
    }
  }

  lemma {:induction false} KeysKept(rows: seq<Row>, rows': seq<Row>)
    requires UniqueKeys(rows) && SameAccounts(rows, rows')
    ensures UniqueKeys(rows')
  {
    assert forall k :: 0 <= k < |rows| ==> rows'[k].source == rows[k].source && rows'[k].username == rows[k].username;
  }

  /** One change, with the sync at work on other rows. */
  lemma {:induction false} LeftAloneOnce(rows: seq<Row>, c: Change, inside: Edits, i: nat)
    requires UniqueKeys(rows) && i < |rows| && i !in inside
    ensures |SwapOne(rows, c, inside).rows| == |rows| && SwapOne(rows, c, inside).rows[i] == Once(rows[i], c)
  {
    var f := Find(rows, c.source, c.username);
    if Keyed(rows[i], c.source, c.username) { assert f == i; }
  }

  lemma {:induction false} LeftAloneStep(rows: seq<Row>, c: Change, before: Edits, inside: Edits, i: nat, s: Swapped)
    requires s == SwapOne(Meddled(rows, before), c, inside)
    requires UniqueKeys(rows) && i < |rows| && i !in before && i !in inside
    ensures |s.rows| == |rows| && UniqueKeys(s.rows) && s.rows[i] == Once(rows[i], c)
  {
    KeysKept(rows, Meddled(rows, before));
    LeftAloneOnce(Meddled(rows, before), c, inside, i);
    StepConfirms(rows, c, before, inside, s);
    KeysKept(rows, s.rows);
  }

  /** Whatever the sync does elsewhere: a row it leaves alone ends up with the new value of its account's
      change if it held the one the change was confirmed against, and as it was otherwise. */
  lemma {:induction false} LeftAloneSwap(rows: seq<Row>, cs: seq<Change>, k: nat,
                                         before: nat -> Edits, inside: nat -> Edits, i: nat)
    requires k <= |cs| && i < |rows| && UniqueKeys(rows) && DistinctAccounts(cs)
    requires Unmeddled(k, |cs|, before, inside, i)
    ensures var a := ApplyAll(rows, cs, k, before, inside);
      |a.rows| == |rows| && SwappedRow(rows[i], a.rows[i], cs, k)
    decreases |cs| - k
  {
    if k < |cs| {
      var s := SwapOne(Meddled(rows, before(k)), cs[k], inside(k));
      LeftAloneStep(rows, cs[k], before(k), inside(k), i, s);
      assert Unmeddled(k + 1, |cs|, before, inside, i);
      LeftAloneSwap(s.rows, cs, k + 1, before, inside, i);
      var rest := ApplyAll(s.rows, cs, k + 1, before, inside);
      SwappedStep(rows[i], rest.rows[i], cs, k);
    }
  }

  // ------------------------------------------------------------------ without interference

  function Nobody(): nat -> Edits { (k: nat) => map[] }

  lemma MeddledByNobody(rows: seq<Row>)
    ensures Meddled(rows, map[]) == rows
  {}

  lemma {:induction false} UndisturbedSwap(rows: seq<Row>, cs: seq<Change>, k: nat)
    requires k <= |cs| && UniqueKeys(rows) && DistinctAccounts(cs)
    ensures var a := ApplyAll(rows, cs, k, Nobody(), Nobody());
      |a.rows| == |rows| && forall i :: 0 <= i < |rows| ==> SwappedRow(rows[i], a.rows[i], cs, k)
  {
    SwapsAreConfirmed(rows, cs, k, Nobody(), Nobody());
    forall i | 0 <= i < |rows| ensures SwappedRow(rows[i], ApplyAll(rows, cs, k, Nobody(), Nobody()).rows[i], cs, k) {
      LeftAloneSwap(rows, cs, k, Nobody(), Nobody(), i);
    }
  }

  /** Applied a second time, changes that change something write nothing. */
  lemma {:induction false} SecondApplyWritesNothing(rows: seq<Row>, cs: seq<Change>)
    requires UniqueKeys(rows) && DistinctAccounts(cs)
    requires forall c :: c in cs ==> c.was != c.new_
    ensures var once := ApplyAll(rows, cs, 0, Nobody(), Nobody()).rows;
      ApplyAll(once, cs, 0, Nobody(), Nobody()).rows == once
  {
    UndisturbedSwap(rows, cs, 0);
    var once := ApplyAll(rows, cs, 0, Nobody(), Nobody()).rows;
    assert UniqueKeys(once);
    UndisturbedSwap(once, cs, 0);
    var twice := ApplyAll(once, cs, 0, Nobody(), Nobody()).rows;
    forall i | 0 <= i < |once| ensures twice[i] == once[i] {
      if m :| 0 <= m < |cs| && Keyed(once[i], cs[m].source, cs[m].username) {
        assert SwappedRow(rows[i], once[i], cs, 0) && SwappedRow(once[i], twice[i], cs, 0);
        assert cs[m] in cs;
      }
    }
  }

  // ------------------------------------------------------------------ the whole command

  lemma {:induction false} SourceRowsMember(rows: seq<Row>, slug: string, live: map<string, string>,
                                            names: seq<string>, d: Drift)
    ensures d in SourceRows(rows, slug, live, names) <==>
            exists r :: r in rows && Asked(r, slug, names) && d == Compare(r, live)
  {
    if rows != [] {
      SourceRowsMember(rows[1..], slug, live, names, d);
      assert forall r :: r in rows <==> r == rows[0] || r in rows[1..];
    }
  }

  ghost predicate ComesFrom(d: Drift, rows: seq<Row>, s: Source, names: seq<string>) {
    s.entries.Some? && exists r :: r in rows && Asked(r, s.slug, names) && d == Compare(r, Live(s.entries.value))
  }

  lemma {:induction false} DryRunMember(rows: seq<Row>, sources: seq<Source>, names: seq<string>, d: Drift)
    ensures d in DryRun(rows, sources, names) <==> exists s :: s in sources && ComesFrom(d, rows, s, names)
  {
    if sources != [] {
      DryRunMember(rows, sources[1..], names, d);
      var s0 := sources[0];
      var head := if s0.entries.Some? then SourceRows(rows, s0.slug, Live(s0.entries.value), names) else [];
      if s0.entries.Some? { SourceRowsMember(rows, s0.slug, Live(s0.entries.value), names, d); }
      assert d in head <==> ComesFrom(d, rows, s0, names);
      assert DryRun(rows, sources, names) == head + DryRun(rows, sources[1..], names);
      if ComesFrom(d, rows, s0, names) { assert s0 in sources; }
      if s :| s in sources && ComesFrom(d, rows, s, names) {
        if s != s0 { assert s in sources[1..]; }
      }
    }
  }

  ghost predicate DistinctSlugs(sources: seq<Source>) {
    forall s, s' :: s in sources && s' in sources && s.slug == s'.slug ==> s == s'
  }

  /** Rows of the dry run for different accounts differ, so the confirmed ones are distinct. */
  ghost predicate DistinctDrift(ds: seq<Drift>) {
    forall i, j :: 0 <= i < j < |ds| ==>
      ds[i].source != ds[j].source || ds[i].username != ds[j].username
  }

  lemma RowOf(rows: seq<Row>, sources: seq<Source>, names: seq<string>, d: Drift) returns (i: nat, s: Source)
    requires d in DryRun(rows, sources, names)
    ensures s in sources && s.entries.Some? && i < |rows|
    ensures s.slug == d.source == rows[i].source && rows[i].username == d.username
    ensures d == Compare(rows[i], Live(s.entries.value))
  {
    DryRunMember(rows, sources, names, d);
    s :| s in sources && ComesFrom(d, rows, s, names);
    var r :| r in rows && Asked(r, s.slug, names) && d == Compare(r, Live(s.entries.value));
    i :| 0 <= i < |rows| && rows[i] == r;
  }

  /** With no interference and LDAP unchanged, every account the operator confirmed re-reads as
      SAME: a row of the re-read that belongs to the m-th confirmed account does. */
  lemma {:induction false} ConfirmedReadsSame(rows: seq<Row>, sources: seq<Source>, confirmed: seq<Drift>, m: nat,
                                              d: Drift)
    requires UniqueKeys(rows) && DistinctSlugs(sources) && DistinctDrift(confirmed)
    requires forall c :: c in confirmed ==> c in DryRun(rows, sources, []) && c.status.Different?
    requires d in DryRun(ApplyAll(rows, Changes(confirmed), 0, Nobody(), Nobody()).rows, sources,
                         Usernames(confirmed))
    requires m < |confirmed| && confirmed[m].source == d.source && confirmed[m].username == d.username
    ensures d.status.Same?
  {
    var cs := Changes(confirmed);
    var after := ApplyAll(rows, cs, 0, Nobody(), Nobody()).rows;
    var c := confirmed[m];
    UndisturbedSwap(rows, cs, 0);
    var i, s := RowOf(rows, sources, [], c);
    var j, s' := RowOf(after, sources, Usernames(confirmed), d);
    assert s' == s;
    assert SwappedRow(rows[j], after[j], cs, 0);
    assert i == j;
    assert Keyed(rows[i], cs[m].source, cs[m].username);
    assert rows[i].identifier == cs[m].was && after[i].identifier == cs[m].new_;
  }

  // Nothing in the dry run repeats an account, so the confirmed rows are of distinct accounts.

  ghost predicate PairwiseSlugs(sources: seq<Source>) {
    forall i, j :: 0 <= i < j < |sources| ==> sources[i].slug != sources[j].slug
  }

  ghost predicate OtherAccount(d: Drift, e: Drift) { d.source != e.source || d.username != e.username }

  lemma DistinctAppend(a: seq<Drift>, b: seq<Drift>)
    requires DistinctDrift(a) && DistinctDrift(b)
    requires forall x, y :: x in a && y in b ==> OtherAccount(x, y)
    ensures DistinctDrift(a + b)
  {
    forall i, j | 0 <= i < j < |a + b| ensures OtherAccount((a + b)[i], (a + b)[j]) {
      if i < |a| <= j { assert (a + b)[i] in a && (a + b)[j] in b; }
    }
  }

  lemma DistinctTail(ds: seq<Drift>)
    requires ds != [] && DistinctDrift(ds)
    ensures DistinctDrift(ds[1..])
    ensures forall d :: d in ds[1..] ==> OtherAccount(ds[0], d)
  {
    forall d | d in ds[1..] ensures OtherAccount(ds[0], d) {
      var k :| 0 <= k < |ds[1..]| && ds[1..][k] == d;
      assert ds[k + 1] == d;
    }
  }

  lemma {:induction false} SourceRowsDistinct(rows: seq<Row>, slug: string, live: map<string, string>,
                                              names: seq<string>)
    requires UniqueKeys(rows)
    ensures DistinctDrift(SourceRows(rows, slug, live, names))
    ensures forall d :: d in SourceRows(rows, slug, live, names) ==>
              d.source == slug && exists r :: r in rows && r.source == d.source && r.username == d.username
  {
    if rows != [] {
      SourceRowsDistinct(rows[1..], slug, live, names);
      var head := if Asked(rows[0], slug, names) then [Compare(rows[0], live)] else [];
      forall x, y | x in head && y in SourceRows(rows[1..], slug, live, names) ensures OtherAccount(x, y) {
        var r :| r in rows[1..] && r.source == y.source && r.username == y.username;
        var k :| 0 <= k < |rows[1..]| && rows[1..][k] == r;
        assert rows[k + 1] == r;
      }
      DistinctAppend(head, SourceRows(rows[1..], slug, live, names));
    }
  }

  lemma {:induction false} DryRunDistinct(rows: seq<Row>, sources: seq<Source>, names: seq<string>)
    requires UniqueKeys(rows) && PairwiseSlugs(sources)
    ensures DistinctDrift(DryRun(rows, sources, names))
    ensures forall d :: d in DryRun(rows, sources, names) ==> exists s :: s in sources && s.slug == d.source
  {
    if sources != [] {
      DryRunDistinct(rows, sources[1..], names);
      var s0 := sources[0];
      var head := if s0.entries.Some? then SourceRows(rows, s0.slug, Live(s0.entries.value), names) else [];
      if s0.entries.Some? { SourceRowsDistinct(rows, s0.slug, Live(s0.entries.value), names); }
      forall x, y | x in head && y in DryRun(rows, sources[1..], names) ensures OtherAccount(x, y) {
        var s :| s in sources[1..] && s.slug == y.source;
        var k :| 0 <= k < |sources[1..]| && sources[1..][k] == s;
        assert sources[k + 1] == s;
      }
      DistinctAppend(head, DryRun(rows, sources[1..], names));
    }
  }

  lemma {:induction false} OnlyDifferentDistinct(ds: seq<Drift>)
    requires DistinctDrift(ds)
    ensures DistinctDrift(OnlyDifferent(ds))
  {
    if ds != [] {
      DistinctTail(ds);
      OnlyDifferentDistinct(ds[1..]);
      if ds[0].status.Different? { DistinctAppend([ds[0]], OnlyDifferent(ds[1..])); }
    }
  }

  lemma {:induction false} ConfirmedDistinct(ds: seq<Drift>, k: nat, answers: nat -> bool)
    requires DistinctDrift(ds)
    ensures DistinctDrift(Confirmed(ds, k, answers))
  {
    if ds != [] {
      DistinctTail(ds);
      ConfirmedDistinct(ds[1..], k + 1, answers);
      DistinctAppend(if answers(k) then [ds[0]] else [], Confirmed(ds[1..], k + 1, answers));
    }
  }

  lemma {:induction false} SelectedPairwise(sources: seq<Source>, slug: Option<string>)
    requires PairwiseSlugs(sources)
    ensures PairwiseSlugs(Selected(sources, slug))
    ensures forall s :: s in Selected(sources, slug) ==> s in sources
  {
    if slug.Some? && sources != [] {
      SelectedPairwise(sources[1..], slug);
      var rest := Selected(sources[1..], slug);
      if sources[0].slug == slug.value {
        forall k | 0 <= k < |rest| ensures rest[k].slug != sources[0].slug {
          assert rest[k] in rest;
          var m :| 0 <= m < |sources[1..]| && sources[1..][m] == rest[k];
          assert sources[m + 1] == rest[k];
        }
      }
    }
  }

  /** Some row still holds what the change was confirmed against. */
  ghost predicate Holds(rows: seq<Row>, c: Change) {
    exists i :: 0 <= i < |rows| && Keyed(rows[i], c.source, c.username) && rows[i].identifier == c.was
  }

  lemma HoldsNext(rows: seq<Row>, c: Change, d: Change)
    requires UniqueKeys(rows) && Holds(rows, c) && Holds(rows, d)
    requires c.source != d.source || c.username != d.username
    ensures var s := SwapOne(rows, c, map[]);
      s.swap.outcome.Updated? && UniqueKeys(s.rows) && Holds(s.rows, d)
  {
    MeddledByNobody(rows);
    var i :| 0 <= i < |rows| && Keyed(rows[i], c.source, c.username) && rows[i].identifier == c.was;
    var j :| 0 <= j < |rows| && Keyed(rows[j], d.source, d.username) && rows[j].identifier == d.was;
    assert Find(rows, c.source, c.username) == i;
    assert SwapOne(rows, c, map[]).rows[j] == rows[j];
  }

  lemma HoldsUpdates(rows: seq<Row>, c: Change)
    requires UniqueKeys(rows) && Holds(rows, c)
    ensures SwapOne(rows, c, map[]).swap.outcome.Updated? && UniqueKeys(SwapOne(rows, c, map[]).rows)
  {
    MeddledByNobody(rows);
    var i :| 0 <= i < |rows| && Keyed(rows[i], c.source, c.username) && rows[i].identifier == c.was;
    assert Find(rows, c.source, c.username) == i;
  }

  lemma {:induction false} UndisturbedUpdatesAll(rows: seq<Row>, cs: seq<Change>, k: nat)
    requires k <= |cs| && UniqueKeys(rows) && DistinctAccounts(cs)
    requires forall m :: k <= m < |cs| ==> Holds(rows, cs[m])
    ensures AllUpdated(ApplyAll(rows, cs, k, Nobody(), Nobody()).swaps)
    decreases |cs| - k
  {
    if k < |cs| {
      MeddledByNobody(rows);
      var s := SwapOne(rows, cs[k], map[]);
      assert SwapOne(Meddled(rows, Nobody()(k)), cs[k], Nobody()(k)) == s;
      HoldsUpdates(rows, cs[k]);
      forall m | k + 1 <= m < |cs| ensures Holds(s.rows, cs[m]) { HoldsNext(rows, cs[k], cs[m]); }
      UndisturbedUpdatesAll(s.rows, cs, k + 1);
    }
  }

  predicate OfConfirmed(d: Drift, confirmed: seq<Drift>) {
    exists m :: 0 <= m < |confirmed| && confirmed[m].source == d.source && confirmed[m].username == d.username
  }

  ghost predicate Consistent(rows: seq<Row>, sources: seq<Source>, confirmed: seq<Drift>) {
    && UniqueKeys(rows) && DistinctSlugs(sources) && DistinctDrift(confirmed)
    && forall c :: c in confirmed ==> c in DryRun(rows, sources, []) && c.status.Different?
  }

  /** A row of an account that was not confirmed reads after the swap as it did before. */
  lemma {:induction false} UnconfirmedReadsOn(rows: seq<Row>, after: seq<Row>, sources: seq<Source>,
                                              confirmed: seq<Drift>, d: Drift)
    requires Consistent(rows, sources, confirmed) && !OfConfirmed(d, confirmed)
    requires after == ApplyAll(rows, Changes(confirmed), 0, Nobody(), Nobody()).rows
    ensures d in DryRun(after, sources, Usernames(confirmed)) <==> d in DryRun(rows, sources, Usernames(confirmed))
  {
    var cs := Changes(confirmed);
    var names := Usernames(confirmed);
    UndisturbedSwap(rows, cs, 0);
    DryRunMember(rows, sources, names, d);
    DryRunMember(after, sources, names, d);
    if d in DryRun(rows, sources, names) {
      var i, s := RowOf(rows, sources, names, d);
      RowKept(rows, after, confirmed, i, d);
      assert after[i] in after && ComesFrom(d, after, s, names);
    }
    if d in DryRun(after, sources, names) {
      var i, s := RowOf(after, sources, names, d);
      assert SwappedRow(rows[i], after[i], cs, 0);
      RowKept(rows, after, confirmed, i, d);
      assert rows[i] in rows && ComesFrom(d, rows, s, names);
    }
  }

  lemma RowKept(rows: seq<Row>, after: seq<Row>, confirmed: seq<Drift>, i: nat, d: Drift)
    requires i < |rows| == |after| && SwappedRow(rows[i], after[i], Changes(confirmed), 0)
    requires Keyed(rows[i], d.source, d.username) && !OfConfirmed(d, confirmed)
    ensures after[i] == rows[i]
  {
    var cs := Changes(confirmed);
    forall m | 0 <= m < |cs| ensures !Keyed(rows[i], cs[m].source, cs[m].username) {
      assert cs[m] == ChangeOf(confirmed[m]);
    }
  }

  lemma {:induction false} ConfirmedHold(rows: seq<Row>, sources: seq<Source>, confirmed: seq<Drift>)
    requires Consistent(rows, sources, confirmed)
    ensures DistinctAccounts(Changes(confirmed))
    ensures forall m :: 0 <= m < |confirmed| ==> Holds(rows, Changes(confirmed)[m])
  {
    forall m | 0 <= m < |confirmed| ensures Holds(rows, Changes(confirmed)[m]) {
      var i, s := RowOf(rows, sources, [], confirmed[m]);
      assert Keyed(rows[i], Changes(confirmed)[m].source, Changes(confirmed)[m].username);
    }
  }

  /** The command undisturbed, with LDAP unchanged: everything confirmed is repointed, and it
      returns success exactly if no unconfirmed namesake of a confirmed account is out of line. */
  lemma {:induction false} UndisturbedRun(rows: seq<Row>, sources: seq<Source>, slug: Option<string>,
                                          answers: nat -> bool)
    requires UniqueKeys(rows) && PairwiseSlugs(sources)
    ensures var chosen := Selected(sources, slug);
      var confirmed := Confirmed(OnlyDifferent(DryRun(rows, chosen, [])), 0, answers);
      confirmed != [] ==>
        (RunSpec(rows, sources, slug, answers, Nobody(), Nobody(), map[]).0 == 0 <==>
         forall d :: d in DryRun(rows, chosen, Usernames(confirmed)) && !OfConfirmed(d, confirmed) ==> d.status.Same?)
  {
    var chosen := Selected(sources, slug);
    var drift := DryRun(rows, chosen, []);
    var confirmed := Confirmed(OnlyDifferent(drift), 0, answers);
    if confirmed == [] { return; }
    SelectedPairwise(sources, slug);
    DryRunDistinct(rows, chosen, []);
    OnlyDifferentDistinct(drift);
    ConfirmedDistinct(OnlyDifferent(drift), 0, answers);
    assert Consistent(rows, chosen, confirmed);
    assert chosen != [];
    var a := ApplyAll(rows, Changes(confirmed), 0, Nobody(), Nobody());
    ConfirmedHold(rows, chosen, confirmed);
    UndisturbedUpdatesAll(rows, Changes(confirmed), 0);
    MeddledByNobody(a.rows);
    var names := Usernames(confirmed);
    forall d | d in DryRun(a.rows, chosen, names) && OfConfirmed(d, confirmed) ensures d.status.Same? {
      var m :| 0 <= m < |confirmed| && confirmed[m].source == d.source && confirmed[m].username == d.username;
      ConfirmedReadsSame(rows, chosen, confirmed, m, d);
    }
    forall d | !OfConfirmed(d, confirmed)
      ensures d in DryRun(a.rows, chosen, names) <==> d in DryRun(rows, chosen, names)
    { UnconfirmedReadsOn(rows, a.rows, chosen, confirmed, d); }
  }

  /** What the operator confirmed. */
  function ConfirmedOf(rows: seq<Row>, sources: seq<Source>, slug: Option<string>, answers: nat -> bool): seq<Drift> {
    Confirmed(OnlyDifferent(DryRun(rows, Selected(sources, slug), [])), 0, answers)
  }

  /** A row of the dry run is read again if its username is among those read again. */
  lemma {:induction false} ReadAgain(rows: seq<Row>, sources: seq<Source>, names: seq<string>, d: Drift)
    requires d in DryRun(rows, sources, []) && d.username in names
    ensures d in DryRun(rows, sources, names)
  {
    DryRunMember(rows, sources, [], d);
    DryRunMember(rows, sources, names, d);
    var s :| s in sources && ComesFrom(d, rows, s, []);
    var r :| r in rows && Asked(r, s.slug, []) && d == Compare(r, Live(s.entries.value));
    assert Asked(r, s.slug, names) && ComesFrom(d, rows, s, names);
  }

  /** The re-read is by username across all the sources read, so an account confirmed in one source
      drags in its namesakes in the others: if one of them differs, or LDAP no longer has it, and it was
      not confirmed too, the undisturbed command fails, although everything confirmed is repointed. */
  lemma {:induction false} UnconfirmedNamesakeFails(rows: seq<Row>, sources: seq<Source>, slug: Option<string>,
                                                    answers: nat -> bool, d: Drift)
    requires UniqueKeys(rows) && PairwiseSlugs(sources)
    requires d in DryRun(rows, Selected(sources, slug), []) && !d.status.Same?
    requires var confirmed := ConfirmedOf(rows, sources, slug, answers);
             d.username in Usernames(confirmed) && !OfConfirmed(d, confirmed)
    ensures RunSpec(rows, sources, slug, answers, Nobody(), Nobody(), map[]).0 == 1
  {
    var confirmed := ConfirmedOf(rows, sources, slug, answers);
    assert confirmed != [];
    ReadAgain(rows, Selected(sources, slug), Usernames(confirmed), d);
    UndisturbedRun(rows, sources, slug, answers);
  }

  // ------------------------------------------------------------------ the whole command, disturbed

  lemma {:induction false} ConfirmedAreOf(rows: seq<Row>, sources: seq<Source>, slug: Option<string>,
                                          answers: nat -> bool)
    requires UniqueKeys(rows) && PairwiseSlugs(sources)
    ensures var confirmed := ConfirmedOf(rows, sources, slug, answers);
      Consistent(rows, Selected(sources, slug), confirmed)
  {
    var chosen := Selected(sources, slug);
    SelectedPairwise(sources, slug);
    DryRunDistinct(rows, chosen, []);
    OnlyDifferentDistinct(DryRun(rows, chosen, []));
    ConfirmedDistinct(OnlyDifferent(DryRun(rows, chosen, [])), 0, answers);
  }

  /** The row's account is the one of d. */
  predicate AccountOf(r: Row, d: Drift) { Keyed(r, d.source, d.username) }

  /** The row was read into d by the dry run: they agree on the value, and d says what is live. */
  lemma {:induction false} ReadByDryRun(rows: seq<Row>, sources: seq<Source>, d: Drift, i: nat)
    requires UniqueKeys(rows) && i < |rows| && AccountOf(rows[i], d)
    requires d in DryRun(rows, sources, []) && d.status.Different?
    ensures rows[i].identifier == d.stored && d.live.Some?
  {
    var j, s := RowOf(rows, sources, [], d);
    assert j == i;
  }

  lemma {:induction false} LeftAloneConfirmed(r: Row, now: Row, confirmed: seq<Drift>, m: nat)
    requires SwappedRow(r, now, Changes(confirmed), 0) && m < |confirmed| && AccountOf(r, confirmed[m])
    requires r.identifier == confirmed[m].stored && confirmed[m].live.Some?
    ensures now == r.(identifier := confirmed[m].live.value)
  { assert Keyed(r, Changes(confirmed)[m].source, Changes(confirmed)[m].username); }

  lemma {:induction false} LeftAloneUnconfirmed(r: Row, now: Row, confirmed: seq<Drift>)
    requires SwappedRow(r, now, Changes(confirmed), 0)
    requires forall d :: d in confirmed ==> !AccountOf(r, d)
    ensures now == r
  {
    var cs := Changes(confirmed);
    forall m | 0 <= m < |cs| ensures !Keyed(r, cs[m].source, cs[m].username) {
      assert cs[m] == ChangeOf(confirmed[m]) && confirmed[m] in confirmed;
    }
  }

  /** Over a whole run, whatever the sync does to other rows, at whatever time: a row it leaves alone ends
      up with the live value if its account was confirmed, and as it was if not. */
  lemma {:induction false} RowsLeftAlone(rows: seq<Row>, sources: seq<Source>, slug: Option<string>,
                                         answers: nat -> bool, before: nat -> Edits, inside: nat -> Edits,
                                         after: Edits, i: nat)
    requires UniqueKeys(rows) && PairwiseSlugs(sources) && i < |rows|
    requires (forall k :: i !in before(k) && i !in inside(k)) && i !in after
    ensures var confirmed := ConfirmedOf(rows, sources, slug, answers);
      var now := RunSpec(rows, sources, slug, answers, before, inside, after).1;
      && |now| == |rows|
      && (forall m :: 0 <= m < |confirmed| && AccountOf(rows[i], confirmed[m]) ==>
            confirmed[m].live.Some? && now[i] == rows[i].(identifier := confirmed[m].live.value))
      && ((forall d :: d in confirmed ==> !AccountOf(rows[i], d)) ==> now[i] == rows[i])
  {
    var confirmed := ConfirmedOf(rows, sources, slug, answers);
    if confirmed == [] { return; }
    ConfirmedAreOf(rows, sources, slug, answers);
    ConfirmedHold(rows, Selected(sources, slug), confirmed);
    LeftAloneSwap(rows, Changes(confirmed), 0, before, inside, i);
    var now := RunSpec(rows, sources, slug, answers, before, inside, after).1;
    assert SwappedRow(rows[i], now[i], Changes(confirmed), 0);
    forall m | 0 <= m < |confirmed| && AccountOf(rows[i], confirmed[m])
      ensures confirmed[m].live.Some? && now[i] == rows[i].(identifier := confirmed[m].live.value)
    {
      assert confirmed[m] in confirmed;
      ReadByDryRun(rows, Selected(sources, slug), confirmed[m], i);
      LeftAloneConfirmed(rows[i], now[i], confirmed, m);
    }
    if forall d :: d in confirmed ==> !AccountOf(rows[i], d) { LeftAloneUnconfirmed(rows[i], now[i], confirmed); }
  }

  /** And whatever the sync does to the row itself: if its account was not confirmed, the command has not
      touched it. */
  lemma {:induction false} UnconfirmedUntouched(rows: seq<Row>, sources: seq<Source>, slug: Option<string>,
                                                answers: nat -> bool, before: nat -> Edits, inside: nat -> Edits,
                                                after: Edits, i: nat)
    requires i < |rows|
    requires forall d :: d in ConfirmedOf(rows, sources, slug, answers) ==> !AccountOf(rows[i], d)
    ensures var confirmed := ConfirmedOf(rows, sources, slug, answers);
      var now := RunSpec(rows, sources, slug, answers, before, inside, after).1;
      && |now| == |rows|
      && now[i] == if confirmed == [] then rows[i]
                   else Touched(SyncOnly(rows[i], i, 0, |confirmed|, before, inside), after, i)
  {
    var confirmed := ConfirmedOf(rows, sources, slug, answers);
    var cs := Changes(confirmed);
    forall m | 0 <= m < |cs| ensures !Keyed(rows[i], cs[m].source, cs[m].username) {
      assert cs[m] == ChangeOf(confirmed[m]) && confirmed[m] in confirmed;
    }
    OtherRowsFramed(rows, cs, 0, before, inside, i);
  }

  // ------------------------------------------------------------------ what is read

  /** LDAP's value for a uid is that of its last usable entry. */
  lemma {:induction false} LiveIsLast(entries: seq<LdapEntry>, i: nat)
    requires i < |entries| && Usable(entries[i])
    requires forall j :: i < j < |entries| && Usable(entries[j]) ==> entries[j].uids[0] != entries[i].uids[0]
    ensures entries[i].uids[0] in Live(entries) && Live(entries)[entries[i].uids[0]] == entries[i].uniqs[0]
    decreases |entries|
  {
    var n := |entries| - 1;
    if i < n { LiveIsLast(entries[..n], i); }
  }

  lemma {:induction false} LiveIsFound(entries: seq<LdapEntry>, u: string) returns (i: nat)
    requires u in Live(entries)
    ensures i < |entries| && Usable(entries[i]) && entries[i].uids[0] == u
    decreases |entries|
  {
    var n := |entries| - 1;
    if Usable(entries[n]) && entries[n].uids[0] == u { return n; }
    i := LiveIsFound(entries[..n], u);
  }

  /** The sources read are those of the slug asked for, or all. */
  lemma {:induction false} SelectedMeans(sources: seq<Source>, slug: Option<string>, s: Source)
    ensures s in Selected(sources, slug) <==> s in sources && (slug.Some? ==> s.slug == slug.value)
  {
    if slug.Some? && sources != [] {
      SelectedMeans(sources[1..], slug, s);
      assert s in sources <==> s == sources[0] || s in sources[1..];
    }
  }

  ghost predicate NoSource(sources: seq<Source>, slug: Option<string>) {
    forall s :: s in sources ==> slug.Some? && s.slug != slug.value
  }

  lemma {:induction false} NoneSelected(sources: seq<Source>, slug: Option<string>)
    ensures Selected(sources, slug) == [] <==> NoSource(sources, slug)
  {
    if Selected(sources, slug) == [] {
      forall s | s in sources ensures slug.Some? && s.slug != slug.value { SelectedMeans(sources, slug, s); }
    } else {
      var s := Selected(sources, slug)[0];
      SelectedMeans(sources, slug, s);
    }
  }

  /** Row i belongs to a source that answered, and holds another value than LDAP's for its user. */
  predicate Differs(r: Row, s: Source) {
    && s.entries.Some? && r.source == s.slug
    && var live := Live(s.entries.value);
       r.username in live && live[r.username] != r.identifier
  }

  ghost predicate SomethingDiffers(rows: seq<Row>, sources: seq<Source>) {
    exists r, s :: r in rows && s in sources && Differs(r, s)
  }

  /** The operator is asked about something exactly if some row differs. */
  lemma {:induction false} AskedIfDiffers(rows: seq<Row>, sources: seq<Source>)
    ensures OnlyDifferent(DryRun(rows, sources, [])) != [] <==> SomethingDiffers(rows, sources)
  {
    var ds := OnlyDifferent(DryRun(rows, sources, []));
    if ds != [] {
      assert ds[0] in ds;
      DryRunMember(rows, sources, [], ds[0]);
      var s :| s in sources && ComesFrom(ds[0], rows, s, []);
      var r :| r in rows && Asked(r, s.slug, []) && ds[0] == Compare(r, Live(s.entries.value));
      assert Differs(r, s);
    }
    if SomethingDiffers(rows, sources) {
      var r, s :| r in rows && s in sources && Differs(r, s);
      var d := Compare(r, Live(s.entries.value));
      assert Asked(r, s.slug, []) && ComesFrom(d, rows, s, []);
      DryRunMember(rows, sources, [], d);
      assert d in ds;
    }
  }

  /** Of the drifted rows, exactly those answered y are confirmed. */
  lemma {:induction false} ConfirmedMeans(ds: seq<Drift>, k: nat, answers: nat -> bool, d: Drift)
    ensures d in Confirmed(ds, k, answers) <==> exists j :: 0 <= j < |ds| && ds[j] == d && answers(k + j)
    decreases |ds|
  {
    if ds != [] {
      ConfirmedMeans(ds[1..], k + 1, answers, d);
      if j :| 0 <= j < |ds[1..]| && ds[1..][j] == d && answers(k + 1 + j) {
        assert ds[j + 1] == d && answers(k + (j + 1));
      }
      if j :| 0 <= j < |ds| && ds[j] == d && answers(k + j) {
        if j > 0 { assert ds[1..][j - 1] == d && answers(k + 1 + (j - 1)); }
        else { assert answers(k); }
      }
    }
  }

  ghost predicate Declined(ds: seq<Drift>, answers: nat -> bool) { forall j :: 0 <= j < |ds| ==> !answers(j) }

  lemma {:induction false} NoneConfirmed(ds: seq<Drift>, answers: nat -> bool)
    ensures Confirmed(ds, 0, answers) == [] <==> Declined(ds, answers)
  {
    var confirmed := Confirmed(ds, 0, answers);
    if confirmed != [] {
      assert confirmed[0] in confirmed;
      ConfirmedMeans(ds, 0, answers, confirmed[0]);
    }
    if !Declined(ds, answers) {
      var j :| 0 <= j < |ds| && answers(j);
      assert answers(0 + j);
      ConfirmedMeans(ds, 0, answers, ds[j]);
    }
  }

  // ------------------------------------------------------------------ the return code

  /** One change reads the first row of its account, and is made exactly if that holds what the operator was
      shown. */
  lemma {:induction false} SwapReads(rows: seq<Row>, c: Change, inside: Edits, i: nat)
    requires i <= |rows| && (forall k :: 0 <= k < i ==> !Keyed(rows[k], c.source, c.username))
    requires i < |rows| ==> Keyed(rows[i], c.source, c.username)
    ensures var s := SwapOne(rows, c, inside).swap;
      && s.row == i
      && (i < |rows| ==> s.read == rows[i].identifier && (s.outcome.Updated? <==> s.read == c.was))
      && (i == |rows| ==> s.outcome.SkippedNoRow?)
  {}

  predicate ReadAsStored(swap: Swap, n: nat, d: Drift) { swap.row < n && swap.read == d.stored }

  /** Made exactly if the row was there and read as the change expects. */
  predicate MadeIfRead(swap: Swap, n: nat, c: Change) {
    (swap.outcome.Updated? ==> swap.row < n && swap.read == c.was)
    && (swap.row < n && swap.read == c.was ==> swap.outcome.Updated?)
  }

  ghost predicate AllMadeIfRead(swaps: seq<Swap>, n: nat, cs: seq<Change>, k: nat) {
    k + |swaps| == |cs| && forall m :: 0 <= m < |swaps| ==> MadeIfRead(swaps[m], n, cs[k + m])
  }

  lemma MadeJoin(first: Swap, rest: seq<Swap>, n: nat, cs: seq<Change>, k: nat)
    requires k < |cs| && MadeIfRead(first, n, cs[k]) && AllMadeIfRead(rest, n, cs, k + 1)
    ensures AllMadeIfRead([first] + rest, n, cs, k)
  {
    var all := [first] + rest;
    forall m | 0 <= m < |all| ensures MadeIfRead(all[m], n, cs[k + m]) {
      if m > 0 { assert all[m] == rest[m - 1] && MadeIfRead(rest[m - 1], n, cs[k + 1 + (m - 1)]); }
    }
  }

  lemma {:induction false} StepMade(rows: seq<Row>, c: Change, before: Edits, inside: Edits, s: Swapped)
    requires s == SwapOne(Meddled(rows, before), c, inside)
    ensures MadeIfRead(s.swap, |rows|, c) && |s.rows| == |rows|
  {
    var met := Meddled(rows, before);
    SwapReads(met, c, inside, Find(met, c.source, c.username));
  }

  lemma {:induction false} SwapsRead(rows: seq<Row>, cs: seq<Change>, k: nat,
                                     before: nat -> Edits, inside: nat -> Edits)
    requires k <= |cs|
    ensures AllMadeIfRead(ApplyAll(rows, cs, k, before, inside).swaps, |rows|, cs, k)
    decreases |cs| - k
  {
    if k < |cs| {
      var s := SwapOne(Meddled(rows, before(k)), cs[k], inside(k));
      StepMade(rows, cs[k], before(k), inside(k), s);
      SwapsRead(s.rows, cs, k + 1, before, inside);
      MadeJoin(s.swap, ApplyAll(s.rows, cs, k + 1, before, inside).swaps, |rows|, cs, k);
    }
  }

  /** The whole return code, under any sync: 2, with nothing touched, exactly if there is no source to read;
      0, with nothing touched, if no row differs, or every one that does was declined; and where something
      was confirmed, 0 exactly if every confirmed row read as it was shown and every row re-read is SAME,
      and 1 otherwise. */
  lemma {:induction false} ReturnCode(rows: seq<Row>, sources: seq<Source>, slug: Option<string>,
                                      answers: nat -> bool, before: nat -> Edits, inside: nat -> Edits, after: Edits)
    ensures var chosen := Selected(sources, slug);
      var asked := OnlyDifferent(DryRun(rows, chosen, []));
      var r := RunSpec(rows, sources, slug, answers, before, inside, after);
      && (NoSource(sources, slug) ==> r == (2, rows))
      && (!NoSource(sources, slug) ==> r.0 != 2)
      && (!NoSource(sources, slug) && !SomethingDiffers(rows, chosen) ==> r == (0, rows))
      && (!NoSource(sources, slug) && Declined(asked, answers) ==> r == (0, rows))
  {
    var chosen := Selected(sources, slug);
    NoneSelected(sources, slug);
    AskedIfDiffers(rows, chosen);
    NoneConfirmed(OnlyDifferent(DryRun(rows, chosen, [])), answers);
  }

  lemma {:induction false} ConfirmedReturnCode(rows: seq<Row>, sources: seq<Source>, slug: Option<string>,
                                               answers: nat -> bool, before: nat -> Edits, inside: nat -> Edits,
                                               after: Edits)
    requires !NoSource(sources, slug)
    requires !Declined(OnlyDifferent(DryRun(rows, Selected(sources, slug), [])), answers)
    ensures var confirmed := ConfirmedOf(rows, sources, slug, answers);
      var swaps := ApplyAll(rows, Changes(confirmed), 0, before, inside).swaps;
      var r := RunSpec(rows, sources, slug, answers, before, inside, after);
      && |swaps| == |confirmed| && r.0 in [0, 1]
      && (r.0 == 0 <==>
            && (forall m :: 0 <= m < |confirmed| ==> ReadAsStored(swaps[m], |rows|, confirmed[m]))
            && (forall d :: d in DryRun(r.1, Selected(sources, slug), Usernames(confirmed)) ==> d.status.Same?))
  {
    NoneSelected(sources, slug);
    NoneConfirmed(OnlyDifferent(DryRun(rows, Selected(sources, slug), [])), answers);
    var confirmed := ConfirmedOf(rows, sources, slug, answers);
    SwapsRead(rows, Changes(confirmed), 0, before, inside);
    AllReadAsStored(rows, confirmed, ApplyAll(rows, Changes(confirmed), 0, before, inside).swaps);
  }

  lemma {:induction false} AllReadAsStored(rows: seq<Row>, confirmed: seq<Drift>, swaps: seq<Swap>)
    requires AllMadeIfRead(swaps, |rows|, Changes(confirmed), 0)
    ensures |swaps| == |confirmed|
    ensures AllUpdated(swaps) <==> forall m :: 0 <= m < |confirmed| ==> ReadAsStored(swaps[m], |rows|, confirmed[m])
  {
    var cs := Changes(confirmed);
    forall m | 0 <= m < |confirmed|
      ensures swaps[m].outcome.Updated? <==> ReadAsStored(swaps[m], |rows|, confirmed[m])
    { assert MadeIfRead(swaps[m], |rows|, cs[0 + m]); }
    if AllUpdated(swaps) {
      forall m | 0 <= m < |confirmed| ensures ReadAsStored(swaps[m], |rows|, confirmed[m]) {
        assert swaps[m] in swaps;
      }
    }
  }
}
