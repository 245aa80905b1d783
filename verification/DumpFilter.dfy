/** Version skew in a dump's header: which settings its first lines set, which of them the target
    server does not know, and the sed program that deletes those lines on the way into psql. */
module DumpFilter {
  import opened StateFile

  const HEADER_LINES := 400

  predicate Space(c: char) { c == ' ' || c == '\t' || c == '\n' || c == '\r' || c == 11 as char || c == 12 as char }
  predicate Letter(c: char) { 'a' <= c <= 'z' || 'A' <= c <= 'Z' || c == '_' }
  predicate Word(c: char) { Letter(c) || '0' <= c <= '9' }

  /** The length of the longest prefix of spaces. */
  function Spaces(s: string): (n: nat)
    ensures n <= |s|
  { if s == [] || !Space(s[0]) then 0 else 1 + Spaces(s[1..]) }

  function Words(s: string): (n: nat)
    ensures n <= |s|
  { if s == [] || !Word(s[0]) then 0 else 1 + Words(s[1..]) }

  predicate IsName(p: string) { p != [] && Letter(p[0]) && forall c :: c in p ==> Word(c) }

  /** The setting a line sets: SET, at least one space, a name, spaces, an equals sign. */
  function Param(line: string): Option<string> {
    if !("SET" <= line) then None else
    var a := line[3..];
    var n := Spaces(a);
    if n == 0 then None else Assigned(a[n..])
  }

  function Assigned(b: string): Option<string> {
    var w := Words(b);
    if w == 0 || !Letter(b[0]) then None else
    var c := b[w..];
    var q := Spaces(c);
    if q < |c| && c[q] == '=' then Some(b[..w]) else None
  }

  /** How sed is told to recognise it. */
  function Spelling(p: string): string { "SET " + p + " = " }

  predicate Canonical(line: string, p: string) { Spelling(p) <= line }

  function Parsed(lines: seq<string>): (ms: seq<Option<string>>)
    ensures |ms| == |lines| && forall k :: 0 <= k < |lines| ==> ms[k] == Param(lines[k])
  { seq(|lines|, k requires 0 <= k < |lines| => Param(lines[k])) }

  /** Each name once, in order of first appearance. */
  function Collect(ms: seq<Option<string>>): seq<string> {
    if ms == [] then []
    else
      var ps := Collect(ms[..|ms| - 1]);
      var m := ms[|ms| - 1];
      if m.Some? && m.value !in ps then ps + [m.value] else ps
  }

  /** The names the lines set. */
  function Params(lines: seq<string>): seq<string> { Collect(Parsed(lines)) }

  function Header(lines: seq<string>): seq<string> {
    if |lines| < HEADER_LINES then lines else lines[..HEADER_LINES]
  }

  lemma CollectStep(ms: seq<Option<string>>, i: nat)
    requires i < |ms|
    ensures var ps := Collect(ms[..i]);
      Collect(ms[..i + 1]) == if ms[i].Some? && ms[i].value !in ps then ps + [ms[i].value] else ps
  { assert ms[..i + 1][..i] == ms[..i]; }

  /** Only the first 400 lines are scanned. */
  lemma HeaderIs(lines: seq<string>)
    ensures Header(lines) == if |lines| < 400 then lines else lines[..400]
  {}

  method HeaderSetParams(lines: seq<string>) returns (params: seq<string>)
    ensures params == Params(Header(lines))
  {
    ghost var ms := Parsed(Header(lines));
    params := [];
    var i := 0;
    while i < HEADER_LINES && i < |lines|
      invariant 0 <= i <= |Header(lines)|
      invariant params == Collect(ms[..i])
    {
      CollectStep(ms, i);
      var m := Param(lines[i]);
      assert m == ms[i];
      if m.Some? && m.value !in params { params := params + [m.value]; }
      i := i + 1;
    }
    assert ms[..i] == ms;
  }

  function Filter(ps: seq<string>, known: set<string>): (r: seq<string>)
    ensures forall p :: p in r <==> p in ps && p !in known
  {
    if ps == [] then []
    else (if ps[0] in known then [] else [ps[0]]) + Filter(ps[1..], known)
  }

  /** The server answers with the names it knows; None if the query failed. */
  function UnknownParams(ps: seq<string>, query: Option<set<string>>): seq<string> {
    if ps == [] || query.None? then [] else Filter(ps, query.value)
  }

  predicate Struck(line: string, strip: seq<string>) { exists p :: p in strip && Canonical(line, p) }

  function Sed(lines: seq<string>, strip: seq<string>): seq<string> {
    if lines == [] then []
    else (if Struck(lines[0], strip) then [] else [lines[0]]) + Sed(lines[1..], strip)
  }

  /** The deletion tests of the sed program, one per name. */
  method Deletes(line: string, strip: seq<string>) returns (deleted: bool)
    ensures deleted <==> Struck(line, strip)
  {
    deleted := false;
    var j := 0;
    while j < |strip|
      invariant 0 <= j <= |strip|
      invariant deleted <==> exists k :: 0 <= k < j && Canonical(line, strip[k])
    {
      if Canonical(line, strip[j]) { deleted := true; }
      j := j + 1;
    }
  }

  lemma SedStep(lines: seq<string>, strip: seq<string>, i: nat)
    requires i < |lines|
    ensures Sed(lines[i..], strip) ==
            (if Struck(lines[i], strip) then [] else [lines[i]]) + Sed(lines[i + 1..], strip)
    ensures Struck(lines[i], strip) ==> Sed(lines[i..], strip) == Sed(lines[i + 1..], strip)
  { assert lines[i..][1..] == lines[i + 1..]; }

  /** One pass over the stream. */
  method RunSed(lines: seq<string>, strip: seq<string>) returns (out: seq<string>)
    ensures out == Sed(lines, strip)
  {
    out := [];
    var i := 0;
    while i < |lines|
      invariant 0 <= i <= |lines|
      invariant out + Sed(lines[i..], strip) == Sed(lines, strip)
    {
      SedStep(lines, strip, i);
      var deleted := Deletes(lines[i], strip);
      if !deleted {
        assert out + ([lines[i]] + Sed(lines[i + 1..], strip)) == out + [lines[i]] + Sed(lines[i + 1..], strip);
        out := out + [lines[i]];
      }
      i := i + 1;
    }
  }

  function Stripped(lines: seq<string>, query: Option<set<string>>): seq<string> {
    UnknownParams(Params(Header(lines)), query)
  }

  /** What psql is fed. */
  function Fed(lines: seq<string>, query: Option<set<string>>): seq<string> {
    Sed(lines, Stripped(lines, query))
  }

  method Feed(lines: seq<string>, query: Option<set<string>>) returns (out: seq<string>)
    ensures out == Fed(lines, query)
  {
    var params := HeaderSetParams(lines);
    var strip := UnknownParams(params, query);
    if strip == [] {
      NothingStruck(lines, strip);
      return lines;
    }
    out := RunSed(lines, strip);
  }

  // ------------------------------------------------------------------ what the scan finds

  lemma {:induction false} CollectMeaning(ms: seq<Option<string>>)
    ensures forall p :: p in Collect(ms) <==> Some(p) in ms
    ensures forall i, j :: 0 <= i < j < |Collect(ms)| ==> Collect(ms)[i] != Collect(ms)[j]
  {
    if ms != [] {
      var n := |ms| - 1;
      CollectMeaning(ms[..n]);
      assert ms == ms[..n] + [ms[n]];
    }
  }

  /** The scan finds exactly the names set by some header line, each once. */
  lemma {:induction false} ParamsMeaning(lines: seq<string>)
    ensures forall p :: p in Params(lines) <==> Some(p) in Parsed(lines)
    ensures forall i, j :: 0 <= i < j < |Params(lines)| ==> Params(lines)[i] != Params(lines)[j]
  { CollectMeaning(Parsed(lines)); }

  lemma {:induction false} WordsAreWords(s: string)
    ensures forall k :: 0 <= k < Words(s) ==> Word(s[k])
  { if s != [] && Word(s[0]) { WordsAreWords(s[1..]); } }

  lemma ParamIsName(line: string)
    ensures Param(line).Some? ==> IsName(Param(line).value)
  {
    if Param(line).Some? {
      var a := line[3..];
      WordsAreWords(a[Spaces(a)..]);
    }
  }

  lemma {:induction false} SpacesOf(s: string, n: nat)
    requires n < |s| && !Space(s[n]) && forall k :: 0 <= k < n ==> Space(s[k])
    ensures Spaces(s) == n
  { if n > 0 { SpacesOf(s[1..], n - 1); } }

  lemma {:induction false} WordsOf(s: string, n: nat)
    requires n < |s| && !Word(s[n]) && forall k :: 0 <= k < n ==> Word(s[k])
    ensures Words(s) == n
  { if n > 0 { WordsOf(s[1..], n - 1); } }

  /** b begins with white space up to n, and no further. */
  predicate Blank(b: string, n: nat) { n < |b| && (forall k :: 0 <= k < n ==> Space(b[k])) && !Space(b[n]) }

  /** A name up to w, white space or none, and an equals sign at w + q. */
  predicate Assigns(b: string, w: nat, q: nat) {
    0 < w < |b| && IsName(b[..w]) && Blank(b[w..], q) && b[w..][q] == '='
  }

  /** What is scanned for: SET, white space, and such an assignment. */
  predicate Sets(line: string, n: nat, w: nat, q: nat) {
    "SET" <= line && 0 < n && Blank(line[3..], n) && Assigns(line[3..][n..], w, q)
  }

  lemma {:induction false} BlankExactly(b: string, n: nat)
    requires n < |b|
    ensures Blank(b, n) <==> Spaces(b) == n
  { if n > 0 && Space(b[0]) { BlankExactly(b[1..], n - 1); } }

  lemma {:induction false} AssignedExactly(b: string, w: nat, q: nat)
    requires Assigns(b, w, q)
    ensures Assigned(b) == Some(b[..w])
  {
    forall k | 0 <= k < w ensures Word(b[k]) { assert b[k] == b[..w][k]; }
    assert b[w] == b[w..][0];
    WordsOf(b, w);
    BlankExactly(b[w..], q);
  }

  lemma {:induction false} AssignedOnlyThen(b: string) returns (w: nat, q: nat)
    requires Assigned(b).Some?
    ensures Assigns(b, w, q) && Assigned(b) == Some(b[..w])
  {
    w := Words(b);
    WordsAreWords(b);
    q := Spaces(b[w..]);
    BlankExactly(b[w..], q);
  }

  lemma {:induction false} SettingParses(line: string, n: nat, w: nat, q: nat)
    requires Sets(line, n, w, q)
    ensures Param(line) == Some(line[3..][n..][..w])
  {
    BlankExactly(line[3..], n);
    AssignedExactly(line[3..][n..], w, q);
  }

  /** And nothing else is read as one. */
  lemma {:induction false} ParsesOnlySettings(line: string) returns (n: nat, w: nat, q: nat)
    requires Param(line).Some?
    ensures Sets(line, n, w, q) && Param(line) == Some(line[3..][n..][..w])
  {
    n := Spaces(line[3..]);
    w, q := AssignedOnlyThen(line[3..][n..]);
    BlankExactly(line[3..], n);
  }

  /** The spelling sed looks for is one the scan reads back as the same name. */
  lemma SpellingParses(line: string, p: string)
    requires IsName(p) && Canonical(line, p)
    ensures Param(line) == Some(p)
  {
    var sp := Spelling(p);
    var n := |p|;
    assert forall k :: 0 <= k < n + 7 ==> line[k] == sp[k];
    assert line[..3] == "SET";
    var a := line[3..];
    assert a[0] == ' ';
    assert forall k :: 0 <= k < n ==> a[1 + k] == line[4 + k] == sp[4 + k] == p[k];
    SpacesOf(a, 1);
    var b := a[1..];
    assert b[n] == line[4 + n] == sp[4 + n] == ' ';
    WordsOf(b, n);
    assert b[..n] == p;
    var c := b[n..];
    assert c[0] == ' ' && c[1] == line[5 + n] == sp[5 + n] == '=';
    SpacesOf(c, 1);
  }

  /** A line is deleted exactly if it sets, in the canonical spelling, one of the names to strip. */
  lemma StruckMeaning(line: string, strip: seq<string>)
    requires forall p :: p in strip ==> IsName(p)
    ensures Struck(line, strip) <==>
      (Param(line).Some? && Param(line).value in strip && Canonical(line, Param(line).value))
  {
    if p :| p in strip && Canonical(line, p) { SpellingParses(line, p); }
  }

  // ------------------------------------------------------------------ what the filter does

  function Deaths(lines: seq<string>, strip: seq<string>): (ds: seq<bool>)
    ensures |ds| == |lines| && forall k :: 0 <= k < |lines| ==> (ds[k] <==> Struck(lines[k], strip))
  { seq(|lines|, k requires 0 <= k < |lines| => Struck(lines[k], strip)) }

  /** The positions that stay, in order. */
  function Kept(dead: seq<bool>, from: nat): (ix: seq<nat>)
    requires from <= |dead|
    decreases |dead| - from
  { if from == |dead| then [] else (if dead[from] then [] else [from]) + Kept(dead, from + 1) }

  ghost predicate Ascending(ix: seq<nat>, from: nat, to: nat) {
    && (forall j :: 0 <= j < |ix| ==> from <= ix[j] < to)
    && (forall i, j :: 0 <= i < j < |ix| ==> ix[i] < ix[j])
  }

  lemma PrependAscending(k: nat, ix: seq<nat>, to: nat)
    requires k < to && Ascending(ix, k + 1, to)
    ensures Ascending([k] + ix, k, to)
  {}

  lemma {:induction false} KeptInOrder(dead: seq<bool>, from: nat)
    requires from <= |dead|
    ensures Ascending(Kept(dead, from), from, |dead|)
    decreases |dead| - from
  {
    if from < |dead| {
      KeptInOrder(dead, from + 1);
      if dead[from] { assert Kept(dead, from) == Kept(dead, from + 1); }
      else { PrependAscending(from, Kept(dead, from + 1), |dead|); }
    }
  }

  lemma {:induction false} KeptHas(dead: seq<bool>, from: nat, k: nat) returns (j: nat)
    requires from <= k < |dead| && !dead[k]
    ensures j < |Kept(dead, from)| && Kept(dead, from)[j] == k
    decreases k - from
  {
    if from == k { return 0; }
    var m := KeptHas(dead, from + 1, k);
    j := if dead[from] then m else m + 1;
  }

  lemma {:induction false} KeptOnly(dead: seq<bool>, from: nat, j: nat)
    requires from <= |dead| && j < |Kept(dead, from)|
    ensures Kept(dead, from)[j] < |dead| && !dead[Kept(dead, from)[j]]
    decreases |dead| - from
  {
    if from < |dead| {
      if dead[from] { KeptOnly(dead, from + 1, j); }
      else if j > 0 { KeptOnly(dead, from + 1, j - 1); }
    }
  }

  lemma {:induction false} SedPicks(lines: seq<string>, strip: seq<string>, from: nat, dead: seq<bool>)
    requires from <= |lines| && dead == Deaths(lines, strip)
    ensures var ix := Kept(dead, from); var out := Sed(lines[from..], strip);
      && |ix| == |out|
      && forall j :: 0 <= j < |ix| ==> ix[j] < |lines| && out[j] == lines[ix[j]]
    decreases |lines| - from
  {
    if from < |lines| {
      SedStep(lines, strip, from);
      SedPicks(lines, strip, from + 1, dead);
    }
  }

  /** The output is the sublist of the surviving lines, each once and in the original order. */
  lemma {:induction false} SedIsTheSublist(lines: seq<string>, strip: seq<string>)
    ensures var ix := Kept(Deaths(lines, strip), 0); var out := Sed(lines, strip);
      && |ix| == |out|
      && (forall j :: 0 <= j < |ix| ==> ix[j] < |lines| && out[j] == lines[ix[j]])
      && (forall i, j :: 0 <= i < j < |ix| ==> ix[i] < ix[j])
      && (forall k: nat :: k in ix <==> k < |lines| && !Struck(lines[k], strip))
  {
    var dead := Deaths(lines, strip);
    assert lines[0..] == lines;
    SedPicks(lines, strip, 0, dead);
    KeptInOrder(dead, 0);
    forall k: nat ensures k in Kept(dead, 0) <==> k < |lines| && !Struck(lines[k], strip) {
      if k < |lines| && !dead[k] { var j := KeptHas(dead, 0, k); }
      if k in Kept(dead, 0) {
        var j: nat :| j < |Kept(dead, 0)| && Kept(dead, 0)[j] == k;
        KeptOnly(dead, 0, j);
      }
    }
  }

  predicate NoneStruck(lines: seq<string>, strip: seq<string>) {
    forall k :: 0 <= k < |lines| ==> !Struck(lines[k], strip)
  }

  lemma NoneStruckSplit(lines: seq<string>, strip: seq<string>)
    requires lines != []
    ensures NoneStruck(lines, strip) <==> !Struck(lines[0], strip) && NoneStruck(lines[1..], strip)
  {
    if NoneStruck(lines[1..], strip) && !Struck(lines[0], strip) {
      forall k | 0 <= k < |lines| ensures !Struck(lines[k], strip) {
        if k > 0 { assert lines[1..][k - 1] == lines[k]; }
      }
    }
  }

  lemma {:induction false} SedLength(lines: seq<string>, strip: seq<string>)
    ensures |Sed(lines, strip)| <= |lines|
    ensures |Sed(lines, strip)| == |lines| <==> NoneStruck(lines, strip)
    ensures |Sed(lines, strip)| == |lines| ==> Sed(lines, strip) == lines
  {
    if lines != [] {
      SedLength(lines[1..], strip);
      NoneStruckSplit(lines, strip);
      assert lines == [lines[0]] + lines[1..];
    }
  }

  lemma {:induction false} SedAppend(a: seq<string>, b: seq<string>, strip: seq<string>)
    ensures Sed(a + b, strip) == Sed(a, strip) + Sed(b, strip)
  {
    if a == [] { assert a + b == b; }
    else {
      assert (a + b)[1..] == a[1..] + b;
      SedAppend(a[1..], b, strip);
    }
  }

  lemma NothingStruck(lines: seq<string>, strip: seq<string>)
    requires strip == []
    ensures Sed(lines, strip) == lines
  { SedLength(lines, strip); }

  /** The filter covers the whole stream, not the header alone: what follows the first h lines comes
      through untouched exactly if none of it is spelt like a line to be stripped. */
  lemma DataUntouched(lines: seq<string>, strip: seq<string>, h: nat)
    requires h <= |lines|
    ensures Sed(lines, strip) == Sed(lines[..h], strip) + lines[h..] <==>
            NoneStruck(lines[h..], strip)
  {
    assert lines == lines[..h] + lines[h..];
    SedAppend(lines[..h], lines[h..], strip);
    SedLength(lines[h..], strip);
  }

  // ------------------------------------------------------------------ what psql is fed

  /** The line sets a name that the server, asked, does not know. */
  predicate Rejected(line: string, query: Option<set<string>>) {
    query.Some? && Param(line).Some? && Param(line).value !in query.value
  }

  lemma {:induction false} StrippedMeaning(lines: seq<string>, query: Option<set<string>>)
    ensures forall p :: p in Stripped(lines, query) <==>
              query.Some? && p !in query.value && Some(p) in Parsed(Header(lines))
  { ParamsMeaning(Header(lines)); }

  lemma {:induction false} StrippedAreNames(lines: seq<string>, query: Option<set<string>>)
    ensures forall p :: p in Stripped(lines, query) ==> IsName(p)
  {
    StrippedMeaning(lines, query);
    forall p | p in Stripped(lines, query) ensures IsName(p) {
      var k :| 0 <= k < |Header(lines)| && Parsed(Header(lines))[k] == Some(p);
      ParamIsName(Header(lines)[k]);
    }
  }

  /** Exactly the lines that set an unknown name of the header's, in the canonical spelling, are
      deleted.  A header line that sets one with other spacing survives, and stops the load; a line of
      the data is not safe from deletion. */
  lemma {:induction false} DeletedLines(lines: seq<string>, query: Option<set<string>>, line: string)
    ensures Struck(line, Stripped(lines, query)) <==>
            && Rejected(line, query) && Canonical(line, Param(line).value)
            && Param(line) in Parsed(Header(lines))
  {
    StrippedMeaning(lines, query);
    StrippedAreNames(lines, query);
    StruckMeaning(line, Stripped(lines, query));
  }

  /** With the server's answer in hand, every header line that psql gets to see in the canonical
      spelling sets a name the server knows. */
  lemma {:induction false} SurvivorsAreKnown(lines: seq<string>, known: set<string>, k: nat, p: string)
    requires k < |Header(lines)| && IsName(p) && Canonical(lines[k], p)
    ensures !Struck(lines[k], Stripped(lines, Some(known))) <==> p in known
  {
    SpellingParses(lines[k], p);
    DeletedLines(lines, Some(known), lines[k]);
    assert Parsed(Header(lines))[k] == Param(lines[k]);
  }

  /** psql is fed the dump as it is exactly if no line of it is one to delete; in particular if the
      server could not be asked, or knows every name the header sets. */
  lemma {:induction false} FedIdentity(lines: seq<string>, query: Option<set<string>>)
    ensures Fed(lines, query) == lines <==> NoneStruck(lines, Stripped(lines, query))
    ensures query.None? ==> Fed(lines, query) == lines
    ensures query.Some? && (forall p :: Some(p) in Parsed(Header(lines)) ==> p in query.value) ==>
              Fed(lines, query) == lines
  {
    SedLength(lines, Stripped(lines, query));
    StrippedMeaning(lines, query);
  }
}
