/** Slicing the changelog into `## [version]` sections, and the section of one version. */
module Changelog {
  import opened StateFile

  /** One match of the section pattern: where it starts, where the version's bracket closes, and
      where its line ends. */
  datatype Match = Match(start: nat, close: nat, end: nat)

  const OPENING := "## ["

  /** The first position from `from` on that holds c; the length if none does. */
  function Find(t: string, c: char, from: nat): (i: nat)
    requires from <= |t|
    ensures from <= i <= |t| && (i < |t| ==> t[i] == c)
    ensures forall k :: from <= k < i ==> t[k] != c
    decreases |t| - from
  { if from == |t| || t[from] == c then from else Find(t, c, from + 1) }

  predicate LineStart(t: string, i: nat)
    requires i <= |t|
  { i == 0 || t[i - 1] == '\n' }

  predicate OpensAt(t: string, i: nat) { i + 4 <= |t| && t[i..i + 4] == OPENING }

  /** The version is whatever stands before the first closing bracket, newlines included, but not
      nothing; the rest of that line belongs to the header. */
  function MatchAt(t: string, i: nat): (m: Option<Match>)
    requires i <= |t|
    ensures m.Some? ==> m.value.start == i && i + 4 < m.value.close < m.value.end <= |t|
  {
    if !LineStart(t, i) || !OpensAt(t, i) then None
    else
      var close := Find(t, ']', i + 4);
      if close == |t| || close == i + 4 then None
      else
        var end := Find(t, '\n', close);
        assert t[close] != '\n';
        Some(Match(i, close, end))
  }

  /** A header: at the start of a line, two hashes, a space and a bracket, a version that is not empty and has
      no closing bracket, that bracket, and the rest of its line. */
  ghost predicate IsHeader(t: string, m: Match) {
    && m.start + 4 < m.close < m.end <= |t|
    && (m.start == 0 || t[m.start - 1] == '\n')
    && t[m.start] == t[m.start + 1] == '#' && t[m.start + 2] == ' ' && t[m.start + 3] == '['
    && t[m.close] == ']' && (forall k :: m.start + 4 <= k < m.close ==> t[k] != ']')
    && (forall k :: m.close <= k < m.end ==> t[k] != '\n') && (m.end == |t| || t[m.end] == '\n')
  }

  lemma HeadersMatch(t: string, m: Match)
    requires IsHeader(t, m)
    ensures MatchAt(t, m.start) == Some(m)
  { assert t[m.start..m.start + 4] == ['#', '#', ' ', '[']; }

  lemma MatchesAreHeaders(t: string, i: nat)
    requires i <= |t| && MatchAt(t, i).Some?
    ensures IsHeader(t, MatchAt(t, i).value)
  {
    var at := t[i..i + 4];
    assert at[0] == t[i] && at[1] == t[i + 1] && at[2] == t[i + 2] && at[3] == t[i + 3];
  }

  function NextMatch(t: string, from: nat): (m: Option<Match>)
    requires from <= |t|
    ensures m.Some? ==> from <= m.value.start <= |t| && MatchAt(t, m.value.start) == m
    ensures m.Some? ==> forall k :: from <= k < m.value.start ==> MatchAt(t, k).None?
    ensures m.None? ==> forall k :: from <= k <= |t| ==> MatchAt(t, k).None?
    decreases |t| - from
  {
    if MatchAt(t, from).Some? then MatchAt(t, from)
    else if from == |t| then None
    else NextMatch(t, from + 1)
  }

  function FindIter(t: string, from: nat): (ms: seq<Match>)
    requires from <= |t|
    decreases |t| - from
  {
    var m := NextMatch(t, from);
    if m.None? then [] else [m.value] + FindIter(t, m.value.end)
  }

  predicate Ordered(t: string, from: nat, ms: seq<Match>) {
    && from <= |t|
    && (forall k :: 0 <= k < |ms| ==> from <= ms[k].start && ms[k].start + 4 < ms[k].close < ms[k].end <= |t|)
    && (forall i, j :: 0 <= i < j < |ms| ==> ms[i].end <= ms[j].start)
  }

  lemma {:induction false} FindIterOrdered(t: string, from: nat)
    requires from <= |t|
    ensures Ordered(t, from, FindIter(t, from))
    decreases |t| - from
  {
    var m := NextMatch(t, from);
    if m.Some? { FindIterOrdered(t, m.value.end); }
  }

  // ------------------------------------------------------------------ sections

  datatype Section = Section(header: string, body: string)

  function StripLeft(s: string): (r: string)
    ensures |r| <= |s|
  { if s != [] && s[0] == '\n' then StripLeft(s[1..]) else s }

  function StripRight(s: string): (r: string)
    ensures |r| <= |s|
  { if s != [] && s[|s| - 1] == '\n' then StripRight(s[..|s| - 1]) else s }

  /** `strip("\n")`. */
  function Strip(s: string): (r: string)
    ensures |r| <= |s|
  { StripRight(StripLeft(s)) }

  function BodyEnd(t: string, ms: seq<Match>, i: nat): nat
    requires i < |ms|
  { if i + 1 < |ms| then ms[i + 1].start else |t| }

  /** A section as it stands in the text. */
  function RawSection(t: string, ms: seq<Match>, i: nat): Section
    requires Ordered(t, 0, ms) && i < |ms|
  { Section(t[ms[i].start..ms[i].end], t[ms[i].end..BodyEnd(t, ms, i)]) }

  function Cut(t: string, ms: seq<Match>, i: nat): Section
    requires Ordered(t, 0, ms) && i < |ms|
  { Section(RawSection(t, ms, i).header, Strip(RawSection(t, ms, i).body)) }

  function SectionsOf(t: string, ms: seq<Match>): (r: seq<Section>)
    requires Ordered(t, 0, ms)
    ensures |r| == |ms|
    ensures forall k :: 0 <= k < |ms| ==> r[k] == Cut(t, ms, k)
  { seq(|ms|, k requires 0 <= k < |ms| => Cut(t, ms, k)) }

  function Matches(t: string): (ms: seq<Match>)
    ensures Ordered(t, 0, ms)
  { FindIterOrdered(t, 0); FindIter(t, 0) }

  function SectionsSpec(t: string): seq<Section> { SectionsOf(t, Matches(t)) }

  method Sections(t: string) returns (out: seq<Section>)
    ensures out == SectionsSpec(t)
  {
    var matches := Matches(t);
    ghost var spec := SectionsOf(t, matches);
    out := [];
    var i := 0;
    while i < |matches|
      invariant 0 <= i <= |matches|
      invariant |out| == i && forall k :: 0 <= k < i ==> out[k] == spec[k]
    {
      var m := matches[i];
      var end := if i + 1 < |matches| then matches[i + 1].start else |t|;
      var s := Section(t[m.start..m.end], Strip(t[m.end..end]));
      assert s == Cut(t, matches, i);
      out := out + [s];
      i := i + 1;
    }
    assert out == spec;
  }

  // ------------------------------------------------------------------ nothing is lost

  function Preamble(t: string): string {
    var ms := Matches(t);
    if ms == [] then t else t[..ms[0].start]
  }

  function Joined(t: string, ms: seq<Match>, i: nat): string
    requires Ordered(t, 0, ms) && i <= |ms|
    decreases |ms| - i
  {
    if i == |ms| then []
    else RawSection(t, ms, i).header + RawSection(t, ms, i).body + Joined(t, ms, i + 1)
  }

  lemma {:induction false} JoinedIsTail(t: string, ms: seq<Match>, i: nat)
    requires Ordered(t, 0, ms) && i < |ms|
    ensures Joined(t, ms, i) == t[ms[i].start..]
    decreases |ms| - i
  {
    var e := BodyEnd(t, ms, i);
    assert t[ms[i].start..ms[i].end] + t[ms[i].end..e] == t[ms[i].start..e];
    if i + 1 < |ms| {
      JoinedIsTail(t, ms, i + 1);
      assert t[ms[i].start..e] + t[e..] == t[ms[i].start..];
    } else {
      assert Joined(t, ms, i + 1) == [];
      assert t[ms[i].start..e] + [] == t[ms[i].start..];
    }
  }

  /** The preamble, then every header with its unstripped body, is the text; and no section starts in
      the preamble. */
  lemma SectionsRebuild(t: string)
    ensures Preamble(t) + Joined(t, Matches(t), 0) == t
    ensures forall k :: 0 <= k < |Preamble(t)| ==> MatchAt(t, k).None?
  {
    var ms := Matches(t);
    if ms != [] {
      JoinedIsTail(t, ms, 0);
      assert t[..ms[0].start] + t[ms[0].start..] == t;
    } else {
      assert t + [] == t;
    }
  }

  // ------------------------------------------------------------------ one version's entry

  function VersionOf(header: string): Option<string> {
    var m := MatchAt(header, 0);
    if m.None? then None else Some(header[4..m.value.close])
  }

  function Shown(s: Section): string { if s.body == [] then s.header else s.header + "\n\n" + s.body }

  /** The index of the first section from i on of that version; |ss| if there is none. */
  function FirstOf(ss: seq<Section>, version: string, i: nat): (k: nat)
    requires i <= |ss|
    ensures i <= k <= |ss|
    ensures k < |ss| ==> VersionOf(ss[k].header) == Some(version)
    ensures forall j :: i <= j < k ==> VersionOf(ss[j].header) != Some(version)
    decreases |ss| - i
  {
    if i == |ss| || VersionOf(ss[i].header) == Some(version) then i else FirstOf(ss, version, i + 1)
  }

  function Entry(version: string, t: string): Option<string> {
    var ss := SectionsSpec(t);
    var k := FirstOf(ss, version, 0);
    if k == |ss| then None else Some(Shown(ss[k]))
  }

  method EntryFor(version: string, t: string) returns (entry: Option<string>)
    ensures entry == Entry(version, t)
  {
    var ss := Sections(t);
    var i := 0;
    while i < |ss|
      invariant 0 <= i <= |ss|
      invariant FirstOf(ss, version, 0) == FirstOf(ss, version, i)
    {
      var found := VersionOf(ss[i].header);
      if found == Some(version) {
        return Some(if ss[i].body == [] then ss[i].header else ss[i].header + "\n\n" + ss[i].body);
      }
      i := i + 1;
    }
    return None;
  }

  // ------------------------------------------------------------------ matches in a part of the text

  lemma FindIs(t: string, c: char, from: nat, i: nat)
    requires from <= i < |t| && t[i] == c && forall k :: from <= k < i ==> t[k] != c
    ensures Find(t, c, from) == i
  {
    assert Find(t, c, from) <= i;
  }

  lemma FindNone(t: string, c: char, from: nat)
    requires from <= |t| && forall k :: from <= k < |t| ==> t[k] != c
    ensures Find(t, c, from) == |t|
  {}

  /** `t` reads like `u` from i and j on, over n characters. */
  predicate Same(t: string, i: nat, u: string, j: nat, n: nat) {
    i + n <= |t| && j + n <= |u| && t[i..i + n] == u[j..j + n]
  }

  lemma SameAt(t: string, i: nat, u: string, j: nat, n: nat, k: nat)
    requires Same(t, i, u, j, n) && k < n
    ensures t[i + k] == u[j + k]
  {
    assert t[i..i + n][k] == u[j..j + n][k];
  }

  lemma OpensInBoth(t: string, i: nat, u: string, j: nat, n: nat)
    requires Same(t, i, u, j, n) && 4 <= n
    ensures OpensAt(t, i) <==> OpensAt(u, j)
  {
    assert t[i..i + 4] == t[i..i + n][..4];
    assert u[j..j + 4] == u[j..j + n][..4];
  }

  /** Where a match's opening and version can be read elsewhere at a line start, there is a match. */
  lemma MatchCarries(t: string, i: nat, u: string, j: nat, n: nat)
    requires i <= |t| && Same(t, i, u, j, n) && MatchAt(t, i).Some? && MatchAt(t, i).value.close < i + n
    requires LineStart(u, j)
    ensures MatchAt(u, j).Some? && MatchAt(u, j).value.close - j == MatchAt(t, i).value.close - i
  {
    OpensInBoth(t, i, u, j, n);
    var c := MatchAt(t, i).value.close - i;
    forall k | j + 4 <= k < j + c ensures u[k] != ']' {
      SameAt(t, i, u, j, n, k - j);
    }
    SameAt(t, i, u, j, n, c);
    FindIs(u, ']', j + 4, j + c);
  }

  lemma VersionSlice(t: string, m: Match, x: string)
    requires m.start + 4 <= m.close <= m.end <= |t| && t[m.start..m.end] <= x
    ensures x[4..m.close - m.start] == t[m.start + 4..m.close]
  {
    var h := t[m.start..m.end];
    var n := m.close - m.start;
    assert x[..|h|] == h;
    assert x[4..n] == h[4..n];
    forall k | 4 <= k < n ensures h[k] == t[m.start + k] {}
    assert h[4..n] == t[m.start + 4..m.close];
  }

  /** A header, read alone, is a match of its whole length, with the version it has in the text. */
  lemma HeaderRematches(t: string, m: Match, x: string)
    requires m.start <= |t| && MatchAt(t, m.start) == Some(m)
    requires t[m.start..m.end] <= x && (|x| > m.end - m.start ==> x[m.end - m.start] == '\n')
    ensures MatchAt(x, 0) == Some(Match(0, m.close - m.start, m.end - m.start))
    ensures x[4..m.close - m.start] == t[m.start + 4..m.close]
  {
    var n := m.end - m.start;
    assert x[..n] == t[m.start..m.end];
    assert Same(t, m.start, x, 0, n);
    MatchCarries(t, m.start, x, 0, n);
    VersionSlice(t, m, x);
    forall k | m.close - m.start <= k < n ensures x[k] != '\n' { SameAt(t, m.start, x, 0, n, k); }
    if n < |x| { FindIs(x, '\n', m.close - m.start, n); }
    else { FindNone(x, '\n', m.close - m.start); }
  }

  lemma {:induction false} StripLeftShape(s: string)
    ensures var r := StripLeft(s);
      && r == s[|s| - |r|..] && (r != [] ==> r[0] != '\n')
      && forall k :: 0 <= k < |s| - |r| ==> s[k] == '\n'
  { if s != [] && s[0] == '\n' { StripLeftShape(s[1..]); } }

  lemma {:induction false} StripRightShape(s: string)
    ensures var r := StripRight(s); r == s[..|r|] && (r != [] ==> r[|r| - 1] != '\n')
  { if s != [] && s[|s| - 1] == '\n' { StripRightShape(s[..|s| - 1]); } }

  /** What is stripped off the left is newlines, and stripping leaves a stretch of the text. */
  lemma StripIsSlice(s: string) returns (a: nat)
    ensures a + |Strip(s)| <= |s| && Strip(s) == s[a..a + |Strip(s)|]
    ensures forall k :: 0 <= k < a ==> s[k] == '\n'
    ensures Strip(s) != [] ==> Strip(s)[0] != '\n' && StripRight(Strip(s)) == Strip(s)
  {
    var l := StripLeft(s);
    StripLeftShape(s);
    StripRightShape(l);
    a := |s| - |l|;
    assert l[..|Strip(s)|] == s[a..a + |Strip(s)|];
  }

  lemma {:induction false} StripLeftOf(s: string, r: string, n: nat)
    requires n + |r| == |s| && r == s[n..] && (forall k :: 0 <= k < n ==> s[k] == '\n')
    requires r != [] && r[0] != '\n'
    ensures StripLeft(s) == r
    decreases n
  {
    if n > 0 {
      assert s[1..][n - 1..] == r;
      StripLeftOf(s[1..], r, n - 1);
    }
  }

  /** Stripping a shown body again gives the body. */
  lemma StripAgain(s: string)
    requires Strip(s) != []
    ensures Strip("\n\n" + Strip(s)) == Strip(s)
  {
    var a := StripIsSlice(s);
    StripLeftOf("\n\n" + Strip(s), Strip(s), 2);
  }

  // ------------------------------------------------------------------ slicing is idempotent

  lemma {:induction false} FindIterGaps(t: string, from: nat, k: nat)
    requires from <= |t| && k < |FindIter(t, from)|
    ensures var ms := FindIter(t, from);
      && ms[k].start <= |t| && MatchAt(t, ms[k].start) == Some(ms[k])
      && ms[k].end <= BodyEnd(t, ms, k) <= |t|
      && forall p :: ms[k].end <= p < BodyEnd(t, ms, k) ==> MatchAt(t, p).None?
    decreases |t| - from
  {
    var m := NextMatch(t, from).value;
    var rest := FindIter(t, m.end);
    FindIterOrdered(t, m.end);
    if k > 0 {
      FindIterGaps(t, m.end, k - 1);
      assert FindIter(t, from)[k] == rest[k - 1];
      assert BodyEnd(t, FindIter(t, from), k) == BodyEnd(t, rest, k - 1);
    }
  }

  /** x is n characters, two newlines, and then a stretch of t that begins after a newline at or
      beyond `from`. */
  predicate Layout(x: string, n: nat, t: string, from: nat, a: nat) {
    && n + 2 < |x| && x[n] == '\n' && x[n + 1] == '\n'
    && a > 0 && from + a + (|x| - n - 2) <= |t| && t[from + a - 1] == '\n'
    && x[n + 2..] == t[from + a..from + a + (|x| - n - 2)]
  }

  lemma TailIsSame(x: string, n: nat, t: string, from: nat, a: nat, p: nat)
    requires Layout(x, n, t, from, a) && n + 2 <= p <= |x|
    ensures Same(x, p, t, from + a + (p - n - 2), |x| - p)
    ensures LineStart(x, p) ==> LineStart(t, from + a + (p - n - 2))
  {
    var b := x[n + 2..];
    var q := from + a + (p - n - 2);
    assert x[p..p + (|x| - p)] == b[p - n - 2..];
    assert t[q..q + (|x| - p)] == b[p - n - 2..];
    if p > n + 2 { assert x[p - 1] == b[p - n - 3] == t[q - 1]; }
  }

  /** After the header nothing matches in x that would not match in t. */
  lemma TailHasNoMatch(x: string, n: nat, t: string, from: nat, a: nat, p: nat)
    requires Layout(x, n, t, from, a) && n <= p <= |x|
    requires forall q :: from <= q < from + a + (|x| - n - 2) ==> MatchAt(t, q).None?
    ensures MatchAt(x, p).None?
  {
    if MatchAt(x, p).Some? {
      OpeningIsHash(x, p);
      TailIsSame(x, n, t, from, a, p);
      MatchCarries(x, p, t, from + a + (p - n - 2), |x| - p);
    }
  }

  lemma SliceOfSlice(t: string, from: nat, to: nat, a: nat, n: nat)
    requires from <= to <= |t| && from + a + n <= to
    ensures t[from..to][a..a + n] == t[from + a..from + a + n]
  {
    var l, r := t[from..to][a..a + n], t[from + a..from + a + n];
    forall k | 0 <= k < n ensures l[k] == r[k] {}
    assert l == r;
  }

  /** Where a stripped text begins, some newline was stripped if the text began with one. */
  lemma StripStart(s: string) returns (a: nat)
    requires Strip(s) != [] && s[0] == '\n'
    ensures 0 < a && a + |Strip(s)| <= |s| && s[a - 1] == '\n' && Strip(s) == s[a..a + |Strip(s)|]
  {
    a := StripIsSlice(s);
    assert Strip(s)[0] == s[a];
  }

  /** A header shown with a body that is not empty is laid out like that. */
  lemma ShownLayout(t: string, m: Match, e: nat, b: string, x: string) returns (a: nat)
    requires m.start <= m.end <= e <= |t| && (m.end < |t| ==> t[m.end] == '\n')
    requires b == Strip(t[m.end..e]) && b != [] && x == t[m.start..m.end] + "\n\n" + b
    ensures Layout(x, m.end - m.start, t, m.end, a) && m.end + a + |b| <= e
  {
    var raw := t[m.end..e];
    assert raw[0] == t[m.end];
    a := StripStart(raw);
    assert x[m.end - m.start + 2..] == b;
    SliceOfSlice(t, m.end, e, a, |b|);
    assert t[m.end + a - 1] == raw[a - 1];
  }

  lemma OpeningIsHash(x: string, p: nat)
    requires p <= |x| && MatchAt(x, p).Some?
    ensures p < |x| && x[p] == '#'
  {
    assert x[p..p + 4][0] == OPENING[0];
  }

  lemma NoMoreMatches(x: string, from: nat)
    requires from <= |x| && forall p :: from <= p <= |x| ==> MatchAt(x, p).None?
    ensures FindIter(x, from) == []
  {}

  /** A shown section, read alone, is that one section. */
  lemma ShownAlone(t: string, m: Match, e: nat, x: string)
    requires m.start <= |t| && MatchAt(t, m.start) == Some(m) && m.end <= e <= |t|
    requires forall q :: m.end <= q < e ==> MatchAt(t, q).None?
    requires x == Shown(Section(t[m.start..m.end], Strip(t[m.end..e])))
    ensures FindIter(x, 0) == [Match(0, m.close - m.start, m.end - m.start)]
    ensures x[..m.end - m.start] == t[m.start..m.end]
  {
    var n := m.end - m.start;
    if Strip(t[m.end..e]) != [] {
      var a := ShownLayout(t, m, e, Strip(t[m.end..e]), x);
      forall p | n <= p <= |x| ensures MatchAt(x, p).None? { TailHasNoMatch(x, n, t, m.end, a, p); }
    } else {
      NothingAtTheEnd(x);
    }
    HeaderRematches(t, m, x);
    NoMoreMatches(x, n);
  }

  lemma NothingAtTheEnd(x: string)
    ensures MatchAt(x, |x|).None?
  {}

  lemma OneCut(x: string, m: Match, s: Section)
    requires m.start == 0 && m.start + 4 < m.close < m.end <= |x| && Ordered(x, 0, [m])
    requires x[..m.end] == s.header && Strip(x[m.end..]) == s.body
    ensures SectionsOf(x, [m]) == [s]
  {
    assert BodyEnd(x, [m], 0) == |x|;
    assert RawSection(x, [m], 0) == Section(x[..m.end], x[m.end..]);
  }

  lemma {:induction false} OneSection(x: string, m: Match, s: Section)
    requires FindIter(x, 0) == [m] && m.start == 0
    requires m.end <= |x| && x[..m.end] == s.header && Strip(x[m.end..]) == s.body
    ensures SectionsSpec(x) == [s]
  {
    FindIterOrdered(x, 0);
    assert Ordered(x, 0, [m]) && [m][0] == m;
    OneCut(x, m, s);
  }

  /** The part of a shown section after its header strips to the body. */
  lemma ShownRest(header: string, raw: string)
    ensures var x := Shown(Section(header, Strip(raw)));
      |header| <= |x| && x[..|header|] == header && Strip(x[|header|..]) == Strip(raw)
  {
    var x := Shown(Section(header, Strip(raw)));
    if Strip(raw) != [] {
      assert x[|header|..] == "\n\n" + Strip(raw);
      StripAgain(raw);
    } else {
      assert x[|header|..] == [];
    }
  }

  lemma {:induction false} ShownSections(t: string, m: Match, e: nat, s: Section)
    requires m.start <= |t| && MatchAt(t, m.start) == Some(m) && m.end <= e <= |t|
    requires forall q :: m.end <= q < e ==> MatchAt(t, q).None?
    requires s == Section(t[m.start..m.end], Strip(t[m.end..e]))
    ensures SectionsSpec(Shown(s)) == [s]
  {
    ShownAlone(t, m, e, Shown(s));
    ShownRest(s.header, t[m.end..e]);
    OneSection(Shown(s), Match(0, m.close - m.start, |s.header|), s);
  }

  lemma SingleFirst(s: Section, version: string)
    requires VersionOf(s.header) == Some(version)
    ensures FirstOf([s], version, 0) == 0
  {}

  /** Slicing what was sliced changes nothing, for every text and version listed in it. */
  lemma {:induction false} EntryIsIdempotent(version: string, t: string)
    requires Entry(version, t).Some?
    ensures Entry(version, Entry(version, t).value) == Entry(version, t)
  {
    var ss := SectionsSpec(t);
    var k := FirstOf(ss, version, 0);
    FindIterGaps(t, 0, k);
    ShownSections(t, Matches(t)[k], BodyEnd(t, Matches(t), k), ss[k]);
    SingleFirst(ss[k], version);
  }

  /** The version a match carries in the text itself. */
  function Listed(t: string, ms: seq<Match>, k: nat): string
    requires Ordered(t, 0, ms) && k < |ms|
  { t[ms[k].start + 4..ms[k].close] }

  lemma HeaderVersion(t: string, m: Match)
    requires m.start <= |t| && MatchAt(t, m.start) == Some(m)
    ensures VersionOf(t[m.start..m.end]) == Some(t[m.start + 4..m.close])
  { HeaderRematches(t, m, t[m.start..m.end]); }

  lemma SectionVersion(t: string, k: nat)
    requires k < |Matches(t)|
    ensures VersionOf(SectionsSpec(t)[k].header) == Some(Listed(t, Matches(t), k))
  {
    FindIterGaps(t, 0, k);
    HeaderVersion(t, Matches(t)[k]);
  }

  /** The entry is the first section whose header carries that version in the text itself, and there
      is none exactly if no header does. */
  lemma {:induction false} EntryIsFirst(version: string, t: string)
    ensures Entry(version, t).None? <==>
            forall k :: 0 <= k < |Matches(t)| ==> Listed(t, Matches(t), k) != version
    ensures Entry(version, t).Some? ==> exists k ::
      && 0 <= k < |Matches(t)| && Listed(t, Matches(t), k) == version
      && Entry(version, t) == Some(Shown(SectionsSpec(t)[k]))
      && forall j :: 0 <= j < k ==> Listed(t, Matches(t), j) != version
  {
    forall k | 0 <= k < |Matches(t)|
      ensures VersionOf(SectionsSpec(t)[k].header) == Some(Listed(t, Matches(t), k))
    { SectionVersion(t, k); }
    var k := FirstOf(SectionsSpec(t), version, 0);
    if k < |Matches(t)| {
      assert Listed(t, Matches(t), k) == version;
      forall j | 0 <= j < k ensures Listed(t, Matches(t), j) != version {
        assert VersionOf(SectionsSpec(t)[j].header) != Some(version);
      }
    }
  }
}
