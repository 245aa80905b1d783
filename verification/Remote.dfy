/** The two helpers every phase leans on: writing one remote file, and polling until a command
    answers or a deadline passes. */
module Remote {
  import opened StateFile

  // ------------------------------------------------------------------ push_file

  datatype File = File(content: string, mode: nat, owner: string)
  datatype Want = Want(content: string, mode: nat, owner: Option<string>)

  datatype Code = Zero | NonZero | Lost
  /** `left` is what a command that did not succeed left of the file; `creator` owns a file that a
      write creates. */
  datatype Ans = Ans(code: Code, left: Option<File>, creator: string)
  datatype Pushed = Returned(changed: bool) | Raised

  /** The four commands at most, in order: digest, stat, fix or write. */
  datatype Answers = Answers(digest: Ans, stat: Ans, fix: Ans, write: Ans)

  predicate Holds(f: Option<File>, content: string) { f.Some? && f.value.content == content }

  function Written(f: Option<File>, w: Want, creator: string): File {
    File(w.content, w.mode,
         if w.owner.Some? then w.owner.value else if f.Some? then f.value.owner else creator)
  }

  function Fixed(f: File, w: Want, drift: bool): File {
    f.(mode := if drift then w.mode else f.mode,
       owner := if w.owner.Some? then w.owner.value else f.owner)
  }

  datatype Push = Push(file: Option<File>, result: Pushed)

  function PushSpec(f: Option<File>, w: Want, a: Answers): Push {
    if a.digest.code.Lost? then Push(f, Raised)
    else if a.digest.code.Zero? && Holds(f, w.content) then
      if a.stat.code.Lost? then Push(f, Raised)
      else
        var drift := a.stat.code.Zero? && f.value.mode != w.mode;
        if !drift && w.owner.None? then Push(f, Returned(false))
        else if a.fix.code.Zero? then Push(Some(Fixed(f.value, w, drift)), Returned(false))
        else Push(a.fix.left, Raised)
    else if a.write.code.Zero? then Push(Some(Written(f, w, a.write.creator)), Returned(true))
    else Push(a.write.left, Raised)
  }

  class Node {
    var file: Option<File>

    constructor (file: Option<File>)
      ensures this.file == file
    { this.file := file; }

    method PushFile(w: Want, a: Answers) returns (result: Pushed)
      modifies this
      ensures Push(file, result) == PushSpec(old(file), w, a)
    {
      if a.digest.code.Lost? { return Raised; }
      if a.digest.code.Zero? && Holds(file, w.content) {
        if a.stat.code.Lost? { return Raised; }
        var drift := a.stat.code.Zero? && file.value.mode != w.mode;
        if drift || w.owner.Some? {
          if !a.fix.code.Zero? {
            file := a.fix.left;
            return Raised;
          }
          if drift { file := Some(file.value.(mode := w.mode)); }
          if w.owner.Some? { file := Some(file.value.(owner := w.owner.value)); }
        }
        return Returned(false);
      }
      if !a.write.code.Zero? {
        file := a.write.left;
        return Raised;
      }
      file := Some(Written(file, w, a.write.creator));
      return Returned(true);
    }
  }

  /** The file is as asked for. */
  predicate Satisfies(f: Option<File>, w: Want) {
    Holds(f, w.content) && f.value.mode == w.mode && (w.owner.Some? ==> f.value.owner == w.owner.value)
  }

  /** Whatever was there before, a push that returns leaves the content and any owner asked for; the
      mode too, except where a file already in place has another one and stat failed. */
  lemma PushConverges(f: Option<File>, w: Want, a: Answers)
    requires PushSpec(f, w, a).result.Returned?
    ensures var p := PushSpec(f, w, a);
      && Holds(p.file, w.content)
      && (w.owner.Some? ==> p.file.value.owner == w.owner.value)
      && (Satisfies(p.file, w) <==> p.result.changed || a.stat.code.Zero? || f.value.mode == w.mode)
  {}

  /** It reports a change exactly if the content differed, or the digest could not be had. */
  lemma ChangedMeansDifferent(f: Option<File>, w: Want, a: Answers)
    requires PushSpec(f, w, a).result.Returned?
    ensures PushSpec(f, w, a).result.changed <==> !Holds(f, w.content) || !a.digest.code.Zero?
  {}

  /** Pushing the same again, whatever the answers, never changes the content: where the digest
      answers it reports no change, and where the first push left the file as asked for, it leaves it
      exactly as it is. */
  lemma SecondPushIsANoOp(f: Option<File>, w: Want, a: Answers, b: Answers)
    requires PushSpec(f, w, a).result.Returned?
    requires PushSpec(PushSpec(f, w, a).file, w, b).result.Returned?
    ensures var once := PushSpec(f, w, a); var twice := PushSpec(once.file, w, b);
      && (twice.result.changed <==> !b.digest.code.Zero?)
      && twice.file.value.content == once.file.value.content
      && (Satisfies(once.file, w) ==> twice.file == once.file)
  {}

  // ------------------------------------------------------------------ wait_for

  /** One poll: how long the command took, how long the sleep after it lasted, and its answer. */
  datatype Poll = Poll(lost: bool, ok: bool, contains: bool, took: real, slept: real)
  type Polls = nat -> Poll

  ghost predicate Timely(p: Polls, interval: real) {
    forall k: nat :: p(k).took >= 0.0 && p(k).slept >= interval
  }

  predicate Passes(x: Poll) { !x.lost && x.ok && x.contains }

  /** When the k-th poll begins, if it does, counted from the start. */
  function Begun(p: Polls, k: nat): real {
    if k == 0 then 0.0 else Begun(p, k - 1) + p(k - 1).took + p(k - 1).slept
  }

  /** n intervals on end. */
  function Intervals(n: nat, interval: real): real {
    if n == 0 then 0.0 else Intervals(n - 1, interval) + interval
  }

  lemma {:induction false} IntervalsAreProducts(n: nat, interval: real)
    ensures Intervals(n, interval) == n as real * interval
  {
    if n > 0 {
      IntervalsAreProducts(n - 1, interval);
      assert n as real == (n - 1) as real + 1.0;
      Distribute((n - 1) as real, interval);
    }
  }

  lemma Distribute(a: real, b: real)
    ensures (a + 1.0) * b == a * b + b
  {}

  /** A poll begins at least one interval after the one before it. */
  lemma {:induction false} PollsAreSpaced(p: Polls, interval: real, n: nat)
    requires Timely(p, interval)
    ensures Begun(p, n) >= Intervals(n, interval)
  { if n > 0 { PollsAreSpaced(p, interval, n - 1); } }

  lemma {:induction false} LaterIsLater(p: Polls, interval: real, j: nat, k: nat)
    requires Timely(p, interval) && interval > 0.0 && j <= k
    ensures Begun(p, k) >= Begun(p, j)
    decreases k
  { if j < k { LaterIsLater(p, interval, j, k - 1); } }

  datatype Verdict = Yes | No | Threw

  /** Some poll passes that begins before the deadline and after nothing but answers. */
  ghost predicate AnsweredInTime(p: Polls, timeout: real, k: nat) {
    Begun(p, k) < timeout && Passes(p(k)) && forall j :: 0 <= j < k ==> !p(j).lost
  }

  /** More polls than fit cannot begin. */
  function Budget(timeout: real, interval: real): nat
    requires interval > 0.0
  { if timeout <= 0.0 then 0 else (timeout / interval).Floor + 1 }

  lemma WithinBudget(timeout: real, interval: real, k: nat)
    requires interval > 0.0 && Intervals(k, interval) < timeout
    ensures k < Budget(timeout, interval)
  {
    IntervalsAreProducts(k, interval);
    var q := timeout / interval;
    assert q * interval == timeout;
    if k as real > q { MulMono(q, k as real, interval); }
    assert k as real <= q;
    MulMono(0.0, k as real, interval);
  }

  lemma MulMono(a: real, b: real, c: real)
    requires a <= b && c > 0.0
    ensures a * c <= b * c
  {}

  /** Terminates; answers Yes exactly if some poll begun before the deadline passes, no earlier one
      having raised; begins at most as many polls as intervals fit before the deadline, rounded up; and
      says No no earlier than the deadline, and less than one poll and one sleep after it. */
  method WaitFor(timeout: real, interval: real, p: Polls) returns (v: Verdict, polls: nat, now: real)
    requires interval > 0.0 && Timely(p, interval)
    ensures v.Yes? <==> exists k :: AnsweredInTime(p, timeout, k)
    ensures v.Threw? ==> polls > 0 && p(polls - 1).lost && Begun(p, polls - 1) < timeout
    ensures polls > 0 ==> Intervals(polls - 1, interval) < timeout
    ensures v.No? ==> timeout <= now == Begun(p, polls)
    ensures v.No? && polls > 0 ==> now < timeout + p(polls - 1).took + p(polls - 1).slept
  {
    now := 0.0;
    polls := 0;
    while now < timeout
      invariant now == Begun(p, polls)
      invariant forall j :: 0 <= j < polls ==> !Passes(p(j)) && !p(j).lost
      invariant polls > 0 ==> Begun(p, polls - 1) < timeout
      decreases Budget(timeout, interval) - polls
    {
      PollsAreSpaced(p, interval, polls);
      WithinBudget(timeout, interval, polls);
      var r := p(polls);
      if r.lost {
        NoneInTime(p, timeout, polls);
        return Threw, polls + 1, now;
      }
      if r.ok && r.contains {
        assert AnsweredInTime(p, timeout, polls);
        return Yes, polls + 1, now + r.took;
      }
      now := now + r.took + r.slept;
      polls := polls + 1;
    }
    if polls > 0 { PollsAreSpaced(p, interval, polls - 1); }
    forall k: nat ensures !AnsweredInTime(p, timeout, k) {
      if k >= polls { LaterIsLater(p, interval, polls, k); }
    }
    return No, polls, now;
  }

  lemma NoneInTime(p: Polls, timeout: real, n: nat)
    requires p(n).lost && forall j :: 0 <= j < n ==> !Passes(p(j))
    ensures forall k :: !AnsweredInTime(p, timeout, k)
  {}
}
