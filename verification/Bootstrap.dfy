/** Bringing a book up to date after a snapshot: pushes buffered before the snapshot, the commits
  fetched to bridge a gap, and the pushes left over.

  B is the book, D the diffs of one version; apply is what a version does to the book, which may raise.
 */
module Bootstrap {

  datatype Update<D> = Update(version: int, data: D)

  /** The commit fetch fails, or returns commits in the order the exchange lists them. */
  datatype Fetch<D> = Raises | Commits(commits: seq<Update<D>>)

  /** How an apply, a loop of applies, or the bootstrap ends. What raises may leave its version half
      applied; what hangs never returns. */
  datatype Ending = Fine | Raised | Hung

  datatype Result<B> = Result(book: B, ending: Ending)

  /** First loop: the pushes applied from the buffer, in order, and those left over. */
  function BufferPass<D>(last: int, pending: seq<Update<D>>): (seq<Update<D>>, seq<Update<D>>) {
    if |pending| == 0 then ([], [])
    else
      var n := |pending| - 1;
      var (applied, remaining) := BufferPass(last, pending[..n]);
      var target := last + |applied| + 1;
      if pending[n].version == target then (applied + [pending[n]], remaining)
      else if pending[n].version < target then (applied, remaining)
      else (applied, remaining + [pending[n]])
  }

  /** Gap recovery: commits already applied are skipped, and the first gap ends it. */
  function CommitPass<D>(last: int, commits: seq<Update<D>>): seq<Update<D>>
    decreases |commits|
  {
    if |commits| == 0 then []
    else if commits[0].version <= last then CommitPass(last, commits[1..])
    else if commits[0].version != last + 1 then []
    else [commits[0]] + CommitPass(last + 1, commits[1..])
  }

  /** Last loop: left-over pushes that continue the run; the others are skipped. */
  function LeftoverPass<D>(last: int, remaining: seq<Update<D>>): seq<Update<D>>
    decreases |remaining|
  {
    if |remaining| == 0 then []
    else if remaining[0].version != last + 1 then LeftoverPass(last, remaining[1..])
    else [remaining[0]] + LeftoverPass(last + 1, remaining[1..])
  }

  // ---------------------------------------------------------------- applying

  /** The book after the versions of a log up to the first that does not end well, and how many of them
      were applied in full. */
  datatype Ran<B> = Ran(book: B, count: nat, ending: Ending)

  function Replay<B, D>(apply: (B, D) -> Result<B>, book: B, log: seq<Update<D>>): (r: Ran<B>)
    ensures if r.ending.Fine? then r.count == |log| else r.count < |log|
  {
    if |log| == 0 then Ran(book, 0, Fine)
    else
      var n := |log| - 1;
      var before := Replay(apply, book, log[..n]);
      if !before.ending.Fine? then before
      else
        var last := apply(before.book, log[n].data);
        Ran(last.book, if last.ending.Fine? then n + 1 else n, last.ending)
  }

  /** Between two loops: the book, the last applied version, and the versions applied in full since the
      snapshot. */
  datatype Stage<B, D> = Stage(book: B, last: int, log: seq<Update<D>>, ending: Ending)

  function After<B, D>(apply: (B, D) -> Result<B>, s: Stage<B, D>, pass: seq<Update<D>>): Stage<B, D> {
    var run := Replay(apply, s.book, pass);
    Stage(run.book, s.last + run.count, s.log + pass[..run.count], run.ending)
  }

  // ---------------------------------------------------------------- the bootstrap

  /** What a bootstrap starts from: the snapshot and its version, the pushes buffered, the fetch. */
  datatype Input<!B, !D> = Input(
    apply: (B, D) -> Result<B>, book: B, version: int, pending: seq<Update<D>>, fetch: Fetch<D>)

  function Remaining<B, D>(i: Input<B, D>): seq<Update<D>> {
    BufferPass(i.version, i.pending).1
  }

  /** After the buffer loop. A push that raises ends the bootstrap. */
  function Buffered<B, D>(i: Input<B, D>): Stage<B, D> {
    After(i.apply, Stage(i.book, i.version, [], Fine), BufferPass(i.version, i.pending).0)
  }

  /** After the commits that continue the run, before the failure handler. */
  function Fetched<B, D>(i: Input<B, D>): Stage<B, D> {
    if i.fetch.Raises? then Buffered(i).(ending := Raised)
    else After(i.apply, Buffered(i), CommitPass(Buffered(i).last, i.fetch.commits))
  }

  predicate Recovers<B, D>(i: Input<B, D>) {
    Buffered(i).ending.Fine? && |Remaining(i)| > 0
  }

  /** The handler catches a failed fetch, and a commit that raises when it is applied. */
  predicate RecoveryRaises<B, D>(i: Input<B, D>) {
    Recovers(i) && Fetched(i).ending.Raised?
  }

  /** It carries on just before the oldest left-over push, as if nothing were missing. */
  function Bridged<B, D>(i: Input<B, D>): Stage<B, D> {
    if !Recovers(i) then Buffered(i)
    else if Fetched(i).ending.Raised? then Fetched(i).(last := Remaining(i)[0].version - 1, ending := Fine)
    else Fetched(i)
  }

  function Leftovers<B, D>(i: Input<B, D>): seq<Update<D>> {
    LeftoverPass(Bridged(i).last, Remaining(i))
  }

  function Boot<B, D>(i: Input<B, D>): Stage<B, D> {
    if Bridged(i).ending.Fine? then After(i.apply, Bridged(i), Leftovers(i)) else Bridged(i)
  }

  /** The mark of the sequence validator moves once gap recovery has returned with commits, or in its
      handler. */
  predicate MarkMoves<B, D>(i: Input<B, D>) {
    Recovers(i) && i.fetch != Commits([]) && Bridged(i).ending.Fine?
  }

  function Mark<B, D>(i: Input<B, D>): int {
    if MarkMoves(i) then Bridged(i).last else i.version
  }

  /** Versions first, first + 1, ... without a gap or a repeat. */
  ghost predicate Contiguous<D>(first: int, log: seq<Update<D>>) {
    forall k :: 0 <= k < |log| ==> log[k].version == first + k
  }

  // ---------------------------------------------------------------- contiguity

  lemma {:induction false} BufferIsContiguous<D>(last: int, pending: seq<Update<D>>)
    ensures Contiguous(last + 1, BufferPass(last, pending).0)
    ensures forall i :: 0 <= i < |BufferPass(last, pending).1| ==> BufferPass(last, pending).1[i] in pending
    ensures forall i :: 0 <= i < |BufferPass(last, pending).0| ==> BufferPass(last, pending).0[i] in pending
  {
    if |pending| > 0 {
      var n := |pending| - 1;
      BufferIsContiguous(last, pending[..n]);
      assert pending == pending[..n] + [pending[n]];
    }
  }

  lemma {:induction false} CommitsAreContiguous<D>(last: int, commits: seq<Update<D>>)
    ensures Contiguous(last + 1, CommitPass(last, commits))
    ensures forall i :: 0 <= i < |CommitPass(last, commits)| ==> CommitPass(last, commits)[i] in commits
    decreases |commits|
  {
    if |commits| > 0 {
      CommitsAreContiguous(last, commits[1..]);
      CommitsAreContiguous(last + 1, commits[1..]);
    }
  }

  lemma {:induction false} LeftoversAreContiguous<D>(last: int, remaining: seq<Update<D>>)
    ensures Contiguous(last + 1, LeftoverPass(last, remaining))
    ensures forall i :: 0 <= i < |LeftoverPass(last, remaining)| ==> LeftoverPass(last, remaining)[i] in remaining
    decreases |remaining|
  {
    if |remaining| > 0 {
      LeftoversAreContiguous(last, remaining[1..]);
      LeftoversAreContiguous(last + 1, remaining[1..]);
    }
  }

  lemma ContiguousConcat<D>(first: int, a: seq<Update<D>>, b: seq<Update<D>>)
    requires Contiguous(first, a)
    ensures Contiguous(first, a + b) <==> Contiguous(first + |a|, b)
  {
    var all := a + b;
    if Contiguous(first, all) {
      forall k | 0 <= k < |b| ensures b[k].version == first + |a| + k {
        assert all[|a| + k] == b[k];
      }
    }
  }

  /** The log runs from the version after the snapshot to the last applied one. */
  ghost predicate InStep<B, D>(version: int, s: Stage<B, D>) {
    Contiguous(version + 1, s.log) && s.last == version + |s.log|
  }

  lemma AfterIsInStep<B, D>(apply: (B, D) -> Result<B>, version: int, s: Stage<B, D>, pass: seq<Update<D>>)
    requires InStep(version, s) && Contiguous(s.last + 1, pass)
    ensures InStep(version, After(apply, s, pass))
  {
    var count := Replay(apply, s.book, pass).count;
    ContiguousConcat(version + 1, s.log, pass[..count]);
  }

  lemma BufferedIsInStep<B, D>(i: Input<B, D>)
    ensures InStep(i.version, Buffered(i))
  {
    BufferIsContiguous(i.version, i.pending);
    AfterIsInStep(i.apply, i.version, Stage(i.book, i.version, [], Fine), BufferPass(i.version, i.pending).0);
  }

  lemma FetchedIsInStep<B, D>(i: Input<B, D>)
    ensures InStep(i.version, Fetched(i))
  {
    BufferedIsInStep(i);
    if i.fetch.Commits? {
      CommitsAreContiguous(Buffered(i).last, i.fetch.commits);
      AfterIsInStep(i.apply, i.version, Buffered(i), CommitPass(Buffered(i).last, i.fetch.commits));
    }
  }

  /** The oldest left-over push continues the run that recovery had reached when it raised. */
  predicate OldestContinues<B, D>(i: Input<B, D>)
    requires |Remaining(i)| > 0
  {
    Remaining(i)[0].version == i.version + |Bridged(i).log| + 1
  }

  /** The versions applied in full after a snapshot are snapshot + 1, snapshot + 2, ... each once and in
      order, exactly unless recovery raised, a left-over push was applied after that, and the oldest does
      not continue the run. A bootstrap that ends well after a raise has always applied one. */
  lemma AppliedIsContiguous<B, D>(i: Input<B, D>)
    ensures Contiguous(i.version + 1, Boot(i).log) <==>
              (RecoveryRaises(i) && |Boot(i).log| > |Bridged(i).log| ==> OldestContinues(i))
    ensures RecoveryRaises(i) && Boot(i).ending.Fine? ==> |Boot(i).log| > |Bridged(i).log|
  {
    BufferedIsInStep(i);
    FetchedIsInStep(i);
    LeftoversAreContiguous(Bridged(i).last, Remaining(i));
    if RecoveryRaises(i) {
      ResumedAtOldest(i);
    } else if Bridged(i).ending.Fine? {
      AfterIsInStep(i.apply, i.version, Bridged(i), Leftovers(i));
    }
  }

  lemma ResumedAtOldest<B, D>(i: Input<B, D>)
    requires RecoveryRaises(i)
    ensures |Leftovers(i)| > 0 && Leftovers(i)[0] == Remaining(i)[0]
    ensures Contiguous(i.version + 1, Boot(i).log) <==> |Boot(i).log| == |Bridged(i).log| || OldestContinues(i)
  {
    FetchedIsInStep(i);
    LeftoversAreContiguous(Bridged(i).last, Remaining(i));
    var count := Replay(i.apply, Bridged(i).book, Leftovers(i)).count;
    ContiguousConcat(i.version + 1, Bridged(i).log, Leftovers(i)[..count]);
  }

  // ---------------------------------------------------------------- the book

  lemma {:induction false} ReplayConcat<B, D>(
    apply: (B, D) -> Result<B>, book: B, a: seq<Update<D>>, b: seq<Update<D>>)
    ensures var first := Replay(apply, book, a);
            var second := Replay(apply, first.book, b);
            Replay(apply, book, a + b) ==
              if first.ending.Fine? then Ran(second.book, |a| + second.count, second.ending) else first
    decreases |b|
  {
    if |b| == 0 {
      assert a + b == a;
    } else {
      assert (a + b)[..|a + b| - 1] == a + b[..|b| - 1];
      ReplayConcat(apply, book, a, b[..|b| - 1]);
    }
  }

  /** What comes behind the version that ended a log does not matter. */
  lemma ReplayReached<B, D>(apply: (B, D) -> Result<B>, book: B, log: seq<Update<D>>, n: nat)
    requires var run := Replay(apply, book, log); n == if run.ending.Fine? then run.count else run.count + 1
    ensures Replay(apply, book, log[..n]) == Replay(apply, book, log)
  {
    ReplayConcat(apply, book, log[..n], log[n..]);
    assert log[..n] + log[n..] == log;
  }

  lemma AfterConcat<B, D>(
    apply: (B, D) -> Result<B>, s: Stage<B, D>, a: seq<Update<D>>, b: seq<Update<D>>)
    ensures var first := After(apply, s, a);
            After(apply, s, a + b) == if first.ending.Fine? then After(apply, first, b) else first
  {
    ReplayConcat(apply, s.book, a, b);
    var count := Replay(apply, s.book, a + b).count;
    if Replay(apply, s.book, a).ending.Fine? {
      assert s.log + (a + b)[..count] == s.log + a + b[..count - |a|];
    } else {
      assert (a + b)[..count] == a[..count];
    }
  }

  /** Versions from + 1, ..., from + n as the exchange committed them. */
  function Versions<D>(truth: int -> D, from: int, n: nat): seq<Update<D>> {
    seq(n, k => Update(from + 1 + k, truth(from + 1 + k)))
  }

  ghost predicate Honest<D>(truth: int -> D, log: seq<Update<D>>) {
    forall u :: u in log ==> u.data == truth(u.version)
  }

  /** The stage is what the snapshot and the committed versions of its log come to. If an apply has
      ended it, the version after these is in the book as far as its apply went. */
  ghost predicate IsPrefix<B, D>(i: Input<B, D>, truth: int -> D, s: Stage<B, D>) {
    && InStep(i.version, s)
    && Replay(i.apply, i.book, Versions(truth, i.version, |s.log| + if s.ending.Fine? then 0 else 1)) ==
       Ran(s.book, |s.log|, s.ending)
  }

  lemma AfterIsPrefix<B, D>(i: Input<B, D>, truth: int -> D, s: Stage<B, D>, pass: seq<Update<D>>)
    requires IsPrefix(i, truth, s) && s.ending.Fine?
    requires Contiguous(s.last + 1, pass) && Honest(truth, pass)
    ensures IsPrefix(i, truth, After(i.apply, s, pass))
  {
    AfterIsInStep(i.apply, i.version, s, pass);
    var run := Replay(i.apply, s.book, pass);
    var n := if run.ending.Fine? then run.count else run.count + 1;
    VersionsGoOn(truth, i.version, |s.log|, pass[..n]);
    ReplayOn(i.apply, i.book, Versions(truth, i.version, |s.log|), s.book, pass, n);
  }

  lemma ReplayOn<B, D>(
    apply: (B, D) -> Result<B>, book: B, done: seq<Update<D>>, mid: B, pass: seq<Update<D>>, n: nat)
    requires Replay(apply, book, done) == Ran(mid, |done|, Fine)
    requires var run := Replay(apply, mid, pass); n == if run.ending.Fine? then run.count else run.count + 1
    ensures var run := Replay(apply, mid, pass);
            Replay(apply, book, done + pass[..n]) == Ran(run.book, |done| + run.count, run.ending)
  {
    ReplayReached(apply, mid, pass, n);
    ReplayConcat(apply, book, done, pass[..n]);
  }

  lemma VersionsGoOn<D>(truth: int -> D, from: int, n: nat, more: seq<Update<D>>)
    requires Contiguous(from + n + 1, more) && Honest(truth, more)
    ensures Versions(truth, from, n) + more == Versions(truth, from, n + |more|)
  {
    forall k | 0 <= k < |more| ensures more[k] == Update(from + n + 1 + k, truth(from + n + 1 + k)) {
      assert more[k] in more;
    }
  }

  lemma BufferedIsPrefix<B, D>(i: Input<B, D>, truth: int -> D)
    requires Honest(truth, i.pending)
    ensures IsPrefix(i, truth, Buffered(i))
  {
    BufferIsContiguous(i.version, i.pending);
    AfterIsPrefix(i, truth, Stage(i.book, i.version, [], Fine), BufferPass(i.version, i.pending).0);
  }

  lemma FetchedIsPrefix<B, D>(i: Input<B, D>, truth: int -> D)
    requires Honest(truth, i.pending) && i.fetch.Commits? && Honest(truth, i.fetch.commits) && Recovers(i)
    ensures IsPrefix(i, truth, Fetched(i))
  {
    BufferedIsPrefix(i, truth);
    CommitsAreContiguous(Buffered(i).last, i.fetch.commits);
    AfterIsPrefix(i, truth, Buffered(i), CommitPass(Buffered(i).last, i.fetch.commits));
  }

  /** If pushes and commits of a version carry what the exchange committed under it, the book after a
      bootstrap whose recovery did not raise is the snapshot with exactly the versions snapshot + 1 ..
      last applied, and with the next as far as its apply went if one raised. */
  lemma BookIsCommittedPrefix<B, D>(i: Input<B, D>, truth: int -> D)
    requires Honest(truth, i.pending) && (i.fetch.Commits? ==> Honest(truth, i.fetch.commits))
    ensures !RecoveryRaises(i) ==> IsPrefix(i, truth, Boot(i))
  {
    BufferedIsPrefix(i, truth);
    if !RecoveryRaises(i) {
      if Recovers(i) { FetchedIsPrefix(i, truth); }
      if Bridged(i).ending.Fine? {
        LeftoversAreContiguous(Bridged(i).last, Remaining(i));
        BufferIsContiguous(i.version, i.pending);
        AfterIsPrefix(i, truth, Bridged(i), Leftovers(i));
      }
    }
  }

  /** If recovery raised, the left-over pushes go on top of the prefix reached; a commit that raised is
      in the book as far as its apply went, and no version follows it until the oldest left-over one. */
  lemma RaisedRecoveryGoesOn<B, D>(i: Input<B, D>, truth: int -> D)
    requires Honest(truth, i.pending) && (i.fetch.Commits? ==> Honest(truth, i.fetch.commits))
    requires RecoveryRaises(i)
    ensures IsPrefix(i, truth, if i.fetch.Raises? then Buffered(i) else Fetched(i))
    ensures Bridged(i).book == Fetched(i).book && Bridged(i).log == Fetched(i).log
    ensures Boot(i).book == Replay(i.apply, Fetched(i).book, Leftovers(i)).book
  {
    BufferedIsPrefix(i, truth);
    if i.fetch.Commits? { FetchedIsPrefix(i, truth); }
  }

  // ---------------------------------------------------------------- where the counters end

  /** The last applied version counts what was applied exactly unless recovery raised and the oldest
      left-over push does not continue the run. */
  lemma LastIsCounted<B, D>(i: Input<B, D>)
    ensures Boot(i).last == i.version + |Boot(i).log| <==> (RecoveryRaises(i) ==> OldestContinues(i))
  {
    BufferedIsInStep(i);
    FetchedIsInStep(i);
  }

  /** The validator never stands ahead of the last applied version, and at it exactly if nothing was
      applied after its mark moved, or at all if it did not move. After a recovery that raised, a
      bootstrap that ends well always leaves it behind. A live push repeating a version in between would
      be taken for new. */
  lemma ValidatorMayLag<B, D>(i: Input<B, D>)
    ensures Mark(i) <= Boot(i).last
    ensures Mark(i) == Boot(i).last <==> |Boot(i).log| == if MarkMoves(i) then |Bridged(i).log| else 0
    ensures RecoveryRaises(i) && Boot(i).ending.Fine? ==> Mark(i) < Boot(i).last
  {
    BufferedIsInStep(i);
    FetchedIsInStep(i);
    if RecoveryRaises(i) { ResumedAtOldest(i); }
  }

  // ---------------------------------------------------------------- nothing ready is left out

  /** At these rising places the log holds versions from + 1, from + 2, ... */
  ghost predicate HasRun<D>(log: seq<Update<D>>, from: int, places: seq<nat>) {
    && (forall j :: 0 <= j < |places| ==> places[j] < |log| && log[places[j]].version == from + 1 + j)
    && (forall j, k :: 0 <= j < k < |places| ==> places[j] < places[k])
  }

  /** The version reached is not before the end of any run of versions from there in the log. */
  ghost predicate EndsRuns<D>(log: seq<Update<D>>, from: int, reached: int) {
    forall places :: HasRun(log, from, places) ==> from + |places| <= reached
  }

  /** Each of the next n versions is listed before anything that lies behind it. */
  ghost predicate InReach<D>(commits: seq<Update<D>>, from: int, n: nat) {
    forall v :: from < v <= from + n ==> IsReached(commits, v)
  }

  ghost predicate IsReached<D>(commits: seq<Update<D>>, v: int) {
    exists k :: 0 <= k < |commits| && commits[k].version == v && NoneBehind(commits, k, v)
  }

  ghost predicate NoneBehind<D>(commits: seq<Update<D>>, k: nat, v: int)
    requires k <= |commits|
  {
    forall j :: 0 <= j < k ==> commits[j].version <= v
  }

  /** No step stops short: the buffer loop reaches the end of every run of versions in the buffer; gap
      recovery, if a push lies ahead, that of every run in reach among the commits; and the left-over
      pushes that of every run in the buffer from there. */
  ghost predicate Complete<D>(
    pending: seq<Update<D>>, fetch: Fetch<D>, version: int, reached: int, resumed: int, last: int)
  {
    && version <= reached <= resumed <= last
    && EndsRuns(pending, version, reached)
    && (fetch.Commits? && (exists u :: u in pending && u.version > reached) ==>
          forall n :: InReach(fetch.commits, reached, n) ==> reached + n <= resumed)
    && EndsRuns(pending, resumed, last)
  }

  lemma {:induction false} BufferTakesRun<D>(last: int, pending: seq<Update<D>>, places: seq<nat>)
    requires HasRun(pending, last, places)
    ensures |places| <= |BufferPass(last, pending).0|
  {
    if |places| > 0 {
      var n, k := |pending| - 1, |places| - 1;
      if places[k] == n {
        BufferTakesRun(last, pending[..n], places[..k]);
      } else {
        assert forall j :: 0 <= j < k ==> places[j] < places[k];
        BufferTakesRun(last, pending[..n], places);
      }
    }
  }

  lemma BufferEndsRuns<D>(last: int, pending: seq<Update<D>>)
    ensures EndsRuns(pending, last, last + |BufferPass(last, pending).0|)
  {
    forall places | HasRun(pending, last, places) ensures |places| <= |BufferPass(last, pending).0| {
      BufferTakesRun(last, pending, places);
    }
  }

  /** The places one to the left. */
  function Shifted(places: seq<nat>): seq<nat>
    requires forall j :: 0 <= j < |places| ==> places[j] > 0
  {
    seq(|places|, j requires 0 <= j < |places| => places[j] - 1)
  }

  lemma {:induction false} LeftoversTakeRun<D>(last: int, remaining: seq<Update<D>>, places: seq<nat>)
    requires HasRun(remaining, last, places)
    ensures |places| <= |LeftoverPass(last, remaining)|
    decreases |remaining|
  {
    if |places| > 0 {
      assert places[0] < |remaining|;
      var rest := remaining[1..];
      assert forall j :: 0 < j < |places| ==> places[0] < places[j];
      if remaining[0].version == last + 1 {
        LeftoversTakeRun(last + 1, rest, Shifted(places[1..]));
      } else {
        LeftoversTakeRun(last, rest, Shifted(places));
      }
    }
  }

  lemma {:induction false} CommitsTakeRun<D>(last: int, commits: seq<Update<D>>, n: nat)
    requires InReach(commits, last, n)
    ensures n <= |CommitPass(last, commits)|
    decreases |commits|
  {
    if n > 0 {
      assert IsReached(commits, last + 1);
      var rest := commits[1..];
      if commits[0].version <= last {
        ReachedLater(commits, last, n);
        CommitsTakeRun(last, rest, n);
      } else {
        ReachedLater(commits, last + 1, n - 1);
        CommitsTakeRun(last + 1, rest, n - 1);
      }
    }
  }

  lemma ReachedLater<D>(commits: seq<Update<D>>, last: int, n: nat)
    requires |commits| > 0 && commits[0].version <= last && InReach(commits, last, n)
    ensures InReach(commits[1..], last, n)
  {
    forall v | last < v <= last + n ensures IsReached(commits[1..], v) {
      assert IsReached(commits, v);
      var k :| 0 <= k < |commits| && commits[k].version == v && NoneBehind(commits, k, v);
      assert commits[1..][k - 1].version == v && NoneBehind(commits[1..], k - 1, v);
    }
  }

  /** Pushes ahead of the version reached are left over, in order. */
  lemma {:induction false} RunIsLeftOver<D>(last: int, pending: seq<Update<D>>, from: int, places: seq<nat>)
    returns (left: seq<nat>)
    requires HasRun(pending, from, places) && from >= last + |BufferPass(last, pending).0|
    ensures |left| == |places| && HasRun(BufferPass(last, pending).1, from, left)
  {
    left := [];
    if |places| > 0 {
      var n, k := |pending| - 1, |places| - 1;
      assert places[k] < |pending|;
      var before := BufferPass(last, pending[..n]).1;
      if places[k] == n {
        var shorter := RunIsLeftOver(last, pending[..n], from, places[..k]);
        left := shorter + [|before|];
      } else {
        assert forall j :: 0 <= j < k ==> places[j] < places[k];
        left := RunIsLeftOver(last, pending[..n], from, places);
      }
    }
  }

  lemma {:induction false} AheadIsLeftOver<D>(last: int, pending: seq<Update<D>>, u: Update<D>)
    requires u in pending && u.version > last + |BufferPass(last, pending).0|
    ensures |BufferPass(last, pending).1| > 0
  {
    var n := |pending| - 1;
    if pending[n] != u {
      assert pending == pending[..n] + [pending[n]];
      AheadIsLeftOver(last, pending[..n], u);
    }
  }

  /** A bootstrap that ends well and whose recovery did not raise leaves nothing out that was ready. */
  lemma BootIsComplete<B, D>(i: Input<B, D>)
    requires Boot(i).ending.Fine? && !RecoveryRaises(i)
    ensures Complete(i.pending, i.fetch, i.version, Buffered(i).last, Bridged(i).last, Boot(i).last)
  {
    BufferEndsRuns(i.version, i.pending);
    forall places | HasRun(i.pending, Bridged(i).last, places) ensures Bridged(i).last + |places| <= Boot(i).last {
      var left := RunIsLeftOver(i.version, i.pending, Bridged(i).last, places);
      LeftoversTakeRun(Bridged(i).last, Remaining(i), left);
    }
    if u :| u in i.pending && u.version > Buffered(i).last {
      AheadIsLeftOver(i.version, i.pending, u);
      if i.fetch.Commits? {
        forall n | InReach(i.fetch.commits, Buffered(i).last, n) ensures Buffered(i).last + n <= Bridged(i).last {
          CommitsTakeRun(Buffered(i).last, i.fetch.commits, n);
        }
      }
    }
  }

  // ---------------------------------------------------------------- inputs that skip versions

  /** A failed fetch loses versions: with version 11 never seen, 12 is applied right after the snapshot at
      10, by an apply that never raises. */
  lemma FailedFetchSkipsVersions<B, D>(apply: (B, D) -> Result<B>, book: B, data: D)
    requires forall b, d :: apply(b, d).ending.Fine?
    ensures Boot(Input(apply, book, 10, [Update(12, data)], Raises)).log == [Update(12, data)]
    ensures !Contiguous(11, Boot(Input(apply, book, 10, [Update(12, data)], Raises)).log)
  {
    var i := Input(apply, book, 10, [Update(12, data)], Raises);
    OnePushAhead(10, Update(12, data));
    assert Replay(apply, book, []) == Ran(book, 0, Fine);
    assert Buffered(i).log == [] && Fetched(i).log == [];
    OneApplied(apply, book, Update(12, data));
    assert Boot(i).log == [] + [Update(12, data)];
  }

  /** A fetch that succeeds loses versions too, if the first commit raises when it is applied: 15 follows
      the snapshot at 10, and what the commit did before it raised stays in the book. */
  lemma RaisedCommitSkipsVersions<B, D>(apply: (B, D) -> Result<B>, book: B, commit: D, data: D)
    requires apply(book, commit).ending.Raised? && apply(apply(book, commit).book, data).ending.Fine?
    ensures var i := Input(apply, book, 10, [Update(15, data)], Commits([Update(11, commit)]));
            && Boot(i) == Stage(apply(apply(book, commit).book, data).book, 15, [Update(15, data)], Fine)
            && RecoveryRaises(i) && !Contiguous(11, Boot(i).log)
  {
    var push, first := Update(15, data), Update(11, commit);
    var i := Input(apply, book, 10, [push], Commits([first]));
    OnePushAhead(10, push);
    assert Replay(apply, book, []) == Ran(book, 0, Fine);
    assert Buffered(i) == Stage(book, 10, [], Fine);
    assert CommitPass(11, [first][1..]) == [];
    assert CommitPass(10, [first]) == [first];
    OneApplied(apply, book, first);
    assert Fetched(i) == Stage(apply(book, commit).book, 10, [], Raised);
    OneApplied(apply, apply(book, commit).book, push);
    assert Boot(i).log == [] + [push];
  }

  lemma OnePushAhead<D>(last: int, push: Update<D>)
    requires push.version > last + 1
    ensures BufferPass(last, [push]).0 == [] && BufferPass(last, [push]).1 == [push]
    ensures LeftoverPass(push.version - 1, [push]) == [push]
  {
    assert [push][..0] == [] && [push][1..] == [];
    assert BufferPass(last, [push][..0]).0 == [] && BufferPass(last, [push][..0]).1 == [];
    assert LeftoverPass(push.version, [push][1..]) == [];
    assert LeftoverPass(push.version - 1, [push]) == [push] + [];
  }

  lemma OneApplied<B, D>(apply: (B, D) -> Result<B>, book: B, u: Update<D>)
    ensures var r := apply(book, u.data);
            Replay(apply, book, [u]) == Ran(r.book, if r.ending.Fine? then 1 else 0, r.ending)
  {
    assert [u][..0] == [];
    assert Replay(apply, book, [u][..0]) == Ran(book, 0, Fine);
  }

  // ---------------------------------------------------------------- the loops

  lemma {:induction false} BufferGrows<D>(last: int, pending: seq<Update<D>>, k: nat) returns (more: seq<Update<D>>)
    requires k <= |pending|
    ensures BufferPass(last, pending).0 == BufferPass(last, pending[..k]).0 + more
    decreases |pending|
  {
    if k == |pending| {
      assert pending[..k] == pending;
      return [];
    }
    var n := |pending| - 1;
    more := BufferGrows(last, pending[..n], k);
    assert pending[..n][..k] == pending[..k];
    var before := BufferPass(last, pending[..n]).0;
    if pending[n].version == last + |before| + 1 { more := more + [pending[n]]; }
  }

  /** A buffer loop that ends early has done what the whole loop does. */
  lemma BufferEndsEarly<B, D>(apply: (B, D) -> Result<B>, s: Stage<B, D>, pending: seq<Update<D>>, k: nat)
    requires k <= |pending| && !After(apply, s, BufferPass(s.last, pending[..k]).0).ending.Fine?
    ensures After(apply, s, BufferPass(s.last, pending).0) == After(apply, s, BufferPass(s.last, pending[..k]).0)
  {
    var more := BufferGrows(s.last, pending, k);
    AfterConcat(apply, s, BufferPass(s.last, pending[..k]).0, more);
  }

  lemma CommitTurn<B, D>(apply: (B, D) -> Result<B>, s: Stage<B, D>, commits: seq<Update<D>>)
    requires |commits| > 0 && s.ending.Fine?
    ensures var c, rest := commits[0], commits[1..];
            var t := After(apply, s, [c]);
            After(apply, s, CommitPass(s.last, commits)) ==
              if c.version <= s.last then After(apply, s, CommitPass(s.last, rest))
              else if c.version != s.last + 1 then s
              else if t.ending.Fine? then After(apply, t, CommitPass(t.last, rest))
              else t
  {
    var c, rest := commits[0], commits[1..];
    if c.version == s.last + 1 {
      AfterFirst(apply, s, c, CommitPass(s.last + 1, rest));
    } else {
      NothingApplied(apply, s);
    }
  }

  lemma AfterFirst<B, D>(apply: (B, D) -> Result<B>, s: Stage<B, D>, u: Update<D>, pass: seq<Update<D>>)
    ensures var t := After(apply, s, [u]);
            && After(apply, s, [u] + pass) == (if t.ending.Fine? then After(apply, t, pass) else t)
            && (t.ending.Fine? ==> t.last == s.last + 1)
  {
    AfterConcat(apply, s, [u], pass);
    OneApplied(apply, s.book, u);
  }

  lemma LeftoverTurn<B, D>(apply: (B, D) -> Result<B>, s: Stage<B, D>, remaining: seq<Update<D>>)
    requires |remaining| > 0 && s.ending.Fine?
    ensures var u, rest := remaining[0], remaining[1..];
            var t := After(apply, s, [u]);
            After(apply, s, LeftoverPass(s.last, remaining)) ==
              if u.version != s.last + 1 then After(apply, s, LeftoverPass(s.last, rest))
              else if t.ending.Fine? then After(apply, t, LeftoverPass(t.last, rest))
              else t
  {
    var u, rest := remaining[0], remaining[1..];
    AfterFirst(apply, s, u, LeftoverPass(s.last + 1, rest));
  }

  lemma NothingApplied<B, D>(apply: (B, D) -> Result<B>, s: Stage<B, D>)
    requires s.ending.Fine?
    ensures After(apply, s, []) == s
  {
    assert s.log + [] == s.log;
  }

  // ---------------------------------------------------------------- the runner

  class ShadowRunner<B, D> {
    const apply: (B, D) -> Result<B>
    var book: B
    var lastApplied: int
    var lastU: int
    var pending: seq<Update<D>>
    var synced: bool
    ghost var log: seq<Update<D>>   // applied in full since the snapshot

    ghost function At(e: Ending): Stage<B, D>
      reads this
    {
      Stage(book, lastApplied, log, e)
    }

    constructor (apply: (B, D) -> Result<B>, book: B, pending: seq<Update<D>>)
      ensures this.apply == apply && this.pending == pending && !synced
    {
      this.apply, this.book, this.pending := apply, book, pending;
      lastApplied, lastU, synced, log := 0, 0, false, [];
    }

    method ApplyUpdate(u: Update<D>) returns (e: Ending)
      requires u.version == lastApplied + 1
      modifies this`book, this`lastApplied, this`log
      ensures At(e) == After(apply, old(At(Fine)), [u])
    {
      OneApplied(apply, book, u);
      var r := apply(book, u.data);
      book, e := r.book, r.ending;
      if e.Fine? {
        lastApplied := u.version;
        log := log + [u];
      }
    }

    method ReplayBuffer() returns (remaining: seq<Update<D>>, e: Ending)
      modifies this`book, this`lastApplied, this`log
      ensures At(e) == After(apply, old(At(Fine)), BufferPass(old(lastApplied), pending).0)
      ensures e.Fine? ==> remaining == BufferPass(old(lastApplied), pending).1
      ensures e.Fine? ==> EndsRuns(pending, old(lastApplied), lastApplied)
    {
      ghost var last := lastApplied;
      remaining, e := BufferLoop();
      BufferEndsRuns(last, pending);
    }

    method BufferLoop() returns (remaining: seq<Update<D>>, e: Ending)
      modifies this`book, this`lastApplied, this`log
      ensures At(e) == After(apply, old(At(Fine)), BufferPass(old(lastApplied), pending).0)
      ensures e.Fine? ==> remaining == BufferPass(old(lastApplied), pending).1
    {
      ghost var s0 := At(Fine);
      NothingApplied(apply, s0);
      remaining := [];
      var target := lastApplied + 1;
      for k := 0 to |pending|
        invariant remaining == BufferPass(s0.last, pending[..k]).1 && target == lastApplied + 1
        invariant At(Fine) == After(apply, s0, BufferPass(s0.last, pending[..k]).0)
      {
        assert pending[..k + 1][..k] == pending[..k];
        var push := pending[k];
        if push.version < target { continue; }
        if push.version == target {
          AfterConcat(apply, s0, BufferPass(s0.last, pending[..k]).0, [push]);
          e := ApplyUpdate(push);
          if !e.Fine? {
            BufferEndsEarly(apply, s0, pending, k + 1);
            return;
          }
          target := target + 1;
        } else {
          remaining := remaining + [push];
        }
      }
      assert pending[..|pending|] == pending;
      e := Fine;
    }

    method ReplayCommits(commits: seq<Update<D>>) returns (e: Ending)
      modifies this`book, this`lastApplied, this`log
      ensures At(e) == After(apply, old(At(Fine)), CommitPass(old(lastApplied), commits))
    {
      for k := 0 to |commits|
        invariant After(apply, At(Fine), CommitPass(lastApplied, commits[k..])) ==
                  After(apply, old(At(Fine)), CommitPass(old(lastApplied), commits))
      {
        var commit := commits[k];
        assert commits[k..][0] == commit && commits[k..][1..] == commits[k + 1..];
        CommitTurn(apply, At(Fine), commits[k..]);
        if commit.version <= lastApplied { continue; }
        if commit.version != lastApplied + 1 { return Fine; }
        e := ApplyUpdate(commit);
        if !e.Fine? { return; }
      }
      NothingApplied(apply, At(Fine));
      e := Fine;
    }

    method GapRecover(commits: seq<Update<D>>) returns (e: Ending)
      modifies this`book, this`lastApplied, this`log, this`lastU
      ensures At(e) == After(apply, old(At(Fine)), CommitPass(old(lastApplied), commits))
      ensures lastU == if e.Fine? && |commits| > 0 then lastApplied else old(lastU)
    {
      NothingApplied(apply, At(Fine));
      if |commits| == 0 { return Fine; }
      e := ReplayCommits(commits);
      if e.Fine? { lastU := lastApplied; }
    }

    /** Gap recovery with its failure handler. */
    method BridgeGap(remaining: seq<Update<D>>, fetch: Fetch<D>, ghost i: Input<B, D>) returns (e: Ending)
      requires At(Fine) == Buffered(i) && i.apply == apply && i.fetch == fetch && remaining == Remaining(i)
      modifies this`book, this`lastApplied, this`log, this`lastU
      ensures At(e) == Bridged(i)
      ensures lastU == if MarkMoves(i) then lastApplied else old(lastU)
    {
      if |remaining| == 0 { return Fine; }
      if fetch.Commits? {
        e := GapRecover(fetch.commits);
      } else {
        e := Raised;
      }
      if e.Raised? {
        lastU := remaining[0].version - 1;
        lastApplied := remaining[0].version - 1;
        e := Fine;
      }
    }

    method ReplayLeftovers(remaining: seq<Update<D>>) returns (e: Ending)
      modifies this`book, this`lastApplied, this`log
      ensures At(e) == After(apply, old(At(Fine)), LeftoverPass(old(lastApplied), remaining))
    {
      for k := 0 to |remaining|
        invariant After(apply, At(Fine), LeftoverPass(lastApplied, remaining[k..])) ==
                  After(apply, old(At(Fine)), LeftoverPass(old(lastApplied), remaining))
      {
        var push := remaining[k];
        assert remaining[k..][0] == push && remaining[k..][1..] == remaining[k + 1..];
        LeftoverTurn(apply, At(Fine), remaining[k..]);
        if push.version != lastApplied + 1 { continue; }
        e := ApplyUpdate(push);
        if !e.Fine? { return; }
      }
      NothingApplied(apply, At(Fine));
      e := Fine;
    }

    /** The three loops. */
    method ReplayAll(fetch: Fetch<D>, ghost i: Input<B, D>) returns (e: Ending)
      requires i == Input(apply, book, lastApplied, pending, fetch) && log == [] && lastU == lastApplied
      modifies this`book, this`lastApplied, this`log, this`lastU
      ensures At(e) == Boot(i) && lastU == Mark(i)
    {
      var remaining;
      remaining, e := ReplayBuffer();
      if !e.Fine? { return; }
      e := BridgeGap(remaining, fetch, i);
      if !e.Fine? { return; }
      e := ReplayLeftovers(remaining);
    }

    /** The whole bootstrap of a symbol. Only if it ends well are the pending pushes given up and the
        symbol synced. */
    method BootstrapSymbol(version: int, snapshot: B, fetch: Fetch<D>)
      returns (e: Ending, ghost raised: bool, ghost reached: int, ghost resumed: int)
      modifies this
      ensures raised == RecoveryRaises(Input(apply, snapshot, version, old(pending), fetch))
      ensures e.Fine? && !raised ==> Complete(old(pending), fetch, version, reached, resumed, lastApplied)
      ensures var i := Input(apply, snapshot, version, old(pending), fetch);
              At(e) == Boot(i) && lastU == Mark(i)
      ensures if e.Fine? then pending == [] && synced else pending == old(pending) && synced == old(synced)
    {
      ghost var i := Input(apply, snapshot, version, pending, fetch);
      raised, reached, resumed := RecoveryRaises(i), Buffered(i).last, Bridged(i).last;
      if Boot(i).ending.Fine? && !raised { BootIsComplete(i); }
      lastApplied, lastU, book, log := version, version, snapshot, [];
      e := ReplayAll(fetch, Input(apply, snapshot, version, pending, fetch));
      if !e.Fine? { return; }
      pending := [];
      synced := true;
    }
  }
}
