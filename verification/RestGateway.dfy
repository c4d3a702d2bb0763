/** How orders reach the exchange: on the normal path behind semaphores and one token, or, when the
  pacer refuses the enqueue, on the direct path with up to two attempts of one token each.

  Any number of calls interleave at their awaits; other users of the bucket take tokens too.
 */
module RestGateway {
  import opened Basics
  import opened TokenBucket

  type Call = nat

  /** Where a call stands. Attempt counts from 1; the normal path has a single attempt. */
  datatype Stage =
    | Gate                                  // normal path: circuit and semaphores
    | NeedsToken(direct: bool, attempt: nat)
    | MayPost(direct: bool, attempt: nat)
    | Done

  /** Result of a post: accepted, rate limited (429), or another failure. */
  datatype PostResult = Accepted | Limited | Failed

  datatype Event =
    | Submit(c: Call, enqueued: bool)
    | GateTurn(c: Call, passed: bool)
    | TokenTurn(c: Call)
    | Post(c: Call, result: PostResult)
    | OtherTurn(amount: real)               // any other user of the bucket

  datatype Timed = Timed(now: real, e: Event)

  /** posts: by call; turns: the bucket turns taken so far; tokened: how many calls got a token. */
  datatype State = State(
    stages: map<Call, Stage>, posts: map<Call, nat>, turns: seq<Turn>, postTimes: seq<real>, tokened: nat)

  const START := State(map[], map[], [], [], 0)

  function Step(start: real, s: State, te: Timed): State {
    match te.e
    case Submit(c, enqueued) =>
      if c in s.stages then s
      else s.(stages := s.stages[c := if enqueued then Gate else NeedsToken(true, 1)], posts := s.posts[c := 0])
    case GateTurn(c, passed) =>
      if c in s.stages && s.stages[c] == Gate then
        s.(stages := s.stages[c := if passed then NeedsToken(false, 1) else Done])
      else s
    case TokenTurn(c) =>
      if c in s.stages && s.stages[c].NeedsToken? then
        var turn := Turn(te.now, 1.0);
        var granted := Grants(Run(start, s.turns), turn);
        var st := s.stages[c];
        s.(stages := if granted then s.stages[c := MayPost(st.direct, st.attempt)] else s.stages,
           turns := s.turns + [turn],
           tokened := s.tokened + if granted then 1 else 0)
      else s
    case Post(c, result) =>
      if c in s.stages && s.stages[c].MayPost? && c in s.posts then
        var st := s.stages[c];
        var again := st.direct && st.attempt == 1 && result != Accepted;
        s.(stages := s.stages[c := if again then NeedsToken(true, 2) else Done],
           posts := s.posts[c := s.posts[c] + 1],
           postTimes := s.postTimes + [te.now])
      else s
    case OtherTurn(amount) => s.(turns := s.turns + [Turn(te.now, amount)])
  }

  function RunAll(start: real, es: seq<Timed>): State {
    if |es| == 0 then START else Step(start, RunAll(start, es[..|es| - 1]), es[|es| - 1])
  }

  ghost predicate InTime(start: real, es: seq<Timed>) {
    && (forall i :: 0 <= i < |es| ==> start <= es[i].now && (es[i].e.OtherTurn? ==> es[i].e.amount >= 0.0))
    && (forall i, j :: 0 <= i < j < |es| ==> es[i].now <= es[j].now)
  }

  function Posting(s: State): set<Call> {
    set c | c in s.stages && s.stages[c].MayPost?
  }

  /** How many posts a call has behind it at a stage, at most. */
  function PostsBehind(st: Stage): nat {
    match st
    case Gate => 0
    case NeedsToken(_, attempt) => if attempt > 0 then attempt - 1 else 0
    case MayPost(_, attempt) => if attempt > 0 then attempt - 1 else 0
    case Done => 2
  }

  ghost predicate Inv(s: State) {
    && s.stages.Keys == s.posts.Keys
    && |s.postTimes| + |Posting(s)| == s.tokened
    && forall c :: c in s.stages ==> PostsInStage(s.stages[c], s.posts[c])
  }

  predicate PostsInStage(st: Stage, posts: nat) {
    posts <= PostsBehind(st) <= 2 && (st.MayPost? || st.NeedsToken? ==> PostsBehind(st) <= 1)
  }

  lemma TokenTurnKeepsInv(start: real, s: State, now: real, c: Call)
    requires Inv(s) && c in s.stages && s.stages[c].NeedsToken?
    ensures Inv(Step(start, s, Timed(now, TokenTurn(c))))
  {
    var s' := Step(start, s, Timed(now, TokenTurn(c)));
    assert PostsInStage(s.stages[c], s.posts[c]);
    if Grants(Run(start, s.turns), Turn(now, 1.0)) {
      assert Posting(s') == Posting(s) + {c};
      assert c !in Posting(s);
    } else {
      assert Posting(s') == Posting(s);
    }
  }

  lemma PostKeepsInv(start: real, s: State, now: real, c: Call, result: PostResult)
    requires Inv(s) && c in s.stages && s.stages[c].MayPost?
    ensures Inv(Step(start, s, Timed(now, Post(c, result))))
  {
    var s' := Step(start, s, Timed(now, Post(c, result)));
    assert PostsInStage(s.stages[c], s.posts[c]);
    assert Posting(s') == Posting(s) - {c} && c in Posting(s);
  }

  lemma StepKeepsInv(start: real, s: State, te: Timed)
    requires Inv(s)
    ensures Inv(Step(start, s, te))
  {
    var s' := Step(start, s, te);
    if s' != s {
      match te.e
      case TokenTurn(c) => TokenTurnKeepsInv(start, s, te.now, c);
      case Post(c, result) => PostKeepsInv(start, s, te.now, c, result);
      case Submit(c, _) => assert Posting(s') == Posting(s);
      case GateTurn(c, _) => assert Posting(s') == Posting(s);
      case OtherTurn(_) => assert Posting(s') == Posting(s);
    }
  }

  /** A step takes at most one bucket turn, at its own time, and tokens a call only if granted. */
  lemma StepTakesOneTurn(start: real, s: State, te: Timed) returns (turn: Turn)
    requires te.e.OtherTurn? ==> te.e.amount >= 0.0
    ensures turn.now == te.now && turn.amount >= 0.0
    ensures var s' := Step(start, s, te);
            && (s'.turns == s.turns || s'.turns == s.turns + [turn])
            && (s'.turns == s.turns ==> s'.tokened == s.tokened)
            && s'.tokened as real <= s.tokened as real + if Grants(Run(start, s.turns), turn) then turn.amount else 0.0
  {
    turn := Turn(te.now, if te.e.OtherTurn? then te.e.amount else 1.0);
  }

  lemma OneMoreTurn(start: real, ts: seq<Turn>, turn: Turn, t: real)
    requires Timely(start, ts) && start <= t <= turn.now && turn.amount >= 0.0
    requires |ts| > 0 ==> ts[|ts| - 1].now <= t
    ensures Timely(start, ts + [turn])
    ensures GrantedIn(start, ts + [turn], start - 1.0, turn.now) >= GrantedIn(start, ts, start - 1.0, t) +
            if Grants(Run(start, ts), turn) then turn.amount else 0.0
  {
    var all := ts + [turn];
    assert all[..|ts|] == ts;
    forall i | 0 <= i < |ts| ensures ts[i].now <= turn.now { assert ts[i].now <= ts[|ts| - 1].now; }
    WindowGrows(start, ts, start - 1.0, t, turn.now);
  }

  /** The clock after a run. */
  function Clock(start: real, es: seq<Timed>): real {
    if |es| == 0 then start else es[|es| - 1].now
  }

  /** At a time not before the last turn, no more calls have a token than turns granted one. */
  ghost predicate Covered(start: real, s: State, clock: real) {
    && Timely(start, s.turns) && start <= clock
    && (|s.turns| > 0 ==> s.turns[|s.turns| - 1].now <= clock)
    && s.tokened as real <= GrantedIn(start, s.turns, start - 1.0, clock)
  }

  lemma StepKeepsCovered(start: real, s: State, clock: real, te: Timed)
    requires Covered(start, s, clock) && clock <= te.now && (te.e.OtherTurn? ==> te.e.amount >= 0.0)
    ensures Covered(start, Step(start, s, te), te.now)
  {
    var turn := StepTakesOneTurn(start, s, te);
    TurnKeepsCovered(start, s, Step(start, s, te), clock, turn);
  }

  lemma TurnKeepsCovered(start: real, s: State, s': State, clock: real, turn: Turn)
    requires Covered(start, s, clock) && clock <= turn.now && turn.amount >= 0.0
    requires s'.turns == s.turns || s'.turns == s.turns + [turn]
    requires s'.turns == s.turns ==> s'.tokened == s.tokened
    requires s'.tokened as real <= s.tokened as real + if Grants(Run(start, s.turns), turn) then turn.amount else 0.0
    ensures Covered(start, s', turn.now)
  {
    if s'.turns == s.turns {
      WindowGrows(start, s.turns, start - 1.0, clock, turn.now);
    } else {
      OneMoreTurn(start, s.turns, turn, clock);
    }
  }

  /** The tokens handed to calls are granted turns of the bucket. */
  lemma {:induction false} TokensAreGranted(start: real, es: seq<Timed>)
    requires InTime(start, es)
    ensures Covered(start, RunAll(start, es), Clock(start, es))
  {
    if |es| > 0 {
      var n := |es| - 1;
      assert InTime(start, es[..n]);
      TokensAreGranted(start, es[..n]);
      StepKeepsCovered(start, RunAll(start, es[..n]), Clock(start, es[..n]), es[n]);
    }
  }

  lemma {:induction false} RunKeepsInv(start: real, es: seq<Timed>)
    ensures Inv(RunAll(start, es))
  {
    if |es| > 0 {
      RunKeepsInv(start, es[..|es| - 1]);
      StepKeepsInv(start, RunAll(start, es[..|es| - 1]), es[|es| - 1]);
    }
  }

  lemma {:induction false} WindowGrows(start: real, ts: seq<Turn>, s: real, t: real, t': real)
    requires t <= t' && forall i :: 0 <= i < |ts| ==> ts[i].amount >= 0.0
    ensures 0.0 <= GrantedIn(start, ts, s, t) <= GrantedIn(start, ts, s, t')
  {
    if |ts| > 0 {
      WindowGrows(start, ts[..|ts| - 1], s, t, t');
    }
  }

  /** The exchange sees at most 15 + 8 t posts in the first t seconds, on both paths together and
      whatever the interleaving; and no call posts more than twice. */
  lemma PostsAreRateBounded(start: real, es: seq<Timed>, t: real)
    requires InTime(start, es) && |es| > 0 && es[|es| - 1].now == start + t
    ensures |RunAll(start, es).postTimes| as real <= BURST + RATE * t
    ensures forall c :: c in RunAll(start, es).posts ==> RunAll(start, es).posts[c] <= 2
  {
    TokensBoundPosts(start, es, t);
    RunKeepsInv(start, es);
    var s := RunAll(start, es);
    forall c | c in s.posts ensures s.posts[c] <= 2 { assert PostsInStage(s.stages[c], s.posts[c]); }
  }

  lemma TokensBoundPosts(start: real, es: seq<Timed>, t: real)
    requires InTime(start, es) && |es| > 0 && es[|es| - 1].now == start + t
    ensures |RunAll(start, es).postTimes| as real <= BURST + RATE * t
  {
    RunKeepsInv(start, es);
    TokensAreGranted(start, es);
    GrantsFromStart(start, RunAll(start, es).turns, start + t);
  }

  /** From the bucket's own start on, the window has no slack before it. */
  lemma {:induction false} GrantsFromStart(start: real, ts: seq<Turn>, t: real)
    requires Timely(start, ts) && start <= t && (|ts| > 0 ==> ts[|ts| - 1].now <= t)
    ensures GrantedIn(start, ts, start - 1.0, t) + Run(start, ts).tokens <= BURST + (Run(start, ts).last - start) * RATE
    ensures start <= Run(start, ts).last <= t
    ensures GrantedIn(start, ts, start - 1.0, t) <= BURST + RATE * (t - start)
  {
    LevelStaysInRange(start, ts);
    if |ts| > 0 {
      var n := |ts| - 1;
      TimelyPrefix(start, ts);
      assert n > 0 ==> ts[..n][n - 1].now <= ts[n].now;
      GrantsFromStart(start, ts[..n], t);
    }
  }

  // ---------------------------------------------------------------- any window

  /** A call begins its post in the very step that gets its token; Post is the end of it. These are the
      posts begun after s and up to t. */
  function Begun(start: real, es: seq<Timed>, s: real, t: real): nat {
    if |es| == 0 then 0
    else
      var n := |es| - 1;
      var begins := RunAll(start, es).tokened > RunAll(start, es[..n]).tokened;
      Begun(start, es[..n], s, t) + if s < es[n].now <= t && begins then 1 else 0
  }

  lemma BeginsAreGranted(start: real, s: State, s': State, turn: Turn, from: real, upto: real)
    requires s'.turns == s.turns || s'.turns == s.turns + [turn]
    requires s'.turns == s.turns ==> s'.tokened == s.tokened
    requires s'.tokened as real <= s.tokened as real + if Grants(Run(start, s.turns), turn) then turn.amount else 0.0
    requires turn.amount >= 0.0
    ensures GrantedIn(start, s'.turns, from, upto) >= GrantedIn(start, s.turns, from, upto) +
            if from < turn.now <= upto && s'.tokened > s.tokened then 1.0 else 0.0
  {
    assert (s.turns + [turn])[..|s.turns|] == s.turns;
  }

  lemma {:induction false} BegunAreGranted(start: real, es: seq<Timed>, s: real, t: real)
    requires InTime(start, es)
    ensures Begun(start, es, s, t) as real <= GrantedIn(start, RunAll(start, es).turns, s, t)
  {
    if |es| > 0 {
      var n := |es| - 1;
      assert InTime(start, es[..n]);
      BegunAreGranted(start, es[..n], s, t);
      var turn := StepTakesOneTurn(start, RunAll(start, es[..n]), es[n]);
      BeginsAreGranted(start, RunAll(start, es[..n]), RunAll(start, es), turn, s, t);
    }
  }

  lemma {:induction false} AllBegun(start: real, es: seq<Timed>, t: real)
    requires InTime(start, es) && forall k :: 0 <= k < |es| ==> es[k].now <= t
    ensures Begun(start, es, start - 1.0, t) == RunAll(start, es).tokened
  {
    if |es| > 0 {
      var n := |es| - 1;
      assert InTime(start, es[..n]);
      AllBegun(start, es[..n], t);
      TokensRiseByOne(start, RunAll(start, es[..n]), es[n]);
      assert es[n].now >= start;
    }
  }

  lemma TokensRiseByOne(start: real, s: State, te: Timed)
    ensures s.tokened <= Step(start, s, te).tokened <= s.tokened + 1
  {
  }

  /** In any window, after s and up to t, at most 15 + 8 (t - s) posts begin; and every post ended, or
      under way, has begun. */
  lemma PostsInAnyWindow(start: real, es: seq<Timed>, s: real, t: real)
    requires InTime(start, es) && s <= t
    ensures Begun(start, es, s, t) as real <= BURST + RATE * (t - s)
    ensures |RunAll(start, es).postTimes| + |Posting(RunAll(start, es))| ==
            Begun(start, es, start - 1.0, Clock(start, es))
  {
    TokensAreGranted(start, es);
    BegunAreGranted(start, es, s, t);
    RateBound(start, RunAll(start, es).turns, s, t);
    RunKeepsInv(start, es);
    AllBegun(start, es, Clock(start, es));
  }

  /** A call goes on to a second post exactly on the direct path, after a first that was not accepted,
      rate limited or otherwise; the normal path has one. */
  lemma RetriesExactlyOnce(start: real, s: State, now: real, c: Call, result: PostResult)
    requires c in s.stages && s.stages[c].MayPost? && c in s.posts
    ensures var st, s' := s.stages[c], Step(start, s, Timed(now, Post(c, result)));
            && s'.stages == s.stages[c := if st.direct && st.attempt == 1 && (result == Limited || result == Failed)
                                          then NeedsToken(true, 2) else Done]
            && s'.posts == s.posts[c := s.posts[c] + 1]
  {
  }

  /** Whether the pacer took the call when it was submitted first. */
  function WasEnqueued(es: seq<Timed>, c: Call): Option<bool> {
    if |es| == 0 then None
    else
      var before, e := WasEnqueued(es[..|es| - 1], c), es[|es| - 1].e;
      if before.None? && e.Submit? && e.c == c then Some(e.enqueued) else before
  }

  /** A call on the normal path stands at the gate, at its one attempt, or is done; on the direct path at
      its first attempt, at the second after one post, or is done. */
  predicate OnPath(enqueued: bool, st: Stage, posts: nat) {
    match st
    case Gate => enqueued && posts == 0
    case NeedsToken(direct, attempt) => direct == !enqueued && posts + 1 == attempt <= (if enqueued then 1 else 2)
    case MayPost(direct, attempt) => direct == !enqueued && posts + 1 == attempt <= (if enqueued then 1 else 2)
    case Done => posts <= if enqueued then 1 else 2
  }

  /** A call that the pacer took posts once at most, and only through the gate; one that it refused posts
      at once, and twice at most. */
  lemma {:induction false} CallsKeepTheirPath(start: real, es: seq<Timed>, c: Call)
    ensures var s, enqueued := RunAll(start, es), WasEnqueued(es, c);
            && (c in s.stages <==> enqueued.Some?) && (c in s.posts <==> enqueued.Some?)
            && (enqueued.Some? ==> OnPath(enqueued.value, s.stages[c], s.posts[c]))
  {
    if |es| > 0 {
      CallsKeepTheirPath(start, es[..|es| - 1], c);
    }
  }

  /** The gate lets a call on to its attempt, or ends it without a post. */
  lemma GateDecides(start: real, s: State, now: real, c: Call, passed: bool)
    requires c in s.stages && s.stages[c].Gate?
    ensures var s' := Step(start, s, Timed(now, GateTurn(c, passed)));
            s'.stages[c] == (if passed then NeedsToken(false, 1) else Done) && s'.posts == s.posts
  {
  }

  // ---------------------------------------------------------------- the circuit of a symbol

  datatype GatewayConfig = GatewayConfig(threshold: int, openSeconds: real, halfOpenMax: int)

  datatype Circuit = Circuit(count: int, openUntil: Option<real>, probeUsed: bool)

  const CLOSED := Circuit(0, None, false)

  function After429(cfg: GatewayConfig, c: Circuit, now: real): Circuit {
    if c.count + 1 >= cfg.threshold then Circuit(c.count + 1, Some(now + cfg.openSeconds), false)
    else c.(count := c.count + 1)
  }

  /** Whether the circuit blocks a call at this time. */
  function Blocks(cfg: GatewayConfig, c: Circuit, now: real): bool {
    c.openUntil.Some? && (now < c.openUntil.value || (cfg.halfOpenMax > 0 && c.probeUsed))
  }

  function Checked(cfg: GatewayConfig, c: Circuit, now: real): Circuit {
    if c.openUntil.None? || now < c.openUntil.value then c
    else if cfg.halfOpenMax <= 0 then CLOSED
    else c.(probeUsed := true)
  }

  function CheckedAll(cfg: GatewayConfig, c: Circuit, times: seq<real>): Circuit {
    if |times| == 0 then c else Checked(cfg, CheckedAll(cfg, c, times[..|times| - 1]), times[|times| - 1])
  }

  /** How many of the checks let their call pass. */
  function Passes(cfg: GatewayConfig, c: Circuit, times: seq<real>): nat {
    if |times| == 0 then 0
    else
      var n := |times| - 1;
      Passes(cfg, c, times[..n]) + if Blocks(cfg, CheckedAll(cfg, c, times[..n]), times[n]) then 0 else 1
  }

  function AfterOpening(until: real, times: seq<real>): nat {
    if |times| == 0 then 0 else AfterOpening(until, times[..|times| - 1]) + if times[|times| - 1] >= until then 1 else 0
  }

  /** Once a 429 has opened the circuit, and until the next result is recorded, no call passes before
      its time and exactly one passes after it, however many ask: a configured maximum of more than
      one probe still gives one. */
  lemma {:induction false} OneProbePerOpening(cfg: GatewayConfig, c: Circuit, now: real, times: seq<real>)
    requires cfg.halfOpenMax > 0 && c.count + 1 >= cfg.threshold
    ensures var tripped := After429(cfg, c, now);
            var until := now + cfg.openSeconds;
            && Passes(cfg, tripped, times) == (if AfterOpening(until, times) > 0 then 1 else 0)
            && CheckedAll(cfg, tripped, times) == tripped.(probeUsed := AfterOpening(until, times) > 0)
  {
    if |times| > 0 {
      OneProbePerOpening(cfg, c, now, times[..|times| - 1]);
    }
  }

  /** What the circuit of a symbol sees: a call asks; a post is accepted, answered 429, or ends without
      a record: another failure, or a call that got no permits. */
  datatype Mark = Asked(now: real) | Succeeded | Limited429(now: real) | Unrecorded

  function AfterMark(cfg: GatewayConfig, c: Circuit, m: Mark): Circuit {
    match m
    case Asked(now) => Checked(cfg, c, now)
    case Succeeded => CLOSED
    case Limited429(now) => After429(cfg, c, now)
    case Unrecorded => c
  }

  function AfterMarks(cfg: GatewayConfig, c: Circuit, ms: seq<Mark>): Circuit {
    if |ms| == 0 then c else AfterMark(cfg, AfterMarks(cfg, c, ms[..|ms| - 1]), ms[|ms| - 1])
  }

  function Count429(ms: seq<Mark>): nat {
    if |ms| == 0 then 0 else Count429(ms[..|ms| - 1]) + if ms[|ms| - 1].Limited429? then 1 else 0
  }

  /** The time of the last 429. */
  function Last429(ms: seq<Mark>): real {
    if |ms| == 0 then 0.0 else if ms[|ms| - 1].Limited429? then ms[|ms| - 1].now else Last429(ms[..|ms| - 1])
  }

  /** The circuit opens at exactly the threshold-th 429 with no success between, for openSeconds from the
      last; below it every call passes. A success starts the count anew. */
  lemma {:induction false} OpensAtThreshold(cfg: GatewayConfig, c: Circuit, ms: seq<Mark>, now: real)
    requires cfg.threshold > 0 && forall k :: 0 <= k < |ms| ==> ms[k].Limited429? || ms[k].Unrecorded?
    ensures var c', n := AfterMarks(cfg, AfterMark(cfg, c, Succeeded), ms), Count429(ms);
            && c'.count == n && (c'.openUntil.Some? <==> n >= cfg.threshold)
            && (Blocks(cfg, c', now) <==> n >= cfg.threshold && now < Last429(ms) + cfg.openSeconds)
  {
    OpenUntilLast(cfg, c, ms);
  }

  lemma {:induction false} OpenUntilLast(cfg: GatewayConfig, c: Circuit, ms: seq<Mark>)
    requires cfg.threshold > 0 && forall k :: 0 <= k < |ms| ==> ms[k].Limited429? || ms[k].Unrecorded?
    ensures var n := Count429(ms);
            AfterMarks(cfg, AfterMark(cfg, c, Succeeded), ms) ==
            Circuit(n, if n >= cfg.threshold then Some(Last429(ms) + cfg.openSeconds) else None, false)
  {
    if |ms| > 0 { OpenUntilLast(cfg, c, ms[..|ms| - 1]); }
  }

  /** Without half-open probes, the first call after its time closes the circuit for all. */
  lemma ClosesAfterItsTime(cfg: GatewayConfig, c: Circuit, now: real)
    requires cfg.halfOpenMax <= 0 && c.openUntil.Some?
    ensures AfterMark(cfg, c, Asked(now)) == (if now >= c.openUntil.value then Circuit(0, None, false) else c)
    ensures Blocks(cfg, c, now) <==> now < c.openUntil.value
  {
  }

  predicate Recorded(m: Mark) { m.Succeeded? || m.Limited429? }

  /** An open circuit whose probe is out. */
  predicate ProbeIsOut(cfg: GatewayConfig, c: Circuit) {
    cfg.halfOpenMax > 0 && c.openUntil.Some? && c.probeUsed
  }

  /** Once the probe is out, the circuit blocks every call at every time until a result is recorded. If
      the probe ends without one, its symbol is blocked for ever on the normal path. */
  lemma {:induction false} BlockedUntilRecorded(cfg: GatewayConfig, c: Circuit, ms: seq<Mark>, now: real)
    requires ProbeIsOut(cfg, c) && forall k :: 0 <= k < |ms| ==> !Recorded(ms[k])
    ensures AfterMarks(cfg, c, ms) == c && Blocks(cfg, c, now)
  {
    if |ms| > 0 {
      BlockedUntilRecorded(cfg, c, ms[..|ms| - 1], now);
    }
  }

  /** The first record reopens it: a success at once, a 429 when its time is over and then for one probe,
      provided that the count is at the threshold, as it is once a circuit has opened. */
  lemma FirstRecordReopens(cfg: GatewayConfig, c: Circuit, ms: seq<Mark>, now: real)
    requires ProbeIsOut(cfg, c) && c.count + 1 >= cfg.threshold
    requires |ms| > 0 && Recorded(ms[|ms| - 1]) && forall k :: 0 <= k < |ms| - 1 ==> !Recorded(ms[k])
    ensures var last := ms[|ms| - 1];
            !Blocks(cfg, AfterMarks(cfg, c, ms), now) <==>
              last.Succeeded? || now >= last.now + cfg.openSeconds
  {
    BlockedUntilRecorded(cfg, c, ms[..|ms| - 1], now);
  }

  // ---------------------------------------------------------------- the object

  /** One method per stretch of a call between awaits. */
  class RestGateway {
    const cfg: GatewayConfig
    const bucket: TokenBucket
    ghost const start: real
    var consecutive429: map<string, int>
    var openUntil: map<string, real>
    var probeUsed: map<string, bool>
    ghost var state: State

    ghost predicate Valid()
      reads this, bucket
    {
      bucket.Abs() == Run(start, state.turns)
    }

    function CircuitOf(symbol: string): Circuit
      reads this
    {
      Circuit(if symbol in consecutive429 then consecutive429[symbol] else 0,
              if symbol in openUntil then Some(openUntil[symbol]) else None,
              symbol in probeUsed && probeUsed[symbol])
    }

    constructor (cfg: GatewayConfig, bucket: TokenBucket, ghost start: real)
      requires bucket.Abs() == Fresh(start)
      ensures Valid() && state == START && this.cfg == cfg && this.bucket == bucket && this.start == start
      ensures forall symbol :: CircuitOf(symbol) == CLOSED
    {
      this.cfg, this.bucket, this.start := cfg, bucket, start;
      consecutive429, openUntil, probeUsed := map[], map[], map[];
      state := START;
    }

    method Record429(symbol: string, now: real)
      modifies this`consecutive429, this`openUntil, this`probeUsed
      ensures CircuitOf(symbol) == After429(cfg, old(CircuitOf(symbol)), now)
      ensures forall other :: other != symbol ==> CircuitOf(other) == old(CircuitOf(other))
    {
      var count := (if symbol in consecutive429 then consecutive429[symbol] else 0) + 1;
      consecutive429 := consecutive429[symbol := count];
      if count >= cfg.threshold {
        openUntil := openUntil[symbol := now + cfg.openSeconds];
        probeUsed := probeUsed[symbol := false];
      }
    }

    method RecordSuccess(symbol: string)
      modifies this`consecutive429, this`openUntil, this`probeUsed
      ensures CircuitOf(symbol) == CLOSED
      ensures forall other :: other != symbol ==> CircuitOf(other) == old(CircuitOf(other))
    {
      consecutive429 := consecutive429[symbol := 0];
      openUntil := openUntil - {symbol};
      probeUsed := probeUsed[symbol := false];
    }

    method IsCircuitOpen(symbol: string, now: real) returns (blocked: bool)
      modifies this`consecutive429, this`openUntil, this`probeUsed
      ensures blocked == Blocks(cfg, old(CircuitOf(symbol)), now)
      ensures CircuitOf(symbol) == Checked(cfg, old(CircuitOf(symbol)), now)
      ensures forall other :: other != symbol ==> CircuitOf(other) == old(CircuitOf(other))
    {
      if symbol !in openUntil || now < openUntil[symbol] { return symbol in openUntil; }
      if cfg.halfOpenMax <= 0 {
        RecordSuccess(symbol);
        return false;
      }
      if symbol in probeUsed && probeUsed[symbol] { return true; }
      probeUsed := probeUsed[symbol := true];
      return false;
    }

    /** The start of post_market_order: enqueued, or refused by the pacer. */
    method SubmitOrder(c: Call, enqueued: bool, now: real)
      requires Valid()
      modifies this`state
      ensures Valid() && state == Step(start, old(state), Timed(now, Submit(c, enqueued)))
    {
      state := Step(start, state, Timed(now, Submit(c, enqueued)));
    }

    /** The circuit, then the semaphores; permits: whether all three were there in time. */
    method Enter(c: Call, symbol: string, permits: bool, now: real) returns (passed: bool)
      requires Valid()
      modifies this
      ensures Valid() && passed == (permits && !Blocks(cfg, old(CircuitOf(symbol)), now))
      ensures state == Step(start, old(state), Timed(now, GateTurn(c, passed)))
    {
      var blocked := IsCircuitOpen(symbol, now);
      passed := permits && !blocked;
      state := Step(start, state, Timed(now, GateTurn(c, passed)));
    }

    /** One turn at the bucket; wait: how long to sleep before the next one. */
    method TakeToken(c: Call, now: real) returns (granted: bool, wait: real)
      requires Valid() && c in state.stages && state.stages[c].NeedsToken?
      modifies this`state, bucket
      ensures Valid() && state == Step(start, old(state), Timed(now, TokenTurn(c)))
      ensures granted <==> state.stages[c].MayPost?
    {
      ghost var turn := Turn(now, 1.0);
      assert (state.turns + [turn])[..|state.turns|] == state.turns;
      granted, wait := bucket.AcquireTurn(now, 1.0);
      state := Step(start, state, Timed(now, TokenTurn(c)));
    }

    /** The post and what is recorded of its result; again: the direct path tries once more. */
    method PostOrder(c: Call, symbol: string, direct: bool, attempt: nat, result: PostResult, now: real)
      returns (again: bool)
      requires Valid() && c in state.stages && state.stages[c] == MayPost(direct, attempt) && c in state.posts
      modifies this
      ensures Valid() && state == Step(start, old(state), Timed(now, Post(c, result)))
      ensures again <==> state.stages[c].NeedsToken?
      ensures CircuitOf(symbol) == if result.Accepted? then CLOSED
                                   else if result.Limited? then After429(cfg, old(CircuitOf(symbol)), now)
                                   else old(CircuitOf(symbol))
    {
      ghost var s0 := state;
      if result == Accepted {
        RecordSuccess(symbol);
      } else if result == Limited {
        Record429(symbol, now);
      }
      state := Step(start, s0, Timed(now, Post(c, result)));
      again := direct && attempt == 1 && result != Accepted;
    }
  }
}
