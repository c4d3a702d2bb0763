/** Rotation control of one symbol: hysteresis on the subscription, a flap window over exits from
  the Top5, and an escalating quarantine.

  A scan treats symbols independently of each other, so a symbol's state is a function of its own
  history of observations: whether it was in the Top5, and when.
 */
module RotationSpec {
  import opened Basics

  datatype Config = Config(
    hysteresisMs: int, flapThreshold: int, flapWindowMs: int, stepsMs: seq<int>, resetStableMs: int)

  datatype Obs = Obs(inTop5: bool, now: int)

  datatype Pending = Idle | Waiting(target: bool, since: int)

  /** The time state: the subscription and the change it is waiting out. */
  datatype Sub = Sub(subscribed: bool, pending: Pending)

  /** The count state. flapStart zero: no window is open. untilMs zero: never quarantined. */
  datatype Flap = Flap(lastTarget: bool, flapStart: int, flapCount: int, untilMs: int, level: nat)

  datatype SymState = SymState(sub: Sub, flap: Flap)

  const NO_FLAPS := Flap(false, 0, 0, 0, 0)

  predicate Quarantined(f: Flap, now: int) { f.untilMs > now }

  /** The quarantine length at a level. */
  function Duration(c: Config, level: nat): int
    requires |c.stepsMs| > 0
  {
    c.stepsMs[if level < |c.stepsMs| - 1 then level else |c.stepsMs| - 1]
  }

  function EnterQuarantine(c: Config, f: Flap, now: int): Flap
    requires |c.stepsMs| > 0
  {
    f.(untilMs := now + Duration(c, f.level), level := f.level + 1, flapStart := 0, flapCount := 0)
  }

  predicate OpensWindow(c: Config, f: Flap, now: int) {
    f.flapStart == 0 || now - f.flapStart > c.flapWindowMs
  }

  /** The flap window after one more exit from the Top5. */
  function CountFlap(c: Config, f: Flap, now: int): Flap {
    if OpensWindow(c, f, now) then f.(flapStart := now, flapCount := 1) else f.(flapCount := f.flapCount + 1)
  }

  predicate Enters(c: Config, f: Flap, o: Obs) {
    && f.lastTarget && !o.inTop5
    && CountFlap(c, f, o.now).flapCount >= c.flapThreshold && !Quarantined(f, o.now)
  }

  /** First pass of a scan: flaps. */
  function FlapStep(c: Config, f: Flap, o: Obs): Flap
    requires |c.stepsMs| > 0
  {
    var f' :=
      if f.lastTarget && !o.inTop5 then
        var counted := CountFlap(c, f, o.now);
        if Enters(c, f, o) then EnterQuarantine(c, counted, o.now) else counted
      else f;
    f'.(lastTarget := o.inTop5)
  }

  predicate Resets(c: Config, f: Flap, now: int) {
    && !Quarantined(f, now) && f.untilMs != 0 && now - f.untilMs >= c.resetStableMs && f.level > 1
  }

  /** Second pass: a long enough quiet time brings the quarantine level back to one. */
  function ResetStep(c: Config, f: Flap, now: int): Flap {
    if Resets(c, f, now) then f.(level := 1) else f
  }

  /** Third pass: the subscription follows the Top5 once the change has lasted, but a subscribe
      waits while it is blocked by a quarantine. */
  function RotateStep(c: Config, s: Sub, o: Obs, blocked: bool): Sub {
    if s.subscribed == o.inTop5 then s.(pending := Idle)
    else if s.pending.Idle? || s.pending.target != o.inTop5 then s.(pending := Waiting(o.inTop5, o.now))
    else if o.now - s.pending.since < c.hysteresisMs then s
    else if o.inTop5 && blocked then s
    else Sub(o.inTop5, Idle)
  }

  function Step(c: Config, s: SymState, o: Obs): SymState
    requires |c.stepsMs| > 0
  {
    var f := ResetStep(c, FlapStep(c, s.flap, o), o.now);
    SymState(RotateStep(c, s.sub, o, Quarantined(f, o.now)), f)
  }

  // ---------------------------------------------------------------- histories

  function FlapRun(c: Config, obs: seq<Obs>, n: nat): Flap
    requires |c.stepsMs| > 0 && n <= |obs|
  {
    if n == 0 then NO_FLAPS
    else ResetStep(c, FlapStep(c, FlapRun(c, obs, n - 1), obs[n - 1]), obs[n - 1].now)
  }

  /** Which scans find the symbol under quarantine. */
  function Blocks(c: Config, obs: seq<Obs>): seq<bool>
    requires |c.stepsMs| > 0
  {
    seq(|obs|, i requires 0 <= i < |obs| => Quarantined(FlapRun(c, obs, i + 1), obs[i].now))
  }

  function SubRun(c: Config, seeded: bool, obs: seq<Obs>, blocks: seq<bool>, n: nat): Sub
    requires n <= |obs| == |blocks|
  {
    if n == 0 then Sub(seeded, Idle)
    else RotateStep(c, SubRun(c, seeded, obs, blocks, n - 1), obs[n - 1], blocks[n - 1])
  }

  /** A symbol after its first n observations; seeded: subscribed at start-up. */
  function Run(c: Config, seeded: bool, obs: seq<Obs>, n: nat): SymState
    requires |c.stepsMs| > 0 && n <= |obs|
  {
    if n == 0 then SymState(Sub(seeded, Idle), NO_FLAPS) else Step(c, Run(c, seeded, obs, n - 1), obs[n - 1])
  }

  /** The count state evolves on its own, and the time state sees of it only the quarantine. */
  lemma {:induction false} RunSplits(c: Config, seeded: bool, obs: seq<Obs>, n: nat)
    requires |c.stepsMs| > 0 && n <= |obs|
    ensures Run(c, seeded, obs, n) == SymState(SubRun(c, seeded, obs, Blocks(c, obs), n), FlapRun(c, obs, n))
  {
    if n > 0 {
      RunSplits(c, seeded, obs, n - 1);
    }
  }

  /** Clock readings are positive and never run backwards. */
  ghost predicate Timely(obs: seq<Obs>) {
    && (forall i :: 0 <= i < |obs| ==> obs[i].now > 0)
    && (forall i, j :: 0 <= i <= j < |obs| ==> obs[i].now <= obs[j].now)
  }

  // ---------------------------------------------------------------- hysteresis

  predicate FlipsAt(c: Config, seeded: bool, obs: seq<Obs>, blocks: seq<bool>, i: nat)
    requires i < |obs| == |blocks|
  {
    SubRun(c, seeded, obs, blocks, i + 1).subscribed != SubRun(c, seeded, obs, blocks, i).subscribed
  }

  /** From scan m up to before scan n the Top5 has disagreed with a subscription that did not
      change, and scan m is where that disagreement began. */
  ghost predicate DisagreesSince(c: Config, seeded: bool, obs: seq<Obs>, blocks: seq<bool>, m: nat, n: nat)
    requires |obs| == |blocks|
  {
    && m < n <= |obs|
    && (forall k {:trigger obs[k]} :: m <= k < n ==>
          obs[k].inTop5 != SubRun(c, seeded, obs, blocks, k).subscribed && !FlipsAt(c, seeded, obs, blocks, k))
    && (m > 0 ==> obs[m - 1].inTop5 == SubRun(c, seeded, obs, blocks, m).subscribed)
  }

  lemma DisagreementBegins(c: Config, seeded: bool, obs: seq<Obs>, blocks: seq<bool>, n: nat)
    requires n < |obs| == |blocks|
    requires n > 0 ==> obs[n - 1].inTop5 == SubRun(c, seeded, obs, blocks, n).subscribed
    requires obs[n].inTop5 != SubRun(c, seeded, obs, blocks, n).subscribed && !FlipsAt(c, seeded, obs, blocks, n)
    ensures DisagreesSince(c, seeded, obs, blocks, n, n + 1)
  {
  }

  lemma DisagreementGoesOn(c: Config, seeded: bool, obs: seq<Obs>, blocks: seq<bool>, m: nat, n: nat)
    requires n < |obs| == |blocks| && DisagreesSince(c, seeded, obs, blocks, m, n)
    requires obs[n].inTop5 != SubRun(c, seeded, obs, blocks, n).subscribed && !FlipsAt(c, seeded, obs, blocks, n)
    ensures DisagreesSince(c, seeded, obs, blocks, m, n + 1)
  {
    forall k | m <= k < n + 1
      ensures obs[k].inTop5 != SubRun(c, seeded, obs, blocks, k).subscribed && !FlipsAt(c, seeded, obs, blocks, k)
    {
      if k < n { assert obs[k] == obs[k]; }
    }
  }

  /** The pending entry marks the start of the current disagreement, and is there exactly if the
      last scan disagreed. */
  ghost predicate PendingIsRight(c: Config, seeded: bool, obs: seq<Obs>, blocks: seq<bool>, m: nat, n: nat)
    requires n <= |obs| == |blocks|
  {
    var s := SubRun(c, seeded, obs, blocks, n);
    && (s.pending.Waiting? <==> n > 0 && obs[n - 1].inTop5 != s.subscribed)
    && (s.pending.Waiting? ==>
          DisagreesSince(c, seeded, obs, blocks, m, n) && s.pending == Waiting(!s.subscribed, obs[m].now))
  }

  lemma {:induction false} PendingMarksDisagreement(c: Config, seeded: bool, obs: seq<Obs>, blocks: seq<bool>, n: nat)
    returns (m: nat)
    requires n <= |obs| == |blocks|
    ensures PendingIsRight(c, seeded, obs, blocks, m, n)
  {
    m := 0;
    if n > 0 {
      var before := PendingMarksDisagreement(c, seeded, obs, blocks, n - 1);
      m := PendingStep(c, seeded, obs, blocks, before, n - 1);
    }
  }

  lemma PendingStep(c: Config, seeded: bool, obs: seq<Obs>, blocks: seq<bool>, before: nat, n: nat) returns (m: nat)
    requires n < |obs| == |blocks| && PendingIsRight(c, seeded, obs, blocks, before, n)
    ensures PendingIsRight(c, seeded, obs, blocks, m, n + 1)
  {
    m := 0;
    if SubRun(c, seeded, obs, blocks, n + 1).pending.Waiting? {
      if SubRun(c, seeded, obs, blocks, n).pending.Idle? {
        m := n;
        DisagreementBegins(c, seeded, obs, blocks, m);
      } else {
        m := before;
        DisagreementGoesOn(c, seeded, obs, blocks, m, n);
      }
    }
  }

  lemma DisagreementIsOne(c: Config, seeded: bool, obs: seq<Obs>, blocks: seq<bool>, m: nat, m': nat, n: nat)
    requires |obs| == |blocks|
    requires DisagreesSince(c, seeded, obs, blocks, m, n) && DisagreesSince(c, seeded, obs, blocks, m', n)
    ensures m' <= m
  {
  }

  /** The subscription flips at a scan exactly if the Top5 has disagreed with it since some earlier
      scan at least hysteresisMs ago, without interruption, and it is not a subscribe under
      quarantine. */
  lemma FlipsExactlyWhenHeld(c: Config, seeded: bool, obs: seq<Obs>, blocks: seq<bool>, i: nat)
    requires i < |obs| == |blocks|
    ensures FlipsAt(c, seeded, obs, blocks, i) <==>
              && obs[i].inTop5 != SubRun(c, seeded, obs, blocks, i).subscribed
              && (exists m: nat ::
                    DisagreesSince(c, seeded, obs, blocks, m, i) && obs[i].now - obs[m].now >= c.hysteresisMs)
              && !(obs[i].inTop5 && blocks[i])
  {
    var m0 := PendingMarksDisagreement(c, seeded, obs, blocks, i);
    forall m: nat | DisagreesSince(c, seeded, obs, blocks, m, i)
      ensures SubRun(c, seeded, obs, blocks, i).pending.Waiting? && m == m0
    {
      assert !FlipsAt(c, seeded, obs, blocks, i - 1);
      DisagreementIsOne(c, seeded, obs, blocks, m, m0, i);
      DisagreementIsOne(c, seeded, obs, blocks, m0, m, i);
    }
  }

  /** Two flips of one symbol are at least hysteresisMs apart. */
  lemma FlipsAreApart(c: Config, seeded: bool, obs: seq<Obs>, blocks: seq<bool>, i: nat, j: nat)
    requires Timely(obs) && i < j < |obs| == |blocks|
    requires FlipsAt(c, seeded, obs, blocks, i) && FlipsAt(c, seeded, obs, blocks, j)
    ensures obs[j].now - obs[i].now >= c.hysteresisMs
  {
    FlipsExactlyWhenHeld(c, seeded, obs, blocks, j);
    var m: nat :| DisagreesSince(c, seeded, obs, blocks, m, j) && obs[j].now - obs[m].now >= c.hysteresisMs;
    assert i < m;
    assert obs[i].now <= obs[m].now;
  }

  /** No subscribe happens under quarantine. */
  lemma SubscribesOutsideQuarantine(c: Config, seeded: bool, obs: seq<Obs>, i: nat)
    requires |c.stepsMs| > 0 && i < |obs|
    requires !Run(c, seeded, obs, i).sub.subscribed && Run(c, seeded, obs, i + 1).sub.subscribed
    ensures !Quarantined(Run(c, seeded, obs, i + 1).flap, obs[i].now)
    ensures FlipsAt(c, seeded, obs, Blocks(c, obs), i)
  {
    RunSplits(c, seeded, obs, i);
    RunSplits(c, seeded, obs, i + 1);
    FlipsExactlyWhenHeld(c, seeded, obs, Blocks(c, obs), i);
  }

  // ---------------------------------------------------------------- flaps and quarantine

  /** The symbol left the Top5 at scan i. */
  predicate ExitsAt(obs: seq<Obs>, i: int) {
    0 < i < |obs| && obs[i - 1].inTop5 && !obs[i].inTop5
  }

  function CountExits(obs: seq<Obs>, a: nat, n: nat): nat {
    if n <= a then 0 else CountExits(obs, a, n - 1) + if ExitsAt(obs, n - 1) then 1 else 0
  }

  predicate EntersAt(c: Config, obs: seq<Obs>, i: nat)
    requires |c.stepsMs| > 0 && i < |obs|
  {
    Enters(c, FlapRun(c, obs, i), obs[i])
  }

  predicate ResetsAt(c: Config, obs: seq<Obs>, i: nat)
    requires |c.stepsMs| > 0 && i < |obs|
  {
    Resets(c, FlapStep(c, FlapRun(c, obs, i), obs[i]), obs[i].now)
  }

  /** The exit that opened the window still standing before scan n, if one does. Windows tile: an exit
      counts in the standing window, or opens the next if that is longer than flapWindowMs ago; an entry
      ends its window. */
  function Window(c: Config, obs: seq<Obs>, n: nat): (w: Option<nat>)
    requires |c.stepsMs| > 0 && n <= |obs|
    ensures w.Some? ==> w.value < n
  {
    if n == 0 then None
    else
      var w, k := Window(c, obs, n - 1), n - 1;
      if !ExitsAt(obs, k) then w
      else if EntersAt(c, obs, k) then None
      else if w.Some? && obs[k].now - obs[w.value].now <= c.flapWindowMs then w
      else Some(k)
  }

  /** The exit whose window an exit at scan i counts in. */
  function WindowOf(c: Config, obs: seq<Obs>, i: nat): (w: nat)
    requires |c.stepsMs| > 0 && i < |obs|
    ensures w <= i
  {
    var w := Window(c, obs, i);
    if w.Some? && obs[i].now - obs[w.value].now <= c.flapWindowMs then w.value else i
  }

  /** The flap fields hold the standing window and its exits, of which none entered. */
  ghost predicate WindowHeld(c: Config, obs: seq<Obs>, n: nat)
    requires |c.stepsMs| > 0 && n <= |obs|
  {
    var f, w := FlapRun(c, obs, n), Window(c, obs, n);
    if w.None? then f.flapStart == 0
    else
      && f.flapStart == obs[w.value].now && f.flapCount == CountExits(obs, w.value, n)
      && forall k :: w.value <= k < n ==> !EntersAt(c, obs, k)
  }

  lemma {:induction false} WindowCounts(c: Config, obs: seq<Obs>, n: nat)
    requires |c.stepsMs| > 0 && Timely(obs) && n <= |obs|
    ensures FlapRun(c, obs, n).lastTarget == (n > 0 && obs[n - 1].inTop5)
    ensures WindowHeld(c, obs, n)
  {
    if n > 0 {
      WindowCounts(c, obs, n - 1);
      WindowStep(c, obs, n - 1);
    }
  }

  lemma WindowStep(c: Config, obs: seq<Obs>, n: nat)
    requires |c.stepsMs| > 0 && Timely(obs) && n < |obs|
    requires FlapRun(c, obs, n).lastTarget == (n > 0 && obs[n - 1].inTop5) && WindowHeld(c, obs, n)
    ensures WindowHeld(c, obs, n + 1)
  {
    assert CountExits(obs, n, n + 1) == CountExits(obs, n, n) + if ExitsAt(obs, n) then 1 else 0;
  }

  /** A quarantine is entered exactly at an exit from the Top5 that is the flapThreshold-th or later of
      its window, when the last quarantine has ended. */
  lemma EntersExactlyAtThreshold(c: Config, obs: seq<Obs>, i: nat)
    requires |c.stepsMs| > 0 && Timely(obs) && i < |obs|
    ensures EntersAt(c, obs, i) <==>
              && ExitsAt(obs, i) && CountExits(obs, WindowOf(c, obs, i), i + 1) >= c.flapThreshold
              && !Quarantined(FlapRun(c, obs, i), obs[i].now)
    ensures c.flapWindowMs >= 0 ==> obs[i].now - obs[WindowOf(c, obs, i)].now <= c.flapWindowMs
    ensures forall k :: WindowOf(c, obs, i) <= k < i ==> !EntersAt(c, obs, k)
  {
    WindowCounts(c, obs, i);
    assert CountExits(obs, i, i + 1) == CountExits(obs, i, i) + if ExitsAt(obs, i) then 1 else 0;
  }

  /** Every quarantine entry is justified: at least flapThreshold exits from the Top5, all within
      the last flapWindowMs and all since the previous entry. */
  lemma EntryIsJustified(c: Config, obs: seq<Obs>, i: nat) returns (a: nat)
    requires |c.stepsMs| > 0 && Timely(obs) && i < |obs| && EntersAt(c, obs, i)
    requires c.flapWindowMs >= 0
    ensures a <= i && ExitsAt(obs, i) && CountExits(obs, a, i + 1) >= c.flapThreshold
    ensures obs[i].now - obs[a].now <= c.flapWindowMs
    ensures forall k :: a <= k < i ==> !EntersAt(c, obs, k)
  {
    EntersExactlyAtThreshold(c, obs, i);
    a := WindowOf(c, obs, i);
  }

  /** Exits at 1, 59, 62 and 63. */
  const BURST := [Obs(true, 1), Obs(false, 1), Obs(true, 59), Obs(false, 59),
                  Obs(true, 62), Obs(false, 62), Obs(true, 63), Obs(false, 63)]

  /** The converse fails: with a threshold of three and a window of 60, the last three exits lie within
      four milliseconds and nothing is entered, because a new window opens between them. */
  lemma BurstAcrossWindowsEntersNothing(c: Config)
    requires |c.stepsMs| > 0 && c.flapThreshold == 3 && c.flapWindowMs == 60
    ensures Timely(BURST) && CountExits(BURST, 3, 8) == 3 && BURST[7].now - BURST[3].now == 4
    ensures forall i :: 0 <= i < 8 ==> !EntersAt(c, BURST, i)
  {
    var f2 := Flap(false, 1, 1, 0, 0);
    assert FlapRun(c, BURST, 1) == NO_FLAPS.(lastTarget := true);
    assert FlapRun(c, BURST, 2) == f2;
    assert FlapRun(c, BURST, 3) == f2.(lastTarget := true);
    assert FlapRun(c, BURST, 4) == Flap(false, 1, 2, 0, 0);
    assert FlapRun(c, BURST, 5) == Flap(true, 1, 2, 0, 0);
    assert FlapRun(c, BURST, 6) == Flap(false, 62, 1, 0, 0);
    assert FlapRun(c, BURST, 7) == Flap(true, 62, 1, 0, 0);
    assert CountExits(BURST, 3, 4) == 1 && CountExits(BURST, 3, 5) == 1;
    assert CountExits(BURST, 3, 6) == 2 && CountExits(BURST, 3, 7) == 2;
  }

  /** What a scan does to the quarantine: an entry needs the last one to have ended, and starts one
      of the current level's length; nothing else moves its end. */
  lemma EntryEffect(c: Config, obs: seq<Obs>, i: nat)
    requires |c.stepsMs| > 0 && i < |obs|
    ensures var f, f' := FlapRun(c, obs, i), FlapRun(c, obs, i + 1);
            && (EntersAt(c, obs, i) ==> f.untilMs <= obs[i].now && f'.untilMs == obs[i].now + Duration(c, f.level))
            && (!EntersAt(c, obs, i) ==> f'.untilMs == f.untilMs)
            && (!ResetsAt(c, obs, i) ==> f'.level == f.level + if EntersAt(c, obs, i) then 1 else 0)
  {
  }

  lemma {:induction false} UntilNeverShrinks(c: Config, obs: seq<Obs>, i: nat, j: nat)
    requires |c.stepsMs| > 0 && i <= j <= |obs|
    requires forall k :: 0 <= k < |c.stepsMs| ==> c.stepsMs[k] >= 0
    ensures FlapRun(c, obs, i).untilMs <= FlapRun(c, obs, j).untilMs
    decreases j
  {
    if i < j {
      UntilNeverShrinks(c, obs, i, j - 1);
      EntryEffect(c, obs, j - 1);
    }
  }

  /** Quarantines of one symbol never overlap: a later entry comes no earlier than the end of an
      earlier one. */
  lemma QuarantinesDoNotOverlap(c: Config, obs: seq<Obs>, i: nat, j: nat)
    requires |c.stepsMs| > 0 && i < j < |obs|
    requires forall k :: 0 <= k < |c.stepsMs| ==> c.stepsMs[k] >= 0
    requires EntersAt(c, obs, i) && EntersAt(c, obs, j)
    ensures FlapRun(c, obs, i + 1).untilMs == obs[i].now + Duration(c, FlapRun(c, obs, i).level)
    ensures obs[j].now >= FlapRun(c, obs, i + 1).untilMs
  {
    EntryEffect(c, obs, i);
    UntilNeverShrinks(c, obs, i + 1, j);
    EntryEffect(c, obs, j);
  }

  lemma {:induction false} LevelNeverShrinks(c: Config, obs: seq<Obs>, i: nat, j: nat)
    requires |c.stepsMs| > 0 && i <= j <= |obs|
    requires forall k :: i <= k < j ==> !ResetsAt(c, obs, k)
    ensures FlapRun(c, obs, i).level <= FlapRun(c, obs, j).level
    decreases j
  {
    if i < j {
      LevelNeverShrinks(c, obs, i, j - 1);
      EntryEffect(c, obs, j - 1);
    }
  }

  /** Between stable resets, quarantines never get shorter when the steps are sorted. */
  lemma QuarantinesEscalate(c: Config, obs: seq<Obs>, i: nat, j: nat)
    requires |c.stepsMs| > 0 && i < j < |obs|
    requires forall k, l :: 0 <= k <= l < |c.stepsMs| ==> c.stepsMs[k] <= c.stepsMs[l]
    requires EntersAt(c, obs, i) && EntersAt(c, obs, j)
    requires forall k :: i <= k < j ==> !ResetsAt(c, obs, k)
    ensures FlapRun(c, obs, i + 1).untilMs - obs[i].now <= FlapRun(c, obs, j + 1).untilMs - obs[j].now
  {
    LevelNeverShrinks(c, obs, i, j);
    EntryEffect(c, obs, i);
    EntryEffect(c, obs, j);
  }

  // ---------------------------------------------------------------- how long a quarantine lasts

  function CountEntries(c: Config, obs: seq<Obs>, a: nat, n: nat): nat
    requires |c.stepsMs| > 0 && n <= |obs|
  {
    if n <= a then 0 else CountEntries(c, obs, a, n - 1) + if EntersAt(c, obs, n - 1) then 1 else 0
  }

  /** The last scan before n that entered a quarantine. */
  function LastEntry(c: Config, obs: seq<Obs>, n: nat): (k: Option<nat>)
    requires |c.stepsMs| > 0 && n <= |obs|
    ensures k.Some? ==> k.value < n && EntersAt(c, obs, k.value)
  {
    if n == 0 then None else if EntersAt(c, obs, n - 1) then Some(n - 1) else LastEntry(c, obs, n - 1)
  }

  /** At scan j the last quarantine has been over for resetStableMs. An end of zero counts as none. */
  predicate StableAt(c: Config, obs: seq<Obs>, j: nat)
    requires |c.stepsMs| > 0 && j < |obs|
  {
    var k := LastEntry(c, obs, j + 1);
    k.Some? && OverSince(c, FlapRun(c, obs, k.value + 1).untilMs, obs[j].now)
  }

  predicate OverSince(c: Config, end: int, now: int) {
    end != 0 && end <= now && end + c.resetStableMs <= now
  }

  /** The last such scan before n. */
  function LastStable(c: Config, obs: seq<Obs>, n: nat): (j: Option<nat>)
    requires |c.stepsMs| > 0 && n <= |obs|
    ensures j.Some? ==> j.value < n && StableAt(c, obs, j.value)
  {
    if n == 0 then None else if StableAt(c, obs, n - 1) then Some(n - 1) else LastStable(c, obs, n - 1)
  }

  /** How many quarantines before scan n count towards the length of the next: all of them, or, after a
      stable scan, one and those since. */
  function Counted(c: Config, obs: seq<Obs>, n: nat): nat
    requires |c.stepsMs| > 0 && n <= |obs|
  {
    var j := LastStable(c, obs, n);
    if j.None? then CountEntries(c, obs, 0, n) else 1 + CountEntries(c, obs, j.value + 1, n)
  }

  lemma {:induction false} UntilIsOfLastEntry(c: Config, obs: seq<Obs>, n: nat)
    requires |c.stepsMs| > 0 && n <= |obs|
    ensures var k, f := LastEntry(c, obs, n), FlapRun(c, obs, n);
            if k.None? then f.untilMs == 0 && f.level == 0
            else f.untilMs == FlapRun(c, obs, k.value + 1).untilMs && f.level > 0
  {
    if n > 0 {
      UntilIsOfLastEntry(c, obs, n - 1);
      EntryEffect(c, obs, n - 1);
    }
  }

  /** A stable scan puts the level at one; any other only counts an entry. */
  lemma StableScanResets(c: Config, obs: seq<Obs>, j: nat)
    requires |c.stepsMs| > 0 && j < |obs|
    ensures FlapRun(c, obs, j + 1).level ==
            if StableAt(c, obs, j) then 1
            else FlapRun(c, obs, j).level + if EntersAt(c, obs, j) then 1 else 0
  {
    UntilIsOfLastEntry(c, obs, j + 1);
    assert FlapRun(c, obs, j + 1).untilMs == FlapStep(c, FlapRun(c, obs, j), obs[j]).untilMs;
  }

  lemma {:induction false} LevelIsCounted(c: Config, obs: seq<Obs>, n: nat)
    requires |c.stepsMs| > 0 && n <= |obs|
    ensures FlapRun(c, obs, n).level == Counted(c, obs, n)
  {
    if n > 0 {
      LevelIsCounted(c, obs, n - 1);
      StableScanResets(c, obs, n - 1);
    }
  }

  /** The length of a quarantine is the step that the quarantines before it have reached: one further
      for each, up to the last, and back at the second once one has been over for resetStableMs. */
  lemma QuarantineLength(c: Config, obs: seq<Obs>, i: nat)
    requires |c.stepsMs| > 0 && i < |obs| && EntersAt(c, obs, i)
    ensures var e, last := Counted(c, obs, i), |c.stepsMs| - 1;
            FlapRun(c, obs, i + 1).untilMs == obs[i].now + c.stepsMs[if e < last then e else last]
  {
    LevelIsCounted(c, obs, i);
    EntryEffect(c, obs, i);
  }
}
