/** The rotation manager over all symbols: separate dictionaries for hysteresis, flap and quarantine
  state, updated by one scan in three passes.
 */
module UniverseService {
  import opened Basics
  import opened RotationSpec

  /** The dictionaries of the service; a missing key stands for the default. */
  datatype Dicts = Dicts(
    subscribed: set<string>, pendingTarget: map<string, bool>, pendingSince: map<string, int>,
    lastTarget: map<string, bool>, flapStart: map<string, int>, flapCount: map<string, int>,
    untilMs: map<string, int>, level: map<string, nat>)

  function Get<V>(m: map<string, V>, k: string, default: V): V {
    if k in m then m[k] else default
  }

  function SubOf(d: Dicts, sym: string): Sub {
    Sub(sym in d.subscribed,
        if sym in d.pendingTarget then Waiting(d.pendingTarget[sym], Get(d.pendingSince, sym, 0)) else Idle)
  }

  function FlapOf(d: Dicts, sym: string): Flap {
    Flap(Get(d.lastTarget, sym, false), Get(d.flapStart, sym, 0), Get(d.flapCount, sym, 0),
         Get(d.untilMs, sym, 0), Get(d.level, sym, 0))
  }

  /** The state of one symbol. */
  function Of(d: Dicts, sym: string): SymState {
    SymState(SubOf(d, sym), FlapOf(d, sym))
  }

  /** How the two differences of a set to its start grow when a symbol joins or leaves. */
  lemma Differences(start: set<string>, s: set<string>, added: set<string>, removed: set<string>, x: string)
    requires added == s - start && removed == start - s && (x in s <==> x in start)
    ensures x !in s ==> s + {x} - start == added + {x} && start - (s + {x}) == removed
    ensures x in s ==> s - {x} - start == added && start - (s - {x}) == removed + {x}
  {
  }

  class UniverseService {
    const config: Config
    const excluded: set<string>
    var subscribed: set<string>
    var pendingTarget: map<string, bool>
    var pendingSince: map<string, int>
    var lastTarget: map<string, bool>
    var flapStart: map<string, int>
    var flapCount: map<string, int>
    var untilMs: map<string, int>
    var level: map<string, nat>

    ghost function Abs(): Dicts
      reads this
    {
      Dicts(subscribed, pendingTarget, pendingSince, lastTarget, flapStart, flapCount, untilMs, level)
    }

    /** No excluded symbol has any state, and both halves of a pending entry are there together. */
    ghost predicate Valid()
      reads this
    {
      && |config.stepsMs| > 0
      && pendingTarget.Keys == pendingSince.Keys
      && excluded !! subscribed && excluded !! pendingTarget.Keys && excluded !! level.Keys
      && excluded !! lastTarget.Keys && excluded !! untilMs.Keys
    }

    constructor (config: Config, excluded: set<string>)
      requires |config.stepsMs| > 0
      ensures Valid() && this.config == config && this.excluded == excluded
      ensures forall sym :: Of(Abs(), sym) == Run(config, false, [], 0)
    {
      this.config, this.excluded := config, excluded;
      subscribed, pendingTarget, pendingSince, lastTarget := {}, map[], map[], map[];
      flapStart, flapCount, untilMs, level := map[], map[], map[], map[];
    }

    /** Start-up: subscribes every given symbol that is not excluded, without waiting. */
    method SeedSubscriptions(symbols: seq<string>)
      requires Valid()
      modifies this`subscribed
      ensures Valid()
      ensures subscribed == old(subscribed) + (set s | s in symbols && s !in excluded)
    {
      for i := 0 to |symbols|
        invariant subscribed == old(subscribed) + (set s | s in symbols[..i] && s !in excluded)
      {
        assert symbols[..i + 1] == symbols[..i] + [symbols[i]];
        if symbols[i] !in excluded {
          subscribed := subscribed + {symbols[i]};
        }
      }
      assert symbols[..|symbols|] == symbols;
    }

    // -------------------------------------------------------------- one symbol at a time

    method RecordFlapRoundTrip(sym: string, now: int)
      requires Valid() && sym !in excluded && Get(lastTarget, sym, false)
      modifies this`flapStart, this`flapCount, this`untilMs, this`level
      ensures Valid()
      ensures FlapOf(Abs(), sym).(lastTarget := false) == FlapStep(config, FlapOf(old(Abs()), sym), Obs(false, now))
      ensures forall x :: x != sym ==> FlapOf(Abs(), x) == FlapOf(old(Abs()), x)
    {
      CountExit(sym, now);
      if flapCount[sym] >= config.flapThreshold && !(Get(untilMs, sym, 0) > now) {
        Enter(sym, now);
      }
    }

    method CountExit(sym: string, now: int)
      requires Valid()
      modifies this`flapStart, this`flapCount
      ensures Valid() && sym in flapCount
      ensures FlapOf(Abs(), sym) == CountFlap(config, FlapOf(old(Abs()), sym), now)
      ensures forall x :: x != sym ==> FlapOf(Abs(), x) == FlapOf(old(Abs()), x)
    {
      var start := Get(flapStart, sym, 0);
      if start == 0 || now - start > config.flapWindowMs {
        flapStart := flapStart[sym := now];
        flapCount := flapCount[sym := 0];
      }
      flapCount := flapCount[sym := Get(flapCount, sym, 0) + 1];
    }

    method Enter(sym: string, now: int)
      requires Valid() && sym !in excluded
      modifies this`flapStart, this`flapCount, this`untilMs, this`level
      ensures Valid()
      ensures FlapOf(Abs(), sym) == EnterQuarantine(config, FlapOf(old(Abs()), sym), now)
      ensures forall x :: x != sym ==> FlapOf(Abs(), x) == FlapOf(old(Abs()), x)
    {
      var lvl := Get(level, sym, 0);
      var idx := if lvl < |config.stepsMs| - 1 then lvl else |config.stepsMs| - 1;
      untilMs := untilMs[sym := now + config.stepsMs[idx]];
      level := level[sym := lvl + 1];
      EndWindow(sym);
    }

    method EndWindow(sym: string)
      requires Valid()
      modifies this`flapStart, this`flapCount
      ensures Valid()
      ensures FlapOf(Abs(), sym) == FlapOf(old(Abs()), sym).(flapStart := 0, flapCount := 0)
      ensures forall x :: x != sym ==> FlapOf(Abs(), x) == FlapOf(old(Abs()), x)
    {
      flapStart := flapStart - {sym};
      flapCount := flapCount[sym := 0];
    }

    method MaybeStableReset(sym: string, now: int)
      requires Valid() && sym !in excluded
      modifies this`level
      ensures Valid() && level.Keys == old(level.Keys)
      ensures FlapOf(Abs(), sym) == ResetStep(config, FlapOf(old(Abs()), sym), now)
      ensures forall x :: x != sym ==> FlapOf(Abs(), x) == FlapOf(old(Abs()), x)
    {
      if Get(untilMs, sym, 0) > now { return; }
      var until := Get(untilMs, sym, 0);
      if until == 0 || now - until < config.resetStableMs { return; }
      if Get(level, sym, 0) > 1 {
        level := level[sym := 1];
      }
    }

    method Rotate(sym: string, target: bool, now: int) returns (acted: bool)
      requires Valid() && sym !in excluded
      modifies this`subscribed, this`pendingTarget, this`pendingSince
      ensures Valid()
      ensures SubOf(Abs(), sym) ==
              RotateStep(config, SubOf(old(Abs()), sym), Obs(target, now), Quarantined(FlapOf(Abs(), sym), now))
      ensures acted ==> (sym in old(subscribed)) != target
      ensures subscribed == if !acted then old(subscribed)
                            else if target then old(subscribed) + {sym}
                            else old(subscribed) - {sym}
      ensures forall x :: x != sym ==> SubOf(Abs(), x) == SubOf(old(Abs()), x)
    {
      acted := false;
      if (sym in subscribed) == target {
        pendingTarget := pendingTarget - {sym};
        pendingSince := pendingSince - {sym};
        return;
      }
      if sym !in pendingTarget || pendingTarget[sym] != target {
        pendingTarget := pendingTarget[sym := target];
        pendingSince := pendingSince[sym := now];
        return;
      }
      if now - pendingSince[sym] < config.hysteresisMs { return; }
      if target {
        if Get(untilMs, sym, 0) > now { return; }
        subscribed := subscribed + {sym};
      } else {
        subscribed := subscribed - {sym};
      }
      acted := true;
      pendingTarget := pendingTarget - {sym};
      pendingSince := pendingSince - {sym};
    }

    // -------------------------------------------------------------- the passes of a scan

    method FlapVisit(sym: string, curr: bool, now: int)
      requires Valid() && sym !in excluded
      modifies this`flapStart, this`flapCount, this`untilMs, this`level, this`lastTarget
      ensures Valid() && lastTarget.Keys == old(lastTarget.Keys) + {sym}
      ensures FlapOf(Abs(), sym) == FlapStep(config, FlapOf(old(Abs()), sym), Obs(curr, now))
      ensures forall x :: x != sym ==> FlapOf(Abs(), x) == FlapOf(old(Abs()), x)
    {
      if Get(lastTarget, sym, false) && !curr {
        RecordFlapRoundTrip(sym, now);
      }
      lastTarget := lastTarget[sym := curr];
    }

    method FlapPass(top5: set<string>, now: int)
      requires Valid()
      modifies this`flapStart, this`flapCount, this`untilMs, this`level, this`lastTarget
      ensures Valid()
      ensures forall x :: FlapOf(Abs(), x) ==
                if x in excluded then FlapOf(old(Abs()), x)
                else FlapStep(config, FlapOf(old(Abs()), x), Obs(x in top5, now))
    {
      var relevant := (lastTarget.Keys + top5) - excluded;
      var todo := relevant;
      while todo != {}
        invariant Valid() && todo <= relevant && relevant == (old(lastTarget).Keys + top5) - excluded
        invariant forall x :: FlapOf(Abs(), x) ==
                    if x in relevant && x !in todo
                    then FlapStep(config, FlapOf(old(Abs()), x), Obs(x in top5, now))
                    else FlapOf(old(Abs()), x)
        decreases todo
      {
        var sym := Pick(todo);
        todo := todo - {sym};
        FlapVisit(sym, sym in top5, now);
      }
    }

    method ResetPass(now: int)
      requires Valid()
      modifies this`level
      ensures Valid()
      ensures forall x :: FlapOf(Abs(), x) == ResetStep(config, FlapOf(old(Abs()), x), now)
    {
      var todo := level.Keys;
      while todo != {}
        invariant Valid() && todo <= old(level).Keys
        invariant forall x :: FlapOf(Abs(), x) ==
                    if x in old(level) && x !in todo then ResetStep(config, FlapOf(old(Abs()), x), now)
                    else FlapOf(old(Abs()), x)
        decreases todo
      {
        var sym := Pick(todo);
        todo := todo - {sym};
        MaybeStableReset(sym, now);
      }
    }

    method RotatePass(top5: set<string>, now: int) returns (toSub: set<string>, toUnsub: set<string>)
      requires Valid()
      modifies this`subscribed, this`pendingTarget, this`pendingSince
      ensures Valid()
      ensures forall x :: SubOf(Abs(), x) ==
                if x in excluded then SubOf(old(Abs()), x)
                else RotateStep(config, SubOf(old(Abs()), x), Obs(x in top5, now), Quarantined(FlapOf(Abs(), x), now))
      ensures toSub == subscribed - old(subscribed) && toUnsub == old(subscribed) - subscribed
    {
      var interested := (subscribed + top5 + pendingTarget.Keys) - excluded;
      var todo := interested;
      toSub, toUnsub := {}, {};
      while todo != {}
        invariant Valid() && todo <= interested
        invariant forall x :: SubOf(Abs(), x) ==
                    if x in interested && x !in todo
                    then RotateStep(config, SubOf(old(Abs()), x), Obs(x in top5, now),
                                    Quarantined(FlapOf(Abs(), x), now))
                    else SubOf(old(Abs()), x)
        invariant toSub == subscribed - old(subscribed) && toUnsub == old(subscribed) - subscribed
        decreases todo
      {
        var sym := Pick(todo);
        todo := todo - {sym};
        assert SubOf(Abs(), sym) == SubOf(old(Abs()), sym);
        Differences(old(subscribed), subscribed, toSub, toUnsub, sym);
        var acted := Rotate(sym, sym in top5, now);
        if acted {
          if sym in top5 { toSub := toSub + {sym}; } else { toUnsub := toUnsub + {sym}; }
        }
      }
    }

    /** A scan takes every symbol that is not excluded one step of its own history; excluded symbols
        keep having no state. The decision is the difference of the subscriptions, the symbols to watch
        and those under quarantine. */
    method ApplyScan(top5: set<string>, top10: set<string>, now: int)
      returns (toSub: set<string>, toUnsub: set<string>, watch: set<string>, quarantined: set<string>)
      requires Valid()
      modifies this
      ensures Valid()
      ensures forall x :: x !in excluded ==> Of(Abs(), x) == Step(config, Of(old(Abs()), x), Obs(x in top5, now))
      ensures subscribed !! excluded
      ensures toSub == subscribed - old(subscribed) && toUnsub == old(subscribed) - subscribed
      ensures watch == top10 - top5
      ensures now >= 0 ==> forall x :: x in quarantined <==> Quarantined(FlapOf(Abs(), x), now)
    {
      watch := top10 - top5;
      FlapPass(top5, now);
      ResetPass(now);
      toSub, toUnsub := RotatePass(top5, now);
      quarantined := InQuarantine(now);
    }

    method InQuarantine(now: int) returns (quarantined: set<string>)
      ensures now >= 0 ==> forall x :: x in quarantined <==> Quarantined(FlapOf(Abs(), x), now)
    {
      quarantined := set x | x in untilMs && untilMs[x] > now;
    }
  }
}
