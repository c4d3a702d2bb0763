/** Level-ordered locks over any number of threads and locks.

  A thread may ask for a lock only if every level it holds is below the lock's. The steps of all
  threads interleave freely; what follows is that the wait-for graph never has a cycle and that
  every reachable state can still be run to the end with every request granted.
 */
module Locks {

  type Thread = nat
  type Lock = nat
  type LevelOf = Lock -> int

  /** owner: who holds a lock; waiting: the lock a thread has asked for and not yet got;
      held: each thread's thread-local set of levels. */
  datatype State = State(owner: map<Lock, Thread>, waiting: map<Thread, Lock>, held: map<Thread, set<int>>)

  datatype Event =
    | Request(t: Thread, l: Lock)
    | Grant(t: Thread)
    | GiveUp(t: Thread)
    | Release(t: Thread, l: Lock)

  const START := State(map[], map[], map[])

  function Held(s: State, t: Thread): set<int> {
    if t in s.held then s.held[t] else {}
  }

  /** The check in front of an acquire. */
  predicate Rejects(held: set<int>, level: int) {
    exists x :: x in held && x >= level
  }

  /** One step. An event that cannot happen, and a request the level check rejects, change nothing. */
  function Step(lv: LevelOf, s: State, e: Event): State {
    match e
    case Request(t, l) =>
      if t in s.waiting || Rejects(Held(s, t), lv(l)) then s
      else s.(waiting := s.waiting[t := l])
    case Grant(t) =>
      if t in s.waiting && s.waiting[t] !in s.owner then
        var l := s.waiting[t];
        State(s.owner[l := t], s.waiting - {t}, s.held[t := Held(s, t) + {lv(l)}])
      else s
    case GiveUp(t) => s.(waiting := s.waiting - {t})
    case Release(t, l) =>
      if l in s.owner && s.owner[l] == t && t !in s.waiting then
        s.(owner := s.owner - {l}, held := s.held[t := Held(s, t) - {lv(l)}])
      else s
  }

  function Run(lv: LevelOf, s: State, es: seq<Event>): State {
    if |es| == 0 then s else Step(lv, Run(lv, s, es[..|es| - 1]), es[|es| - 1])
  }

  // ---------------------------------------------------------------- the invariant

  /** A thread's level set is exactly the levels of its locks, no two of its locks share a level,
      and what it waits for lies above all of them. */
  ghost predicate Inv(lv: LevelOf, s: State) {
    && (forall l :: l in s.owner ==> lv(l) in Held(s, s.owner[l]))
    && (forall t, x :: x in Held(s, t) ==> Owns(lv, s, t, x))
    && (forall l, l' :: l in s.owner && l' in s.owner && s.owner[l] == s.owner[l'] && lv(l) == lv(l') ==> l == l')
    && (forall t, l :: t in s.waiting && l in s.owner && s.owner[l] == t ==> lv(l) < lv(s.waiting[t]))
  }

  ghost predicate Owns(lv: LevelOf, s: State, t: Thread, x: int) {
    exists l :: l in s.owner && s.owner[l] == t && lv(l) == x
  }

  lemma OwnsOneMore(lv: LevelOf, s: State, t: Thread, u: Thread, x: int)
    requires t in s.waiting && s.waiting[t] !in s.owner
    requires (u == t && x == lv(s.waiting[t])) || Owns(lv, s, u, x)
    ensures Owns(lv, Step(lv, s, Grant(t)), u, x)
  {
    var s' := Step(lv, s, Grant(t));
    if u == t && x == lv(s.waiting[t]) {
      assert s'.owner[s.waiting[t]] == t;
    } else {
      var k :| k in s.owner && s.owner[k] == u && lv(k) == x;
      assert k in s'.owner && s'.owner[k] == u;
    }
  }

  lemma GrantKeepsOwns(lv: LevelOf, s: State, t: Thread, u: Thread, x: int)
    requires Inv(lv, s) && t in s.waiting && s.waiting[t] !in s.owner
    requires x in Held(Step(lv, s, Grant(t)), u)
    ensures Owns(lv, Step(lv, s, Grant(t)), u, x)
  {
    assert (u == t && x == lv(s.waiting[t])) || x in Held(s, u);
    OwnsOneMore(lv, s, t, u, x);
  }

  lemma GrantKeepsInv(lv: LevelOf, s: State, t: Thread)
    requires Inv(lv, s) && t in s.waiting && s.waiting[t] !in s.owner
    ensures Inv(lv, Step(lv, s, Grant(t)))
  {
    forall u, x | x in Held(Step(lv, s, Grant(t)), u) ensures Owns(lv, Step(lv, s, Grant(t)), u, x) {
      GrantKeepsOwns(lv, s, t, u, x);
    }
  }

  /** A failed acquire stops waiting and gives up nothing it holds. */
  lemma GivingUpKeepsLocks(lv: LevelOf, s: State, t: Thread)
    ensures var s' := Step(lv, s, GiveUp(t));
            && s'.owner == s.owner && s'.held == s.held && t !in s'.waiting
            && forall u :: u != t ==> (u in s'.waiting <==> u in s.waiting)
  {
  }

  lemma ReleaseKeepsInv(lv: LevelOf, s: State, t: Thread, l: Lock)
    requires Inv(lv, s) && l in s.owner && s.owner[l] == t && t !in s.waiting
    ensures Inv(lv, Step(lv, s, Release(t, l)))
  {
    var s' := Step(lv, s, Release(t, l));
    forall u, x | x in Held(s', u) ensures Owns(lv, s', u, x) {
      assert x in Held(s, u) && Owns(lv, s, u, x);
      var k :| k in s.owner && s.owner[k] == u && lv(k) == x;
      assert k in s'.owner;
    }
  }

  lemma StepKeepsInv(lv: LevelOf, s: State, e: Event)
    requires Inv(lv, s)
    ensures Inv(lv, Step(lv, s, e))
  {
    var s' := Step(lv, s, e);
    if s' != s {
      match e
      case Request(_, _) | GiveUp(_) =>
        forall u, x | x in Held(s', u) ensures Owns(lv, s', u, x) { assert Owns(lv, s, u, x); }
      case Grant(t) => GrantKeepsInv(lv, s, t);
      case Release(t, l) => ReleaseKeepsInv(lv, s, t, l);
    }
  }

  lemma {:induction false} RunKeepsInv(lv: LevelOf, s: State, es: seq<Event>)
    requires Inv(lv, s)
    ensures Inv(lv, Run(lv, s, es))
  {
    if |es| > 0 {
      RunKeepsInv(lv, s, es[..|es| - 1]);
      StepKeepsInv(lv, Run(lv, s, es[..|es| - 1]), es[|es| - 1]);
    }
  }

  // ---------------------------------------------------------------- no deadlock

  predicate WaitsFor(s: State, t: Thread, u: Thread) {
    t in s.waiting && s.waiting[t] in s.owner && s.owner[s.waiting[t]] == u
  }

  ghost predicate IsWaitPath(s: State, path: seq<Thread>) {
    forall i :: 0 <= i < |path| - 1 ==> WaitsFor(s, path[i], path[i + 1])
  }

  /** Along a wait path levels rise: whoever stands later on it owns a lock at least as high as
      the one awaited at the start. */
  lemma {:induction false} LevelsRise(lv: LevelOf, s: State, path: seq<Thread>, j: nat) returns (k: Lock)
    requires Inv(lv, s) && IsWaitPath(s, path) && 0 < j < |path|
    ensures path[0] in s.waiting && k in s.owner && s.owner[k] == path[j] && lv(s.waiting[path[0]]) <= lv(k)
    decreases j
  {
    assert WaitsFor(s, path[j - 1], path[j]) && WaitsFor(s, path[0], path[1]);
    k := s.waiting[path[j - 1]];
    if j > 1 {
      var below := LevelsRise(lv, s, path, j - 1);
      assert lv(below) < lv(k);
    }
  }

  /** In every reachable state the wait-for graph is acyclic, for any threads, locks and levels. */
  lemma NoWaitCycle(lv: LevelOf, es: seq<Event>, path: seq<Thread>)
    requires |path| >= 2 && path[0] == path[|path| - 1]
    ensures !IsWaitPath(Run(lv, START, es), path)
  {
    RunKeepsInv(lv, START, es);
    if IsWaitPath(Run(lv, START, es), path) {
      var k := LevelsRise(lv, Run(lv, START, es), path, |path| - 1);
    }
  }

  /** The held lock of greatest level. */
  lemma {:induction false} TopLock(lv: LevelOf, locks: set<Lock>) returns (top: Lock)
    requires locks != {}
    ensures top in locks && forall l :: l in locks ==> lv(l) <= lv(top)
    decreases locks
  {
    top :| top in locks;
    if locks != {top} {
      var other := TopLock(lv, locks - {top});
      if lv(top) < lv(other) {
        top := other;
      }
    }
  }

  /** If any thread is blocked, some lock holder is not. */
  lemma SomeHolderRuns(lv: LevelOf, es: seq<Event>, t: Thread, u: Thread) returns (holder: Thread)
    requires WaitsFor(Run(lv, START, es), t, u)
    ensures holder in Run(lv, START, es).owner.Values
    ensures forall v :: !WaitsFor(Run(lv, START, es), holder, v)
  {
    RunKeepsInv(lv, START, es);
    var s := Run(lv, START, es);
    holder := TopHolder(lv, s);
  }

  /** Whoever holds the highest lock waits for nobody. */
  lemma TopHolder(lv: LevelOf, s: State) returns (holder: Thread)
    requires Inv(lv, s) && s.owner.Keys != {}
    ensures holder in s.owner.Values
    ensures forall v :: !WaitsFor(s, holder, v)
  {
    var top := TopLock(lv, s.owner.Keys);
    holder := s.owner[top];
  }

  predicate OnlyProgress(es: seq<Event>) {
    forall i :: 0 <= i < |es| ==> es[i].Grant? || es[i].Release?
  }

  lemma {:induction false} RunConcat(lv: LevelOf, s: State, es: seq<Event>, fs: seq<Event>)
    ensures Run(lv, s, es + fs) == Run(lv, Run(lv, s, es), fs)
    decreases |fs|
  {
    if |fs| == 0 {
      assert es + fs == es;
    } else {
      var n := |fs| - 1;
      assert (es + fs)[..|es + fs| - 1] == es + fs[..n];
      RunConcat(lv, s, es, fs[..n]);
    }
  }

  function Work(s: State): nat {
    |s.owner| + 2 * |s.waiting|
  }

  lemma GrantLeavesLess(lv: LevelOf, s: State, t: Thread)
    requires t in s.waiting && s.waiting[t] !in s.owner
    ensures Work(Step(lv, s, Grant(t))) < Work(s)
  {
  }

  lemma ReleaseLeavesLess(lv: LevelOf, s: State, t: Thread, l: Lock)
    requires l in s.owner && s.owner[l] == t && t !in s.waiting
    ensures Work(Step(lv, s, Release(t, l))) < Work(s)
  {
  }

  /** Nothing is held or awaited. */
  predicate AllDone(s: State) {
    s.owner.Keys == {} && s.waiting.Keys == {}
  }

  /** Otherwise some grant or release can happen and leaves less to do. */
  lemma SomeProgress(lv: LevelOf, s: State) returns (e: Event)
    requires Inv(lv, s) && !AllDone(s)
    ensures e.Grant? || e.Release?
    ensures Work(Step(lv, s, e)) < Work(s)
  {
    if s.owner.Keys != {} {
      var top := TopLock(lv, s.owner.Keys);
      var u := s.owner[top];
      if u in s.waiting {
        e := Grant(u);
        GrantLeavesLess(lv, s, u);
      } else {
        e := Release(u, top);
        ReleaseLeavesLess(lv, s, u, top);
      }
    } else {
      var t :| t in s.waiting.Keys;
      e := Grant(t);
      GrantLeavesLess(lv, s, t);
    }
  }

  lemma FinishAfter(lv: LevelOf, s: State, e: Event, rest: seq<Event>)
    requires e.Grant? || e.Release?
    requires OnlyProgress(rest) && AllDone(Run(lv, Step(lv, s, e), rest))
    ensures OnlyProgress([e] + rest) && AllDone(Run(lv, s, [e] + rest))
  {
    assert [e][..0] == [];
    assert Run(lv, s, [e]) == Step(lv, Run(lv, s, []), e);
    RunConcat(lv, s, [e], rest);
  }

  lemma {:induction false} FinishFrom(lv: LevelOf, s: State, bound: nat) returns (es: seq<Event>)
    requires Inv(lv, s) && Work(s) <= bound
    ensures OnlyProgress(es) && AllDone(Run(lv, s, es))
    decreases bound
  {
    es := [];
    if !AllDone(s) {
      var e, next := ProgressStep(lv, s);
      var rest := FinishFrom(lv, next, bound - 1);
      FinishAfter(lv, s, e, rest);
      es := [e] + rest;
    }
  }

  lemma ProgressStep(lv: LevelOf, s: State) returns (e: Event, next: State)
    requires Inv(lv, s) && !AllDone(s)
    ensures next == Step(lv, s, e) && Inv(lv, next) && Work(next) < Work(s) && (e.Grant? || e.Release?)
  {
    e := SomeProgress(lv, s);
    next := Step(lv, s, e);
    StepKeepsInv(lv, s, e);
  }

  /** No reachable state is stuck: granting and releasing alone, without any request giving up,
      leads to a state where nobody waits and nothing is held. */
  lemma EveryStateCanFinish(lv: LevelOf, es: seq<Event>) returns (rest: seq<Event>)
    ensures OnlyProgress(rest) && AllDone(Run(lv, START, es + rest))
  {
    RunKeepsInv(lv, START, es);
    rest := FinishFrom(lv, Run(lv, START, es), Work(Run(lv, START, es)));
    RunConcat(lv, START, es, rest);
  }

  // ---------------------------------------------------------------- the lock objects

  /** The locks of one process and their owners' thread-local level sets. */
  class HierarchicalLocks {
    ghost const lv: LevelOf
    const levels: map<Lock, int>
    var owner: map<Lock, Thread>
    var waiting: map<Thread, Lock>
    var held: map<Thread, set<int>>

    ghost function Abs(): State
      reads this
    {
      State(owner, waiting, held)
    }

    ghost predicate Valid() {
      forall l :: l in levels ==> lv(l) == levels[l]
    }

    constructor (levels: map<Lock, int>)
      ensures Valid() && Abs() == START && this.levels == levels
    {
      this.levels := levels;
      this.lv := l => if l in levels then levels[l] else 0;
      owner, waiting, held := map[], map[], map[];
    }

    /** The check and the start of an acquire: raises, and changes nothing, if a level at or above
        the lock's is held; otherwise the thread queues for the lock. */
    method BeginAcquire(t: Thread, l: Lock) returns (raised: bool)
      requires Valid() && l in levels && t !in waiting
      modifies this`waiting
      ensures raised <==> t in held && exists x :: x in held[t] && x >= levels[l]
      ensures Abs() == Step(lv, old(Abs()), Request(t, l))
    {
      raised := t in held && exists x :: x in held[t] && x >= levels[l];
      if raised { return; }
      waiting := waiting[t := l];
    }

    /** The underlying lock comes free: the thread owns it and records its level. */
    method TakeFree(t: Thread)
      requires Valid() && t in waiting && waiting[t] !in owner && waiting[t] in levels
      modifies this
      ensures Abs() == Step(lv, old(Abs()), Grant(t))
    {
      var l := waiting[t];
      waiting := waiting - {t};
      owner := owner[l := t];
      held := held[t := (if t in held then held[t] else {}) + {levels[l]}];
    }

    /** A non-blocking or timed acquire that did not get the lock. */
    method Fail(t: Thread)
      modifies this`waiting
      ensures Abs() == Step(lv, old(Abs()), GiveUp(t))
    {
      waiting := waiting - {t};
    }

    method Release(t: Thread, l: Lock)
      requires Valid() && l in owner && owner[l] == t && t !in waiting && l in levels
      modifies this`owner, this`held
      ensures Abs() == Step(lv, old(Abs()), Event.Release(t, l))
    {
      owner := owner - {l};
      held := held[t := (if t in held then held[t] else {}) - {levels[l]}];
    }
  }

  // ---------------------------------------------------------------- the order validator

  const SEALED_LOCK_NAME := "sealed_lock"

  function LevelOfName(name: string): int {
    if name == "buffer_lock" then 1
    else if name == "fill_lock" then 2
    else if name == "sqlite_lock" then 3
    else if name == "pacer_lock" then 4
    else if name == "flush_lock" then 5
    else if name == "telemetry_lock" then 6
    else 0
  }

  predicate InHierarchy(name: string) { LevelOfName(name) > 0 }

  predicate KnownName(name: string) { name == SEALED_LOCK_NAME || InHierarchy(name) }

  /** Every acquired lock is known, and unless it is the sealed lock lies strictly below the next. */
  predicate AllBelow(acquired: seq<string>, next: string) {
    forall i :: 0 <= i < |acquired| ==>
      KnownName(acquired[i]) && (acquired[i] != SEALED_LOCK_NAME ==> LevelOfName(acquired[i]) < LevelOfName(next))
  }

  datatype OrderVerdict = Accepted | UnknownLock | OrderViolation

  /** Accepts exactly if the next lock is the sealed lock, or every name is known and every
      acquired lock of the hierarchy lies strictly below the next one. */
  method ValidateLockOrder(acquired: seq<string>, next: string) returns (verdict: OrderVerdict)
    ensures verdict == UnknownLock <==>
              && next != SEALED_LOCK_NAME
              && (!InHierarchy(next) || exists i :: 0 <= i < |acquired| && !KnownName(acquired[i]))
    ensures verdict == Accepted <==>
              || next == SEALED_LOCK_NAME
              || (InHierarchy(next) && AllBelow(acquired, next))
  {
    if next == SEALED_LOCK_NAME { return Accepted; }
    if !InHierarchy(next) { return UnknownLock; }
    var nextLevel := LevelOfName(next);
    var maxLevel := 0;
    for i := 0 to |acquired|
      invariant maxLevel >= 0
      invariant forall j :: 0 <= j < i ==> KnownName(acquired[j])
      invariant forall j :: 0 <= j < i && acquired[j] != SEALED_LOCK_NAME ==> LevelOfName(acquired[j]) <= maxLevel
      invariant maxLevel > 0 ==>
                  exists j :: 0 <= j < i && acquired[j] != SEALED_LOCK_NAME && LevelOfName(acquired[j]) == maxLevel
    {
      var name := acquired[i];
      if name == SEALED_LOCK_NAME { continue; }
      if !InHierarchy(name) { return UnknownLock; }
      if LevelOfName(name) > maxLevel { maxLevel := LevelOfName(name); }
    }
    if maxLevel > 0 && nextLevel <= maxLevel { return OrderViolation; }
    return Accepted;
  }

  function AcquiredLevels(acquired: seq<string>): set<int> {
    set i | 0 <= i < |acquired| && acquired[i] != SEALED_LOCK_NAME :: LevelOfName(acquired[i])
  }

  /** On known names and a next lock of the hierarchy, the validator accepts exactly the requests
      that the acquire check lets through with the levels of the acquired locks held. */
  lemma ValidatorAgreesWithAcquire(acquired: seq<string>, next: string)
    requires InHierarchy(next) && forall i :: 0 <= i < |acquired| ==> KnownName(acquired[i])
    ensures AllBelow(acquired, next) <==> !Rejects(AcquiredLevels(acquired), LevelOfName(next))
  {
    forall i | 0 <= i < |acquired| && acquired[i] != SEALED_LOCK_NAME
      ensures LevelOfName(acquired[i]) in AcquiredLevels(acquired)
    { }
  }
}
