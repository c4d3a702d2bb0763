/** What a batch does to the book when it outgrows a side. A new level for a full side is dropped if it
  is worse than every level held, takes the place of the worst if it is better than that one only, and
  raises anywhere else, because the shifted slice no longer fits its place.
 */
module BookOverrun {
  import opened Basics
  import opened BookSpec

  /** The levels better than a price. */
  function Better(m: LevelMap, side: Side, p: real): LevelMap {
    map x | x in m && Key(side, x) < Key(side, p) :: m[x]
  }

  /** A side after one diff; None if it raises. */
  function PutBounded(m: LevelMap, d: Diff, side: Side): Option<LevelMap> {
    if |PutIf(m, d, side)| <= MAX_BUFFER then Some(PutIf(m, d, side))
    else
      var better := Better(m, side, d.price);
      if |better| == MAX_BUFFER then Some(m)
      else if |better| == MAX_BUFFER - 1 then Some(better[d.price := d.qty])
      else None
  }

  datatype BatchEnd = BatchEnd(bids: LevelMap, asks: LevelMap, raised: bool)

  function ApplyNext(bids: LevelMap, asks: LevelMap, d: Diff): BatchEnd {
    var b, a := PutBounded(bids, d, Bid), PutBounded(asks, d, Ask);
    if b.None? || a.None? then BatchEnd(bids, asks, true) else BatchEnd(b.value, a.value, false)
  }

  /** Both sides after a batch, or after the diffs before the first that raises. */
  function ApplyEach(bids: LevelMap, asks: LevelMap, diffs: seq<Diff>): BatchEnd
    decreases |diffs|
  {
    if |diffs| == 0 then BatchEnd(bids, asks, false)
    else
      var end := ApplyNext(bids, asks, diffs[0]);
      if end.raised then end else ApplyEach(end.bids, end.asks, diffs[1..])
  }

  // ---------------------------------------------------------------- whole batches

  /** The n best levels. */
  function Best(m: LevelMap, side: Side, n: nat): LevelMap {
    map x | x in m && |Better(m, side, x)| < n :: m[x]
  }

  /** What the trim before a batch leaves of a side. */
  function Kept(m: LevelMap, diffs: seq<Diff>, side: Side): LevelMap {
    Best(m, side, CutTo(|m|, CountNew(m, diffs, side)))
  }

  /** The trim of some side never ends. */
  predicate Overloads(bids: LevelMap, asks: LevelMap, diffs: seq<Diff>) {
    CountNew(bids, diffs, Bid) >= MAX_BUFFER || CountNew(asks, diffs, Ask) >= MAX_BUFFER
  }

  /** A batch that does not overload: the trims, then the diffs. */
  function Batch(bids: LevelMap, asks: LevelMap, diffs: seq<Diff>): BatchEnd {
    ApplyEach(Kept(bids, diffs, Bid), Kept(asks, diffs, Ask), diffs)
  }

  /** A diff concerns its own side. */
  lemma OneSideTaken(bids: LevelMap, asks: LevelMap, d: Diff)
    requires |bids| <= MAX_BUFFER && |asks| <= MAX_BUFFER
    ensures d.side == Bid ==>
              ApplyNext(bids, asks, d) == match PutBounded(bids, d, Bid)
                case None => BatchEnd(bids, asks, true)
                case Some(b) => BatchEnd(b, asks, false)
    ensures d.side == Ask ==>
              ApplyNext(bids, asks, d) == match PutBounded(asks, d, Ask)
                case None => BatchEnd(bids, asks, true)
                case Some(a) => BatchEnd(bids, a, false)
  {
  }

  // ---------------------------------------------------------------- batches that fit

  lemma {:induction false} FoldFront(m: LevelMap, diffs: seq<Diff>, side: Side)
    requires |diffs| > 0
    ensures Fold(m, diffs, side) == Fold(PutIf(m, diffs[0], side), diffs[1..], side)
  {
    var n := |diffs| - 1;
    if n > 0 {
      FoldFront(m, diffs[..n], side);
      assert diffs[..n][1..] == diffs[1..][..n - 1];
    } else {
      assert Fold(m, diffs[..0], side) == m;
    }
  }

  lemma FitsFront(m: LevelMap, diffs: seq<Diff>, side: Side)
    requires |diffs| > 0 && Fits(m, diffs, side)
    ensures |PutIf(m, diffs[0], side)| <= MAX_BUFFER && Fits(PutIf(m, diffs[0], side), diffs[1..], side)
  {
    var m', rest := PutIf(m, diffs[0], side), diffs[1..];
    forall k | 0 <= k <= |rest| ensures |Fold(m', rest[..k], side)| <= MAX_BUFFER {
      FoldFront(m, diffs[..k + 1], side);
      assert diffs[..k + 1][1..] == rest[..k];
    }
    assert Fold(m', rest[..0], side) == m';
  }

  lemma FittingNext(bids: LevelMap, asks: LevelMap, d: Diff) returns (end: BatchEnd)
    requires |PutIf(bids, d, Bid)| <= MAX_BUFFER && |PutIf(asks, d, Ask)| <= MAX_BUFFER
    ensures end == ApplyNext(bids, asks, d) == BatchEnd(PutIf(bids, d, Bid), PutIf(asks, d, Ask), false)
  {
    end := ApplyNext(bids, asks, d);
  }

  /** A batch that fits both sides never raises and makes each the fold of its diffs. */
  lemma {:induction false} FittingBatchIsFolded(bids: LevelMap, asks: LevelMap, diffs: seq<Diff>)
    requires Fits(bids, diffs, Bid) && Fits(asks, diffs, Ask)
    ensures ApplyEach(bids, asks, diffs) == BatchEnd(Fold(bids, diffs, Bid), Fold(asks, diffs, Ask), false)
    decreases |diffs|
  {
    if |diffs| > 0 {
      FitsFront(bids, diffs, Bid);
      FitsFront(asks, diffs, Ask);
      FoldFront(bids, diffs, Bid);
      FoldFront(asks, diffs, Ask);
      var end := FittingNext(bids, asks, diffs[0]);
      FittingBatchIsFolded(end.bids, end.asks, diffs[1..]);
    }
  }

  // ---------------------------------------------------------------- full sides

  lemma {:induction false} BetterIsPrefix(side: Side, ps: seq<real>, qs: seq<real>, idx: nat, p: real)
    requires |ps| == |qs| && Sorted(side, ps) && idx <= |ps|
    requires forall i :: 0 <= i < idx ==> Key(side, ps[i]) < Key(side, p)
    requires forall i :: idx <= i < |ps| ==> Key(side, p) <= Key(side, ps[i])
    ensures Better(Levels(ps, qs), side, p) == Levels(ps[..idx], qs[..idx])
    decreases |ps|
  {
    if idx == |ps| {
      AllBetter(side, ps, qs, p);
      assert ps[..idx] == ps && qs[..idx] == qs;
    } else {
      var n := |ps| - 1;
      LastIsNew(side, ps);
      BetterIsPrefix(side, ps[..n], qs[..n], idx, p);
      assert ps[..n][..idx] == ps[..idx] && qs[..n][..idx] == qs[..idx];
      NotBetter(Levels(ps[..n], qs[..n]), side, p, ps[n], qs[n]);
    }
  }

  lemma NotBetter(m: LevelMap, side: Side, p: real, x: real, q: real)
    requires Key(side, p) <= Key(side, x)
    ensures Better(m[x := q], side, p) == Better(m, side, p)
  {
  }

  lemma AllBetter(side: Side, ps: seq<real>, qs: seq<real>, p: real)
    requires |ps| == |qs| && forall i :: 0 <= i < |ps| ==> Key(side, ps[i]) < Key(side, p)
    ensures Better(Levels(ps, qs), side, p) == Levels(ps, qs)
  {
    LevelKeys(ps, qs);
    forall x | x in Levels(ps, qs) ensures Key(side, x) < Key(side, p) {
      var i :| 0 <= i < |ps| && ps[i] == x;
    }
  }

  /** On a full side whose search stops at slot idx: how many levels are better, and what a level written
      into the last slot makes of the side. */
  lemma FullSide(side: Side, ps: seq<real>, qs: seq<real>, idx: nat, p: real, q: real)
    requires |ps| == |qs| == MAX_BUFFER && Sorted(side, ps) && idx <= |ps|
    requires forall i :: 0 <= i < idx ==> Key(side, ps[i]) < Key(side, p)
    requires forall i :: idx <= i < |ps| ==> Key(side, p) <= Key(side, ps[i])
    ensures |Better(Levels(ps, qs), side, p)| == idx
    ensures idx == MAX_BUFFER - 1 ==>
              Levels(ps[idx := p], qs[idx := q]) == Better(Levels(ps, qs), side, p)[p := q]
  {
    BetterIsPrefix(side, ps, qs, idx, p);
    LevelCount(side, ps[..idx], qs[..idx]);
    if idx == MAX_BUFFER - 1 {
      assert ps[idx := p][..idx] == ps[..idx] && qs[idx := q][..idx] == qs[..idx];
    }
  }

  /** The prefix of a sorted side is its best levels. */
  lemma PrefixIsBest(side: Side, ps: seq<real>, qs: seq<real>, cut: nat)
    requires |ps| == |qs| && Sorted(side, ps) && cut <= |ps|
    ensures Levels(ps[..cut], qs[..cut]) == Best(Levels(ps, qs), side, cut)
  {
    var best, prefix := Best(Levels(ps, qs), side, cut), Levels(ps[..cut], qs[..cut]);
    forall x | x in best ensures x in prefix && prefix[x] == best[x] {
      LevelKeys(ps, qs);
      var k :| 0 <= k < |ps| && ps[k] == x;
      SlotInBest(side, ps, qs, cut, k);
    }
    forall x | x in prefix ensures x in best {
      LevelKeys(ps[..cut], qs[..cut]);
      var k :| 0 <= k < cut && ps[..cut][k] == x;
      SlotInBest(side, ps, qs, cut, k);
    }
  }

  lemma SlotInBest(side: Side, ps: seq<real>, qs: seq<real>, cut: nat, k: nat)
    requires |ps| == |qs| && Sorted(side, ps) && cut <= |ps| && k < |ps|
    ensures var best, prefix := Best(Levels(ps, qs), side, cut), Levels(ps[..cut], qs[..cut]);
            && (ps[k] in best <==> k < cut)
            && (k < cut ==> ps[k] in prefix && prefix[ps[k]] == best[ps[k]])
  {
    BetterThanSlot(side, ps, qs, k);
    LevelAt(side, ps, qs, k);
    if k < cut { LevelAt(side, ps[..cut], qs[..cut], k); }
  }

  lemma BetterThanSlot(side: Side, ps: seq<real>, qs: seq<real>, k: nat)
    requires |ps| == |qs| && Sorted(side, ps) && k < |ps|
    ensures |Better(Levels(ps, qs), side, ps[k])| == k
  {
    BetterIsPrefix(side, ps, qs, k, ps[k]);
    LevelCount(side, ps[..k], qs[..k]);
  }

  /** What the trim before a batch cuts is worse than all it keeps: lower bids, higher asks. */
  lemma TrimCutsTheWorst(m: LevelMap, diffs: seq<Diff>, side: Side, x: real, y: real)
    requires x in Kept(m, diffs, side) && y in m && y !in Kept(m, diffs, side)
    ensures if side.Bid? then y < x else x < y
    ensures Kept(m, diffs, side)[x] == m[x]
  {
    var better, worse := Better(m, side, x).Keys, Better(m, side, y).Keys;
    if Key(side, y) <= Key(side, x) { SubsetSize(worse, better); }
  }

  lemma SameSizeSubset<T>(a: set<T>, b: set<T>)
    requires a <= b && |a| == |b|
    ensures a == b
  {
    SubsetSize(b - a, b);
    assert b == a + (b - a);
  }

  /** A full side that takes a new level without raising keeps the best MAX_BUFFER of the old levels and
      the new one. */
  lemma OverrunKeepsTheBest(m: LevelMap, d: Diff, side: Side)
    requires |m| == MAX_BUFFER < |PutIf(m, d, side)| && PutBounded(m, d, side).Some?
    ensures var kept, all := PutBounded(m, d, side).value, PutIf(m, d, side);
            && |kept| == MAX_BUFFER
            && (forall x :: x in kept ==> x in all && kept[x] == all[x])
            && forall x, y :: x in kept && y in all && y !in kept ==> Key(side, x) < Key(side, y)
  {
    var better := Better(m, side, d.price);
    NewLevel(m, d, side);
    if |better| == MAX_BUFFER {
      SameSizeSubset(better.Keys, m.Keys);
    } else {
      OneWorse(m, side, d.price);
    }
  }

  lemma NewLevel(m: LevelMap, d: Diff, side: Side)
    requires |PutIf(m, d, side)| > |m|
    ensures d.side == side && d.qty != 0.0 && d.price !in m
  {
    if d.side == side && d.qty == 0.0 { SubsetSize(PutIf(m, d, side).Keys, m.Keys); }
    assert d.side == side && d.qty != 0.0 && d.price in m ==> PutIf(m, d, side).Keys == m.Keys;
  }

  lemma OneWorse(m: LevelMap, side: Side, p: real)
    requires p !in m && |Better(m, side, p)| == |m| - 1
    ensures forall x, y :: x in m && y in m && x !in Better(m, side, p) && y !in Better(m, side, p) ==> x == y
    ensures forall x :: x in m && x !in Better(m, side, p) ==> Key(side, p) < Key(side, x)
  {
    var better := Better(m, side, p).Keys;
    forall x, y | x in m && y in m && x !in better && y !in better ensures x == y {
      if x != y {
        SubsetSize(better + {x, y}, m.Keys);
      }
    }
  }

  // ---------------------------------------------------------------- a batch that raises

  lemma {:induction false} ApplyInParts(bids: LevelMap, asks: LevelMap, a: seq<Diff>, b: seq<Diff>)
    ensures var first := ApplyEach(bids, asks, a);
            ApplyEach(bids, asks, a + b) == if first.raised then first else ApplyEach(first.bids, first.asks, b)
    decreases |a|
  {
    if |a| == 0 {
      assert a + b == b;
    } else {
      assert (a + b)[1..] == a[1..] + b;
      var end := ApplyNext(bids, asks, a[0]);
      if !end.raised { ApplyInParts(end.bids, end.asks, a[1..], b); }
    }
  }

  /** A new level for a full side raises exactly if two of the levels held are worse: if none is, it is
      dropped, and if one is, it takes its place. */
  lemma RaisesExactlyBeforeTwo(m: LevelMap, side: Side, d: Diff)
    requires |m| == MAX_BUFFER && d.side == side && d.qty != 0.0 && d.price !in m
    ensures PutBounded(m, d, side).None? <==>
              exists x, y :: x in m && y in m && x != y && IsWorse(side, x, d.price) && IsWorse(side, y, d.price)
    ensures (forall x :: x in m ==> !IsWorse(side, x, d.price)) ==> PutBounded(m, d, side) == Some(m)
  {
    assert PutIf(m, d, side).Keys == m.Keys + {d.price};
    if x, y :| x in m && y in m && x != y && IsWorse(side, x, d.price) && IsWorse(side, y, d.price) {
      TwoBehindRaise(m, side, d, x, y);
    } else {
      AtMostOneWorse(m, side, d.price);
    }
  }

  lemma AtMostOneWorse(m: LevelMap, side: Side, p: real)
    requires p !in m
    requires forall x, y :: x in m && y in m && IsWorse(side, x, p) && IsWorse(side, y, p) ==> x == y
    ensures |m| - 1 <= |Better(m, side, p)| <= |m|
    ensures (forall x :: x in m ==> !IsWorse(side, x, p)) ==> |Better(m, side, p)| == |m|
  {
    var better := Better(m, side, p).Keys;
    forall x | x in m ensures x in better <==> !IsWorse(side, x, p) { BetterUnlessWorse(m, side, p, x); }
    if x :| x in m && IsWorse(side, x, p) {
      OneMissing(better, m.Keys, x);
    } else {
      assert better == m.Keys;
    }
    assert |better| == |Better(m, side, p)| && |m.Keys| == |m|;
  }

  lemma BetterUnlessWorse(m: LevelMap, side: Side, p: real, x: real)
    requires p !in m && x in m
    ensures x in Better(m, side, p).Keys <==> !IsWorse(side, x, p)
  {
  }

  lemma OneMissing<T>(a: set<T>, b: set<T>, x: T)
    requires x in b && x !in a && a <= b && forall y :: y in b && y != x ==> y in a
    ensures |a| == |b| - 1
  {
    assert b == a + {x};
  }

  predicate IsWorse(side: Side, x: real, p: real) {
    if side.Bid? then x < p else x > p
  }

  /** Into a full side, a new price with two levels behind it raises. */
  lemma TwoBehindRaise(m: LevelMap, side: Side, d: Diff, x: real, y: real)
    requires |m| == MAX_BUFFER && d.side == side && d.qty != 0.0 && d.price !in m
    requires x in m && y in m && x != y && Key(side, d.price) <= Key(side, x) && Key(side, d.price) <= Key(side, y)
    ensures PutBounded(m, d, side).None?
  {
    var better := Better(m, side, d.price).Keys;
    SubsetSize(better + {x, y}, m.Keys);
    assert PutIf(m, d, side).Keys == m.Keys + {d.price};
  }

  /** Diffs of the other side leave a side alone. */
  lemma {:induction false} LadderPassesBy(m: LevelMap, from: nat, n: nat)
    ensures Fold(m, LadderDiffs(from, n), Bid) == m && CountNew(m, LadderDiffs(from, n), Bid) == 0
  {
    if n > 0 {
      assert LadderDiffs(from, n)[..n - 1] == LadderDiffs(from, n - 1);
      LadderPassesBy(m, from, n - 1);
    }
  }

  lemma {:induction false} LadderAdds(m: LevelMap, from: nat, n: nat)
    ensures forall p :: p in Fold(m, LadderDiffs(from, n), Ask) ==> p in m || p >= Rung(from)
  {
    if n > 0 {
      assert LadderDiffs(from, n)[..n - 1] == LadderDiffs(from, n - 1);
      LadderAdds(m, from, n - 1);
      assert LadderDiffs(from, n)[n - 1] == Diff(Ask, Rung(from + (n - 1)), 1.0);
      assert Rung(from + (n - 1)) >= Rung(from);
    }
  }

  lemma LadderFits(m: LevelMap, held: nat, n: nat)
    requires |m| == held && HoldsLadder(m, held) && held + n <= MAX_BUFFER
    ensures Fits(m, LadderDiffs(held, n), Ask)
  {
    var diffs := LadderDiffs(held, n);
    forall k | 0 <= k <= |diffs| ensures |Fold(m, diffs[..k], Ask)| <= MAX_BUFFER {
      assert diffs[..k] == LadderDiffs(held, k);
      LadderFold(m, held, k);
    }
  }

  const LOW := MAX_BUFFER - TRIM_BLOCK
  const LATE := Diff(Ask, 0.5, 1.0)

  ghost function LadderSide(n: nat): LevelMap {
    Levels(Ladder(0, n), Ladder(0, n))
  }

  /** Updates of the thousand levels that the trim of a full ladder cuts, and then one new price near the
      best. */
  function LateDiffs(): seq<Diff> {
    LadderDiffs(LOW, TRIM_BLOCK) + [LATE]
  }

  lemma LadderSideHolds(n: nat)
    ensures |LadderSide(n)| == n && HoldsLadder(LadderSide(n), n) && 0.5 !in LadderSide(n)
  {
    LadderLevels(n);
    LevelCount(Ask, Ladder(0, n), Ladder(0, n));
    LevelKeys(Ladder(0, n), Ladder(0, n));
  }

  lemma LateCounts()
    ensures CountNew(LadderSide(MAX_BUFFER), LateDiffs(), Ask) == 1 && CountNew(map[], LateDiffs(), Bid) == 0
  {
    LadderSideHolds(MAX_BUFFER);
    LadderCount(LadderSide(MAX_BUFFER), MAX_BUFFER, LOW, TRIM_BLOCK);
    LadderPassesBy(map[], LOW, TRIM_BLOCK);
    assert LateDiffs()[..TRIM_BLOCK] == LadderDiffs(LOW, TRIM_BLOCK);
  }

  lemma LateKeeps()
    ensures Kept(LadderSide(MAX_BUFFER), LateDiffs(), Ask) == LadderSide(LOW)
    ensures Kept(map[], LateDiffs(), Bid) == map[]
  {
    LateCounts();
    LadderSideHolds(MAX_BUFFER);
    LadderLevels(MAX_BUFFER);
    assert CutTo(MAX_BUFFER, 1) == LOW;
    var ladder := Ladder(0, MAX_BUFFER);
    PrefixIsBest(Ask, ladder, ladder, LOW);
    assert ladder[..LOW] == Ladder(0, LOW);
  }

  lemma LateRefills() returns (full: LevelMap)
    ensures ApplyEach(map[], LadderSide(LOW), LadderDiffs(LOW, TRIM_BLOCK)) == BatchEnd(map[], full, false)
    ensures |full| == MAX_BUFFER && HoldsLadder(full, MAX_BUFFER) && 0.5 !in full
  {
    var kept, diffs := LadderSide(LOW), LadderDiffs(LOW, TRIM_BLOCK);
    LadderSideHolds(LOW);
    LadderFits(kept, LOW, TRIM_BLOCK);
    forall k | 0 <= k <= TRIM_BLOCK ensures |Fold(map[], diffs[..k], Bid)| <= MAX_BUFFER {
      assert diffs[..k] == LadderDiffs(LOW, k);
      LadderPassesBy(map[], LOW, k);
    }
    FittingBatchIsFolded(map[], kept, diffs);
    LadderPassesBy(map[], LOW, TRIM_BLOCK);
    LadderFold(kept, LOW, TRIM_BLOCK);
    LadderAdds(kept, LOW, TRIM_BLOCK);
    full := Fold(kept, diffs, Ask);
  }

  /** A batch that counts one new level, and raises: the side is trimmed for one, refilled by updates of
      the levels cut, and full when the new price comes. */
  lemma CutTailCanRaise()
    ensures !Overloads(map[], LadderSide(MAX_BUFFER), LateDiffs())
    ensures CountNew(LadderSide(MAX_BUFFER), LateDiffs(), Ask) == 1
    ensures var end := Batch(map[], LadderSide(MAX_BUFFER), LateDiffs());
            end.raised && end.bids == map[] && |end.asks| == MAX_BUFFER
  {
    LateCounts();
    LateKeeps();
    var full := LateRefills();
    ApplyInParts(map[], LadderSide(LOW), LadderDiffs(LOW, TRIM_BLOCK), [LATE]);
    var x, y := MAX_BUFFER - 1, MAX_BUFFER - 2;
    assert Rung(x) in full && Rung(y) in full;
    TwoBehindRaise(full, Ask, LATE, Rung(x), Rung(y));
    OneSideTaken(map[], full, LATE);
    assert ApplyEach(map[], full, [LATE]) == BatchEnd(map[], full, true);
  }
}
