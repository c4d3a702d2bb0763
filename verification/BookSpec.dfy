/** The value one side of an order book stands for, and what a batch of diffs means to it.

  A side is a price -> quantity map. The code keeps it as a sorted prefix of a fixed 5000-slot
  buffer; the functions here say what that prefix means, how a batch folds over it, how far the
  trim cuts it back, and when the folded book still fits the buffer.
 */
module BookSpec {

  const MAX_BUFFER: nat := 5000
  const TRIM_BLOCK: nat := 1000

  datatype Side = Bid | Ask
  datatype Diff = Diff(side: Side, price: real, qty: real)
  type LevelMap = map<real, real>

  /** The key a side is sorted by: asks run up in price, bids run down. */
  function Key(side: Side, price: real): real {
    if side.Bid? then -price else price
  }

  ghost predicate Sorted(side: Side, ps: seq<real>) {
    forall i, j :: 0 <= i < j < |ps| ==> Key(side, ps[i]) < Key(side, ps[j])
  }

  /** The price -> quantity map that parallel price and quantity sequences stand for. */
  ghost function Levels(ps: seq<real>, qs: seq<real>): LevelMap
    requires |ps| == |qs|
  {
    if |ps| == 0 then map[]
    else
      var n := |ps| - 1;
      Levels(ps[..n], qs[..n])[ps[n] := qs[n]]
  }

  /** One diff: quantity zero deletes the level, anything else sets it. */
  function Put(m: LevelMap, price: real, qty: real): LevelMap {
    if qty == 0.0 then m - {price} else m[price := qty]
  }

  function PutIf(m: LevelMap, d: Diff, side: Side): LevelMap {
    if d.side == side then Put(m, d.price, d.qty) else m
  }

  /** A side after the diffs of a batch, in order; diffs of the other side pass it by. */
  function Fold(m: LevelMap, diffs: seq<Diff>, side: Side): LevelMap {
    if |diffs| == 0 then m
    else
      PutIf(Fold(m, diffs[..|diffs| - 1], side), diffs[|diffs| - 1], side)
  }

  /** What the first pass counts: nonzero diffs at prices the side does not hold, repeats included. */
  function CountNew(m: LevelMap, diffs: seq<Diff>, side: Side): nat {
    if |diffs| == 0 then 0
    else
      var d := diffs[|diffs| - 1];
      CountNew(m, diffs[..|diffs| - 1], side) +
      if d.side == side && d.qty != 0.0 && d.price !in m then 1 else 0
  }

  function Min(a: nat, b: nat): nat { if a < b then a else b }

  /** How many levels survive the trim of a side of length len before newCount insertions. */
  function CutTo(len: nat, newCount: nat): (cut: nat)
    ensures cut <= len
  {
    if len + newCount < MAX_BUFFER || len == 0 then len else CutTo(len - Min(TRIM_BLOCK, len), newCount)
  }

  /** A side of length len with k blocks dropped from its end. */
  function DropBlocks(len: nat, k: nat): nat {
    if TRIM_BLOCK * k <= len then len - TRIM_BLOCK * k else 0
  }

  /** At no point of the batch does the folded side outgrow the buffer. */
  ghost predicate Fits(m: LevelMap, diffs: seq<Diff>, side: Side) {
    FitsUpTo(m, diffs, |diffs|, side)
  }

  ghost predicate FitsUpTo(m: LevelMap, diffs: seq<Diff>, n: nat, side: Side)
    requires n <= |diffs|
  {
    forall k :: 0 <= k <= n ==> |Fold(m, diffs[..k], side)| <= MAX_BUFFER
  }

  // ---------------------------------------------------------------- what a batch means to a price

  predicate Names(d: Diff, side: Side, p: real) { d.side == side && d.price == p }

  /** Diff k is the last of its side at its price. */
  ghost predicate IsLast(diffs: seq<Diff>, side: Side, k: nat) {
    && k < |diffs| && diffs[k].side == side
    && forall j :: k < j < |diffs| ==> !Names(diffs[j], side, diffs[k].price)
  }

  /** At a price no diff names, a side holds what it held; at any other it holds the quantity of the last
      diff that names it, or nothing if that is zero. */
  ghost predicate LastDiffWins(before: LevelMap, diffs: seq<Diff>, side: Side, after: LevelMap) {
    && (forall k: nat :: IsLast(diffs, side, k) ==> Quotes(after, diffs[k].price, diffs[k].qty))
    && (forall p :: (forall k :: 0 <= k < |diffs| ==> !Names(diffs[k], side, p)) ==> SameAt(before, after, p))
  }

  predicate Quotes(m: LevelMap, p: real, q: real) {
    if q == 0.0 then p !in m else p in m && m[p] == q
  }

  predicate SameAt(m: LevelMap, m': LevelMap, p: real) {
    (p in m <==> p in m') && (p in m ==> m'[p] == m[p])
  }

  /** The side quotes this quantity at this price, and is otherwise as before. */
  ghost predicate OnlyQuotes(before: LevelMap, after: LevelMap, p: real, q: real) {
    Quotes(after, p, q) && forall x :: x != p ==> SameAt(before, after, x)
  }

  lemma OneDiffQuotes(m: LevelMap, p: real, q: real)
    ensures OnlyQuotes(m, Put(m, p, q), p, q)
  {
  }

  lemma {:induction false} FoldTakesLastDiffs(m: LevelMap, diffs: seq<Diff>, side: Side)
    ensures LastDiffWins(m, diffs, side, Fold(m, diffs, side))
  {
    if |diffs| > 0 {
      var n := |diffs| - 1;
      FoldTakesLastDiffs(m, diffs[..n], side);
      LastDiffStep(m, diffs, side, Fold(m, diffs[..n], side));
    }
  }

  lemma LastDiffStep(m: LevelMap, diffs: seq<Diff>, side: Side, mid: LevelMap)
    requires |diffs| > 0 && LastDiffWins(m, diffs[..|diffs| - 1], side, mid)
    ensures LastDiffWins(m, diffs, side, PutIf(mid, diffs[|diffs| - 1], side))
  {
    var n, after := |diffs| - 1, PutIf(mid, diffs[|diffs| - 1], side);
    forall k: nat | IsLast(diffs, side, k) ensures Quotes(after, diffs[k].price, diffs[k].qty) {
      if k < n {
        assert !Names(diffs[n], side, diffs[k].price);
        assert IsLast(diffs[..n], side, k);
      }
    }
    forall p | forall k :: 0 <= k < |diffs| ==> !Names(diffs[k], side, p) ensures SameAt(m, after, p) {
      assert forall k :: 0 <= k < n ==> !Names(diffs[..n][k], side, p);
      assert !Names(diffs[n], side, p) && SameAt(m, mid, p);
    }
  }

  // ---------------------------------------------------------------- sequences and maps

  lemma {:induction false} LevelKeys(ps: seq<real>, qs: seq<real>)
    requires |ps| == |qs|
    ensures forall p :: p in Levels(ps, qs) <==> p in ps
  {
    if |ps| > 0 {
      var n := |ps| - 1;
      LevelKeys(ps[..n], qs[..n]);
      assert ps == ps[..n] + [ps[n]];
    }
  }

  lemma LastIsNew(side: Side, ps: seq<real>)
    requires Sorted(side, ps) && |ps| > 0
    ensures Sorted(side, ps[..|ps| - 1]) && ps[|ps| - 1] !in ps[..|ps| - 1]
  {
    forall i | 0 <= i < |ps| - 1 ensures ps[i] != ps[|ps| - 1] {
      assert Key(side, ps[i]) < Key(side, ps[|ps| - 1]);
    }
  }

  /** A side of n slots holds exactly n price levels. */
  lemma {:induction false} LevelCount(side: Side, ps: seq<real>, qs: seq<real>)
    requires |ps| == |qs| && Sorted(side, ps)
    ensures |Levels(ps, qs)| == |ps|
  {
    if |ps| > 0 {
      var n := |ps| - 1;
      LastIsNew(side, ps);
      LevelCount(side, ps[..n], qs[..n]);
      LevelKeys(ps[..n], qs[..n]);
    }
  }

  lemma {:induction false} LevelAt(side: Side, ps: seq<real>, qs: seq<real>, i: nat)
    requires |ps| == |qs| && Sorted(side, ps) && i < |ps|
    ensures ps[i] in Levels(ps, qs) && Levels(ps, qs)[ps[i]] == qs[i]
  {
    var n := |ps| - 1;
    if i < n {
      LastIsNew(side, ps);
      LevelAt(side, ps[..n], qs[..n], i);
      assert ps[..n][i] == ps[i];
    }
  }

  lemma InsertKeepsSorted(side: Side, ps: seq<real>, idx: nat, p: real)
    requires Sorted(side, ps) && idx <= |ps|
    requires forall i :: 0 <= i < idx ==> Key(side, ps[i]) < Key(side, p)
    requires forall i :: idx <= i < |ps| ==> Key(side, p) < Key(side, ps[i])
    ensures Sorted(side, ps[..idx] + [p] + ps[idx..])
  {
  }

  lemma InsertShape<T>(s: seq<T>, idx: nat, x: T)
    requires idx <= |s|
    ensures var t := s[..idx] + [x] + s[idx..];
            && t[|s|] == (if idx == |s| then x else s[|s| - 1])
            && t[..|s|] == if idx == |s| then s else s[..|s| - 1][..idx] + [x] + s[..|s| - 1][idx..]
  {
  }

  lemma DeleteShape<T>(s: seq<T>, idx: nat)
    requires idx < |s| - 1
    ensures var t := s[..idx] + s[idx + 1..];
            && t[|s| - 2] == s[|s| - 1]
            && t[..|s| - 2] == s[..|s| - 1][..idx] + s[..|s| - 1][idx + 1..]
  {
  }

  lemma {:induction false} InsertLevel(ps: seq<real>, qs: seq<real>, idx: nat, p: real, q: real)
    requires |ps| == |qs| && idx <= |ps| && p !in ps
    ensures Levels(ps[..idx] + [p] + ps[idx..], qs[..idx] + [q] + qs[idx..]) == Levels(ps, qs)[p := q]
  {
    InsertShape(ps, idx, p);
    InsertShape(qs, idx, q);
    if idx < |ps| {
      var n := |ps| - 1;
      InsertLevel(ps[..n], qs[..n], idx, p, q);
      TwoPuts(Levels(ps[..n], qs[..n]), p, q, ps[n], qs[n]);
    }
  }

  lemma TwoPuts(m: LevelMap, p: real, q: real, p': real, q': real)
    requires p != p'
    ensures m[p := q][p' := q'] == m[p' := q'][p := q]
  {
  }

  lemma DeleteKeepsSorted(side: Side, ps: seq<real>, idx: nat)
    requires Sorted(side, ps) && idx < |ps|
    ensures Sorted(side, ps[..idx] + ps[idx + 1..])
  {
  }

  lemma {:induction false} DeleteLevel(side: Side, ps: seq<real>, qs: seq<real>, idx: nat)
    requires |ps| == |qs| && Sorted(side, ps) && idx < |ps|
    ensures Levels(ps[..idx] + ps[idx + 1..], qs[..idx] + qs[idx + 1..]) == Levels(ps, qs) - {ps[idx]}
  {
    var n := |ps| - 1;
    LastIsNew(side, ps);
    if idx < n {
      DeleteLevel(side, ps[..n], qs[..n], idx);
      DeleteShape(ps, idx);
      DeleteShape(qs, idx);
      assert ps[..n][idx] == ps[idx] && ps[idx] != ps[n];
      PutAndRemove(Levels(ps[..n], qs[..n]), ps[idx], ps[n], qs[n]);
    } else {
      DeleteLast(side, ps, qs);
    }
  }

  lemma DeleteLast(side: Side, ps: seq<real>, qs: seq<real>)
    requires |ps| == |qs| > 0 && Sorted(side, ps)
    ensures var n := |ps| - 1;
            Levels(ps[..n] + ps[n + 1..], qs[..n] + qs[n + 1..]) == Levels(ps, qs) - {ps[n]}
  {
    var n := |ps| - 1;
    LastIsNew(side, ps);
    LevelKeys(ps[..n], qs[..n]);
    assert ps[..n] + ps[n + 1..] == ps[..n] && qs[..n] + qs[n + 1..] == qs[..n];
    RemovePut(Levels(ps[..n], qs[..n]), ps[n], qs[n]);
  }

  lemma PutAndRemove(m: LevelMap, p: real, p': real, q': real)
    requires p != p'
    ensures (m - {p})[p' := q'] == m[p' := q'] - {p}
  {
  }

  lemma RemovePut(m: LevelMap, p: real, q: real)
    requires p !in m
    ensures m[p := q] - {p} == m
  {
  }

  lemma {:induction false} UpdateLevel(side: Side, ps: seq<real>, qs: seq<real>, idx: nat, q: real)
    requires |ps| == |qs| && Sorted(side, ps) && idx < |ps|
    ensures Levels(ps, qs[idx := q]) == Levels(ps, qs)[ps[idx] := q]
  {
    var n := |ps| - 1;
    LastIsNew(side, ps);
    assert qs[idx := q][..n] == if idx < n then qs[..n][idx := q] else qs[..n];
    if idx < n {
      UpdateLevel(side, ps[..n], qs[..n], idx, q);
      assert ps[..n][idx] == ps[idx] && ps[idx] != ps[n];
    }
  }

  /** Prefixes of a prefix, as the loops over a batch need them. */
  lemma FoldNext(m: LevelMap, diffs: seq<Diff>, k: nat, side: Side)
    requires k < |diffs|
    ensures Fold(m, diffs[..k + 1], side) ==
            PutIf(Fold(m, diffs[..k], side), diffs[k], side)
    ensures CountNew(m, diffs[..k + 1], side) == CountNew(m, diffs[..k], side) +
            if diffs[k].side == side && diffs[k].qty != 0.0 && diffs[k].price !in m then 1 else 0
  {
    assert diffs[..k + 1][..k] == diffs[..k];
  }

  lemma FitsNext(m: LevelMap, diffs: seq<Diff>, k: nat, side: Side)
    requires k < |diffs|
    ensures FitsUpTo(m, diffs, k + 1, side) <==>
            FitsUpTo(m, diffs, k, side) && |PutIf(Fold(m, diffs[..k], side), diffs[k], side)| <= MAX_BUFFER
  {
    FoldNext(m, diffs, k, side);
  }

  // ---------------------------------------------------------------- the trim

  /** The trim makes room for newCount insertions exactly when newCount alone is below the
      buffer size, and it drops the least number of blocks that does so. */
  lemma {:induction false} TrimIsLeast(len: nat, newCount: nat)
    ensures CutTo(len, newCount) + newCount < MAX_BUFFER || CutTo(len, newCount) == 0
    ensures CutTo(len, newCount) + newCount < MAX_BUFFER <==> newCount < MAX_BUFFER
    ensures exists k: nat :: CutTo(len, newCount) == DropBlocks(len, k)
    ensures forall k: nat :: DropBlocks(len, k) + newCount < MAX_BUFFER ==> DropBlocks(len, k) <= CutTo(len, newCount)
    decreases len
  {
    if len + newCount < MAX_BUFFER || len == 0 {
      assert CutTo(len, newCount) == DropBlocks(len, 0);
    } else {
      var shorter := len - Min(TRIM_BLOCK, len);
      TrimIsLeast(shorter, newCount);
      var k: nat :| CutTo(shorter, newCount) == DropBlocks(shorter, k);
      assert DropBlocks(len, k + 1) == DropBlocks(shorter, k);
      forall j: nat | DropBlocks(len, j) + newCount < MAX_BUFFER
        ensures DropBlocks(len, j) <= CutTo(len, newCount)
      {
        if j > 0 {
          assert DropBlocks(len, j) == DropBlocks(shorter, j - 1);
        }
      }
    }
  }

  // ---------------------------------------------------------------- capacity

  function NewPrices(m: LevelMap, diffs: seq<Diff>, side: Side): set<real> {
    if |diffs| == 0 then {}
    else
      NewPrices(m, diffs[..|diffs| - 1], side) + NewPrice(m, diffs[|diffs| - 1], side)
  }

  lemma {:induction false} FoldIsBounded(m: LevelMap, diffs: seq<Diff>, side: Side)
    ensures Fold(m, diffs, side).Keys <= m.Keys + NewPrices(m, diffs, side)
    ensures |NewPrices(m, diffs, side)| <= CountNew(m, diffs, side)
  {
    NewPricesAreCounted(m, diffs, side);
    if |diffs| > 0 {
      var n := |diffs| - 1;
      FoldIsBounded(m, diffs[..n], side);
      PutIsBounded(m, Fold(m, diffs[..n], side), NewPrices(m, diffs[..n], side), diffs[n], side);
    }
  }

  lemma {:induction false} NewPricesAreCounted(m: LevelMap, diffs: seq<Diff>, side: Side)
    ensures |NewPrices(m, diffs, side)| <= CountNew(m, diffs, side)
  {
    if |diffs| > 0 {
      var n := |diffs| - 1;
      NewPricesAreCounted(m, diffs[..n], side);
      UnionSize(NewPrices(m, diffs[..n], side), NewPrice(m, diffs[n], side));
      OnePrice(m, diffs[n], side);
    }
  }

  lemma OnePrice(m: LevelMap, d: Diff, side: Side)
    ensures |NewPrice(m, d, side)| == if d.side == side && d.qty != 0.0 && d.price !in m then 1 else 0
  {
  }

  function NewPrice(m: LevelMap, d: Diff, side: Side): set<real> {
    if d.side == side && d.qty != 0.0 && d.price !in m then {d.price} else {}
  }

  lemma PutIsBounded(m: LevelMap, folded: LevelMap, news: set<real>, d: Diff, side: Side)
    requires folded.Keys <= m.Keys + news
    ensures PutIf(folded, d, side).Keys <= m.Keys + (news + NewPrice(m, d, side))
  {
  }

  lemma SubsetSize<T>(a: set<T>, b: set<T>)
    requires a <= b
    ensures |a| <= |b|
  {
    assert b == a + (b - a);
  }

  lemma UnionSize<T>(a: set<T>, b: set<T>)
    ensures |a + b| <= |a| + |b|
  {
    assert a + b == a + (b - a);
    SubsetSize(b - a, b);
  }

  /** No nonzero diff names a level that is in the full side but not in the trimmed one. */
  ghost predicate CutTailUntouched(full: LevelMap, trimmed: LevelMap, diffs: seq<Diff>, side: Side) {
    forall i :: 0 <= i < |diffs| && diffs[i].side == side && diffs[i].qty != 0.0 && diffs[i].price in full
      ==> diffs[i].price in trimmed
  }

  lemma {:induction false} CountAfterTrim(full: LevelMap, trimmed: LevelMap, diffs: seq<Diff>, side: Side, k: nat)
    requires k <= |diffs| && trimmed.Keys <= full.Keys && CutTailUntouched(full, trimmed, diffs, side)
    ensures CountNew(trimmed, diffs[..k], side) <= CountNew(full, diffs, side)
    decreases |diffs|
  {
    if |diffs| > 0 {
      var n := |diffs| - 1;
      var rest := diffs[..n];
      assert CutTailUntouched(full, trimmed, rest, side) by {
        forall i | 0 <= i < |rest| && rest[i].side == side && rest[i].qty != 0.0 && rest[i].price in full
          ensures rest[i].price in trimmed
        {
          assert rest[i] == diffs[i];
        }
      }
      if k <= n {
        CountAfterTrim(full, trimmed, rest, side, k);
        assert diffs[..k] == rest[..k];
      } else {
        CountAfterTrim(full, trimmed, rest, side, n);
        assert diffs[..k] == diffs && rest[..n] == rest;
      }
    }
  }

  lemma {:induction false} PrefixKeys(ps: seq<real>, qs: seq<real>, cut: nat)
    requires |ps| == |qs| && cut <= |ps|
    ensures Levels(ps[..cut], qs[..cut]).Keys <= Levels(ps, qs).Keys
  {
    var n := |ps|;
    if cut < n {
      PrefixKeys(ps[..n - 1], qs[..n - 1], cut);
      assert ps[..n - 1][..cut] == ps[..cut] && qs[..n - 1][..cut] == qs[..cut];
    } else {
      assert ps[..cut] == ps && qs[..cut] == qs;
    }
  }

  lemma FoldSize(m: LevelMap, diffs: seq<Diff>, side: Side)
    ensures |Fold(m, diffs, side)| <= |m| + CountNew(m, diffs, side)
  {
    FoldIsBounded(m, diffs, side);
    var after, held, added := Fold(m, diffs, side).Keys, m.Keys, NewPrices(m, diffs, side);
    SubsetSize(after, held + added);
    UnionSize(held, added);
    assert |after| == |Fold(m, diffs, side)| && |held| == |m|;
  }

  /** Capacity: a batch that counts fewer than MAX_BUFFER new levels and leaves the cut tail alone
      stays below the buffer size at every step, whatever it repeats, deletes or puts back. */
  lemma CapacityHolds(side: Side, ps: seq<real>, qs: seq<real>, diffs: seq<Diff>, cut: nat)
    requires |ps| == |qs| && Sorted(side, ps) && cut <= |ps|
    requires CountNew(Levels(ps, qs), diffs, side) < MAX_BUFFER
    requires cut == CutTo(|ps|, CountNew(Levels(ps, qs), diffs, side))
    requires CutTailUntouched(Levels(ps, qs), Levels(ps[..cut], qs[..cut]), diffs, side)
    ensures Fits(Levels(ps[..cut], qs[..cut]), diffs, side)
    ensures forall k :: 0 <= k <= |diffs| ==> |Fold(Levels(ps[..cut], qs[..cut]), diffs[..k], side)| < MAX_BUFFER
  {
    var full := Levels(ps, qs);
    var trimmed := Levels(ps[..cut], qs[..cut]);
    TrimIsLeast(|ps|, CountNew(full, diffs, side));
    LevelCount(side, ps[..cut], qs[..cut]);
    PrefixKeys(ps, qs, cut);
    forall k | 0 <= k <= |diffs| ensures |Fold(trimmed, diffs[..k], side)| < MAX_BUFFER {
      CountAfterTrim(full, trimmed, diffs, side, k);
      FoldSize(trimmed, diffs[..k], side);
    }
  }

  // The ladder: an ask side with the prices 0, 1, 2, ...

  function Rung(i: int): real { i as real }

  function Ladder(from: nat, n: nat): seq<real> {
    seq(n, i requires 0 <= i => Rung(from + i))
  }

  function LadderDiffs(from: nat, n: nat): seq<Diff> {
    seq(n, i requires 0 <= i => Diff(Ask, Rung(from + i), 1.0))
  }

  ghost predicate HoldsLadder(m: LevelMap, held: nat) {
    forall x: nat :: Rung(x) in m <==> x < held
  }

  lemma {:induction false} LadderCount(m: LevelMap, held: nat, from: nat, n: nat)
    requires from <= held && HoldsLadder(m, held)
    ensures CountNew(m, LadderDiffs(from, n), Ask) == if from + n <= held then 0 else from + n - held
    decreases n
  {
    if n > 0 {
      assert LadderDiffs(from, n)[..n - 1] == LadderDiffs(from, n - 1);
      LadderCount(m, held, from, n - 1);
      assert Rung(from + (n - 1)) in m <==> from + (n - 1) < held;
    }
  }

  lemma {:induction false} LadderFold(m: LevelMap, held: nat, n: nat)
    requires |m| == held && HoldsLadder(m, held)
    ensures |Fold(m, LadderDiffs(held, n), Ask)| == held + n
    ensures HoldsLadder(Fold(m, LadderDiffs(held, n), Ask), held + n)
    decreases n
  {
    if n > 0 {
      assert LadderDiffs(held, n)[..n - 1] == LadderDiffs(held, n - 1);
      LadderFold(m, held, n - 1);
      assert Rung(held + (n - 1)) !in Fold(m, LadderDiffs(held, n - 1), Ask);
    } else {
      assert LadderDiffs(held, 0) == [];
    }
  }

  lemma LadderLevels(n: nat)
    ensures Sorted(Ask, Ladder(0, n))
    ensures HoldsLadder(Levels(Ladder(0, n), Ladder(0, n)), n)
  {
    LevelKeys(Ladder(0, n), Ladder(0, n));
    forall x: nat ensures Rung(x) in Ladder(0, n) <==> x < n {
      if x < n { assert Ladder(0, n)[x] == Rung(x); }
      if Rung(x) in Ladder(0, n) {
        var i :| 0 <= i < n && Ladder(0, n)[i] == Rung(x);
        assert Rung(i) == Rung(x);
      }
    }
  }

  /** The cut-tail condition is needed: on a full ask side, a batch that updates each of the
      thousand levels the trim cuts and adds two new ones outgrows the buffer, although the count
      pass counts two. */
  lemma CutTailIsNeeded()
    ensures var ps, kept := Ladder(0, MAX_BUFFER), Ladder(0, MAX_BUFFER - TRIM_BLOCK);
            var diffs := LadderDiffs(MAX_BUFFER - TRIM_BLOCK, TRIM_BLOCK + 2);
            && Sorted(Ask, ps)
            && CountNew(Levels(ps, ps), diffs, Ask) == 2
            && ps[..CutTo(MAX_BUFFER, 2)] == kept
            && |Fold(Levels(kept, kept), diffs, Ask)| == MAX_BUFFER + 2
            && !Fits(Levels(kept, kept), diffs, Ask)
  {
    var held := MAX_BUFFER - TRIM_BLOCK;
    var ps := Ladder(0, MAX_BUFFER);
    var kept := Ladder(0, held);
    var diffs := LadderDiffs(held, TRIM_BLOCK + 2);
    LadderLevels(MAX_BUFFER);
    LadderCount(Levels(ps, ps), MAX_BUFFER, held, TRIM_BLOCK + 2);
    assert CutTo(MAX_BUFFER, 2) == held;
    assert ps[..held] == kept;
    LadderLevels(held);
    LevelCount(Ask, kept, kept);
    LadderFold(Levels(kept, kept), held, TRIM_BLOCK + 2);
    assert diffs[..|diffs|] == diffs;
  }

  /** A batch that keeps the trim from ever making room: 5000 new levels on an empty side. */
  lemma LadderOverloads()
    ensures CountNew(Levels([], []), LadderDiffs(0, MAX_BUFFER), Ask) == MAX_BUFFER
    ensures CutTo(0, MAX_BUFFER) + MAX_BUFFER >= MAX_BUFFER
  {
    var empty := Levels([], []);
    assert HoldsLadder(empty, 0);
    LadderCount(empty, 0, 0, MAX_BUFFER);
  }
}
