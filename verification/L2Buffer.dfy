/** The order-book buffer: each side a preallocated pair of 5000-slot arrays whose active prefix is
  kept sorted by binary search, shifting inserts and deletes, and a trim from the end.
 */
module L2Buffer {
  import opened Basics
  import opened BookSpec
  import opened BookOverrun

  /** What a batch comes to.
      NeverReturns: the outer trim loop spins forever, because the side is already empty and the
      counted insertions alone reach the buffer size.
      ShapeError: an insert below slot 4999 of a full side, where the shifted slice no longer fits. */
  datatype BatchOutcome = Applied | EpochMismatch | NeverReturns | ShapeError

  /** The rows of a snapshot run strictly from the best price on. */
  ghost predicate InOrder(side: Side, rows: seq<(real, real)>) {
    forall i, j :: 0 <= i < j < |rows| ==> Key(side, rows[i].0) < Key(side, rows[j].0)
  }

  lemma SnapshotLevels(side: Side, ps: seq<real>, qs: seq<real>, rows: seq<(real, real)>)
    requires |ps| == |qs| == |rows|
    requires forall i :: 0 <= i < |rows| ==> ps[i] == rows[i].0 && qs[i] == rows[i].1
    ensures Sorted(side, ps) <==> InOrder(side, rows)
    ensures Sorted(side, ps) ==> |Levels(ps, qs)| == |rows|
    ensures Sorted(side, ps) ==>
              forall i :: 0 <= i < |rows| ==> rows[i].0 in Levels(ps, qs) && Levels(ps, qs)[rows[i].0] == rows[i].1
  {
    if Sorted(side, ps) {
      LevelCount(side, ps, qs);
      forall i | 0 <= i < |rows| ensures rows[i].0 in Levels(ps, qs) && Levels(ps, qs)[rows[i].0] == rows[i].1 {
        LevelAt(side, ps, qs, i);
      }
    }
  }

  class BookSide {
    const side: Side
    const price: array<real>
    const qty: array<real>
    var len: nat

    ghost predicate Shaped()
      reads this, price, qty
    {
      && price != qty
      && price.Length == MAX_BUFFER && qty.Length == MAX_BUFFER && len <= MAX_BUFFER
      && forall i :: len <= i < MAX_BUFFER ==> price[i] == 0.0 && qty[i] == 0.0
    }

    ghost predicate Valid()
      reads this, price, qty
    {
      Shaped() && Sorted(side, price[..len])
    }

    ghost function Held(): LevelMap
      reads this, price, qty
      requires Valid()
    {
      Levels(price[..len], qty[..len])
    }

    constructor (side: Side)
      ensures Valid() && this.side == side && Held() == map[]
      ensures fresh(price) && fresh(qty)
    {
      this.side := side;
      price := new real[MAX_BUFFER](_ => 0.0);
      qty := new real[MAX_BUFFER](_ => 0.0);
      len := 0;
    }

    /** Leftmost slot whose key is not below the key of p. */
    method SearchSorted(p: real) returns (idx: nat)
      requires Valid()
      ensures idx <= len
      ensures forall i :: 0 <= i < idx ==> Key(side, price[i]) < Key(side, p)
      ensures forall i :: idx <= i < len ==> Key(side, p) <= Key(side, price[i])
    {
      var lo, hi := 0, len;
      while lo < hi
        invariant lo <= hi <= len
        invariant forall i :: 0 <= i < lo ==> Key(side, price[i]) < Key(side, p)
        invariant forall i :: hi <= i < len ==> Key(side, p) <= Key(side, price[i])
      {
        var mid := (lo + hi) / 2;
        assert forall i :: 0 <= i < len ==> price[..len][i] == price[i];
        if Key(side, price[mid]) < Key(side, p) { lo := mid + 1; } else { hi := mid; }
      }
      idx := lo;
    }

    /** SearchSorted, and whether p is there: the flag says whether the side holds the level. */
    method Find(p: real) returns (idx: nat, found: bool)
      requires Valid()
      ensures idx <= len && found == (p in Held())
      ensures found ==> idx < len && price[idx] == p
      ensures forall i :: 0 <= i < idx ==> Key(side, price[i]) < Key(side, p)
      ensures !found ==> forall i :: idx <= i < len ==> Key(side, p) < Key(side, price[i])
    {
      idx := SearchSorted(p);
      found := idx < len && price[idx] == p;
      LevelKeys(price[..len], qty[..len]);
      if found {
        assert price[..len][idx] == p;
      } else {
        forall i | idx <= i < len ensures Key(side, p) < Key(side, price[i]) {
          assert price[..len][idx] == price[idx] && price[..len][i] == price[i];
        }
        forall i | 0 <= i < len ensures price[..len][i] != p { }
      }
    }

    /** Moves slots idx + 1..n of a one place to the left and zeroes the last of them. */
    static method ShiftOut(a: array<real>, idx: nat, n: nat)
      requires idx < n <= a.Length
      modifies a
      ensures a[..n - 1] == old(a[..n])[..idx] + old(a[..n])[idx + 1..] && a[n - 1] == 0.0
      ensures forall i :: n <= i < a.Length ==> a[i] == old(a[i])
    {
      if idx < n - 1 {
        forall i | idx <= i < n - 1 { a[i] := a[i + 1]; }
      }
      a[n - 1] := 0.0;
    }

    method RemoveAt(idx: nat)
      requires Valid() && idx < len
      modifies this`len, price, qty
      ensures Valid() && len == old(len) - 1
      ensures Held() == old(Held()) - {old(price[idx])}
    {
      ghost var ps, qs := price[..len], qty[..len];
      ShiftOut(price, idx, len);
      ShiftOut(qty, idx, len);
      len := len - 1;
      DeleteKeepsSorted(side, ps, idx);
      DeleteLevel(side, ps, qs, idx);
    }

    /** Moves slots idx..n of a one place to the right and writes x at idx. */
    static method ShiftIn(a: array<real>, idx: nat, n: nat, x: real)
      requires idx <= n < a.Length
      modifies a
      ensures a[..n + 1] == old(a[..n])[..idx] + [x] + old(a[..n])[idx..]
      ensures forall i :: n < i < a.Length ==> a[i] == old(a[i])
    {
      if idx < n {
        forall i | idx + 1 <= i < n + 1 { a[i] := a[i - 1]; }
      }
      a[idx] := x;
    }

    method InsertAt(idx: nat, p: real, q: real)
      requires Valid() && idx <= len < MAX_BUFFER
      requires forall i :: 0 <= i < idx ==> Key(side, price[i]) < Key(side, p)
      requires forall i :: idx <= i < len ==> Key(side, p) < Key(side, price[i])
      modifies this`len, price, qty
      ensures Valid() && len == old(len) + 1
      ensures Held() == old(Held())[p := q]
    {
      ghost var ps, qs := price[..len], qty[..len];
      ShiftIn(price, idx, len, p);
      ShiftIn(qty, idx, len, q);
      len := len + 1;
      InsertKeepsSorted(side, ps, idx, p);
      InsertLevel(ps, qs, idx, p, q);
    }

    method SetQty(idx: nat, q: real)
      requires Valid() && idx < len
      modifies qty
      ensures Valid()
      ensures Held() == old(Held())[price[idx] := q]
    {
      ghost var ps, qs := price[..len], qty[..len];
      qty[idx] := q;
      assert price[..len] == ps && qty[..len] == qs[idx := q];
      UpdateLevel(side, ps, qs, idx, q);
    }

    /** An insert into a full side: past the last slot it is skipped; at the last slot the shift is
        empty and the worst level is overwritten; anywhere else the shifted slice does not fit. */
    method InsertFull(idx: nat, p: real, q: real) returns (raised: bool)
      requires Valid() && idx <= len == MAX_BUFFER
      requires forall i :: 0 <= i < idx ==> Key(side, price[i]) < Key(side, p)
      requires forall i :: idx <= i < len ==> Key(side, p) < Key(side, price[i])
      modifies price, qty
      ensures Valid() && (raised <==> idx < MAX_BUFFER - 1)
      ensures raised || idx == MAX_BUFFER ==> price[..] == old(price[..]) && qty[..] == old(qty[..])
      ensures idx == MAX_BUFFER - 1 ==>
                price[..] == old(price[..])[idx := p] && qty[..] == old(qty[..])[idx := q]
      ensures |Better(old(Held()), side, p)| == idx
      ensures !raised ==>
                Held() == if idx == MAX_BUFFER then old(Held()) else Better(old(Held()), side, p)[p := q]
    {
      FullSide(side, price[..len], qty[..len], idx, p, q);
      raised := false;
      if idx < MAX_BUFFER {
        if idx < len - 1 { return true; }
        ghost var ps, qs := price[..len], qty[..len];
        price[idx] := p;
        qty[idx] := q;
        assert price[..len] == ps[idx := p] && qty[..len] == qs[idx := q];
        assert forall i :: 0 <= i < idx ==> ps[i] == old(price[i]);
      }
    }

    /** One diff on its side. Unless it inserts into a full side, the side afterwards is the map
        update the diff stands for. */
    method ApplyDiff(p: real, q: real) returns (raised: bool, ghost overran: bool)
      requires Valid()
      modifies this`len, price, qty
      ensures Valid()
      ensures overran <==> q != 0.0 && p !in old(Held()) && old(len) == MAX_BUFFER
      ensures !overran ==> !raised && Held() == Put(old(Held()), p, q)
      ensures overran ==> len == MAX_BUFFER
      ensures overran ==> (raised <==> Key(side, p) < Key(side, old(price[MAX_BUFFER - 2])))
      ensures raised ==> price[..] == old(price[..]) && qty[..] == old(qty[..])
      ensures PutBounded(old(Held()), Diff(side, p, q), side) == if raised then None else Some(Held())
      ensures !overran ==> OnlyQuotes(old(Held()), Held(), p, q)
    {
      CountHeld(this);
      OneDiffQuotes(Held(), p, q);
      raised, overran := false, false;
      var idx, found := Find(p);
      if found {
        if q == 0.0 { RemoveAt(idx); } else { SetQty(idx, q); }
      } else if q != 0.0 {
        if len < MAX_BUFFER {
          InsertAt(idx, p, q);
        } else {
          overran := true;
          raised := InsertFull(idx, p, q);
        }
      } else {
        assert Held() == Put(Held(), p, q);
      }
    }

    /** Drops blocks of up to TRIM_BLOCK levels from the end until newCount more would fit, or
        nothing is left to drop. The best-priced prefix survives. */
    method Trim(newCount: nat) returns (trimmed: nat)
      requires Valid()
      modifies this`len, price, qty
      ensures Valid() && len == CutTo(old(len), newCount) && trimmed == old(len) - len
      ensures len <= old(len) && price[..len] == old(price[..len])[..len] && qty[..len] == old(qty[..len])[..len]
    {
      var arrLen: nat := len;
      trimmed := 0;
      while arrLen + newCount >= MAX_BUFFER
        invariant arrLen <= len == old(len) && trimmed == len - arrLen
        invariant CutTo(arrLen, newCount) == CutTo(len, newCount)
        invariant forall i :: 0 <= i < arrLen ==> price[i] == old(price[i]) && qty[i] == old(qty[i])
        invariant forall i :: arrLen <= i < MAX_BUFFER ==> price[i] == 0.0 && qty[i] == 0.0
      {
        var trimN := Min(TRIM_BLOCK, arrLen);
        if trimN == 0 { break; }
        forall i | arrLen - trimN <= i < arrLen { price[i] := 0.0; }
        forall i | arrLen - trimN <= i < arrLen { qty[i] := 0.0; }
        arrLen := arrLen - trimN;
        trimmed := trimmed + trimN;
      }
      len := arrLen;
      assert price[..len] == old(price[..len])[..len];
    }

    /** Replaces the side by the first MAX_BUFFER rows of a snapshot. Rows are taken as they come,
        so a side is sorted afterwards exactly if those rows are. */
    method Load(rows: seq<(real, real)>)
      requires Shaped()
      modifies this`len, price, qty
      ensures Shaped() && len == Min(MAX_BUFFER, |rows|)
      ensures forall i :: 0 <= i < len ==> price[i] == rows[i].0 && qty[i] == rows[i].1
      ensures Valid() <==> InOrder(side, rows[..len])
      ensures Valid() ==> |Held()| == len
      ensures Valid() ==> forall i :: 0 <= i < len ==> rows[i].0 in Held() && Held()[rows[i].0] == rows[i].1
    {
      var n := Min(MAX_BUFFER, |rows|);
      forall i | 0 <= i < MAX_BUFFER { price[i] := if i < n then rows[i].0 else 0.0; }
      forall i | 0 <= i < MAX_BUFFER { qty[i] := if i < n then rows[i].1 else 0.0; }
      len := n;
      SnapshotLevels(side, price[..len], qty[..len], rows[..len]);
    }
  }

  class L2Book {
    const bids: BookSide
    const asks: BookSide
    var seqEpoch: int

    ghost predicate Shaped()
      reads this, bids, asks, bids.price, bids.qty, asks.price, asks.qty
    {
      && bids != asks && bids.side == Bid && asks.side == Ask
      && bids.Shaped() && asks.Shaped()
      && {bids.price, bids.qty} !! {asks.price, asks.qty}
    }

    ghost predicate Valid()
      reads this, bids, asks, bids.price, bids.qty, asks.price, asks.qty
    {
      Shaped() && bids.Valid() && asks.Valid()
    }

    constructor ()
      ensures Valid() && seqEpoch == 0 && bids.Held() == map[] && asks.Held() == map[]
      ensures fresh(bids) && fresh(asks)
    {
      bids := new BookSide(Bid);
      asks := new BookSide(Ask);
      seqEpoch := 0;
    }

    /** First pass: how many diffs of each side would insert a level. */
    method CountInserts(diffs: seq<Diff>) returns (newBids: nat, newAsks: nat)
      requires Valid()
      ensures newBids == CountNew(bids.Held(), diffs, Bid)
      ensures newAsks == CountNew(asks.Held(), diffs, Ask)
    {
      newBids, newAsks := 0, 0;
      for k := 0 to |diffs|
        invariant newBids == CountNew(bids.Held(), diffs[..k], Bid)
        invariant newAsks == CountNew(asks.Held(), diffs[..k], Ask)
      {
        FoldNext(bids.Held(), diffs, k, Bid);
        FoldNext(asks.Held(), diffs, k, Ask);
        var d := diffs[k];
        if d.qty == 0.0 { continue; }
        if d.side == Bid {
          var _, found := bids.Find(d.price);
          if !found { newBids := newBids + 1; }
        } else {
          var _, found := asks.Find(d.price);
          if !found { newAsks := newAsks + 1; }
        }
      }
      assert diffs[..|diffs|] == diffs;
    }

    /** One diff of the second pass; over says that it would outgrow its side. */
    method ApplyOne(d: Diff) returns (raised: bool, ghost over: bool)
      requires Valid()
      modifies bids`len, asks`len, bids.price, bids.qty, asks.price, asks.qty
      ensures Valid()
      ensures over <==> |PutIf(old(bids.Held()), d, Bid)| > MAX_BUFFER || |PutIf(old(asks.Held()), d, Ask)| > MAX_BUFFER
      ensures raised ==> over
      ensures !over ==> bids.Held() == PutIf(old(bids.Held()), d, Bid)
      ensures !over ==> asks.Held() == PutIf(old(asks.Held()), d, Ask)
      ensures ApplyNext(old(bids.Held()), old(asks.Held()), d) == BatchEnd(bids.Held(), asks.Held(), raised)
    {
      CountHeld(bids);
      CountHeld(asks);
      OneSideTaken(bids.Held(), asks.Held(), d);
      if d.side == Bid {
        raised, over := bids.ApplyDiff(d.price, d.qty);
      } else {
        raised, over := asks.ApplyDiff(d.price, d.qty);
      }
      CountHeld(bids);
      CountHeld(asks);
    }

    /** Second pass. Both sides become the fold of the diffs over them exactly when the fold fits
        the buffer all along; otherwise some diff met a full side. */
    method ApplyAll(diffs: seq<Diff>) returns (raised: bool, ghost overran: bool)
      requires Valid()
      modifies bids`len, asks`len, bids.price, bids.qty, asks.price, asks.qty
      ensures Valid()
      ensures overran <==> !(Fits(old(bids.Held()), diffs, Bid) && Fits(old(asks.Held()), diffs, Ask))
      ensures raised ==> overran
      ensures !overran ==> bids.Held() == Fold(old(bids.Held()), diffs, Bid)
      ensures !overran ==> asks.Held() == Fold(old(asks.Held()), diffs, Ask)
      ensures ApplyEach(old(bids.Held()), old(asks.Held()), diffs) == BatchEnd(bids.Held(), asks.Held(), raised)
      ensures !overran ==> LastDiffWins(old(bids.Held()), diffs, Bid, bids.Held())
      ensures !overran ==> LastDiffWins(old(asks.Held()), diffs, Ask, asks.Held())
    {
      FoldTakesLastDiffs(bids.Held(), diffs, Bid);
      FoldTakesLastDiffs(asks.Held(), diffs, Ask);
      ghost var b, a := bids.Held(), asks.Held();
      CountHeld(bids);
      CountHeld(asks);
      raised, overran := false, false;
      var k := 0;
      while k < |diffs|
        invariant k <= |diffs| && Valid() && !raised
        invariant overran <==> !(FitsUpTo(b, diffs, k, Bid) && FitsUpTo(a, diffs, k, Ask))
        invariant !overran ==> bids.Held() == Fold(b, diffs[..k], Bid) && asks.Held() == Fold(a, diffs[..k], Ask)
        invariant ApplyEach(bids.Held(), asks.Held(), diffs[k..]) == ApplyEach(b, a, diffs)
      {
        assert diffs[k..][0] == diffs[k] && diffs[k..][1..] == diffs[k + 1..];
        FoldNext(b, diffs, k, Bid);
        FoldNext(a, diffs, k, Ask);
        FitsNext(b, diffs, k, Bid);
        FitsNext(a, diffs, k, Ask);
        ghost var over: bool;
        raised, over := ApplyOne(diffs[k]);
        overran := overran || over;
        k := k + 1;
        if raised { return; }
      }
      assert diffs[..|diffs|] == diffs;
    }

    /** The outer trim loop of one side. The source loops on the same guard as Trim does, so a
        second round would find what the first one left. */
    method TrimLoop(s: BookSide, newCount: nat) returns (stuck: bool)
      requires s.Valid()
      modifies s`len, s.price, s.qty
      ensures s.Valid() && s.Held() == old(Trimmed(s, newCount))
      ensures stuck <==> newCount >= MAX_BUFFER
    {
      stuck := false;
      TrimIsLeast(s.len, newCount);
      if s.len + newCount >= MAX_BUFFER {
        var _ := s.Trim(newCount);
        stuck := s.len + newCount >= MAX_BUFFER;
        assert s.price[..s.len] == old(s.price[..CutTo(s.len, newCount)]);
        assert s.qty[..s.len] == old(s.qty[..CutTo(s.len, newCount)]);
      }
    }

    /** The count pass and both trim loops. */
    method MakeRoom(diffs: seq<Diff>) returns (stuck: bool)
      requires Valid()
      modifies bids`len, asks`len, bids.price, bids.qty, asks.price, asks.qty
      ensures Valid()
      ensures stuck <==> CountNew(old(bids.Held()), diffs, Bid) >= MAX_BUFFER ||
                         CountNew(old(asks.Held()), diffs, Ask) >= MAX_BUFFER
      ensures !stuck ==> bids.Held() == old(TrimmedBids(diffs)) && asks.Held() == old(TrimmedAsks(diffs))
    {
      var newBids, newAsks := CountInserts(diffs);
      stuck := TrimLoop(bids, newBids);
      if !stuck {
        stuck := TrimLoop(asks, newAsks);
      }
    }

    /** A batch: the epoch gate, the count pass, the trims and the apply pass. A batch of another
        epoch changes nothing; the trims spin forever exactly when one side counts MAX_BUFFER
        insertions or more; otherwise the book becomes the fold of the diffs over the trimmed
        sides, exactly when that fold fits the buffer. */
    method ApplyBatch(diffs: seq<Diff>, batchEpoch: int) returns (outcome: BatchOutcome, ghost overran: bool)
      requires Valid()
      modifies bids`len, asks`len, bids.price, bids.qty, asks.price, asks.qty
      ensures Valid()
      ensures outcome == EpochMismatch <==> batchEpoch != seqEpoch
      ensures outcome == EpochMismatch ==>
                && bids.len == old(bids.len) && asks.len == old(asks.len)
                && bids.price[..] == old(bids.price[..]) && bids.qty[..] == old(bids.qty[..])
                && asks.price[..] == old(asks.price[..]) && asks.qty[..] == old(asks.qty[..])
      ensures var newBids, newAsks := CountNew(old(bids.Held()), diffs, Bid), CountNew(old(asks.Held()), diffs, Ask);
              outcome == NeverReturns <==> batchEpoch == seqEpoch && (newBids >= MAX_BUFFER || newAsks >= MAX_BUFFER)
      ensures outcome == Applied || outcome == ShapeError ==>
                (overran <==> !(Fits(old(TrimmedBids(diffs)), diffs, Bid) && Fits(old(TrimmedAsks(diffs)), diffs, Ask)))
      ensures outcome == Applied || outcome == ShapeError ==>
                ApplyEach(old(TrimmedBids(diffs)), old(TrimmedAsks(diffs)), diffs) ==
                BatchEnd(bids.Held(), asks.Held(), outcome == ShapeError)
      ensures outcome == NeverReturns <==>
                batchEpoch == seqEpoch && Overloads(old(bids.Held()), old(asks.Held()), diffs)
      ensures outcome == Applied || outcome == ShapeError ==>
                Batch(old(bids.Held()), old(asks.Held()), diffs) ==
                BatchEnd(bids.Held(), asks.Held(), outcome == ShapeError)
      ensures outcome == ShapeError ==> overran
      ensures outcome == Applied && !overran ==>
                && LastDiffWins(old(TrimmedBids(diffs)), diffs, Bid, bids.Held())
                && LastDiffWins(old(TrimmedAsks(diffs)), diffs, Ask, asks.Held())
      ensures outcome == Applied && !overran ==>
                && bids.Held() == Fold(old(TrimmedBids(diffs)), diffs, Bid)
                && asks.Held() == Fold(old(TrimmedAsks(diffs)), diffs, Ask)
    {
      overran := false;
      if batchEpoch != seqEpoch { return EpochMismatch, false; }
      TrimmedIsBest(bids, CountNew(bids.Held(), diffs, Bid));
      TrimmedIsBest(asks, CountNew(asks.Held(), diffs, Ask));
      var stuck := MakeRoom(diffs);
      if stuck { return NeverReturns, false; }
      var raised;
      raised, overran := ApplyAll(diffs);
      outcome := if raised then ShapeError else Applied;
    }

    /** A side as the trim before this batch leaves it. */
    ghost function TrimmedBids(diffs: seq<Diff>): LevelMap
      reads this, bids, asks, bids.price, bids.qty, asks.price, asks.qty
      requires Valid()
    {
      Trimmed(bids, CountNew(bids.Held(), diffs, Bid))
    }

    ghost function TrimmedAsks(diffs: seq<Diff>): LevelMap
      reads this, bids, asks, bids.price, bids.qty, asks.price, asks.qty
      requires Valid()
    {
      Trimmed(asks, CountNew(asks.Held(), diffs, Ask))
    }

    /** A snapshot starts the next epoch and replaces both sides, whatever they held. Rows are not
        checked: the book is sorted afterwards, as every later search needs it, exactly if the rows
        taken are. */
    method OnSnapshot(rawBids: seq<(real, real)>, rawAsks: seq<(real, real)>)
      requires Shaped()
      modifies this`seqEpoch, bids`len, asks`len, bids.price, bids.qty, asks.price, asks.qty
      ensures Shaped() && seqEpoch == old(seqEpoch) + 1
      ensures bids.len == Min(MAX_BUFFER, |rawBids|) && asks.len == Min(MAX_BUFFER, |rawAsks|)
      ensures forall i :: 0 <= i < bids.len ==> bids.price[i] == rawBids[i].0 && bids.qty[i] == rawBids[i].1
      ensures forall i :: 0 <= i < asks.len ==> asks.price[i] == rawAsks[i].0 && asks.qty[i] == rawAsks[i].1
      ensures Valid() <==> InOrder(Bid, rawBids[..bids.len]) && InOrder(Ask, rawAsks[..asks.len])
      ensures Valid() ==> |bids.Held()| == bids.len && |asks.Held()| == asks.len
      ensures Valid() ==>
                forall i :: 0 <= i < bids.len ==>
                  rawBids[i].0 in bids.Held() && bids.Held()[rawBids[i].0] == rawBids[i].1
      ensures Valid() ==>
                forall i :: 0 <= i < asks.len ==>
                  rawAsks[i].0 in asks.Held() && asks.Held()[rawAsks[i].0] == rawAsks[i].1
    {
      seqEpoch := seqEpoch + 1;
      bids.Load(rawBids);
      asks.Load(rawAsks);
    }
  }

  /** The prefix of a side that survives the trim before newCount insertions. */
  ghost function Trimmed(s: BookSide, newCount: nat): LevelMap
    reads s, s.price, s.qty
    requires s.Valid()
  {
    var cut := CutTo(s.len, newCount);
    Levels(s.price[..cut], s.qty[..cut])
  }

  /** Bids run down from the highest, asks up from the lowest; no price stands twice. */
  lemma BestPricesFirst(book: L2Book, i: nat, j: nat)
    requires book.Valid() && i < j
    ensures j < book.bids.len ==> book.bids.price[i] > book.bids.price[j]
    ensures j < book.asks.len ==> book.asks.price[i] < book.asks.price[j]
  {
    var bids, asks := book.bids.price[..book.bids.len], book.asks.price[..book.asks.len];
    if j < |bids| { assert Key(Bid, bids[i]) < Key(Bid, bids[j]); }
    if j < |asks| { assert Key(Ask, asks[i]) < Key(Ask, asks[j]); }
  }

  /** The trim by blocks from the end keeps the best levels. */
  lemma TrimmedIsBest(s: BookSide, newCount: nat)
    requires s.Valid()
    ensures Trimmed(s, newCount) == Best(s.Held(), s.side, CutTo(|s.Held()|, newCount))
  {
    var ps, qs, cut := s.price[..s.len], s.qty[..s.len], CutTo(s.len, newCount);
    CountHeld(s);
    assert s.price[..cut] == ps[..cut] && s.qty[..cut] == qs[..cut];
    PrefixIsBest(s.side, ps, qs, cut);
  }

  lemma CountHeld(s: BookSide)
    requires s.Valid()
    ensures |s.Held()| == s.len
  {
    LevelCount(s.side, s.price[..s.len], s.qty[..s.len]);
  }

  /** What keeps a batch inside the buffer: fewer than MAX_BUFFER insertions counted on each side,
      and no nonzero diff at a price the trim cuts. ApplyBatch then ends Applied, with both sides
      the fold of the batch over their trimmed prefixes. */
  lemma RoomyBatchFits(book: L2Book, diffs: seq<Diff>)
    requires book.Valid()
    requires CountNew(book.bids.Held(), diffs, Bid) < MAX_BUFFER && CountNew(book.asks.Held(), diffs, Ask) < MAX_BUFFER
    requires CutTailUntouched(book.bids.Held(), book.TrimmedBids(diffs), diffs, Bid)
    requires CutTailUntouched(book.asks.Held(), book.TrimmedAsks(diffs), diffs, Ask)
    ensures Fits(book.TrimmedBids(diffs), diffs, Bid) && Fits(book.TrimmedAsks(diffs), diffs, Ask)
  {
    RoomySideFits(book.bids, diffs);
    RoomySideFits(book.asks, diffs);
  }

  lemma RoomySideFits(s: BookSide, diffs: seq<Diff>)
    requires s.Valid() && CountNew(s.Held(), diffs, s.side) < MAX_BUFFER
    requires CutTailUntouched(s.Held(), Trimmed(s, CountNew(s.Held(), diffs, s.side)), diffs, s.side)
    ensures Fits(Trimmed(s, CountNew(s.Held(), diffs, s.side)), diffs, s.side)
  {
    var ps, qs := s.price[..s.len], s.qty[..s.len];
    var cut := CutTo(s.len, CountNew(s.Held(), diffs, s.side));
    assert s.price[..cut] == ps[..cut] && s.qty[..cut] == qs[..cut];
    CapacityHolds(s.side, ps, qs, diffs, cut);
  }

  /** With 5000 new levels for an empty side, the condition under which ApplyBatch never returns. */
  lemma EmptyBookOverloads(book: L2Book)
    requires book.Valid() && book.asks.Held() == map[]
    ensures CountNew(book.asks.Held(), LadderDiffs(0, MAX_BUFFER), Ask) >= MAX_BUFFER
  {
    LadderOverloads();
  }
}
