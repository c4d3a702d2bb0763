/** The bootstrap over the order book itself: a commit that overruns a side makes recovery skip versions,
  although the fetch succeeded.
 */
module BootstrapOverrun {
  import opened BookSpec
  import opened BookOverrun
  import opened Bootstrap

  datatype Sides = Sides(bids: LevelMap, asks: LevelMap)

  /** One version on the book, in its own epoch. A version without diffs is not applied at all. */
  function ApplyDiffs(b: Sides, diffs: seq<Diff>): Result<Sides> {
    if |diffs| == 0 then Result(b, Fine)
    else if CountNew(b.bids, diffs, Bid) >= MAX_BUFFER then Result(b.(bids := Kept(b.bids, diffs, Bid)), Hung)
    else if CountNew(b.asks, diffs, Ask) >= MAX_BUFFER then
      Result(Sides(Kept(b.bids, diffs, Bid), Kept(b.asks, diffs, Ask)), Hung)
    else
      var end := Batch(b.bids, b.asks, diffs);
      Result(Sides(end.bids, end.asks), if end.raised then Raised else Fine)
  }

  /** A push that removes a level. */
  const REMOVAL := [Diff(Bid, 1.0, 0.0)]

  lemma RemovalCountsNothing(m: LevelMap, side: Side)
    ensures CountNew(m, REMOVAL, side) == 0
  {
    assert REMOVAL[..0] == [];
  }

  lemma RemovalIsFine(b: Sides)
    requires |b.bids| <= MAX_BUFFER && |b.asks| <= MAX_BUFFER
    ensures ApplyDiffs(b, REMOVAL).ending.Fine?
  {
    RemovalCountsNothing(b.bids, Bid);
    RemovalCountsNothing(b.asks, Ask);
    assert REMOVAL[1..] == [];
    var bids, asks := Kept(b.bids, REMOVAL, Bid), Kept(b.asks, REMOVAL, Ask);
    SubsetSize(bids.Keys, b.bids.Keys);
    SubsetSize(asks.Keys, b.asks.Keys);
    SubsetSize(PutIf(bids, REMOVAL[0], Bid).Keys, bids.Keys);
    var end := FittingNext(bids, asks, REMOVAL[0]);
  }

  /** The snapshot at version 10 fills the ask side. Commit 11 updates the levels that its own trim cuts,
      adds one price and raises; a push of version 15 is left over. The bootstrap ends well with 15 right
      after 10. */
  lemma OverrunSkipsVersions()
    ensures var i := Input(ApplyDiffs, Sides(map[], LadderSide(MAX_BUFFER)), 10, [Update(15, REMOVAL)],
                           Commits([Update(11, LateDiffs())]));
            && Boot(i).ending.Fine? && Boot(i).log == [Update(15, REMOVAL)] && Boot(i).last == 15
            && i.fetch.Commits? && RecoveryRaises(i) && !Contiguous(11, Boot(i).log)
  {
    var b := Sides(map[], LadderSide(MAX_BUFFER));
    CutTailCanRaise();
    LadderSideHolds(MAX_BUFFER);
    assert ApplyDiffs(b, LateDiffs()).ending.Raised?;
    RemovalIsFine(ApplyDiffs(b, LateDiffs()).book);
    RaisedCommitSkipsVersions(ApplyDiffs, b, LateDiffs(), REMOVAL);
  }
}
