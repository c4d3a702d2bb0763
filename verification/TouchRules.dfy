/** Which candles touch the stop or the target of a position, in the candle's own figures: a long falls to
  its stop and rises to its target, a short the other way round. Simulator and paper manager must agree
  with this, candle by candle.
 */
module TouchRules {
  import opened Basics
  import opened Candles
  import opened PaperMath
  import opened SimSpec

  predicate TouchesStop(p: Position, c: Candle) {
    (p.dir == Long && c.low <= p.slPrice) || (p.dir == Short && c.high >= p.slPrice)
  }

  predicate TouchesTarget(p: Position, c: Candle) {
    (p.dir == Long && c.high >= p.tpPrice) || (p.dir == Short && c.low <= p.tpPrice)
  }

  /** Candles up to the bucket of the entry do not count. */
  predicate Touches(p: Position, c: Candle) {
    c.sec > p.entryBucket && (TouchesStop(p, c) || TouchesTarget(p, c))
  }

  /** None of the candles from..upto - 1 touches. */
  ghost predicate Untouched(p: Position, log: seq<Candle>, from: nat, upto: nat) {
    from <= upto <= |log| && forall k :: from <= k < upto ==> !Touches(p, log[k])
  }

  /** The trade leaves on this candle at the level it touches, the stop before the target. */
  predicate LeavesOn(t: Trade, c: Candle) {
    && Touches(t.pos, c) && t.exitTs == c.sec * 1000
    && t.reason == (if TouchesStop(t.pos, c) then StopLoss else TakeProfit)
    && t.exitPrice == if TouchesStop(t.pos, c) then t.pos.slPrice else t.pos.tpPrice
  }

  /** Exactly the touching candles make a position exit. */
  lemma ExitsExactlyOnTouch(cfg: Config, p: Position, c: Candle)
    ensures ExitOn(p, c).Some? <==> Touches(p, c)
    ensures Touches(p, c) ==>
              var reason := ExitOn(p, c).value;
              LeavesOn(MakeTrade(cfg, p, c.sec * 1000, LevelOf(p, reason), reason), c)
  {
  }

  /** Funding does not move the levels. */
  lemma PaidTouchesAlike(p: Position, rate: real, times: int, c: Candle)
    ensures Touches(Paid(p, rate, times), c) == Touches(p, c)
  {
  }
}
