/**
 * What `processTrade` promises: where and why a trade exits, at what price,
 * how the recorded range and the excursions relate to the entry, and how
 * the trailing stop moves.
 */
module SimulatorFacts {
  import opened Common
  import opened Bars
  import opened Simulator

  /** The exit reasons of a replay: the last-bar exit is at `iend` and its
      close, the day-limit exit at bar `ibeg + maxDays` and its close; with a
      positive day limit the exit is no later than that bar, and when that
      bar is inside the trade the last-bar exit cannot happen. */
  lemma {:induction false} ReplayExits(px: Series, t: Trade, l: Locals, ii: int)
    requires ReplayPre(px, t, l, ii)
    ensures var o := Replay(px, t, l, ii);
      && (ii > t.iend ==> o.exitIndex == t.iend && o.fill == Fill(px.cl[t.iend], ExitOnLast))
      && (o.fill.reason == ExitOnLast ==> o.exitIndex == t.iend && o.fill.price == px.cl[t.iend])
      && (o.fill.reason == MaxDaysLimit ==>
            t.maxDays > 0 && o.exitIndex == t.ibeg + t.maxDays && o.fill.price == px.cl[o.exitIndex])
      && (t.maxDays > 0 && ii <= t.ibeg + t.maxDays ==> o.exitIndex <= t.ibeg + t.maxDays)
      && (t.maxDays > 0 && ii <= t.ibeg + t.maxDays <= t.iend ==> o.fill.reason != ExitOnLast)
    decreases t.iend + 1 - ii
  {
    if ii <= t.iend {
      var s := BarStep(t.pos < 0, l, BarAt(px, ii));
      BarFillPrice(t.pos < 0, l, BarAt(px, ii));
      if s.fill.None? && !(t.maxDays > 0 && ii - t.ibeg == t.maxDays) {
        ReplayExits(px, t, s.locals, ii + 1);
      }
    }
  }

  /** `processTrade` exit index and default exits. When the trade has bars
      after the entry the exit lies among them; otherwise the trade closes on
      `iend` at its close. */
  lemma SimulateExits(px: Series, t: Trade, tickSize: real)
    requires CanSimulate(px, t, tickSize)
    ensures var r := Simulate(px, t, tickSize);
      && (t.ibeg < t.iend ==> t.ibeg < r.exitIndex <= t.iend)
      && (t.iend <= t.ibeg ==> r.exitIndex == t.iend && r.exitReason == ExitOnLast && r.exitPrice == px.cl[t.iend])
      && (r.exitReason == ExitOnLast ==> r.exitIndex == t.iend && r.exitPrice == px.cl[t.iend])
      && (r.exitReason == MaxDaysLimit ==>
            t.maxDays > 0 && r.exitIndex == t.ibeg + t.maxDays && r.exitPrice == px.cl[r.exitIndex])
      && (t.maxDays > 0 ==> r.exitIndex <= t.ibeg + t.maxDays)
      && (t.maxDays > 0 && t.ibeg + t.maxDays <= t.iend ==> r.exitReason != ExitOnLast)
  {
    var l0 := EntryLocals(px.cl[t.ibeg], t.pos < 0, t.stopLoss, t.stopTrailing, t.profitTarget, tickSize);
    ReplayExits(px, t, l0, t.ibeg + 1);
  }

  /** The recorded range contains the entry price, so with a positive entry
      price the adverse excursion is never positive and the favourable one
      never negative, on either side. */
  lemma SimulateRange(px: Series, t: Trade, tickSize: real)
    requires CanSimulate(px, t, tickSize)
    ensures var r := Simulate(px, t, tickSize);
      && r.minPrice <= px.cl[t.ibeg] <= r.maxPrice
      && r.mae <= 0.0 <= r.mfe
  {
    var e := px.cl[t.ibeg];
    var l0 := EntryLocals(e, t.pos < 0, t.stopLoss, t.stopTrailing, t.profitTarget, tickSize);
    var o := Replay(px, t, l0, t.ibeg + 1);
    assert o.locals.entryPrice == e;
    RatioVsOne(o.locals.minPrice, e);
    RatioVsOne(o.locals.maxPrice, e);
  }

  /** The bars of a trade are well formed and a trailing stop recomputed at
      any of their opens stays beyond that open. */
  predicate BarsBehave(px: Series, t: Trade, l: Locals, from: int)
    requires Covers(px, t) && CanTrail(l) && t.ibeg + 1 <= from
  {
    forall k :: from <= k <= t.iend ==>
      WellFormed(BarAt(px, k)) && StopClearsOpen(t.pos < 0, l, BarAt(px, k))
  }

  /** A replay that starts with the previous close inside the range ends
      with its fill price inside the final range. */
  lemma {:induction false} ReplayExitInRange(px: Series, t: Trade, l: Locals, ii: int)
    requires ReplayPre(px, t, l, ii) && ii <= t.iend + 1
    requires l.minPrice <= px.cl[ii - 1] <= l.maxPrice
    requires BarsBehave(px, t, l, ii)
    ensures var o := Replay(px, t, l, ii);
      o.locals.minPrice <= o.fill.price <= o.locals.maxPrice
    decreases t.iend + 1 - ii
  {
    if ii <= t.iend {
      var b := BarAt(px, ii);
      var s := BarStep(t.pos < 0, l, b);
      assert WellFormed(b) && StopClearsOpen(t.pos < 0, l, b);
      BarFillInRange(t.pos < 0, l, b);
      if s.fill.None? && !(t.maxDays > 0 && ii - t.ibeg == t.maxDays) {
        assert BarsBehave(px, t, s.locals, ii + 1) by {
          forall k | ii + 1 <= k <= t.iend
            ensures WellFormed(BarAt(px, k)) && StopClearsOpen(t.pos < 0, s.locals, BarAt(px, k))
          {
            assert StopClearsOpen(t.pos < 0, l, BarAt(px, k));
          }
        }
        ReplayExitInRange(px, t, s.locals, ii + 1);
      }
    }
  }

  /** A trailing stop recomputed at the open of any bar of the trade lies
      beyond that open (a condition on the inputs only). */
  predicate TrailClearsOpens(px: Series, t: Trade, tickSize: real)
    requires CanSimulate(px, t, tickSize)
  {
    t.stopTrailing.Num? ==>
      forall k :: t.ibeg < k <= t.iend ==>
        if t.pos < 0 then StopLevel(true, px.op[k], t.stopTrailing.v, tickSize) >= px.op[k]
        else StopLevel(false, px.op[k], t.stopTrailing.v, tickSize) <= px.op[k]
  }

  /** On well-formed bars the exit price lies inside the reported range, so
      the gain lies between the adverse and the favourable excursion. */
  lemma SimulateExitInRange(px: Series, t: Trade, tickSize: real)
    requires CanSimulate(px, t, tickSize) && t.ibeg <= t.iend
    requires forall k :: t.ibeg < k <= t.iend ==> WellFormed(BarAt(px, k))
    requires TrailClearsOpens(px, t, tickSize)
    ensures var r := Simulate(px, t, tickSize);
      && r.minPrice <= r.exitPrice <= r.maxPrice
      && r.mae <= r.gain <= r.mfe
  {
    var e := px.cl[t.ibeg];
    var l0 := EntryLocals(e, t.pos < 0, t.stopLoss, t.stopTrailing, t.profitTarget, tickSize);
    assert BarsBehave(px, t, l0, t.ibeg + 1) by {
      forall k | t.ibeg + 1 <= k <= t.iend
        ensures WellFormed(BarAt(px, k)) && StopClearsOpen(t.pos < 0, l0, BarAt(px, k))
      {
      }
    }
    ReplayExitInRange(px, t, l0, t.ibeg + 1);
    var o := Replay(px, t, l0, t.ibeg + 1);
    assert o.locals.entryPrice == e;
    DivMonotone(o.locals.minPrice, o.fill.price, e);
    DivMonotone(o.fill.price, o.locals.maxPrice, e);
  }

  /** Over a replay a short's stop never rises and a long's never falls. */
  lemma {:induction false} ReplayRatchet(px: Series, t: Trade, l: Locals, ii: int)
    requires ReplayPre(px, t, l, ii) && l.tickSize > 0.0 && TrailTracks(t.pos < 0, l)
    requires t.pos >= 0 ==> Abs(l.stopTrailing) <= 1.0
    ensures var o := Replay(px, t, l, ii);
      && (t.pos < 0 ==> o.locals.stopPrice <= l.stopPrice)
      && (t.pos >= 0 ==> o.locals.stopPrice >= l.stopPrice)
    decreases t.iend + 1 - ii
  {
    if ii <= t.iend {
      var s := BarStep(t.pos < 0, l, BarAt(px, ii));
      TrailRatchet(t.pos < 0, l, BarAt(px, ii));
      if s.fill.None? && !(t.maxDays > 0 && ii - t.ibeg == t.maxDays) {
        ReplayRatchet(px, t, s.locals, ii + 1);
      }
    }
  }

  /** The trailing stop of a trade starts on the entry price and ratchets:
      at the exit a short's stop is at most, a long's at least, the initial
      level (positive tick; for a long, a trailing fraction of at most 1). */
  lemma TradeRatchet(px: Series, t: Trade, tickSize: real)
    requires CanSimulate(px, t, tickSize) && tickSize > 0.0
    requires t.pos >= 0 && t.stopTrailing.Num? ==> Abs(t.stopTrailing.v) <= 1.0
    ensures var l0 := EntryLocals(px.cl[t.ibeg], t.pos < 0, t.stopLoss, t.stopTrailing, t.profitTarget, tickSize);
      var o := Replay(px, t, l0, t.ibeg + 1);
      && TrailTracks(t.pos < 0, l0)
      && (t.pos < 0 ==> o.locals.stopPrice <= l0.stopPrice)
      && (t.pos >= 0 ==> o.locals.stopPrice >= l0.stopPrice)
  {
    var l0 := EntryLocals(px.cl[t.ibeg], t.pos < 0, t.stopLoss, t.stopTrailing, t.profitTarget, tickSize);
    ReplayRatchet(px, t, l0, t.ibeg + 1);
  }

  /** A long never exits with STOP_LIMIT_ON_CLOSE or PROFIT_TARGET_ON_CLOSE. */
  lemma {:induction false} ReplayLongCloseExits(px: Series, t: Trade, l: Locals, ii: int)
    requires ReplayPre(px, t, l, ii) && t.pos >= 0
    ensures var o := Replay(px, t, l, ii);
      o.fill.reason != StopLimitOnClose && o.fill.reason != ProfitTargetOnClose
    decreases t.iend + 1 - ii
  {
    if ii <= t.iend {
      var s := BarStep(t.pos < 0, l, BarAt(px, ii));
      LongCloseExits(l, BarAt(px, ii));
      if s.fill.None? && !(t.maxDays > 0 && ii - t.ibeg == t.maxDays) {
        ReplayLongCloseExits(px, t, s.locals, ii + 1);
      }
    }
  }

  lemma SimulateLongCloseExits(px: Series, t: Trade, tickSize: real)
    requires CanSimulate(px, t, tickSize) && t.pos >= 0
    ensures var r := Simulate(px, t, tickSize);
      r.exitReason != StopLimitOnClose && r.exitReason != ProfitTargetOnClose
  {
    var l0 := EntryLocals(px.cl[t.ibeg], false, t.stopLoss, t.stopTrailing, t.profitTarget, tickSize);
    ReplayLongCloseExits(px, t, l0, t.ibeg + 1);
  }

  /** Fill prices over a replay: open exits at the open of the exit bar,
      close, day-limit and last-bar exits at its close, target exits at the
      target, fixed-stop exits at the fixed stop, trailing-stop exits at the
      stop in force at the exit. */
  lemma ReplayFillPrice(px: Series, t: Trade, l: Locals, ii: int)
    requires ReplayPre(px, t, l, ii)
    ensures var o := Replay(px, t, l, ii);
      && (o.fill.reason.OnOpen() ==>
            t.ibeg < o.exitIndex < |px.op| && o.fill.price == px.op[o.exitIndex])
      && (o.fill.reason.OnClose() || o.fill.reason == MaxDaysLimit || o.fill.reason == ExitOnLast ==>
            0 <= o.exitIndex < |px.cl| && o.fill.price == px.cl[o.exitIndex])
      && (o.fill.reason.TargetIntrabar() ==> o.fill.price == l.targetPrice)
      && (o.fill.reason == StopLimitOnHigh || o.fill.reason == StopLimitOnLow ==>
            !l.hasStopTrailing && o.fill.price == l.stopPrice)
      && (o.fill.reason == StopTrailingOnHigh || o.fill.reason == StopTrailingOnLow ==>
            o.fill.price == o.locals.stopPrice)
  {
    ReplayMarketFill(px, t, l, ii);
    ReplayLevelFill(px, t, l, ii);
  }

  /** The exits at a bar's own prices: the open or the close of the exit bar. */
  lemma {:induction false} ReplayMarketFill(px: Series, t: Trade, l: Locals, ii: int)
    requires ReplayPre(px, t, l, ii)
    ensures var o := Replay(px, t, l, ii);
      && (o.fill.reason.OnOpen() ==>
            t.ibeg < o.exitIndex < |px.op| && o.fill.price == px.op[o.exitIndex])
      && (o.fill.reason.OnClose() || o.fill.reason == MaxDaysLimit || o.fill.reason == ExitOnLast ==>
            0 <= o.exitIndex < |px.cl| && o.fill.price == px.cl[o.exitIndex])
    decreases t.iend + 1 - ii
  {
    if ii <= t.iend {
      var s := BarStep(t.pos < 0, l, BarAt(px, ii));
      BarFillPrice(t.pos < 0, l, BarAt(px, ii));
      if s.fill.None? && !(t.maxDays > 0 && ii - t.ibeg == t.maxDays) {
        ReplayMarketFill(px, t, s.locals, ii + 1);
      }
    }
  }

  /** The exits at a level: the target, the fixed stop, the trailing stop. */
  lemma {:induction false} ReplayLevelFill(px: Series, t: Trade, l: Locals, ii: int)
    requires ReplayPre(px, t, l, ii)
    ensures var o := Replay(px, t, l, ii);
      && (o.fill.reason.TargetIntrabar() ==> o.fill.price == l.targetPrice)
      && (o.fill.reason == StopLimitOnHigh || o.fill.reason == StopLimitOnLow ==>
            !l.hasStopTrailing && o.fill.price == l.stopPrice)
      && (o.fill.reason == StopTrailingOnHigh || o.fill.reason == StopTrailingOnLow ==>
            o.fill.price == o.locals.stopPrice)
    decreases t.iend + 1 - ii
  {
    if ii <= t.iend {
      var s := BarStep(t.pos < 0, l, BarAt(px, ii));
      BarFillPrice(t.pos < 0, l, BarAt(px, ii));
      BarStopFill(t.pos < 0, l, BarAt(px, ii));
      if s.fill.None? && !(t.maxDays > 0 && ii - t.ibeg == t.maxDays) {
        ReplayLevelFill(px, t, s.locals, ii + 1);
      }
    }
  }

  /** The entry set-up: a trailing stop takes precedence over a stop-loss,
      so at most one of them is active; the target is independent; each
      level is the entry price scaled by `1 ± |fraction|` for the side,
      rounded to the tick; the range starts at the entry price. */
  lemma EntryRules(entry: real, short: bool, stopLoss: Val, stopTrailing: Val, profitTarget: Val, tickSize: real)
    requires stopTrailing.Num? || stopLoss.Num? || profitTarget.Num? ==> tickSize != 0.0
    ensures var l := EntryLocals(entry, short, stopLoss, stopTrailing, profitTarget, tickSize);
      && l.minPrice == entry && l.maxPrice == entry
      && l.hasStopTrailing == stopTrailing.Num?
      && l.hasStopLoss == (stopTrailing.NA? && stopLoss.Num?)
      && !(l.hasStopLoss && l.hasStopTrailing)
      && l.hasProfitTarget == profitTarget.Num?
      && (stopTrailing.Num? ==> l.stopPrice == StopLevel(short, entry, stopTrailing.v, tickSize))
      && (l.hasStopLoss ==> l.stopPrice == StopLevel(short, entry, stopLoss.v, tickSize))
      && (profitTarget.Num? ==> l.targetPrice == TargetLevel(short, entry, profitTarget.v, tickSize))
  {
  }

  /** The worked example: a long entered at a close of 100 with a 5% stop-loss
      and a tick of 0.01 meets a bar (open 100, high 101, low 94, close 96):
      the low crosses the stop at 95, so the trade exits there. */
  lemma LongStopExample()
    ensures Simulate(Series([100.0, 100.0], [100.0, 101.0], [100.0, 94.0], [100.0, 96.0]),
                     Trade(0, 1, 1, Num(0.05), NA, NA, 0), 0.01)
         == TradeResult(1, 95.0, StopLimitOnLow, -0.05, 95.0, 101.0, -0.05, 0.01)
  {
    assert Round(9500.0) == 9500;
    assert StopLevel(false, 100.0, 0.05, 0.01) == 95.0 by {
      assert StopFactor(false, 0.05) == 0.95;
      assert Scale(100.0, 0.95) == 95.0;
      assert 95.0 / 0.01 == 9500.0;
    }
    var px := Series([100.0, 100.0], [100.0, 101.0], [100.0, 94.0], [100.0, 96.0]);
    var t := Trade(0, 1, 1, Num(0.05), NA, NA, 0);
    var l0 := EntryLocals(100.0, false, Num(0.05), NA, NA, 0.01);
    assert l0.stopPrice == 95.0 && l0.hasStopLoss && !l0.hasStopTrailing && !l0.hasProfitTarget;
    assert BarAt(px, 1) == Bar(100.0, 101.0, 94.0, 96.0);
  }
}
