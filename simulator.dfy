/**
 * The trade simulator of src/processTrades.cpp: `processTrade` opens a
 * position at the close of bar `ibeg` and replays the bars after it through
 * `processShort` / `processLong` until a rule closes it, the maximum number
 * of days is reached or bar `iend` is passed; `processTrades` runs it for a
 * table of trades.
 */
module Simulator {
  import opened Common
  import opened Bars

  /** The open, high, low and close columns of one price series. */
  datatype Series = Series(op: seq<real>, hi: seq<real>, lo: seq<real>, cl: seq<real>)

  /** One trade to simulate: entry and last bar, side (negative for a short,
      anything else for a long), the three optional exit rules and the
      maximum number of days (not positive: no limit). */
  datatype Trade = Trade(
    ibeg: int, iend: int, pos: int,
    stopLoss: Val, stopTrailing: Val, profitTarget: Val,
    maxDays: int)

  /** The bars a trade reads exist: the entry close, the close of `iend`
      and every bar after the entry up to `iend`. */
  predicate Covers(px: Series, t: Trade)
  {
    && 0 <= t.ibeg < |px.cl| && 0 <= t.iend < |px.cl|
    && (t.ibeg < t.iend ==> t.iend < |px.op| && t.iend < |px.hi| && t.iend < |px.lo|)
  }

  /** Rounding a level to the tick needs a non-zero tick. */
  predicate TickOk(t: Trade, tickSize: real)
  {
    t.stopTrailing.Num? || t.stopLoss.Num? || t.profitTarget.Num? ==> tickSize != 0.0
  }

  /** What `processTrade` needs: the bars exist, the entry price is positive
      (gain, MAE and MFE divide by it) and levels can be rounded. */
  predicate CanSimulate(px: Series, t: Trade, tickSize: real)
  {
    Covers(px, t) && px.cl[t.ibeg] > 0.0 && TickOk(t, tickSize)
  }

  function BarAt(px: Series, i: int): Bar
    requires 0 <= i < |px.op| && i < |px.hi| && i < |px.lo| && i < |px.cl|
  {
    Bar(px.op[i], px.hi[i], px.lo[i], px.cl[i])
  }

  /** The locals right after the entry: the range is the entry price; a
      trailing stop takes precedence over a stop-loss (only one is set); the
      target is independent. Fields the entry does not set stay 0. */
  function EntryLocals(entry: real, short: bool, stopLoss: Val, stopTrailing: Val, profitTarget: Val, tickSize: real): (l: Locals)
    requires stopTrailing.Num? || stopLoss.Num? || profitTarget.Num? ==> tickSize != 0.0
    ensures CanTrail(l) && l.entryPrice == entry
  {
    var l0 := Locals(entry, 0.0, 0.0, entry, entry, 0.0, 0.0, 0.0, tickSize, false, false, false);
    var l1 :=
      if stopTrailing.Num? then
        l0.(hasStopTrailing := true, stopTrailing := stopTrailing.v,
            stopPrice := StopLevel(short, entry, stopTrailing.v, tickSize))
      else if stopLoss.Num? then
        l0.(hasStopLoss := true, stopLoss := stopLoss.v,
            stopPrice := StopLevel(short, entry, stopLoss.v, tickSize))
      else l0;
    if profitTarget.Num? then
      l1.(hasProfitTarget := true, profitTarget := profitTarget.v,
          targetPrice := TargetLevel(short, entry, profitTarget.v, tickSize))
    else l1
  }

  /** Where a replay ends: the final locals, the exit bar and the fill. */
  datatype Outcome = Outcome(locals: Locals, exitIndex: int, fill: Fill)

  predicate ReplayPre(px: Series, t: Trade, l: Locals, ii: int)
  {
    Covers(px, t) && CanTrail(l) && t.ibeg + 1 <= ii
  }

  /** The loop of `processTrade` from bar `ii` on with locals `l`: the bar's
      own rules first, then the maximum-days limit at that bar's close; past
      `iend`, the exit on the last bar at its close. The range only widens
      and the configuration does not change. */
  function Replay(px: Series, t: Trade, l: Locals, ii: int): (o: Outcome)
    requires ReplayPre(px, t, l, ii)
    ensures SameConfig(l, o.locals) && CanTrail(o.locals)
    ensures o.locals.minPrice <= l.minPrice && o.locals.maxPrice >= l.maxPrice
    ensures ii <= t.iend ==> ii <= o.exitIndex <= t.iend
    decreases t.iend + 1 - ii
  {
    if ii > t.iend then
      Outcome(l, t.iend, Fill(px.cl[t.iend], ExitOnLast))
    else
      var s := BarStep(t.pos < 0, l, BarAt(px, ii));
      if s.fill.Some? then
        Outcome(s.locals, ii, s.fill.value)
      else if t.maxDays > 0 && ii - t.ibeg == t.maxDays then
        Outcome(s.locals, ii, Fill(px.cl[ii], MaxDaysLimit))
      else
        Replay(px, t, s.locals, ii + 1)
  }

  /** What `processTrade` reports. */
  datatype TradeResult = TradeResult(
    exitIndex: int, exitPrice: real, exitReason: ExitReason,
    gain: real, minPrice: real, maxPrice: real, mae: real, mfe: real)

  /** The return of a short entered at `entry` and valued at `price`. */
  function ShortReturn(price: real, entry: real): real
    requires entry != 0.0
  {
    1.0 - price / entry
  }

  /** The return of a long entered at `entry` and valued at `price`. */
  function LongReturn(price: real, entry: real): real
    requires entry != 0.0
  {
    price / entry - 1.0
  }

  /** `processTrade` on values. */
  function Simulate(px: Series, t: Trade, tickSize: real): TradeResult
    requires CanSimulate(px, t, tickSize)
  {
    var short := t.pos < 0;
    var o := Replay(px, t, EntryLocals(px.cl[t.ibeg], short, t.stopLoss, t.stopTrailing, t.profitTarget, tickSize), t.ibeg + 1);
    var m := o.locals;
    if short then
      TradeResult(o.exitIndex, o.fill.price, o.fill.reason, ShortReturn(o.fill.price, m.entryPrice),
                  m.minPrice, m.maxPrice, ShortReturn(m.maxPrice, m.entryPrice), ShortReturn(m.minPrice, m.entryPrice))
    else
      TradeResult(o.exitIndex, o.fill.price, o.fill.reason, LongReturn(o.fill.price, m.entryPrice),
                  m.minPrice, m.maxPrice, LongReturn(m.minPrice, m.entryPrice), LongReturn(m.maxPrice, m.entryPrice))
  }

  /** `processTrade`: simulates one trade on a fresh `TradeLocals` record. */
  method ProcessTrade(
    op: seq<real>, hi: seq<real>, lo: seq<real>, cl: seq<real>,
    ibeg: int, iend: int, pos: int,
    stopLoss: Val, stopTrailing: Val, profitTarget: Val,
    maxDays: int, tickSize: real)
    returns (exitIndex: int, exitPrice: real, exitReason: ExitReason,
             gain: real, minPrice: real, maxPrice: real, mae: real, mfe: real)
    requires CanSimulate(Series(op, hi, lo, cl), Trade(ibeg, iend, pos, stopLoss, stopTrailing, profitTarget, maxDays), tickSize)
    ensures TradeResult(exitIndex, exitPrice, exitReason, gain, minPrice, maxPrice, mae, mfe)
         == Simulate(Series(op, hi, lo, cl), Trade(ibeg, iend, pos, stopLoss, stopTrailing, profitTarget, maxDays), tickSize)
  {
    ghost var px := Series(op, hi, lo, cl);
    ghost var t := Trade(ibeg, iend, pos, stopLoss, stopTrailing, profitTarget, maxDays);
    var locals := new TradeLocals();
    locals.hasStopLoss := false;
    locals.hasStopTrailing := false;
    locals.hasProfitTarget := false;
    locals.tickSize := tickSize;
    // Positions are entered at the close of `ibeg`.
    locals.entryPrice := cl[ibeg];
    locals.maxPrice := locals.entryPrice;
    locals.minPrice := locals.entryPrice;

    SetLevels(locals, pos, stopLoss, stopTrailing, profitTarget, tickSize);

    exitIndex, exitPrice, exitReason := ReplayBars(op, hi, lo, cl, ibeg, iend, pos, maxDays, locals, t);

    if pos < 0 {
      gain := ShortReturn(exitPrice, locals.entryPrice);
      mae := ShortReturn(locals.maxPrice, locals.entryPrice);
      mfe := ShortReturn(locals.minPrice, locals.entryPrice);
    } else {
      gain := LongReturn(exitPrice, locals.entryPrice);
      mae := LongReturn(locals.minPrice, locals.entryPrice);
      mfe := LongReturn(locals.maxPrice, locals.entryPrice);
    }
    minPrice := locals.minPrice;
    maxPrice := locals.maxPrice;
  }

  /** The level set-up at the head of `processTrade`: the active rules and
      their levels around the entry price, for the side given by `pos`. */
  method SetLevels(locals: TradeLocals, pos: int, stopLoss: Val, stopTrailing: Val, profitTarget: Val, tickSize: real)
    requires stopTrailing.Num? || stopLoss.Num? || profitTarget.Num? ==> tickSize != 0.0
    requires var e := locals.entryPrice;
      locals.Value() == Locals(e, 0.0, 0.0, e, e, 0.0, 0.0, 0.0, tickSize, false, false, false)
    modifies locals
    ensures locals.Value() == EntryLocals(old(locals.entryPrice), pos < 0, stopLoss, stopTrailing, profitTarget, tickSize)
  {
    if pos < 0 {
      if stopTrailing.Num? {
        locals.hasStopTrailing := true;
        locals.stopTrailing := stopTrailing.v;
        locals.stopPrice := StopLevel(true, locals.entryPrice, stopTrailing.v, tickSize);
      } else if stopLoss.Num? {
        locals.hasStopLoss := true;
        locals.stopLoss := stopLoss.v;
        locals.stopPrice := StopLevel(true, locals.entryPrice, stopLoss.v, tickSize);
      }
      if profitTarget.Num? {
        locals.targetPrice := TargetLevel(true, locals.entryPrice, profitTarget.v, tickSize);
        locals.profitTarget := profitTarget.v;
        locals.hasProfitTarget := true;
      }
    } else {
      if stopTrailing.Num? {
        locals.hasStopTrailing := true;
        locals.stopTrailing := stopTrailing.v;
        locals.stopPrice := StopLevel(false, locals.entryPrice, stopTrailing.v, tickSize);
      } else if stopLoss.Num? {
        locals.hasStopLoss := true;
        locals.stopLoss := stopLoss.v;
        locals.stopPrice := StopLevel(false, locals.entryPrice, stopLoss.v, tickSize);
      }
      if profitTarget.Num? {
        locals.hasProfitTarget := true;
        locals.profitTarget := profitTarget.v;
        locals.targetPrice := TargetLevel(false, locals.entryPrice, profitTarget.v, tickSize);
      }
    }
  }

  /** The bar loop of `processTrade` (written twice in the C++, once per
      side, with `processShort` or `processLong`): replays the bars after the
      entry, stops at the first rule that fires or at the day limit, and
      otherwise exits at the close of `iend`. */
  method ReplayBars(
    op: seq<real>, hi: seq<real>, lo: seq<real>, cl: seq<real>,
    ibeg: int, iend: int, pos: int, maxDays: int,
    locals: TradeLocals, ghost t: Trade)
    returns (exitIndex: int, exitPrice: real, exitReason: ExitReason)
    requires t.ibeg == ibeg && t.iend == iend && t.pos == pos && t.maxDays == maxDays
    requires ReplayPre(Series(op, hi, lo, cl), t, locals.Value(), ibeg + 1)
    modifies locals
    ensures Replay(Series(op, hi, lo, cl), t, old(locals.Value()), ibeg + 1)
         == Outcome(locals.Value(), exitIndex, Fill(exitPrice, exitReason))
  {
    ghost var px := Series(op, hi, lo, cl);
    ghost var l0 := locals.Value();
    // Every path below sets the exit: a rule, the day limit or the last bar.
    exitPrice, exitReason := 0.0, ExitOnLast;
    var ii := ibeg + 1;
    while ii <= iend
      invariant ibeg + 1 <= ii && (ii <= iend + 1 || ii == ibeg + 1)
      invariant ReplayPre(px, t, locals.Value(), ii)
      invariant Replay(px, t, locals.Value(), ii) == Replay(px, t, l0, ibeg + 1)
      decreases iend + 1 - ii
    {
      ghost var lb := locals.Value();
      var exited, p, r;
      if pos < 0 {
        exited, p, r := ProcessShort(op[ii], hi[ii], lo[ii], cl[ii], locals);
      } else {
        exited, p, r := ProcessLong(op[ii], hi[ii], lo[ii], cl[ii], locals);
      }
      assert Bar(op[ii], hi[ii], lo[ii], cl[ii]) == BarAt(px, ii);
      if exited {
        exitPrice, exitReason := p, r;
        assert Replay(px, t, lb, ii) == Outcome(locals.Value(), ii, Fill(exitPrice, exitReason));
        break;
      }
      // Maximum days for the trade reached
      if maxDays > 0 && ii - ibeg == maxDays {
        exitPrice, exitReason := cl[ii], MaxDaysLimit;
        assert Replay(px, t, lb, ii) == Outcome(locals.Value(), ii, Fill(exitPrice, exitReason));
        break;
      }
      ii := ii + 1;
    }
    if ii > iend {
      exitPrice, exitReason := cl[iend], ExitOnLast;
      ii := iend;
    }
    exitIndex := ii;
  }

  /** The trades of `processTrades`, as parallel columns. */
  datatype TradeTable = TradeTable(
    ibeg: seq<int>, iend: seq<int>, position: seq<int>,
    stopLoss: seq<Val>, stopTrailing: seq<Val>, profitTarget: seq<Val>,
    maxDays: seq<int>)
  {
    /** Every column has a value for each entry of `ibeg`. */
    predicate Complete()
    {
      && |iend| >= |ibeg| && |position| >= |ibeg|
      && |stopLoss| >= |ibeg| && |stopTrailing| >= |ibeg| && |profitTarget| >= |ibeg|
      && |maxDays| >= |ibeg|
    }

    /** Row `k` of the table. */
    function Row(k: int): Trade
      requires Complete() && 0 <= k < |ibeg|
    {
      Trade(ibeg[k], iend[k], position[k], stopLoss[k], stopTrailing[k], profitTarget[k], maxDays[k])
    }
  }

  /** `processTrades`: simulates every trade of the table on its own and
      returns the eight result columns, one entry per trade in input order
      (the C++ clears its output vectors and appends to them). */
  method ProcessTrades(
    op: seq<real>, hi: seq<real>, lo: seq<real>, cl: seq<real>,
    ibeg: seq<int>, iend: seq<int>, position: seq<int>,
    stopLoss: seq<Val>, stopTrailing: seq<Val>, profitTarget: seq<Val>,
    maxDays: seq<int>, tickSize: real)
    returns (iendOut: seq<int>, exitPriceOut: seq<real>, gainOut: seq<real>,
             minPriceOut: seq<real>, maxPriceOut: seq<real>,
             maeOut: seq<real>, mfeOut: seq<real>, exitReasonOut: seq<int>)
    requires TradeTable(ibeg, iend, position, stopLoss, stopTrailing, profitTarget, maxDays).Complete()
    requires forall k :: 0 <= k < |ibeg| ==>
      CanSimulate(Series(op, hi, lo, cl), TradeTable(ibeg, iend, position, stopLoss, stopTrailing, profitTarget, maxDays).Row(k), tickSize)
    ensures |iendOut| == |exitPriceOut| == |gainOut| == |minPriceOut| == |maxPriceOut| == |ibeg|
    ensures |maeOut| == |mfeOut| == |exitReasonOut| == |ibeg|
    ensures forall k :: 0 <= k < |ibeg| ==>
      var r := Simulate(Series(op, hi, lo, cl), TradeTable(ibeg, iend, position, stopLoss, stopTrailing, profitTarget, maxDays).Row(k), tickSize);
      && iendOut[k] == r.exitIndex && exitPriceOut[k] == r.exitPrice && gainOut[k] == r.gain
      && minPriceOut[k] == r.minPrice && maxPriceOut[k] == r.maxPrice
      && maeOut[k] == r.mae && mfeOut[k] == r.mfe && exitReasonOut[k] == r.exitReason.Code()
  {
    ghost var px := Series(op, hi, lo, cl);
    ghost var table := TradeTable(ibeg, iend, position, stopLoss, stopTrailing, profitTarget, maxDays);
    iendOut, exitPriceOut, gainOut, minPriceOut, maxPriceOut := [], [], [], [], [];
    maeOut, mfeOut, exitReasonOut := [], [], [];
    var ii := 0;
    while ii < |ibeg|
      invariant 0 <= ii <= |ibeg|
      invariant |iendOut| == |exitPriceOut| == |gainOut| == |minPriceOut| == |maxPriceOut| == ii
      invariant |maeOut| == |mfeOut| == |exitReasonOut| == ii
      invariant forall k :: 0 <= k < ii ==>
        var r := Simulate(px, table.Row(k), tickSize);
        && iendOut[k] == r.exitIndex && exitPriceOut[k] == r.exitPrice && gainOut[k] == r.gain
        && minPriceOut[k] == r.minPrice && maxPriceOut[k] == r.maxPrice
        && maeOut[k] == r.mae && mfeOut[k] == r.mfe && exitReasonOut[k] == r.exitReason.Code()
    {
      assert CanSimulate(px, table.Row(ii), tickSize);
      var exitIndex, exitPrice, exitReason, gain, minPrice, maxPrice, mae, mfe :=
        ProcessTrade(op, hi, lo, cl, ibeg[ii], iend[ii], position[ii],
                     stopLoss[ii], stopTrailing[ii], profitTarget[ii], maxDays[ii], tickSize);
      iendOut := iendOut + [exitIndex];
      exitPriceOut := exitPriceOut + [exitPrice];
      minPriceOut := minPriceOut + [minPrice];
      maxPriceOut := maxPriceOut + [maxPrice];
      gainOut := gainOut + [gain];
      maeOut := maeOut + [mae];
      mfeOut := mfeOut + [mfe];
      exitReasonOut := exitReasonOut + [exitReason.Code()];
      ii := ii + 1;
    }
  }
}
