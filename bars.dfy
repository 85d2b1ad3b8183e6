/**
 * The per-bar exit rules of the trade simulator (src/processTrades.cpp):
 * the exit reason codes, the working state of one trade (`TradeLocals`) and
 * `processShort` / `processLong`, which replay one open/high/low/close bar
 * against the stop, trailing stop and profit target of an open position.
 */
module Bars {
  import opened Common

  /** The fourteen exit reasons; `Code` gives the stable integer identifier. */
  datatype ExitReason =
    | ExitOnLast
    | StopLimitOnOpen | StopLimitOnHigh | StopLimitOnLow | StopLimitOnClose
    | StopTrailingOnOpen | StopTrailingOnHigh | StopTrailingOnLow | StopTrailingOnClose
    | ProfitTargetOnOpen | ProfitTargetOnHigh | ProfitTargetOnLow | ProfitTargetOnClose
    | MaxDaysLimit
  {
    function Code(): int
    {
      match this
      case ExitOnLast => 0
      case StopLimitOnOpen => 1
      case StopLimitOnHigh => 2
      case StopLimitOnLow => 3
      case StopLimitOnClose => 4
      case StopTrailingOnOpen => 5
      case StopTrailingOnHigh => 6
      case StopTrailingOnLow => 7
      case StopTrailingOnClose => 8
      case ProfitTargetOnOpen => 9
      case ProfitTargetOnHigh => 10
      case ProfitTargetOnLow => 11
      case ProfitTargetOnClose => 12
      case MaxDaysLimit => 13
    }

    predicate OnOpen()
    {
      this == StopLimitOnOpen || this == StopTrailingOnOpen || this == ProfitTargetOnOpen
    }

    predicate OnClose()
    {
      this == StopLimitOnClose || this == StopTrailingOnClose || this == ProfitTargetOnClose
    }

    /** A stop (fixed or trailing) hit inside the bar, at the high or the low. */
    predicate StopIntrabar()
    {
      this == StopLimitOnHigh || this == StopLimitOnLow
      || this == StopTrailingOnHigh || this == StopTrailingOnLow
    }

    /** The profit target hit inside the bar. */
    predicate TargetIntrabar()
    {
      this == ProfitTargetOnHigh || this == ProfitTargetOnLow
    }
  }

  /** The codes are distinct and lie in 0..13. */
  lemma CodesDistinct(a: ExitReason, b: ExitReason)
    ensures 0 <= a.Code() <= 13
    ensures a.Code() == b.Code() ==> a == b
  {
  }

  /** One price bar. */
  datatype Bar = Bar(op: real, hi: real, lo: real, cl: real)

  /** An exit: the fill price and the reason. */
  datatype Fill = Fill(price: real, reason: ExitReason)

  /** The value of a `TradeLocals` record. */
  datatype Locals = Locals(
    entryPrice: real, stopPrice: real, targetPrice: real,
    minPrice: real, maxPrice: real,
    stopLoss: real, stopTrailing: real, profitTarget: real,
    tickSize: real,
    hasStopLoss: bool, hasStopTrailing: bool, hasProfitTarget: bool)

  /** A trailing stop can be recomputed: the tick size is not zero. */
  predicate CanTrail(l: Locals)
  {
    l.hasStopTrailing ==> l.tickSize != 0.0
  }

  /** What a bar may change: the stop level and the running range; the
      entry price, the configured parameters and the flags stay. */
  predicate SameConfig(l: Locals, l': Locals)
  {
    && l'.entryPrice == l.entryPrice && l'.targetPrice == l.targetPrice
    && l'.stopLoss == l.stopLoss && l'.stopTrailing == l.stopTrailing
    && l'.profitTarget == l.profitTarget && l'.tickSize == l.tickSize
    && l'.hasStopLoss == l.hasStopLoss && l'.hasStopTrailing == l.hasStopTrailing
    && l'.hasProfitTarget == l.hasProfitTarget
  }

  /** The outcome of one bar: the new locals and, if the position closed,
      the fill. */
  datatype Step = Step(locals: Locals, fill: Option<Fill>)

  datatype Option<T> = None | Some(value: T)

  /** The factor `1 ± |frac|` of a stop: above the price for a short,
      below it for a long. */
  function StopFactor(short: bool, frac: real): real
  {
    if short then 1.0 + Abs(frac) else 1.0 - Abs(frac)
  }

  /** The factor of a profit target: below the price for a short, above it
      for a long. */
  function TargetFactor(short: bool, frac: real): real
  {
    if short then 1.0 - Abs(frac) else 1.0 + Abs(frac)
  }

  /** A price times a factor. */
  function Scale(price: real, factor: real): real
  {
    price * factor
  }

  lemma ScaleMonotone(p: real, q: real, factor: real)
    requires p <= q && factor >= 0.0
    ensures Scale(p, factor) <= Scale(q, factor)
  {
    MulMonotone(p, q, factor);
  }

  /** A stop level: `price` times the stop factor, rounded to the tick. */
  function StopLevel(short: bool, price: real, frac: real, tickSize: real): real
    requires tickSize != 0.0
  {
    RoundAny(Scale(price, StopFactor(short, frac)), tickSize)
  }

  /** A profit-target level: `price` times the target factor, rounded to the tick. */
  function TargetLevel(short: bool, price: real, frac: real, tickSize: real): real
    requires tickSize != 0.0
  {
    RoundAny(Scale(price, TargetFactor(short, frac)), tickSize)
  }

  /** The trailing stop of a short follows a new low: from the open a tie
      counts (`<=`), from the low only a strictly lower price (`<`). */
  function ShortTrail(l: Locals, price: real, tieCounts: bool): (r: Locals)
    requires CanTrail(l)
  {
    if l.hasStopTrailing && (price < l.minPrice || (tieCounts && price == l.minPrice))
    then l.(minPrice := price, stopPrice := StopLevel(true, price, l.stopTrailing, l.tickSize))
    else l
  }

  /** The trailing stop of a long follows a strictly higher price. */
  function LongTrail(l: Locals, price: real): (r: Locals)
    requires CanTrail(l)
  {
    if l.hasStopTrailing && price > l.maxPrice
    then l.(maxPrice := price, stopPrice := StopLevel(false, price, l.stopTrailing, l.tickSize))
    else l
  }

  /** The running range after seeing the low and the high of a bar. */
  function SeeRange(l: Locals, b: Bar): Locals
  {
    l.(minPrice := Min(b.lo, l.minPrice), maxPrice := Max(b.hi, l.maxPrice))
  }

  /** `processShort` on values. */
  function ShortBar(l: Locals, b: Bar): (r: Step)
    requires CanTrail(l)
    ensures SameConfig(l, r.locals)
    ensures r.locals.minPrice <= l.minPrice && r.locals.maxPrice >= l.maxPrice
  {
    // The open: stop first, then the target.
    if l.hasStopTrailing && b.op >= l.stopPrice then
      Step(l.(minPrice := Min(b.op, l.minPrice), maxPrice := Max(b.op, l.maxPrice)),
           Some(Fill(b.op, StopTrailingOnOpen)))
    else if !l.hasStopTrailing && l.hasStopLoss && b.op >= l.stopPrice then
      Step(l.(minPrice := Min(b.op, l.minPrice), maxPrice := Max(b.op, l.maxPrice)),
           Some(Fill(b.op, StopLimitOnOpen)))
    else if l.hasProfitTarget && b.op <= l.targetPrice then
      Step(l.(minPrice := Min(b.op, l.minPrice), maxPrice := Max(b.op, l.maxPrice)),
           Some(Fill(b.op, ProfitTargetOnOpen)))
    else
      // Trailing update from the open (a tie counts).
      ShortInside(ShortTrail(l, b.op, true), b)
  }

  /** The rest of `processShort` once the open has closed nothing, from the
      locals after the trailing update from the open. */
  function ShortInside(l1: Locals, b: Bar): (r: Step)
    requires CanTrail(l1)
    ensures SameConfig(l1, r.locals)
    ensures r.locals.minPrice <= l1.minPrice && r.locals.maxPrice >= l1.maxPrice
  {
    // The high: stop first, then the target at the low.
    if l1.hasStopTrailing && b.hi >= l1.stopPrice then
      Step(l1.(maxPrice := Max(l1.maxPrice, l1.stopPrice)),
           Some(Fill(l1.stopPrice, StopTrailingOnHigh)))
    else if !l1.hasStopTrailing && l1.hasStopLoss && b.hi >= l1.stopPrice then
      Step(l1.(minPrice := Min(b.lo, l1.minPrice), maxPrice := Max(l1.stopPrice, l1.maxPrice)),
           Some(Fill(l1.stopPrice, StopLimitOnHigh)))
    else if l1.hasProfitTarget && b.lo <= l1.targetPrice then
      Step(l1.(minPrice := Min(l1.targetPrice, l1.minPrice), maxPrice := Max(b.hi, l1.maxPrice)),
           Some(Fill(l1.targetPrice, ProfitTargetOnLow)))
    else
      // Trailing update from the low, then the whole range of the bar.
      var l3 := SeeRange(ShortTrail(l1, b.lo, false), b);
      // The close.
      if l3.hasStopTrailing && b.cl >= l3.stopPrice then
        Step(l3, Some(Fill(b.cl, StopTrailingOnClose)))
      else if !l3.hasStopTrailing && l3.hasStopLoss && b.cl >= l3.stopPrice then
        Step(l3, Some(Fill(b.cl, StopLimitOnClose)))
      else if l3.hasProfitTarget && b.cl <= l3.targetPrice then
        Step(l3, Some(Fill(b.cl, ProfitTargetOnClose)))
      else
        Step(l3, None)
  }

  /** `processLong` on values. Unlike the short side there is no close check
      for a fixed stop nor for the target, and the trailing update from the
      open needs a strictly higher open. */
  function LongBar(l: Locals, b: Bar): (r: Step)
    requires CanTrail(l)
    ensures SameConfig(l, r.locals)
    ensures r.locals.minPrice <= l.minPrice && r.locals.maxPrice >= l.maxPrice
  {
    if l.hasStopTrailing && b.op <= l.stopPrice then
      Step(l.(minPrice := Min(b.op, l.minPrice), maxPrice := Max(b.op, l.maxPrice)),
           Some(Fill(b.op, StopTrailingOnOpen)))
    else if !l.hasStopTrailing && l.hasStopLoss && b.op <= l.stopPrice then
      Step(l.(minPrice := Min(b.op, l.minPrice), maxPrice := Max(b.op, l.maxPrice)),
           Some(Fill(b.op, StopLimitOnOpen)))
    else if l.hasProfitTarget && b.op >= l.targetPrice then
      Step(l.(minPrice := Min(b.op, l.minPrice), maxPrice := Max(b.op, l.maxPrice)),
           Some(Fill(b.op, ProfitTargetOnOpen)))
    else
      LongInside(LongTrail(l, b.op), b)
  }

  /** The rest of `processLong` once the open has closed nothing, from the
      locals after the trailing update from the open. */
  function LongInside(l1: Locals, b: Bar): (r: Step)
    requires CanTrail(l1)
    ensures SameConfig(l1, r.locals)
    ensures r.locals.minPrice <= l1.minPrice && r.locals.maxPrice >= l1.maxPrice
  {
    if l1.hasStopTrailing && b.lo <= l1.stopPrice then
      Step(l1.(minPrice := Min(l1.minPrice, l1.stopPrice)),
           Some(Fill(l1.stopPrice, StopTrailingOnLow)))
    else if !l1.hasStopTrailing && l1.hasStopLoss && b.lo <= l1.stopPrice then
      Step(l1.(minPrice := Min(l1.stopPrice, l1.minPrice), maxPrice := Max(b.hi, l1.maxPrice)),
           Some(Fill(l1.stopPrice, StopLimitOnLow)))
    else if l1.hasProfitTarget && b.hi >= l1.targetPrice then
      Step(l1.(minPrice := Min(b.lo, l1.minPrice), maxPrice := Max(l1.targetPrice, l1.maxPrice)),
           Some(Fill(l1.targetPrice, ProfitTargetOnHigh)))
    else
      var l3 := SeeRange(LongTrail(l1, b.hi), b);
      if l3.hasStopTrailing && b.cl <= l3.stopPrice then
        Step(l3, Some(Fill(b.cl, StopTrailingOnClose)))
      else
        Step(l3, None)
  }

  /** One bar for either side; `pos == 0` is handled as a long. */
  function BarStep(short: bool, l: Locals, b: Bar): (r: Step)
    requires CanTrail(l)
    ensures SameConfig(l, r.locals) && CanTrail(r.locals)
  {
    if short then ShortBar(l, b) else LongBar(l, b)
  }

  /** The working state of one simulated trade, updated in place bar by bar. */
  class TradeLocals {
    var entryPrice: real
    var stopPrice: real
    var targetPrice: real
    var minPrice: real
    var maxPrice: real
    var stopLoss: real
    var stopTrailing: real
    var profitTarget: real
    var tickSize: real
    var hasStopLoss: bool
    var hasStopTrailing: bool
    var hasProfitTarget: bool

    /** The record's current value. */
    function Value(): Locals
      reads this
    {
      Locals(entryPrice, stopPrice, targetPrice, minPrice, maxPrice,
             stopLoss, stopTrailing, profitTarget, tickSize,
             hasStopLoss, hasStopTrailing, hasProfitTarget)
    }

    /** All three rules start inactive. The prices the C++ constructor
        leaves uninitialised start at 0. */
    constructor ()
      ensures !hasStopLoss && !hasStopTrailing && !hasProfitTarget
      ensures Value() == Locals(0.0, 0.0, 0.0, 0.0, 0.0, 0.0, 0.0, 0.0, 0.0, false, false, false)
    {
      entryPrice, stopPrice, targetPrice := 0.0, 0.0, 0.0;
      minPrice, maxPrice := 0.0, 0.0;
      stopLoss, stopTrailing, profitTarget := 0.0, 0.0, 0.0;
      tickSize := 0.0;
      hasStopLoss, hasStopTrailing, hasProfitTarget := false, false, false;
    }
  }

  /** The trailing-stop update of a short: a new low (a tie too, when
      `tieCounts`) becomes the running minimum and the stop is put back at
      the trailing distance above it, rounded to the tick. */
  method TrailShort(locals: TradeLocals, price: real, tieCounts: bool)
    requires CanTrail(locals.Value())
    modifies locals
    ensures locals.Value() == ShortTrail(old(locals.Value()), price, tieCounts)
  {
    if locals.hasStopTrailing && (price < locals.minPrice || (tieCounts && price == locals.minPrice)) {
      var stop := StopLevel(true, price, locals.stopTrailing, locals.tickSize);
      locals.minPrice := price;
      locals.stopPrice := stop;
    }
  }

  /** The trailing-stop update of a long: a strictly higher price becomes the
      running maximum and the stop is put back at the trailing distance
      below it, rounded to the tick. */
  method TrailLong(locals: TradeLocals, price: real)
    requires CanTrail(locals.Value())
    modifies locals
    ensures locals.Value() == LongTrail(old(locals.Value()), price)
  {
    if locals.hasStopTrailing && price > locals.maxPrice {
      var stop := StopLevel(false, price, locals.stopTrailing, locals.tickSize);
      locals.maxPrice := price;
      locals.stopPrice := stop;
    }
  }

  /** `processShort`: replays one bar of a short position, updating `locals`;
      returns whether the position was closed, and then at what price and
      for what reason. */
  method ProcessShort(op: real, hi: real, lo: real, cl: real, locals: TradeLocals)
    returns (exited: bool, exitPrice: real, exitReason: ExitReason)
    requires CanTrail(locals.Value())
    modifies locals
    ensures var r := ShortBar(old(locals.Value()), Bar(op, hi, lo, cl));
      && locals.Value() == r.locals
      && exited == r.fill.Some?
      && (exited ==> r.fill.value == Fill(exitPrice, exitReason))
  {
    // The open
    if locals.hasStopTrailing {
      if op >= locals.stopPrice {
        exitPrice, exitReason := op, StopTrailingOnOpen;
        locals.minPrice := Min(op, locals.minPrice);
        locals.maxPrice := Max(op, locals.maxPrice);
        return true, exitPrice, exitReason;
      }
    } else if locals.hasStopLoss {
      if op >= locals.stopPrice {
        exitPrice, exitReason := op, StopLimitOnOpen;
        locals.minPrice := Min(op, locals.minPrice);
        locals.maxPrice := Max(op, locals.maxPrice);
        return true, exitPrice, exitReason;
      }
    }
    if locals.hasProfitTarget {
      if op <= locals.targetPrice {
        exitPrice, exitReason := op, ProfitTargetOnOpen;
        locals.minPrice := Min(op, locals.minPrice);
        locals.maxPrice := Max(op, locals.maxPrice);
        return true, exitPrice, exitReason;
      }
    }
    // A new low from the open moves the trailing stop (a tie counts).
    TrailShort(locals, op, true);
    // The inside of the bar
    if locals.hasStopTrailing {
      if hi >= locals.stopPrice {
        exitPrice, exitReason := locals.stopPrice, StopTrailingOnHigh;
        // The high is taken to come before the low: the low is not seen.
        locals.maxPrice := Max(locals.maxPrice, locals.stopPrice);
        return true, exitPrice, exitReason;
      }
    } else if locals.hasStopLoss {
      if hi >= locals.stopPrice {
        exitPrice, exitReason := locals.stopPrice, StopLimitOnHigh;
        locals.minPrice := Min(lo, locals.minPrice);
        locals.maxPrice := Max(locals.stopPrice, locals.maxPrice);
        return true, exitPrice, exitReason;
      }
    }
    if locals.hasProfitTarget {
      if lo <= locals.targetPrice {
        exitPrice, exitReason := locals.targetPrice, ProfitTargetOnLow;
        locals.minPrice := Min(locals.targetPrice, locals.minPrice);
        locals.maxPrice := Max(hi, locals.maxPrice);
        return true, exitPrice, exitReason;
      }
    }
    TrailShort(locals, lo, false);
    locals.minPrice := Min(lo, locals.minPrice);
    locals.maxPrice := Max(hi, locals.maxPrice);
        // The close
    if locals.hasStopTrailing {
      if cl >= locals.stopPrice {
        return true, cl, StopTrailingOnClose;
      }
    } else if locals.hasStopLoss {
      if cl >= locals.stopPrice {
        return true, cl, StopLimitOnClose;
      }
    }
    if locals.hasProfitTarget {
      if cl <= locals.targetPrice {
        return true, cl, ProfitTargetOnClose;
      }
    }
    // The C++ leaves the caller's exit variables alone here; nothing reads them.
    exited, exitPrice, exitReason := false, 0.0, ExitOnLast;
  }

  /** `processLong`: replays one bar of a long position, updating `locals`. */
  method ProcessLong(op: real, hi: real, lo: real, cl: real, locals: TradeLocals)
    returns (exited: bool, exitPrice: real, exitReason: ExitReason)
    requires CanTrail(locals.Value())
    modifies locals
    ensures var r := LongBar(old(locals.Value()), Bar(op, hi, lo, cl));
      && locals.Value() == r.locals
      && exited == r.fill.Some?
      && (exited ==> r.fill.value == Fill(exitPrice, exitReason))
  {
    // The open
    if locals.hasStopTrailing {
      if op <= locals.stopPrice {
        exitPrice, exitReason := op, StopTrailingOnOpen;
        locals.minPrice := Min(op, locals.minPrice);
        locals.maxPrice := Max(op, locals.maxPrice);
        return true, exitPrice, exitReason;
      }
    } else if locals.hasStopLoss {
      if op <= locals.stopPrice {
        exitPrice, exitReason := op, StopLimitOnOpen;
        locals.minPrice := Min(op, locals.minPrice);
        locals.maxPrice := Max(op, locals.maxPrice);
        return true, exitPrice, exitReason;
      }
    }
    if locals.hasProfitTarget {
      if op >= locals.targetPrice {
        exitPrice, exitReason := op, ProfitTargetOnOpen;
        locals.minPrice := Min(op, locals.minPrice);
        locals.maxPrice := Max(op, locals.maxPrice);
        return true, exitPrice, exitReason;
      }
    }
    TrailLong(locals, op);
    // The inside of the bar
    if locals.hasStopTrailing {
      if lo <= locals.stopPrice {
        exitPrice, exitReason := locals.stopPrice, StopTrailingOnLow;
        // The low is taken to come before the high: the high is not seen.
        locals.minPrice := Min(locals.minPrice, locals.stopPrice);
        return true, exitPrice, exitReason;
      }
    } else if locals.hasStopLoss {
      if lo <= locals.stopPrice {
        exitPrice, exitReason := locals.stopPrice, StopLimitOnLow;
        locals.minPrice := Min(locals.stopPrice, locals.minPrice);
        locals.maxPrice := Max(hi, locals.maxPrice);
        return true, exitPrice, exitReason;
      }
    }
    if locals.hasProfitTarget {
      if hi >= locals.targetPrice {
        exitPrice, exitReason := locals.targetPrice, ProfitTargetOnHigh;
        locals.minPrice := Min(lo, locals.minPrice);
        locals.maxPrice := Max(locals.targetPrice, locals.maxPrice);
        return true, exitPrice, exitReason;
      }
    }
    TrailLong(locals, hi);
    locals.minPrice := Min(lo, locals.minPrice);
    locals.maxPrice := Max(hi, locals.maxPrice);
        // The close: only the trailing stop is checked again.
    if locals.hasStopTrailing {
      if cl <= locals.stopPrice {
        return true, cl, StopTrailingOnClose;
      }
    }
    // The C++ leaves the caller's exit variables alone here; nothing reads them.
    exited, exitPrice, exitReason := false, 0.0, ExitOnLast;
  }

  /** A bar whose open and close lie between its low and its high. */
  predicate WellFormed(b: Bar)
  {
    b.lo <= b.op <= b.hi && b.lo <= b.cl <= b.hi
  }

  /** The stop after the trailing update from the open: the level that the
      intrabar stop checks compare against. */
  function StopAfterOpen(short: bool, l: Locals, b: Bar): real
    requires CanTrail(l)
  {
    if short then ShortTrail(l, b.op, true).stopPrice else LongTrail(l, b.op).stopPrice
  }

  /** Fill prices: an exit at the open fills at the open, an intrabar stop at
      the stop level in force after the open, an intrabar target at the
      target level, an exit at the close at the close. A bar never reports
      the last-bar or the maximum-days reason, a short's intrabar exits are
      the stop at the high and the target at the low, a long's the stop at
      the low and the target at the high. */
  lemma BarFillPrice(short: bool, l: Locals, b: Bar)
    requires CanTrail(l)
    ensures var s := BarStep(short, l, b);
      s.fill.Some? ==>
        var f := s.fill.value;
        && (f.reason.OnOpen() ==> f.price == b.op)
        && (f.reason.StopIntrabar() ==> f.price == StopAfterOpen(short, l, b))
        && (f.reason.TargetIntrabar() ==> f.price == l.targetPrice)
        && (f.reason.OnClose() ==> f.price == b.cl)
        && f.reason != ExitOnLast && f.reason != MaxDaysLimit
        && (short ==> f.reason != StopLimitOnLow && f.reason != StopTrailingOnLow && f.reason != ProfitTargetOnHigh)
        && (!short ==> f.reason != StopLimitOnHigh && f.reason != StopTrailingOnHigh && f.reason != ProfitTargetOnLow)
  {
  }

  /** A fixed stop never moves, and an intrabar stop exit leaves the stop
      at its fill price; the fixed-stop codes are used exactly when no
      trailing stop is on. */
  lemma BarStopFill(short: bool, l: Locals, b: Bar)
    requires CanTrail(l)
    ensures var s := BarStep(short, l, b);
      && (!l.hasStopTrailing ==> s.locals.stopPrice == l.stopPrice)
      && (s.fill.Some? && s.fill.value.reason.StopIntrabar() ==>
            && s.fill.value.price == s.locals.stopPrice
            && ((s.fill.value.reason == StopLimitOnHigh || s.fill.value.reason == StopLimitOnLow) <==> !l.hasStopTrailing))
  {
  }

  /** A long is never closed at the close by its fixed stop or its target:
      only the trailing stop is checked again at the close. */
  lemma LongCloseExits(l: Locals, b: Bar)
    requires CanTrail(l)
    ensures var s := LongBar(l, b);
      s.fill.Some? ==> s.fill.value.reason != StopLimitOnClose && s.fill.value.reason != ProfitTargetOnClose
  {
  }

  /** The open is checked first: a short closes at the open exactly when the
      open reaches the active stop or the target, and the stop wins a tie
      between the two. */
  lemma ShortOpenFirst(l: Locals, b: Bar)
    requires CanTrail(l)
    ensures var s := ShortBar(l, b);
      && (s.fill.Some? && s.fill.value.reason.OnOpen()
          <==> ((l.hasStopTrailing || l.hasStopLoss) && b.op >= l.stopPrice)
               || (l.hasProfitTarget && b.op <= l.targetPrice))
      && ((l.hasStopTrailing || l.hasStopLoss) && b.op >= l.stopPrice ==>
            s.fill == Some(Fill(b.op, if l.hasStopTrailing then StopTrailingOnOpen else StopLimitOnOpen)))
  {
  }

  /** The same for a long, with the comparisons mirrored. */
  lemma LongOpenFirst(l: Locals, b: Bar)
    requires CanTrail(l)
    ensures var s := LongBar(l, b);
      && (s.fill.Some? && s.fill.value.reason.OnOpen()
          <==> ((l.hasStopTrailing || l.hasStopLoss) && b.op <= l.stopPrice)
               || (l.hasProfitTarget && b.op >= l.targetPrice))
      && ((l.hasStopTrailing || l.hasStopLoss) && b.op <= l.stopPrice ==>
            s.fill == Some(Fill(b.op, if l.hasStopTrailing then StopTrailingOnOpen else StopLimitOnOpen)))
  {
  }

  /** Inside the bar the stop is checked before the target: when the open
      did not close a short and the high reaches the stop in force, the
      short is stopped at that level even if the low also reaches the target. */
  lemma ShortStopBeforeTarget(l: Locals, b: Bar)
    requires CanTrail(l)
    requires !(((l.hasStopTrailing || l.hasStopLoss) && b.op >= l.stopPrice) || (l.hasProfitTarget && b.op <= l.targetPrice))
    requires (l.hasStopTrailing || l.hasStopLoss) && b.hi >= StopAfterOpen(true, l, b)
    ensures ShortBar(l, b).fill
      == Some(Fill(StopAfterOpen(true, l, b), if l.hasStopTrailing then StopTrailingOnHigh else StopLimitOnHigh))
  {
  }

  /** The same for a long: a low at or below the stop in force wins over a
      high that reaches the target. */
  lemma LongStopBeforeTarget(l: Locals, b: Bar)
    requires CanTrail(l)
    requires !(((l.hasStopTrailing || l.hasStopLoss) && b.op <= l.stopPrice) || (l.hasProfitTarget && b.op >= l.targetPrice))
    requires (l.hasStopTrailing || l.hasStopLoss) && b.lo <= StopAfterOpen(false, l, b)
    ensures LongBar(l, b).fill
      == Some(Fill(StopAfterOpen(false, l, b), if l.hasStopTrailing then StopTrailingOnLow else StopLimitOnLow))
  {
  }

  /** A trailing stop recomputed at the open of `b` lies beyond the open
      (above it for a short, below it for a long): rounding to the tick does
      not carry it across the open. */
  predicate StopClearsOpen(short: bool, l: Locals, b: Bar)
    requires CanTrail(l)
  {
    l.hasStopTrailing ==>
      if short then StopLevel(true, b.op, l.stopTrailing, l.tickSize) >= b.op
      else StopLevel(false, b.op, l.stopTrailing, l.tickSize) <= b.op
  }

  /** On a well-formed bar the fill price lies inside the recorded range,
      and a bar that closes nothing leaves its close inside the range. */
  lemma BarFillInRange(short: bool, l: Locals, b: Bar)
    requires CanTrail(l) && WellFormed(b) && StopClearsOpen(short, l, b)
    ensures var s := BarStep(short, l, b);
      && (s.fill.Some? ==> s.locals.minPrice <= s.fill.value.price <= s.locals.maxPrice)
      && (s.fill.None? ==> s.locals.minPrice <= b.cl <= s.locals.maxPrice)
  {
    if short {
      ShortFillInRange(l, b);
    } else {
      LongFillInRange(l, b);
    }
  }

  lemma ShortFillInRange(l: Locals, b: Bar)
    requires CanTrail(l) && WellFormed(b) && StopClearsOpen(true, l, b)
    ensures var s := ShortBar(l, b);
      && (s.fill.Some? ==> s.locals.minPrice <= s.fill.value.price <= s.locals.maxPrice)
      && (s.fill.None? ==> s.locals.minPrice <= b.cl <= s.locals.maxPrice)
  {
    if !(((l.hasStopTrailing || l.hasStopLoss) && b.op >= l.stopPrice) || (l.hasProfitTarget && b.op <= l.targetPrice)) {
      ShortInsideInRange(ShortTrail(l, b.op, true), b);
    }
  }

  /** Past the open of a short: a trailing stop lies at or above the open,
      which is at or above the running minimum; a fixed stop lies above the
      open and the target below it. */
  lemma ShortInsideInRange(l1: Locals, b: Bar)
    requires CanTrail(l1) && WellFormed(b)
    requires l1.hasStopTrailing ==> l1.minPrice <= b.op <= l1.stopPrice
    requires l1.hasStopLoss && !l1.hasStopTrailing ==> b.op < l1.stopPrice
    requires l1.hasProfitTarget ==> l1.targetPrice < b.op
    ensures var s := ShortInside(l1, b);
      && (s.fill.Some? ==> s.locals.minPrice <= s.fill.value.price <= s.locals.maxPrice)
      && (s.fill.None? ==> s.locals.minPrice <= b.cl <= s.locals.maxPrice)
  {
    var l3 := SeeRange(ShortTrail(l1, b.lo, false), b);
    assert l3.minPrice <= b.lo <= b.cl <= b.hi <= l3.maxPrice;
  }

  lemma LongFillInRange(l: Locals, b: Bar)
    requires CanTrail(l) && WellFormed(b) && StopClearsOpen(false, l, b)
    ensures var s := LongBar(l, b);
      && (s.fill.Some? ==> s.locals.minPrice <= s.fill.value.price <= s.locals.maxPrice)
      && (s.fill.None? ==> s.locals.minPrice <= b.cl <= s.locals.maxPrice)
  {
    if !(((l.hasStopTrailing || l.hasStopLoss) && b.op <= l.stopPrice) || (l.hasProfitTarget && b.op >= l.targetPrice)) {
      LongInsideInRange(LongTrail(l, b.op), b);
    }
  }

  /** Past the open of a long: a trailing stop lies at or below the open,
      which is at or below the running maximum; a fixed stop lies below the
      open and the target above it. */
  lemma LongInsideInRange(l1: Locals, b: Bar)
    requires CanTrail(l1) && WellFormed(b)
    requires l1.hasStopTrailing ==> l1.stopPrice <= b.op <= l1.maxPrice
    requires l1.hasStopLoss && !l1.hasStopTrailing ==> l1.stopPrice < b.op
    requires l1.hasProfitTarget ==> b.op < l1.targetPrice
    ensures var s := LongInside(l1, b);
      && (s.fill.Some? ==> s.locals.minPrice <= s.fill.value.price <= s.locals.maxPrice)
      && (s.fill.None? ==> s.locals.minPrice <= b.cl <= s.locals.maxPrice)
  {
    var l3 := SeeRange(LongTrail(l1, b.hi), b);
    assert l3.minPrice <= b.lo <= b.cl <= b.hi <= l3.maxPrice;
  }

  /** The trailing stop sits at its distance from the running extreme: the
      minimum for a short, the maximum for a long. */
  predicate TrailTracks(short: bool, l: Locals)
    requires CanTrail(l)
  {
    l.hasStopTrailing ==>
      l.stopPrice == StopLevel(short, if short then l.minPrice else l.maxPrice, l.stopTrailing, l.tickSize)
  }

  /** A stop level never decreases with its reference price (for a long the
      trailing fraction must be at most 1, so the factor is not negative). */
  lemma StopLevelMonotone(short: bool, p: real, q: real, frac: real, tickSize: real)
    requires tickSize > 0.0 && p <= q && (!short ==> Abs(frac) <= 1.0)
    ensures StopLevel(short, p, frac, tickSize) <= StopLevel(short, q, frac, tickSize)
  {
    assert StopFactor(short, frac) >= 0.0;
    ScaleMonotone(p, q, StopFactor(short, frac));
    RoundAnyMonotone(Scale(p, StopFactor(short, frac)), Scale(q, StopFactor(short, frac)), tickSize);
  }

  /** One trailing update of a short keeps the stop on the minimum, never
      raises it, and moves it only when the minimum falls. */
  lemma ShortTrailStep(l: Locals, price: real, tieCounts: bool)
    requires CanTrail(l) && l.tickSize > 0.0 && TrailTracks(true, l)
    ensures var r := ShortTrail(l, price, tieCounts);
      && TrailTracks(true, r)
      && r.stopPrice <= l.stopPrice
      && (r.stopPrice != l.stopPrice ==> r.minPrice < l.minPrice)
  {
    var r := ShortTrail(l, price, tieCounts);
    if r != l {
      StopLevelMonotone(true, price, l.minPrice, l.stopTrailing, l.tickSize);
    }
  }

  /** One trailing update of a long keeps the stop on the maximum, never
      lowers it, and moves it only when the maximum rises. */
  lemma LongTrailStep(l: Locals, price: real)
    requires CanTrail(l) && l.tickSize > 0.0 && Abs(l.stopTrailing) <= 1.0 && TrailTracks(false, l)
    ensures var r := LongTrail(l, price);
      && TrailTracks(false, r)
      && r.stopPrice >= l.stopPrice
      && (r.stopPrice != l.stopPrice ==> r.maxPrice > l.maxPrice)
  {
    var r := LongTrail(l, price);
    if r != l {
      StopLevelMonotone(false, l.maxPrice, price, l.stopTrailing, l.tickSize);
    }
  }

  /** The ratchet over one bar: a short's stop never rises and a long's never
      falls; it moves only when the running minimum falls (short) or the
      maximum rises (long); and when the bar closes nothing the trailing
      stop still sits on the running extreme. */
  lemma TrailRatchet(short: bool, l: Locals, b: Bar)
    requires CanTrail(l) && l.tickSize > 0.0 && TrailTracks(short, l)
    requires !short ==> Abs(l.stopTrailing) <= 1.0
    ensures var s := BarStep(short, l, b);
      && (short ==> s.locals.stopPrice <= l.stopPrice)
      && (!short ==> s.locals.stopPrice >= l.stopPrice)
      && (s.locals.stopPrice != l.stopPrice ==>
            if short then s.locals.minPrice < l.minPrice else s.locals.maxPrice > l.maxPrice)
      && (s.fill.None? ==> TrailTracks(short, s.locals))
  {
    if short {
      ShortTrailStep(l, b.op, true);
      if !(((l.hasStopTrailing || l.hasStopLoss) && b.op >= l.stopPrice) || (l.hasProfitTarget && b.op <= l.targetPrice)) {
        ShortInsideRatchet(ShortTrail(l, b.op, true), b);
      }
    } else {
      LongTrailStep(l, b.op);
      if !(((l.hasStopTrailing || l.hasStopLoss) && b.op <= l.stopPrice) || (l.hasProfitTarget && b.op >= l.targetPrice)) {
        LongInsideRatchet(LongTrail(l, b.op), b);
      }
    }
  }

  /** The ratchet past the open of a short: the update from the low. */
  lemma ShortInsideRatchet(l1: Locals, b: Bar)
    requires CanTrail(l1) && l1.tickSize > 0.0 && TrailTracks(true, l1)
    ensures var s := ShortInside(l1, b);
      && s.locals.stopPrice <= l1.stopPrice
      && (s.locals.stopPrice != l1.stopPrice ==> s.locals.minPrice < l1.minPrice)
      && (s.fill.None? ==> TrailTracks(true, s.locals))
  {
    ShortTrailStep(l1, b.lo, false);
  }

  /** The ratchet past the open of a long: the update from the high. */
  lemma LongInsideRatchet(l1: Locals, b: Bar)
    requires CanTrail(l1) && l1.tickSize > 0.0 && Abs(l1.stopTrailing) <= 1.0 && TrailTracks(false, l1)
    ensures var s := LongInside(l1, b);
      && s.locals.stopPrice >= l1.stopPrice
      && (s.locals.stopPrice != l1.stopPrice ==> s.locals.maxPrice > l1.maxPrice)
      && (s.fill.None? ==> TrailTracks(false, s.locals))
  {
    LongTrailStep(l1, b.hi);
  }
}
