/**
 * Building a -1/0/1 position indicator: `constructIndicator` (a state
 * machine over entry and exit signals) and `indicatorFromTrendline` (a
 * reversal detector over a trend line and thresholds) of src/indicator.cpp.
 */
module Indicator {
  import opened Common

  /** One step of `constructIndicator`'s state machine. From flat a long
      entry wins over a short entry; in a position the opposite entry
      reverses it directly and wins over the exit of the position. */
  function Transition(pos: int, longEntry: bool, longExit: bool, shortEntry: bool, shortExit: bool): int
  {
    if pos == -1 then
      if longEntry then 1 else if shortExit then 0 else -1
    else if pos == 0 then
      if longEntry then 1 else if shortEntry then -1 else 0
    else if pos == 1 then
      if shortEntry then -1 else if longExit then 0 else 1
    else pos
  }

  predicate SignalsPre(longEntries: seq<bool>, longExits: seq<bool>, shortEntries: seq<bool>, shortExits: seq<bool>)
  {
    |longExits| >= |longEntries| && |shortEntries| >= |longEntries| && |shortExits| >= |longEntries|
  }

  /** The state after the first `i` bars, starting flat. */
  function StateAfter(longEntries: seq<bool>, longExits: seq<bool>, shortEntries: seq<bool>, shortExits: seq<bool>,
                      i: nat): int
    requires SignalsPre(longEntries, longExits, shortEntries, shortExits) && i <= |longEntries|
  {
    if i == 0 then 0
    else Transition(StateAfter(longEntries, longExits, shortEntries, shortExits, i - 1),
                    longEntries[i - 1], longExits[i - 1], shortEntries[i - 1], shortExits[i - 1])
  }

  /** The state is always -1, 0 or 1. */
  lemma {:induction false} StateRange(longEntries: seq<bool>, longExits: seq<bool>, shortEntries: seq<bool>,
                                      shortExits: seq<bool>, i: nat)
    requires SignalsPre(longEntries, longExits, shortEntries, shortExits) && i <= |longEntries|
    ensures -1 <= StateAfter(longEntries, longExits, shortEntries, shortExits, i) <= 1
  {
    if i > 0 {
      StateRange(longEntries, longExits, shortEntries, shortExits, i - 1);
    }
  }

  /** Before the first entry signal of either side the state is flat. */
  lemma {:induction false} FlatBeforeFirstEntry(longEntries: seq<bool>, longExits: seq<bool>, shortEntries: seq<bool>,
                                                shortExits: seq<bool>, i: nat)
    requires SignalsPre(longEntries, longExits, shortEntries, shortExits) && i <= |longEntries|
    requires forall j :: 0 <= j < i ==> !longEntries[j] && !shortEntries[j]
    ensures StateAfter(longEntries, longExits, shortEntries, shortExits, i) == 0
  {
    if i > 0 {
      FlatBeforeFirstEntry(longEntries, longExits, shortEntries, shortExits, i - 1);
    }
  }

  /** How one bar moves the state: a long entry takes any state that is not
      long to long; a short entry takes a flat state with no long entry, or
      a long state, to short; a position goes flat exactly on its own exit
      without the opposite entry; a position with neither its exit nor the
      opposite entry is kept, and a flat state without an entry stays flat;
      the state changes only on a signal. */
  lemma TransitionRules(longEntries: seq<bool>, longExits: seq<bool>, shortEntries: seq<bool>,
                        shortExits: seq<bool>, i: nat)
    requires SignalsPre(longEntries, longExits, shortEntries, shortExits) && i < |longEntries|
    ensures var p := StateAfter(longEntries, longExits, shortEntries, shortExits, i);
      var q := StateAfter(longEntries, longExits, shortEntries, shortExits, i + 1);
      && (longEntries[i] && p != 1 ==> q == 1)
      && (shortEntries[i] && p != -1 && (p == 1 || !longEntries[i]) ==> q == -1)
      && (p == 1 ==> (q == 0 <==> longExits[i] && !shortEntries[i]))
      && (p == -1 ==> (q == 0 <==> shortExits[i] && !longEntries[i]))
      && (p == 1 && !shortEntries[i] && !longExits[i] ==> q == 1)
      && (p == -1 && !longEntries[i] && !shortExits[i] ==> q == -1)
      && (p == 0 && !longEntries[i] && !shortEntries[i] ==> q == 0)
      && (q != p ==> longEntries[i] || longExits[i] || shortEntries[i] || shortExits[i])
  {
    StateRange(longEntries, longExits, shortEntries, shortExits, i);
  }

  /** `constructIndicator`: a zero-filled series as long as the long entries
      (the output starts empty); bars before the first entry signal are
      skipped, then every bar gets the state after it. */
  method ConstructIndicator(longEntries: seq<bool>, longExits: seq<bool>, shortEntries: seq<bool>, shortExits: seq<bool>)
    returns (indicator: seq<real>)
    requires SignalsPre(longEntries, longExits, shortEntries, shortExits)
    ensures |indicator| == |longEntries|
    ensures forall i :: 0 <= i < |indicator| ==>
      indicator[i] == StateAfter(longEntries, longExits, shortEntries, shortExits, i + 1) as real
  {
    var ind := new real[|longEntries|](_ => 0.0);
    var ii := 0;
    while ii < |longEntries| && !longEntries[ii] && !shortEntries[ii]
      invariant 0 <= ii <= |longEntries|
      invariant forall j :: 0 <= j <= ii ==> StateAfter(longEntries, longExits, shortEntries, shortExits, j) == 0
    {
      ii := ii + 1;
    }
    var pos := 0;
    while ii < |longEntries|
      invariant 0 <= ii <= |longEntries|
      invariant pos == StateAfter(longEntries, longExits, shortEntries, shortExits, ii)
      invariant forall j :: 0 <= j < ind.Length ==>
        ind[j] == if j < ii then StateAfter(longEntries, longExits, shortEntries, shortExits, j + 1) as real else 0.0
    {
      if pos == -1 {
        if longEntries[ii] {
          pos := 1;
        } else if shortExits[ii] {
          pos := 0;
        }
      } else if pos == 0 {
        if longEntries[ii] {
          pos := 1;
        } else if shortEntries[ii] {
          pos := -1;
        }
      } else if pos == 1 {
        if shortEntries[ii] {
          pos := -1;
        } else if longExits[ii] {
          pos := 0;
        }
      }
      ind[ii] := pos as real;
      ii := ii + 1;
    }
    indicator := ind[..];
  }

  // ---------------------------------------------------------------------
  // indicatorFromTrendline

  /** The detector's state: the index of the running extreme, the direction
      and the level the trend line must reach to reverse. */
  datatype Trend = Trend(id: int, direction: int, threshold: real)

  /** The thresholds cover the trend line, and neither has an NA after its
      leading NAs. */
  predicate TrendPre(trendline: seq<Val>, thresholds: seq<Val>)
  {
    |thresholds| >= |trendline| && NoGaps(trendline) && NoGaps(thresholds[..|trendline|])
  }

  /** The first index, from `i` on, where both inputs are numbers. */
  function FirstValidFrom(trendline: seq<Val>, thresholds: seq<Val>, i: nat): (f: nat)
    requires |thresholds| >= |trendline| && i <= |trendline|
    ensures i <= f <= |trendline|
    ensures forall j :: i <= j < f ==> trendline[j].NA? || thresholds[j].NA?
    ensures f < |trendline| ==> trendline[f].Num? && thresholds[f].Num?
    decreases |trendline| - i
  {
    if i == |trendline| || (trendline[i].Num? && thresholds[i].Num?) then i
    else FirstValidFrom(trendline, thresholds, i + 1)
  }

  function FirstValid(trendline: seq<Val>, thresholds: seq<Val>): nat
    requires |thresholds| >= |trendline|
  {
    FirstValidFrom(trendline, thresholds, 0)
  }

  /** From the first valid index on, both inputs are numbers. */
  predicate NumbersFrom(trendline: seq<Val>, thresholds: seq<Val>, f: nat)
    requires |thresholds| >= |trendline|
  {
    forall j :: f <= j < |trendline| ==> trendline[j].Num? && thresholds[j].Num?
  }

  lemma NumbersAfterFirstValid(trendline: seq<Val>, thresholds: seq<Val>)
    requires TrendPre(trendline, thresholds)
    ensures NumbersFrom(trendline, thresholds, FirstValid(trendline, thresholds))
  {
    var f := FirstValid(trendline, thresholds);
    forall j | f <= j < |trendline|
      ensures trendline[j].Num? && thresholds[j].Num?
    {
      if f < j {
        assert trendline[f].Num? && thresholds[..|trendline|][f].Num?;
        assert thresholds[..|trendline|][j] == thresholds[j];
      }
    }
  }

  /** One bar of the main loop: a down trend resets on a new minimum and
      reverses up when the line reaches the threshold; an up trend mirrors
      it; without a direction the first move sets one. */
  function TrendStep(tl: seq<Val>, th: seq<Val>, t: Trend, ii: int): Trend
    requires |th| >= |tl| && 1 <= ii < |tl| && 0 <= t.id < |tl|
    requires tl[ii].Num? && th[ii].Num? && tl[ii - 1].Num? && tl[t.id].Num?
  {
    if t.direction == -1 then
      if tl[ii].v <= tl[t.id].v then Trend(ii, -1, tl[ii].v + th[ii].v)
      else if tl[ii].v >= t.threshold then Trend(ii, 1, tl[ii].v - th[ii].v)
      else t
    else if t.direction == 1 then
      if tl[ii].v >= tl[t.id].v then Trend(ii, 1, tl[ii].v - th[ii].v)
      else if tl[ii].v <= t.threshold then Trend(ii, -1, tl[ii].v + th[ii].v)
      else t
    else
      if tl[ii].v > tl[ii - 1].v then Trend(ii, 1, tl[ii].v - th[ii].v)
      else if tl[ii].v < tl[ii - 1].v then Trend(ii, -1, tl[ii].v + th[ii].v)
      else t
  }

  /** The state after bar `i`, from the bar after the first valid one: the
      direction of the first move, then one step per bar. */
  function TrendAt(tl: seq<Val>, th: seq<Val>, i: int): (r: Trend)
    requires TrendPre(tl, th) && FirstValid(tl, th) + 1 <= i < |tl|
    ensures FirstValid(tl, th) + 1 <= r.id <= i
    ensures -1 <= r.direction <= 1
    decreases i
  {
    NumbersAfterFirstValid(tl, th);
    if i == FirstValid(tl, th) + 1 then
      var d := Sign(tl[i].v - tl[i - 1].v);
      Trend(i, d, tl[i].v - th[i].v * d as real)
    else
      TrendStep(tl, th, TrendAt(tl, th, i - 1), i)
  }

  /** The value `indicatorFromTrendline` writes at `i`: 0 up to and
      including the first valid index, the direction afterwards. */
  function TrendIndicator(tl: seq<Val>, th: seq<Val>, i: int): (r: int)
    requires TrendPre(tl, th) && 0 <= i < |tl|
    ensures -1 <= r <= 1
    ensures i <= FirstValid(tl, th) ==> r == 0
  {
    if i <= FirstValid(tl, th) then 0 else TrendAt(tl, th, i).direction
  }

  /** `indicatorFromTrendline`: a zero-filled series as long as the trend
      line (the output starts empty); after the leading NAs of either input
      the first move sets the direction, then each bar applies `TrendStep`. */
  method IndicatorFromTrendline(trendline: seq<Val>, thresholds: seq<Val>) returns (indicator: seq<int>)
    requires TrendPre(trendline, thresholds)
    ensures |indicator| == |trendline|
    ensures forall i :: 0 <= i < |trendline| ==> indicator[i] == TrendIndicator(trendline, thresholds, i)
  {
    NumbersAfterFirstValid(trendline, thresholds);
    ghost var f := FirstValid(trendline, thresholds);
    var ind := new int[|trendline|](_ => 0);
    var ii := 0;
    while ii < |trendline| && (trendline[ii].NA? || thresholds[ii].NA?)
      invariant 0 <= ii <= f
    {
      ii := ii + 1;
    }
    if ii + 1 < |trendline| {
      FollowTrend(trendline, thresholds, ind, ii + 1);
    }
    indicator := ind[..];
  }

  /** The main loop of `indicatorFromTrendline`, from the bar after the
      first valid one, which takes the direction of the first move. */
  method FollowTrend(trendline: seq<Val>, thresholds: seq<Val>, ind: array<int>, first: int)
    requires TrendPre(trendline, thresholds) && first == FirstValid(trendline, thresholds) + 1 < |trendline|
    requires ind.Length == |trendline| && forall j :: 0 <= j < ind.Length ==> ind[j] == 0
    modifies ind
    ensures forall j :: 0 <= j < ind.Length ==> ind[j] == TrendIndicator(trendline, thresholds, j)
  {
    NumbersAfterFirstValid(trendline, thresholds);
    var ii := first;
    var id := ii;
    var direction := Sign(trendline[ii].v - trendline[ii - 1].v);
    var threshold := trendline[ii].v - thresholds[ii].v * direction as real;
    ind[ii] := direction;
    ii := ii + 1;
    while ii < |trendline|
      invariant first + 1 <= ii <= |trendline|
      invariant Trend(id, direction, threshold) == TrendAt(trendline, thresholds, ii - 1)
      invariant forall j :: 0 <= j < ind.Length ==>
        ind[j] == if j < ii then TrendIndicator(trendline, thresholds, j) else 0
    {
      id, direction, threshold := TrendBar(trendline, thresholds, id, direction, threshold, ii);
      ind[ii] := direction;
      ii := ii + 1;
    }
  }

  /** One bar of the main loop of `indicatorFromTrendline`, from the state
      of the bar before to the state of bar `ii`. */
  method TrendBar(trendline: seq<Val>, thresholds: seq<Val>, id0: int, direction0: int, threshold0: real, ii: int)
    returns (id: int, direction: int, threshold: real)
    requires TrendPre(trendline, thresholds) && FirstValid(trendline, thresholds) + 2 <= ii < |trendline|
    requires Trend(id0, direction0, threshold0) == TrendAt(trendline, thresholds, ii - 1)
    ensures Trend(id, direction, threshold) == TrendAt(trendline, thresholds, ii)
  {
    NumbersAfterFirstValid(trendline, thresholds);
    id, direction, threshold := id0, direction0, threshold0;
    if direction == -1 {
      if trendline[ii].v <= trendline[id].v {
        id := ii;
        threshold := trendline[ii].v + thresholds[ii].v;
      } else if trendline[ii].v >= threshold {
        id := ii;
        threshold := trendline[ii].v - thresholds[ii].v;
        direction := 1;
      }
    } else if direction == 1 {
      if trendline[ii].v >= trendline[id].v {
        id := ii;
        threshold := trendline[ii].v - thresholds[ii].v;
      } else if trendline[ii].v <= threshold {
        id := ii;
        threshold := trendline[ii].v + thresholds[ii].v;
        direction := -1;
      }
    } else {
      if trendline[ii].v > trendline[ii - 1].v {
        id := ii;
        direction := 1;
        threshold := trendline[ii].v - thresholds[ii].v;
      } else if trendline[ii].v < trendline[ii - 1].v {
        id := ii;
        direction := -1;
        threshold := trendline[ii].v + thresholds[ii].v;
      }
    }
  }

  /** Once the detector has a direction it never loses it. */
  lemma {:induction false} DirectionSticks(tl: seq<Val>, th: seq<Val>, i: int, j: int)
    requires TrendPre(tl, th) && FirstValid(tl, th) + 1 <= i <= j < |tl|
    requires TrendAt(tl, th, i).direction != 0
    ensures TrendAt(tl, th, j).direction != 0
    decreases j - i
  {
    if i < j {
      DirectionSticks(tl, th, i, j - 1);
    }
  }

  /** In a trend `id` is the running extreme since the trend's current leg
      started (the maximum of an up trend, the minimum of a down trend) and
      the threshold is measured from it. */
  ghost predicate TracksExtreme(tl: seq<Val>, th: seq<Val>, t: Trend, i: int)
    requires |th| >= |tl| && 0 <= t.id <= i < |tl| && NumbersFrom(tl, th, t.id)
  {
    && (t.direction == 1 ==>
          t.threshold == tl[t.id].v - th[t.id].v && forall j :: t.id <= j <= i ==> tl[j].v <= tl[t.id].v)
    && (t.direction == -1 ==>
          t.threshold == tl[t.id].v + th[t.id].v && forall j :: t.id <= j <= i ==> tl[j].v >= tl[t.id].v)
  }

  lemma {:induction false} TrendTracksExtreme(tl: seq<Val>, th: seq<Val>, i: int)
    requires TrendPre(tl, th) && FirstValid(tl, th) + 1 <= i < |tl|
    ensures NumbersFrom(tl, th, TrendAt(tl, th, i).id)
    ensures TracksExtreme(tl, th, TrendAt(tl, th, i), i)
    decreases i
  {
    NumbersAfterFirstValid(tl, th);
    if i > FirstValid(tl, th) + 1 {
      TrendTracksExtreme(tl, th, i - 1);
      TrackStep(tl, th, TrendAt(tl, th, i - 1), i);
    }
  }

  /** One step keeps the running extreme: the state either stays or moves
      to the current point, which is then the new extreme. */
  lemma TrackStep(tl: seq<Val>, th: seq<Val>, t: Trend, i: int)
    requires |th| >= |tl| && 1 <= i < |tl| && 0 <= t.id < i && NumbersFrom(tl, th, t.id)
    requires TracksExtreme(tl, th, t, i - 1)
    ensures var u := TrendStep(tl, th, t, i);
      && t.id <= u.id <= i && NumbersFrom(tl, th, u.id) && TracksExtreme(tl, th, u, i)
  {
  }

  /** A reversal happens exactly at a point that is not a new extreme and
      that reaches the threshold measured from the running extreme: an up
      trend turns down if and only if the point is below the running
      maximum and at or below that maximum minus its threshold; a down trend
      mirrors it. A reversal moves the extreme to that point. */
  lemma Reversal(tl: seq<Val>, th: seq<Val>, i: int)
    requires TrendPre(tl, th) && FirstValid(tl, th) + 2 <= i < |tl|
    ensures var p := TrendAt(tl, th, i - 1);
      var q := TrendAt(tl, th, i);
      && NumbersFrom(tl, th, p.id)
      && (p.direction == 1 ==>
            (q.direction == -1 <==> tl[i].v < tl[p.id].v && tl[i].v <= tl[p.id].v - th[p.id].v))
      && (p.direction == -1 ==>
            (q.direction == 1 <==> tl[i].v > tl[p.id].v && tl[i].v >= tl[p.id].v + th[p.id].v))
      && (p.direction != 0 && q.direction == -p.direction ==> q.id == i)
  {
    TrendTracksExtreme(tl, th, i - 1);
  }
}
