/**
 * `zigZag` of src/indicator.cpp: a pivot tracker over a close series. After
 * the first move larger than the allowed change it follows the trend,
 * treating a new extreme as a continuation and a retracement larger than
 * the allowed change as a reversal; it reports per bar the direction, the
 * close at the last reversal (inflection), the allowed change in force
 * (target), the size of a retracement that did not reverse (correction)
 * and the bars since the last reversal (age).
 */
module ZigZag {
  import opened Common

  /** The inputs: changes cover the closes, have no NA after their leading
      NAs, and in percent mode the closes divided by are not zero. */
  predicate ZigPre(close: seq<real>, changes: seq<Val>, percent: bool)
  {
    && |changes| >= |close|
    && NoGaps(changes[..|close|])
    && (percent ==> forall i :: 0 <= i < |close| ==> close[i] != 0.0)
  }

  /** The first index where `changes` is a number (|close| when none is). */
  function Lead(close: seq<real>, changes: seq<Val>): nat
    requires |changes| >= |close|
  {
    LeadingNACount(changes[..|close|])
  }

  lemma NumbersAfterLead(close: seq<real>, changes: seq<Val>, percent: bool)
    requires ZigPre(close, changes, percent)
    ensures Lead(close, changes) <= |close|
    ensures forall j :: Lead(close, changes) <= j < |close| ==> changes[j].Num?
  {
    var c := changes[..|close|];
    NumbersAfterLeading(c);
    forall j | Lead(close, changes) <= j < |close|
      ensures changes[j].Num?
    {
      assert c[j] == changes[j];
    }
  }

  /** The move from bar `jj` up to bar `ii`: relative in percent mode,
      absolute otherwise. */
  function Rise(close: seq<real>, percent: bool, jj: int, ii: int): real
    requires 0 <= jj < |close| && 0 <= ii < |close| && (percent ==> close[jj] != 0.0)
  {
    if percent then close[ii] / close[jj] - 1.0 else close[ii] - close[jj]
  }

  /** The move from bar `jj` down to bar `ii`. */
  function Fall(close: seq<real>, percent: bool, jj: int, ii: int): real
    requires 0 <= jj < |close| && 0 <= ii < |close| && (percent ==> close[jj] != 0.0)
  {
    if percent then 1.0 - close[ii] / close[jj] else close[jj] - close[ii]
  }

  /** The first pivot: its bar and direction (|close| and 0 when there is none). */
  datatype Pivot = Pivot(index: int, state: int)

  /** The search for the first pivot from bar `ii` on: the first bar whose
      rise from bar `s` exceeds the change at `s` starts an up trend, the
      first whose fall does starts a down trend (the rise is checked first). */
  function FirstPivot(close: seq<real>, changes: seq<Val>, percent: bool, s: int, ii: int): (r: Pivot)
    requires ZigPre(close, changes, percent) && 0 <= s < ii <= |close| && changes[s].Num?
    ensures ii <= r.index <= |close|
    ensures r.index < |close| ==> r.state == 1 || r.state == -1
    decreases |close| - ii
  {
    if ii == |close| then Pivot(|close|, 0)
    else if Rise(close, percent, s, ii) > changes[s].v then Pivot(ii, 1)
    else if Fall(close, percent, s, ii) > changes[s].v then Pivot(ii, -1)
    else FirstPivot(close, changes, percent, s, ii + 1)
  }

  function PivotOf(close: seq<real>, changes: seq<Val>, percent: bool): (r: Pivot)
    requires ZigPre(close, changes, percent)
    ensures Lead(close, changes) < r.index <= |close| || r.index == |close|
    ensures r.index < |close| ==> r.state == 1 || r.state == -1
  {
    NumbersAfterLead(close, changes, percent);
    var s := Lead(close, changes);
    if s >= |close| then Pivot(|close|, 0) else FirstPivot(close, changes, percent, s, s + 1)
  }

  /** The tracker's state: direction, bar of the running extreme and the
      allowed change in force. */
  datatype Track = Track(state: int, jj: int, target: real)

  /** What one bar reports. */
  datatype Cell = Cell(indicator: int, inflection: Val, target: Val, correction: real, age: int)

  datatype Zig = Zig(track: Track, cell: Cell)

  /** The tracker after bar `i`, from the first pivot on. At the pivot the
      inflection is its close and the target its change. In an up trend a
      close at or above the extreme is a continuation: the extreme and the
      target move, the age grows and the inflection is carried. A lower
      close whose fall from the extreme exceeds the target is a reversal:
      the direction flips, the age restarts at 0 and the inflection becomes
      the close. Any other close is a retracement: the fall is recorded as
      the correction and the target carried. A down trend mirrors this. */
  function ZigAt(close: seq<real>, changes: seq<Val>, percent: bool, i: int): (r: Zig)
    requires ZigPre(close, changes, percent) && PivotOf(close, changes, percent).index <= i < |close|
    ensures r.track.state == 1 || r.track.state == -1
    ensures r.cell.indicator == r.track.state
    ensures PivotOf(close, changes, percent).index <= r.track.jj <= i
    decreases i
  {
    NumbersAfterLead(close, changes, percent);
    var p := PivotOf(close, changes, percent);
    if i == p.index then
      Zig(Track(p.state, i, changes[i].v), Cell(p.state, Num(close[i]), changes[i], 0.0, 0))
    else
      var prev := ZigAt(close, changes, percent, i - 1);
      var t := prev.track;
      if t.state == 1 then
        if close[i] >= close[t.jj] then
          Zig(Track(1, i, changes[i].v), Cell(1, prev.cell.inflection, changes[i], 0.0, prev.cell.age + 1))
        else
          var change := Fall(close, percent, t.jj, i);
          if change > t.target then
            Zig(Track(-1, i, changes[i].v), Cell(-1, Num(close[i]), changes[i], 0.0, 0))
          else
            Zig(t, Cell(1, prev.cell.inflection, prev.cell.target, change, prev.cell.age + 1))
      else
        if close[i] <= close[t.jj] then
          Zig(Track(-1, i, changes[i].v), Cell(-1, prev.cell.inflection, changes[i], 0.0, prev.cell.age + 1))
        else
          var change := Rise(close, percent, t.jj, i);
          if change > t.target then
            Zig(Track(1, i, changes[i].v), Cell(1, Num(close[i]), changes[i], 0.0, 0))
          else
            Zig(t, Cell(-1, prev.cell.inflection, prev.cell.target, change, prev.cell.age + 1))
  }

  /** What bar `i` reports: the defaults (0, NA, NA, 0, 0) before the first
      pivot, the tracker's cell from it on. */
  function CellAt(close: seq<real>, changes: seq<Val>, percent: bool, i: int): Cell
    requires ZigPre(close, changes, percent) && 0 <= i < |close|
  {
    if i < PivotOf(close, changes, percent).index then Cell(0, NA, NA, 0.0, 0)
    else ZigAt(close, changes, percent, i).cell
  }

  /** `zigZag`: five outputs as long as the closes, starting from their
      defaults; a reversal back-fills the old direction over the bars
      between the old extreme and the reversal bar. */
  method ZigZag(close: seq<real>, changes: seq<Val>, percent: bool)
    returns (indicator: seq<int>, inflections: seq<Val>, targets: seq<Val>, corrections: seq<real>, age: seq<int>)
    requires ZigPre(close, changes, percent)
    ensures |indicator| == |inflections| == |targets| == |corrections| == |age| == |close|
    ensures forall i :: 0 <= i < |close| ==>
      Cell(indicator[i], inflections[i], targets[i], corrections[i], age[i]) == CellAt(close, changes, percent, i)
    ensures Outputs(indicator, inflections, targets, corrections, age) == ZigZagOf(close, changes, percent)
  {
    var len := |close|;
    var ind := new int[len](_ => 0);
    var infl := new Val[len](_ => NA);
    var corr := new real[len](_ => 0.0);
    var tgts := new Val[len](_ => NA);
    var ages := new int[len](_ => 0);
    var ii, state, jj, target := Start(close, changes, percent, ind, infl, tgts, corr, ages);
    if ii < len {
      Follow(close, changes, percent, ind, infl, tgts, corr, ages, ii, state, jj, target);
    }
    indicator, inflections, targets, corrections, age := ind[..], infl[..], tgts[..], corr[..], ages[..];
    forall i | 0 <= i < len
      ensures Cell(indicator[i], inflections[i], targets[i], corrections[i], age[i]) == CellAt(close, changes, percent, i)
    {
      assert Cell(ind[i], infl[i], tgts[i], corr[i], ages[i]) == CellAt(close, changes, percent, i);
    }
    OutputsOfCells(close, changes, percent, indicator, inflections, targets, corrections, age);
  }

  /** Up to the first pivot: skip the leading NAs, find the pivot and write
      its cell. Returns the pivot's index and its tracker, or an index past
      the end when there is no pivot (every array keeps its defaults). */
  method Start(close: seq<real>, changes: seq<Val>, percent: bool,
               ind: array<int>, infl: array<Val>, tgts: array<Val>, corr: array<real>, ages: array<int>)
    returns (ii: int, state: int, jj: int, target: real)
    requires ZigPre(close, changes, percent)
    requires ind.Length == infl.Length == tgts.Length == corr.Length == ages.Length == |close|
    requires infl != tgts && ind != ages
    requires forall k :: 0 <= k < |close| ==> ind[k] == 0 && infl[k] == NA && tgts[k] == NA && corr[k] == 0.0 && ages[k] == 0
    modifies ind, infl, tgts
    ensures ii == PivotOf(close, changes, percent).index
    ensures ii < |close| ==> Track(state, jj, target) == ZigAt(close, changes, percent, ii).track
    ensures Filled(close, changes, percent, ind, infl, tgts, corr, ages, if ii < |close| then ii + 1 else |close|)
  {
    NumbersAfterLead(close, changes, percent);
    ghost var s := Lead(close, changes);
    ghost var p := PivotOf(close, changes, percent);
    var len := |close|;
    ii, state, jj, target := 0, 0, 0, 0.0;
    while ii < len && changes[ii].NA?
      invariant 0 <= ii <= s
    {
      ii := ii + 1;
    }
    if ii >= len {
      return;
    }
    jj := ii;
    target := changes[jj].v;
    ii, state := FirstState(close, changes, percent, jj);
    assert ii == p.index && (ii < len ==> state == p.state);
    if ii < len {
      jj := ii;
      target := changes[jj].v;
      infl[ii] := Num(close[ii]);
      ind[ii] := state;
      tgts[ii] := Num(target);
    }
  }

  lemma OutputsOfCells(close: seq<real>, changes: seq<Val>, percent: bool,
                       indicator: seq<int>, inflections: seq<Val>, targets: seq<Val>, corrections: seq<real>, age: seq<int>)
    requires ZigPre(close, changes, percent)
    requires |indicator| == |inflections| == |targets| == |corrections| == |age| == |close|
    requires forall i :: 0 <= i < |close| ==>
      Cell(indicator[i], inflections[i], targets[i], corrections[i], age[i]) == CellAt(close, changes, percent, i)
    ensures Outputs(indicator, inflections, targets, corrections, age) == ZigZagOf(close, changes, percent)
  {
  }

  /** The five arrays hold the reported cells of bars `0..n-1` and the
      defaults after them. */
  ghost predicate Filled(close: seq<real>, changes: seq<Val>, percent: bool,
                         ind: array<int>, infl: array<Val>, tgts: array<Val>, corr: array<real>, ages: array<int>,
                         n: int)
    requires ZigPre(close, changes, percent)
    requires ind.Length == infl.Length == tgts.Length == corr.Length == ages.Length == |close|
    reads ind, infl, tgts, corr, ages
  {
    forall k :: 0 <= k < |close| ==>
      Cell(ind[k], infl[k], tgts[k], corr[k], ages[k])
        == if k < n then CellAt(close, changes, percent, k) else Cell(0, NA, NA, 0.0, 0)
  }

  /** Every bar from `jj` to `ii - 1` reports direction `state`. */
  ghost predicate Holds(close: seq<real>, changes: seq<Val>, percent: bool, jj: int, ii: int, state: int)
    requires ZigPre(close, changes, percent) && ii <= |close|
  {
    forall k :: 0 <= jj <= k < ii ==> CellAt(close, changes, percent, k).indicator == state
  }

  /** The main loop: bars after the first pivot `p`, whose cell is written. */
  method Follow(close: seq<real>, changes: seq<Val>, percent: bool,
                ind: array<int>, infl: array<Val>, tgts: array<Val>, corr: array<real>, ages: array<int>,
                p: int, state0: int, jj0: int, target0: real)
    requires ZigPre(close, changes, percent)
    requires p == PivotOf(close, changes, percent).index < |close|
    requires ind.Length == infl.Length == tgts.Length == corr.Length == ages.Length == |close|
    requires infl != tgts && ind != ages
    requires Track(state0, jj0, target0) == ZigAt(close, changes, percent, p).track
    requires Filled(close, changes, percent, ind, infl, tgts, corr, ages, p + 1)
    modifies ind, infl, tgts, corr, ages
    ensures Filled(close, changes, percent, ind, infl, tgts, corr, ages, |close|)
  {
    var len := |close|;
    var state, jj, target := state0, jj0, target0;
    var ii := p + 1;
    while ii < len
      invariant p + 1 <= ii <= len
      invariant Track(state, jj, target) == ZigAt(close, changes, percent, ii - 1).track
      invariant Holds(close, changes, percent, jj, ii, state)
      invariant Filled(close, changes, percent, ind, infl, tgts, corr, ages, ii)
    {
      state, jj, target := Advance(close, changes, percent, ind, infl, tgts, corr, ages, ii, state, jj, target);
      ii := ii + 1;
    }
  }

  /** One pass of the main loop, on bar `ii`. */
  method Advance(close: seq<real>, changes: seq<Val>, percent: bool,
                 ind: array<int>, infl: array<Val>, tgts: array<Val>, corr: array<real>, ages: array<int>,
                 ii: int, state: int, jj: int, target: real)
    returns (state': int, jj': int, target': real)
    requires ZigPre(close, changes, percent)
    requires PivotOf(close, changes, percent).index < ii < |close|
    requires ind.Length == infl.Length == tgts.Length == corr.Length == ages.Length == |close|
    requires infl != tgts && ind != ages
    requires Track(state, jj, target) == ZigAt(close, changes, percent, ii - 1).track
    requires Holds(close, changes, percent, jj, ii, state)
    requires Filled(close, changes, percent, ind, infl, tgts, corr, ages, ii)
    modifies ind, infl, tgts, corr, ages
    ensures Track(state', jj', target') == ZigAt(close, changes, percent, ii).track
    ensures Holds(close, changes, percent, jj', ii + 1, state')
    ensures Filled(close, changes, percent, ind, infl, tgts, corr, ages, ii + 1)
  {
    assert Cell(ind[ii - 1], infl[ii - 1], tgts[ii - 1], corr[ii - 1], ages[ii - 1]) == CellAt(close, changes, percent, ii - 1);
    assert Cell(ind[ii], infl[ii], tgts[ii], corr[ii], ages[ii]) == Cell(0, NA, NA, 0.0, 0);
    forall k | jj < k < ii
      ensures ind[k] == state
    {
      assert Cell(ind[k], infl[k], tgts[k], corr[k], ages[k]) == CellAt(close, changes, percent, k);
    }
    state', jj', target' := Step(close, changes, percent, ind, infl, tgts, corr, ages, ii, state, jj, target);
    StepFacts(close, changes, percent, ii);
    forall k | 0 <= k < |close|
      ensures Cell(ind[k], infl[k], tgts[k], corr[k], ages[k])
        == if k < ii + 1 then CellAt(close, changes, percent, k) else Cell(0, NA, NA, 0.0, 0)
    {
      if k != ii {
        assert Cell(ind[k], infl[k], tgts[k], corr[k], ages[k]) == old(Cell(ind[k], infl[k], tgts[k], corr[k], ages[k]));
      }
    }
  }

  /** Every bar between the first change and the first pivot moves less
      than that change in both directions, and the pivot bar moves more in
      its own direction (a rise is tried before a fall). */
  lemma {:induction false} PivotIsFirstMove(close: seq<real>, changes: seq<Val>, percent: bool, s: int, ii: int)
    requires ZigPre(close, changes, percent) && 0 <= s < ii <= |close| && changes[s].Num?
    ensures var r := FirstPivot(close, changes, percent, s, ii);
      && (forall k :: ii <= k < r.index ==>
            Rise(close, percent, s, k) <= changes[s].v && Fall(close, percent, s, k) <= changes[s].v)
      && (r.index < |close| && r.state == 1 ==> Rise(close, percent, s, r.index) > changes[s].v)
      && (r.index < |close| && r.state == -1 ==>
            Rise(close, percent, s, r.index) <= changes[s].v && Fall(close, percent, s, r.index) > changes[s].v)
    decreases |close| - ii
  {
    if ii < |close| && Rise(close, percent, s, ii) <= changes[s].v && Fall(close, percent, s, ii) <= changes[s].v {
      PivotIsFirstMove(close, changes, percent, s, ii + 1);
    }
  }

  /** The bar of the last reversal at or before bar `i` (the first pivot
      when the direction has not turned since). */
  ghost function LastTurn(close: seq<real>, changes: seq<Val>, percent: bool, i: int): (r: int)
    requires ZigPre(close, changes, percent) && PivotOf(close, changes, percent).index <= i < |close|
    ensures PivotOf(close, changes, percent).index <= r <= i
    decreases i
  {
    if i == PivotOf(close, changes, percent).index then i
    else if ZigAt(close, changes, percent, i).track.state != ZigAt(close, changes, percent, i - 1).track.state then i
    else LastTurn(close, changes, percent, i - 1)
  }

  /** What one bar after the pivot does to the tracker. Keeping the
      direction adds one to the age and carries the inflection; the extreme
      either stays, with the whole track and the target carried and the close
      on the near side of it, or moves to this bar at a close at or beyond
      it. A turn restarts the age at this bar's close and puts the extreme
      there. An extreme placed at this bar takes this bar's change as its
      target. */
  lemma StepFacts(close: seq<real>, changes: seq<Val>, percent: bool, i: int)
    requires ZigPre(close, changes, percent) && PivotOf(close, changes, percent).index < i < |close|
    ensures var z := ZigAt(close, changes, percent, i);
      var prev := ZigAt(close, changes, percent, i - 1);
      var st := prev.track.state;
      var jj := prev.track.jj;
      && (z.track.state == st ==> z.cell.age == prev.cell.age + 1 && z.cell.inflection == prev.cell.inflection)
      && (z.track.state == st && z.track.jj == jj ==>
            z.track == prev.track && z.cell.target == prev.cell.target
            && (st == 1 ==> close[i] < close[jj]) && (st == -1 ==> close[i] > close[jj]))
      && (z.track.state == st && z.track.jj != jj ==>
            z.track.jj == i && (st == 1 ==> close[i] >= close[jj]) && (st == -1 ==> close[i] <= close[jj]))
      && (z.track.state != st ==> z.cell.age == 0 && z.cell.inflection == Num(close[i]) && z.track.jj == i)
      && (z.track.jj == i ==> changes[i] == Num(z.track.target) == z.cell.target)
  {
    NumbersAfterLead(close, changes, percent);
  }

  /** The direction is `st` on every bar from `r` to `i`. */
  ghost predicate Held(close: seq<real>, changes: seq<Val>, percent: bool, r: int, i: int, st: int)
    requires ZigPre(close, changes, percent) && PivotOf(close, changes, percent).index <= r && i < |close|
  {
    forall k :: r <= k <= i ==> ZigAt(close, changes, percent, k).track.state == st
  }

  lemma HeldStep(close: seq<real>, changes: seq<Val>, percent: bool, r: int, i: int, st: int)
    requires ZigPre(close, changes, percent) && PivotOf(close, changes, percent).index <= r < i < |close|
    requires Held(close, changes, percent, r, i - 1, st) && ZigAt(close, changes, percent, i).track.state == st
    ensures Held(close, changes, percent, r, i, st)
  {
    forall k | r <= k <= i
      ensures ZigAt(close, changes, percent, k).track.state == st
    {
      if k < i {
        assert r <= k <= i - 1;
      }
    }
  }

  /** Since the last reversal `r` the age has counted the bars, the
      inflection has held the close at `r` and the direction has not
      changed. */
  lemma {:induction false} AgeSinceTurn(close: seq<real>, changes: seq<Val>, percent: bool, i: int)
    requires ZigPre(close, changes, percent) && PivotOf(close, changes, percent).index <= i < |close|
    ensures var z := ZigAt(close, changes, percent, i);
      var r := LastTurn(close, changes, percent, i);
      && z.cell.age == i - r
      && z.cell.inflection == Num(close[r])
      && Held(close, changes, percent, r, i, z.track.state)
    decreases i
  {
    var p := PivotOf(close, changes, percent).index;
    var z := ZigAt(close, changes, percent, i);
    if i > p {
      AgeSinceTurn(close, changes, percent, i - 1);
      AgeStep(close, changes, percent, i);
    } else {
      assert Held(close, changes, percent, i, i, z.track.state);
    }
  }

  /** AgeSinceTurn carried from bar `i - 1` to bar `i`. */
  lemma AgeStep(close: seq<real>, changes: seq<Val>, percent: bool, i: int)
    requires ZigPre(close, changes, percent) && PivotOf(close, changes, percent).index < i < |close|
    requires var z := ZigAt(close, changes, percent, i - 1);
      var r := LastTurn(close, changes, percent, i - 1);
      && z.cell.age == i - 1 - r
      && z.cell.inflection == Num(close[r])
      && Held(close, changes, percent, r, i - 1, z.track.state)
    ensures var z := ZigAt(close, changes, percent, i);
      var r := LastTurn(close, changes, percent, i);
      && z.cell.age == i - r
      && z.cell.inflection == Num(close[r])
      && Held(close, changes, percent, r, i, z.track.state)
  {
    var z := ZigAt(close, changes, percent, i);
    StepFacts(close, changes, percent, i);
    var prev := ZigAt(close, changes, percent, i - 1);
    if z.track.state == prev.track.state {
      var r := LastTurn(close, changes, percent, i);
      assert r == LastTurn(close, changes, percent, i - 1);
      if r < i {
        HeldStep(close, changes, percent, r, i, z.track.state);
      }
    } else {
      assert LastTurn(close, changes, percent, i) == i;
      assert Held(close, changes, percent, i, i, z.track.state);
    }
  }

  /** No close from `r` to `i` is above the close at `jj`. */
  ghost predicate Highest(close: seq<real>, jj: int, r: int, i: int)
    requires 0 <= jj < |close| && 0 <= r && i < |close|
  {
    forall k :: r <= k <= i ==> close[k] <= close[jj]
  }

  /** No close from `r` to `i` is below the close at `jj`. */
  ghost predicate Lowest(close: seq<real>, jj: int, r: int, i: int)
    requires 0 <= jj < |close| && 0 <= r && i < |close|
  {
    forall k :: r <= k <= i ==> close[k] >= close[jj]
  }

  lemma HighestStep(close: seq<real>, a: int, b: int, r: int, i: int)
    requires 0 <= r <= i < |close| && 0 <= a < |close| && 0 <= b < |close|
    requires r < i ==> Highest(close, a, r, i - 1)
    requires close[a] <= close[b] && close[i] <= close[b]
    ensures Highest(close, b, r, i)
  {
    forall k | r <= k <= i
      ensures close[k] <= close[b]
    {
      if k < i {
        assert close[k] <= close[a];
      }
    }
  }

  lemma LowestStep(close: seq<real>, a: int, b: int, r: int, i: int)
    requires 0 <= r <= i < |close| && 0 <= a < |close| && 0 <= b < |close|
    requires r < i ==> Lowest(close, a, r, i - 1)
    requires close[a] >= close[b] && close[i] >= close[b]
    ensures Lowest(close, b, r, i)
  {
    forall k | r <= k <= i
      ensures close[k] >= close[b]
    {
      if k < i {
        assert close[k] >= close[a];
      }
    }
  }

  /** The extreme bar lies in the current leg (from the last reversal `r`
      on), holds its highest close in an up trend and its lowest in a down
      trend, and the target in force is the change at that bar. */
  lemma {:induction false} ExtremeOfLeg(close: seq<real>, changes: seq<Val>, percent: bool, i: int)
    requires ZigPre(close, changes, percent) && PivotOf(close, changes, percent).index <= i < |close|
    ensures var t := ZigAt(close, changes, percent, i).track;
      var r := LastTurn(close, changes, percent, i);
      && r <= t.jj
      && (t.state == 1 ==> Highest(close, t.jj, r, i))
      && (t.state == -1 ==> Lowest(close, t.jj, r, i))
      && changes[t.jj] == Num(t.target) == ZigAt(close, changes, percent, i).cell.target
    decreases i
  {
    NumbersAfterLead(close, changes, percent);
    var p := PivotOf(close, changes, percent).index;
    var t := ZigAt(close, changes, percent, i).track;
    if i > p {
      ExtremeOfLeg(close, changes, percent, i - 1);
      StepFacts(close, changes, percent, i);
      var t0 := ZigAt(close, changes, percent, i - 1).track;
      var r := LastTurn(close, changes, percent, i);
      if t.state == t0.state {
        assert r == LastTurn(close, changes, percent, i - 1);
        if t.state == 1 {
          HighestStep(close, t0.jj, t.jj, r, i);
        } else {
          LowestStep(close, t0.jj, t.jj, r, i);
        }
      } else {
        assert r == i;
        if t.state == 1 {
          HighestStep(close, i, i, i, i);
        } else {
          LowestStep(close, i, i, i, i);
        }
      }
    } else {
      if t.state == 1 {
        HighestStep(close, i, i, i, i);
      } else {
        LowestStep(close, i, i, i, i);
      }
    }
  }

  /** A reversal needs a move against the trend larger than the target in
      force, measured from the extreme; a bar that keeps the direction is a
      new extreme or a retracement no larger than that target, recorded as
      the correction. */
  lemma TurnRule(close: seq<real>, changes: seq<Val>, percent: bool, i: int)
    requires ZigPre(close, changes, percent) && PivotOf(close, changes, percent).index < i < |close|
    ensures var z := ZigAt(close, changes, percent, i);
      var t := ZigAt(close, changes, percent, i - 1).track;
      && (t.state == 1 && z.track.state == -1 <==>
            t.state == 1 && close[i] < close[t.jj] && Fall(close, percent, t.jj, i) > t.target)
      && (t.state == -1 && z.track.state == 1 <==>
            t.state == -1 && close[i] > close[t.jj] && Rise(close, percent, t.jj, i) > t.target)
      && (z.track.state == t.state && z.track.jj == t.jj ==>
            z.cell.correction == (if t.state == 1 then Fall(close, percent, t.jj, i) else Rise(close, percent, t.jj, i))
            && z.cell.correction <= t.target)
      && (z.track.state == t.state && z.track.jj != t.jj ==> z.track.jj == i && z.cell.correction == 0.0)
  {
  }

  /** A correction is never negative: a retracement in absolute mode, or in
      percent mode over positive closes, is a move against the trend. */
  lemma CorrectionsNonNegative(close: seq<real>, changes: seq<Val>, percent: bool, i: int)
    requires ZigPre(close, changes, percent) && 0 <= i < |close|
    requires percent ==> forall k :: 0 <= k < |close| ==> close[k] > 0.0
    ensures CellAt(close, changes, percent, i).correction >= 0.0
  {
    var p := PivotOf(close, changes, percent).index;
    if p < i {
      var t := ZigAt(close, changes, percent, i - 1).track;
      if percent {
        if t.state == 1 && close[i] < close[t.jj] {
          RatioVsOne(close[i], close[t.jj]);
        } else if t.state != 1 && close[i] > close[t.jj] {
          RatioVsOne(close[i], close[t.jj]);
        }
      }
    }
  }

  /** The outputs of the method as one value. */
  datatype Outputs = Outputs(indicator: seq<int>, inflections: seq<Val>, targets: seq<Val>, corrections: seq<real>, age: seq<int>)

  function ZigZagOf(close: seq<real>, changes: seq<Val>, percent: bool): (r: Outputs)
    requires ZigPre(close, changes, percent)
    ensures |r.indicator| == |r.inflections| == |r.targets| == |r.corrections| == |r.age| == |close|
  {
    Outputs(seq(|close|, i requires 0 <= i < |close| => CellAt(close, changes, percent, i).indicator),
            seq(|close|, i requires 0 <= i < |close| => CellAt(close, changes, percent, i).inflection),
            seq(|close|, i requires 0 <= i < |close| => CellAt(close, changes, percent, i).target),
            seq(|close|, i requires 0 <= i < |close| => CellAt(close, changes, percent, i).correction),
            seq(|close|, i requires 0 <= i < |close| => CellAt(close, changes, percent, i).age))
  }

  /** The direction is -1, 0 or 1; it is 0, with every other output at its
      default, on the bars before the first pivot, and so everywhere when
      no change is given. */
  lemma Quiet(close: seq<real>, changes: seq<Val>, percent: bool, i: int)
    requires ZigPre(close, changes, percent) && 0 <= i < |close|
    ensures -1 <= ZigZagOf(close, changes, percent).indicator[i] <= 1
    ensures i < PivotOf(close, changes, percent).index ==>
      CellAt(close, changes, percent, i) == Cell(0, NA, NA, 0.0, 0)
    ensures i >= PivotOf(close, changes, percent).index ==> ZigZagOf(close, changes, percent).indicator[i] != 0
    ensures (forall k :: 0 <= k < |close| ==> changes[k].NA?) ==> CellAt(close, changes, percent, i) == Cell(0, NA, NA, 0.0, 0)
  {
    if forall k :: 0 <= k < |close| ==> changes[k].NA? {
      NumbersAfterLead(close, changes, percent);
      if Lead(close, changes) < |close| {
        assert changes[Lead(close, changes)].NA?;
      }
    }
  }

  /** Closes 10, 11, 13, 12, 9 with an absolute change of 1 from the second
      bar: the rise to 13 starts an up trend, 12 is a retracement of 1, and
      9 reverses it. */
  lemma Example()
    ensures ZigZagOf([10.0, 11.0, 13.0, 12.0, 9.0], [NA, Num(1.0), Num(1.0), Num(1.0), Num(1.0)], false)
      == Outputs([0, 0, 1, 1, -1], [NA, NA, Num(13.0), Num(13.0), Num(9.0)],
                 [NA, NA, Num(1.0), Num(1.0), Num(1.0)], [0.0, 0.0, 0.0, 1.0, 0.0], [0, 0, 0, 1, 0])
  {
    var close := [10.0, 11.0, 13.0, 12.0, 9.0];
    var changes := [NA, Num(1.0), Num(1.0), Num(1.0), Num(1.0)];
    assert changes[..|close|] == changes;
    assert Lead(close, changes) == 1;
    assert FirstPivot(close, changes, false, 1, 2) == Pivot(2, 1);
    assert PivotOf(close, changes, false) == Pivot(2, 1);
    var z2 := ZigAt(close, changes, false, 2);
    assert z2 == Zig(Track(1, 2, 1.0), Cell(1, Num(13.0), Num(1.0), 0.0, 0));
    var z3 := ZigAt(close, changes, false, 3);
    assert z3 == Zig(Track(1, 2, 1.0), Cell(1, Num(13.0), Num(1.0), 1.0, 1));
    var z4 := ZigAt(close, changes, false, 4);
    assert z4 == Zig(Track(-1, 4, 1.0), Cell(-1, Num(9.0), Num(1.0), 0.0, 0));
  }

  /** The search for the first pivot after bar `jj`, the first bar with a
      change: the bar where the tracker starts and its direction, or
      |close| and 0 when no move exceeds the change at `jj`. */
  method FirstState(close: seq<real>, changes: seq<Val>, percent: bool, jj: int)
    returns (ii: int, state: int)
    requires ZigPre(close, changes, percent) && 0 <= jj < |close| && changes[jj].Num?
    ensures Pivot(ii, state) == FirstPivot(close, changes, percent, jj, jj + 1)
  {
    var len := |close|;
    var target := changes[jj].v;
    state := 0;
    ii := jj + 1;
    while ii < len
      invariant jj + 1 <= ii <= len
      invariant FirstPivot(close, changes, percent, jj, ii) == FirstPivot(close, changes, percent, jj, jj + 1)
    {
      if percent {
        var pct := close[ii] / close[jj] - 1.0;
        if pct > target {
          state := 1;
          return;
        }
        pct := 1.0 - close[ii] / close[jj];
        if pct > target {
          state := -1;
          return;
        }
      } else {
        var cash := close[ii] - close[jj];
        if cash > target {
          state := 1;
          return;
        }
        cash := close[jj] - close[ii];
        if cash > target {
          state := -1;
          return;
        }
      }
      ii := ii + 1;
    }
  }

  /** The main loop's work on bar `ii`, with the tracker state of bar `ii - 1`:
      writes bar `ii`'s cell and returns the new state. The back-fill of a
      reversal rewrites cells that already hold the old direction. */
  method Step(close: seq<real>, changes: seq<Val>, percent: bool,
              ind: array<int>, infl: array<Val>, tgts: array<Val>, corr: array<real>, ages: array<int>,
              ii: int, state: int, jj: int, target: real)
    returns (state': int, jj': int, target': real)
    requires ZigPre(close, changes, percent)
    requires PivotOf(close, changes, percent).index < ii < |close|
    requires ind.Length == infl.Length == tgts.Length == corr.Length == ages.Length == |close|
    requires infl != tgts && ind != ages
    requires Track(state, jj, target) == ZigAt(close, changes, percent, ii - 1).track
    requires forall k :: jj < k < ii ==> ind[k] == state
    requires Cell(ind[ii - 1], infl[ii - 1], tgts[ii - 1], corr[ii - 1], ages[ii - 1]) == ZigAt(close, changes, percent, ii - 1).cell
    requires Cell(ind[ii], infl[ii], tgts[ii], corr[ii], ages[ii]) == Cell(0, NA, NA, 0.0, 0)
    modifies ind, infl, tgts, corr, ages
    ensures Track(state', jj', target') == ZigAt(close, changes, percent, ii).track
    ensures Cell(ind[ii], infl[ii], tgts[ii], corr[ii], ages[ii]) == ZigAt(close, changes, percent, ii).cell
    ensures forall k :: 0 <= k < |close| && k != ii ==>
      Cell(ind[k], infl[k], tgts[k], corr[k], ages[k]) == old(Cell(ind[k], infl[k], tgts[k], corr[k], ages[k]))
  {
    NumbersAfterLead(close, changes, percent);
    state', jj', target' := state, jj, target;
    if state == 1 {
      if close[ii] >= close[jj] {
        ind[ii] := 1;
        ages[ii] := ages[ii - 1] + 1;
        infl[ii] := infl[ii - 1];
        target' := changes[ii].v;
        tgts[ii] := changes[ii];
        jj' := ii;
      } else {
        var newTrend := false;
        var change;
        if percent {
          change := 1.0 - close[ii] / close[jj];
          if change > target {
            newTrend := true;
          }
        } else {
          change := close[jj] - close[ii];
          if change > target {
            newTrend := true;
          }
        }
        if newTrend {
          BackFill(ind, jj + 1, ii, 1);
          ind[ii] := -1;
          ages[ii] := 0;
          infl[ii] := Num(close[ii]);
          state' := -1;
          jj' := ii;
          tgts[ii] := changes[jj'];
          target' := changes[jj'].v;
        } else {
          ind[ii] := 1;
          ages[ii] := ages[ii - 1] + 1;
          infl[ii] := infl[ii - 1];
          corr[ii] := change;
          tgts[ii] := tgts[ii - 1];
        }
      }
    } else {
      if close[ii] <= close[jj] {
        ind[ii] := -1;
        ages[ii] := ages[ii - 1] + 1;
        infl[ii] := infl[ii - 1];
        target' := changes[ii].v;
        tgts[ii] := changes[ii];
        jj' := ii;
      } else {
        var newTrend := false;
        var change;
        if percent {
          change := close[ii] / close[jj] - 1.0;
          if change > target {
            newTrend := true;
          }
        } else {
          change := close[ii] - close[jj];
          if change > target {
            newTrend := true;
          }
        }
        if newTrend {
          BackFill(ind, jj + 1, ii, -1);
          ind[ii] := 1;
          ages[ii] := 0;
          infl[ii] := Num(close[ii]);
          state' := 1;
          jj' := ii;
          target' := changes[jj'].v;
          tgts[ii] := Num(target');
        } else {
          ind[ii] := -1;
          ages[ii] := ages[ii - 1] + 1;
          infl[ii] := infl[ii - 1];
          corr[ii] := change;
          tgts[ii] := tgts[ii - 1];
        }
      }
    }
  }

  /** The back-fill of a reversal: cells `lo` up to `hi`, which already hold
      `dir`, are set to `dir` again. */
  method BackFill(ind: array<int>, lo: int, hi: int, dir: int)
    requires 0 <= lo && hi <= ind.Length
    requires forall k :: lo <= k < hi ==> ind[k] == dir
    modifies ind
    ensures forall k :: 0 <= k < ind.Length ==> ind[k] == old(ind[k])
  {
    var kk := lo;
    while kk < hi
      invariant lo <= kk && (kk <= hi || kk == lo)
      invariant forall k :: 0 <= k < ind.Length ==> ind[k] == old(ind[k])
    {
      ind[kk] := dir;
      kk := kk + 1;
    }
  }
}
