/**
 * From an indicator to trades and from trades to per-bar returns:
 * `tradesFromIndicator` and `calculateReturns` of src/processTrades.cpp.
 */
module Trades {
  import opened Common

  /** Parallel columns of trades: entry bar, exit bar and position. */
  datatype Segments = Segments(ibeg: seq<int>, iend: seq<int>, position: seq<int>)

  /** The runs of non-zero values in `ind[s..n)`, every run closed at the
      index after its last cell (the run still open at `n - 1` ends at `n`).
      A run starts at `s` or where the value changes to a non-zero one. */
  function Segs(ind: seq<Val>, s: nat, n: nat): Segments
    requires s < n <= |ind| && forall j :: s <= j < n ==> ind[j].Num?
    decreases n
  {
    if n == s + 1 then
      if ind[s].v != 0.0 then Segments([s], [s + 1], [Trunc(ind[s].v)]) else Segments([], [], [])
    else
      var c := Segs(ind, s, n - 1);
      var j := n - 1;
      if ind[j].v == ind[j - 1].v then
        if ind[j].v != 0.0 && |c.iend| > 0 then Extended(c, n) else c
      else if ind[j].v != 0.0 then Opened(c, j, Trunc(ind[j].v))
      else c
  }

  /** The last run made to end at `n`. */
  function Extended(c: Segments, n: int): Segments
    requires |c.iend| > 0
  {
    c.(iend := c.iend[..|c.iend| - 1] + [n])
  }

  /** A run of one cell at `j` with position `p` added after the others. */
  function Opened(c: Segments, j: int, p: int): Segments
  {
    Segments(c.ibeg + [j], c.iend + [j + 1], c.position + [p])
  }

  /** The trades `tradesFromIndicator` reports: the runs of the indicator
      from its first number up to, but not including, the last index; a run
      still open there exits on the last index, which never opens one. */
  function Trades(ind: seq<Val>): Segments
    requires NoGaps(ind)
  {
    NumbersAfterLeading(ind);
    var s := LeadingNACount(ind);
    if s + 1 < |ind| then Segs(ind, s, |ind| - 1) else Segments([], [], [])
  }

  /** Three parallel columns of the same length; each run non-empty and
      inside `[s, n]`; a run ends no later than any later run starts. */
  ghost predicate Shape(s: nat, n: nat, c: Segments)
  {
    && |c.ibeg| == |c.iend| == |c.position|
    && (forall k :: 0 <= k < |c.ibeg| ==> s <= c.ibeg[k] < c.iend[k] <= n)
    && (forall k1, k2 :: 0 <= k1 < k2 < |c.ibeg| ==> c.iend[k1] <= c.ibeg[k2])
  }

  /** Cell `j` belongs to run `k`. */
  ghost predicate InRun(c: Segments, k: int, j: int)
  {
    0 <= k < |c.ibeg| && k < |c.iend| && c.ibeg[k] <= j < c.iend[k]
  }

  /** On each run the indicator is constant and non-zero. */
  ghost predicate RunsConstant(ind: seq<Val>, s: nat, n: nat, c: Segments)
    requires s < n <= |ind| && forall j :: s <= j < n ==> ind[j].Num?
    requires Shape(s, n, c)
  {
    && (forall k :: 0 <= k < |c.ibeg| ==> ind[c.ibeg[k]].v != 0.0)
    && (forall k, j :: InRun(c, k, j) ==> ind[j].v == ind[c.ibeg[k]].v)
  }

  /** The position of a run is the truncation of its value. */
  ghost predicate Positioned(ind: seq<Val>, s: nat, n: nat, c: Segments)
    requires s < n <= |ind| && forall j :: s <= j < n ==> ind[j].Num?
    requires Shape(s, n, c)
  {
    forall k :: 0 <= k < |c.ibeg| ==> c.position[k] == Trunc(ind[c.ibeg[k]].v)
  }

  /** Outside every run the indicator is zero. */
  ghost predicate ZeroOutside(ind: seq<Val>, s: nat, n: nat, c: Segments)
    requires s < n <= |ind| && forall j :: s <= j < n ==> ind[j].Num?
  {
    forall j {:trigger Covered(c, j)} :: s <= j < n && !Covered(c, j) ==> ind[j].v == 0.0
  }

  /** Cell `j` belongs to some run. */
  ghost predicate Covered(c: Segments, j: int)
  {
    exists k :: InRun(c, k, j)
  }

  /** A run starts at `s` or where the value changes, and ends at `n` or
      where the value changes. */
  ghost predicate Maximal(ind: seq<Val>, s: nat, n: nat, c: Segments)
    requires s < n <= |ind| && forall j :: s <= j < n ==> ind[j].Num?
    requires Shape(s, n, c)
  {
    && (forall k :: 0 <= k < |c.ibeg| && s < c.ibeg[k] ==> ind[c.ibeg[k] - 1].v != ind[c.ibeg[k]].v)
    && (forall k :: 0 <= k < |c.ibeg| && c.iend[k] < n ==> ind[c.iend[k]].v != ind[c.iend[k] - 1].v)
  }

  /** `c` describes the runs of `ind[s..n)` exactly. */
  ghost predicate Segmented(ind: seq<Val>, s: nat, n: nat, c: Segments)
    requires s < n <= |ind| && forall j :: s <= j < n ==> ind[j].Num?
  {
    && Shape(s, n, c) && RunsConstant(ind, s, n, c) && Positioned(ind, s, n, c)
    && ZeroOutside(ind, s, n, c) && Maximal(ind, s, n, c)
  }

  /** A run is open at `n - 1` exactly when the indicator is non-zero there,
      and then it is the last run and ends at `n`. */
  lemma OpenAtEnd(ind: seq<Val>, s: nat, n: nat, c: Segments)
    requires s < n <= |ind| && forall j :: s <= j < n ==> ind[j].Num?
    requires Shape(s, n, c) && RunsConstant(ind, s, n, c) && ZeroOutside(ind, s, n, c)
    ensures ind[n - 1].v != 0.0 <==> |c.iend| > 0 && c.iend[|c.iend| - 1] == n
  {
    var last := |c.iend| - 1;
    if |c.iend| > 0 && c.iend[last] == n {
      assert InRun(c, last, n - 1);
    }
    if |c.iend| == 0 || c.iend[last] < n {
      var j := n - 1;
      forall k
        ensures !InRun(c, k, j)
      {
        if 0 <= k < last {
          assert c.iend[k] <= c.ibeg[last];
        }
      }
      assert !Covered(c, j);
    }
  }

  lemma ZeroKeepsShape(s: nat, n: nat, c: Segments)
    requires s + 1 < n && Shape(s, n - 1, c)
    ensures Shape(s, n, c)
  {
  }

  lemma ZeroKeepsRuns(ind: seq<Val>, s: nat, n: nat, c: Segments)
    requires s + 1 < n <= |ind| && forall j :: s <= j < n ==> ind[j].Num?
    requires Shape(s, n - 1, c) && RunsConstant(ind, s, n - 1, c)
    ensures Shape(s, n, c) && RunsConstant(ind, s, n, c)
  {
  }

  lemma ZeroKeepsPositions(ind: seq<Val>, s: nat, n: nat, c: Segments)
    requires s + 1 < n <= |ind| && forall j :: s <= j < n ==> ind[j].Num?
    requires Shape(s, n - 1, c) && Positioned(ind, s, n - 1, c)
    ensures Shape(s, n, c) && Positioned(ind, s, n, c)
  {
  }

  lemma ZeroKeepsZeroOutside(ind: seq<Val>, s: nat, n: nat, c: Segments)
    requires s + 1 < n <= |ind| && forall j :: s <= j < n ==> ind[j].Num?
    requires ZeroOutside(ind, s, n - 1, c) && ind[n - 1].v == 0.0
    ensures ZeroOutside(ind, s, n, c)
  {
  }

  lemma ZeroKeepsMaximal(ind: seq<Val>, s: nat, n: nat, c: Segments)
    requires s + 1 < n <= |ind| && forall j :: s <= j < n ==> ind[j].Num?
    requires Segmented(ind, s, n - 1, c) && ind[n - 1].v == 0.0
    ensures Shape(s, n, c) && Maximal(ind, s, n, c)
  {
    forall k | 0 <= k < |c.ibeg| && c.iend[k] < n
      ensures ind[c.iend[k]].v != ind[c.iend[k] - 1].v
    {
      if c.iend[k] == n - 1 {
        assert InRun(c, k, n - 2);
      }
    }
  }

  /** A cell that is zero leaves the runs as they are. */
  lemma SegmentedZero(ind: seq<Val>, s: nat, n: nat)
    requires s + 1 < n <= |ind| && forall j :: s <= j < n ==> ind[j].Num?
    requires Segmented(ind, s, n - 1, Segs(ind, s, n - 1)) && ind[n - 1].v == 0.0
    ensures Segmented(ind, s, n, Segs(ind, s, n))
  {
    var c := Segs(ind, s, n - 1);
    assert Segs(ind, s, n) == c;
    ZeroKeepsRuns(ind, s, n, c);
    ZeroKeepsPositions(ind, s, n, c);
    ZeroKeepsZeroOutside(ind, s, n, c);
    ZeroKeepsMaximal(ind, s, n, c);
  }

  lemma ExtendKeepsShape(s: nat, n: nat, c: Segments)
    requires s + 1 < n && Shape(s, n - 1, c) && |c.iend| > 0
    ensures Shape(s, n, Extended(c, n))
  {
  }

  lemma ExtendKeepsRuns(ind: seq<Val>, s: nat, n: nat, c: Segments)
    requires s + 1 < n <= |ind| && forall j :: s <= j < n ==> ind[j].Num?
    requires Segmented(ind, s, n - 1, c) && ind[n - 1].v != 0.0 && ind[n - 1].v == ind[n - 2].v
    requires |c.iend| > 0 && c.iend[|c.iend| - 1] == n - 1
    ensures Shape(s, n, Extended(c, n)) && RunsConstant(ind, s, n, Extended(c, n))
  {
    ExtendKeepsShape(s, n, c);
    var last := |c.iend| - 1;
    assert InRun(c, last, n - 2);
    var c' := Extended(c, n);
    forall k, j | InRun(c', k, j)
      ensures ind[j].v == ind[c'.ibeg[k]].v
    {
      if j < n - 1 {
        assert InRun(c, k, j);
      }
    }
  }

  lemma ExtendKeepsPositions(ind: seq<Val>, s: nat, n: nat, c: Segments)
    requires s + 1 < n <= |ind| && forall j :: s <= j < n ==> ind[j].Num?
    requires Shape(s, n - 1, c) && Positioned(ind, s, n - 1, c) && |c.iend| > 0
    ensures Shape(s, n, Extended(c, n)) && Positioned(ind, s, n, Extended(c, n))
  {
    ExtendKeepsShape(s, n, c);
  }

  lemma ExtendKeepsZeroOutside(ind: seq<Val>, s: nat, n: nat, c: Segments)
    requires s + 1 < n <= |ind| && forall j :: s <= j < n ==> ind[j].Num?
    requires Shape(s, n - 1, c) && ZeroOutside(ind, s, n - 1, c)
    requires |c.iend| > 0 && c.iend[|c.iend| - 1] == n - 1
    ensures ZeroOutside(ind, s, n, Extended(c, n))
  {
    var c' := Extended(c, n);
    var last := |c.iend| - 1;
    assert Covered(c', n - 1) by {
      assert InRun(c', last, n - 1);
    }
    forall j | Covered(c, j)
      ensures Covered(c', j)
    {
      var k :| InRun(c, k, j);
      assert InRun(c', k, j);
    }
    forall j | s <= j < n && !Covered(c', j)
      ensures ind[j].v == 0.0
    {
      assert !Covered(c, j);
    }
  }

  lemma ExtendKeepsMaximal(ind: seq<Val>, s: nat, n: nat, c: Segments)
    requires s + 1 < n <= |ind| && forall j :: s <= j < n ==> ind[j].Num?
    requires Shape(s, n - 1, c) && Maximal(ind, s, n - 1, c)
    requires |c.iend| > 0 && c.iend[|c.iend| - 1] == n - 1
    ensures Shape(s, n, Extended(c, n)) && Maximal(ind, s, n, Extended(c, n))
  {
    ExtendKeepsShape(s, n, c);
  }

  /** A non-zero cell equal to the one before extends the open run. */
  lemma SegmentedExtend(ind: seq<Val>, s: nat, n: nat)
    requires s + 1 < n <= |ind| && forall j :: s <= j < n ==> ind[j].Num?
    requires Segmented(ind, s, n - 1, Segs(ind, s, n - 1))
    requires ind[n - 1].v != 0.0 && ind[n - 1].v == ind[n - 2].v
    ensures Segmented(ind, s, n, Segs(ind, s, n))
  {
    var c := Segs(ind, s, n - 1);
    OpenAtEnd(ind, s, n - 1, c);
    assert Segs(ind, s, n) == Extended(c, n);
    ExtendKeepsRuns(ind, s, n, c);
    ExtendKeepsPositions(ind, s, n, c);
    ExtendKeepsZeroOutside(ind, s, n, c);
    ExtendKeepsMaximal(ind, s, n, c);
  }

  lemma OpenKeepsShape(s: nat, n: nat, c: Segments)
    requires s + 1 < n && Shape(s, n - 1, c)
    ensures Shape(s, n, Opened(c, n - 1, 0))
  {
  }

  lemma OpenKeepsRuns(ind: seq<Val>, s: nat, n: nat, c: Segments)
    requires s + 1 < n <= |ind| && forall j :: s <= j < n ==> ind[j].Num?
    requires Shape(s, n - 1, c) && RunsConstant(ind, s, n - 1, c) && ind[n - 1].v != 0.0
    ensures Shape(s, n, Opened(c, n - 1, Trunc(ind[n - 1].v)))
    ensures RunsConstant(ind, s, n, Opened(c, n - 1, Trunc(ind[n - 1].v)))
  {
    var c' := Opened(c, n - 1, Trunc(ind[n - 1].v));
    forall k, j | InRun(c', k, j)
      ensures ind[j].v == ind[c'.ibeg[k]].v
    {
      if k < |c.ibeg| {
        assert InRun(c, k, j);
      }
    }
  }

  lemma OpenKeepsPositions(ind: seq<Val>, s: nat, n: nat, c: Segments)
    requires s + 1 < n <= |ind| && forall j :: s <= j < n ==> ind[j].Num?
    requires Shape(s, n - 1, c) && Positioned(ind, s, n - 1, c)
    ensures Shape(s, n, Opened(c, n - 1, Trunc(ind[n - 1].v)))
    ensures Positioned(ind, s, n, Opened(c, n - 1, Trunc(ind[n - 1].v)))
  {
  }

  lemma OpenKeepsZeroOutside(ind: seq<Val>, s: nat, n: nat, c: Segments, p: int)
    requires s + 1 < n <= |ind| && forall j :: s <= j < n ==> ind[j].Num?
    requires Shape(s, n - 1, c) && ZeroOutside(ind, s, n - 1, c)
    ensures ZeroOutside(ind, s, n, Opened(c, n - 1, p))
  {
    var c' := Opened(c, n - 1, p);
    assert Covered(c', n - 1) by {
      assert InRun(c', |c.ibeg|, n - 1);
    }
    forall j | Covered(c, j)
      ensures Covered(c', j)
    {
      var k :| InRun(c, k, j);
      assert InRun(c', k, j);
    }
    forall j | s <= j < n && !Covered(c', j)
      ensures ind[j].v == 0.0
    {
      assert !Covered(c, j);
    }
  }

  lemma OpenKeepsMaximal(ind: seq<Val>, s: nat, n: nat, c: Segments, p: int)
    requires s + 1 < n <= |ind| && forall j :: s <= j < n ==> ind[j].Num?
    requires Shape(s, n - 1, c) && Maximal(ind, s, n - 1, c) && ind[n - 1].v != ind[n - 2].v
    ensures Shape(s, n, Opened(c, n - 1, p)) && Maximal(ind, s, n, Opened(c, n - 1, p))
  {
  }

  /** A non-zero cell that differs from the one before opens a run. */
  lemma SegmentedOpen(ind: seq<Val>, s: nat, n: nat)
    requires s + 1 < n <= |ind| && forall j :: s <= j < n ==> ind[j].Num?
    requires Segmented(ind, s, n - 1, Segs(ind, s, n - 1))
    requires ind[n - 1].v != 0.0 && ind[n - 1].v != ind[n - 2].v
    ensures Segmented(ind, s, n, Segs(ind, s, n))
  {
    var c := Segs(ind, s, n - 1);
    assert Segs(ind, s, n) == Opened(c, n - 1, Trunc(ind[n - 1].v));
    OpenKeepsRuns(ind, s, n, c);
    OpenKeepsPositions(ind, s, n, c);
    OpenKeepsZeroOutside(ind, s, n, c, Trunc(ind[n - 1].v));
    OpenKeepsMaximal(ind, s, n, c, Trunc(ind[n - 1].v));
  }

  lemma {:induction false} SegsSegmented(ind: seq<Val>, s: nat, n: nat)
    requires s < n <= |ind| && forall j :: s <= j < n ==> ind[j].Num?
    ensures Segmented(ind, s, n, Segs(ind, s, n))
    decreases n
  {
    if n == s + 1 {
      var c := Segs(ind, s, n);
      if ind[s].v != 0.0 {
        assert InRun(c, 0, s);
      }
    } else {
      SegsSegmented(ind, s, n - 1);
      if ind[n - 1].v == 0.0 {
        SegmentedZero(ind, s, n);
      } else if ind[n - 1].v == ind[n - 2].v {
        SegmentedExtend(ind, s, n);
      } else {
        SegmentedOpen(ind, s, n);
      }
    }
  }

  /** The run open at `n - 1`, if any, is the last one and ends at `n`. */
  lemma SegsOpenAtEnd(ind: seq<Val>, s: nat, n: nat)
    requires s < n <= |ind| && forall j :: s <= j < n ==> ind[j].Num?
    ensures var c := Segs(ind, s, n);
      && |c.ibeg| == |c.iend| == |c.position|
      && (ind[n - 1].v != 0.0 <==> |c.iend| > 0 && c.iend[|c.iend| - 1] == n)
  {
    SegsSegmented(ind, s, n);
    OpenAtEnd(ind, s, n, Segs(ind, s, n));
  }

  /** The shape of the trades of an indicator: one exit and one position per
      entry; entries and exits between the first number and the last index,
      every trade at least one bar long and exiting no later than the next
      entry; the indicator constant and non-zero over each trade, with the
      position its truncation; zero between trades; and trades maximal. */
  lemma TradesSegmented(ind: seq<Val>)
    requires NoGaps(ind) && LeadingNACount(ind) + 1 < |ind|
    ensures forall j :: LeadingNACount(ind) <= j < |ind| - 1 ==> ind[j].Num?
    ensures Segmented(ind, LeadingNACount(ind), |ind| - 1, Trades(ind))
  {
    NumbersAfterLeading(ind);
    var s := LeadingNACount(ind);
    var n := |ind| - 1;
    SegsSegmented(ind, s, n);
    assert Trades(ind) == Segs(ind, s, n);
  }

  /** With fewer than two cells after the leading NAs there is no trade. */
  lemma NoTradesWhenShort(ind: seq<Val>)
    requires NoGaps(ind) && LeadingNACount(ind) + 1 >= |ind|
    ensures Trades(ind) == Segments([], [], [])
  {
  }

  /** `tradesFromIndicator`: skips the leading NAs, opens a trade on a
      non-zero first value, then on every change closes the open trade and
      opens one for a non-zero new value; a trade still open at the last
      index exits there. The outputs start empty. */
  method TradesFromIndicator(indicator: seq<Val>) returns (ibeg: seq<int>, iend: seq<int>, position: seq<int>)
    requires NoGaps(indicator)
    ensures Segments(ibeg, iend, position) == Trades(indicator)
  {
    NumbersAfterLeading(indicator);
    ghost var s := LeadingNACount(indicator);
    ibeg, iend, position := [], [], [];
    var lastId := |indicator| - 1;
    var ii := 0;
    while ii < lastId && indicator[ii].NA?
      invariant 0 <= ii <= s
      invariant ii <= lastId || ii == 0
    {
      ii := ii + 1;
    }
    if ii < lastId {
      assert ii == s;
      if indicator[ii].v != 0.0 {
        ibeg := ibeg + [ii];
        position := position + [Trunc(indicator[ii].v)];
      }
      ii := ii + 1;
      while ii < lastId
        invariant s + 1 <= ii <= lastId
        invariant var c := Segs(indicator, s, ii);
          && ibeg == c.ibeg && position == c.position
          && (if indicator[ii - 1].v != 0.0 then iend + [ii] == c.iend else iend == c.iend)
      {
        ibeg, iend, position := TradeBar(indicator, s, ii, ibeg, iend, position);
        ii := ii + 1;
      }
      SegsOpenAtEnd(indicator, s, ii);
    }
    if |ibeg| > |iend| {
      iend := iend + [lastId];
    }
  }

  /** One pass of the main loop of `tradesFromIndicator`, on bar `ii`: a
      change of value closes the open trade, if any, and opens a new one
      unless the new value is flat. The trade still open is kept without
      its exit. */
  method TradeBar(indicator: seq<Val>, ghost s: nat, ii: nat, ibeg: seq<int>, iend: seq<int>, position: seq<int>)
    returns (ibeg': seq<int>, iend': seq<int>, position': seq<int>)
    requires s < ii < |indicator| && forall j :: s <= j < |indicator| ==> indicator[j].Num?
    requires var c := Segs(indicator, s, ii);
      && ibeg == c.ibeg && position == c.position
      && (if indicator[ii - 1].v != 0.0 then iend + [ii] == c.iend else iend == c.iend)
    ensures var c := Segs(indicator, s, ii + 1);
      && ibeg' == c.ibeg && position' == c.position
      && (if indicator[ii].v != 0.0 then iend' + [ii + 1] == c.iend else iend' == c.iend)
  {
    SegsOpenAtEnd(indicator, s, ii);
    ibeg', iend', position' := ibeg, iend, position;
    if indicator[ii].v != indicator[ii - 1].v {
      if indicator[ii - 1].v != 0.0 {
        iend' := iend' + [ii];
      }
      if indicator[ii].v != 0.0 {
        ibeg' := ibeg' + [ii];
        position' := position' + [Trunc(indicator[ii].v)];
      }
    }
  }

  /** The return one bar earns for a position: the relative price change,
      or the price change in dollar mode, times the position. */
  function BarReturn(now: real, prev: real, pos: int, inDollars: bool): real
    requires inDollars || prev != 0.0
  {
    (if inDollars then now - prev else now / prev - 1.0) * pos as real
  }

  /** A trade whose bars are inside the close series and whose divisors are
      non-zero: its entry and exit, the closes before its bars and the
      close before its exit. */
  predicate TradeFits(cl: seq<real>, b: int, e: int, inDollars: bool)
  {
    && 0 <= b && 1 <= e < |cl|
    && (!inDollars ==> forall j :: 0 <= j < |cl| && (b <= j < e || j == e - 1) ==> cl[j] != 0.0)
  }

  predicate ReturnsPre(cl: seq<real>, ibeg: seq<int>, iend: seq<int>, position: seq<int>,
                       exitPrice: seq<real>, inDollars: bool)
  {
    && |iend| >= |ibeg| && |position| >= |ibeg| && |exitPrice| >= |ibeg|
    && forall k :: 0 <= k < |ibeg| ==> TradeFits(cl, ibeg[k], iend[k], inDollars)
  }

  /** Trade `k` writes bar `j`: a bar strictly inside it or its exit bar. */
  predicate Writes(ibeg: seq<int>, iend: seq<int>, k: int, j: int)
    requires 0 <= k < |ibeg| && k < |iend|
  {
    ibeg[k] < j < iend[k] || j == iend[k]
  }

  /** What trade `k` writes into bar `j`: the bar's own return inside the
      trade, the exit price against the previous close on the exit bar. */
  function Written(cl: seq<real>, ibeg: seq<int>, iend: seq<int>, position: seq<int>,
                   exitPrice: seq<real>, inDollars: bool, k: int, j: int): real
    requires ReturnsPre(cl, ibeg, iend, position, exitPrice, inDollars)
    requires 0 <= k < |ibeg| && Writes(ibeg, iend, k, j)
  {
    if j < iend[k] then BarReturn(cl[j], cl[j - 1], position[k], inDollars)
    else BarReturn(exitPrice[k], cl[iend[k] - 1], position[k], inDollars)
  }

  /** The returns after the first `n` trades, over a zero-filled series. */
  function ReturnsAfter(cl: seq<real>, ibeg: seq<int>, iend: seq<int>, position: seq<int>,
                        exitPrice: seq<real>, inDollars: bool, n: nat): (r: seq<real>)
    requires ReturnsPre(cl, ibeg, iend, position, exitPrice, inDollars) && n <= |ibeg|
    ensures |r| == |cl|
  {
    if n == 0 then seq(|cl|, _ => 0.0)
    else
      var r := ReturnsAfter(cl, ibeg, iend, position, exitPrice, inDollars, n - 1);
      seq(|cl|, j requires 0 <= j < |cl| =>
        if Writes(ibeg, iend, n - 1, j) then Written(cl, ibeg, iend, position, exitPrice, inDollars, n - 1, j)
        else if j < |r| then r[j] else 0.0)
  }

  /** Each bar holds what the last trade writing it wrote, and 0 when no
      trade writes it; the series is as long as the closes. */
  lemma {:induction false} ReturnsAt(cl: seq<real>, ibeg: seq<int>, iend: seq<int>, position: seq<int>,
                                     exitPrice: seq<real>, inDollars: bool, n: nat, j: int)
    requires ReturnsPre(cl, ibeg, iend, position, exitPrice, inDollars) && n <= |ibeg|
    requires 0 <= j < |cl|
    ensures var r := ReturnsAfter(cl, ibeg, iend, position, exitPrice, inDollars, n);
      && |r| == |cl|
      && ((forall k :: 0 <= k < n ==> !Writes(ibeg, iend, k, j)) ==> r[j] == 0.0)
      && (forall k :: (0 <= k < n && Writes(ibeg, iend, k, j)
                       && forall k' :: k < k' < n ==> !Writes(ibeg, iend, k', j)) ==>
            r[j] == Written(cl, ibeg, iend, position, exitPrice, inDollars, k, j))
  {
    if n > 0 {
      ReturnsAt(cl, ibeg, iend, position, exitPrice, inDollars, n - 1, j);
      var r := ReturnsAfter(cl, ibeg, iend, position, exitPrice, inDollars, n);
      var r0 := ReturnsAfter(cl, ibeg, iend, position, exitPrice, inDollars, n - 1);
      assert r[j] == if Writes(ibeg, iend, n - 1, j)
                     then Written(cl, ibeg, iend, position, exitPrice, inDollars, n - 1, j) else r0[j];
      forall k | 0 <= k < n && Writes(ibeg, iend, k, j) && forall k' :: k < k' < n ==> !Writes(ibeg, iend, k', j)
        ensures r[j] == Written(cl, ibeg, iend, position, exitPrice, inDollars, k, j)
      {
        if k < n - 1 {
          assert !Writes(ibeg, iend, n - 1, j);
        }
      }
    }
  }

  /** `calculateReturns`: a zero-filled series as long as the closes; for
      each trade in turn, the bars strictly inside it get their return and
      the exit bar gets the exit price's return against the previous close.
      Both modes share one loop: only the formula of `BarReturn` differs. */
  method CalculateReturns(cl: seq<real>, ibeg: seq<int>, iend: seq<int>, position: seq<int>,
                          exitPrice: seq<real>, inDollars: bool) returns (rets: seq<real>)
    requires ReturnsPre(cl, ibeg, iend, position, exitPrice, inDollars)
    ensures rets == ReturnsAfter(cl, ibeg, iend, position, exitPrice, inDollars, |ibeg|)
  {
    var r := new real[|cl|](_ => 0.0);
    for ii := 0 to |ibeg|
      invariant r[..] == ReturnsAfter(cl, ibeg, iend, position, exitPrice, inDollars, ii)
    {
      ghost var before := r[..];
      var jj := ibeg[ii] + 1;
      while jj < iend[ii]
        invariant ibeg[ii] + 1 <= jj && (jj <= iend[ii] || jj == ibeg[ii] + 1)
        invariant forall j :: 0 <= j < r.Length ==>
          r[j] == if ibeg[ii] < j < jj then Written(cl, ibeg, iend, position, exitPrice, inDollars, ii, j) else before[j]
      {
        r[jj] := BarReturn(cl[jj], cl[jj - 1], position[ii], inDollars);
        jj := jj + 1;
      }
      r[iend[ii]] := BarReturn(exitPrice[ii], cl[iend[ii] - 1], position[ii], inDollars);
      assert r[..] == ReturnsAfter(cl, ibeg, iend, position, exitPrice, inDollars, ii + 1);
    }
    rets := r[..];
  }
}
